/** The client's loop: one request at a time to the server, one line at a time from the user. */
module Client {
  import opened Commands

  /** What wakes the loop: nothing, the socket (a reply, or an error and a reconnection that may fail), or
      the terminal (a chunk or an error, and whether `SendMsg` would succeed). */
  datatype Event =
    | Timeout
    | Reply(text: string)
    | SocketError(reconnects: bool)
    | Chunk(buff: string, sends: bool)
    | InputError

  /** `waiting` is `waitRecvFlg`; `handed` the requests given to `SendMsg`, `sent` how many it accepted;
      `lost` counts those dropped by a reconnection and `unasked` replies nobody was waiting for. */
  datatype State = State(
    waiting: bool, handed: seq<Request>, sent: nat, shown: seq<string>, lost: nat, unasked: nat, exited: bool)

  const START := State(false, [], 0, [], 0, 0, false)

  predicate Readable(e: Event) {
    e.Chunk? ==> |e.buff| < 1000 && forall w :: w in Tokens(CText(e.buff)) ==> |w| < 100
  }

  ghost function Apply(s: State, e: Event): State {
    if s.exited then s
    else
      match e
      case Timeout => s
      case Reply(text) =>
        s.(waiting := false, shown := s.shown + [text], unasked := s.unasked + if s.waiting then 0 else 1)
      case SocketError(reconnects) =>
        s.(waiting := false, lost := s.lost + if s.waiting then 1 else 0, exited := !reconnects)
      case InputError => s
      case Chunk(buff, sends) =>
        var o := Lookup(Tokens(CText(buff)));
        if s.waiting || !o.Send? then s
        else s.(handed := s.handed + [o.request], sent := s.sent + if sends then 1 else 0, waiting := sends)
  }

  ghost function After(es: seq<Event>): State {
    if es == [] then START else Apply(After(es[..|es| - 1]), es[|es| - 1])
  }

  class Loop {
    var waitRecvFlg: int
    var handed: seq<Request>
    var sent: nat
    var shown: seq<string>
    var lost: nat
    var unasked: nat
    var exited: bool

    ghost function View(): State
      reads this
    {
      State(waitRecvFlg != 0, handed, sent, shown, lost, unasked, exited)
    }

    constructor ()
      ensures View() == START
    {
      waitRecvFlg, handed, sent, shown, lost, unasked, exited := 0, [], 0, [], 0, 0, false;
    }

    /** One pass of the loop after `poll`; the socket is looked at before the terminal. */
    method Pass(e: Event)
      requires !exited && Readable(e)
      modifies this
      ensures View() == Apply(old(View()), e)
    {
      if e.Timeout? {
        return;
      }
      if e.Reply? || e.SocketError? {
        var waited := waitRecvFlg;
        waitRecvFlg := 0;
        if e.SocketError? {
          lost := lost + if waited != 0 then 1 else 0;
          if !e.reconnects {
            exited := true;
          }
          return;
        }
        unasked := unasked + if waited != 0 then 0 else 1;
        shown := shown + [e.text];
        return;
      }
      if e.InputError? || waitRecvFlg != 0 {
        return;
      }
      var o := Parse(e.buff);
      if !o.Send? {
        return;
      }
      handed := handed + [o.request];
      if !e.sends {
        return;
      }
      sent := sent + 1;
      waitRecvFlg := 1;
    }

    /** The loop over any sequence of events, until it exits. */
    method Run(es: seq<Event>)
      requires View() == START && forall e :: e in es ==> Readable(e)
      modifies this
      ensures View() == After(es)
    {
      var i := 0;
      assert es[..0] == [];
      while i < |es|
        invariant 0 <= i <= |es| && View() == After(es[..i])
      {
        assert es[..i + 1][..i] == es[..i];
        if !exited {
          Pass(es[i]);
        }
        i := i + 1;
      }
      assert es[..|es|] == es;
    }
  }

  // ----- results -----

  /** Every request accepted is answered on the screen, lost to a reconnection, or still awaited; replies
      nobody waited for are counted apart. */
  lemma {:induction false} Conservation(es: seq<Event>)
    ensures var s := After(es); s.sent + s.unasked == |s.shown| + s.lost + if s.waiting then 1 else 0
  {
    if es != [] {
      Conservation(es[..|es| - 1]);
    }
  }

  /** Requests the server has received on the present connection and not yet answered. */
  ghost function Owed(es: seq<Event>): int {
    if es == [] then 0
    else
      var past, e := es[..|es| - 1], es[|es| - 1];
      if After(past).exited then Owed(past)
      else if e.Reply? then Owed(past) - 1
      else if e.SocketError? then 0
      else Owed(past) + After(es).sent - After(past).sent
  }

  /** The server answers each request at most once and says nothing unasked. */
  ghost predicate FairServer(es: seq<Event>) {
    forall i :: 0 <= i < |es| && es[i].Reply? ==> Owed(es[..i]) > 0
  }

  /** Facing such a server, at most one request is ever outstanding, and none is answered twice or out of nothing. */
  lemma {:induction false} OneOutstanding(es: seq<Event>)
    requires FairServer(es)
    ensures var s := After(es);
            s.unasked == 0 && s.sent == |s.shown| + s.lost + if s.waiting then 1 else 0
    ensures !After(es).exited ==> Owed(es) == if After(es).waiting then 1 else 0
  {
    if es != [] {
      var past, e := es[..|es| - 1], es[|es| - 1];
      assert forall i :: 0 <= i < |past| ==> past[i] == es[i] && past[..i] == es[..i];
      assert FairServer(past);
      OneOutstanding(past);
      assert e.Reply? ==> Owed(past) > 0;
      Conservation(es);
    }
  }

  /** A request is sent only when nothing is owed: the server never finds a second one before it has
      answered the first. */
  lemma SendsOweNothing(es: seq<Event>, i: nat)
    requires FairServer(es) && i < |es| && After(es[..i]).sent < After(es[..i + 1]).sent
    ensures Owed(es[..i]) == 0
  {
    var past := es[..i];
    assert es[..i + 1][..i] == past;
    forall k | 0 <= k < |past| && past[k].Reply? ensures Owed(past[..k]) > 0 {
      assert past[..k] == es[..k];
    }
    OneOutstanding(past);
  }

  predicate FromServer(e: Event) {
    e.Reply? || e.SocketError?
  }

  /** The chunk says a request. */
  ghost predicate Asks(e: Event) {
    e.Chunk? && Lookup(Tokens(CText(e.buff))).Send?
  }

  /** A reconnection has failed, and the client has gone. */
  ghost predicate Gone(es: seq<Event>) {
    exists i :: 0 <= i < |es| && es[i].SocketError? && !es[i].reconnects
  }

  /** A request has gone out and the server has not been heard from since. */
  ghost predicate SentLast(es: seq<Event>, i: nat)
    requires i < |es|
  {
    Asks(es[i]) && es[i].sends && forall k :: i < k < |es| ==> !FromServer(es[k])
  }

  ghost predicate Awaiting(es: seq<Event>) {
    !Gone(es) && exists i :: 0 <= i < |es| && SentLast(es, i)
  }

  /** `waitRecvFlg` says just that, of the events alone. */
  lemma {:induction false} WaitingExactly(es: seq<Event>)
    ensures After(es).exited <==> Gone(es)
    ensures After(es).waiting <==> Awaiting(es)
  {
    if es != [] {
      var past, e := es[..|es| - 1], es[|es| - 1];
      WaitingExactly(past);
      assert es == past + [e];
      assert Gone(es) <==> Gone(past) || (e.SocketError? && !e.reconnects) by {
        assert forall i :: 0 <= i < |past| ==> past[i] == es[i];
      }
      forall i | 0 <= i < |past| ensures SentLast(es, i) <==> SentLast(past, i) && !FromServer(e) {
        assert forall k :: i < k < |past| ==> past[k] == es[k];
      }
      assert SentLast(es, |past|) <==> Asks(e) && e.sends;
      if SentLast(es, |past|) {
        assert Awaiting(es) <==> !Gone(es);
      } else {
        assert (exists i :: 0 <= i < |es| && SentLast(es, i)) <==>
          !FromServer(e) && exists i :: 0 <= i < |past| && SentLast(past, i);
      }
    }
  }

  /** The request a chunk becomes when it arrives at this point of the run, if any. */
  ghost function Accepted(es: seq<Event>, i: nat): seq<Request>
    requires i < |es|
  {
    if Asks(es[i]) && !Awaiting(es[..i]) && !Gone(es[..i]) then [Lookup(Tokens(CText(es[i].buff))).request] else []
  }

  ghost function AllAccepted(es: seq<Event>, n: nat): seq<Request>
    requires n <= |es|
  {
    if n == 0 then [] else AllAccepted(es, n - 1) + Accepted(es, n - 1)
  }

  /** The requests handed to `SendMsg` are, in order, what the chunks say that arrive with no request
      unanswered; a chunk that arrives in between is consumed and never becomes one. */
  lemma {:induction false} HandedAreTheAccepted(es: seq<Event>, n: nat)
    requires n <= |es|
    ensures After(es[..n]).handed == AllAccepted(es, n)
  {
    if n > 0 {
      HandedAreTheAccepted(es, n - 1);
      assert es[..n][..n - 1] == es[..n - 1];
      WaitingExactly(es[..n - 1]);
    }
  }

  /** What one event shows, sends and loses, told from the events before it alone. */
  ghost function ShownBy(past: seq<Event>, e: Event): seq<string> {
    if e.Reply? && !Gone(past) then [e.text] else []
  }

  ghost function SentBy(past: seq<Event>, e: Event): nat {
    if Asks(e) && e.sends && !Awaiting(past) && !Gone(past) then 1 else 0
  }

  ghost function LostBy(past: seq<Event>, e: Event): nat {
    if e.SocketError? && Awaiting(past) then 1 else 0
  }

  ghost function AllShown(es: seq<Event>): seq<string> {
    if es == [] then [] else AllShown(es[..|es| - 1]) + ShownBy(es[..|es| - 1], es[|es| - 1])
  }

  ghost function AllSent(es: seq<Event>): nat {
    if es == [] then 0 else AllSent(es[..|es| - 1]) + SentBy(es[..|es| - 1], es[|es| - 1])
  }

  ghost function AllLost(es: seq<Event>): nat {
    if es == [] then 0 else AllLost(es[..|es| - 1]) + LostBy(es[..|es| - 1], es[|es| - 1])
  }

  /** The screen shows the text of every reply until the client goes, in order and once; the requests sent are
      those accepted that `SendMsg` took, and those lost are awaited when the connection breaks. */
  lemma {:induction false} ShowsEveryReply(es: seq<Event>)
    ensures After(es).shown == AllShown(es) && After(es).sent == AllSent(es) && After(es).lost == AllLost(es)
  {
    if es != [] {
      ShowsEveryReply(es[..|es| - 1]);
      WaitingExactly(es[..|es| - 1]);
    }
  }

  /** Between two requests that were sent the server has been heard from. */
  lemma {:induction false} SendsAlternate(es: seq<Event>, i: nat, j: nat)
    requires i < j <= |es| && After(es[..i]).sent < After(es[..i + 1]).sent
    requires forall k :: i < k < j ==> !FromServer(es[k])
    ensures After(es[..j]).waiting && After(es[..j]).sent == After(es[..i + 1]).sent
  {
    assert es[..j][..j - 1] == es[..j - 1];
    if j > i + 1 {
      SendsAlternate(es, i, j - 1);
      assert !FromServer(es[j - 1]);
    }
  }
}
