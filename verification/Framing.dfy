/** Messages on a byte stream (`Msg.cpp`): a four-byte little-endian length, then the text. */
module Framing {
  import opened Network

  const TWO_32 := 0x1_0000_0000

  /** `msghead.msgLen = outStr.size()`: the low 32 bits of the length, lowest byte first. */
  function Header(length: nat): (h: seq<byte>)
    ensures |h| == 4
  {
    var n := length % TWO_32;
    [(n % 256) as byte, (n / 256 % 256) as byte, (n / 65536 % 256) as byte, (n / 16777216) as byte]
  }

  /** `int msgLen = msghead->msgLen`: the four bytes as an unsigned number, then as a signed one. */
  function MsgLen(h: seq<byte>): int
    requires |h| == 4
  {
    var n := h[0] as int + 256 * h[1] as int + 65536 * h[2] as int + 16777216 * h[3] as int;
    if n <= INT_MAX then n else n - TWO_32
  }

  function Frame(body: seq<byte>): seq<byte> {
    Header(|body|) + body
  }

  function Frames(bodies: seq<seq<byte>>): seq<byte> {
    if bodies == [] then [] else Frame(bodies[0]) + Frames(bodies[1..])
  }

  lemma FourDigits(n: nat)
    requires n < TWO_32
    ensures n % 256 + 256 * (n / 256 % 256) + 65536 * (n / 65536 % 256) + 16777216 * (n / 16777216) == n
  {
    assert n / 65536 == (n / 256) / 256 && n / 16777216 == (n / 65536) / 256;
  }

  /** The lowest byte comes first. */
  lemma HeaderBytes()
    ensures Header(0x0403_0201) == [1, 2, 3, 4]
  {
  }

  /** A length survives its header exactly when it fits in a signed 32-bit number. */
  lemma HeaderRoundTripExactly(length: nat)
    ensures MsgLen(Header(length)) == length <==> length <= INT_MAX
  {
    FourDigits(length % TWO_32);
  }

  lemma {:induction false} FramesAppend(a: seq<seq<byte>>, b: seq<seq<byte>>)
    ensures Frames(a + b) == Frames(a) + Frames(b)
  {
    if a == [] {
      assert a + b == b;
    } else {
      assert (a + b)[1..] == a[1..] + b;
      FramesAppend(a[1..], b);
    }
  }

  /** Zero once the whole frame is written; otherwise the error of the last write, after a proper prefix. */
  method SendMsg(fd: Fd, body: seq<byte>) returns (ret: int)
    requires |body| + 4 <= INT_MAX
    modifies fd
    ensures ret <= 0
    ensures ret == 0 ==> fd.outgoing == old(fd.outgoing) + Frame(body)
    ensures ret < 0 ==> exists p | 0 <= p < |Frame(body)| :: fd.outgoing == old(fd.outgoing) + Frame(body)[..p]
    ensures ret < 0 ==> fd.calls > old(fd.calls) && fd.last == ret
    ensures fd.incoming == old(fd.incoming)
  {
    var frame := Frame(body);
    var buff := new byte[4 + |body|](i requires 0 <= i < |frame| => frame[i]);
    assert buff[..|frame|] == frame;
    assert forall p :: 0 <= p <= |frame| ==> buff[..p] == frame[..p];
    ret := SendBuff(fd, buff, 4 + |body|);
  }

  /** A message, a closed stream, or a header or text cut short (which the program does not survive). */
  datatype Received = Message(body: seq<byte>) | Closed | CutShort

  method ReadOneMsg(fd: Fd) returns (r: Received)
    modifies fd
    ensures r.Message? ==> exists h: seq<byte> ::
            |h| == 4 && MsgLen(h) == |r.body| && old(fd.incoming) == h + r.body + fd.incoming
    ensures r.Closed? <==> fd.incoming == old(fd.incoming)
    ensures fd.calls > old(fd.calls) && fd.outgoing == old(fd.outgoing)
    ensures !r.Message? ==> fd.last <= 0 || exists h: seq<byte> ::
              h <= old(fd.incoming) && |h| == 4 && (r.CutShort? && (MsgLen(h) < 0 || MsgLen(h) == INT_MAX))
  {
    var head := ReadBuff(fd, 4);
    if |head| <= 0 { return Closed; }
    if |head| < 4 { return CutShort; }
    var len := MsgLen(head);
    if len < 0 || len == INT_MAX { return CutShort; }
    var body := ReadBuff(fd, len);
    if |body| < len { return CutShort; }
    assert head + body + fd.incoming == head + (body + fd.incoming);
    return Message(body);
  }

  /** Whatever the fragments, a message read off a stream that begins with a frame is that frame's. */
  lemma MessageIsTheFrame(
    incoming: seq<byte>, h: seq<byte>, got: seq<byte>, left: seq<byte>, body: seq<byte>, rest: seq<byte>)
    requires |h| == 4 && MsgLen(h) == |got| && incoming == h + got + left
    requires |body| <= INT_MAX && incoming == Frame(body) + rest
    ensures got == body && left == rest
  {
    assert h == incoming[..4] == Header(|body|);
    HeaderRoundTripExactly(|body|);
    assert got == incoming[4..4 + |got|] == body;
    assert left == incoming[4 + |got|..] == rest;
  }

  // ----- one sender, one receiver, interleaved byte by byte -----

  /** `started` messages have been handed to `SendBuff` and `left` is still to be written of the last of them;
      the receiver is in a `ReadBuff` for `need` bytes, of a header or of a text, and has `acc`. */
  datatype Link = Link(
    started: nat, left: seq<byte>, wire: seq<byte>,
    inBody: bool, need: nat, acc: seq<byte>, got: seq<seq<byte>>)

  const IDLE := Link(0, [], [], false, 4, [], [])

  datatype Step = StartMessage | WriteSome(n: nat) | ReadSome(n: nat)

  predicate Allowed(msgs: seq<seq<byte>>, l: Link, s: Step) {
    match s
    case StartMessage => l.left == [] && l.started < |msgs|
    case WriteSome(n) => n <= |l.left|
    case ReadSome(n) => 0 < n <= |l.wire| && |l.acc| + n <= l.need
  }

  /** What the receiver does with what it has read so far. */
  function Complete(l: Link): Link {
    if |l.acc| < l.need then l
    else if l.inBody then l.(inBody := false, need := 4, acc := [], got := l.got + [l.acc])
    else if |l.acc| == 4 && MsgLen(l.acc) > 0 then l.(inBody := true, need := MsgLen(l.acc), acc := [])
    else
      // Nothing more to read; no message of at most INT_MAX bytes has a negative length.
      l.(acc := [], got := l.got + [[]])
  }

  function Apply(msgs: seq<seq<byte>>, l: Link, s: Step): Link
    requires Allowed(msgs, l, s)
  {
    match s
    case StartMessage => l.(started := l.started + 1, left := Frame(msgs[l.started]))
    case WriteSome(n) => l.(left := l.left[n..], wire := l.wire + l.left[..n])
    case ReadSome(n) => Complete(l.(acc := l.acc + l.wire[..n], wire := l.wire[n..]))
  }

  function HeadRead(l: Link): seq<byte> {
    if l.inBody then Header(l.need) else []
  }

  /** The bytes the receiver has taken off the wire. */
  function Consumed(l: Link): seq<byte> {
    Frames(l.got) + HeadRead(l) + l.acc
  }

  /** The bytes still to come: in flight, then unwritten. */
  function Ahead(msgs: seq<seq<byte>>, l: Link): seq<byte>
    requires l.started <= |msgs|
  {
    l.wire + (l.left + Frames(msgs[l.started..]))
  }

  ghost predicate Inv(msgs: seq<seq<byte>>, l: Link) {
    && l.started <= |msgs|
    && Consumed(l) + Ahead(msgs, l) == Frames(msgs)
    && l.got <= msgs && |l.acc| < l.need
    && (if l.inBody then |l.got| < |msgs| && l.need == |msgs[|l.got|]| else l.need == 4)
  }

  ghost predicate Runs(msgs: seq<seq<byte>>, l: Link, steps: seq<Step>, l': Link)
    decreases steps
  {
    if steps == [] then l' == l
    else Allowed(msgs, l, steps[0]) && Runs(msgs, Apply(msgs, l, steps[0]), steps[1..], l')
  }

  /** What follows the delivered messages on the stream are the frames of the others. */
  lemma NextFrame(msgs: seq<seq<byte>>, got: seq<seq<byte>>, tail: seq<byte>)
    requires got <= msgs && Frames(got) + tail == Frames(msgs)
    ensures tail == Frames(msgs[|got|..])
    ensures tail != [] ==> |got| < |msgs| && tail == Header(|msgs[|got|]|) + msgs[|got|] + Frames(msgs[|got| + 1..])
  {
    var rest := msgs[|got|..];
    assert msgs == got + rest;
    FramesAppend(got, rest);
    assert tail == Frames(msgs)[|Frames(got)|..] == Frames(rest);
    if tail != [] {
      assert rest[0] == msgs[|got|] && rest[1..] == msgs[|got| + 1..];
    }
  }

  lemma Regroup(a: seq<byte>, b: seq<byte>, c: seq<byte>)
    ensures (a + b) + c == a + (b + c)
  {
  }

  lemma StartKeepsInv(msgs: seq<seq<byte>>, l: Link)
    requires Inv(msgs, l) && Allowed(msgs, l, StartMessage)
    ensures Inv(msgs, Apply(msgs, l, StartMessage))
  {
    var rest := msgs[l.started..];
    assert rest[0] == msgs[l.started] && rest[1..] == msgs[l.started + 1..];
    assert [] + Frames(rest) == Frames(rest);
    assert Ahead(msgs, Apply(msgs, l, StartMessage)) == Ahead(msgs, l);
  }

  lemma WriteKeepsInv(msgs: seq<seq<byte>>, l: Link, n: nat)
    requires Inv(msgs, l) && Allowed(msgs, l, WriteSome(n))
    ensures Inv(msgs, Apply(msgs, l, WriteSome(n)))
  {
    var rest := Frames(msgs[l.started..]);
    assert l.left == l.left[..n] + l.left[n..];
    Regroup(l.wire, l.left[..n], l.left[n..] + rest);
    Regroup(l.left[..n], l.left[n..], rest);
    assert Ahead(msgs, Apply(msgs, l, WriteSome(n))) == Ahead(msgs, l);
  }

  /** Reading only moves bytes from the wire to the receiver; the rest is `Complete`. */
  lemma ReadKeepsInv(msgs: seq<seq<byte>>, l: Link, n: nat)
    requires Inv(msgs, l) && Allowed(msgs, l, ReadSome(n)) && forall m :: m in msgs ==> |m| <= INT_MAX
    ensures Inv(msgs, Apply(msgs, l, ReadSome(n)))
  {
    var mid := l.(acc := l.acc + l.wire[..n], wire := l.wire[n..]);
    MoveBytes(Frames(l.got) + HeadRead(l), l.acc, l.wire, n, l.left + Frames(msgs[l.started..]));
    assert Consumed(mid) + Ahead(msgs, mid) == Consumed(l) + Ahead(msgs, l);
    CompleteKeepsInv(msgs, mid);
  }

  lemma MoveBytes(c: seq<byte>, acc: seq<byte>, wire: seq<byte>, n: nat, more: seq<byte>)
    requires n <= |wire|
    ensures (c + (acc + wire[..n])) + (wire[n..] + more) == (c + acc) + (wire + more)
  {
  }

  lemma CompleteKeepsInv(msgs: seq<seq<byte>>, mid: Link)
    requires forall m :: m in msgs ==> |m| <= INT_MAX
    requires mid.started <= |msgs| && mid.got <= msgs && 0 < |mid.acc| <= mid.need
    requires Consumed(mid) + Ahead(msgs, mid) == Frames(msgs)
    requires if mid.inBody then |mid.got| < |msgs| && mid.need == |msgs[|mid.got|]| else mid.need == 4
    ensures Inv(msgs, Complete(mid))
  {
    if |mid.acc| == mid.need {
      var after := Ahead(msgs, mid);
      Regroup(Frames(mid.got) + HeadRead(mid), mid.acc, after);
      Regroup(Frames(mid.got), HeadRead(mid), mid.acc + after);
      NextFrame(msgs, mid.got, HeadRead(mid) + (mid.acc + after));
      var m := msgs[|mid.got|];
      assert m in msgs;
      HeaderRoundTripExactly(|m|);
      if mid.inBody {
        BodyIsNext(msgs, mid, m, after);
      } else {
        HeadIsNext(msgs, mid, m, after);
      }
    }
  }

  /** A text read in full is the next message. */
  lemma BodyIsNext(msgs: seq<seq<byte>>, mid: Link, m: seq<byte>, after: seq<byte>)
    requires mid.started <= |msgs| && mid.got <= msgs && |mid.got| < |msgs| && m == msgs[|mid.got|] && mid.inBody
    requires |mid.acc| == mid.need == |m| > 0 && Consumed(mid) + after == Frames(msgs)
    requires Header(mid.need) + (mid.acc + after) == Header(|m|) + m + Frames(msgs[|mid.got| + 1..])
    ensures Complete(mid).got <= msgs && Consumed(Complete(mid)) == Consumed(mid)
  {
    CutText(Header(|m|), mid.acc, after, m, Frames(msgs[|mid.got| + 1..]));
    DeliverSame(msgs, mid.got, m);
    assert Consumed(Complete(mid)) == Frames(mid.got + [m]);
  }

  lemma CutText(h: seq<byte>, acc: seq<byte>, after: seq<byte>, m: seq<byte>, rest: seq<byte>)
    requires |acc| == |m| && h + (acc + after) == h + m + rest
    ensures acc == m
  {
    assert acc == (h + (acc + after))[|h|..|h| + |acc|];
    assert m == (h + m + rest)[|h|..|h| + |m|];
  }

  /** A header read in full is the next message's length. */
  lemma HeadIsNext(msgs: seq<seq<byte>>, mid: Link, m: seq<byte>, after: seq<byte>)
    requires mid.started <= |msgs| && mid.got <= msgs && |mid.got| < |msgs| && m == msgs[|mid.got|] && !mid.inBody
    requires |mid.acc| == mid.need == 4 && MsgLen(Header(|m|)) == |m|
    requires [] + (mid.acc + after) == Header(|m|) + m + Frames(msgs[|mid.got| + 1..])
    ensures Complete(mid).got <= msgs && Consumed(Complete(mid)) == Consumed(mid)
    ensures |m| > 0 ==> Complete(mid).inBody && Complete(mid).need == |m|
    ensures |m| == 0 ==> !Complete(mid).inBody && Complete(mid).need == 4
  {
    var tail := [] + (mid.acc + after);
    assert mid.acc == tail[..4] == Header(|m|);
    if |m| == 0 {
      assert m == [];
      DeliverSame(msgs, mid.got, m);
    }
  }

  lemma DeliverSame(msgs: seq<seq<byte>>, got: seq<seq<byte>>, m: seq<byte>)
    requires got <= msgs && |got| < |msgs| && m == msgs[|got|]
    ensures got + [m] <= msgs
    ensures Frames(got + [m]) == (Frames(got) + Header(|m|)) + m
  {
    PrefixOneMore(msgs, got);
    FramesOneMore(got, m);
  }

  lemma PrefixOneMore(msgs: seq<seq<byte>>, got: seq<seq<byte>>)
    requires got <= msgs && |got| < |msgs|
    ensures got + [msgs[|got|]] <= msgs
  {
  }

  lemma FramesOneMore(got: seq<seq<byte>>, m: seq<byte>)
    ensures Frames(got + [m]) == (Frames(got) + Header(|m|)) + m
  {
    FramesAppend(got, [m]);
    FramesOfOne(m);
    Regroup(Frames(got), Header(|m|), m);
  }

  lemma FramesOfOne(m: seq<byte>)
    ensures Frames([m]) == Frame(m)
  {
    assert [m][1..] == [];
    assert Frame(m) + [] == Frame(m);
  }

  lemma {:induction false} RunKeepsInv(msgs: seq<seq<byte>>, l: Link, steps: seq<Step>, l': Link)
    requires Inv(msgs, l) && Runs(msgs, l, steps, l') && forall m :: m in msgs ==> |m| <= INT_MAX
    ensures Inv(msgs, l')
    decreases steps
  {
    if steps != [] {
      match steps[0] {
        case StartMessage => StartKeepsInv(msgs, l);
        case WriteSome(n) => WriteKeepsInv(msgs, l, n);
        case ReadSome(n) => ReadKeepsInv(msgs, l, n);
      }
      RunKeepsInv(msgs, Apply(msgs, l, steps[0]), steps[1..], l');
    }
  }

  /** However the two loops interleave and however the bytes are split, the stream neither loses, repeats nor
      reorders a byte, the messages delivered are the first of those sent, and once nothing is left to
      write or to read they are all of them. */
  lemma MessagesArriveInOrder(msgs: seq<seq<byte>>, steps: seq<Step>, l: Link)
    requires Runs(msgs, IDLE, steps, l) && forall m :: m in msgs ==> |m| <= INT_MAX
    ensures Consumed(l) + l.wire <= Frames(msgs)
    ensures l.got <= msgs
    ensures l.started == |msgs| && l.left == [] && l.wire == [] ==> l.got == msgs && l.acc == []
  {
    assert Consumed(IDLE) == [] && msgs[0..] == msgs;
    RunKeepsInv(msgs, IDLE, steps, l);
    Regroup(Consumed(l), l.wire, l.left + Frames(msgs[l.started..]));
    if l.started == |msgs| && l.left == [] && l.wire == [] {
      AllArrived(msgs, l);
    }
  }

  lemma AllArrived(msgs: seq<seq<byte>>, l: Link)
    requires Inv(msgs, l) && l.started == |msgs| && l.left == [] && l.wire == []
    ensures l.got == msgs && l.acc == []
  {
    var tail := HeadRead(l) + l.acc;
    assert Ahead(msgs, l) == [] && Consumed(l) + [] == Consumed(l);
    Regroup(Frames(l.got), HeadRead(l), l.acc);
    NextFrame(msgs, l.got, tail);
    assert |tail| < if l.inBody then 4 + l.need else 4;
    assert tail == [];
    assert |l.got| == |msgs|;
  }
}
