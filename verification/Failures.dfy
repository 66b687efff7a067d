/** What a reported failure is worth: when the transaction can still commit after one, and when it cannot. */
module Failures {
  import opened Text
  import opened Records
  import opened Polling
  import opened Commitment
  import opened Atomicity
  import opened Mishaps

  ghost predicate AnyCommitted(w: World) {
    exists h :: InState(w, h, Committed)
  }

  /** Some continuation of the run ends with a committed participant. */
  ghost predicate CanCommit(w: World) {
    exists later, w' :: Runs(w, later, w') && AnyCommitted(w')
  }

  /** The participant has prepared, or is open with its prepare request still on the way. */
  predicate MayPrepare(w: World, h: nat) {
    h in w.recs && (w.recs[h].EverPrepared() || (w.recs[h].state.Begin? && h in w.inbox))
  }

  predicate AllMayPrepare(w: World) {
    w.plan.Some? && w.plan.value.list != [] && forall h :: h in w.plan.value.list ==> MayPrepare(w, h)
  }

  // ----- a participant that cannot prepare any more -----

  predicate Stuck(w: World, h: nat) {
    w.phase == Told(1) && InList(w, h) && !MayPrepare(w, h)
  }

  lemma StepKeepsStuck(w: World, e: Event, h: nat)
    requires Inv(w) && Allowed(w, e) && Stuck(w, h)
    ensures Stuck(Apply(w, e), h)
  {
    assert h in w.recs && RecOk(w, h);
    if e.PollRound? && e.h == h {
      StepGrows(w, e, h);
    }
  }

  lemma {:induction false} RunKeepsStuck(w: World, es: seq<Event>, w': World, h: nat)
    requires Inv(w) && Runs(w, es, w') && Stuck(w, h)
    ensures !AnyCommitted(w')
    decreases es
  {
    if es == [] {
      assert !MayPrepare(w, h) && InList(w, h);
      forall g ensures !InState(w, g, Committed) {
        assert InState(w, g, Committed) ==> Holds(w, h);
      }
    } else {
      StepKeepsInv(w, es[0]);
      StepKeepsStuck(w, es[0], h);
      RunKeepsStuck(Apply(w, es[0]), es[1..], w', h);
    }
  }

  lemma {:induction false} CommittedHasList(w: World, es: seq<Event>, w': World)
    requires Inv(w) && Runs(w, es, w') && AnyCommitted(w') && !w.phase.Working?
    ensures w.plan.Some? && w.plan.value.list != []
    decreases es
  {
    if es == [] {
      var h :| InState(w, h, Committed);
      assert RecOk(w, h) && InList(w, h);
    } else {
      StepKeepsInv(w, es[0]);
      CommittedHasList(Apply(w, es[0]), es[1..], w');
    }
  }

  // ----- a run to a commit -----

  lemma {:induction false} RunsJoin(w: World, es: seq<Event>, mid: World, later: seq<Event>, w': World)
    requires Runs(w, es, mid) && Runs(mid, later, w')
    ensures Runs(w, es + later, w')
    decreases es
  {
    if es == [] {
      assert es + later == later;
    } else {
      RunsJoin(Apply(w, es[0]), es[1..], mid, later, w');
      assert (es + later)[1..] == es[1..] + later;
    }
  }

  lemma RunsStep(w: World, e: Event)
    requires Allowed(w, e)
    ensures Runs(w, [e], Apply(w, e))
  {
    assert [e][1..] == [] && Runs(Apply(w, e), [], Apply(w, e));
  }

  lemma ServeOne(w: World, h: nat)
    requires Inv(w) && AllMayPrepare(w) && h in w.inbox
    ensures var e := ServePrepare(h, true);
            Allowed(w, e) && Inv(Apply(w, e)) && AllMayPrepare(Apply(w, e))
            && Apply(w, e).plan == w.plan && Apply(w, e).inbox == w.inbox - {h}
  {
    var e := ServePrepare(h, true);
    assert PendingOk(w, h) && MayPrepare(w, h);
    StepKeepsInv(w, e);
    forall g | g in w.plan.value.list ensures MayPrepare(Apply(w, e), g) {
      assert MayPrepare(w, g);
    }
  }

  /** Every request on the way is served, and everyone has prepared. */
  lemma {:induction false} ServeAll(w: World) returns (es: seq<Event>, w': World)
    requires Inv(w) && AllMayPrepare(w)
    ensures Runs(w, es, w') && Inv(w') && w'.plan == w.plan
    ensures forall h :: InList(w', h) ==> h in w'.recs && w'.recs[h].EverPrepared()
    decreases w.inbox
  {
    if w.inbox == {} {
      es, w' := [], w;
    } else {
      var h :| h in w.inbox;
      var e := ServePrepare(h, true);
      ServeOne(w, h);
      RunsStep(w, e);
      es, w' := ServeAll(Apply(w, e));
      RunsJoin(w, [e], Apply(w, e), es, w');
      es := [e] + es;
    }
  }

  lemma AnswerOne(w: World, h: nat)
    requires Inv(w) && InState(w, h, Prepared)
    ensures var e := AnswerQuery(h); var w' := Apply(w, e);
            Inv(w') && w' == w.(replies := w.replies + {(h, Reply(Prepared, w.recs[h].selfTs))})
  {
    StepKeepsInv(w, AnswerQuery(h));
  }

  predicate Answered(w: World, h: nat) {
    h in w.recs && (h, Reply(Prepared, w.recs[h].selfTs)) in w.replies
  }

  /** The first `n` participants answer a state query. */
  lemma {:induction false} AnswerAll(w: World, n: nat) returns (es: seq<Event>, w': World)
    requires Inv(w) && w.plan.Some? && n <= |w.plan.value.list| && forall h :: InList(w, h) ==> InState(w, h, Prepared)
    ensures Runs(w, es, w') && Inv(w') && w' == w.(replies := w'.replies)
    ensures forall i :: 0 <= i < n ==> Answered(w', w.plan.value.list[i])
  {
    if n == 0 {
      es, w' := [], w;
    } else {
      var before, mid := AnswerAll(w, n - 1);
      var h := w.plan.value.list[n - 1];
      assert InList(w, h);
      AnswerOne(mid, h);
      RunOneMore(w, before, mid, AnswerQuery(h));
      es, w' := before + [AnswerQuery(h)], Apply(mid, AnswerQuery(h));
      forall i | 0 <= i < n ensures Answered(w', w.plan.value.list[i]) {
        assert i < n - 1 ==> Answered(mid, w.plan.value.list[i]);
      }
    }
  }

  /** A prepared participant hears "prepared" from all the others, and commits. */
  lemma HearsAllCommits(w: World, h: nat) returns (e: Event)
    requires Inv(w) && InList(w, h) && InState(w, h, Prepared)
    requires forall i :: 0 <= i < |w.plan.value.list| ==> Answered(w, w.plan.value.list[i])
    ensures Allowed(w, e) && e.PollRound? && e.h == h && InState(Apply(w, e), h, Committed)
  {
    var list := w.plan.value.list;
    assert RecOk(w, h);
    var heard := seq(|list|, i requires 0 <= i < |list| =>
      if list[i] in w.recs then Some(Reply(Prepared, w.recs[list[i]].selfTs)) else None);
    forall i | 0 <= i < |list| ensures SaysPrepared(list, h, heard, i) && (list[i], heard[i].value) in w.replies {
      assert Answered(w, list[i]);
    }
    e := PollRound(h, heard, w.clock);
    LeRefl(w.clock);
    UnanimousCommits(w.recs[h], h, heard, w.clock);
  }

  lemma AllPreparedCommit(w: World) returns (es: seq<Event>, w': World)
    requires Inv(w) && w.plan.Some? && w.plan.value.list != [] && forall h :: InList(w, h) ==> InState(w, h, Prepared)
    ensures Runs(w, es, w') && AnyCommitted(w')
  {
    var before, mid := AnswerAll(w, |w.plan.value.list|);
    forall h | InList(mid, h) ensures InState(mid, h, Prepared) {
      assert InList(w, h);
    }
    assert InList(mid, w.plan.value.list[0]);
    var e := HearsAllCommits(mid, w.plan.value.list[0]);
    es, w' := before + [e], Apply(mid, e);
    assert InState(w', e.h, Committed);
    RunsStep(mid, e);
    RunsJoin(w, before, mid, [e], w');
  }

  lemma AllMayPrepareCommits(w: World)
    requires Inv(w) && AllMayPrepare(w)
    ensures CanCommit(w)
  {
    var es, mid := ServeAll(w);
    if !AnyCommitted(mid) {
      AllEverPreparedHold(mid);
      forall h | InList(mid, h) ensures InState(mid, h, Prepared) {
        assert Holds(mid, h) && !InState(mid, h, Committed);
      }
      var later, w' := AllPreparedCommit(mid);
      RunsJoin(w, es, mid, later, w');
    }
  }

  // ----- results -----

  /** After a reported failure the transaction can still commit exactly when every participant has prepared
      or still has the request to prepare coming to it while open. */
  lemma FailureIsFinalExactly(es: seq<Event>, w: World)
    requires Runs(INITIAL, es, w) && w.phase == Told(1)
    ensures CanCommit(w) <==> AllMayPrepare(w)
  {
    ReachedKeepsInv(es, w);
    if AllMayPrepare(w) {
      AllMayPrepareCommits(w);
    } else if CanCommit(w) {
      var later, w' :| Runs(w, later, w') && AnyCommitted(w');
      CommittedHasList(w, later, w');
      var h :| h in w.plan.value.list && !MayPrepare(w, h);
      assert Stuck(w, h);
      RunKeepsStuck(w, later, w', h);
    }
  }

  /** A failure reported because a request could not be sent is final: that participant never prepares. */
  lemma SendFailureIsFinal(es: seq<Event>, w: World)
    requires Runs(INITIAL, es, w) && w.phase == Told(1) && w.toSend != []
    ensures !CanCommit(w)
  {
    ReachedKeepsInv(es, w);
    var h := w.toSend[0];
    assert h in w.toSend && PendingOk(w, h) && !MayPrepare(w, h);
    FailureIsFinalExactly(es, w);
  }

  /** A run whose only request cannot be sent, and one whose only request is lost: failure is told, and nobody
      can commit any more. */
  lemma UnsentRequestEnds() returns (es: seq<Event>, w: World)
    ensures Runs(INITIAL, es, w) && w.phase == Told(1) && w.toSend == [0] && InState(w, 0, Begin) && !CanCommit(w)
  {
    es, w := OneToAsk(false);
    es, w := Step(es, w, SendFails);
    SendFailureIsFinal(es, w);
  }

  lemma LostRequestEnds() returns (es: seq<Event>, w: World)
    ensures Runs(INITIAL, es, w) && w.phase == Told(1) && w.toSend == [] && InState(w, 0, Begin) && !CanCommit(w)
  {
    es, w := OneAsked(false);
    es, w := Step(es, w, LoseRequest(0));
    assert Awaited(w, 0);
    es, w := Step(es, w, CollectFails);
    FailureIsFinalExactly(es, w);
    assert 0 in w.plan.value.list && !MayPrepare(w, 0);
  }
}
