/** What the commit of one transaction guarantees: all or nothing, true reports, and one verdict for ever. */
module Atomicity {
  import opened Text
  import opened Records
  import opened Polling
  import opened Commitment

  lemma BegunIsListed(w: World, h: nat)
    requires PlanCovers(w) && w.plan.Some?
    ensures h in w.began <==> InList(w, h)
  {
  }

  /** Whoever has begun for the coordinator is in the plan, and nobody else: nobody is left unasked. */
  lemma PlanCoversBegun(es: seq<Event>, w: World)
    requires Runs(INITIAL, es, w)
    ensures w.plan.Some? ==> forall h :: h in w.plan.value.list <==> h in w.began
  {
    ReachedKeepsInv(es, w);
    forall h | w.plan.Some? ensures h in w.plan.value.list <==> h in w.began {
      BegunIsListed(w, h);
    }
  }

  /** Atomicity: no participant commits while another one that has begun the transaction rolls back. */
  lemma NeverSplit(es: seq<Event>, w: World, h: nat, g: nat)
    requires Runs(INITIAL, es, w) && h in w.began && g in w.began
    ensures !(InState(w, h, Committed) && InState(w, g, RolledBack))
  {
    ReachedKeepsInv(es, w);
    SplitImpossible(w, h, g);
  }

  lemma SplitImpossible(w: World, h: nat, g: nat)
    requires Inv(w) && g in w.began
    ensures !(InState(w, h, Committed) && InState(w, g, RolledBack))
  {
    if InState(w, h, Committed) {
      assert RecOk(w, h);
      BegunIsListed(w, g);
      assert Holds(w, g);
    }
  }

  /** A participant's record binds it: the coordinator's start timestamp and participant list. */
  predicate Bound(w: World, h: nat) {
    Holds(w, h) && Carries(w, w.recs[h])
  }

  predicate AllBound(w: World) {
    w.plan.Some? && forall h :: h in w.began ==> Bound(w, h)
  }

  predicate AllAnsweredYes(w: World) {
    w.plan.Some? && forall h :: h in w.began ==> h in w.results && w.results[h] == 0
  }

  /** No participant owed the coordinator a response when the commit began. */
  predicate NothingUnread(w: World) {
    forall h :: h in w.began ==> h !in w.unread
  }

  lemma ToldIsTrue(w: World)
    requires Inv(w) && w.phase == Told(0) && NothingUnread(w)
    ensures AllBound(w) <==> AllAnsweredYes(w)
  {
    forall h ensures h in w.began <==> InList(w, h) {
      BegunIsListed(w, h);
    }
  }

  /** The client is told of success whenever every participant has answered, whatever it answered. All of them
      then hold the prepared record exactly when every answer was a success, each participant having
      answered all that was asked of it before. */
  lemma SuccessIsTrueExactly(es: seq<Event>, w: World)
    requires Runs(INITIAL, es, w) && w.phase == Told(0) && NothingUnread(w)
    ensures AllBound(w) <==> AllAnsweredYes(w)
  {
    ReachedKeepsInv(es, w);
    ToldIsTrue(w);
  }

  lemma ToldStep(w: World, e: Event)
    requires Allowed(w, e) && w.phase == Told(0)
    ensures var w' := Apply(w, e);
            && w'.phase == Told(0) && w'.plan == w.plan && w'.began == w.began
            && w'.results == w.results && w'.unread == w.unread
  {
  }

  lemma {:induction false} ToldStays(w: World, es: seq<Event>, w': World)
    requires Inv(w) && w.phase == Told(0) && Runs(w, es, w')
    ensures Inv(w') && w'.phase == Told(0) && w'.plan == w.plan && w'.began == w.began
    ensures w'.results == w.results && w'.unread == w.unread
    decreases es
  {
    if es != [] {
      StepKeepsInv(w, es[0]);
      ToldStep(w, es[0]);
      ToldStays(Apply(w, es[0]), es[1..], w');
    }
  }

  /** Commit safety: success reported on successful answers alone is true when reported and ever after, in
      every order and with any loss of messages. */
  lemma CommitSafety(es: seq<Event>, w: World, later: seq<Event>, w': World)
    requires Runs(INITIAL, es, w) && w.phase == Told(0) && AllAnsweredYes(w) && NothingUnread(w) && Runs(w, later, w')
    ensures AllBound(w) && AllBound(w')
  {
    ReachedKeepsInv(es, w);
    ToldIsTrue(w);
    ToldStays(w, later, w');
    ToldIsTrue(w');
  }

  // ----- the verdict -----

  datatype Verdict = Open | Commit | Abort

  /** What the records decide: all prepared is a commit, one giving up first is an abort. */
  ghost function Decided(w: World): Verdict {
    if w.plan.Some? && (forall h :: InList(w, h) ==> h in w.recs && w.recs[h].EverPrepared()) then Commit
    else if Refused(w) then Abort
    else Open
  }

  lemma WrittenIsDecided(w: World, h: nat)
    requires Inv(w) && InList(w, h)
    ensures InState(w, h, Committed) ==> Decided(w) == Commit
    ensures InState(w, h, RolledBack) ==> Decided(w) == Abort
  {
    forall g | InList(w, g) && InState(w, h, Committed) ensures g in w.recs && w.recs[g].EverPrepared() {
      assert Holds(w, g);
    }
    if InState(w, h, RolledBack) {
      var r :| RefusedBy(w, r);
      assert InList(w, r);
    }
  }

  /** The outcome a participant has written down is always the verdict of all the records. */
  lemma OutcomesFollowVerdict(es: seq<Event>, w: World, h: nat)
    requires Runs(INITIAL, es, w) && InList(w, h)
    ensures InState(w, h, Committed) ==> Decided(w) == Commit
    ensures InState(w, h, RolledBack) ==> Decided(w) == Abort
  {
    ReachedKeepsInv(es, w);
    WrittenIsDecided(w, h);
  }

  /** Once there is a plan it stands, and its participants' records only grow. */
  lemma StepGrows(w: World, e: Event, h: nat)
    requires Inv(w) && Allowed(w, e) && InList(w, h)
    ensures Apply(w, e).plan == w.plan
    ensures h in Apply(w, e).recs && h in w.recs && Grows(w.recs[h], Apply(w, e).recs[h])
  {
    assert RecOk(w, h);
    if e.ServePrepare? || e.CrashInPrepare? {
      assert PendingOk(w, e.h);
    } else if e.PollRound? {
      PollGrows(w.recs[e.h], Poll(w.recs[e.h], e.h, e.heard, e.now));
      assert RecOk(w, e.h) && w.recs[e.h].members != [];
    }
  }

  lemma PollGrows(t: Trans, r: Round)
    requires t.state.Prepared?
    ensures t.members != [] ==> Grows(t, Settle(t, r))
  {
  }

  lemma StepKeepsVerdict(w: World, e: Event)
    requires Inv(w) && Allowed(w, e) && Decided(w) != Open
    ensures Decided(Apply(w, e)) == Decided(w)
  {
    var w' := Apply(w, e);
    assert !e.StartCommit?;
    if Decided(w) == Commit {
      forall h | InList(w', h) ensures h in w'.recs && w'.recs[h].EverPrepared() {
        assert InList(w, h);
        StepGrows(w, e, h);
      }
    } else {
      var r :| RefusedBy(w, r);
      StepGrows(w, e, r);
      assert RefusedBy(w', r) && InList(w', r) && !w'.recs[r].EverPrepared();
    }
  }

  lemma {:induction false} RunKeepsVerdict(w: World, es: seq<Event>, w': World)
    requires Inv(w) && Decided(w) != Open && Runs(w, es, w')
    ensures Decided(w') == Decided(w)
    decreases es
  {
    if es != [] {
      StepKeepsInv(w, es[0]);
      StepKeepsVerdict(w, es[0]);
      RunKeepsVerdict(Apply(w, es[0]), es[1..], w');
    }
  }

  /** A verdict, once reachable, is the verdict of every later state. */
  lemma VerdictNeverReverses(es: seq<Event>, w: World, later: seq<Event>, w': World)
    requires Runs(INITIAL, es, w) && Decided(w) != Open && Runs(w, later, w')
    ensures Decided(w') == Decided(w)
  {
    ReachedKeepsInv(es, w);
    RunKeepsVerdict(w, later, w');
  }

  /** Recovery agreement: whatever two participants have decided, at any two times of a run, they decided alike. */
  lemma RecoveryAgreement(es: seq<Event>, w: World, h: nat, later: seq<Event>, w': World, g: nat)
    requires Runs(INITIAL, es, w) && Runs(w, later, w') && h in w'.began && g in w'.began
    ensures InState(w, h, Committed) ==> !InState(w', g, RolledBack)
    ensures InState(w, h, RolledBack) ==> !InState(w', g, Committed)
  {
    ReachedKeepsInv(es, w);
    RunKeepsInv(w, later, w');
    if h in w.recs && w.recs[h].Finished() {
      OutcomeStays(w, later, w', h);
      SplitImpossible(w', h, g);
      SplitImpossible(w', g, h);
    }
  }

  /** A written outcome is final. */
  lemma {:induction false} OutcomeStays(w: World, es: seq<Event>, w': World, h: nat)
    requires Runs(w, es, w') && h in w.recs && w.recs[h].Finished()
    ensures h in w'.recs && w'.recs[h] == w.recs[h]
    decreases es
  {
    if es != [] {
      OutcomeStays(Apply(w, es[0]), es[1..], w', h);
    }
  }

  /** The record as it stood before any outcome was written on top. */
  function WithoutOutcome(t: Trans): Trans {
    if t.state.Committed? then t.(state := Prepared, commitTs := "") else t
  }

  /** The verdict looks through the outcomes written on top of the prepared records. */
  lemma OutcomesDoNotDecide(w: World, w': World)
    requires w'.plan == w.plan && w'.recs.Keys == w.recs.Keys
    requires forall h :: h in w.recs ==> w'.recs[h] == w.recs[h] || w'.recs[h] == WithoutOutcome(w.recs[h])
    ensures Decided(w') == Decided(w)
  {
    forall h ensures RefusedBy(w', h) <==> RefusedBy(w, h) {
    }
    forall h ensures InList(w', h) <==> InList(w, h) {
    }
    if h :| RefusedBy(w, h) {
      assert RefusedBy(w', h);
    }
    if h :| RefusedBy(w', h) {
      assert RefusedBy(w, h);
    }
  }

  /** A participant that hears "prepared" from all others commits, whoever else has already finished. */
  lemma HearingAllCommits(es: seq<Event>, w: World, h: nat, heard: seq<Option<Reply>>, now: string)
    requires Runs(INITIAL, es, w) && Allowed(w, PollRound(h, heard, now))
    requires forall i :: 0 <= i < |heard| ==> SaysPrepared(w.recs[h].members, h, heard, i)
    ensures InState(Apply(w, PollRound(h, heard, now)), h, Committed)
  {
    ReachedKeepsInv(es, w);
    UnanimousCommits(w.recs[h], h, heard, now);
  }

  /** A commit timestamp heard is not below any own timestamp heard. */
  lemma HeardCommitIsLast(w: World, h: nat, heard: seq<Option<Reply>>, i: nat, max: string)
    requires Inv(w) && InState(w, h, Prepared) && HeardBefore(w, w.recs[h].members, heard) && i < |heard|
    requires Says(w.recs[h].members, h, heard, i, Committed)
    requires FromReplies(w.recs[h].members, h, heard, w.recs[h].selfTs, max)
    ensures !Less(heard[i].value.ts, max)
  {
  }

  lemma AssertionHolds(w: World, h: nat, heard: seq<Option<Reply>>, now: string)
    requires Inv(w) && Allowed(w, PollRound(h, heard, now))
    ensures Poll(w.recs[h], h, heard, now) != AssertFails
  {
    var t := w.recs[h];
    PollCaused(t, h, heard, now);
    if t.selfTs != "" {
      forall i, max |
        && 0 <= i < |t.members| && Says(t.members, h, heard, i, Committed)
        && FromReplies(t.members, h, heard, t.selfTs, max)
        ensures !Less(heard[i].value.ts, max)
      {
        HeardCommitIsLast(w, h, heard, i, max);
      }
    }
  }

  /** The assertion in the polling loop, that a copied commit timestamp is not below what was heard
      before it, never fails. */
  lemma PollAssertionHolds(es: seq<Event>, w: World, h: nat, heard: seq<Option<Reply>>, now: string)
    requires Runs(INITIAL, es, w) && Allowed(w, PollRound(h, heard, now))
    ensures Poll(w.recs[h], h, heard, now) != AssertFails
  {
    ReachedKeepsInv(es, w);
    AssertionHolds(w, h, heard, now);
  }

  /** A participant that hears of a rollback from anyone rolls back. */
  lemma HearingRollbackRollsBack(es: seq<Event>, w: World, h: nat, heard: seq<Option<Reply>>, now: string, i: nat)
    requires Runs(INITIAL, es, w) && Allowed(w, PollRound(h, heard, now))
    requires i < |heard| && Says(w.recs[h].members, h, heard, i, RolledBack)
    ensures Apply(w, PollRound(h, heard, now)).recs[h] == w.recs[h].(state := RolledBack)
  {
    ReachedKeepsInv(es, w);
    var members := w.recs[h].members;
    var k := FirstOutcome(members, h, heard, i);
    HearingOutcomeFollowsIt(es, w, h, heard, now, k);
    HeardOutcomesAgree(w, h, heard, i, k);
  }

  lemma HeardOutcomesAgree(w: World, h: nat, heard: seq<Option<Reply>>, i: nat, k: nat)
    requires Inv(w) && InState(w, h, Prepared) && HeardBefore(w, w.recs[h].members, heard) && i < |heard| && k < |heard|
    requires Says(w.recs[h].members, h, heard, i, RolledBack)
    ensures !Says(w.recs[h].members, h, heard, k, Committed)
  {
    var members := w.recs[h].members;
    assert RecOk(w, h) && ReplyOk(w, members[i], heard[i].value) && InList(w, members[i]);
    if Says(members, h, heard, k, Committed) {
      assert ReplyOk(w, members[k], heard[k].value);
      CommittedAllHold(w, members[k], members[i]);
    }
  }

  lemma CommittedAllHold(w: World, h: nat, g: nat)
    requires Inv(w) && InState(w, h, Committed) && InList(w, g)
    ensures Holds(w, g)
  {
  }

  /** A participant that hears of a rollback rolls back, and one that hears of a commit commits at the very
      timestamp it hears first; whoever else says what. */
  lemma HearingOutcomeFollowsIt(
    es: seq<Event>, w: World, h: nat, heard: seq<Option<Reply>>, now: string, i: nat)
    requires Runs(INITIAL, es, w) && Allowed(w, PollRound(h, heard, now))
    requires i < |heard| && SaysOutcome(w.recs[h].members, h, heard, i)
    requires forall k :: 0 <= k < i ==> !SaysOutcome(w.recs[h].members, h, heard, k)
    ensures Apply(w, PollRound(h, heard, now)).recs[h] ==
            if heard[i].value.state.RolledBack? then w.recs[h].(state := RolledBack)
            else w.recs[h].(state := Committed, commitTs := heard[i].value.ts)
  {
    ReachedKeepsInv(es, w);
    FirstOutcomeDecides(w.recs[h], h, heard, now, i);
    AssertionHolds(w, h, heard, now);
  }
}
