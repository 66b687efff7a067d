/** A transaction's writes on several participants, as one reader finds them. */
module Visibility {
  import opened Text
  import opened Records
  import opened Operations
  import opened Polling
  import opened Commitment
  import opened Atomicity
  import opened CommitTimes
  import opened Mishaps
  import P = Participant
  import Snapshots

  /** How `reader` judges a version of the transaction on participant `h`. */
  function JudgeAt(w: World, h: nat, name: string, d: Data, reader: string): Option<ReadResult>
    requires h in w.recs && d.version == name
  {
    Judge(d, map[name := w.recs[h]], reader)
  }

  predicate Shows(w: World, h: nat, reader: string) {
    InState(w, h, Committed) && Less(w.recs[h].commitTs, reader)
  }

  predicate Waits(w: World, h: nat, reader: string) {
    InState(w, h, Prepared) && Less(w.recs[h].startTs, reader)
  }

  /** For anyone but the transaction itself a version is shown, awaited, or passed over. */
  lemma JudgedByRecord(w: World, h: nat, name: string, d: Data, reader: string)
    requires h in w.recs && d.version == name != reader
    ensures var a := JudgeAt(w, h, name, d, reader);
            && (Shows(w, h, reader) <==> a.Some? && IsHit(a.value))
            && (Waits(w, h, reader) <==> a.Some? && a.value.code == 66)
  {
  }

  /** None of the participants lost its own timestamp in a crash. */
  predicate AllHaveSelfTs(w: World) {
    w.plan.Some? ==> forall h :: h in w.plan.value.list && h in w.recs && w.recs[h].EverPrepared() ==>
      w.recs[h].selfTs != ""
  }

  /** What a committed participant tells of another one. */
  lemma CommittedFacts(w: World, h: nat, g: nat)
    requires Inv(w) && InState(w, h, Committed) && InList(w, g)
    ensures InList(w, h) && Holds(w, g) && Carries(w, w.recs[g])
    ensures Le(w.recs[g].selfTs, w.recs[h].commitTs) && Le(w.recs[g].startTs, w.recs[h].commitTs)
  {
    assert RecOk(w, h) && InList(w, h) && Holds(w, g) && RecOk(w, g);
    assert CommitTsOk(w, w.recs[h].commitTs);
  }

  lemma AgreedCommits(w: World, h: nat, g: nat)
    requires Inv(w) && InState(w, h, Committed) && InState(w, g, Committed) && AllHaveSelfTs(w)
    ensures w.recs[g].commitTs == w.recs[h].commitTs
  {
    assert RecOk(w, h) && RecOk(w, g);
    forall x | InList(w, x) ensures !SelfTsIs(w, x, "") {
      assert Holds(w, x);
    }
    OneCommitTs(w, h, g);
  }

  // ----- two reads of one reader, at two times -----

  /** The participant has not prepared, or not before `reader`. */
  predicate LateSelf(w: World, g: nat, reader: string) {
    Holds(w, g) ==> w.recs[g].selfTs == "" || Le(reader, w.recs[g].selfTs)
  }

  lemma PassedOverIsLate(w: World, g: nat, reader: string)
    requires Inv(w) && !Waits(w, g, reader) && !InState(w, g, Committed)
    ensures LateSelf(w, g, reader)
  {
    if InState(w, g, Prepared) {
      assert RecOk(w, g);
      if w.recs[g].selfTs != "" {
        LeTrans(reader, w.recs[g].startTs, w.recs[g].selfTs);
      }
    }
  }

  /** A participant's own timestamp is taken from the clock when it prepares, or lost, and then stays. */
  lemma SelfTsOnce(w: World, e: Event, g: nat)
    requires Allowed(w, e) && (e.CrashInPrepare? ==> w.recs[e.h] == NewTrans())
    ensures var w' := Apply(w, e);
            Holds(w', g) ==>
              (Holds(w, g) && w'.recs[g].selfTs == w.recs[g].selfTs) || w'.recs[g].selfTs in {"", w.clock}
  {
  }

  lemma StepKeepsLateSelf(w: World, e: Event, g: nat, reader: string)
    requires Inv(w) && Allowed(w, e) && Le(reader, w.clock) && LateSelf(w, g, reader)
    ensures LateSelf(Apply(w, e), g, reader) && Le(reader, Apply(w, e).clock)
  {
    if e.Tick? {
      LeTrans(reader, w.clock, e.now);
    }
    assert e.CrashInPrepare? ==> RecOk(w, e.h);
    SelfTsOnce(w, e, g);
  }

  lemma {:induction false} RunKeepsLateSelf(w: World, es: seq<Event>, w': World, g: nat, reader: string)
    requires Inv(w) && Runs(w, es, w') && Le(reader, w.clock) && LateSelf(w, g, reader)
    ensures Inv(w') && LateSelf(w', g, reader)
    decreases es
  {
    if es != [] {
      StepKeepsInv(w, es[0]);
      StepKeepsLateSelf(w, es[0], g, reader);
      RunKeepsLateSelf(Apply(w, es[0]), es[1..], w', g, reader);
    }
  }

  lemma {:induction false} CommitIsFinal(w: World, es: seq<Event>, w': World, g: nat)
    requires Inv(w) && Runs(w, es, w') && InState(w, g, Committed)
    ensures Inv(w') && InState(w', g, Committed) && w'.recs[g] == w.recs[g]
    decreases es
  {
    if es != [] {
      StepKeepsInv(w, es[0]);
      assert RecOk(w, g) && InList(w, g);
      StepGrows(w, es[0], g);
      CommitIsFinal(Apply(w, es[0]), es[1..], w', g);
    }
  }

  /** `g` kept its own timestamp if it prepared after `w`; if it had committed, `h` commits no earlier. */
  predicate SameFate(w: World, w': World, g: nat, h: nat) {
    if InState(w, g, Committed)
    then InState(w', h, Committed) ==> Le(w.recs[g].commitTs, w'.recs[h].commitTs)
    else Holds(w', g) ==> w'.recs[g].selfTs != ""
  }

  /** A reader at an issued timestamp that one participant has made pass over the transaction is never shown
      it afterwards by another, unless that very participant lost its own timestamp in a crash, or had
      committed and the other one commits before it: having missed part of a transaction it misses all of it. */
  lemma PassedOverStaysHidden(
    es: seq<Event>, w: World, g: nat, later: seq<Event>, w': World, h: nat, reader: string)
    requires Runs(INITIAL, es, w) && Runs(w, later, w') && InList(w', g) && Le(reader, w.clock)
    requires !Shows(w, g, reader) && !Waits(w, g, reader)
    ensures SameFate(w, w', g, h) ==> !Shows(w', h, reader)
    ensures AllHaveSelfTs(w') ==> SameFate(w, w', g, h)
  {
    ReachedKeepsInv(es, w);
    if InState(w, g, Committed) {
      CommitIsFinal(w, later, w', g);
      CommittedFate(w, w', g, h, reader);
    } else {
      PassedOverIsLate(w, g, reader);
      RunKeepsLateSelf(w, later, w', g, reader);
      if InState(w', h, Committed) && SameFate(w, w', g, h) {
        CommittedFacts(w', h, g);
        LeTrans(reader, w'.recs[g].selfTs, w'.recs[h].commitTs);
      }
    }
  }

  lemma CommittedFate(w: World, w': World, g: nat, h: nat, reader: string)
    requires Inv(w') && InState(w, g, Committed) && InState(w', g, Committed) && w'.recs[g] == w.recs[g]
    requires !Shows(w, g, reader)
    ensures SameFate(w, w', g, h) ==> !Shows(w', h, reader)
    ensures AllHaveSelfTs(w') ==> SameFate(w, w', g, h)
  {
    if InState(w', h, Committed) {
      if Le(w.recs[g].commitTs, w'.recs[h].commitTs) {
        LeTrans(reader, w.recs[g].commitTs, w'.recs[h].commitTs);
      }
      if AllHaveSelfTs(w') {
        AgreedCommits(w', h, g);
        LeRefl(w.recs[g].commitTs);
      }
    }
  }

  /** What one participant has shown a reader, every other one shows or has it wait for from then on, except
      exactly where it has committed and not before the reader; never while none has lost its own timestamp. */
  lemma ShownStaysShownExactly(
    es: seq<Event>, w: World, h: nat, later: seq<Event>, w': World, g: nat, reader: string)
    requires Runs(INITIAL, es, w) && Runs(w, later, w') && InList(w', g) && Shows(w, h, reader)
    ensures Shows(w', g, reader) || Waits(w', g, reader) <==>
            !(InState(w', g, Committed) && Le(reader, w'.recs[g].commitTs))
    ensures AllHaveSelfTs(w') ==> Shows(w', g, reader) || Waits(w', g, reader)
  {
    ReachedKeepsInv(es, w);
    CommitIsFinal(w, later, w', h);
    CommittedFacts(w', h, g);
    LeLess(w'.recs[g].startTs, w'.recs[h].commitTs, reader);
    if InState(w', g, Committed) && AllHaveSelfTs(w') {
      AgreedCommits(w', h, g);
    }
  }

  // ----- what a reported success promises the readers that follow -----

  /** Everyone holds the prepared record, with an own timestamp not after `told`. */
  predicate PreparedBy(w: World, told: string) {
    w.plan.Some? && Le(w.plan.value.start, told) && forall h :: h in w.plan.value.list ==>
      Holds(w, h) && Carries(w, w.recs[h]) && w.recs[h].selfTs != "" && Le(w.recs[h].selfTs, told)
  }

  lemma ToldIsPrepared(w: World)
    requires Inv(w) && w.phase == Told(0) && AllAnsweredYes(w) && NothingUnread(w)
    ensures PreparedBy(w, w.clock)
  {
    ToldIsTrue(w);
    forall h | h in w.plan.value.list
      ensures Holds(w, h) && Carries(w, w.recs[h]) && w.recs[h].selfTs != "" && Le(w.recs[h].selfTs, w.clock)
    {
      assert InList(w, h);
      BegunIsListed(w, h);
      assert Bound(w, h) && (h, 0) in w.answers && RecOk(w, h);
    }
  }

  lemma StepKeepsPrepared(w: World, e: Event, told: string)
    requires Inv(w) && Allowed(w, e) && PreparedBy(w, told) && !w.phase.Working?
    ensures PreparedBy(Apply(w, e), told) && !Apply(w, e).phase.Working?
  {
    var w' := Apply(w, e);
    StepKeepsInv(w, e);
    assert w'.plan == w.plan;
    forall h | InList(w', h)
      ensures h in w'.recs && w'.recs[h].EverPrepared() && w'.recs[h].selfTs == w.recs[h].selfTs
    {
      assert InList(w, h) && Holds(w, h);
      StepGrows(w, e, h);
    }
    PreparedStays(w, w', told);
  }

  lemma PreparedStays(w: World, w': World, told: string)
    requires PreparedBy(w, told) && Inv(w') && w'.plan == w.plan
    requires forall h :: InList(w', h) ==>
             h in w'.recs && w'.recs[h].EverPrepared() && w'.recs[h].selfTs == w.recs[h].selfTs
    ensures PreparedBy(w', told)
  {
    AllEverPreparedHold(w');
    forall h | h in w'.plan.value.list ensures Holds(w', h) && Carries(w', w'.recs[h]) {
      assert InList(w', h) && RecOk(w', h);
    }
  }

  lemma {:induction false} RunKeepsPrepared(w: World, es: seq<Event>, w': World, told: string)
    requires Inv(w) && Runs(w, es, w') && PreparedBy(w, told) && !w.phase.Working?
    ensures Inv(w') && PreparedBy(w', told)
    decreases es
  {
    if es != [] {
      StepKeepsInv(w, es[0]);
      StepKeepsPrepared(w, es[0], told);
      RunKeepsPrepared(Apply(w, es[0]), es[1..], w', told);
    }
  }

  lemma PreparedIsSeen(w: World, told: string, g: nat, reader: string)
    requires Inv(w) && PreparedBy(w, told) && InList(w, g) && Less(told, reader)
    ensures Shows(w, g, reader) || Waits(w, g, reader)
  {
    assert Holds(w, g);
    if InState(w, g, Committed) {
      assert CommitTsOk(w, w.recs[g].commitTs);
      forall x ensures !SelfTsIs(w, x, "") {
        assert InList(w, x) ==> Holds(w, x);
      }
      var x :| SelfTsIs(w, x, w.recs[g].commitTs);
      assert InList(w, x) && Holds(w, x);
      LeLess(w.recs[g].commitTs, told, reader);
    } else {
      LeLess(w.recs[g].startTs, told, reader);
    }
  }

  /** What own timestamps are for: once success has been told, on successes alone, a transaction that begins
      afterwards is shown the whole of it, or waits for it, on every participant and for ever after. */
  lemma SuccessIsSeen(es: seq<Event>, w: World, later: seq<Event>, w': World, g: nat, reader: string)
    requires Runs(INITIAL, es, w) && w.phase == Told(0) && AllAnsweredYes(w) && NothingUnread(w) && Runs(w, later, w')
    requires InList(w', g) && Less(w.clock, reader)
    ensures Shows(w', g, reader) || Waits(w', g, reader)
  {
    ReachedKeepsInv(es, w);
    ToldIsPrepared(w);
    RunKeepsPrepared(w, later, w', w.clock);
    PreparedIsSeen(w', w.clock, g, reader);
  }

  // ----- when a transaction is split -----

  /** One of the two committed participants shows `reader` the transaction, the other does not. */
  predicate Splits(w: World, h: nat, g: nat, reader: string) {
    Shows(w, h, reader) != Shows(w, g, reader)
  }

  /** A participant commits by count, the largest own timestamp of all being `max`: the readers that see half
      of the transaction, compared with any participant that has committed, are exactly those between the two
      commit timestamps. There are any exactly when that one's is not `max`, or not the clock of a participant
      that lost its own timestamp and has passed `max`. */
  lemma SplitReadersExactly(
    es: seq<Event>, w: World, h: nat, heard: seq<Option<Reply>>, now: string, ts: string, max: string, g: nat)
    requires Runs(INITIAL, es, w) && Allowed(w, PollRound(h, heard, now))
    requires Poll(w.recs[h], h, heard, now) == Commits(ts)
    requires ByCount(w.recs[h].members, h, heard, Seed(w.recs[h], now), ts)
    requires LargestOwn(w, max)
    requires InState(w, g, Committed)
    ensures var w', other := Apply(w, PollRound(h, heard, now)), w.recs[g].commitTs;
            forall reader :: Splits(w', h, g, reader) <==>
              (Less(other, reader) && Le(reader, ts)) || (Less(ts, reader) && Le(reader, other))
    ensures var w' := Apply(w, PollRound(h, heard, now));
            (exists reader :: Splits(w', h, g, reader)) <==>
              w.recs[g].commitTs != if w.recs[h].selfTs == "" && Less(max, now) then now else max
  {
    CountedTimestampExactly(es, w, h, heard, now, ts, max);
    var w', other := Apply(w, PollRound(h, heard, now)), w.recs[g].commitTs;
    assert InState(w', h, Committed) && w'.recs[h].commitTs == ts && w'.recs[g] == w.recs[g];
    LeTotal(other, ts);
    LeRefl(ts);
    LeRefl(other);
    assert Splits(w', h, g, if Less(other, ts) then ts else other) <==> other != ts;
  }

  /** A reader at "2" finds nothing, then the participant crashes in the middle of a prepare and copies the commit
      timestamp "1" of the other one: the reader finds the value. The record the participant ends with is that of
      a commit run of both. */
  lemma ReadChangesAfterCrash() returns (es: seq<Event>, w: World)
    ensures Runs(INITIAL, es, w) && 0 in w.recs && InState(w, 1, Committed)
    ensures var n := P.Run(P.INITIAL, Snapshots.BEFORE_CRASH);
            var n' := P.Run(n, Snapshots.CRASH);
            && P.Runs(P.INITIAL, Snapshots.BEFORE_CRASH) && P.Runs(n, Snapshots.CRASH) && Le("2", n.clock)
            && n'.t.trans == map["1" := w.recs[0]] && n'.clock == w.clock
            && Snapshots.Read(n, "k", "2").code == 99 && Snapshots.Read(n', "k", "2").code == 0
  {
    es, w := LostTimestampCopied();
    Snapshots.CrashMakesReadChange();
    Snapshots.BeforeCrashReaches();
    Snapshots.CrashRuns();
    assert w.recs[0] == Trans(Committed, "1", "1", "", [0, 1]);
  }

  /** With a timestamp lost in a crash a reader can see half of a transaction. */
  lemma FracturedReadAfterCrash() returns (es: seq<Event>, w: World)
    ensures Runs(INITIAL, es, w) && InState(w, 0, Committed) && InState(w, 1, Committed)
    ensures Shows(w, 1, "2") && !Shows(w, 0, "2") && !Waits(w, 0, "2")
  {
    assert Less("1", "2") && !Less("2", "2");
    es, w := CommitTimestampsCanDiffer();
  }
}
