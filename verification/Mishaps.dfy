/** Runs of the commit that go wrong. */
module Mishaps {
  import opened Text
  import opened Records
  import opened Polling
  import opened Commitment
  import opened Atomicity

  lemma {:induction false} RunOneMore(w: World, es: seq<Event>, w': World, e: Event)
    requires Runs(w, es, w') && Allowed(w', e)
    ensures Runs(w, es + [e], Apply(w', e))
    decreases es
  {
    if es == [] {
      assert [e][1..] == [] && es + [e] == [e];
      assert Runs(Apply(w, e), [], Apply(w', e));
    } else {
      RunOneMore(Apply(w, es[0]), es[1..], w', e);
      assert (es + [e])[1..] == es[1..] + [e];
    }
  }

  lemma OneToAsk(abandon: bool) returns (es: seq<Event>, w: World)
    ensures Runs(INITIAL, es, w) && w.recs == map[0 := NewTrans()] && w.phase == Preparing
    ensures w.plan == Some(Plan("1", [0])) && w.toSend == [0] && w.inbox == {} && w.answers == {}
    ensures w.results == map[] && w.replies == {} && w.clock == "1"
    ensures w.unread == (if abandon then {0} else {}) && w.began == {0}
  {
    es, w := [], INITIAL;
    es, w := Step(es, w, Tick("1"));
    es, w := Step(es, w, ServeBegin(0));
    es, w := Step(es, w, NoteBegun(0));
    if abandon {
      es, w := Step(es, w, Abandon(0));
    }
    assert (set h | h in [0]) == {0};
    es, w := Step(es, w, StartCommit([0]));
  }

  lemma OneAsked(abandon: bool) returns (es: seq<Event>, w: World)
    ensures Runs(INITIAL, es, w) && w.recs == map[0 := NewTrans()] && w.phase == Preparing
    ensures w.plan == Some(Plan("1", [0])) && w.toSend == [] && w.inbox == {0} && w.answers == {}
    ensures w.results == map[] && w.replies == {} && w.clock == "1"
    ensures w.unread == (if abandon then {0} else {}) && w.began == {0}
  {
    es, w := OneToAsk(abandon);
    es, w := Step(es, w, SendPrepare);
  }

  /** A participant that could not store its prepared record says so, the client is told of success all the
      same, and the transaction is then rolled back. */
  lemma SuccessCanBeFalse() returns (es: seq<Event>, w: World)
    ensures Runs(INITIAL, es, w) && w.phase == Told(0) && InList(w, 0) && InState(w, 0, RolledBack)
  {
    es, w := OneAsked(false);
    es, w := Step(es, w, ServePrepare(0, false));
    es, w := Step(es, w, Collect(0, 1));
    es, w := Step(es, w, Tell);
    es, w := Step(es, w, RollBackOpen(0));
  }

  /** A client that asks for the commit while its last update still waits for a lock: the update's response is
      taken for the prepare's, the client is told of success on successes alone, and the transaction is rolled back. */
  lemma UnreadResponseMisleads() returns (es: seq<Event>, w: World)
    ensures Runs(INITIAL, es, w) && w.phase == Told(0) && AllAnsweredYes(w) && InList(w, 0) && InState(w, 0, RolledBack)
  {
    es, w := OneAsked(true);
    es, w := Step(es, w, CollectUnread(0, 0));
    es, w := Step(es, w, Tell);
    es, w := Step(es, w, RollBackOpen(0));
  }

  lemma FailureTold() returns (es: seq<Event>, w: World)
    ensures Runs(INITIAL, es, w) && w.phase == Told(1) && InList(w, 0) && w.clock == "1"
    ensures w.recs == map[0 := Trans(Prepared, "1", "", "1", [0])]
  {
    es, w := OneAsked(false);
    assert MarkPrepared(NewTrans(), "1", [0]) == Trans(Prepared, "1", "", "", [0]);
    es, w := Step(es, w, ServePrepare(0, true));
    assert Awaited(w, 0);
    es, w := Step(es, w, CollectFails);
  }

  /** A response that goes missing is reported as a failure, and the transaction commits all the same. */
  lemma FailureCanBeFalse() returns (es: seq<Event>, w: World)
    ensures Runs(INITIAL, es, w) && w.phase == Told(1) && InList(w, 0) && InState(w, 0, Committed)
  {
    es, w := FailureTold();
    var t := w.recs[0];
    assert t.members == [0];
    assert PollFrom([0], 0, t.selfTs, [None], 1, Seed(t, "1"), 1) == Commits(Seed(t, "1"));
    es, w := Step(es, w, PollRound(0, [None], "1"));
  }

  lemma Step(es: seq<Event>, w: World, e: Event) returns (es': seq<Event>, w': World)
    requires Runs(INITIAL, es, w) && Allowed(w, e)
    ensures w' == Apply(w, e) && Runs(INITIAL, es', w')
  {
    es', w' := es + [e], Apply(w, e);
    RunOneMore(INITIAL, es, w, e);
  }

  lemma PairStarted() returns (es: seq<Event>, w: World)
    ensures Runs(INITIAL, es, w) && w.recs == map[0 := NewTrans(), 1 := NewTrans()] && w.phase == Preparing
    ensures w.plan == Some(Plan("1", [0, 1])) && w.toSend == [0, 1] && w.inbox == {} && w.replies == {}
    ensures w.clock == "1"
  {
    assert !Less("1", "");
    es, w := [], INITIAL;
    es, w := Step(es, w, Tick("1"));
    es, w := Step(es, w, ServeBegin(0));
    es, w := Step(es, w, ServeBegin(1));
    es, w := Step(es, w, NoteBegun(0));
    es, w := Step(es, w, NoteBegun(1));
    assert (set h | h in [0, 1]) == {0, 1};
    es, w := Step(es, w, StartCommit([0, 1]));
  }

  const CRASHED := Trans(Prepared, "1", "", "", [0, 1])
  const PREPARED := Trans(Prepared, "1", "", "1", [0, 1])

  lemma PairAsked() returns (es: seq<Event>, w: World)
    ensures Runs(INITIAL, es, w) && w.recs == map[0 := NewTrans(), 1 := NewTrans()]
    ensures w.plan == Some(Plan("1", [0, 1])) && w.inbox == {0, 1} && w.replies == {} && w.clock == "1"
  {
    es, w := PairStarted();
    es, w := Step(es, w, SendPrepare);
    assert w.toSend == [1];
    es, w := Step(es, w, SendPrepare);
  }

  lemma PairHalfServed() returns (es: seq<Event>, w: World)
    ensures Runs(INITIAL, es, w) && w.recs == map[0 := NewTrans(), 1 := PREPARED] && w.replies == {} && w.clock == "1"
    ensures w.plan == Some(Plan("1", [0, 1])) && w.inbox == {0}
  {
    es, w := PairAsked();
    assert MarkPrepared(NewTrans(), "1", [0, 1]) == CRASHED;
    es, w := Step(es, w, ServePrepare(1, true));
  }

  lemma PairServed() returns (es: seq<Event>, w: World)
    ensures Runs(INITIAL, es, w) && w.recs == map[0 := CRASHED, 1 := PREPARED] && w.replies == {} && w.clock == "2"
  {
    assert !Less("2", "1");
    es, w := PairHalfServed();
    assert MarkPrepared(NewTrans(), "1", [0, 1]) == CRASHED;
    es, w := Step(es, w, Tick("2"));
    es, w := Step(es, w, CrashInPrepare(0));
  }

  lemma PairPrepared() returns (es: seq<Event>, w: World)
    ensures Runs(INITIAL, es, w) && w.recs == map[0 := CRASHED, 1 := PREPARED] && w.clock == "2"
    ensures w.replies == {(0, Reply(Prepared, "")), (1, Reply(Prepared, "1"))}
  {
    es, w := PairServed();
    es, w := Step(es, w, AnswerQuery(0));
    es, w := Step(es, w, AnswerQuery(1));
  }

  /** The other participant decides first, and the one that lost its own timestamp copies a commit timestamp
      older than its crash. */
  lemma LostTimestampCopied() returns (es: seq<Event>, w: World)
    ensures Runs(INITIAL, es, w) && w.clock == "2" && InState(w, 1, Committed)
    ensures 0 in w.recs && w.recs[0] == CRASHED.(state := Committed, commitTs := "1")
  {
    assert !Less("1", "") && !Less("2", "1") && !Less("2", "2");
    es, w := PairPrepared();
    var heard1 := [Some(Reply(Prepared, "")), None];
    PollPair(PREPARED, 1, heard1, "2", "1");
    es, w := Step(es, w, PollRound(1, heard1, "2"));
    es, w := Step(es, w, AnswerQuery(1));
    var heard0 := [None, Some(Reply(Committed, "1"))];
    assert PollFrom([0, 1], 0, "", heard0, 1, "2", 1) == Commits("1");
    es, w := Step(es, w, PollRound(0, heard0, "2"));
  }

  /** A participant that lost its own timestamp in a crash takes the clock instead, and the two
      participants of one transaction commit at different timestamps. */
  lemma CommitTimestampsCanDiffer() returns (es: seq<Event>, w: World)
    ensures Runs(INITIAL, es, w) && InState(w, 0, Committed) && InState(w, 1, Committed)
    ensures w.recs[0].commitTs == "2" && w.recs[1].commitTs == "1"
  {
    assert Less("1", "2") && !Less("2", "2") && !Less("1", "");
    es, w := PairPrepared();
    var heard0 := [None, Some(Reply(Prepared, "1"))];
    var heard1 := [Some(Reply(Prepared, "")), None];
    PollPair(CRASHED, 0, heard0, "2", "2");
    PollPair(PREPARED, 1, heard1, "2", "1");
    es, w := Step(es, w, PollRound(0, heard0, "2"));
    es, w := Step(es, w, PollRound(1, heard1, "2"));
  }

  /** Two participants, the other one prepared: the round commits at the larger timestamp. */
  lemma PollPair(t: Trans, self: nat, heard: seq<Option<Reply>>, now: string, ts: string)
    requires t.members == [0, 1] && self < 2 && |heard| == 2 && heard[1 - self].Some?
    requires heard[1 - self].value.state.Prepared?
    requires ts == Max(Seed(t, now), heard[1 - self].value.ts)
    ensures Poll(t, self, heard, now) == Commits(ts)
  {
    var seed := Seed(t, now);
    assert PollFrom(t.members, self, t.selfTs, heard, 2, ts, 2) == Commits(ts);
    var mid := if self == 0 then seed else ts;
    assert PollFrom(t.members, self, t.selfTs, heard, 1, mid, 1) == Commits(ts);
  }
}
