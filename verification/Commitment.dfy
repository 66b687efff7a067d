/** One transaction's commit: a coordinator, its participants, and messages that are delayed, reordered or lost. */
module Commitment {
  import opened Text
  import opened Records
  import opened Sequences
  import opened Polling

  datatype Plan = Plan(start: string, list: seq<nat>)

  datatype Phase = Working | Preparing | Told(code: int)

  /** `recs` holds each participant's record of the transaction. `unread` are the participants on whose
      connection the response to an earlier request is still to be read. `toSend` and `inbox` are the prepare
      requests not yet sent and not yet served, `answers` the responses to them, `results` what the
      coordinator has collected. `replies` is every answer ever given to a state query. */
  datatype World = World(
    recs: map<nat, Trans>, began: set<nat>, unread: set<nat>, plan: Option<Plan>, phase: Phase,
    toSend: seq<nat>, inbox: set<nat>, answers: set<(nat, int)>, results: map<nat, int>,
    replies: set<(nat, Reply)>, clock: string)

  const INITIAL := World(map[], {}, {}, None, Working, [], {}, {}, map[], {}, "")

  datatype Event =
    | ServeBegin(h: nat)
    | NoteBegun(h: nat)
    | Abandon(h: nat)
    | StartCommit(list: seq<nat>)
    | SendPrepare
    | SendFails
    | LoseRequest(h: nat)
    | ServePrepare(h: nat, stored: bool)
    | CrashInPrepare(h: nat)
    | RollBackOpen(h: nat)
    | Collect(h: nat, code: int)
    | CollectUnread(h: nat, code: int)
    | CollectFails
    | Tell
    | AnswerQuery(h: nat)
    | PollRound(h: nat, heard: seq<Option<Reply>>, now: string)
    | Tick(now: string)

  predicate InState(w: World, h: nat, state: TransState) {
    h in w.recs && w.recs[h].state == state
  }

  predicate InList(w: World, h: nat) {
    w.plan.Some? && h in w.plan.value.list
  }

  /** What a polling participant has heard are answers given some time ago, if anything. */
  predicate HeardBefore(w: World, members: seq<nat>, heard: seq<Option<Reply>>) {
    |heard| == |members| && forall i :: 0 <= i < |members| && heard[i].Some? ==>
      (members[i], heard[i].value) in w.replies
  }

  predicate Collecting(w: World) {
    w.phase.Preparing? && w.plan.Some? && w.toSend == []
  }

  predicate Awaited(w: World, h: nat) {
    InList(w, h) && h !in w.results
  }

  /** When an event can happen. `Abandon`: the client has sent its next request while the participant was
      still at work on the last, and the coordinator answers without waiting; what it reads from that
      participant next is the response it has left behind. */
  predicate Allowed(w: World, e: Event) {
    match e
    case ServeBegin(h) => h !in w.recs
    case NoteBegun(h) => w.phase.Working? && h in w.recs
    case Abandon(h) => w.phase.Working? && h in w.began
    case StartCommit(list) => w.phase.Working? && w.clock != "" && NoRepeats(list) && (set h | h in list) == w.began
    case SendPrepare => w.phase.Preparing? && w.toSend != []
    case SendFails => w.phase.Preparing? && w.toSend != []
    case LoseRequest(_) => true
    case ServePrepare(h, _) => h in w.inbox
    case CrashInPrepare(h) => h in w.inbox && InState(w, h, Begin)
    case RollBackOpen(h) => InState(w, h, Begin)
    case Collect(h, code) => Collecting(w) && Awaited(w, h) && h !in w.unread && (h, code) in w.answers
    case CollectUnread(h, _) => Collecting(w) && Awaited(w, h) && h in w.unread
    case CollectFails => Collecting(w) && exists h :: h in w.plan.value.list && Awaited(w, h)
    case Tell => Collecting(w) && forall h :: h in w.plan.value.list ==> h in w.results
    case AnswerQuery(_) => true
    case PollRound(h, heard, now) =>
      && InState(w, h, Prepared) && HeardBefore(w, w.recs[h].members, heard)
      && Le(w.recs[h].startTs, now) && Le(now, w.clock)
    case Tick(now) => Le(w.clock, now)
  }

  function SetRec(w: World, h: nat, t: Trans): World {
    w.(recs := w.recs[h := t])
  }

  function Apply(w: World, e: Event): World
    requires Allowed(w, e)
  {
    match e
    case ServeBegin(h) => SetRec(w, h, NewTrans())
    case NoteBegun(h) => w.(began := w.began + {h})
    case Abandon(h) => w.(unread := w.unread + {h})
    case StartCommit(list) => w.(plan := Some(Plan(w.clock, list)), phase := Preparing, toSend := list)
    case SendPrepare => w.(toSend := w.toSend[1..], inbox := w.inbox + {w.toSend[0]})
    case SendFails => w.(phase := Told(1))
    case LoseRequest(h) => w.(inbox := w.inbox - {h})
    case ServePrepare(h, stored) =>
      var served := w.(inbox := w.inbox - {h});
      if w.plan.Some? && InState(w, h, Begin) && stored
      then SetRec(served, h, MarkPrepared(w.recs[h], w.plan.value.start, w.plan.value.list).(selfTs := w.clock))
           .(answers := w.answers + {(h, 0)})
      else served.(answers := w.answers + {(h, 1)})
    case CrashInPrepare(h) =>
      if w.plan.Some?
      then SetRec(w.(inbox := w.inbox - {h}), h, MarkPrepared(w.recs[h], w.plan.value.start, w.plan.value.list))
      else w
    case RollBackOpen(h) => SetRec(w, h, w.recs[h].(state := RolledBack))
    case Collect(h, code) => w.(results := w.results[h := code])
    case CollectUnread(h, code) => w.(results := w.results[h := code])
    case CollectFails => w.(phase := Told(1))
    case Tell => w.(phase := Told(0))
    case AnswerQuery(h) => w.(replies := w.replies + {(h, ReplyOf(if h in w.recs then Some(w.recs[h]) else None))})
    case PollRound(h, heard, now) => SetRec(w, h, Settle(w.recs[h], Poll(w.recs[h], h, heard, now)))
    case Tick(now) => w.(clock := now)
  }

  ghost predicate Runs(w: World, es: seq<Event>, w': World)
    decreases es
  {
    if es == [] then w' == w else Allowed(w, es[0]) && Runs(Apply(w, es[0]), es[1..], w')
  }

  // ----- the invariant -----

  predicate Carries(w: World, t: Trans) {
    w.plan.Some? && t.startTs == w.plan.value.start && t.members == w.plan.value.list
  }

  predicate SelfTsOk(w: World, t: Trans) {
    Le(t.selfTs, w.clock) && (t.selfTs == "" || Le(t.startTs, t.selfTs))
  }

  predicate RecOk(w: World, h: nat)
    requires h in w.recs
  {
    var t := w.recs[h];
    match t.state
    case Begin => t == NewTrans()
    case Prepared => InList(w, h) && Carries(w, t) && SelfTsOk(w, t) && t.commitTs == ""
    case Committed =>
      InList(w, h) && Carries(w, t) && SelfTsOk(w, t) && Le(t.startTs, t.commitTs) && Le(t.commitTs, w.clock)
    case RolledBack => t.members == [] || (InList(w, h) && Carries(w, t))
  }

  /** A request on its way finds its participant unprepared, and has not been answered. */
  predicate PendingOk(w: World, h: nat) {
    && InList(w, h) && h in w.recs && !w.recs[h].EverPrepared()
    && !(h in w.toSend && h in w.inbox) && forall a :: a in w.answers ==> a.0 != h
  }

  predicate AnswerOk(w: World, h: nat, code: int) {
    InList(w, h) && h in w.recs && (code == 0 <==> w.recs[h].EverPrepared()) && (code == 0 ==> w.recs[h].selfTs != "")
  }

  predicate ReplyOk(w: World, h: nat, r: Reply) {
    match r.state
    case Begin => true
    case Prepared => h in w.recs && w.recs[h].EverPrepared() && r.ts == w.recs[h].selfTs
    case Committed => InState(w, h, Committed) && r.ts == w.recs[h].commitTs
    case RolledBack => InState(w, h, RolledBack)
  }

  predicate Holds(w: World, h: nat) {
    h in w.recs && (w.recs[h].state.Prepared? || w.recs[h].state.Committed?)
  }

  predicate RefusedBy(w: World, h: nat) {
    InList(w, h) && InState(w, h, RolledBack) && w.recs[h].members == []
  }

  /** Some participant gave up before it prepared. */
  ghost predicate Refused(w: World) {
    exists h :: RefusedBy(w, h)
  }

  predicate SelfTsIs(w: World, h: nat, ts: string) {
    InList(w, h) && h in w.recs && w.recs[h].selfTs == ts
  }

  /** The commit timestamp is not below any participant's own, and is one of them unless one is missing. */
  ghost predicate CommitTsOk(w: World, ts: string) {
    && (forall g :: InList(w, g) && g in w.recs ==> Le(w.recs[g].selfTs, ts))
    && ((exists g :: SelfTsIs(w, g, ts)) || (exists g :: SelfTsIs(w, g, "")))
  }

  ghost predicate RecordsOk(w: World) {
    && (w.plan.Some? ==> w.plan.value.start != "" && Le(w.plan.value.start, w.clock))
    && (forall h :: h in w.recs ==> RecOk(w, h))
    && (forall h :: InList(w, h) || h in w.began ==> h in w.recs)
    && (forall h, g :: InState(w, h, Committed) && InList(w, g) ==> Holds(w, g))
    && (forall h :: InState(w, h, RolledBack) && InList(w, h) ==> Refused(w))
    && (forall h :: InState(w, h, Committed) ==> CommitTsOk(w, w.recs[h].commitTs))
  }

  /** The plan lists exactly the participants that have begun. */
  ghost predicate PlanCovers(w: World) {
    w.plan.Some? ==> forall h :: h in w.plan.value.list <==> h in w.began
  }

  ghost predicate MessagesOk(w: World) {
    && (w.plan.None? <==> w.phase.Working?)
    && PlanCovers(w)
    && NoRepeats(w.toSend)
    && (forall h :: h in w.toSend || h in w.inbox ==> PendingOk(w, h))
    && (forall a :: a in w.answers ==> AnswerOk(w, a.0, a.1))
    && (forall r :: r in w.replies ==> ReplyOk(w, r.0, r.1))
    && (forall h :: h in w.results ==> InList(w, h))
    && (forall h :: h in w.results && h !in w.unread ==> (h, w.results[h]) in w.answers)
    && (w.phase == Told(0) ==> forall h :: InList(w, h) ==> h in w.results)
  }

  ghost predicate Inv(w: World) {
    RecordsOk(w) && MessagesOk(w)
  }

  // ----- steps that leave the records alone -----

  predicate MovesMessages(e: Event) {
    e.NoteBegun? || e.Abandon? || e.SendPrepare? || e.SendFails? || e.LoseRequest? || e.Collect? || e.CollectUnread?
    || e.CollectFails? || e.Tell? || e.AnswerQuery? || e.Tick?
  }

  lemma ClockKeepsRec(w: World, w': World, h: nat)
    requires h in w.recs && RecOk(w, h) && w'.recs == w.recs && w'.plan == w.plan && Le(w.clock, w'.clock)
    ensures RecOk(w', h)
  {
    if Holds(w, h) {
      LeTrans(w.recs[h].selfTs, w.clock, w'.clock);
    }
    if InState(w, h, Committed) {
      LeTrans(w.recs[h].commitTs, w.clock, w'.clock);
    }
  }

  lemma SameRecordsOk(w: World, w': World)
    requires RecordsOk(w) && w'.recs == w.recs && w'.plan == w.plan && w'.began <= w.recs.Keys && Le(w.clock, w'.clock)
    ensures RecordsOk(w')
  {
    if w.plan.Some? {
      LeTrans(w.plan.value.start, w.clock, w'.clock);
    }
    forall h | h in w'.recs ensures RecOk(w', h) {
      assert RecOk(w, h);
      ClockKeepsRec(w, w', h);
    }
    SameOutcomesOk(w, w');
  }

  lemma SameOutcomesOk(w: World, w': World)
    requires RecordsOk(w) && w'.recs == w.recs && w'.plan == w.plan
    ensures forall h :: InState(w', h, RolledBack) && InList(w', h) ==> Refused(w')
    ensures forall h :: InState(w', h, Committed) ==> CommitTsOk(w', w'.recs[h].commitTs)
    ensures forall h, g :: InState(w', h, Committed) && InList(w', g) ==> Holds(w', g)
  {
    forall h | InState(w', h, RolledBack) && InList(w', h) ensures Refused(w') {
      assert InState(w, h, RolledBack) && InList(w, h);
      RefusedStays(w, w');
    }
    forall h | InState(w', h, Committed) ensures CommitTsOk(w', w'.recs[h].commitTs) {
      assert InState(w, h, Committed);
      SameCommitTsOk(w, w', w.recs[h].commitTs);
    }
    forall h, g | InState(w', h, Committed) && InList(w', g) ensures Holds(w', g) {
      assert InState(w, h, Committed) && InList(w, g) && Holds(w, g);
    }
  }

  lemma RefusedStays(w: World, w': World)
    requires Refused(w) && w'.plan == w.plan
    requires forall h :: InState(w, h, RolledBack) ==> h in w'.recs && w'.recs[h] == w.recs[h]
    ensures Refused(w')
  {
    var g :| RefusedBy(w, g);
    assert RefusedBy(w', g);
  }

  lemma SameCommitTsOk(w: World, w': World, ts: string)
    requires CommitTsOk(w, ts) && w'.plan == w.plan
    requires forall g :: g in w'.recs && InList(w', g) ==> g in w.recs && w'.recs[g].selfTs == w.recs[g].selfTs
    requires w.recs.Keys <= w'.recs.Keys
    ensures CommitTsOk(w', ts)
  {
    forall g | InList(w', g) && g in w'.recs ensures Le(w'.recs[g].selfTs, ts) {
      assert InList(w, g) && g in w.recs;
    }
    if g :| SelfTsIs(w, g, ts) {
      assert SelfTsIs(w', g, ts);
    } else {
      var g :| SelfTsIs(w, g, "");
      assert SelfTsIs(w', g, "");
    }
  }

  lemma MessageStepMessages(w: World, e: Event)
    requires MessagesOk(w) && Allowed(w, e) && MovesMessages(e)
    ensures MessagesOk(Apply(w, e))
  {
    var w' := Apply(w, e);
    forall h | h in w'.toSend || h in w'.inbox ensures PendingOk(w', h) {
      assert PendingOk(w, h);
    }
    forall a | a in w'.answers ensures AnswerOk(w', a.0, a.1) {
      assert AnswerOk(w, a.0, a.1);
    }
    forall r | r in w'.replies ensures ReplyOk(w', r.0, r.1) {
      assert r in w.replies ==> ReplyOk(w, r.0, r.1);
    }
  }

  lemma MessageStepKeepsInv(w: World, e: Event)
    requires Inv(w) && Allowed(w, e) && MovesMessages(e)
    ensures Inv(Apply(w, e))
  {
    if !e.Tick? {
      LeRefl(w.clock);
    }
    SameRecordsOk(w, Apply(w, e));
    MessageStepMessages(w, e);
  }

  // ----- steps of one record -----

  /** How a record may change: prepared for good, its own timestamp fixed, an outcome final. */
  predicate Grows(t: Trans, t': Trans) {
    && (t.EverPrepared() ==> t'.EverPrepared() && t'.selfTs == t.selfTs)
    && (t.Finished() ==> t' == t)
  }

  /** `w'` is `w` with one record grown and perhaps one request of that participant served. */
  predicate OneRecord(w: World, w': World, h: nat) {
    && h in w'.recs && w'.recs == w.recs[h := w'.recs[h]] && (h in w.recs ==> Grows(w.recs[h], w'.recs[h]))
    && w' == w.(recs := w'.recs, inbox := w'.inbox, answers := w'.answers)
    && w'.inbox <= w.inbox && (forall a :: a in w'.answers ==> a in w.answers || a.0 == h) && w.answers <= w'.answers
    && (h in w.recs && w'.recs[h].EverPrepared() != w.recs[h].EverPrepared() ==> h in w.inbox && h !in w'.inbox)
    && (w'.answers != w.answers ==> h in w.inbox && h !in w'.inbox)
  }

  lemma RecordStepMessages(w: World, w': World, h: nat)
    requires MessagesOk(w) && OneRecord(w, w', h)
    requires h !in w.recs ==> !w'.recs[h].EverPrepared()
    requires forall a :: a in w'.answers && a !in w.answers ==> AnswerOk(w', a.0, a.1)
    ensures MessagesOk(w')
  {
    assert h in w.inbox ==> PendingOk(w, h);
    forall g | g in w'.toSend || g in w'.inbox ensures PendingOk(w', g) {
      assert PendingOk(w, g);
    }
    forall a | a in w'.answers ensures AnswerOk(w', a.0, a.1) {
      assert a in w.answers ==> AnswerOk(w, a.0, a.1);
    }
    forall r | r in w'.replies ensures ReplyOk(w', r.0, r.1) {
      assert ReplyOk(w, r.0, r.1);
    }
    forall g | g in w'.results && g !in w'.unread ensures (g, w'.results[g]) in w'.answers {
      assert (g, w.results[g]) in w.answers;
    }
    if w'.phase == Told(0) {
      forall g | InList(w', g) ensures g in w'.results {
        assert InList(w, g);
      }
    }
  }

  /** A record step that ends in no outcome keeps the records in order. */
  lemma RecordStepOpen(w: World, w': World, h: nat)
    requires RecordsOk(w) && OneRecord(w, w', h) && RecOk(w', h) && !w'.recs[h].Finished()
    requires InState(w, h, Prepared) || InState(w, h, Begin) || (h !in w.recs && !InList(w, h))
    ensures RecordsOk(w')
  {
    forall g | g in w'.recs ensures RecOk(w', g) {
      assert g != h ==> RecOk(w, g);
    }
    forall g | InState(w', g, RolledBack) && InList(w', g) ensures Refused(w') {
      assert InState(w, g, RolledBack) && InList(w, g);
      var x :| RefusedBy(w, x);
      assert RefusedBy(w', x);
    }
    forall g, x | InState(w', g, Committed) && InList(w', x) ensures Holds(w', x) {
      assert InState(w, g, Committed) && InList(w, x) && Holds(w, x);
    }
    forall g | InState(w', g, Committed) ensures CommitTsOk(w', w'.recs[g].commitTs) {
      assert InState(w, g, Committed);
      CommitTsStays(w, w', h, g);
    }
  }

  /** Once someone has committed, every participant has prepared and none of their own timestamps moves. */
  lemma CommitTsStays(w: World, w': World, h: nat, g: nat)
    requires RecordsOk(w) && OneRecord(w, w', h) && InState(w, g, Committed)
    ensures CommitTsOk(w', w.recs[g].commitTs)
  {
    forall x | InList(w', x) && x in w'.recs ensures x in w.recs && w'.recs[x].selfTs == w.recs[x].selfTs {
      assert InList(w, x) && Holds(w, x);
    }
    SameCommitTsOk(w, w', w.recs[g].commitTs);
  }

  /** A participant gives up before preparing: nobody can have committed. */
  lemma RecordStepRefuses(w: World, w': World, h: nat)
    requires RecordsOk(w) && OneRecord(w, w', h) && InState(w, h, Begin)
    requires w'.recs[h] == w.recs[h].(state := RolledBack)
    ensures RecordsOk(w')
  {
    assert RecOk(w, h);
    forall g | g in w'.recs ensures RecOk(w', g) {
      assert RecOk(w, g);
    }
    forall g | InState(w', g, RolledBack) && InList(w', g) ensures Refused(w') {
      if g == h {
        assert RefusedBy(w', h);
      } else {
        assert InState(w, g, RolledBack) && InList(w, g);
        var x :| RefusedBy(w, x);
        assert RefusedBy(w', x);
      }
    }
    forall g, x | InState(w', g, Committed) && InList(w', x) ensures Holds(w', x) {
      assert InState(w, g, Committed) && InList(w, x) && Holds(w, x);
    }
    forall g | InState(w', g, Committed) ensures CommitTsOk(w', w'.recs[g].commitTs) {
      assert InState(w, g, Committed);
      CommitTsStays(w, w', h, g);
    }
  }

  /** A prepared participant rolls back because another had: nobody can have committed. */
  lemma RecordStepRollsBack(w: World, w': World, h: nat, g: nat)
    requires RecordsOk(w) && OneRecord(w, w', h) && InState(w, h, Prepared)
    requires w'.recs[h] == w.recs[h].(state := RolledBack) && InState(w, g, RolledBack) && InList(w, g)
    ensures RecordsOk(w')
  {
    var r :| RefusedBy(w, r);
    assert RefusedBy(w', r);
    forall x | x in w'.recs ensures RecOk(w', x) {
      assert RecOk(w, x);
    }
    forall x ensures !InState(w', x, Committed) {
      assert InState(w, x, Committed) ==> Holds(w, g);
    }
  }

  /** A prepared participant commits when all have prepared. */
  lemma RecordStepCommits(w: World, w': World, h: nat, ts: string)
    requires RecordsOk(w) && OneRecord(w, w', h) && InState(w, h, Prepared)
    requires w'.recs[h] == w.recs[h].(state := Committed, commitTs := ts)
    requires Le(w.recs[h].startTs, ts) && Le(ts, w.clock) && CommitTsOk(w, ts)
    requires forall g :: InList(w, g) ==> Holds(w, g)
    ensures RecordsOk(w')
  {
    assert RecOk(w, h);
    forall g | g in w'.recs ensures RecOk(w', g) {
      assert RecOk(w, g);
    }
    forall g | InList(w', g) ensures Holds(w', g) {
      assert InList(w, g) && Holds(w, g);
    }
    forall g | InState(w', g, Committed) ensures CommitTsOk(w', w'.recs[g].commitTs) {
      CommitTsAfter(w, w', h, ts, g);
    }
    forall g ensures !(InState(w', g, RolledBack) && InList(w', g)) {
      assert InList(w, g) ==> Holds(w, g);
    }
  }

  lemma CommitTsAfter(w: World, w': World, h: nat, ts: string, g: nat)
    requires RecordsOk(w) && OneRecord(w, w', h) && InState(w, h, Prepared)
    requires w'.recs[h] == w.recs[h].(state := Committed, commitTs := ts)
    requires CommitTsOk(w, ts) && (forall x :: InList(w, x) ==> Holds(w, x)) && InState(w', g, Committed)
    ensures CommitTsOk(w', w'.recs[g].commitTs)
  {
    if g != h {
      assert InState(w, g, Committed);
      CommitTsStays(w, w', h, g);
    } else {
      CommitTsMoves(w, w', h, ts);
    }
  }

  lemma CommitTsMoves(w: World, w': World, h: nat, ts: string)
    requires OneRecord(w, w', h) && InState(w, h, Prepared) && w'.recs[h].selfTs == w.recs[h].selfTs
    requires CommitTsOk(w, ts) && forall g :: InList(w, g) ==> Holds(w, g)
    ensures CommitTsOk(w', ts)
  {
    forall x | InList(w', x) && x in w'.recs ensures x in w.recs && w'.recs[x].selfTs == w.recs[x].selfTs {
      assert InList(w, x) && Holds(w, x);
    }
    SameCommitTsOk(w, w', ts);
  }

  // ----- the polling round -----

  lemma AllEverPreparedHold(w: World)
    requires RecordsOk(w) && forall g :: InList(w, g) ==> g in w.recs && w.recs[g].EverPrepared()
    ensures forall g :: InList(w, g) ==> Holds(w, g)
  {
  }

  /** A count of prepared by all is true, and the largest timestamp heard fits everyone. */
  lemma CountJustified(w: World, h: nat, heard: seq<Option<Reply>>, now: string, ts: string)
    requires Inv(w) && Allowed(w, PollRound(h, heard, now))
    requires ByCount(w.recs[h].members, h, heard, Seed(w.recs[h], now), ts)
    ensures (forall g :: InList(w, g) ==> Holds(w, g)) && CommitTsOk(w, ts) && Le(w.recs[h].startTs, ts)
    ensures Le(ts, w.clock)
  {
    var t := w.recs[h];
    var members := t.members;
    assert RecOk(w, h);
    forall g | InList(w, g)
      ensures g in w.recs && w.recs[g].EverPrepared() && Le(w.recs[g].selfTs, ts)
    {
      var i :| 0 <= i < |members| && members[i] == g;
      assert SaysPrepared(members, h, heard, i);
      if g != h {
        assert Says(members, h, heard, i, Prepared);
        assert ReplyOk(w, g, heard[i].value);
      }
    }
    AllEverPreparedHold(w);
    LeTrans(t.startTs, Seed(t, now), ts);
    if ts == Seed(t, now) {
      assert SelfTsIs(w, h, t.selfTs);
    } else {
      var i :| 0 <= i < |members| && Says(members, h, heard, i, Prepared) && heard[i].value.ts == ts;
      assert ReplyOk(w, members[i], heard[i].value);
      assert InList(w, members[i]) && Holds(w, members[i]) && RecOk(w, members[i]);
      assert SelfTsIs(w, members[i], ts);
    }
  }

  lemma PollCommits(w: World, h: nat, heard: seq<Option<Reply>>, now: string, ts: string)
    requires Inv(w) && Allowed(w, PollRound(h, heard, now)) && Poll(w.recs[h], h, heard, now) == Commits(ts)
    ensures (forall g :: InList(w, g) ==> Holds(w, g)) && CommitTsOk(w, ts) && Le(w.recs[h].startTs, ts)
    ensures Le(ts, w.clock)
  {
    var t := w.recs[h];
    assert RecOk(w, h);
    PollCaused(t, h, heard, now);
    if ByCount(t.members, h, heard, Seed(t, now), ts) {
      CountJustified(w, h, heard, now, ts);
    } else {
      var i :| 0 <= i < |t.members| && Says(t.members, h, heard, i, Committed) && heard[i].value.ts == ts;
      var g := t.members[i];
      assert ReplyOk(w, g, heard[i].value) && InState(w, g, Committed);
      assert RecOk(w, g);
    }
  }

  lemma PollRollsBack(w: World, h: nat, heard: seq<Option<Reply>>, now: string) returns (g: nat)
    requires Inv(w) && Allowed(w, PollRound(h, heard, now)) && Poll(w.recs[h], h, heard, now) == RollsBack
    ensures InState(w, g, RolledBack) && InList(w, g)
  {
    var t := w.recs[h];
    assert RecOk(w, h);
    PollCaused(t, h, heard, now);
    var i :| 0 <= i < |t.members| && Says(t.members, h, heard, i, RolledBack);
    g := t.members[i];
    assert ReplyOk(w, g, heard[i].value);
  }

  lemma PollKeepsInv(w: World, e: Event)
    requires Inv(w) && Allowed(w, e) && e.PollRound?
    ensures Inv(Apply(w, e))
  {
    var h, w' := e.h, Apply(w, e);
    var t := w.recs[h];
    var r := Poll(t, h, e.heard, e.now);
    assert RecOk(w, h) && t.members != [];
    if r.Commits? {
      PollCommits(w, h, e.heard, e.now, r.ts);
      RecordStepCommits(w, w', h, r.ts);
    } else if r.RollsBack? {
      var g := PollRollsBack(w, h, e.heard, e.now);
      RecordStepRollsBack(w, w', h, g);
    } else {
      RecordStepOpen(w, w', h);
    }
    RecordStepMessages(w, w', h);
  }

  // ----- all steps -----

  lemma StartKeepsInv(w: World, e: Event)
    requires Inv(w) && Allowed(w, e) && e.StartCommit?
    ensures Inv(Apply(w, e))
  {
    var w' := Apply(w, e);
    LeRefl(w.clock);
    forall h | h in w'.recs ensures RecOk(w', h) {
      assert RecOk(w, h);
    }
    forall h | InState(w', h, RolledBack) && InList(w', h) ensures Refused(w') {
      assert RecOk(w, h);
      assert RefusedBy(w', h);
    }
    forall h ensures !InState(w', h, Committed) {
      assert h in w.recs ==> RecOk(w, h);
    }
    forall h ensures h in e.list <==> h in w.began {
      assert h in (set x | x in e.list) <==> h in e.list;
    }
    forall a ensures a !in w.answers {
      assert a in w.answers ==> AnswerOk(w, a.0, a.1);
    }
    forall h ensures h !in w.inbox {
      assert h in w.inbox ==> PendingOk(w, h);
    }
    forall h | h in w'.toSend ensures PendingOk(w', h) {
      assert InList(w', h) && RecOk(w, h);
    }
    forall r | r in w'.replies ensures ReplyOk(w', r.0, r.1) {
      assert ReplyOk(w, r.0, r.1);
    }
  }

  lemma PrepareKeepsInv(w: World, e: Event)
    requires Inv(w) && Allowed(w, e) && (e.ServePrepare? || e.CrashInPrepare?)
    ensures Inv(Apply(w, e))
  {
    var h, w' := e.h, Apply(w, e);
    assert PendingOk(w, h) && RecOk(w, h);
    LeRefl(w.clock);
    assert OneRecord(w, w', h);
    if w'.recs[h] == w.recs[h] {
      SameRecordsOk(w, w');
    } else {
      RecordStepOpen(w, w', h);
    }
    RecordStepMessages(w, w', h);
  }

  lemma StepKeepsInv(w: World, e: Event)
    requires Inv(w) && Allowed(w, e)
    ensures Inv(Apply(w, e))
  {
    var w' := Apply(w, e);
    if MovesMessages(e) {
      MessageStepKeepsInv(w, e);
    } else if e.StartCommit? {
      StartKeepsInv(w, e);
    } else if e.PollRound? {
      PollKeepsInv(w, e);
    } else if e.ServePrepare? || e.CrashInPrepare? {
      PrepareKeepsInv(w, e);
    } else if e.ServeBegin? {
      RecordStepOpen(w, w', e.h);
      RecordStepMessages(w, w', e.h);
    } else {
      assert RecOk(w, e.h);
      RecordStepRefuses(w, w', e.h);
      RecordStepMessages(w, w', e.h);
    }
  }

  lemma {:induction false} RunKeepsInv(w: World, es: seq<Event>, w': World)
    requires Inv(w) && Runs(w, es, w')
    ensures Inv(w')
    decreases es
  {
    if es != [] {
      StepKeepsInv(w, es[0]);
      RunKeepsInv(Apply(w, es[0]), es[1..], w');
    }
  }

  lemma ReachedKeepsInv(es: seq<Event>, w: World)
    requires Runs(INITIAL, es, w)
    ensures Inv(w)
  {
    RunKeepsInv(INITIAL, es, w);
  }
}
