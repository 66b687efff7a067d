/** What readers see over a run: the same answer again later, and their own writes. */
module Snapshots {
  import opened Text
  import opened Records
  import opened Tables
  import opened Operations
  import opened Chains
  import opened Participant

  function Read(n: Node, key: string, reader: string): ReadResult {
    ReadChain(ChainOf(n, key), n.t.trans, reader)
  }

  // ----- how records move -----

  lemma WriteMovesChain(n: Node, key: string, value: string, ts: string, kind: WriteKind, io: Io)
    ensures var n' := DoWrite(n, key, value, ts, kind, io);
            n'.t.trans == n.t.trans && n'.clock == n.clock && n'.conns == n.conns &&
            forall k ::
              || ChainOf(n', k) == ChainOf(n, k)
              || (k == key && ChainOf(n', k) == WriteChain(ChainOf(n, k), value, ts, kind))
  {
  }

  predicate RollbackStep(trans: map<string, Trans>, trans': map<string, Trans>, ts: string)
    requires ts in trans'
  {
    || trans'[ts] == (if ts in trans then trans[ts] else NewTrans())
    || (ts in trans && !trans[ts].Finished() && trans'[ts] == trans[ts].(state := RolledBack))
  }

  /** Steps that at most roll a transaction back or add one. */
  predicate Quiet(e: Event) {
    e.BeginTrans? || e.LockForRead? || e.Disconnect? || e.Restart? || e.Abort?
  }

  lemma QuietStep(n: Node, e: Event)
    requires Possible(n, e) && Quiet(e)
    ensures var n' := Apply(n, e);
            n'.chains == n.chains && n'.clock == n.clock && n.t.trans.Keys <= n'.t.trans.Keys &&
            forall ts :: ts in n'.t.trans ==> RollbackStep(n.t.trans, n'.t.trans, ts)
  {
    match e
    case BeginTrans(ts, io) =>
    case LockForRead(key, ts, io) =>
    case Disconnect(ts, getFails) => CleanTransRolls(n.t, ts);
    case Restart => CleanAllRolls(n.t);
    case Abort(ts) =>
  }

  lemma CleanTransRolls(t: Tables, ts: string)
    ensures var trans' := CleanTrans(t, ts).trans;
            trans'.Keys == t.trans.Keys && forall v :: v in trans' ==> RollbackStep(t.trans, trans', v)
  {
  }

  lemma CleanAllRolls(t: Tables)
    ensures var trans' := CleanAll(t).trans;
            trans'.Keys == t.trans.Keys && forall v :: v in trans' ==> RollbackStep(t.trans, trans', v)
  {
  }

  /** A begun record has no own timestamp yet, and a prepared one either lost it or took it after its start. */
  predicate Stamped(n: Node) {
    forall ts :: ts in n.t.trans ==> StampOk(n.t.trans[ts])
  }

  predicate StampOk(t: Trans) {
    && (t.state.Begin? ==> t.selfTs == "")
    && (t.state.Prepared? ==> t.selfTs == "" || Le(t.startTs, t.selfTs))
  }

  lemma StepKeepsStamps(n: Node, e: Event)
    requires Stamped(n) && Possible(n, e)
    ensures Stamped(Apply(n, e))
  {
    match e
    case WriteData(key, value, ts, kind, lockIo, dataIo) =>
      WriteLeavesTrans(n, key, value, ts, kind, lockIo, dataIo);
    case Prepare(ts, startTs, hosts, io) =>
    case CrashInPrepare(ts, startTs, hosts) =>
    case Commit(ts, c) =>
    case Tick(now) =>
    case _ => QuietKeepsStamps(n, e);
  }

  lemma QuietKeepsStamps(n: Node, e: Event)
    requires Stamped(n) && Possible(n, e) && Quiet(e)
    ensures Stamped(Apply(n, e))
  {
    match e
    case BeginTrans(ts, io) =>
    case LockForRead(key, ts, io) =>
    case Disconnect(ts, getFails) =>
    case Restart =>
    case Abort(ts) =>
  }

  lemma {:induction false} RunKeepsStamps(n: Node, es: seq<Event>)
    requires Inv(n) && Stamped(n) && Runs(n, es)
    ensures Inv(Run(n, es)) && Stamped(Run(n, es))
    decreases es
  {
    if es != [] {
      StepKeepsInv(n, es[0]);
      StepKeepsStamps(n, es[0]);
      RunKeepsStamps(Apply(n, es[0]), es[1..]);
    }
  }

  // ----- repeatable reads -----

  /** This transaction has not committed before `reader`, and with an own timestamp it never will. */
  predicate Late(t: Trans, reader: string) {
    match t.state
    case Begin => true
    case Prepared => t.selfTs == "" || Le(reader, t.selfTs)
    case Committed => Le(reader, t.commitTs)
    case RolledBack => true
  }

  predicate AllLate(extra: seq<Data>, trans: map<string, Trans>, reader: string) {
    forall i :: 0 <= i < |extra| ==>
      extra[i].version != reader && extra[i].version in trans && Late(trans[extra[i].version], reader)
  }

  predicate Settled(tail: seq<Data>, trans: map<string, Trans>, reader: string) {
    forall i :: 0 <= i < |tail| ==>
      tail[i].version in trans && (tail[i].version == reader || trans[tail[i].version].Finished())
  }

  /** The key's versions are `tail`, settled for `reader`, under versions it will never see. */
  predicate PinnedBy(n: Node, key: string, reader: string, tail: seq<Data>, extra: seq<Data>) {
    ChainOf(n, key) == extra + tail && AllLate(extra, n.t.trans, reader) && Settled(tail, n.t.trans, reader)
  }

  ghost predicate Pinned(n: Node, key: string, reader: string, tail: seq<Data>) {
    exists extra :: PinnedBy(n, key, reader, tail, extra)
  }

  /** Versions a reader will never see make it wait or pass over them. */
  lemma {:induction false} LateVersionsHide(
    extra: seq<Data>, tail: seq<Data>, trans: map<string, Trans>, reader: string)
    requires AllLate(extra, trans, reader)
    ensures var r := ReadChain(extra + tail, trans, reader); r.code == 66 || r == ReadChain(tail, trans, reader)
  {
    if extra == [] {
      assert extra + tail == tail;
    } else {
      LateVersionsHide(extra[1..], tail, trans, reader);
      assert (extra + tail)[1..] == extra[1..] + tail && (extra + tail)[0] == extra[0];
    }
  }

  /** Settled versions answer the same while records only advance. */
  lemma {:induction false} SettledAnswers(
    tail: seq<Data>, trans: map<string, Trans>, trans': map<string, Trans>, reader: string)
    requires Settled(tail, trans, reader) && Advances(trans, trans')
    ensures Settled(tail, trans', reader) && ReadChain(tail, trans', reader) == ReadChain(tail, trans, reader)
  {
    if tail != [] {
      assert tail[0].version in trans;
      assert forall i :: 0 <= i < |tail[1..]| ==> tail[1..][i] == tail[i + 1];
      SettledAnswers(tail[1..], trans, trans', reader);
      assert forall i :: 1 <= i < |tail| ==> tail[i] == tail[1..][i - 1];
    }
  }

  /** Every version has its transaction's record, finished below the head. */
  predicate Older(c: seq<Data>, trans: map<string, Trans>) {
    forall i :: 0 <= i < |c| ==> c[i].version in trans && (i > 0 ==> trans[c[i].version].Finished())
  }

  lemma OlderSettled(n: Node, key: string)
    requires KeyOk(n, key)
    ensures Older(ChainOf(n, key), n.t.trans)
  {
    var c := ChainOf(n, key);
    forall i | 0 <= i < |c|
      ensures c[i].version in n.t.trans && (i > 0 ==> n.t.trans[c[i].version].Finished())
    {
      assert WriterOk(n, key, i);
    }
  }

  lemma PinsWhole(n: Node, key: string, reader: string)
    requires Older(ChainOf(n, key), n.t.trans)
    requires var c := ChainOf(n, key); c == [] || c[0].version == reader || n.t.trans[c[0].version].Finished()
    ensures Pinned(n, key, reader, ChainOf(n, key))
  {
    assert [] + ChainOf(n, key) == ChainOf(n, key);
    assert PinnedBy(n, key, reader, ChainOf(n, key), []);
  }

  lemma PinsBelow(n: Node, key: string, reader: string)
    requires Older(ChainOf(n, key), n.t.trans) && ChainOf(n, key) != []
    requires var d := ChainOf(n, key)[0]; d.version != reader && Late(n.t.trans[d.version], reader)
    ensures Pinned(n, key, reader, ChainOf(n, key)[1..])
  {
    var c := ChainOf(n, key);
    assert c == [c[0]] + c[1..];
    assert forall i :: 0 <= i < |c[1..]| ==> c[1..][i] == c[i + 1];
    assert PinnedBy(n, key, reader, c[1..], [c[0]]);
  }

  /** A first answer other than "wait" splits the chain there and then. */
  lemma FirstReadPins(n: Node, key: string, reader: string) returns (tail: seq<Data>)
    requires Inv(n) && Stamped(n) && Read(n, key, reader).code != 66
    ensures Pinned(n, key, reader, tail) && ReadChain(tail, n.t.trans, reader) == Read(n, key, reader)
  {
    var c := ChainOf(n, key);
    assert KeyOk(n, key);
    tail := c;
    OlderSettled(n, key);
    if c == [] || c[0].version == reader || n.t.trans[c[0].version].Finished() {
      PinsWhole(n, key, reader);
    } else {
      OpenHeadIsLate(c[0], n.t.trans, reader);
      PinsBelow(n, key, reader);
      tail := c[1..];
    }
  }

  lemma OpenHeadIsLate(d: Data, trans: map<string, Trans>, reader: string)
    requires d.version in trans && d.version != reader && !trans[d.version].Finished() && StampOk(trans[d.version])
    requires Judge(d, trans, reader).Some? ==> Judge(d, trans, reader).value.code != 66
    ensures Late(trans[d.version], reader) && Judge(d, trans, reader).None?
  {
    var t := trans[d.version];
    if t.state.Prepared? && t.selfTs != "" {
      LeTrans(reader, t.startTs, t.selfTs);
    }
  }

  predicate Rewrites(e: Event, key: string, reader: string) {
    e.WriteData? && e.key == key && e.ts == reader
  }

  predicate Leads(n: Node, key: string, ts: string) {
    ChainOf(n, key) != [] && ChainOf(n, key)[0].version == ts
  }

  /** A step by which a transaction that lost its own timestamp commits the newest version of `key` before `reader`. */
  predicate CommitsEarly(n: Node, e: Event, key: string, reader: string) {
    && e.Commit? && Wakes(n.t, e.ts) && n.t.trans[e.ts].selfTs == ""
    && Leads(n, key, e.ts) && e.ts != reader && Less(e.commitTs, reader)
  }

  lemma StepKeepsLate(n: Node, e: Event, reader: string, ts: string)
    requires Stamped(n) && Possible(n, e) && Le(reader, n.clock)
    requires e.Commit? && e.ts == ts && n.t.trans[ts].selfTs == "" ==> Le(reader, e.commitTs)
    requires ts in n.t.trans && Late(n.t.trans[ts], reader)
    ensures ts in Apply(n, e).t.trans && Late(Apply(n, e).t.trans[ts], reader)
  {
    if e.Commit? {
      if e.ts == ts && n.t.trans[ts].selfTs != "" {
        LeTrans(reader, n.t.trans[ts].selfTs, e.commitTs);
      }
    } else if e.CrashInPrepare? {
      var t' := Apply(n, e).t.trans[ts];
      assert t'.state.RolledBack? || t' == n.t.trans[ts] || t'.selfTs == "";
    } else if e.Prepare? {
      PrepareKeepsLate(n, e, reader, ts);
    } else if e.WriteData? {
      WriteMovesChain(n.(t := AddLock(n.t, e.key, e.ts, e.lockIo).0), e.key, e.value, e.ts, e.kind, e.dataIo);
    } else if !e.Tick? {
      QuietStep(n, e);
      assert RollbackStep(n.t.trans, Apply(n, e).t.trans, ts);
    }
  }

  lemma PrepareKeepsLate(n: Node, e: Event, reader: string, ts: string)
    requires e.Prepare? && Le(reader, n.clock) && ts in n.t.trans && Late(n.t.trans[ts], reader)
    ensures ts in Apply(n, e).t.trans && Late(Apply(n, e).t.trans[ts], reader)
  {
    assert Apply(n, e).t.trans[ts] == n.t.trans[ts] || Apply(n, e).t.trans[ts].selfTs == n.clock;
  }

  lemma StepKeepsPin(n: Node, e: Event, key: string, reader: string, tail: seq<Data>)
    requires Inv(n) && Stamped(n) && Allowed(n, e) && !CommitsEarly(n, e, key, reader) && !Rewrites(e, key, reader)
    requires Le(reader, n.clock) && Pinned(n, key, reader, tail)
    ensures Pinned(Apply(n, e), key, reader, tail)
    ensures ReadChain(tail, Apply(n, e).t.trans, reader) == ReadChain(tail, n.t.trans, reader)
  {
    var extra: seq<Data> :| PinnedBy(n, key, reader, tail, extra);
    StepAdvances(n, e);
    SettledAnswers(tail, n.t.trans, Apply(n, e).t.trans, reader);
    if ChainOf(Apply(n, e), key) == ChainOf(n, key) {
      TransStepKeepsPin(n, e, key, reader, tail, extra);
    } else {
      WriteKeepsPin(n, e, key, reader, tail, extra);
    }
  }

  lemma TransStepKeepsPin(n: Node, e: Event, key: string, reader: string, tail: seq<Data>, extra: seq<Data>)
    requires Inv(n) && Stamped(n) && Allowed(n, e) && !CommitsEarly(n, e, key, reader) && Le(reader, n.clock)
    requires PinnedBy(n, key, reader, tail, extra) && ChainOf(Apply(n, e), key) == ChainOf(n, key)
    requires Settled(tail, Apply(n, e).t.trans, reader)
    ensures PinnedBy(Apply(n, e), key, reader, tail, extra)
  {
    var trans' := Apply(n, e).t.trans;
    forall i | 0 <= i < |extra| ensures extra[i].version in trans' && Late(trans'[extra[i].version], reader) {
      ExtraStaysLate(n, e, key, reader, tail, extra, i);
    }
  }

  lemma ExtraStaysLate(n: Node, e: Event, key: string, reader: string, tail: seq<Data>, extra: seq<Data>, i: nat)
    requires KeyOk(n, key) && Stamped(n) && Possible(n, e) && !CommitsEarly(n, e, key, reader) && Le(reader, n.clock)
    requires PinnedBy(n, key, reader, tail, extra) && i < |extra|
    ensures var v := extra[i].version; v in Apply(n, e).t.trans && Late(Apply(n, e).t.trans[v], reader)
  {
    assert ChainOf(n, key)[i] == extra[i];
    assert WriterOk(n, key, i);
    StepKeepsLate(n, e, reader, extra[i].version);
  }

  /** A change of the chain is a write by a live transaction, onto the versions the reader never sees. */
  lemma WriteKeepsPin(n: Node, e: Event, key: string, reader: string, tail: seq<Data>, extra: seq<Data>)
    requires Inv(n) && Allowed(n, e) && !Rewrites(e, key, reader) && PinnedBy(n, key, reader, tail, extra)
    requires ChainOf(Apply(n, e), key) != ChainOf(n, key)
    ensures Pinned(Apply(n, e), key, reader, tail)
  {
    var n' := Apply(n, e);
    assert e.WriteData? && e.key == key && Begun(n, e.ts) && n'.t.trans == n.t.trans;
    var extra' := WriteOnLate(ChainOf(n, key), n.t.trans, reader, tail, extra, e.value, e.ts, e.kind);
    assert PinnedBy(n', key, reader, tail, extra');
  }

  lemma WriteOnLate(
    c: seq<Data>, trans: map<string, Trans>, reader: string, tail: seq<Data>, extra: seq<Data>, value: string,
    ts: string, kind: WriteKind)
      returns (extra': seq<Data>)
    requires c == extra + tail && AllLate(extra, trans, reader) && Settled(tail, trans, reader)
    requires ts in trans && trans[ts].state.Begin? && ts != reader
    ensures WriteChain(c, value, ts, kind) == extra' + tail && AllLate(extra', trans, reader)
  {
    var c' := WriteChain(c, value, ts, kind);
    var kept := if extra != [] && extra[0].version == ts then extra[1..] else extra;
    extra' := [c'[0]] + kept;
    if extra == [] {
      assert tail != [] ==> tail[0].version != ts;
    } else {
      assert c[0] == extra[0] && c[1..] == extra[1..] + tail;
    }
    assert c' == extra' + tail;
    LateOnTop(c'[0], kept, trans, reader);
  }

  lemma LateOnTop(d: Data, kept: seq<Data>, trans: map<string, Trans>, reader: string)
    requires AllLate(kept, trans, reader) && d.version != reader && d.version in trans && Late(trans[d.version], reader)
    ensures AllLate([d] + kept, trans, reader)
  {
    forall i | 1 <= i < |[d] + kept| ensures ([d] + kept)[i] == kept[i - 1] {
    }
  }

  /** Nothing in the run writes `key` for `reader`. */
  predicate NoRewrites(es: seq<Event>, key: string, reader: string) {
    forall e :: e in es ==> !Rewrites(e, key, reader)
  }

  lemma StepKeepsClock(n: Node, e: Event, reader: string)
    requires Allowed(n, e) && Le(reader, n.clock)
    ensures Le(reader, Apply(n, e).clock)
  {
    if e.Tick? {
      LeTrans(reader, n.clock, e.now);
    }
  }

  /** Every read of the key along the run waits or answers `r`. */
  predicate AnswersAlong(n: Node, es: seq<Event>, key: string, reader: string, r: ReadResult)
    decreases es
  {
    && (Read(n, key, reader).code == 66 || Read(n, key, reader) == r)
    && (es == [] || AnswersAlong(Apply(n, es[0]), es[1..], key, reader, r))
  }

  /** No transaction that lost its own timestamp commits the newest version of `key` before `reader`. */
  predicate NoneCommitsEarly(n: Node, es: seq<Event>, key: string, reader: string)
    decreases es
  {
    es == [] || (!CommitsEarly(n, es[0], key, reader) && NoneCommitsEarly(Apply(n, es[0]), es[1..], key, reader))
  }

  lemma PinnedAnswers(n: Node, key: string, reader: string, tail: seq<Data>)
    requires Pinned(n, key, reader, tail)
    ensures var r := Read(n, key, reader); r.code == 66 || r == ReadChain(tail, n.t.trans, reader)
  {
    var extra: seq<Data> :| PinnedBy(n, key, reader, tail, extra);
    LateVersionsHide(extra, tail, n.t.trans, reader);
  }

  lemma {:induction false} PinnedAnswersAlong(n: Node, es: seq<Event>, key: string, reader: string, tail: seq<Data>)
    requires Inv(n) && Stamped(n) && Runs(n, es) && NoneCommitsEarly(n, es, key, reader) && NoRewrites(es, key, reader)
    requires Le(reader, n.clock) && Pinned(n, key, reader, tail)
    ensures AnswersAlong(n, es, key, reader, ReadChain(tail, n.t.trans, reader))
    decreases es
  {
    PinnedAnswers(n, key, reader, tail);
    if es != [] {
      StepKeepsInv(n, es[0]);
      StepKeepsStamps(n, es[0]);
      StepKeepsClock(n, es[0], reader);
      StepKeepsPin(n, es[0], key, reader, tail);
      PinnedAnswersAlong(Apply(n, es[0]), es[1..], key, reader, tail);
    }
  }

  /** A value or deletion comes from the reader itself or from a transaction with an outcome. */
  predicate FromSettled(n: Node, r: ReadResult, reader: string) {
    IsHit(r) ==> r.beginTs == reader || FinishedHere(n, r.beginTs)
  }

  lemma {:induction false} HitIsSettled(c: seq<Data>, trans: map<string, Trans>, reader: string)
    ensures var r := ReadChain(c, trans, reader);
            IsHit(r) ==> r.beginTs == reader || (r.beginTs in trans && trans[r.beginTs].state.Committed?)
  {
    if c != [] {
      HitIsSettled(c[1..], trans, reader);
    }
  }

  /** A commit before the reader shows at once, and was no answer before. */
  lemma EarlyCommitShows(n: Node, e: Event, key: string, reader: string, r: ReadResult)
    requires CommitsEarly(n, e, key, reader) && FromSettled(n, r, reader)
    ensures var again := Read(Apply(n, e), key, reader); again.code != 66 && again != r
  {
    var again := Read(Apply(n, e), key, reader);
    assert IsHit(again) && again.beginTs == e.ts;
  }

  lemma {:induction false} SameAnswersCommitLate(n: Node, es: seq<Event>, key: string, reader: string, r: ReadResult)
    requires Runs(n, es) && AnswersAlong(n, es, key, reader, r) && FromSettled(n, r, reader)
    ensures NoneCommitsEarly(n, es, key, reader)
    decreases es
  {
    if es != [] {
      if CommitsEarly(n, es[0], key, reader) {
        EarlyCommitShows(n, es[0], key, reader, r);
        assert false;
      }
      StepAdvances(n, es[0]);
      SameAnswersCommitLate(Apply(n, es[0]), es[1..], key, reader, r);
    }
  }

  /** Repeatable reads, exactly: once a reader at an issued timestamp has an answer, every later read of the
      key at that timestamp waits or gives the same answer, whatever others do and whenever the participant
      crashes, if and only if no transaction that lost its own timestamp in a crash commits the newest version of
      the key before the reader. */
  lemma RepeatableReadExactly(es: seq<Event>, n: Node, later: seq<Event>, key: string, reader: string)
    requires Runs(INITIAL, es) && n == Run(INITIAL, es) && Le(reader, n.clock) && Read(n, key, reader).code != 66
    requires Runs(n, later) && NoRewrites(later, key, reader)
    ensures AnswersAlong(n, later, key, reader, Read(n, key, reader)) <==> NoneCommitsEarly(n, later, key, reader)
  {
    RunKeepsStamps(INITIAL, es);
    HitIsSettled(ChainOf(n, key), n.t.trans, reader);
    if NoneCommitsEarly(n, later, key, reader) {
      RepeatableFrom(n, later, key, reader);
    } else if AnswersAlong(n, later, key, reader, Read(n, key, reader)) {
      SameAnswersCommitLate(n, later, key, reader, Read(n, key, reader));
    }
  }

  lemma RepeatableFrom(n: Node, later: seq<Event>, key: string, reader: string)
    requires Inv(n) && Stamped(n) && Le(reader, n.clock) && Read(n, key, reader).code != 66
    requires Runs(n, later) && NoneCommitsEarly(n, later, key, reader) && NoRewrites(later, key, reader)
    ensures AnswersAlong(n, later, key, reader, Read(n, key, reader))
  {
    var tail := FirstReadPins(n, key, reader);
    PinnedAnswersAlong(n, later, key, reader, tail);
  }

  lemma {:induction false} AnswersAtEnd(n: Node, es: seq<Event>, key: string, reader: string, r: ReadResult)
    requires AnswersAlong(n, es, key, reader, r)
    ensures var end := Read(Run(n, es), key, reader); end.code == 66 || end == r
    decreases es
  {
    if es != [] {
      AnswersAtEnd(Apply(n, es[0]), es[1..], key, reader, r);
    }
  }

  /** One commit, exactly: it leaves an answered reader's answer alone when it is not before the reader,
      and otherwise always changes it, as the newest version then becomes visible. */
  lemma CommitKeepsReadExactly(es: seq<Event>, n: Node, key: string, ts: string, commitTs: string, reader: string)
    requires Runs(INITIAL, es) && n == Run(INITIAL, es)
    requires Wakes(n.t, ts) && ts != reader && Read(n, key, reader).code != 66
    requires ChainOf(n, key) != [] && ChainOf(n, key)[0].version == ts
    ensures Read(Apply(n, Commit(ts, commitTs)), key, reader) == Read(n, key, reader) <==> Le(reader, commitTs)
  {
    RunKeepsInv(INITIAL, es);
    var c, n' := ChainOf(n, key), Apply(n, Commit(ts, commitTs));
    assert KeyOk(n, key) && WriterOk(n, key, 0);
    assert Judge(c[0], n.t.trans, reader).None?;
    OthersJudgedAlike(c[1..], n.t.trans, n'.t.trans, ts, reader);
    assert forall i :: 0 <= i < |c[1..]| ==> c[1..][i] == c[i + 1];
    assert Read(n, key, reader) == ReadChain(c[1..], n.t.trans, reader);
    AnswerComesFrom(c[1..], n.t.trans, reader);
  }

  lemma {:induction false} OthersJudgedAlike(
    c: seq<Data>, trans: map<string, Trans>, trans': map<string, Trans>, ts: string, reader: string)
    requires trans' - {ts} == trans - {ts} && forall i :: 0 <= i < |c| ==> c[i].version != ts
    ensures ReadChain(c, trans', reader) == ReadChain(c, trans, reader)
  {
    if c != [] {
      var v := c[0].version;
      assert v in trans <==> v in trans - {ts};
      assert v in trans' <==> v in trans' - {ts};
      assert v in trans ==> trans'[v] == (trans' - {ts})[v] == (trans - {ts})[v] == trans[v];
      OthersJudgedAlike(c[1..], trans, trans', ts, reader);
    }
  }

  lemma {:induction false} AnswerComesFrom(c: seq<Data>, trans: map<string, Trans>, reader: string)
    ensures IsHit(ReadChain(c, trans, reader)) ==> exists d ::
            d in c && ReadChain(c, trans, reader).beginTs == d.version
  {
    if c != [] {
      AnswerComesFrom(c[1..], trans, reader);
      assert c[0] in c && forall d :: d in c[1..] ==> d in c;
    }
  }

  const BEFORE_CRASH: seq<Event> :=
    [Tick("1"), BeginTrans("1", HEALTHY), WriteData("k", "v", "1", Update, HEALTHY, HEALTHY), Tick("2")]
  const CRASH: seq<Event> := [CrashInPrepare("1", "1", [0, 1]), Commit("1", "1")]
  const PENDING := Data(Update, "v", "", "1")
  const PENDING_NODE :=
    Node(
      Tables(map["1" := NewTrans()], map["k" := "1"], map["k" := PENDING], map[]),
      map["k" := [PENDING]], multiset{"1"}, "2")

  lemma BeforeCrashReaches()
    ensures Runs(INITIAL, BEFORE_CRASH) && Run(INITIAL, BEFORE_CRASH) == PENDING_NODE
  {
    var es := BEFORE_CRASH;
    assert Less("", "1") && Less("1", "2") && !Less("1", "") && !Less("2", "1");
    var n1 := Apply(INITIAL, es[0]);
    var n2 := Apply(n1, es[1]);
    var n3 := Apply(n2, es[2]);
    var n4 := Apply(n3, es[3]);
    assert "1" in n2.conns && n2.t.trans == map["1" := NewTrans()];
    assert AddLock(n2.t, "k", "1", HEALTHY) == (n2.t.(locks := map["k" := "1"]), 0);
    assert WriteChain([], "v", "1", Update) == [PENDING];
    assert n3.chains["k"] == [PENDING];
    assert n3.chains == map["k" := [PENDING]] && n3.t == PENDING_NODE.t && n3.conns == multiset{"1"};
    assert es[3..][1..] == [] && es[2..][1..] == es[3..] && es[1..][1..] == es[2..];
    assert Runs(n4, []) && Run(n4, []) == n4;
    assert Runs(n3, es[3..]) && Run(n3, es[3..]) == n4;
    assert Runs(n2, es[2..]) && Run(n2, es[2..]) == n4;
    assert Runs(n1, es[1..]) && Run(n1, es[1..]) == n4;
  }

  lemma CrashRuns()
    ensures Runs(PENDING_NODE, CRASH) && Run(PENDING_NODE, CRASH).chains == PENDING_NODE.chains
    ensures Run(PENDING_NODE, CRASH).clock == "2"
    ensures Run(PENDING_NODE, CRASH).t.trans == map["1" := Trans(Committed, "1", "1", "", [0, 1])]
  {
    assert !Less("2", "1") && !Less("1", "");
    var n1 := Apply(PENDING_NODE, CRASH[0]);
    assert MarkPrepared(NewTrans(), "1", [0, 1]) == Trans(Prepared, "1", "", "", [0, 1]);
    assert n1.t.trans == map["1" := Trans(Prepared, "1", "", "", [0, 1])];
    var n2 := Apply(n1, CRASH[1]);
    assert CRASH[1..][1..] == [] && Runs(n2, []) && Run(n2, []) == n2;
    assert Runs(n1, CRASH[1..]) && Run(n1, CRASH[1..]) == n2;
  }

  /** A participant that dies in the middle of a prepare may commit with a timestamp an earlier reader
      had already looked past: the reader finds nothing first and the value afterwards. */
  lemma CrashMakesReadChange()
    ensures var n := Run(INITIAL, BEFORE_CRASH);
            Runs(INITIAL, BEFORE_CRASH) && Runs(n, CRASH) && Le("2", n.clock) &&
            Read(n, "k", "2").code == 99 && Read(Run(n, CRASH), "k", "2").code == 0
  {
    BeforeCrashReaches();
    CrashRuns();
    assert Less("1", "2") && !Less("2", "2");
    assert [PENDING][1..] == [];
    assert ReadChain([], PENDING_NODE.t.trans, "2").code == 99;
    assert Judge(PENDING, PENDING_NODE.t.trans, "2").None?;
  }

  // ----- a transaction and its own writes -----

  /** After a write that reports success `get` returns exactly that until the next one, as long as the
      transaction is unfinished, whatever others do and whenever the participant crashes. Once it is finished
      `get` returns that or waits, unless a transaction that lost its own timestamp commits the key before it. */
  lemma OwnWritesAreRead(
    es: seq<Event>, n: Node, key: string, value: string, ts: string, kind: WriteKind, later: seq<Event>)
    requires Runs(INITIAL, es) && n == Run(INITIAL, es)
    requires ts in n.conns && Begun(n, ts) && AddLock(n.t, key, ts, HEALTHY).1 == 0
    requires Runs(Apply(n, WriteData(key, value, ts, kind, HEALTHY, HEALTHY)), later) && NoRewrites(later, key, ts)
    ensures var n' := Apply(n, WriteData(key, value, ts, kind, HEALTHY, HEALTHY));
            var r, own := Read(Run(n', later), key, ts), ReadResult(if kind.Delete? then 33 else 0, value, ts, "", "");
            && (!FinishedHere(Run(n', later), ts) ==> r == own)
            && (Le(ts, n.clock) && NoneCommitsEarly(n', later, key, ts) ==> r == own || r.code == 66)
  {
    RunKeepsStamps(INITIAL, es);
    ReadsOwnWrite(n, key, value, ts, kind);
    var n' := Apply(n, WriteData(key, value, ts, kind, HEALTHY, HEALTHY));
    RunKeepsLead(n', later, key, ts, ChainOf(n', key)[0]);
    if Le(ts, n.clock) && NoneCommitsEarly(n', later, key, ts) {
      RepeatableFrom(n', later, key, ts);
      AnswersAtEnd(n', later, key, ts, Read(n', key, ts));
    }
  }

  /** The unfinished transaction `ts` leads the key with version `d`, or is finished. */
  predicate LeadsWith(n: Node, key: string, ts: string, d: Data) {
    FinishedHere(n, ts) || (d.version == ts && ChainOf(n, key) != [] && ChainOf(n, key)[0] == d)
  }

  lemma StepKeepsHead(n: Node, e: Event, key: string, ts: string, d: Data)
    requires Inv(n) && Allowed(n, e) && !Rewrites(e, key, ts) && LeadsWith(n, key, ts, d)
    ensures LeadsWith(Apply(n, e), key, ts, d)
  {
    StepAdvances(n, e);
    if !FinishedHere(n, ts) {
      assert KeyOk(n, key) && WriterOk(n, key, 0);
    }
  }

  lemma {:induction false} RunKeepsLead(n: Node, es: seq<Event>, key: string, ts: string, d: Data)
    requires Inv(n) && Runs(n, es) && NoRewrites(es, key, ts) && LeadsWith(n, key, ts, d)
    ensures LeadsWith(Run(n, es), key, ts, d)
    decreases es
  {
    if es != [] {
      StepKeepsInv(n, es[0]);
      StepKeepsHead(n, es[0], key, ts, d);
      RunKeepsLead(Apply(n, es[0]), es[1..], key, ts, d);
    }
  }

  lemma ReadsOwnWrite(n: Node, key: string, value: string, ts: string, kind: WriteKind)
    requires Inv(n) && Stamped(n) && ts in n.conns && Begun(n, ts) && AddLock(n.t, key, ts, HEALTHY).1 == 0
    ensures var n' := Apply(n, WriteData(key, value, ts, kind, HEALTHY, HEALTHY));
            && Inv(n') && Stamped(n') && n'.clock == n.clock
            && ChainOf(n', key) != [] && ChainOf(n', key)[0].version == ts
            && Read(n', key, ts) == ReadResult(if kind.Delete? then 33 else 0, value, ts, "", "")
  {
    var e := WriteData(key, value, ts, kind, HEALTHY, HEALTHY);
    var n' := Apply(n, e);
    StepKeepsInv(n, e);
    StepKeepsStamps(n, e);
    assert ChainOf(n', key)[0].version == ts && ChainOf(n', key)[0].value == value;
  }

  // ----- locks -----

  lemma StepKeepsLock(n: Node, e: Event, key: string, ts: string)
    requires Allowed(n, e) && ts in n.t.trans && Holds(n, key, ts)
    ensures ts in Apply(n, e).t.trans
    ensures FinishedHere(Apply(n, e), ts)
            || (Holds(Apply(n, e), key, ts) && (!Rewrites(e, key, ts) ==> ChainOf(Apply(n, e), key) == ChainOf(n, key)))
  {
    StepAdvances(n, e);
    if !FinishedHere(n, ts) {
      match e
      case WriteData(k, value, writer, kind, lockIo, dataIo) =>
        OpenLockStays(n.t, key, ts, k, writer, lockIo);
        WriteKeepsLock(n, e, key, ts);
      case LockForRead(k, asker, io) => OpenLockStays(n.t, key, ts, k, asker, io);
      case BeginTrans(name, io) =>
      case Prepare(name, startTs, hosts, io) =>
      case CrashInPrepare(name, startTs, hosts) =>
      case Disconnect(name, getFails) =>
      case _ =>
    }
  }

  lemma OpenLockStays(t: Tables, key: string, ts: string, k: string, asker: string, io: Io)
    requires ts in t.trans && !t.trans[ts].Finished() && key in t.locks && t.locks[key] == ts
    ensures var (t', code) := AddLock(t, k, asker, io);
            key in t'.locks && t'.locks[key] == ts && (k == key && asker != ts && !io.getFails ==> code != 0)
  {
  }

  lemma WriteKeepsLock(n: Node, e: Event, key: string, ts: string)
    requires e.WriteData? && !e.lockIo.getFails && ts in n.t.trans && !n.t.trans[ts].Finished() && Holds(n, key, ts)
    ensures var n' := Apply(n, e); Holds(n', key, ts) && (!Rewrites(e, key, ts) ==> ChainOf(n', key) == ChainOf(n, key))
  {
    OpenLockStays(n.t, key, ts, e.key, e.ts, e.lockIo);
    var (t, code) := AddLock(n.t, e.key, e.ts, e.lockIo);
    if code == 0 {
      WriteMovesChain(n.(t := t), e.key, e.value, e.ts, e.kind, e.dataIo);
    }
  }

  /** A lock once held is held until its transaction is finished, whatever others do and whenever the participant
      crashes, and until then nobody else writes the key. */
  lemma {:induction false} LockProtects(n: Node, es: seq<Event>, key: string, ts: string)
    requires Runs(n, es) && ts in n.t.trans && Holds(n, key, ts)
    ensures FinishedHere(Run(n, es), ts)
            || (Holds(Run(n, es), key, ts) && (NoRewrites(es, key, ts) ==> ChainOf(Run(n, es), key) == ChainOf(n, key)))
    decreases es
  {
    if es != [] {
      StepKeepsLock(n, es[0], key, ts);
      if FinishedHere(Apply(n, es[0]), ts) {
        FinishedStays(Apply(n, es[0]), es[1..], ts);
      } else {
        LockProtects(Apply(n, es[0]), es[1..], key, ts);
      }
    }
  }

  lemma {:induction false} FinishedStays(n: Node, es: seq<Event>, ts: string)
    requires Runs(n, es) && FinishedHere(n, ts)
    ensures FinishedHere(Run(n, es), ts)
    decreases es
  {
    if es != [] {
      StepAdvances(n, es[0]);
      FinishedStays(Apply(n, es[0]), es[1..], ts);
    }
  }

  /** `get_for_update` reads at a timestamp of its own, so it returns the transaction's own pending write
      exactly when that timestamp happens to be the transaction's name; otherwise it reads what lies below. */
  lemma ForUpdateSeesOwnWriteExactly(es: seq<Event>, n: Node, key: string, ts: string, now: string)
    requires Runs(INITIAL, es) && n == Run(INITIAL, es)
    requires Begun(n, ts) && ChainOf(n, key) != [] && ChainOf(n, key)[0].version == ts
    ensures Read(n, key, now) == Hit(ChainOf(n, key)[0], "", "") <==> now == ts
    ensures now != ts ==> Read(n, key, now) == ReadChain(ChainOf(n, key)[1..], n.t.trans, now)
  {
    RunKeepsInv(INITIAL, es);
    var c := ChainOf(n, key);
    assert KeyOk(n, key);
    AnswerComesFrom(c[1..], n.t.trans, now);
    assert forall i :: 0 <= i < |c[1..]| ==> c[1..][i] == c[i + 1];
  }
}
