/** In what order the versions of a key commit, and that readers find the newest commit before their timestamp. */
module CommitOrder {
  import opened Text
  import opened Records
  import opened Tables
  import opened Operations
  import opened Chains
  import opened Participant
  import opened Snapshots

  // ----- commit order -----

  /** A begun record has no own timestamp yet; own and commit timestamps were issued by now. */
  predicate TransOrdered(t: Trans, clock: string) {
    && (t.state.Begin? ==> t.selfTs == "")
    && (t.state.Prepared? ==> Le(t.selfTs, clock))
    && (t.state.Committed? ==> Le(t.commitTs, clock))
  }

  /** Down a chain the commit timestamps never rise; the own timestamp of a prepared version, unless it was
      lost, bounds the commits below it. */
  predicate PairOrdered(upper: Trans, lower: Trans) {
    lower.state.Committed? ==>
      && (upper.state.Committed? ==> Le(lower.commitTs, upper.commitTs))
      && (upper.state.Prepared? && upper.selfTs != "" ==> Le(lower.commitTs, upper.selfTs))
  }

  predicate ChainOrdered(c: seq<Data>, trans: map<string, Trans>) {
    forall i, j :: 0 <= i < j < |c| && c[i].version in trans && c[j].version in trans ==>
      PairOrdered(trans[c[i].version], trans[c[j].version])
  }

  ghost predicate Ordered(n: Node) {
    && (forall ts :: ts in n.t.trans ==> TransOrdered(n.t.trans[ts], n.clock))
    && (forall key :: ChainOrdered(ChainOf(n, key), n.t.trans))
  }

  lemma WriteChainOrdered(c: seq<Data>, trans: map<string, Trans>, value: string, ts: string, kind: WriteKind)
    requires ChainOrdered(c, trans) && ts in trans && trans[ts].state.Begin?
    ensures ChainOrdered(WriteChain(c, value, ts, kind), trans)
  {
  }

  lemma WriteOrdered(n: Node, key: string, value: string, ts: string, kind: WriteKind, io: Io)
    requires Inv(n) && Ordered(n) && Begun(n, ts)
    ensures Ordered(DoWrite(n, key, value, ts, kind, io))
  {
    var n' := DoWrite(n, key, value, ts, kind, io);
    WriteMovesChain(n, key, value, ts, kind, io);
    WriteChainOrdered(ChainOf(n, key), n.t.trans, value, ts, kind);
    forall k ensures ChainOrdered(ChainOf(n', k), n'.t.trans) {
      assert ChainOrdered(ChainOf(n, k), n.t.trans);
    }
  }

  /** A record that moves forward keeps every chain ordered, as it can only be at the head while unfinished. */
  lemma MoveOrdered(n: Node, ts: string, tr: Trans, key: string)
    requires KeyOk(n, key) && Ordered(n) && ts in n.t.trans && !n.t.trans[ts].Finished()
    requires tr.state.Prepared? ==> n.t.trans[ts].state.Begin? && tr.selfTs in {"", n.clock}
    requires tr.state.Committed? ==> n.t.trans[ts].state.Prepared? && Le(n.t.trans[ts].selfTs, tr.commitTs)
    requires tr.state.Committed? && n.t.trans[ts].selfTs == "" ==> AboveOthers(n, key, ts, tr.commitTs)
    ensures ChainOrdered(ChainOf(n, key), n.t.trans[ts := tr])
  {
    var c, trans := ChainOf(n, key), n.t.trans[ts := tr];
    assert ChainOrdered(c, n.t.trans);
    forall i, j | 0 <= i < j < |c| && c[i].version in trans && c[j].version in trans
      ensures PairOrdered(trans[c[i].version], trans[c[j].version])
    {
      assert WriterOk(n, key, i) && WriterOk(n, key, j);
      assert PairOrdered(n.t.trans[c[i].version], n.t.trans[c[j].version]);
      var lower := n.t.trans[c[j].version];
      assert TransOrdered(lower, n.clock);
      if c[i].version == ts && tr.state.Committed? && lower.state.Committed? {
        if n.t.trans[ts].selfTs != "" {
          LeTrans(lower.commitTs, n.t.trans[ts].selfTs, tr.commitTs);
        } else {
          assert CommittedHere(n, c[j].version);
        }
      }
    }
  }

  lemma TickOrdered(n: Node, now: string)
    requires Ordered(n) && Le(n.clock, now)
    ensures Ordered(n.(clock := now))
  {
    forall ts | ts in n.t.trans ensures TransOrdered(n.t.trans[ts], now) {
      var t := n.t.trans[ts];
      assert TransOrdered(t, n.clock);
      LeTransIf(t.selfTs, n.clock, now);
      LeTransIf(t.commitTs, n.clock, now);
    }
    forall key ensures ChainOrdered(ChainOf(n.(clock := now), key), n.t.trans) {
      assert ChainOrdered(ChainOf(n, key), n.t.trans);
    }
  }

  lemma LeTransIf(a: string, b: string, c: string)
    ensures Le(a, b) && Le(b, c) ==> Le(a, c)
  {
    if Le(a, b) && Le(b, c) {
      LeTrans(a, b, c);
    }
  }

  /** Rolling back, and adding a record no chain mentions, keep the order. */
  lemma RollbackOrdered(n: Node, n': Node)
    requires Inv(n) && Ordered(n) && n'.chains == n.chains && n'.clock == n.clock
    requires forall ts :: ts in n'.t.trans ==> RollbackStep(n.t.trans, n'.t.trans, ts)
    ensures Ordered(n')
  {
    forall ts | ts in n'.t.trans ensures TransOrdered(n'.t.trans[ts], n'.clock) {
      assert RollbackStep(n.t.trans, n'.t.trans, ts);
      assert ts in n.t.trans ==> TransOrdered(n.t.trans[ts], n.clock);
    }
    forall key ensures ChainOrdered(ChainOf(n', key), n'.t.trans) {
      var c := ChainOf(n, key);
      assert ChainOrdered(c, n.t.trans) && KeyOk(n, key);
      forall i, j | 0 <= i < j < |c| && c[i].version in n'.t.trans && c[j].version in n'.t.trans
        ensures PairOrdered(n'.t.trans[c[i].version], n'.t.trans[c[j].version])
      {
        assert WriterOk(n, key, i) && WriterOk(n, key, j);
        assert RollbackStep(n.t.trans, n'.t.trans, c[i].version) && RollbackStep(n.t.trans, n'.t.trans, c[j].version);
        assert PairOrdered(n.t.trans[c[i].version], n.t.trans[c[j].version]);
      }
    }
  }

  lemma WriteStepOrdered(n: Node, e: Event)
    requires Inv(n) && Ordered(n) && Allowed(n, e) && e.WriteData?
    ensures Ordered(Apply(n, e))
  {
    LockKeepsInv(n, e.key, e.ts, e.lockIo);
    var (t, code) := AddLock(n.t, e.key, e.ts, e.lockIo);
    RollbackOrdered(n, n.(t := t));
    if code == 0 {
      WriteOrdered(n.(t := t), e.key, e.value, e.ts, e.kind, e.dataIo);
    }
  }

  lemma PrepareStepOrdered(n: Node, e: Event)
    requires Inv(n) && Ordered(n) && Allowed(n, e) && e.Prepare?
    ensures Ordered(Apply(n, e))
  {
    var n' := Apply(n, e);
    if UpdatePrepared(n.t, e.ts, e.startTs, e.hosts, e.io).1 == 0 {
      LeRefl(n.clock);
      MoveAllOrdered(n, e.ts, n'.t.trans[e.ts], n');
    } else {
      RollbackOrdered(n, n');
    }
  }

  /** A crash in a prepare leaves a prepared record with its own timestamp lost, and rolls back what has begun. */
  lemma CrashStepOrdered(n: Node, e: Event)
    requires Inv(n) && Ordered(n) && Allowed(n, e) && e.CrashInPrepare?
    ensures Ordered(Apply(n, e))
  {
    var tr := MarkPrepared(n.t.trans[e.ts], e.startTs, e.hosts);
    var mid := SetTrans(n, e.ts, tr);
    MoveAllOrdered(n, e.ts, tr, mid);
    AdvanceKeepsKeys(n, mid);
    RollbackOrdered(mid, Apply(n, e));
  }

  lemma StepKeepsOrder(n: Node, e: Event)
    requires Inv(n) && Ordered(n) && Allowed(n, e) && CommitInOrder(n, e)
    ensures Ordered(Apply(n, e))
  {
    var n' := Apply(n, e);
    if e.WriteData? {
      WriteStepOrdered(n, e);
    } else if e.Prepare? {
      PrepareStepOrdered(n, e);
    } else if e.CrashInPrepare? {
      CrashStepOrdered(n, e);
    } else if e.Commit? {
      CommitStepOrdered(n, e);
    } else if e.Tick? {
      TickOrdered(n, e.now);
    } else {
      QuietStep(n, e);
      RollbackOrdered(n, n');
    }
  }

  lemma MoveAllOrdered(n: Node, ts: string, tr: Trans, n': Node)
    requires Inv(n) && Ordered(n) && ts in n.t.trans && !n.t.trans[ts].Finished()
    requires n'.t.trans == n.t.trans[ts := tr] && n'.chains == n.chains && n'.clock == n.clock
    requires TransOrdered(tr, n.clock)
    requires tr.state.Prepared? ==> n.t.trans[ts].state.Begin? && tr.selfTs in {"", n.clock}
    requires tr.state.Committed? ==> n.t.trans[ts].state.Prepared? && Le(n.t.trans[ts].selfTs, tr.commitTs)
    requires tr.state.Committed? && n.t.trans[ts].selfTs == "" ==> forall key :: AboveOthers(n, key, ts, tr.commitTs)
    ensures Ordered(n')
  {
    forall key ensures ChainOrdered(ChainOf(n', key), n'.t.trans) {
      assert KeyOk(n, key);
      MoveOrdered(n, ts, tr, key);
    }
    forall u | u in n'.t.trans ensures TransOrdered(n'.t.trans[u], n'.clock) {
      assert u in n.t.trans ==> TransOrdered(n.t.trans[u], n.clock);
    }
  }

  // ----- exactly when -----

  /** The commit of the newest version of `key` at `c` is not before the committed versions under it. */
  predicate AboveOthers(n: Node, key: string, ts: string, c: string) {
    Leads(n, key, ts) ==>
      forall j :: 1 <= j < |ChainOf(n, key)| && CommittedHere(n, ChainOf(n, key)[j].version) ==>
        Le(n.t.trans[ChainOf(n, key)[j].version].commitTs, c)
  }

  predicate CommittedHere(n: Node, ts: string) {
    ts in n.t.trans && n.t.trans[ts].state.Committed?
  }

  /** Unless the step commits a transaction that lost its own timestamp before what it was written over. */
  ghost predicate CommitInOrder(n: Node, e: Event) {
    e.Commit? && Wakes(n.t, e.ts) && n.t.trans[e.ts].selfTs == "" ==>
      forall key :: AboveOthers(n, key, e.ts, e.commitTs)
  }

  lemma CommitStepOrdered(n: Node, e: Event)
    requires Inv(n) && Ordered(n) && Allowed(n, e) && e.Commit? && CommitInOrder(n, e)
    ensures Ordered(Apply(n, e))
  {
    var n' := Apply(n, e);
    forall key | n.t.trans[e.ts].selfTs == "" ensures AboveOthers(n, key, e.ts, e.commitTs) {
    }
    MoveAllOrdered(n, e.ts, n'.t.trans[e.ts], n');
  }

  lemma CommitOutOfOrder(n: Node, e: Event, key: string)
    requires KeyOk(n, key) && Possible(n, e) && e.Commit? && !AboveOthers(n, key, e.ts, e.commitTs)
    ensures !Ordered(Apply(n, e))
  {
    var tr := n.t.trans[e.ts].(state := Committed, commitTs := e.commitTs);
    var j := CommittedAbove(n, key, e.ts, e.commitTs);
    PairOutOfOrder(ChainOf(n, key), n.t.trans, tr, j);
    assert ChainOf(Apply(n, e), key) == ChainOf(n, key);
    assert Apply(n, e).t.trans == n.t.trans[e.ts := tr];
  }

  lemma CommittedAbove(n: Node, key: string, ts: string, c: string) returns (j: nat)
    requires !AboveOthers(n, key, ts, c)
    ensures Leads(n, key, ts) && 1 <= j < |ChainOf(n, key)| && CommittedHere(n, ChainOf(n, key)[j].version)
    ensures !Le(n.t.trans[ChainOf(n, key)[j].version].commitTs, c)
  {
    j :| 1 <= j < |ChainOf(n, key)| && CommittedHere(n, ChainOf(n, key)[j].version)
         && !Le(n.t.trans[ChainOf(n, key)[j].version].commitTs, c);
  }

  lemma PairOutOfOrder(c: seq<Data>, trans: map<string, Trans>, tr: Trans, j: nat)
    requires Distinct(c) && 1 <= j < |c| && c[j].version in trans && trans[c[j].version].state.Committed?
    requires tr.state.Committed? && !Le(trans[c[j].version].commitTs, tr.commitTs)
    ensures !ChainOrdered(c, trans[c[0].version := tr])
  {
    assert c[0].version != c[j].version;
    assert !PairOrdered(trans[c[0].version := tr][c[0].version], trans[c[0].version := tr][c[j].version]);
  }

  lemma StepKeepsOrderExactly(n: Node, e: Event)
    requires Inv(n) && Ordered(n) && Allowed(n, e)
    ensures Ordered(Apply(n, e)) <==> CommitInOrder(n, e)
  {
    if CommitInOrder(n, e) {
      StepKeepsOrder(n, e);
    } else {
      var key :| !AboveOthers(n, key, e.ts, e.commitTs);
      assert KeyOk(n, key);
      CommitOutOfOrder(n, e, key);
    }
  }

  ghost predicate OrderedAlong(n: Node, es: seq<Event>)
    decreases es
  {
    Ordered(n) && (es == [] || OrderedAlong(Apply(n, es[0]), es[1..]))
  }

  ghost predicate CommitsInOrder(n: Node, es: seq<Event>)
    decreases es
  {
    es == [] || (CommitInOrder(n, es[0]) && CommitsInOrder(Apply(n, es[0]), es[1..]))
  }

  lemma {:induction false} OrderedFrom(n: Node, es: seq<Event>)
    requires Inv(n) && Ordered(n) && Runs(n, es)
    ensures OrderedAlong(n, es) <==> CommitsInOrder(n, es)
    decreases es
  {
    if es != [] {
      StepKeepsInv(n, es[0]);
      StepKeepsOrderExactly(n, es[0]);
      if CommitInOrder(n, es[0]) {
        OrderedFrom(Apply(n, es[0]), es[1..]);
      }
    }
  }

  /** Over any run, crashes included, the versions of every key stay in the order of their commits if and only
      if no transaction that lost its own timestamp commits before a version it was written over. */
  lemma OrderExactly(es: seq<Event>)
    requires Runs(INITIAL, es)
    ensures OrderedAlong(INITIAL, es) <==> CommitsInOrder(INITIAL, es)
  {
    OrderedFrom(INITIAL, es);
  }

  // ----- what a reader gets -----

  /** The version at `i` answers `reader` with a value or a deletion. */
  predicate Visible(trans: map<string, Trans>, d: Data, reader: string) {
    d.version in trans && trans[d.version].state.Committed? && Less(trans[d.version].commitTs, reader)
  }

  /** The writer of the version is prepared, and may yet commit before `reader`. */
  predicate AwaitsDecision(trans: map<string, Trans>, d: Data, reader: string) {
    d.version in trans && trans[d.version].state.Prepared? && Less(trans[d.version].startTs, reader)
  }

  /** `reader` passes over the version: it is another's, and neither visible nor about to commit before it. */
  predicate PassedOver(trans: map<string, Trans>, d: Data, reader: string) {
    Judge(d, trans, reader).None?
  }

  lemma {:induction false} AnswerAt(c: seq<Data>, trans: map<string, Trans>, reader: string) returns (i: nat)
    ensures i <= |c| && forall j :: 0 <= j < i ==> PassedOver(trans, c[j], reader)
    ensures i == |c| ==> ReadChain(c, trans, reader) == ReadResult(99, "", "", "", "")
    ensures i < |c| ==> Judge(c[i], trans, reader) == Some(ReadChain(c, trans, reader))
  {
    i := 0;
    if c != [] && PassedOver(trans, c[0], reader) {
      var k := AnswerAt(c[1..], trans, reader);
      i := k + 1;
      forall j | 0 <= j < i ensures PassedOver(trans, c[j], reader) {
        assert j > 0 ==> c[j] == c[1..][j - 1];
      }
    }
  }

  /** A version whose transaction has no record stops the read, unless it is the reader's own. */
  lemma {:induction false} OrphanStopsRead(c: seq<Data>, trans: map<string, Trans>, reader: string, i: nat)
    requires i < |c| && c[i].version !in trans && c[i].version != reader
    requires forall j :: 0 <= j < i ==> PassedOver(trans, c[j], reader)
    ensures ReadChain(c, trans, reader).code == -1
  {
    if i > 0 {
      assert PassedOver(trans, c[0], reader);
      forall j | 0 <= j < i - 1 ensures PassedOver(trans, c[1..][j], reader) {
        assert PassedOver(trans, c[j + 1], reader);
      }
      OrphanStopsRead(c[1..], trans, reader, i - 1);
    }
  }

  /** `r` gives the version's value, its writer, and whether it is a deletion. */
  predicate Answers(d: Data, r: ReadResult) {
    r.value == d.value && r.beginTs == d.version && r.code == if d.kind.Delete? then 33 else 0
  }

  /** `r` is the last commit to the key before `reader`: some visible version holds it, and no visible
      version committed later. */
  ghost predicate NewestVisible(c: seq<Data>, trans: map<string, Trans>, reader: string, r: ReadResult) {
    exists i | 0 <= i < |c| ::
      && Visible(trans, c[i], reader) && Answers(c[i], r)
      && r.startTs == trans[c[i].version].startTs && r.commitTs == trans[c[i].version].commitTs
      && forall j :: 0 <= j < |c| && Visible(trans, c[j], reader) ==>
        Le(trans[c[j].version].commitTs, trans[c[i].version].commitTs)
  }

  ghost predicate OwnVersion(c: seq<Data>, reader: string, r: ReadResult) {
    exists i | 0 <= i < |c| :: c[i].version == reader && Answers(c[i], r) && r.startTs == r.commitTs == ""
  }

  /** Every read of every key is sound, at every point of the run. */
  ghost predicate SoundAlong(n: Node, es: seq<Event>)
    decreases es
  {
    && (forall key, reader :: ReadSound(ChainOf(n, key), n.t.trans, reader, Read(n, key, reader)))
    && (es == [] || SoundAlong(Apply(n, es[0]), es[1..]))
  }

  /** Over any run, crashes included, every read of every key by anyone at any point finds the reader's own
      write or the newest commit before it, or waits for an undecided newest writer, or finds that there is
      nothing, if and only if no transaction that lost its own timestamp commits before a version it was
      written over. */
  lemma ReadsNewestCommitExactly(es: seq<Event>)
    requires Runs(INITIAL, es)
    ensures SoundAlong(INITIAL, es) <==> CommitsInOrder(INITIAL, es)
  {
    if CommitsInOrder(INITIAL, es) {
      InOrderIsSound(INITIAL, es);
    } else if SoundAlong(INITIAL, es) {
      SoundIsInOrder(INITIAL, es);
    }
  }

  lemma {:induction false} InOrderIsSound(n: Node, es: seq<Event>)
    requires Inv(n) && Ordered(n) && Runs(n, es) && CommitsInOrder(n, es)
    ensures SoundAlong(n, es)
    decreases es
  {
    forall key, reader ensures ReadSound(ChainOf(n, key), n.t.trans, reader, Read(n, key, reader)) {
      ReadsNewestCommitIn(n, key, reader);
    }
    if es != [] {
      StepKeepsInv(n, es[0]);
      StepKeepsOrder(n, es[0]);
      InOrderIsSound(Apply(n, es[0]), es[1..]);
    }
  }

  lemma {:induction false} SoundIsInOrder(n: Node, es: seq<Event>)
    requires Inv(n) && Runs(n, es) && SoundAlong(n, es)
    ensures CommitsInOrder(n, es)
    decreases es
  {
    if es != [] {
      var n' := Apply(n, es[0]);
      if !CommitInOrder(n, es[0]) {
        var key :| !AboveOthers(n, key, es[0].ts, es[0].commitTs);
        assert KeyOk(n, key);
        var reader := EarlyCommitHides(n, es[0], key);
        assert false;
      }
      StepKeepsInv(n, es[0]);
      SoundIsInOrder(n', es[1..]);
    }
  }

  /** A commit before a version it lies over hides that one from some reader. */
  lemma EarlyCommitHides(n: Node, e: Event, key: string) returns (reader: string)
    requires KeyOk(n, key) && Possible(n, e) && e.Commit? && !AboveOthers(n, key, e.ts, e.commitTs)
    ensures var n' := Apply(n, e); !ReadSound(ChainOf(n', key), n'.t.trans, reader, Read(n', key, reader))
  {
    var tr := n.t.trans[e.ts].(state := Committed, commitTs := e.commitTs);
    var j := CommittedAbove(n, key, e.ts, e.commitTs);
    assert ChainOf(n, key)[0].version != ChainOf(n, key)[j].version;
    assert ChainOf(Apply(n, e), key) == ChainOf(n, key) && Apply(n, e).t.trans == n.t.trans[e.ts := tr];
    reader := HiddenFrom(ChainOf(n, key), n.t.trans[e.ts := tr], j);
  }

  /** The reader just after the hidden commit, under a name longer than that of any version. */
  lemma HiddenFrom(c: seq<Data>, trans: map<string, Trans>, j: nat) returns (reader: string)
    requires Distinct(c) && 1 <= j < |c| && CommittedIn(trans, c[0]) && CommittedIn(trans, c[j])
    requires Less(trans[c[0].version].commitTs, trans[c[j].version].commitTs)
    ensures !ReadSound(c, trans, reader, ReadChain(c, trans, reader))
  {
    var upper, lower := trans[c[0].version].commitTs, trans[c[j].version].commitTs;
    var more := seq(Longest(c) + 1, i requires 0 <= i <= Longest(c) => '0');
    reader := lower + more;
    LessAppend(lower, more);
    LeTotal(upper, lower);
    LeLess(upper, lower, reader);
    forall i | 0 <= i < |c| ensures c[i].version != reader {
      LongestBounds(c, i);
    }
    var r := ReadChain(c, trans, reader);
    assert r == Hit(c[0], trans[c[0].version].startTs, upper);
    assert Visible(trans, c[j], reader);
    assert !OwnVersion(c, reader, r) && !NewestVisible(c, trans, reader, r);
  }

  predicate CommittedIn(trans: map<string, Trans>, d: Data) {
    d.version in trans && trans[d.version].state.Committed?
  }

  function Longest(c: seq<Data>): nat {
    if c == [] then 0
    else if |c[0].version| > Longest(c[1..]) then |c[0].version|
    else Longest(c[1..])
  }

  lemma {:induction false} LongestBounds(c: seq<Data>, i: nat)
    requires i < |c|
    ensures |c[i].version| <= Longest(c)
  {
    if i > 0 {
      LongestBounds(c[1..], i - 1);
    }
  }

  ghost predicate ReadSound(c: seq<Data>, trans: map<string, Trans>, reader: string, r: ReadResult) {
    && r.code in {0, 33, 66, 99}
    && (IsHit(r) ==> OwnVersion(c, reader, r) || NewestVisible(c, trans, reader, r))
    && (r.code == 66 ==>
          && c != [] && AwaitsDecision(trans, c[0], reader)
          && r.beginTs == c[0].version && r.startTs == trans[c[0].version].startTs
          && r.commitTs == trans[c[0].version].commitTs && r.value == "")
    && (r.code == 99 ==>
          && (forall d :: d in c ==> d.version != reader && !Visible(trans, d, reader))
          && r.value == r.beginTs == r.startTs == r.commitTs == "")
  }

  /** Behind the first visible version no later commit can be found. */
  lemma FirstVisibleIsNewest(c: seq<Data>, trans: map<string, Trans>, reader: string, i: nat)
    requires ChainOrdered(c, trans) && i < |c| && Visible(trans, c[i], reader)
    requires forall j :: 0 <= j < i ==> PassedOver(trans, c[j], reader)
    ensures NewestVisible(c, trans, reader, Hit(c[i], trans[c[i].version].startTs, trans[c[i].version].commitTs))
  {
    forall j | 0 <= j < i ensures !Visible(trans, c[j], reader) {
      assert PassedOver(trans, c[j], reader);
    }
    LeRefl(trans[c[i].version].commitTs);
    forall j | i < j < |c| && Visible(trans, c[j], reader)
      ensures Le(trans[c[j].version].commitTs, trans[c[i].version].commitTs)
    {
      assert PairOrdered(trans[c[i].version], trans[c[j].version]);
    }
  }

  lemma ReadsNewestCommitIn(n: Node, key: string, reader: string)
    requires Inv(n) && Ordered(n)
    ensures ReadSound(ChainOf(n, key), n.t.trans, reader, Read(n, key, reader))
  {
    var c, trans, r := ChainOf(n, key), n.t.trans, Read(n, key, reader);
    assert KeyOk(n, key) && ChainOrdered(c, trans);
    var i := AnswerAt(c, trans, reader);
    if i < |c| {
      assert WriterOk(n, key, i);
      if IsHit(r) && c[i].version != reader {
        FirstVisibleIsNewest(c, trans, reader, i);
      }
    } else {
      AllPassedOver(c, trans, reader);
    }
  }

  lemma AllPassedOver(c: seq<Data>, trans: map<string, Trans>, reader: string)
    requires forall j :: 0 <= j < |c| ==> PassedOver(trans, c[j], reader)
    ensures forall d :: d in c ==> d.version != reader && !Visible(trans, d, reader)
  {
    forall d | d in c ensures d.version != reader && !Visible(trans, d, reader) {
      var j :| 0 <= j < |c| && c[j] == d;
      assert PassedOver(trans, c[j], reader);
    }
  }

  // ----- start timestamps read after the last write -----

  /** The clock at each transaction's last try to write. */
  function Mark(n: Node, e: Event, marks: map<string, string>): map<string, string> {
    if e.WriteData? then marks[e.ts := n.clock] else marks
  }

  /** Every prepare carries a start timestamp no older than its transaction's last write here. */
  predicate StartsAfterWrites(n: Node, es: seq<Event>, marks: map<string, string>)
    decreases es
  {
    es == [] || (StartsAfter(es[0], marks) && StartsAfterWrites(Apply(n, es[0]), es[1..], Mark(n, es[0], marks)))
  }

  predicate StartsAfter(e: Event, marks: map<string, string>) {
    (e.Prepare? || e.CrashInPrepare?) && e.ts in marks ==> Le(marks[e.ts], e.startTs)
  }

  /** What an unfinished writer's version lies above was committed by its last write, and by its start. */
  predicate Marked(n: Node, key: string, marks: map<string, string>) {
    var c := ChainOf(n, key);
    c != [] && c[0].version in n.t.trans ==>
      var v, t := c[0].version, n.t.trans[c[0].version];
      && (t.state.Begin? ==> v in marks && AboveOthers(n, key, v, marks[v]))
      && (t.state.Prepared? ==> AboveOthers(n, key, v, t.startTs))
  }

  /** An unfinished record moves only by the prepare of its own transaction. */
  lemma OpenRecordMoves(n: Node, e: Event, v: string)
    requires Possible(n, e) && v in n.t.trans && v in Apply(n, e).t.trans && !Apply(n, e).t.trans[v].Finished()
    ensures var t, t' := n.t.trans[v], Apply(n, e).t.trans[v];
            || t' == t
            || ((e.Prepare? || e.CrashInPrepare?) && e.ts == v
                && t.state.Begin? && t'.state.Prepared? && t'.startTs == e.startTs)
  {
    match e
    case WriteData(key, value, ts, kind, lockIo, dataIo) =>
      WriteLeavesTrans(n, key, value, ts, kind, lockIo, dataIo);
    case Prepare(ts, startTs, hosts, io) =>
    case CrashInPrepare(ts, startTs, hosts) =>
    case Commit(ts, c) =>
    case Tick(now) =>
    case _ =>
      QuietStep(n, e);
      assert RollbackStep(n.t.trans, Apply(n, e).t.trans, v);
  }

  /** Versions below the newest are settled, so a step that leaves the chain leaves what it lies above. */
  lemma SameChainAbove(n: Node, e: Event, key: string, v: string, c: string)
    requires Inv(n) && Possible(n, e) && ChainOf(Apply(n, e), key) == ChainOf(n, key) && AboveOthers(n, key, v, c)
    ensures AboveOthers(Apply(n, e), key, v, c)
  {
    var n', chain := Apply(n, e), ChainOf(n, key);
    assert KeyOk(n, key);
    StepAdvances(n, e);
    if Leads(n, key, v) {
      forall j | 1 <= j < |chain| && CommittedHere(n', chain[j].version)
        ensures Le(n'.t.trans[chain[j].version].commitTs, c)
      {
        assert WriterOk(n, key, j) && CommittedHere(n, chain[j].version);
      }
    }
  }

  lemma SameChainMarked(n: Node, e: Event, key: string, marks: map<string, string>)
    requires Inv(n) && Allowed(n, e) && Marked(n, key, marks) && StartsAfter(e, marks)
    requires ChainOf(Apply(n, e), key) == ChainOf(n, key) && !(e.WriteData? && Leads(n, key, e.ts))
    ensures Marked(Apply(n, e), key, Mark(n, e, marks))
  {
    var c, n' := ChainOf(n, key), Apply(n, e);
    assert KeyOk(n, key);
    if c != [] && c[0].version in n'.t.trans && !n'.t.trans[c[0].version].Finished() {
      var v := c[0].version;
      assert WriterOk(n, key, 0);
      OpenRecordMoves(n, e, v);
      if n.t.trans[v].state.Begin? {
        SameChainAbove(n, e, key, v, marks[v]);
        if n'.t.trans[v].state.Prepared? {
          AboveRaised(n', key, v, marks[v], e.startTs);
        }
      } else {
        SameChainAbove(n, e, key, v, n.t.trans[v].startTs);
      }
    }
  }

  lemma AboveRaised(n: Node, key: string, v: string, c: string, c': string)
    requires AboveOthers(n, key, v, c) && Le(c, c')
    ensures AboveOthers(n, key, v, c')
  {
    if Leads(n, key, v) {
      forall j | 1 <= j < |ChainOf(n, key)| && CommittedHere(n, ChainOf(n, key)[j].version)
        ensures Le(n.t.trans[ChainOf(n, key)[j].version].commitTs, c')
      {
        LeTrans(n.t.trans[ChainOf(n, key)[j].version].commitTs, c, c');
      }
    }
  }

  /** Whatever the writer writes over was committed by now. */
  lemma WriterMarked(n: Node, e: Event, key: string, marks: map<string, string>)
    requires Ordered(n) && Allowed(n, e) && e.WriteData? && Leads(Apply(n, e), key, e.ts)
    ensures Marked(Apply(n, e), key, Mark(n, e, marks))
  {
    var n' := Apply(n, e);
    WriteLeavesTrans(n, e.key, e.value, e.ts, e.kind, e.lockIo, e.dataIo);
    forall j | 1 <= j < |ChainOf(n', key)| && CommittedHere(n', ChainOf(n', key)[j].version)
      ensures Le(n'.t.trans[ChainOf(n', key)[j].version].commitTs, n.clock)
    {
      assert TransOrdered(n.t.trans[ChainOf(n', key)[j].version], n.clock);
    }
  }

  lemma StepKeepsMarks(n: Node, e: Event, marks: map<string, string>)
    requires Inv(n) && Ordered(n) && Allowed(n, e) && StartsAfter(e, marks) && forall key :: Marked(n, key, marks)
    ensures forall key :: Marked(Apply(n, e), key, Mark(n, e, marks))
  {
    forall key ensures Marked(Apply(n, e), key, Mark(n, e, marks)) {
      assert Marked(n, key, marks);
      if e.WriteData? && Leads(Apply(n, e), key, e.ts) {
        WriterMarked(n, e, key, marks);
      } else {
        OthersKeepChain(n, e, key);
        SameChainMarked(n, e, key, marks);
      }
    }
  }

  lemma OthersKeepChain(n: Node, e: Event, key: string)
    requires Possible(n, e) && !(e.WriteData? && Leads(Apply(n, e), key, e.ts))
    ensures ChainOf(Apply(n, e), key) == ChainOf(n, key)
  {
    if e.WriteData? {
      var (t, code) := AddLock(n.t, e.key, e.ts, e.lockIo);
      if code == 0 {
        WriteMovesChain(n.(t := t), e.key, e.value, e.ts, e.kind, e.dataIo);
      }
    }
  }

  lemma {:induction false} MarkedRunInOrder(n: Node, es: seq<Event>, marks: map<string, string>)
    requires Inv(n) && Ordered(n) && Runs(n, es) && StartsAfterWrites(n, es, marks)
    requires forall key :: Marked(n, key, marks)
    ensures CommitsInOrder(n, es)
    decreases es
  {
    if es != [] {
      var e := es[0];
      forall key | e.Commit? ensures AboveOthers(n, key, e.ts, e.commitTs) {
        assert Marked(n, key, marks);
        if Leads(n, key, e.ts) {
          AboveRaised(n, key, e.ts, n.t.trans[e.ts].startTs, e.commitTs);
        }
      }
      StepKeepsInv(n, e);
      StepKeepsOrder(n, e);
      StepKeepsMarks(n, e, marks);
      MarkedRunInOrder(Apply(n, e), es[1..], Mark(n, e, marks));
    }
  }

  /** Where every start timestamp is read after the transaction's last write, all commits are in order, lost
      timestamps or not: then every read finds the newest commit. */
  lemma LateStartsSuffice(es: seq<Event>)
    requires Runs(INITIAL, es) && StartsAfterWrites(INITIAL, es, map[])
    ensures CommitsInOrder(INITIAL, es) && SoundAlong(INITIAL, es)
  {
    MarkedRunInOrder(INITIAL, es, map[]);
    ReadsNewestCommitExactly(es);
  }

  // ----- a start timestamp read too early -----

  lemma {:induction false} RunsMore(n: Node, es: seq<Event>, e: Event)
    requires Runs(n, es) && Allowed(Run(n, es), e)
    ensures Runs(n, es + [e]) && Run(n, es + [e]) == Apply(Run(n, es), e)
    decreases es
  {
    if es == [] {
      assert es + [e] == [e] && [e][1..] == [];
      assert Runs(Apply(n, e), []) && Run(Apply(n, e), []) == Apply(n, e);
    } else {
      RunsMore(Apply(n, es[0]), es[1..], e);
      assert (es + [e])[1..] == es[1..] + [e];
    }
  }

  lemma Move(es: seq<Event>, n: Node, e: Event) returns (es': seq<Event>, n': Node)
    requires Runs(INITIAL, es) && n == Run(INITIAL, es) && Allowed(n, e)
    ensures Runs(INITIAL, es') && n' == Run(INITIAL, es') == Apply(n, e)
  {
    es', n' := es + [e], Apply(n, e);
    RunsMore(INITIAL, es, e);
  }

  const OLDER := Data(Update, "x", "", "a")
  const NEWER := Data(Update, "y", "a", "b")
  const COMMITTED := Trans(Committed, "1", "2", "1", [0, 1])

  lemma BothBegun() returns (es: seq<Event>, n: Node)
    ensures Runs(INITIAL, es) && n == Run(INITIAL, es) && n.conns == multiset{"a", "b"} && n.clock == "1"
    ensures n.t == EMPTY.(trans := map["a" := NewTrans(), "b" := NewTrans()]) && n.chains == map[]
  {
    assert !Less("1", "");
    es, n := [], INITIAL;
    es, n := Move(es, n, Tick("1"));
    es, n := Move(es, n, BeginTrans("a", HEALTHY));
    es, n := Move(es, n, BeginTrans("b", HEALTHY));
  }

  lemma FirstWrites(n: Node)
    requires n.t.locks == map[] && n.t.heads == map[] && n.t.versions == map[] && n.chains == map[]
    ensures var n' := LockAndWrite(n, "k", "x", "a", Update, HEALTHY, HEALTHY);
            n'.t == Tables(n.t.trans, map["k" := "a"], map["k" := OLDER], map[]) && n'.chains == map["k" := [OLDER]]
  {
    assert WriteChain([], "x", "a", Update) == [OLDER];
    assert AddLock(n.t, "k", "a", HEALTHY) == (n.t.(locks := map["k" := "a"]), 0);
    WriteLeavesTrans(n, "k", "x", "a", Update, HEALTHY, HEALTHY);
  }

  lemma FirstWritten() returns (es: seq<Event>, n: Node)
    ensures Runs(INITIAL, es) && n == Run(INITIAL, es) && n.conns == multiset{"a", "b"} && n.clock == "1"
    ensures n.t == Tables(map["a" := NewTrans(), "b" := NewTrans()], map["k" := "a"], map["k" := OLDER], map[])
    ensures n.chains == map["k" := [OLDER]]
  {
    es, n := BothBegun();
    FirstWrites(n);
    es, n := Move(es, n, WriteData("k", "x", "a", Update, HEALTHY, HEALTHY));
  }

  lemma FirstPrepares(t: Tables)
    requires t.trans == map["a" := NewTrans(), "b" := NewTrans()]
    ensures var (mid, code) := UpdatePrepared(t, "a", "1", [0, 1], HEALTHY);
            code == 0 && UpdateSelfTs(mid, "a", "1", HEALTHY).0
                         == t.(trans := map["a" := Trans(Prepared, "1", "", "1", [0, 1]), "b" := NewTrans()])
  {
    assert MarkPrepared(NewTrans(), "1", [0, 1]) == Trans(Prepared, "1", "", "", [0, 1]);
  }

  lemma FirstPrepared() returns (es: seq<Event>, n: Node)
    ensures Runs(INITIAL, es) && n == Run(INITIAL, es) && "b" in n.conns && n.clock == "1"
    ensures n.t.trans == map["a" := Trans(Prepared, "1", "", "1", [0, 1]), "b" := NewTrans()]
    ensures n.t == Tables(n.t.trans, map["k" := "a"], map["k" := OLDER], map[])
    ensures n.chains == map["k" := [OLDER]]
  {
    LeRefl("1");
    es, n := FirstWritten();
    FirstPrepares(n.t);
    es, n := Move(es, n, Prepare("a", "1", [0, 1], HEALTHY));
  }

  lemma FirstCommitted() returns (es: seq<Event>, n: Node)
    ensures Runs(INITIAL, es) && n == Run(INITIAL, es) && "b" in n.conns && n.clock == "2"
    ensures n.t == Tables(map["a" := COMMITTED, "b" := NewTrans()], map["k" := "a"], map["k" := OLDER], map[])
    ensures n.chains == map["k" := [OLDER]]
  {
    assert !Less("2", "1") && !Less("2", "2");
    es, n := FirstPrepared();
    es, n := Move(es, n, Tick("2"));
    es, n := Move(es, n, Commit("a", "2"));
  }

  lemma SecondWritten() returns (es: seq<Event>, n: Node)
    ensures Runs(INITIAL, es) && n == Run(INITIAL, es) && "b" in n.conns && n.clock == "2"
    ensures n.t.trans == map["a" := COMMITTED, "b" := NewTrans()] && n.chains == map["k" := [NEWER, OLDER]]
  {
    es, n := FirstCommitted();
    assert AddLock(n.t, "k", "b", HEALTHY).1 == 0;
    assert WriteChain([OLDER], "y", "b", Update) == [NEWER, OLDER];
    es, n := Move(es, n, WriteData("k", "y", "b", Update, HEALTHY, HEALTHY));
  }

  lemma SecondCrashes() returns (es: seq<Event>, n: Node)
    ensures Runs(INITIAL, es) && n == Run(INITIAL, es) && n.clock == "2" && n.chains == map["k" := [NEWER, OLDER]]
    ensures n.t.trans == map["a" := COMMITTED, "b" := Trans(Prepared, "1", "", "", [0, 1])]
  {
    assert !Less("2", "1");
    es, n := SecondWritten();
    assert MarkPrepared(NewTrans(), "1", [0, 1]) == Trans(Prepared, "1", "", "", [0, 1]);
    es, n := Move(es, n, CrashInPrepare("b", "1", [0, 1]));
  }

  /** The start timestamp "1" of "b" is read before its write; meanwhile "a" commits at "2" what "b" writes
      over, the participant crashes, and "b" commits at "1". A reader is given the older of the two commits. */
  lemma EarlyStartHidesNewest() returns (es: seq<Event>, n: Node)
    ensures Runs(INITIAL, es) && n == Run(INITIAL, es) && n.clock == "2"
    ensures !ReadSound(ChainOf(n, "k"), n.t.trans, "3", Read(n, "k", "3"))
  {
    assert !Less("1", "") && !Less("2", "1") && Less("1", "3") && Less("2", "3") && Less("1", "2") && !Less("1", "1");
    es, n := SecondCrashes();
    es, n := Move(es, n, Commit("b", "1"));
    OlderCommitRead(n);
  }

  lemma OlderCommitRead(n: Node)
    requires n.chains == map["k" := [NEWER, OLDER]]
    requires n.t.trans == map["a" := COMMITTED, "b" := Trans(Committed, "1", "1", "", [0, 1])]
    ensures !ReadSound(ChainOf(n, "k"), n.t.trans, "3", Read(n, "k", "3"))
  {
    assert Less("1", "3") && Less("2", "3") && Less("1", "2");
    var c, r := [NEWER, OLDER], Read(n, "k", "3");
    assert r == Hit(NEWER, "1", "1");
    assert Visible(n.t.trans, c[1], "3");
    assert !NewestVisible(c, n.t.trans, "3", r);
  }
}
