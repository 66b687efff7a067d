/** One participant over a whole run: what its connections, restarts and polling routines do to its tables. */
module Participant {
  import opened Text
  import opened Timestamps
  import opened Records
  import opened Tables
  import opened Operations
  import opened Chains

  /** `chains` is history: the versions of each key. `conns` holds the transaction name of every open
      connection that has asked to begin one, granted or not. */
  datatype Node = Node(t: Tables, chains: map<string, seq<Data>>, conns: multiset<string>, clock: string)

  datatype Event =
    | BeginTrans(ts: string, io: Io)
    | WriteData(key: string, value: string, ts: string, kind: WriteKind, lockIo: Io, dataIo: Io)
    | LockForRead(key: string, ts: string, io: Io)
    | Prepare(ts: string, startTs: string, hosts: seq<nat>, io: Io)
    | CrashInPrepare(ts: string, startTs: string, hosts: seq<nat>)
    | Disconnect(ts: string, getFails: bool)
    | Restart
    | Commit(ts: string, commitTs: string)
    | Abort(ts: string)
    | Tick(now: string)

  function ChainOf(n: Node, key: string): seq<Data> {
    if key in n.chains then n.chains[key] else []
  }

  const INITIAL := Node(EMPTY, map[], multiset{}, "")

  /** The transaction has begun here and is not past that. */
  predicate Begun(n: Node, ts: string) {
    ts in n.t.trans && n.t.trans[ts].state.Begin?
  }

  /** When an event can happen: any name may be begun again, and a connection whose begin was refused is
      served like any other. A transaction starts to commit at a timestamp already issued; a polling routine
      commits at one already issued, not below the start or the participant's own. */
  predicate Possible(n: Node, e: Event) {
    match e
    case BeginTrans(ts, _) => GoodTs(ts)
    case WriteData(_, _, ts, _, _, _) => ts in n.conns
    case LockForRead(_, ts, _) => ts in n.conns
    case Prepare(ts, startTs, _, _) => ts in n.conns && Le(startTs, n.clock)
    case CrashInPrepare(ts, startTs, _) => ts in n.conns && Begun(n, ts) && Le(startTs, n.clock)
    case Disconnect(ts, _) => ts in n.conns
    case Restart => true
    case Commit(ts, c) =>
      Wakes(n.t, ts) && Le(n.t.trans[ts].startTs, c) && Le(n.t.trans[ts].selfTs, c) && Le(c, n.clock)
    case Abort(ts) => Wakes(n.t, ts)
    case Tick(now) => Le(n.clock, now)
  }

  /** Nothing is written for a transaction that is past its begin, no lock is taken for an unknown one, and
      the gets on the way succeed. */
  predicate Timely(n: Node, e: Event) {
    match e
    case WriteData(_, _, ts, _, lockIo, dataIo) => Begun(n, ts) && !lockIo.getFails && !dataIo.getFails
    case LockForRead(_, ts, io) => ts in n.t.trans && !io.getFails
    case _ => true
  }

  predicate Allowed(n: Node, e: Event) {
    Possible(n, e) && Timely(n, e)
  }

  function Apply(n: Node, e: Event): Node {
    match e
    case BeginTrans(ts, io) =>
      n.(t := AddTrans(n.t, ts, io).0, conns := n.conns + multiset{ts})
    case WriteData(key, value, ts, kind, lockIo, dataIo) => LockAndWrite(n, key, value, ts, kind, lockIo, dataIo)
    case LockForRead(key, ts, io) => n.(t := AddLock(n.t, key, ts, io).0)
    case Prepare(ts, startTs, hosts, io) =>
      var (t, code) := UpdatePrepared(n.t, ts, startTs, hosts, io);
      if code != 0 then n.(t := t)
      else n.(t := UpdateSelfTs(t, ts, n.clock, HEALTHY).0, conns := n.conns - multiset{ts})
    case CrashInPrepare(ts, startTs, hosts) =>
      n.(t := CleanAll(UpdatePrepared(n.t, ts, startTs, hosts, HEALTHY).0), conns := multiset{})
    case Disconnect(ts, getFails) =>
      n.(t := if getFails then n.t else CleanTrans(n.t, ts), conns := n.conns - multiset{ts})
    case Restart => n.(t := CleanAll(n.t), conns := multiset{})
    case Commit(ts, c) =>
      if Wakes(n.t, ts) then SetTrans(n, ts, n.t.trans[ts].(state := Committed, commitTs := c)) else n
    case Abort(ts) => if Wakes(n.t, ts) then SetTrans(n, ts, n.t.trans[ts].(state := RolledBack)) else n
    case Tick(now) => n.(clock := now)
  }

  function SetTrans(n: Node, ts: string, tr: Trans): Node {
    n.(t := n.t.(trans := n.t.trans[ts := tr]))
  }

  function LockAndWrite(
    n: Node, key: string, value: string, ts: string, kind: WriteKind, lockIo: Io, dataIo: Io): Node {
    var (t, code) := AddLock(n.t, key, ts, lockIo);
    if code != 0 then n.(t := t) else DoWrite(n.(t := t), key, value, ts, kind, dataIo)
  }

  function DoWrite(n: Node, key: string, value: string, ts: string, kind: WriteKind, io: Io): Node {
    var (t, code) := AddData(n.t, key, value, ts, kind, io);
    if code != 0 then n.(t := t)
    else n.(t := t, chains := n.chains[key := WriteChain(ChainOf(n, key), value, ts, kind)])
  }

  predicate Runs(n: Node, es: seq<Event>)
    decreases es
  {
    es == [] || (Allowed(n, es[0]) && Runs(Apply(n, es[0]), es[1..]))
  }

  function Run(n: Node, es: seq<Event>): Node
    decreases es
  {
    if es == [] then n else Run(Apply(n, es[0]), es[1..])
  }

  // ----- structure: chains, locks, writers -----

  /** Only the lock holder can be an unfinished writer of a key, and its version is the newest. */
  predicate WriterOk(n: Node, key: string, i: nat)
    requires i < |ChainOf(n, key)|
  {
    var v := ChainOf(n, key)[i].version;
    v in n.t.trans && (!n.t.trans[v].Finished() ==> i == 0 && key in n.t.locks && n.t.locks[key] == v)
  }

  predicate FinishedHere(n: Node, ts: string) {
    ts in n.t.trans && n.t.trans[ts].Finished()
  }

  predicate KeyOk(n: Node, key: string) {
    ChainIs(n.t, key, ChainOf(n, key)) && forall i :: 0 <= i < |ChainOf(n, key)| ==> WriterOk(n, key, i)
  }

  ghost predicate Inv(n: Node) {
    && (forall key :: KeyOk(n, key))
    && (forall ts :: ts in n.conns ==> GoodTs(ts))
    && (forall key :: key in n.t.locks ==> n.t.locks[key] in n.t.trans)
  }

  /** Records are only added, and a finished one stays finished. */
  predicate Advances(trans: map<string, Trans>, trans': map<string, Trans>) {
    forall ts :: ts in trans ==> ts in trans' && (trans[ts].Finished() ==> trans'[ts] == trans[ts])
  }

  lemma AdvanceKeepsKeys(n: Node, n': Node)
    requires forall key :: KeyOk(n, key)
    requires n'.t == n.t.(trans := n'.t.trans) && n'.chains == n.chains && Advances(n.t.trans, n'.t.trans)
    ensures forall key :: KeyOk(n', key)
  {
    forall key ensures KeyOk(n', key) {
      assert KeyOk(n, key);
      forall i | 0 <= i < |ChainOf(n', key)| ensures WriterOk(n', key, i) {
        assert WriterOk(n, key, i);
      }
    }
  }

  /** Taking a lock disturbs no unfinished writer: the lock of such a one is refused to others. */
  lemma LockKeepsKey(n: Node, key: string, ts: string, io: Io, k: string)
    requires KeyOk(n, k) && !io.getFails
    ensures KeyOk(n.(t := AddLock(n.t, key, ts, io).0), k)
  {
    var n' := n.(t := AddLock(n.t, key, ts, io).0);
    forall i | 0 <= i < |ChainOf(n', k)| ensures WriterOk(n', k, i) {
      assert WriterOk(n, k, i);
    }
  }

  lemma LockKeepsInv(n: Node, key: string, ts: string, io: Io)
    requires Inv(n) && ts in n.t.trans && !io.getFails
    ensures Inv(n.(t := AddLock(n.t, key, ts, io).0))
    ensures AddLock(n.t, key, ts, io).1 == 0 ==>
              var locks := AddLock(n.t, key, ts, io).0.locks; key in locks && locks[key] == ts
  {
    var n' := n.(t := AddLock(n.t, key, ts, io).0);
    forall k ensures KeyOk(n', k) {
      assert KeyOk(n, k);
      LockKeepsKey(n, key, ts, io, k);
    }
  }

  /** A lock holder writes either its own newest version again or a version new to the key. */
  lemma HolderIsFreshOrHead(n: Node, key: string, ts: string)
    requires Inv(n) && Begun(n, ts) && key in n.t.locks && n.t.locks[key] == ts
    ensures FreshOrHead(ChainOf(n, key), ts)
    ensures forall i :: 0 <= i < |ChainOf(n, key)| && ChainOf(n, key)[i].version != ts ==>
              FinishedHere(n, ChainOf(n, key)[i].version)
  {
    assert KeyOk(n, key);
    forall i | 0 <= i < |ChainOf(n, key)|
      ensures ChainOf(n, key)[i].version == ts ==> i == 0
      ensures ChainOf(n, key)[i].version != ts ==> FinishedHere(n, ChainOf(n, key)[i].version)
    {
      assert WriterOk(n, key, i);
    }
  }

  lemma DoWriteOtherKey(n: Node, key: string, value: string, ts: string, kind: WriteKind, io: Io, k: string)
    requires KeyOk(n, k) && k != key
    ensures KeyOk(DoWrite(n, key, value, ts, kind, io), k)
  {
    AddDataElsewhere(n.t, key, value, ts, kind, io, k, ChainOf(n, k));
    SameWriters(n, DoWrite(n, key, value, ts, kind, io), k);
  }

  lemma SameWriters(n: Node, n': Node, k: string)
    requires KeyOk(n, k) && ChainOf(n', k) == ChainOf(n, k) && ChainIs(n'.t, k, ChainOf(n, k))
    requires n'.t.trans == n.t.trans && n'.t.locks == n.t.locks
    ensures KeyOk(n', k)
  {
    forall i | 0 <= i < |ChainOf(n', k)| ensures WriterOk(n', k, i) {
      assert WriterOk(n, k, i);
    }
  }

  predicate Holds(n: Node, key: string, ts: string) {
    key in n.t.locks && n.t.locks[key] == ts
  }

  /** What a stored version must meet: its writer is known here, leads the key's chain or is new to it, and
      holds the lock unless it is finished; whoever it is written over is finished; and a failing get forgets
      no version of another. */
  predicate Fits(n: Node, key: string, ts: string, io: Io) {
    var c := ChainOf(n, key);
    && ts in n.t.trans && FreshOrHead(c, ts) && (n.t.trans[ts].Finished() || Holds(n, key, ts))
    && (c != [] && c[0].version != ts ==> FinishedHere(n, c[0].version))
    && (io.getFails ==> forall i :: 0 <= i < |c| ==> c[i].version == ts)
  }

  lemma DoWriteThisKey(n: Node, key: string, value: string, ts: string, kind: WriteKind, io: Io)
    requires KeyOk(n, key) && GoodTs(ts) && Fits(n, key, ts, io) && AddData(n.t, key, value, ts, kind, io).1 == 0
    ensures KeyOk(DoWrite(n, key, value, ts, kind, io), key)
  {
    var n' := DoWrite(n, key, value, ts, kind, io);
    AddDataForgetsExactly(n.t, key, ChainOf(n, key), value, ts, kind, io);
    forall i | 0 <= i < |ChainOf(n', key)| ensures WriterOk(n', key, i) {
      WriterStaysOk(n, n', key, value, ts, kind, io, i);
    }
  }

  /** The writer may head the chain; whoever it pushes down is finished. */
  lemma WriterStaysOk(
    n: Node, n': Node, key: string, value: string, ts: string, kind: WriteKind, io: Io, i: nat)
    requires KeyOk(n, key) && Fits(n, key, ts, io) && n'.t.trans == n.t.trans && n'.t.locks == n.t.locks
    requires ChainOf(n', key) == WriteChain(ChainOf(n, key), value, ts, kind) && i < |ChainOf(n', key)|
    ensures WriterOk(n', key, i)
  {
    var c := ChainOf(n, key);
    WriteChainAt(c, value, ts, kind, i);
    if i > 0 {
      OlderIsFinished(n, key, ts, io, if c[0].version == ts then i else i - 1);
    }
  }

  lemma OlderIsFinished(n: Node, key: string, ts: string, io: Io, j: nat)
    requires KeyOk(n, key) && Fits(n, key, ts, io) && j < |ChainOf(n, key)|
    requires j > 0 || ChainOf(n, key)[0].version != ts
    ensures FinishedHere(n, ChainOf(n, key)[j].version)
  {
    assert WriterOk(n, key, j);
  }

  lemma DoWriteKeepsInv(n: Node, key: string, value: string, ts: string, kind: WriteKind, io: Io)
    requires Inv(n) && GoodTs(ts) && (AddData(n.t, key, value, ts, kind, io).1 == 0 ==> Fits(n, key, ts, io))
    ensures Inv(DoWrite(n, key, value, ts, kind, io))
  {
    var n' := DoWrite(n, key, value, ts, kind, io);
    forall k ensures KeyOk(n', k) {
      assert KeyOk(n, k);
      if k != key {
        DoWriteOtherKey(n, key, value, ts, kind, io, k);
      } else if AddData(n.t, key, value, ts, kind, io).1 == 0 {
        DoWriteThisKey(n, key, value, ts, kind, io);
      } else {
        AddDataFailed(n.t, key, ChainOf(n, key), value, ts, kind, io);
        SameWriters(n, n', key);
      }
    }
  }

  /** Restarts and crashes roll back what is merely begun. */
  lemma CleanAllAdvances(t: Tables)
    ensures Advances(t.trans, CleanAll(t).trans)
  {
  }

  /** No operation of the store, called with anything in any state, drops a record, reopens an outcome, or
      takes back a prepare. */
  lemma StoreKeepsPromises(t: Tables, ts: string, other: string, startTs: string, hosts: seq<nat>, io: Io, v: string)
    requires ts in t.trans
    ensures forall t' :: t' in {AddTrans(t, other, io).0, CleanTrans(t, other), CleanAll(t),
                                UpdatePrepared(t, other, startTs, hosts, io).0, UpdateSelfTs(t, other, v, io).0} ==>
              ts in t'.trans && (t.trans[ts].Finished() ==> t'.trans[ts] == t.trans[ts]) &&
              (t.trans[ts].state.Prepared? ==> t'.trans[ts].(selfTs := "") == t.trans[ts].(selfTs := ""))
  {
  }

  /** After a restart, and after a crash in a prepare, nothing is merely begun and no connection is left; and
      everything else is as it was, but for the prepared record itself. */
  lemma RestartEndsBegun(n: Node, e: Event, ts: string)
    requires Possible(n, e) && (e.Restart? || e.CrashInPrepare?) && ts in n.t.trans
    ensures var n', t := Apply(n, e), n.t.trans[ts];
            && n'.conns == multiset{} && n'.chains == n.chains && n'.clock == n.clock && ts in n'.t.trans
            && n'.t.trans[ts] ==
               (if e.CrashInPrepare? && ts == e.ts
                then Trans(Prepared, e.startTs, t.commitTs, t.selfTs, t.members + e.hosts)
                else if Begun(n, ts) then t.(state := RolledBack)
                else t)
  {
  }

  lemma StepAdvances(n: Node, e: Event)
    requires Possible(n, e)
    ensures Advances(n.t.trans, Apply(n, e).t.trans)
  {
    if e.CrashInPrepare? {
      CleanAllAdvances(UpdatePrepared(n.t, e.ts, e.startTs, e.hosts, HEALTHY).0);
    } else if e.Restart? {
      CleanAllAdvances(n.t);
    } else if e.WriteData? {
      WriteLeavesTrans(n, e.key, e.value, e.ts, e.kind, e.lockIo, e.dataIo);
    } else if e.Prepare? {
      PrepareAdvances(n, e.ts, e.startTs, e.hosts, e.io);
    } else {
      OthersAdvance(n, e);
    }
  }

  lemma OthersAdvance(n: Node, e: Event)
    requires Possible(n, e) && !e.CrashInPrepare? && !e.Restart? && !e.WriteData? && !e.Prepare?
    ensures Advances(n.t.trans, Apply(n, e).t.trans)
  {
  }

  lemma WriteLeavesTrans(n: Node, key: string, value: string, ts: string, kind: WriteKind, lockIo: Io, dataIo: Io)
    ensures var n' := LockAndWrite(n, key, value, ts, kind, lockIo, dataIo);
            n'.t.trans == n.t.trans && n'.clock == n.clock && n'.conns == n.conns
  {
  }

  lemma PrepareAdvances(n: Node, ts: string, startTs: string, hosts: seq<nat>, io: Io)
    ensures var t := UpdatePrepared(n.t, ts, startTs, hosts, io).0;
            Advances(n.t.trans, t.trans) && Advances(n.t.trans, UpdateSelfTs(t, ts, n.clock, HEALTHY).0.trans)
  {
  }

  lemma TransStepKeepsInv(n: Node, e: Event)
    requires Inv(n) && Possible(n, e) && !e.WriteData? && !e.LockForRead?
    ensures Inv(Apply(n, e))
  {
    StepAdvances(n, e);
    TransStepFrame(n, e);
    AdvanceKeepsKeys(n, Apply(n, e));
  }

  lemma TransStepFrame(n: Node, e: Event)
    requires (forall ts :: ts in n.conns ==> GoodTs(ts)) && Possible(n, e) && !e.WriteData? && !e.LockForRead?
    ensures var n' := Apply(n, e);
            n'.t == n.t.(trans := n'.t.trans) && n'.chains == n.chains && forall ts :: ts in n'.conns ==> GoodTs(ts)
  {
    match e
    case BeginTrans(ts, io) =>
    case Prepare(ts, startTs, hosts, io) =>
    case CrashInPrepare(ts, startTs, hosts) =>
    case Disconnect(ts, getFails) =>
    case Commit(ts, c) =>
    case _ =>
  }

  lemma TimelyWriteKeepsInv(n: Node, key: string, value: string, ts: string, kind: WriteKind, lockIo: Io, dataIo: Io)
    requires Inv(n) && GoodTs(ts) && Begun(n, ts) && !lockIo.getFails && !dataIo.getFails
    ensures Inv(LockAndWrite(n, key, value, ts, kind, lockIo, dataIo))
  {
    LockKeepsInv(n, key, ts, lockIo);
    var (t, code) := AddLock(n.t, key, ts, lockIo);
    if code == 0 {
      HolderIsFreshOrHead(n.(t := t), key, ts);
      DoWriteKeepsInv(n.(t := t), key, value, ts, kind, dataIo);
    }
  }

  lemma StepKeepsInv(n: Node, e: Event)
    requires Inv(n) && Allowed(n, e)
    ensures Inv(Apply(n, e))
  {
    if e.WriteData? {
      TimelyWriteKeepsInv(n, e.key, e.value, e.ts, e.kind, e.lockIo, e.dataIo);
    } else if e.LockForRead? {
      LockKeepsInv(n, e.key, e.ts, e.io);
    } else {
      TransStepKeepsInv(n, e);
    }
  }

  lemma {:induction false} RunKeepsInv(n: Node, es: seq<Event>)
    requires Inv(n) && Runs(n, es)
    ensures Inv(Run(n, es))
    decreases es
  {
    if es != [] {
      StepKeepsInv(n, es[0]);
      RunKeepsInv(Apply(n, es[0]), es[1..]);
    }
  }

  /** In every reachable state each key's stored chain is its write history, free of repeats, and at most
      one unfinished transaction has a version of the key: the lock holder, with the newest version. */
  lemma WriterExclusion(es: seq<Event>, key: string)
    requires Runs(INITIAL, es)
    ensures KeyOk(Run(INITIAL, es), key)
  {
    RunKeepsInv(INITIAL, es);
  }

  /** In every reachable state a lock is refused exactly when another, unfinished transaction holds it; no
      lock is left with an owner nobody knows. */
  lemma LockRefusedExactly(es: seq<Event>, key: string, ts: string)
    requires Runs(INITIAL, es)
    ensures var t := Run(INITIAL, es).t;
            AddLock(t, key, ts, HEALTHY).1 != 0 <==>
              key in t.locks && t.locks[key] != ts && t.locks[key] in t.trans && !t.trans[t.locks[key]].Finished()
  {
    RunKeepsInv(INITIAL, es);
  }

  /** A failing get makes `addLock` report a lock it never took; otherwise success means the lock is held. */
  lemma LockHeldExactly(t: Tables, key: string, ts: string, io: Io)
    requires AddLock(t, key, ts, io).1 == 0
    ensures var locks := AddLock(t, key, ts, io).0.locks;
            (key in locks && locks[key] == ts) <==> !io.getFails || (key in t.locks && t.locks[key] == ts)
  {
  }

  // ----- transaction names used twice -----

  lemma NotFittingBreaks(n: Node, key: string, value: string, ts: string, kind: WriteKind, io: Io)
    requires KeyOk(n, key) && GoodTs(ts) && !Fits(n, key, ts, io) && AddData(n.t, key, value, ts, kind, io).1 == 0
    ensures !KeyOk(DoWrite(n, key, value, ts, kind, io), key)
  {
    var c, n' := ChainOf(n, key), DoWrite(n, key, value, ts, kind, io);
    if !FreshOrHead(c, ts) {
      StaleStoreBreaksChain(n, key, value, ts, kind, io);
    } else if io.getFails && exists i :: 0 <= i < |c| && c[i].version != ts {
      AddDataForgetsExactly(n.t, key, c, value, ts, kind, io);
    } else if ts !in n.t.trans || !(n.t.trans[ts].Finished() || Holds(n, key, ts)) {
      assert !WriterOk(n', key, 0);
    } else {
      assert WriterOk(n, key, 0) && !WriterOk(n', key, 1);
    }
  }

  lemma StaleStoreBreaksChain(n: Node, key: string, value: string, ts: string, kind: WriteKind, io: Io)
    requires KeyOk(n, key) && GoodTs(ts) && !FreshOrHead(ChainOf(n, key), ts)
    requires AddData(n.t, key, value, ts, kind, io).1 == 0
    ensures !KeyOk(DoWrite(n, key, value, ts, kind, io), key)
  {
    var c, c' := ChainOf(n, key), WriteChain(ChainOf(n, key), value, ts, kind);
    var i :| 1 <= i < |c| && c[i].version == ts;
    assert c'[0].version == ts == c'[i + 1].version && !Distinct(c');
  }

  lemma StoreKeepsInvExactly(n: Node, key: string, value: string, ts: string, kind: WriteKind, io: Io)
    requires Inv(n) && GoodTs(ts)
    ensures Inv(DoWrite(n, key, value, ts, kind, io)) <==>
            (AddData(n.t, key, value, ts, kind, io).1 == 0 ==> Fits(n, key, ts, io))
  {
    assert KeyOk(n, key);
    if AddData(n.t, key, value, ts, kind, io).1 == 0 ==> Fits(n, key, ts, io) {
      DoWriteKeepsInv(n, key, value, ts, kind, io);
    } else {
      NotFittingBreaks(n, key, value, ts, kind, io);
    }
  }

  /** The lock is refused, or not really taken, or taken for a transaction known here. */
  predicate LockKeeps(n: Node, key: string, ts: string, io: Io) {
    AddLock(n.t, key, ts, io).1 != 0 || io.getFails || ts in n.t.trans
  }

  /** And what is then written, if it gets stored, fits. */
  predicate WriteKeeps(
    n: Node, key: string, value: string, ts: string, kind: WriteKind, lockIo: Io, dataIo: Io)
  {
    var (t, code) := AddLock(n.t, key, ts, lockIo);
    LockKeeps(n, key, ts, lockIo) &&
    (code == 0 && AddData(t, key, value, ts, kind, dataIo).1 == 0 ==> Fits(n.(t := t), key, ts, dataIo))
  }

  lemma LockKeepsInvExactly(n: Node, key: string, ts: string, io: Io)
    requires Inv(n)
    ensures Inv(n.(t := AddLock(n.t, key, ts, io).0)) <==> LockKeeps(n, key, ts, io)
  {
    var t := AddLock(n.t, key, ts, io).0;
    if AddLock(n.t, key, ts, io).1 != 0 || io.getFails {
      assert t == n.t;
    } else if ts in n.t.trans {
      LockKeepsInv(n, key, ts, io);
    } else {
      assert key in t.locks && t.locks[key] == ts;
    }
  }

  /** A write by any connection, with any failing calls, keeps the structure exactly when it keeps locks and
      chains as `WriteKeeps` says. */
  lemma WriteKeepsInvExactly(
    n: Node, key: string, value: string, ts: string, kind: WriteKind, lockIo: Io, dataIo: Io)
    requires Inv(n) && ts in n.conns
    ensures Inv(LockAndWrite(n, key, value, ts, kind, lockIo, dataIo)) <==>
            WriteKeeps(n, key, value, ts, kind, lockIo, dataIo)
  {
    var (t, code) := AddLock(n.t, key, ts, lockIo);
    LockKeepsInvExactly(n, key, ts, lockIo);
    if LockKeeps(n, key, ts, lockIo) {
      StoreKeepsInvExactly(n.(t := t), key, value, ts, kind, dataIo);
    } else {
      assert key in t.locks && t.locks[key] == ts && ts !in t.trans;
    }
  }

  predicate Keeps(n: Node, e: Event) {
    match e
    case WriteData(key, value, ts, kind, lockIo, dataIo) => WriteKeeps(n, key, value, ts, kind, lockIo, dataIo)
    case LockForRead(key, ts, io) => LockKeeps(n, key, ts, io)
    case _ => true
  }

  lemma StepKeepsInvExactly(n: Node, e: Event)
    requires Inv(n) && Possible(n, e)
    ensures Inv(Apply(n, e)) <==> Keeps(n, e)
  {
    if e.WriteData? {
      WriteKeepsInvExactly(n, e.key, e.value, e.ts, e.kind, e.lockIo, e.dataIo);
    } else if e.LockForRead? {
      LockKeepsInvExactly(n, e.key, e.ts, e.io);
    } else {
      TransStepKeepsInv(n, e);
    }
  }

  ghost predicate InvAlong(n: Node, es: seq<Event>)
    decreases es
  {
    Inv(n) && (es == [] || InvAlong(Apply(n, es[0]), es[1..]))
  }

  predicate KeepsAlong(n: Node, es: seq<Event>)
    decreases es
  {
    es == [] || (Keeps(n, es[0]) && KeepsAlong(Apply(n, es[0]), es[1..]))
  }

  lemma {:induction false} InvAlongExactly(n: Node, es: seq<Event>)
    requires Inv(n) && CanRun(n, es)
    ensures InvAlong(n, es) <==> KeepsAlong(n, es)
    decreases es
  {
    if es != [] {
      StepKeepsInvExactly(n, es[0]);
      if Keeps(n, es[0]) {
        InvAlongExactly(Apply(n, es[0]), es[1..]);
      }
    }
  }

  /** Over any run at all, whatever names are begun again and whatever calls of a write fail, the structure
      lasts if and only if every lock and every write along it keeps it. */
  lemma StructureLastsExactly(es: seq<Event>)
    requires CanRun(INITIAL, es)
    ensures InvAlong(INITIAL, es) <==> KeepsAlong(INITIAL, es)
  {
    InvAlongExactly(INITIAL, es);
  }

  /** Every open connection's transaction has begun and is not past that. */
  predicate Live(n: Node) {
    forall ts :: ts in n.conns ==> Begun(n, ts)
  }

  /** The event takes no transaction from under another connection, and opens none on a transaction that
      is not in its begin. */
  predicate Unshared(n: Node, e: Event) {
    match e
    case BeginTrans(ts, io) => if ts in n.t.trans then Begun(n, ts) else !io.getFails && !io.putFails
    case Prepare(ts, _, _, io) => io.getFails || io.putFails || n.conns[ts] == 1
    case Disconnect(ts, getFails) => getFails || n.conns[ts] == 1
    case _ => true
  }

  /** A step keeps every connection's transaction in its begin exactly when it is unshared. */
  lemma StepKeepsLiveExactly(n: Node, e: Event)
    requires Live(n) && Possible(n, e)
    ensures Live(Apply(n, e)) <==> Unshared(n, e)
  {
    var n' := Apply(n, e);
    if !Unshared(n, e) {
      SharedStepKills(n, e);
    } else {
      forall ts | ts in n'.conns ensures Begun(n', ts) {
        assert ts in n.conns ==> Begun(n, ts);
        UnsharedStepSpares(n, e, ts);
      }
    }
  }

  lemma UnsharedStepSpares(n: Node, e: Event, ts: string)
    requires Possible(n, e) && Unshared(n, e) && (ts in n.conns ==> Begun(n, ts)) && ts in Apply(n, e).conns
    ensures Begun(Apply(n, e), ts)
  {
    match e
    case BeginTrans(name, io) =>
    case WriteData(key, value, name, kind, lockIo, dataIo) =>
    case Prepare(name, startTs, hosts, io) =>
    case Disconnect(name, getFails) =>
    case _ =>
  }

  lemma SharedStepKills(n: Node, e: Event)
    requires Live(n) && Possible(n, e) && !Unshared(n, e)
    ensures e.ts in Apply(n, e).conns && !Begun(Apply(n, e), e.ts)
  {
    if e.Prepare? || e.Disconnect? {
      assert Begun(n, e.ts) && n.conns[e.ts] > 1;
    }
  }

  /** A begin that is refused, and the close of its connection: the store stays sound, and all other
      connections keep their transactions, exactly when none of them has that name. */
  lemma RefusedCloseExactly(n: Node, ts: string)
    requires Inv(n) && Live(n) && GoodTs(ts) && ts in n.t.trans
    ensures var n' := Apply(Apply(n, BeginTrans(ts, HEALTHY)), Disconnect(ts, false));
            AddTrans(n.t, ts, HEALTHY).1 != 0 && Inv(n') && n'.conns == n.conns && (Live(n') <==> ts !in n.conns)
  {
    var mid := Apply(n, BeginTrans(ts, HEALTHY));
    var n' := Apply(mid, Disconnect(ts, false));
    TransStepKeepsInv(n, BeginTrans(ts, HEALTHY));
    TransStepKeepsInv(mid, Disconnect(ts, false));
    assert n'.conns == n.conns;
    if ts in n.conns {
      assert !Begun(n', ts);
    } else {
      forall other | other in n'.conns ensures Begun(n', other) {
        assert other in n.conns && Begun(n, other);
      }
    }
  }

  /** A run as the events come, whatever is written for whom. */
  predicate CanRun(n: Node, es: seq<Event>)
    decreases es
  {
    es == [] || (Possible(n, es[0]) && CanRun(Apply(n, es[0]), es[1..]))
  }

  /** Every begin has a name new to the participant, and no database call of a begin, a lock or a write fails. */
  predicate FreshBegins(n: Node, es: seq<Event>)
    decreases es
  {
    es == [] || (FreshStep(n, es[0]) && FreshBegins(Apply(n, es[0]), es[1..]))
  }

  predicate FreshStep(n: Node, e: Event) {
    match e
    case BeginTrans(ts, io) => ts !in n.t.trans && !io.getFails && !io.putFails
    case WriteData(_, _, _, _, lockIo, dataIo) => !lockIo.getFails && !dataIo.getFails
    case LockForRead(_, _, io) => !io.getFails
    case _ => true
  }

  /** Where every begin is fresh no name is shared, so nothing is ever written too late. */
  lemma {:induction false} FreshBeginsAreTimely(n: Node, es: seq<Event>)
    requires Live(n) && (forall ts :: n.conns[ts] <= 1) && CanRun(n, es) && FreshBegins(n, es)
    ensures Runs(n, es)
    decreases es
  {
    if es != [] {
      StepKeepsLiveExactly(n, es[0]);
      forall ts ensures Apply(n, es[0]).conns[ts] <= 1 {
        assert ts in n.conns ==> Begun(n, ts);
      }
      FreshBeginsAreTimely(Apply(n, es[0]), es[1..]);
    }
  }

  lemma {:induction false} RunOneMore(n: Node, es: seq<Event>, e: Event)
    requires CanRun(n, es) && Possible(Run(n, es), e)
    ensures CanRun(n, es + [e]) && Run(n, es + [e]) == Apply(Run(n, es), e)
    decreases es
  {
    if es == [] {
      assert es + [e] == [e] && [e][1..] == [];
      assert CanRun(Apply(n, e), []) && Run(Apply(n, e), []) == Apply(n, e);
    } else {
      RunOneMore(Apply(n, es[0]), es[1..], e);
      assert (es + [e])[1..] == es[1..] + [e];
    }
  }

  lemma Step(es: seq<Event>, n: Node, e: Event) returns (es': seq<Event>, n': Node)
    requires CanRun(INITIAL, es) && n == Run(INITIAL, es) && Possible(n, e)
    ensures CanRun(INITIAL, es') && n' == Run(INITIAL, es') == Apply(n, e)
  {
    es', n' := es + [e], Apply(n, e);
    RunOneMore(INITIAL, es, e);
  }

  const FIRST := Data(Update, "a", "", "1")
  const SECOND := Data(Update, "b", "1", "2")

  lemma FirstStores(n: Node)
    requires n.t.locks == map[] && n.t.heads == map[] && n.t.versions == map[]
    ensures LockAndWrite(n, "k", "a", "1", Update, HEALTHY, HEALTHY).t ==
            Tables(n.t.trans, map["k" := "1"], map["k" := FIRST], map[])
  {
    assert AddLock(n.t, "k", "1", HEALTHY) == (n.t.(locks := map["k" := "1"]), 0);
  }

  lemma SharedNameWritten() returns (es: seq<Event>, n: Node)
    ensures CanRun(INITIAL, es) && n == Run(INITIAL, es) && n.conns == multiset{"1", "1"}
    ensures n.t == Tables(map["1" := NewTrans()], map["k" := "1"], map["k" := FIRST], map[])
  {
    es, n := [], INITIAL;
    es, n := Step(es, n, BeginTrans("1", HEALTHY));
    es, n := Step(es, n, BeginTrans("1", HEALTHY));
    FirstStores(n);
    es, n := Step(es, n, WriteData("k", "a", "1", Update, HEALTHY, HEALTHY));
  }

  lemma SharedNameRolledBack() returns (es: seq<Event>, n: Node)
    ensures CanRun(INITIAL, es) && n == Run(INITIAL, es) && "1" in n.conns
    ensures n.t == Tables(map["1" := NewTrans().(state := RolledBack)], map["k" := "1"], map["k" := FIRST], map[])
  {
    es, n := SharedNameWritten();
    es, n := Step(es, n, Disconnect("1", false));
  }

  lemma SecondBegins() returns (es: seq<Event>, n: Node)
    ensures CanRun(INITIAL, es) && n == Run(INITIAL, es) && "1" in n.conns && "2" in n.conns
    ensures n.t.trans == map["1" := NewTrans().(state := RolledBack), "2" := NewTrans()]
    ensures n.t.locks == map["k" := "1"] && n.t.heads == map["k" := FIRST] && n.t.versions == map[]
  {
    es, n := SharedNameRolledBack();
    es, n := Step(es, n, BeginTrans("2", HEALTHY));
  }

  lemma SecondHasWritten() returns (es: seq<Event>, n: Node)
    ensures CanRun(INITIAL, es) && n == Run(INITIAL, es) && "1" in n.conns && "2" in n.conns
    ensures n.t == Tables(map["1" := NewTrans().(state := RolledBack), "2" := NewTrans()], map["k" := "2"],
                          map["k" := SECOND], map[("k", "1") := FIRST])
  {
    es, n := SecondBegins();
    SecondWrites(n);
    es, n := Step(es, n, WriteData("k", "b", "2", Update, HEALTHY, HEALTHY));
  }

  const BOTH_BACK: map<string, Trans> :=
    map["1" := NewTrans().(state := RolledBack), "2" := NewTrans().(state := RolledBack)]

  lemma SharedNameTaken() returns (es: seq<Event>, n: Node)
    ensures CanRun(INITIAL, es) && n == Run(INITIAL, es) && "1" in n.conns
    ensures n.t == Tables(BOTH_BACK, map["k" := "2"], map["k" := SECOND], map[("k", "1") := FIRST])
  {
    es, n := SecondHasWritten();
    SecondLeaves(n.t);
    es, n := Step(es, n, Disconnect("2", false));
  }

  lemma SecondLeaves(t: Tables)
    requires t.trans == map["1" := NewTrans().(state := RolledBack), "2" := NewTrans()]
    ensures CleanTrans(t, "2") == t.(trans := BOTH_BACK)
  {
  }

  lemma SecondWrites(n: Node)
    requires n.t.trans == map["1" := NewTrans().(state := RolledBack), "2" := NewTrans()]
    requires n.t.locks == map["k" := "1"] && n.t.heads == map["k" := FIRST] && n.t.versions == map[]
    ensures LockAndWrite(n, "k", "b", "2", Update, HEALTHY, HEALTHY).t ==
            Tables(n.t.trans, map["k" := "2"], map["k" := SECOND], map[("k", "1") := FIRST])
  {
    assert n.t.locks["k" := "2"] == map["k" := "2"];
    assert AddLock(n.t, "k", "2", HEALTHY) == (n.t.(locks := map["k" := "2"]), 0);
    assert n.t.heads["k" := SECOND] == map["k" := SECOND];
  }

  const STALE := Data(Update, "c", "2", "1")
  const THIRD := Data(Update, "d", "1", "3")

  lemma StaleHasWritten() returns (es: seq<Event>, n: Node)
    ensures CanRun(INITIAL, es) && n == Run(INITIAL, es) && "1" in n.conns && "1" in n.t.trans && "3" !in n.t.trans
    ensures n.t.trans["1"].state.RolledBack? && n.t.locks == map["k" := "1"] && n.t.heads == map["k" := STALE]
    ensures n.t.versions == map[("k", "1") := FIRST, ("k", "2") := SECOND]
    ensures !exists c :: ChainIs(n.t, "k", c)
  {
    es, n := SharedNameTaken();
    StaleWrites(n);
    es, n := Step(es, n, WriteData("k", "c", "1", Update, HEALTHY, HEALTHY));
  }

  lemma StaleWrites(n: Node)
    requires n.t == Tables(BOTH_BACK, map["k" := "2"], map["k" := SECOND], map[("k", "1") := FIRST])
    ensures var t' := LockAndWrite(n, "k", "c", "1", Update, HEALTHY, HEALTHY).t;
            && t'.trans == n.t.trans && t'.locks == map["k" := "1"] && t'.heads == map["k" := STALE]
            && t'.versions == map[("k", "1") := FIRST, ("k", "2") := SECOND] && !exists c :: ChainIs(t', "k", c)
  {
    var t := AddLock(n.t, "k", "1", HEALTHY).0;
    assert n.t.trans["2"].Finished();
    assert ChainIs(t, "k", [SECOND, FIRST]);
    assert !FreshOrHead([SECOND, FIRST], "1") by {
      assert [SECOND, FIRST][1].version == "1";
    }
    WriteKeepsChainExactly(t, "k", [SECOND, FIRST], "c", "1", Update);
    assert t.locks == map["k" := "1"];
  }

  lemma ThirdBegins() returns (es: seq<Event>, n: Node)
    ensures CanRun(INITIAL, es) && n == Run(INITIAL, es) && "3" in n.conns && "1" in n.t.trans
    ensures n.t.trans["1"].Finished()
    ensures n.t.locks == map["k" := "1"] && n.t.heads == map["k" := STALE]
    ensures n.t.versions == map[("k", "1") := FIRST, ("k", "2") := SECOND]
  {
    es, n := StaleHasWritten();
    es, n := Step(es, n, Disconnect("1", false));
    es, n := Step(es, n, BeginTrans("3", HEALTHY));
  }

  lemma ThirdWrites(n: Node)
    requires n.t.locks == map["k" := "1"] && n.t.heads == map["k" := STALE] && "1" in n.t.trans
    requires n.t.trans["1"].Finished()
    requires n.t.versions == map[("k", "1") := FIRST, ("k", "2") := SECOND]
    ensures var t := LockAndWrite(n, "k", "d", "3", Update, HEALTHY, HEALTHY).t;
            t.heads == map["k" := THIRD] && t.versions == map[("k", "1") := STALE, ("k", "2") := SECOND]
  {
    assert AddLock(n.t, "k", "3", HEALTHY).1 == 0;
  }

  /** A second connection begins "1" in vain and closes, which rolls the first one's transaction back; the
      first one writes on, once another transaction has had the key, and the versions form no chain. */
  lemma RolledBackWriterBreaksChain() returns (es: seq<Event>)
    ensures CanRun(INITIAL, es) && !exists c :: ChainIs(Run(INITIAL, es).t, "k", c)
  {
    var n;
    es, n := StaleHasWritten();
  }

  /** One more writer, and no read of the key that looks past the newest versions ever ends. */
  lemma RolledBackWriterLoopsReaders() returns (es: seq<Event>)
    ensures CanRun(INITIAL, es) && forall i :: VersionAt(Run(INITIAL, es).t, "k", i).Some?
  {
    var n;
    es, n := ThirdBegins();
    ThirdWrites(n);
    es, n := Step(es, n, WriteData("k", "d", "3", Update, HEALTHY, HEALTHY));
    forall i ensures VersionAt(n.t, "k", i).Some? {
      LoopFrom(n.t, "k", STALE, SECOND, i);
    }
  }
}
