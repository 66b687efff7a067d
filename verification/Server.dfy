/** What a participant's connection handler does with the storage engine, request by request. */
module Server {
  import opened Timestamps
  import opened Records
  import opened Tables
  import opened Operations
  import opened Chains
  import opened Participant
  import opened Snapshots
  import opened StorageEngine

  lemma HistoryIsWalk(n: Node, key: string, c: seq<Data>)
    requires WalkIs(n.t, key, c)
    ensures ChainIs(n.t, key, ChainOf(n, key)) ==> c == ChainOf(n, key)
  {
    if ChainIs(n.t, key, ChainOf(n, key)) {
      ChainIsWalk(n.t, key, ChainOf(n, key));
      WalkUnique(n.t, key, c, ChainOf(n, key));
    }
  }

  /** The lock on the key is held by another transaction that is not finished. */
  predicate HeldByOther(n: Node, key: string, ts: string) {
    key in n.t.locks && n.t.locks[key] != ts && !FinishedHere(n, n.t.locks[key])
  }

  lemma LockGrantedExactly(n: Node, key: string, ts: string)
    requires Inv(n)
    ensures AddLock(n.t, key, ts, HEALTHY).1 == 0 <==> !HeldByOther(n, key, ts)
  {
  }

  /** What a write answers: the lock's error, or else the outcome of storing the version. */
  function WriteCode(
    t: Tables, key: string, value: string, ts: string, kind: WriteKind, lockIo: Io, dataIo: Io): int
  {
    var (t', code) := AddLock(t, key, ts, lockIo);
    if code != 0 then code else AddData(t', key, value, ts, kind, dataIo).1
  }

  /** Success is answered exactly when the version is stored at the key's entry, and with no failing call exactly
      when no other unfinished transaction holds the lock. */
  lemma WriteSuccessExactly(
    n: Node, key: string, value: string, ts: string, kind: WriteKind, lockIo: Io, dataIo: Io)
    ensures var t := LockAndWrite(n, key, value, ts, kind, lockIo, dataIo).t;
            var code := WriteCode(n.t, key, value, ts, kind, lockIo, dataIo);
            if code != 0 then t.heads == n.t.heads
            else key in t.heads && t.heads[key] == Data(kind, value, t.heads[key].next, ts)
    ensures Inv(n) ==>
              (WriteCode(n.t, key, value, ts, kind, HEALTHY, HEALTHY) == 0 <==> !HeldByOther(n, key, ts))
  {
    StoredExactly(AddLock(n.t, key, ts, lockIo).0, key, value, ts, kind, dataIo);
    if Inv(n) {
      LockGrantedExactly(n, key, ts);
      StoredExactly(AddLock(n.t, key, ts, HEALTHY).0, key, value, ts, kind, HEALTHY);
    }
  }

  lemma StoredExactly(t: Tables, key: string, value: string, ts: string, kind: WriteKind, io: Io)
    ensures var (t', code) := AddData(t, key, value, ts, kind, io);
            if code != 0 then t'.heads == t.heads
            else key in t'.heads && t'.heads[key] == Data(kind, value, t'.heads[key].next, ts)
    ensures io == HEALTHY ==> AddData(t, key, value, ts, kind, io).1 == 0
  {
  }

  /** What is written is read back by its writer. */
  lemma WrittenIsRead(n: Node, key: string, value: string, ts: string, kind: WriteKind, lockIo: Io, dataIo: Io)
    requires WriteCode(n.t, key, value, ts, kind, lockIo, dataIo) == 0
    ensures Read(LockAndWrite(n, key, value, ts, kind, lockIo, dataIo), key, ts) ==
            ReadResult(if kind.Delete? then 33 else 0, value, ts, "", "")
  {
    var c := WriteChain(ChainOf(n, key), value, ts, kind);
    assert c[0].version == ts && c[0].value == value && c[0].kind == kind;
  }

  /** One connection: the transaction it has asked to begin, or "". Each method is the part of the handler
      that runs without giving way to another connection; `n` is the participant's history so far. */
  class Connection {
    var beginTs: string

    constructor ()
      ensures beginTs == ""
    {
      beginTs := "";
    }

    ghost predicate Serves(st: Storage, n: Node)
      reads this, st
    {
      st.Valid() && st.tables == n.t && (beginTs != "" ==> GoodTs(beginTs) && beginTs in n.conns)
    }

    /** A begin under a known name is refused, and so is a second one; but even a begin that is refused by
        the store marks the connection as having begun. */
    method Begin(st: Storage, ts: string, io: Io, ghost n: Node) returns (code: int)
      requires Serves(st, n) && GoodTs(ts)
      modifies this, st
      ensures old(beginTs) != "" ==> code == 1 && beginTs == old(beginTs) && Serves(st, n)
      ensures old(beginTs) == "" ==> beginTs == ts && Serves(st, Apply(n, BeginTrans(ts, io)))
      ensures old(beginTs) == "" ==> (code == 0 <==> ts !in n.t.trans && !io.getFails && !io.putFails)
      ensures code != 0 ==> st.tables == old(st.tables)
      ensures code == 0 ==> st.tables == n.t.(trans := n.t.trans[ts := Trans(TransState.Begin, "", "", "", [])])
    {
      if |beginTs| != 0 {
        return 1;
      }
      beginTs := ts;
      code := st.AddTrans(ts, io);
    }

    /** Insert, update and delete: one try for the lock, and the write if it is granted. Whatever success
        is reported in time is read back. */
    method TryWrite(
      st: Storage, key: string, value: string, kind: WriteKind, lockIo: Io, dataIo: Io, ghost n: Node)
        returns (code: int)
      requires Serves(st, n)
      modifies st
      ensures beginTs == "" ==> code == 1 && Serves(st, n)
      ensures beginTs != "" ==> Serves(st, Apply(n, WriteData(key, value, beginTs, kind, lockIo, dataIo)))
      ensures beginTs != "" ==> code == WriteCode(n.t, key, value, beginTs, kind, lockIo, dataIo)
      ensures beginTs != "" && code == 0 ==>
                Read(Apply(n, WriteData(key, value, beginTs, kind, lockIo, dataIo)), key, beginTs) ==
                ReadResult(if kind.Delete? then 33 else 0, value, beginTs, "", "")
    {
      if |beginTs| == 0 {
        return 1;
      }
      code := st.AddLock(key, beginTs, lockIo);
      if code != 0 {
        return code;
      }
      code := st.AddData(key, value, beginTs, kind, dataIo);
      if code == 0 {
        WrittenIsRead(n, key, value, beginTs, kind, lockIo, dataIo);
      }
    }

    /** A read at the transaction's timestamp, over any stored records on which the walk ends. */
    method Get(st: Storage, key: string, ghost c: seq<Data>, ghost n: Node) returns (r: ReadResult)
      requires Serves(st, n) && WalkIs(n.t, key, c)
      ensures if beginTs == "" then r.code == 1 else r == ReadChain(c, n.t.trans, beginTs)
      ensures beginTs != "" && ChainIs(n.t, key, ChainOf(n, key)) ==> r == Read(n, key, beginTs)
    {
      if |beginTs| == 0 {
        return ReadResult(1, "", "", "", "");
      }
      HistoryIsWalk(n, key, c);
      var code, value, b, s, e := st.ReadData(beginTs, key, c);
      r := ReadResult(code, value, b, s, e);
    }

    /** A read for update: one try for the lock, then a read at a fresh timestamp. */
    method TryGetForUpdate(st: Storage, key: string, now: string, io: Io, ghost c: seq<Data>, ghost n: Node)
        returns (granted: bool, r: ReadResult)
      requires Serves(st, n) && WalkIs(n.t, key, c)
      modifies st
      ensures beginTs == "" ==> !granted && r.code == 1 && Serves(st, n)
      ensures beginTs != "" ==> Serves(st, Apply(n, LockForRead(key, beginTs, io)))
      ensures granted ==> r == ReadChain(c, n.t.trans, now)
      ensures granted && ChainIs(n.t, key, ChainOf(n, key)) ==> r == Read(n, key, now)
      ensures granted && !io.getFails ==> key in st.tables.locks && st.tables.locks[key] == beginTs
      ensures beginTs != "" && Inv(n) && io == HEALTHY ==> (granted <==> !HeldByOther(n, key, beginTs))
      ensures !granted ==> st.tables == n.t && r.code != 0
    {
      if |beginTs| == 0 {
        return false, ReadResult(1, "", "", "", "");
      }
      var locked := st.AddLock(key, beginTs, io);
      if locked != 0 {
        return false, ReadResult(locked, "", "", "", "");
      }
      HistoryIsWalk(n, key, c);
      var code, value, b, s, e := st.ReadData(now, key, c);
      return true, ReadResult(code, value, b, s, e);
    }

    /** Prepare: the record, then the participant's own timestamp, then a polling routine; the connection is
        free again. A prepare for another transaction than the connection's is refused. */
    method Prepare(
      st: Storage, ts: string, startTs: string, hosts: seq<nat>, now: string, io: Io, wakeFails: bool, ghost n: Node)
        returns (code: int)
      requires Serves(st, n) && now == n.clock
      modifies this, st
      ensures old(beginTs) == "" || old(beginTs) != ts ==> code == 1 && beginTs == old(beginTs) && Serves(st, n)
      ensures old(beginTs) == ts != "" ==> Serves(st, Apply(n, Event.Prepare(ts, startTs, hosts, io)))
      ensures old(beginTs) == ts != "" ==> (code == 0 <==> Begun(n, ts) && !io.getFails && !io.putFails)
      ensures code == 0 ==> beginTs == "" && st.woken == old(st.woken) + if wakeFails then [] else [ts]
      ensures code == 0 ==>
                var t := n.t.trans[ts];
                st.tables.trans[ts] == Trans(Prepared, startTs, t.commitTs, now, t.members + hosts)
      ensures code != 0 ==> beginTs == old(beginTs) && st.woken == old(st.woken) && st.tables == n.t
    {
      if |beginTs| == 0 || beginTs != ts {
        return 1;
      }
      code := st.UpdateTransPrepared(ts, startTs, hosts, io);
      if code != 0 {
        return 1;
      }
      code := st.UpdateTransSelfCommitTs(ts, now, HEALTHY);
      st.StartCleanTrans(ts, wakeFails);
      beginTs := "";
    }

    /** The connection closes: the transaction it has asked to begin is rolled back if it is not prepared,
        even if it is another connection's. */
    method Close(st: Storage, getFails: bool, ghost n: Node)
      requires Serves(st, n)
      modifies st
      ensures st.Valid()
      ensures st.tables == if beginTs == "" then n.t else Apply(n, Disconnect(beginTs, getFails)).t
      ensures beginTs != "" && !getFails ==> !Begun(Apply(n, Disconnect(beginTs, getFails)), beginTs)
    {
      if |beginTs| > 0 {
        st.StartCleanTrans(beginTs, getFails);
      }
    }

    /** The process starts again on its database. */
    static method StartUp(st: Storage, ghost n: Node)
      requires st.Valid() && st.tables == n.t
      modifies st
      ensures st.Valid() && st.tables == Apply(n, Restart).t
      ensures old(st.woken) <= st.woken
      ensures Storage.WokenFor(st.woken[|old(st.woken)|..], n.t, {})
      ensures forall ts :: ts in st.tables.trans ==> !st.tables.trans[ts].state.Begin?
    {
      st.StartUpClean();
    }
  }
}
