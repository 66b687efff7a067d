/** The versions of a key: a linked list from its entry, newest first. */
module Chains {
  import opened Text
  import opened Timestamps
  import opened Records
  import opened Tables
  import opened Operations

  predicate Distinct(c: seq<Data>) {
    forall i, j :: 0 <= i < j < |c| ==> c[i].version != c[j].version
  }

  function NextOf(c: seq<Data>, i: nat): string {
    if i + 1 < |c| then c[i + 1].version else ""
  }

  predicate Linked(c: seq<Data>) {
    forall i :: 0 <= i < |c| ==> GoodTs(c[i].version) && c[i].next == NextOf(c, i)
  }

  predicate Kept(versions: map<(string, string), Data>, key: string, c: seq<Data>) {
    forall i :: 1 <= i < |c| ==> (key, c[i].version) in versions && versions[(key, c[i].version)] == c[i]
  }

  /** `c` lists the versions of `key`, the entry first, no transaction twice. */
  predicate ChainIs(t: Tables, key: string, c: seq<Data>) {
    && (key in t.heads <==> c != [])
    && (c != [] ==> t.heads[key] == c[0])
    && Kept(t.versions, key, c)
    && Linked(c)
    && Distinct(c)
  }

  /** `c` is what a walk from the entry meets before it ends, at an empty `next` or a missing record. */
  predicate WalkIs(t: Tables, key: string, c: seq<Data>) {
    && (key in t.heads <==> c != [])
    && (c != [] ==> t.heads[key] == c[0])
    && forall i :: 0 <= i < |c| ==>
         && (c[i].next == "" || GoodTs(c[i].next))
         && (i + 1 < |c| <==> c[i].next != "" && (key, c[i].next) in t.versions)
         && (i + 1 < |c| ==> t.versions[(key, c[i].next)] == c[i + 1])
  }

  lemma ChainIsWalk(t: Tables, key: string, c: seq<Data>)
    requires ChainIs(t, key, c)
    ensures WalkIs(t, key, c)
  {
    forall i | 0 <= i < |c| ensures c[i].next == NextOf(c, i) {
    }
  }

  lemma {:induction false} WalkVisits(t: Tables, key: string, c: seq<Data>, n: nat)
    requires WalkIs(t, key, c)
    ensures VersionAt(t, key, n) == if n < |c| then Some(c[n]) else None
  {
    if n > 0 {
      WalkVisits(t, key, c, n - 1);
    }
  }

  lemma WalkUnique(t: Tables, key: string, c: seq<Data>, c': seq<Data>)
    requires WalkIs(t, key, c) && WalkIs(t, key, c')
    ensures c == c'
  {
    WalkVisits(t, key, c, |c'|);
    WalkVisits(t, key, c', |c'|);
    WalkVisits(t, key, c, |c|);
    WalkVisits(t, key, c', |c|);
    forall n | 0 <= n < |c| ensures c[n] == c'[n] {
      WalkVisits(t, key, c, n);
      WalkVisits(t, key, c', n);
    }
  }

  /** The walk of `ReadData` visits exactly the chain, in its order, and stops at its end. */
  lemma WalkVisitsChain(t: Tables, key: string, c: seq<Data>, n: nat)
    requires ChainIs(t, key, c)
    ensures VersionAt(t, key, n) == if n < |c| then Some(c[n]) else None
  {
    ChainIsWalk(t, key, c);
    WalkVisits(t, key, c, n);
  }

  lemma ChainUnique(t: Tables, key: string, c: seq<Data>, c': seq<Data>)
    requires ChainIs(t, key, c) && ChainIs(t, key, c')
    ensures c == c'
  {
    ChainIsWalk(t, key, c);
    ChainIsWalk(t, key, c');
    WalkUnique(t, key, c, c');
  }

  /** The writer already heads the chain, or has no version in it. */
  predicate FreshOrHead(c: seq<Data>, ts: string) {
    forall i :: 1 <= i < |c| ==> c[i].version != ts
  }

  /** The chain after a write by `ts`: its own head is replaced, any other head is pushed down. */
  function WriteChain(c: seq<Data>, value: string, ts: string, kind: WriteKind): seq<Data> {
    if c != [] && c[0].version == ts then [c[0].(kind := kind, value := value)] + c[1..]
    else [Data(kind, value, if c == [] then "" else c[0].version, ts)] + c
  }

  lemma WriteChainAt(c: seq<Data>, value: string, ts: string, kind: WriteKind, i: nat)
    requires i < |WriteChain(c, value, ts, kind)|
    ensures i > 0 ==> c != [] && |WriteChain(c, value, ts, kind)| == |c| + if c[0].version == ts then 0 else 1
    ensures WriteChain(c, value, ts, kind)[i].version ==
            if i == 0 then ts else c[if c[0].version == ts then i else i - 1].version
  {
  }

  lemma ReplaceSound(c: seq<Data>, value: string, kind: WriteKind)
    requires c != [] && Linked(c) && Distinct(c)
    ensures var c' := [c[0].(kind := kind, value := value)] + c[1..]; Linked(c') && Distinct(c')
  {
    var c' := [c[0].(kind := kind, value := value)] + c[1..];
    assert forall i :: 0 <= i < |c| ==> c'[i].version == c[i].version && c'[i].next == c[i].next;
    forall i | 0 <= i < |c'| ensures GoodTs(c'[i].version) && c'[i].next == NextOf(c', i) {
      assert c[i].next == NextOf(c, i) == NextOf(c', i);
    }
  }

  lemma PushSound(c: seq<Data>, d: Data)
    requires Linked(c) && Distinct(c) && GoodTs(d.version) && forall i :: 0 <= i < |c| ==> c[i].version != d.version
    requires d.next == if c == [] then "" else c[0].version
    ensures Linked([d] + c) && Distinct([d] + c)
  {
  }

  lemma WriteChainSound(c: seq<Data>, value: string, ts: string, kind: WriteKind)
    requires Linked(c) && Distinct(c) && GoodTs(ts) && FreshOrHead(c, ts)
    ensures var c' := WriteChain(c, value, ts, kind); Linked(c') && Distinct(c')
  {
    if c != [] && c[0].version == ts {
      ReplaceSound(c, value, kind);
    } else {
      PushSound(c, Data(kind, value, if c == [] then "" else c[0].version, ts));
    }
  }

  /** A write that reports success puts its version at the head, keeping all others. */
  lemma AddDataStored(t: Tables, key: string, c: seq<Data>, value: string, ts: string, kind: WriteKind, io: Io)
    requires ChainIs(t, key, c) && GoodTs(ts) && FreshOrHead(c, ts) && !io.getFails
    requires AddData(t, key, value, ts, kind, io).1 == 0
    ensures ChainIs(AddData(t, key, value, ts, kind, io).0, key, WriteChain(c, value, ts, kind))
  {
    var t' := AddData(t, key, value, ts, kind, io).0;
    var c' := WriteChain(c, value, ts, kind);
    WriteChainSound(c, value, ts, kind);
    assert t'.heads[key] == c'[0];
    forall i | 1 <= i < |c'| ensures (key, c'[i].version) in t'.versions && t'.versions[(key, c'[i].version)] == c'[i] {
      assert c'[i] == if c[0].version == ts then c[i] else c[i - 1];
    }
  }

  /** A write that reports failure changes no chain, even when its first put got through. */
  lemma AddDataFailed(t: Tables, key: string, c: seq<Data>, value: string, ts: string, kind: WriteKind, io: Io)
    requires ChainIs(t, key, c) && AddData(t, key, value, ts, kind, io).1 != 0
    ensures ChainIs(AddData(t, key, value, ts, kind, io).0, key, c)
  {
  }

  /** A failing get is taken for a missing entry: the write succeeds and every older version is lost. */
  lemma AddDataForgets(t: Tables, key: string, value: string, ts: string, kind: WriteKind, io: Io)
    requires GoodTs(ts) && io.getFails && !io.putFails
    ensures AddData(t, key, value, ts, kind, io).1 == 0
    ensures ChainIs(AddData(t, key, value, ts, kind, io).0, key, [Data(kind, value, "", ts)])
  {
  }

  /** A write that reports success, exactly: it leaves the chain it should unless its get failed and some
      other transaction's version was there to lose. */
  lemma AddDataForgetsExactly(t: Tables, key: string, c: seq<Data>, value: string, ts: string, kind: WriteKind, io: Io)
    requires ChainIs(t, key, c) && GoodTs(ts) && FreshOrHead(c, ts) && AddData(t, key, value, ts, kind, io).1 == 0
    ensures ChainIs(AddData(t, key, value, ts, kind, io).0, key, WriteChain(c, value, ts, kind)) <==>
              !io.getFails || forall i :: 0 <= i < |c| ==> c[i].version == ts
  {
    var t' := AddData(t, key, value, ts, kind, io).0;
    if !io.getFails {
      AddDataStored(t, key, c, value, ts, kind, io);
    } else {
      var alone := [Data(kind, value, "", ts)];
      AddDataForgets(t, key, value, ts, kind, io);
      if forall i :: 0 <= i < |c| ==> c[i].version == ts {
        assert |c| <= 1 && (c != [] ==> c[0].next == NextOf(c, 0));
        assert WriteChain(c, value, ts, kind) == alone;
      } else if ChainIs(t', key, WriteChain(c, value, ts, kind)) {
        ChainUnique(t', key, alone, WriteChain(c, value, ts, kind));
        assert false;
      }
    }
  }

  /** No write to one key touches another key's chain. */
  lemma AddDataElsewhere(
    t: Tables, key: string, value: string, ts: string, kind: WriteKind, io: Io, other: string, c: seq<Data>)
    requires other != key && ChainIs(t, other, c)
    ensures ChainIs(AddData(t, key, value, ts, kind, io).0, other, c)
  {
    var t' := AddData(t, key, value, ts, kind, io).0;
    assert other in t'.heads <==> other in t.heads;
    assert other in t.heads ==> t'.heads[other] == t.heads[other];
    forall v | (other, v) in t.versions
      ensures (other, v) in t'.versions && t'.versions[(other, v)] == t.versions[(other, v)]
    {
    }
    assert Kept(t'.versions, other, c);
  }

  /** A successful write leaves some chain exactly when the writer is fresh or already the head. */
  lemma WriteKeepsChainExactly(t: Tables, key: string, c: seq<Data>, value: string, ts: string, kind: WriteKind)
    requires ChainIs(t, key, c) && GoodTs(ts)
    ensures (exists c' :: ChainIs(AddData(t, key, value, ts, kind, HEALTHY).0, key, c')) <==> FreshOrHead(c, ts)
  {
    var t' := AddData(t, key, value, ts, kind, HEALTHY).0;
    if FreshOrHead(c, ts) {
      AddDataStored(t, key, c, value, ts, kind, HEALTHY);
    } else {
      var j :| 1 <= j < |c| && c[j].version == ts;
      forall c' ensures !ChainIs(t', key, c') {
        StaleWriteNoChain(t, key, c, value, ts, kind, j, c');
      }
    }
  }

  lemma StaleWriteNoChain(
    t: Tables, key: string, c: seq<Data>, value: string, ts: string, kind: WriteKind, j: nat, c': seq<Data>)
    requires ChainIs(t, key, c) && 1 <= j < |c| && c[j].version == ts
    ensures !ChainIs(AddData(t, key, value, ts, kind, HEALTHY).0, key, c')
  {
    var t' := AddData(t, key, value, ts, kind, HEALTHY).0;
    if ChainIs(t', key, c') {
      StaleWriterAgain(t, key, c, value, ts, kind, j);
      WalkVisitsChain(t', key, c', 0);
      WalkVisitsChain(t', key, c', j + 1);
      assert false;
    }
  }

  /** After a write by a transaction further down, the walk meets that transaction at the entry and again below. */
  lemma {:induction false} StaleWriterAgain(
    t: Tables, key: string, c: seq<Data>, value: string, ts: string, kind: WriteKind, n: nat)
    requires ChainIs(t, key, c) && c != [] && c[0].version != ts && n < |c|
    ensures var t' := AddData(t, key, value, ts, kind, HEALTHY).0;
            && VersionAt(t', key, n + 1) == Some(c[n])
            && VersionAt(t', key, 0) == Some(Data(kind, value, c[0].version, ts))
  {
    var t' := AddData(t, key, value, ts, kind, HEALTHY).0;
    assert t'.versions[(key, c[0].version)] == c[0] && GoodTs(c[0].version);
    if n > 0 {
      StaleWriterAgain(t, key, c, value, ts, kind, n - 1);
      OldLink(t, key, c, n);
      assert t'.versions[(key, c[n].version)] == c[n];
    }
  }

  lemma OldLink(t: Tables, key: string, c: seq<Data>, n: nat)
    requires ChainIs(t, key, c) && 0 < n < |c|
    ensures c[n - 1].next == c[n].version != "" && c[n].version != c[0].version
    ensures (key, c[n].version) in t.versions && t.versions[(key, c[n].version)] == c[n]
  {
  }

  function Put(t: Tables, key: string, value: string, ts: string): Tables {
    AddData(t, key, value, ts, Update, HEALTHY).0
  }

  /** Two more writes after a stale one, and the walk of `ReadData` never ends. */
  lemma {:induction false} StaleWriteLoops(n: nat)
    ensures var t := Put(Put(Put(Put(EMPTY, "k", "a", "ts1"), "k", "b", "ts2"), "k", "c", "ts1"), "k", "d", "ts3");
            VersionAt(t, "k", n).Some?
  {
    var t1 := Put(EMPTY, "k", "a", "ts1");
    var t2 := Put(t1, "k", "b", "ts2");
    var t3 := Put(t2, "k", "c", "ts1");
    var t := Put(t3, "k", "d", "ts3");
    var one, two := Data(Update, "c", "ts2", "ts1"), Data(Update, "b", "ts1", "ts2");
    assert t3.heads["k"] == one;
    assert t.versions[("k", "ts1")] == one && t.versions[("k", "ts2")] == two;
    LoopFrom(t, "k", one, two, n);
  }

  /** Two records that name each other hold the walk for ever. */
  lemma {:induction false} LoopFrom(t: Tables, key: string, one: Data, two: Data, n: nat)
    requires key in t.heads && t.heads[key].next == two.next != "" && one.next != ""
    requires (key, two.next) in t.versions && t.versions[(key, two.next)] == one
    requires (key, one.next) in t.versions && t.versions[(key, one.next)] == two
    ensures VersionAt(t, key, n).Some? && VersionAt(t, key, n).value in {t.heads[key], one, two}
  {
    if n > 0 {
      LoopFrom(t, key, one, two, n - 1);
    }
  }

  /** The entry holds the newest version itself: it never repeats the record its `next` names. */
  lemma EntryIsNoMirror(t: Tables, key: string, c: seq<Data>)
    requires ChainIs(t, key, c) && c != [] && t.heads[key].next != ""
    ensures (key, t.heads[key].next) in t.versions
    ensures t.versions[(key, t.heads[key].next)].version == t.heads[key].next != t.heads[key].version
  {
  }
}
