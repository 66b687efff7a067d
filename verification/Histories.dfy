/** The versions of a key after any history of writes to all keys, whatever database calls fail on the way. */
module Histories {
  import opened Timestamps
  import opened Records
  import opened Tables
  import opened Operations
  import opened Chains

  datatype Write = Write(key: string, value: string, ts: string, kind: WriteKind, io: Io)

  function WriteOne(t: Tables, w: Write): (Tables, int) {
    AddData(t, w.key, w.value, w.ts, w.kind, w.io)
  }

  function WriteAll(log: seq<Write>): Tables {
    if log == [] then EMPTY else WriteOne(WriteAll(log[..|log| - 1]), log[|log| - 1]).0
  }

  /** The write gets stored: a failing second put only hurts a writer that is not the newest. */
  predicate Stores(kept: seq<Write>, w: Write) {
    !w.io.putFails && (w.io.getFails || kept == [] || kept[|kept| - 1].ts == w.ts || !w.io.put2Fails)
  }

  /** A stored write comes last, and stands alone if its get failed. */
  function KeptAfter(kept: seq<Write>, w: Write): seq<Write> {
    if !Stores(kept, w) then kept else if w.io.getFails then [w] else kept + [w]
  }

  /** The writes of `key` that are stored, since the last one that forgot all others. */
  function Kept(log: seq<Write>, key: string): seq<Write> {
    if log == [] then []
    else
      var past, w := Kept(log[..|log| - 1], key), log[|log| - 1];
      if w.key == key then KeptAfter(past, w) else past
  }

  /** The versions they make: the last writer first, and a writer again at once in place. */
  function Versions(kept: seq<Write>): (c: seq<Data>)
    ensures c == [] <==> kept == []
    ensures kept != [] ==> c[0].version == kept[|kept| - 1].ts
  {
    if kept == [] then []
    else
      var w := kept[|kept| - 1];
      WriteChain(Versions(kept[..|kept| - 1]), w.value, w.ts, w.kind)
  }

  function History(log: seq<Write>, key: string): seq<Data> {
    Versions(Kept(log, key))
  }

  // ----- the stored chain -----

  /** A write that gets stored onto other versions is by their newest writer or by one new to them. */
  predicate InOrder(kept: seq<Write>, w: Write) {
    Stores(kept, w) && !w.io.getFails ==> FreshOrHead(Versions(kept), w.ts)
  }

  predicate Orderly(log: seq<Write>, key: string) {
    forall i :: 0 <= i < |log| && log[i].key == key ==> InOrder(Kept(log[..i], key), log[i])
  }

  lemma WriteReports(t: Tables, kept: seq<Write>, w: Write)
    requires ChainIs(t, w.key, Versions(kept))
    ensures WriteOne(t, w).1 == 0 <==> Stores(kept, w)
  {
  }

  lemma VersionsAppend(kept: seq<Write>, w: Write)
    ensures Versions(kept + [w]) == WriteChain(Versions(kept), w.value, w.ts, w.kind)
  {
    assert (kept + [w])[..|kept|] == kept;
  }

  lemma WriteKeepsHistoryExactly(t: Tables, kept: seq<Write>, w: Write)
    requires ChainIs(t, w.key, Versions(kept)) && GoodTs(w.ts)
    ensures ChainIs(WriteOne(t, w).0, w.key, Versions(KeptAfter(kept, w))) <==> InOrder(kept, w)
  {
    var c := Versions(kept);
    WriteReports(t, kept, w);
    VersionsAppend(kept, w);
    if !Stores(kept, w) {
      AddDataFailed(t, w.key, c, w.value, w.ts, w.kind, w.io);
    } else if w.io.getFails {
      VersionsAppend([], w);
      assert [] + [w] == [w];
      AddDataForgets(t, w.key, w.value, w.ts, w.kind, w.io);
    } else if FreshOrHead(c, w.ts) {
      AddDataStored(t, w.key, c, w.value, w.ts, w.kind, w.io);
    } else {
      assert WriteOne(t, w) == AddData(t, w.key, w.value, w.ts, w.kind, HEALTHY);
      WriteKeepsChainExactly(t, w.key, c, w.value, w.ts, w.kind);
    }
  }

  predicate GoodNames(log: seq<Write>) {
    forall i :: 0 <= i < |log| ==> GoodTs(log[i].ts)
  }

  ghost predicate StoredHistory(log: seq<Write>, key: string) {
    ChainIs(WriteAll(log), key, History(log, key))
  }

  /** One more write, to this key or another. */
  lemma HistoryStepExactly(log: seq<Write>, key: string)
    requires log != [] && GoodNames(log) && StoredHistory(log[..|log| - 1], key)
    ensures var past, w := log[..|log| - 1], log[|log| - 1];
            StoredHistory(log, key) <==> (w.key == key ==> InOrder(Kept(past, key), w))
  {
    var past, w := log[..|log| - 1], log[|log| - 1];
    if w.key == key {
      WriteKeepsHistoryExactly(WriteAll(past), Kept(past, key), w);
    } else {
      AddDataElsewhere(WriteAll(past), w.key, w.value, w.ts, w.kind, w.io, key, History(past, key));
    }
  }

  lemma {:induction false} OrderlyIsStored(log: seq<Write>, key: string)
    requires GoodNames(log) && Orderly(log, key)
    ensures StoredHistory(log, key)
  {
    if log != [] {
      var past := log[..|log| - 1];
      assert forall i :: 0 <= i < |past| ==> past[..i] == log[..i] && past[i] == log[i];
      OrderlyIsStored(past, key);
      HistoryStepExactly(log, key);
    }
  }

  /** After any history of writes, failing calls included, the stored chain of a key is its history at every
      point if and only if no write is stored out of order. */
  lemma StoreKeepsHistoryExactly(log: seq<Write>, key: string)
    requires GoodNames(log)
    ensures (forall n :: 0 <= n <= |log| ==> StoredHistory(log[..n], key)) <==> Orderly(log, key)
  {
    if Orderly(log, key) {
      forall n | 0 <= n <= |log| ensures StoredHistory(log[..n], key) {
        OrderlyPrefix(log, key, n);
        OrderlyIsStored(log[..n], key);
      }
    } else {
      var i :| 0 <= i < |log| && log[i].key == key && !InOrder(Kept(log[..i], key), log[i]);
      OutOfOrderBreaks(log, key, i);
    }
  }

  lemma OrderlyPrefix(log: seq<Write>, key: string, n: nat)
    requires n <= |log| && Orderly(log, key)
    ensures Orderly(log[..n], key)
  {
    assert forall i :: 0 <= i < n ==> log[..n][..i] == log[..i];
  }

  lemma OutOfOrderBreaks(log: seq<Write>, key: string, i: nat)
    requires GoodNames(log) && i < |log| && log[i].key == key && !InOrder(Kept(log[..i], key), log[i])
    ensures !StoredHistory(log[..i], key) || !StoredHistory(log[..i + 1], key)
  {
    assert log[..i + 1][..i] == log[..i];
    if StoredHistory(log[..i], key) {
      HistoryStepExactly(log[..i + 1], key);
    }
  }

  // ----- what the history says -----

  function Writers(c: seq<Data>): set<string> {
    set d | d in c :: d.version
  }

  lemma WriteChainWriters(c: seq<Data>, value: string, ts: string, kind: WriteKind)
    ensures Writers(WriteChain(c, value, ts, kind)) == Writers(c) + {ts}
  {
  }

  lemma {:induction false} VersionsWriters(kept: seq<Write>)
    ensures Writers(Versions(kept)) == set w | w in kept :: w.ts
  {
    if kept != [] {
      var past, w := kept[..|kept| - 1], kept[|kept| - 1];
      VersionsWriters(past);
      assert kept == past + [w];
      WriteChainWriters(Versions(past), w.value, w.ts, w.kind);
    }
  }

  lemma {:induction false} KeptIsWritten(log: seq<Write>, key: string)
    ensures forall w :: w in Kept(log, key) ==> w in log && w.key == key
    ensures (forall w :: w in log && w.key == key ==> w.io == HEALTHY) ==>
              forall w :: w in log && w.key == key ==> w in Kept(log, key)
  {
    if log != [] {
      KeptIsWritten(log[..|log| - 1], key);
      assert log == log[..|log| - 1] + [log[|log| - 1]];
    }
  }

  /** The chain holds exactly the transactions with a stored write since the last one that forgot the others,
      and where no call failed exactly those that wrote the key. */
  lemma HistoryWriters(log: seq<Write>, key: string)
    ensures Writers(History(log, key)) == set w | w in Kept(log, key) :: w.ts
    ensures (forall w :: w in log && w.key == key ==> w.io == HEALTHY) ==>
              Writers(History(log, key)) == set w | w in log && w.key == key :: w.ts
  {
    VersionsWriters(Kept(log, key));
    KeptIsWritten(log, key);
  }

  /** The position of the last write of `ts`, or -1. */
  function LastWrite(kept: seq<Write>, ts: string): (n: int)
    ensures -1 <= n < |kept|
    ensures n >= 0 ==> kept[n].ts == ts
  {
    if kept == [] then -1
    else if kept[|kept| - 1].ts == ts then |kept| - 1
    else LastWrite(kept[..|kept| - 1], ts)
  }

  predicate IsLastWrite(kept: seq<Write>, d: Data) {
    var n := LastWrite(kept, d.version);
    n >= 0 && kept[n].value == d.value && kept[n].kind == d.kind
  }

  predicate NewestFirst(kept: seq<Write>, c: seq<Data>) {
    && (forall i :: 0 <= i < |c| ==> IsLastWrite(kept, c[i]))
    && (forall i, j :: 0 <= i < j < |c| ==> LastWrite(kept, c[i].version) > LastWrite(kept, c[j].version))
  }

  lemma LastWriteOthers(past: seq<Write>, w: Write, d: Data)
    requires w.ts != d.version
    ensures LastWrite(past + [w], d.version) == LastWrite(past, d.version)
    ensures IsLastWrite(past, d) ==> IsLastWrite(past + [w], d)
  {
    assert (past + [w])[..|past|] == past;
  }

  lemma NewestFirstPush(past: seq<Write>, w: Write, d: Data, rest: seq<Data>)
    requires NewestFirst(past, rest) && forall i :: 0 <= i < |rest| ==> rest[i].version != w.ts
    requires d.version == w.ts && d.value == w.value && d.kind == w.kind
    ensures NewestFirst(past + [w], [d] + rest)
  {
    var kept, h := past + [w], [d] + rest;
    NewestFirstStep(past, w, rest);
    assert LastWrite(kept, d.version) == |past|;
    forall i | 0 <= i < |rest| ensures LastWrite(kept, rest[i].version) < |past| {
      LastWriteOthers(past, w, rest[i]);
    }
    forall i | 0 <= i < |h| ensures IsLastWrite(kept, h[i]) {
      assert i > 0 ==> h[i] == rest[i - 1];
    }
    forall i, j | 0 <= i < j < |h| ensures LastWrite(kept, h[i].version) > LastWrite(kept, h[j].version) {
      assert h[j] == rest[j - 1];
      assert i > 0 ==> h[i] == rest[i - 1];
    }
  }

  lemma NewestFirstStep(past: seq<Write>, w: Write, c: seq<Data>)
    requires NewestFirst(past, c) && forall i :: 0 <= i < |c| ==> w.ts != c[i].version
    ensures NewestFirst(past + [w], c)
  {
    forall i | 0 <= i < |c|
      ensures IsLastWrite(past + [w], c[i])
      ensures LastWrite(past + [w], c[i].version) == LastWrite(past, c[i].version)
    {
      LastWriteOthers(past, w, c[i]);
    }
  }

  lemma NewestFirstRest(past: seq<Write>, h: seq<Data>)
    requires NewestFirst(past, h) && h != []
    ensures NewestFirst(past, h[1..])
  {
    assert forall i :: 0 <= i < |h[1..]| ==> h[1..][i] == h[i + 1];
  }

  lemma NewestFirstHead(past: seq<Write>, w: Write, h: seq<Data>)
    requires NewestFirst(past, h) && FreshOrHead(h, w.ts)
    ensures NewestFirst(past + [w], WriteChain(h, w.value, w.ts, w.kind))
  {
    var h' := WriteChain(h, w.value, w.ts, w.kind);
    var rest := if h != [] && h[0].version == w.ts then h[1..] else h;
    assert forall i :: 0 <= i < |rest| ==> rest[i].version != w.ts;
    if h != [] {
      NewestFirstRest(past, h);
    }
    assert h' == [h'[0]] + rest;
    NewestFirstPush(past, w, h'[0], rest);
  }

  /** Each version is its writer's last stored write, and the writers come in the order of those, latest first. */
  lemma {:induction false} HistoryNewestFirst(log: seq<Write>, key: string)
    requires Orderly(log, key)
    ensures NewestFirst(Kept(log, key), History(log, key))
  {
    if log != [] {
      var past, w := log[..|log| - 1], log[|log| - 1];
      assert forall i :: 0 <= i < |past| ==> past[..i] == log[..i] && past[i] == log[i];
      HistoryNewestFirst(past, key);
      if w.key == key && Stores(Kept(past, key), w) {
        var before := if w.io.getFails then [] else Kept(past, key);
        VersionsAppend(before, w);
        assert Kept(log, key) == before + [w];
        NewestFirstHead(before, w, Versions(before));
      }
    }
  }
}
