/** What each operation of `Storage.cpp` does to the four tables, and what it returns. */
module Operations {
  import opened Text
  import opened Records
  import opened Tables

  /** Which database calls of one operation fail; a failing get is neither a hit nor a miss. */
  datatype Io = Io(getFails: bool, ownerFails: bool, putFails: bool, put2Fails: bool)

  const HEALTHY := Io(false, false, false, false)
  const NOT_FOUND := 1
  const IO_ERROR := 5

  function AddTrans(t: Tables, ts: string, io: Io): (r: (Tables, int))
    ensures r.0 == t.(trans := r.0.trans) && (r.1 != 0 ==> r.0 == t)
  {
    if io.getFails || ts in t.trans then (t, -1)
    else if io.putFails then (t, -2)
    else (t.(trans := t.trans[ts := NewTrans()]), 0)
  }

  /** A lock can be taken over once its owner has committed or rolled back. */
  function AddLock(t: Tables, key: string, ts: string, io: Io): (r: (Tables, int))
    ensures r.0 == t.(locks := r.0.locks)
    ensures r.1 != 0 ==> r.0 == t
  {
    if io.getFails then (t, 0)
    else if key !in t.locks || t.locks[key] != ts then
      if key in t.locks && (io.ownerFails || t.locks[key] !in t.trans) then (t, -11)
      else if key in t.locks && !t.trans[t.locks[key]].Finished() then (t, -1)
      else if io.putFails then (t, -2)
      else (t.(locks := t.locks[key := ts]), 0)
    else (t, 0)
  }

  function AddData(t: Tables, key: string, value: string, ts: string, kind: WriteKind, io: Io): (r: (Tables, int))
    ensures r.0 == t.(heads := r.0.heads, versions := r.0.versions)
    ensures r.1 != 0 ==> r.0.heads == t.heads
  {
    if io.getFails || key !in t.heads then
      if io.putFails then (t, -3) else (t.(heads := t.heads[key := Data(kind, value, "", ts)]), 0)
    else
      var head := t.heads[key];
      if head.version == ts then
        if io.putFails then (t, -1)
        else (t.(heads := t.heads[key := head.(kind := kind, value := value)]), 0)
      else if io.putFails then (t, -2)
      else
        var kept := t.(versions := t.versions[(key, head.version) := head]);
        if io.put2Fails then (kept, -2)
        else (kept.(heads := kept.heads[key := Data(kind, value, head.version, ts)]), 0)
  }

  /** `startCleanTrans`: an unprepared transaction is rolled back, a prepared one is handed to a polling routine. */
  function CleanTrans(t: Tables, ts: string): (r: Tables)
    ensures r == t.(trans := r.trans)
  {
    if ts in t.trans && t.trans[ts].state.Begin?
    then t.(trans := t.trans[ts := t.trans[ts].(state := RolledBack)])
    else t
  }

  predicate Wakes(t: Tables, ts: string) {
    ts in t.trans && t.trans[ts].state.Prepared?
  }

  /** `startUpClean` over the whole transaction table. */
  function CleanAll(t: Tables): (r: Tables)
    ensures r == t.(trans := r.trans)
  {
    t.(trans := map ts | ts in t.trans ::
        if t.trans[ts].state.Begin? then t.trans[ts].(state := RolledBack) else t.trans[ts])
  }

  function UpdatePrepared(t: Tables, ts: string, startTs: string, hosts: seq<nat>, io: Io): (r: (Tables, int))
    ensures r.0 == t.(trans := r.0.trans) && (r.1 != 0 ==> r.0 == t)
  {
    if io.getFails || ts !in t.trans then (t, -1)
    else if !t.trans[ts].state.Begin? then (t, -2)
    else if io.putFails then (t, -3)
    else (t.(trans := t.trans[ts := MarkPrepared(t.trans[ts], startTs, hosts)]), 0)
  }

  function UpdateSelfTs(t: Tables, ts: string, selfTs: string, io: Io): (r: (Tables, int))
    ensures r.0 == t.(trans := r.0.trans) && (r.1 != 0 ==> r.0 == t)
  {
    if io.getFails then (t, IO_ERROR)
    else if ts !in t.trans then (t, NOT_FOUND)
    else if !t.trans[ts].state.Prepared? then (t, -2)
    else if io.putFails then (t, IO_ERROR)
    else (t.(trans := t.trans[ts := t.trans[ts].(selfTs := selfTs)]), 0)
  }

  /** The out-parameters of `ReadData` with its return code: 0 a value, 33 a deletion,
      66 a commit under way, 99 nothing, -1 a version without a transaction. */
  datatype ReadResult = ReadResult(code: int, value: string, beginTs: string, startTs: string, commitTs: string)

  predicate IsHit(r: ReadResult) {
    r.code == 0 || r.code == 33
  }

  function Hit(d: Data, startTs: string, commitTs: string): ReadResult {
    ReadResult(if d.kind.Delete? then 33 else 0, d.value, d.version, startTs, commitTs)
  }

  /** What a reader with timestamp `reader` makes of one version: an answer, or on to the next. */
  function Judge(d: Data, trans: map<string, Trans>, reader: string): Option<ReadResult> {
    if d.version == reader then Some(Hit(d, "", ""))
    else if d.version !in trans then Some(ReadResult(-1, "", "", "", ""))
    else
      var t := trans[d.version];
      if t.state.Prepared? && Less(t.startTs, reader) then Some(ReadResult(66, "", d.version, t.startTs, t.commitTs))
      else if t.state.Committed? && Less(t.commitTs, reader) then Some(Hit(d, t.startTs, t.commitTs))
      else None
  }

  /** The first answer down a chain of versions. */
  function ReadChain(c: seq<Data>, trans: map<string, Trans>, reader: string): ReadResult {
    if c == [] then ReadResult(99, "", "", "", "")
    else
      match Judge(c[0], trans, reader)
      case Some(r) => r
      case None => ReadChain(c[1..], trans, reader)
  }

  /** Passing over one version moves the question to the rest of the chain. */
  lemma ReadOn(c: seq<Data>, i: nat, trans: map<string, Trans>, reader: string)
    requires i < |c|
    ensures ReadChain(c[i..], trans, reader) ==
            match Judge(c[i], trans, reader) case Some(r) => r case None => ReadChain(c[i + 1..], trans, reader)
  {
  }

  /** Where the walk stands after `n` links: the entry first, then whatever each `next` names. */
  function VersionAt(t: Tables, key: string, n: nat): Option<Data> {
    if n == 0 then if key in t.heads then Some(t.heads[key]) else None
    else
      match VersionAt(t, key, n - 1)
      case None => None
      case Some(d) =>
        if d.next != "" && (key, d.next) in t.versions then Some(t.versions[(key, d.next)]) else None
  }

  /** Whether a lock is held by another than `ts`. */
  predicate OwnedByOther(t: Tables, key: string, ts: string) {
    key in t.locks && t.locks[key] != ts
  }

  /** The return codes of a begin, a lock and a write tell exactly what went wrong. */
  lemma BeginCodes(t: Tables, ts: string, io: Io)
    ensures var code := AddTrans(t, ts, io).1;
            && (code == -1 <==> io.getFails || ts in t.trans)
            && (code == -2 <==> !io.getFails && ts !in t.trans && io.putFails)
            && code in {0, -1, -2}
  {
  }

  lemma LockCodes(t: Tables, key: string, ts: string, io: Io)
    ensures var code := AddLock(t, key, ts, io).1;
            var lost := !io.getFails && OwnedByOther(t, key, ts) && (io.ownerFails || t.locks[key] !in t.trans);
            && (code == -11 <==> lost)
            && (code == -1 <==> !io.getFails && OwnedByOther(t, key, ts) && !lost && !t.trans[t.locks[key]].Finished())
            && (code == -2 ==> io.putFails && !(key in t.locks && t.locks[key] == ts))
            && code in {0, -1, -2, -11}
  {
  }

  lemma WriteCodes(t: Tables, key: string, value: string, ts: string, kind: WriteKind, io: Io)
    ensures var code := AddData(t, key, value, ts, kind, io).1;
            var found := !io.getFails && key in t.heads;
            && (code == -3 <==> !found && io.putFails)
            && (code == -1 <==> found && t.heads[key].version == ts && io.putFails)
            && (code == -2 <==> found && t.heads[key].version != ts && (io.putFails || io.put2Fails))
            && code in {0, -1, -2, -3}
  {
  }

  lemma PrepareCodes(t: Tables, ts: string, startTs: string, hosts: seq<nat>, selfTs: string, io: Io)
    ensures var code := UpdatePrepared(t, ts, startTs, hosts, io).1;
            && (code == -1 <==> io.getFails || ts !in t.trans)
            && (code == -2 <==> !io.getFails && ts in t.trans && !t.trans[ts].state.Begin?)
            && code in {0, -1, -2, -3}
    ensures var code := UpdateSelfTs(t, ts, selfTs, io).1;
            && (code == NOT_FOUND <==> !io.getFails && ts !in t.trans)
            && (code == -2 <==> !io.getFails && ts in t.trans && !t.trans[ts].state.Prepared?)
            && code in {0, NOT_FOUND, -2, IO_ERROR}
  {
  }
}
