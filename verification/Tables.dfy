/** One map from names to records stands for four typed tables. */
module Tables {
  import opened Text
  import opened Timestamps
  import opened Records
  import opened Keys

  datatype Tables = Tables(
    trans: map<string, Trans>,
    locks: map<string, string>,
    heads: map<string, Data>,
    versions: map<(string, string), Data>)

  const EMPTY := Tables(map[], map[], map[], map[])

  function Find(db: map<string, Record>, name: string): Option<Record> {
    if name in db then Some(db[name]) else None
  }

  function Lookup(t: Tables, s: Slot): Option<Record> {
    match s
    case TransSlot(ts) => if ts in t.trans then Some(TransRec(t.trans[ts])) else None
    case LockSlot(key) => if key in t.locks then Some(LockRec(t.locks[key])) else None
    case HeadSlot(key) => if key in t.heads then Some(DataRec(t.heads[key])) else None
    case VersionSlot(key, ts) => if (key, ts) in t.versions then Some(DataRec(t.versions[(key, ts)])) else None
  }

  predicate Fits(s: Slot, r: Record) {
    match s
    case TransSlot(_) => r.TransRec?
    case LockSlot(_) => r.LockRec?
    case _ => r.DataRec?
  }

  function Store(t: Tables, s: Slot, r: Record): Tables
    requires Fits(s, r)
  {
    match s
    case TransSlot(ts) => t.(trans := t.trans[ts := r.trans])
    case LockSlot(key) => t.(locks := t.locks[key := r.owner])
    case HeadSlot(key) => t.(heads := t.heads[key := r.data])
    case VersionSlot(key, ts) => t.(versions := t.versions[(key, ts) := r.data])
  }

  function Remove(t: Tables, s: Slot): Tables {
    match s
    case TransSlot(ts) => t.(trans := t.trans - {ts})
    case LockSlot(key) => t.(locks := t.locks - {key})
    case HeadSlot(key) => t.(heads := t.heads - {key})
    case VersionSlot(key, ts) => t.(versions := t.versions - {(key, ts)})
  }

  ghost predicate Named(n: string) {
    exists s :: GoodSlot(s) && Name(s) == n
  }

  /** `db` holds the records of `t` under their names, and nothing else. */
  ghost predicate Represents(db: map<string, Record>, t: Tables) {
    && (forall s :: GoodSlot(s) ==> Find(db, Name(s)) == Lookup(t, s))
    && (forall n :: n in db ==> Named(n))
    && (forall v :: v in t.versions ==> GoodTs(v.1))
  }

  lemma EmptyRepresents()
    ensures Represents(map[], EMPTY)
  {
  }

  lemma StoreRepresents(db: map<string, Record>, t: Tables, s: Slot, r: Record)
    requires Represents(db, t) && GoodSlot(s) && Fits(s, r)
    ensures Represents(db[Name(s) := r], Store(t, s, r))
  {
    forall s' | GoodSlot(s')
      ensures Find(db[Name(s) := r], Name(s')) == Lookup(Store(t, s, r), s')
    {
      NamesDistinct(s, s');
      assert Find(db, Name(s')) == Lookup(t, s');
    }
  }

  lemma RemoveRepresents(db: map<string, Record>, t: Tables, s: Slot)
    requires Represents(db, t) && GoodSlot(s)
    ensures Represents(db - {Name(s)}, Remove(t, s))
  {
    forall s' | GoodSlot(s')
      ensures Find(db - {Name(s)}, Name(s')) == Lookup(Remove(t, s), s')
    {
      NamesDistinct(s, s');
      assert Find(db, Name(s')) == Lookup(t, s');
    }
  }

  datatype Op = Put(slot: Slot, rec: Record) | Get(slot: Slot) | Del(slot: Slot)

  predicate GoodOp(op: Op) {
    GoodSlot(op.slot) && (op.Put? ==> Fits(op.slot, op.rec))
  }

  /** What the gets of a sequence of operations answer, and the map they end with. */
  function RunFlat(db: map<string, Record>, ops: seq<Op>): (map<string, Record>, seq<Option<Record>>)
    decreases ops
  {
    if ops == [] then (db, [])
    else
      match ops[0]
      case Put(s, r) => RunFlat(db[Name(s) := r], ops[1..])
      case Del(s) => RunFlat(db - {Name(s)}, ops[1..])
      case Get(s) => var (db', found) := RunFlat(db, ops[1..]); (db', [Find(db, Name(s))] + found)
  }

  function RunTyped(t: Tables, ops: seq<Op>): (Tables, seq<Option<Record>>)
    requires forall op :: op in ops ==> GoodOp(op)
    decreases ops
  {
    if ops == [] then (t, [])
    else
      assert GoodOp(ops[0]);
      match ops[0]
      case Put(s, r) => RunTyped(Store(t, s, r), ops[1..])
      case Del(s) => RunTyped(Remove(t, s), ops[1..])
      case Get(s) => var (t', found) := RunTyped(t, ops[1..]); (t', [Lookup(t, s)] + found)
  }

  /** The single map answers every sequence of operations as four separate tables would. */
  lemma {:induction false} FlatRefinesTyped(db: map<string, Record>, t: Tables, ops: seq<Op>)
    requires Represents(db, t) && forall op :: op in ops ==> GoodOp(op)
    ensures RunFlat(db, ops).1 == RunTyped(t, ops).1
    ensures Represents(RunFlat(db, ops).0, RunTyped(t, ops).0)
    decreases ops
  {
    if ops != [] {
      assert GoodOp(ops[0]);
      match ops[0] {
        case Put(s, r) =>
          StoreRepresents(db, t, s, r);
          FlatRefinesTyped(db[Name(s) := r], Store(t, s, r), ops[1..]);
        case Del(s) =>
          RemoveRepresents(db, t, s);
          FlatRefinesTyped(db - {Name(s)}, Remove(t, s), ops[1..]);
        case Get(s) => FlatRefinesTyped(db, t, ops[1..]);
      }
    }
  }

  /** Scanning the names under "trans_" lists the transaction table, each record once. */
  lemma PrefixScan(db: map<string, Record>, t: Tables)
    requires Represents(db, t)
    ensures forall n :: n in db && TRANS_PREFIX <= n ==>
              ParseTrans(n) in t.trans && db[n] == TransRec(t.trans[ParseTrans(n)])
    ensures forall ts :: ts in t.trans ==> MakeTrans(ts) in db && TRANS_PREFIX <= MakeTrans(ts)
  {
    forall n | n in db && TRANS_PREFIX <= n
      ensures ParseTrans(n) in t.trans && db[n] == TransRec(t.trans[ParseTrans(n)])
    {
      assert Named(n);
      var s :| GoodSlot(s) && Name(s) == n;
      TransPrefix(s);
      ParseTransInverts(s.ts);
      assert Find(db, Name(s)) == Lookup(t, s);
    }
    forall ts | ts in t.trans ensures MakeTrans(ts) in db && TRANS_PREFIX <= MakeTrans(ts) {
      assert Find(db, Name(TransSlot(ts))) == Lookup(t, TransSlot(ts));
    }
  }
}
