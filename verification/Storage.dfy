/** The storage engine: one string-keyed database, behaving as the four tables do. */
module StorageEngine {
  import opened Text
  import opened Sequences
  import opened Timestamps
  import opened Records
  import opened Keys
  import opened Tables
  import opened Operations
  import opened Chains

  class Storage {
    var db: map<string, Record>
    /** The transactions handed to polling routines so far. */
    var woken: seq<string>
    ghost var tables: Tables

    ghost predicate Valid()
      reads this
    {
      Represents(db, tables) && forall k :: k in tables.heads ==> GoodTs(tables.heads[k].version)
    }

    constructor ()
      ensures Valid() && tables == EMPTY && woken == []
    {
      db, woken, tables := map[], [], EMPTY;
      new;
      EmptyRepresents();
    }

    /** `db->Get`: what the database holds under a name is what the tables hold at its address. */
    lemma Reads(s: Slot)
      requires Valid() && GoodSlot(s)
      ensures Find(db, Name(s)) == Lookup(tables, s)
    {
    }

    /** `db->Put` at the name of an address. */
    method Put(name: string, r: Record, ghost s: Slot)
      requires Represents(db, tables) && GoodSlot(s) && Fits(s, r) && name == Name(s)
      modifies this`db, this`tables
      ensures Represents(db, tables) && tables == Store(old(tables), s, r)
    {
      StoreRepresents(db, tables, s, r);
      db := db[name := r];
      tables := Store(tables, s, r);
    }

    method AddTrans(ts: string, io: Io) returns (code: int)
      requires Valid()
      modifies this
      ensures Valid() && woken == old(woken)
      ensures (tables, code) == Operations.AddTrans(old(tables), ts, io)
    {
      var name := MakeTrans(ts);
      Reads(TransSlot(ts));
      if io.getFails || name in db { return -1; }
      if io.putFails { return -2; }
      Put(name, TransRec(NewTrans()), TransSlot(ts));
      return 0;
    }

    method AddLock(key: string, ts: string, io: Io) returns (code: int)
      requires Valid()
      modifies this
      ensures Valid() && woken == old(woken)
      ensures (tables, code) == Operations.AddLock(old(tables), key, ts, io)
    {
      var name := MakeLock(key);
      Reads(LockSlot(key));
      if io.getFails {
        return 0;
      }
      if name in db {
        var owner := db[name].owner;
        if owner == ts { return 0; }
        Reads(TransSlot(owner));
        if io.ownerFails || MakeTrans(owner) !in db { return -11; }
        var t := db[MakeTrans(owner)].trans;
        if !t.state.RolledBack? && !t.state.Committed? { return -1; }
      }
      if io.putFails { return -2; }
      Put(name, LockRec(ts), LockSlot(key));
      return 0;
    }

    method AddData(key: string, value: string, ts: string, kind: WriteKind, io: Io) returns (code: int)
      requires Valid() && GoodTs(ts)
      modifies this
      ensures Valid() && woken == old(woken)
      ensures (tables, code) == Operations.AddData(old(tables), key, value, ts, kind, io)
    {
      var entry := MakeDataEntry(key);
      Reads(HeadSlot(key));
      if !io.getFails && entry in db {
        var data := db[entry].data;
        if data.version == ts {
          if io.putFails { return -1; }
          Put(entry, DataRec(data.(kind := kind, value := value)), HeadSlot(key));
        } else {
          if io.putFails { return -2; }
          Put(MakeData(key, data.version), DataRec(data), VersionSlot(key, data.version));
          if io.put2Fails { return -2; }
          Put(entry, DataRec(Data(kind, value, data.version, ts)), HeadSlot(key));
        }
      } else {
        if io.putFails { return -3; }
        Put(entry, DataRec(Data(kind, value, "", ts)), HeadSlot(key));
      }
      return 0;
    }

    method StartCleanTrans(ts: string, getFails: bool)
      requires Valid()
      modifies this
      ensures Valid() && tables == if getFails then old(tables) else CleanTrans(old(tables), ts)
      ensures woken == old(woken) + if !getFails && Wakes(old(tables), ts) then [ts] else []
    {
      var name := MakeTrans(ts);
      Reads(TransSlot(ts));
      if !getFails && name in db {
        var t := db[name].trans;
        if t.state.Begin? {
          Put(name, TransRec(t.(state := RolledBack)), TransSlot(ts));
        } else if t.state.Prepared? {
          woken := woken + [ts];
        }
      }
    }

    /** The body of `startUpClean`'s loop. */
    method SweepOne(name: string)
      requires Valid() && TRANS_PREFIX <= name && ParseTrans(name) in tables.trans
      modifies this
      ensures Valid() && tables == CleanTrans(old(tables), ParseTrans(name))
      ensures woken == old(woken) + if Wakes(old(tables), ParseTrans(name)) then [ParseTrans(name)] else []
    {
      var ts := ParseTrans(name);
      Reads(TransSlot(ts));
      var t := db[name].trans;
      if t.state.Begin? {
        Put(name, TransRec(t.(state := RolledBack)), TransSlot(ts));
      } else if t.state.Prepared? {
        StartCleanTrans(ts, false);
      }
    }

    /** The transaction table with the names in `todo` still to be visited. */
    static ghost function Swept(trans: map<string, Trans>, todo: set<string>): map<string, Trans> {
      map ts | ts in trans ::
        if MakeTrans(ts) !in todo && trans[ts].state.Begin? then trans[ts].(state := RolledBack) else trans[ts]
    }

    static lemma SweptOne(t: Tables, todo: set<string>, ts: string)
      requires ts in t.trans && MakeTrans(ts) in todo
      ensures CleanTrans(t.(trans := Swept(t.trans, todo)), ts) == t.(trans := Swept(t.trans, todo - {MakeTrans(ts)}))
      ensures Wakes(t.(trans := Swept(t.trans, todo)), ts) == Wakes(t, ts)
    {
      forall other | other in t.trans && MakeTrans(other) == MakeTrans(ts) ensures other == ts {
        ParseTransInverts(other);
        ParseTransInverts(ts);
      }
      assert CleanTrans(t.(trans := Swept(t.trans, todo)), ts).trans == Swept(t.trans, todo - {MakeTrans(ts)});
    }

    /** `w` wakes exactly the prepared transactions whose names are no longer in `todo`, each once. */
    static ghost predicate WokenFor(w: seq<string>, t: Tables, todo: set<string>) {
      NoRepeats(w) && forall ts :: ts in w <==> Wakes(t, ts) && MakeTrans(ts) !in todo
    }

    static lemma WokenOne(w: seq<string>, t: Tables, todo: set<string>, ts: string)
      requires WokenFor(w, t, todo) && MakeTrans(ts) in todo
      ensures WokenFor(w + if Wakes(t, ts) then [ts] else [], t, todo - {MakeTrans(ts)})
    {
      var w' := w + if Wakes(t, ts) then [ts] else [];
      forall other ensures other in w' <==> Wakes(t, other) && MakeTrans(other) !in todo - {MakeTrans(ts)} {
        ParseTransInverts(other);
        ParseTransInverts(ts);
      }
    }

    static lemma SweepStart(db: map<string, Record>, t: Tables, todo: set<string>)
      requires Represents(db, t) && todo == set n | n in db.Keys && TRANS_PREFIX <= n
      ensures Swept(t.trans, todo) == t.trans && WokenFor([], t, todo)
      ensures forall n :: n in todo ==> TRANS_PREFIX <= n && ParseTrans(n) in t.trans
    {
      PrefixScan(db, t);
    }

    /** Midway through the pass that began with tables `before` and `already` woken. */
    ghost predicate Sweeping(before: Tables, already: seq<string>, todo: set<string>)
      reads this
    {
      && Valid() && tables == before.(trans := Swept(before.trans, todo))
      && (forall n :: n in todo ==> TRANS_PREFIX <= n && ParseTrans(n) in before.trans)
      && already <= woken && WokenFor(woken[|already|..], before, todo)
    }

    method SweepNext(n: string, ghost before: Tables, ghost already: seq<string>, ghost todo: set<string>)
      requires Sweeping(before, already, todo) && n in todo
      modifies this
      ensures Sweeping(before, already, todo - {n})
    {
      ghost var ts, w := ParseTrans(n), woken[|already|..];
      SweptOne(before, todo, ts);
      WokenOne(w, before, todo, ts);
      SweepOne(n);
      assert woken[|already|..] == w + if Wakes(before, ts) then [ts] else [];
    }

    /** One pass over the names under "trans_": afterwards nothing is merely begun, and exactly the
        prepared transactions have been woken, each once. */
    method StartUpClean()
      requires Valid()
      modifies this
      ensures Valid() && tables == CleanAll(old(tables))
      ensures old(woken) <= woken && WokenFor(woken[|old(woken)|..], old(tables), {})
    {
      var todo := set n | n in db.Keys && TRANS_PREFIX <= n;
      SweepStart(db, tables, todo);
      assert woken[|woken|..] == [];
      while todo != {}
        invariant Sweeping(old(tables), old(woken), todo)
        decreases todo
      {
        var n :| n in todo;
        SweepNext(n, old(tables), old(woken), todo);
        todo := todo - {n};
      }
      assert Swept(old(tables).trans, {}) == CleanAll(old(tables)).trans;
    }

    method UpdateTransPrepared(ts: string, startTs: string, hosts: seq<nat>, io: Io) returns (code: int)
      requires Valid()
      modifies this
      ensures Valid() && woken == old(woken)
      ensures (tables, code) == UpdatePrepared(old(tables), ts, startTs, hosts, io)
    {
      var name := MakeTrans(ts);
      Reads(TransSlot(ts));
      if io.getFails || name !in db { return -1; }
      var t := db[name].trans;
      if !t.state.Begin? { return -2; }
      var members := t.members;
      for i := 0 to |hosts|
        invariant members == t.members + hosts[..i]
      {
        members := members + [hosts[i]];
      }
      assert hosts[..|hosts|] == hosts;
      if io.putFails { return -3; }
      Put(name, TransRec(t.(state := Prepared, startTs := startTs, members := members)), TransSlot(ts));
      return 0;
    }

    method UpdateTransSelfCommitTs(ts: string, selfTs: string, io: Io) returns (code: int)
      requires Valid()
      modifies this
      ensures Valid() && woken == old(woken)
      ensures (tables, code) == UpdateSelfTs(old(tables), ts, selfTs, io)
    {
      var name := MakeTrans(ts);
      Reads(TransSlot(ts));
      if io.getFails { return IO_ERROR; }
      if name !in db { return NOT_FOUND; }
      var t := db[name].trans;
      if !t.state.Prepared? { return -2; }
      if io.putFails { return IO_ERROR; }
      Put(name, TransRec(t.(selfTs := selfTs)), TransSlot(ts));
      return 0;
    }

    /** `db->Get` of a data record. */
    method GetData(name: string, ghost s: Slot) returns (found: bool, data: Data)
      requires Valid() && GoodSlot(s) && name == Name(s) && (s.HeadSlot? || s.VersionSlot?)
      ensures Lookup(tables, s) == if found then Some(DataRec(data)) else None
    {
      Reads(s);
      if name in db {
        return true, db[name].data;
      }
      return false, Data(Insert, "", "", "");
    }

    /** `db->Get` of a transaction record. */
    method GetTrans(ts: string) returns (found: bool, t: Trans)
      requires Valid()
      ensures found <==> ts in tables.trans
      ensures found ==> t == tables.trans[ts]
    {
      Reads(TransSlot(ts));
      if MakeTrans(ts) in db {
        return true, db[MakeTrans(ts)].trans;
      }
      return false, NewTrans();
    }

    /** The walk down a key's versions, over any stored records on which it ends. */
    method ReadData(reader: string, key: string, ghost c: seq<Data>)
        returns (code: int, value: string, beginTs: string, startTs: string, commitTs: string)
      requires Valid() && WalkIs(tables, key, c)
      ensures ReadResult(code, value, beginTs, startTs, commitTs) == ReadChain(c, tables.trans, reader)
    {
      value, beginTs, startTs, commitTs := "", "", "", "";
      var loopTs := "";
      ghost var i := 0;
      assert c[0..] == c;
      while true
        invariant 0 <= i <= |c| && (i == 0 || c[i - 1].next != "")
        invariant loopTs == if i == 0 then "" else c[i - 1].next
        invariant value == beginTs == startTs == commitTs == ""
        invariant ReadChain(c[i..], tables.trans, reader) == ReadChain(c, tables.trans, reader)
        decreases |c| - i
      {
        ghost var slot := if i == 0 then HeadSlot(key) else VersionSlot(key, loopTs);
        var found, data := GetData(if loopTs == "" then MakeDataEntry(key) else MakeData(key, loopTs), slot);
        if !found { return 99, "", "", "", ""; }
        assert data == c[i];
        ReadOn(c, i, tables.trans, reader);
        if data.version == reader {
          return if data.kind.Delete? then 33 else 0, data.value, data.version, "", "";
        }
        var known, t := GetTrans(data.version);
        if !known { return -1, "", "", "", ""; }
        if t.state.Prepared? && Less(t.startTs, reader) {
          return 66, "", data.version, t.startTs, t.commitTs;
        }
        if t.state.Committed? && Less(t.commitTs, reader) {
          return if data.kind.Delete? then 33 else 0, data.value, data.version, t.startTs, t.commitTs;
        }
        loopTs := data.next;
        if loopTs == "" { return 99, "", "", "", ""; }
        i := i + 1;
      }
    }
  }
}
