/** The names records carry in the one key space of the store (`Storage.h`), and when two names meet. */
module Keys {
  import opened Timestamps

  const TRANS_PREFIX := "trans_"

  function MakeTrans(ts: string): string {
    TRANS_PREFIX + ts
  }

  /** `key.substr(strlen("trans_"))`; throws on a shorter key. */
  function ParseTrans(key: string): (ts: string)
    requires |key| >= |TRANS_PREFIX|
    ensures MakeTrans(ts) == key <==> TRANS_PREFIX <= key
  {
    key[|TRANS_PREFIX|..]
  }

  function MakeLock(key: string): string {
    "lock_" + key
  }

  function MakeDataEntry(key: string): string {
    "data_" + key + "_entry"
  }

  function MakeData(key: string, ts: string): string {
    "data_" + key + "_" + ts
  }

  /** The four kinds of record, each with its own address. */
  datatype Slot =
    | TransSlot(ts: string)
    | LockSlot(key: string)
    | HeadSlot(key: string)
    | VersionSlot(key: string, ts: string)

  function Name(s: Slot): string {
    match s
    case TransSlot(ts) => MakeTrans(ts)
    case LockSlot(key) => MakeLock(key)
    case HeadSlot(key) => MakeDataEntry(key)
    case VersionSlot(key, ts) => MakeData(key, ts)
  }

  predicate GoodSlot(s: Slot) {
    s.VersionSlot? ==> GoodTs(s.ts)
  }

  lemma ParseTransInverts(ts: string)
    ensures |MakeTrans(ts)| >= |TRANS_PREFIX| && ParseTrans(MakeTrans(ts)) == ts
  {
  }

  /** The longer of the two keys ends in the text the shorter one's timestamp starts with. */
  ghost predicate Overlap(k1: string, t1: string, k2: string, t2: string) {
    exists x: string :: OverlapOn(x, k1, t1, k2, t2)
  }

  predicate OverlapOn(x: string, k1: string, t1: string, k2: string, t2: string) {
    k1 == k2 + "_" + x && t2 == x + "_" + t1
  }

  /** The two names `makeData` gives are equal exactly for equal arguments or an underscore moved across. */
  lemma DataNamesMeet(k1: string, t1: string, k2: string, t2: string)
    ensures MakeData(k1, t1) == MakeData(k2, t2) <==>
            (k1 == k2 && t1 == t2) || Overlap(k1, t1, k2, t2) || Overlap(k2, t2, k1, t1)
  {
    if |k1| >= |k2| {
      DataNamesMeetLonger(k1, t1, k2, t2);
    } else {
      DataNamesMeetLonger(k2, t2, k1, t1);
    }
    OverlapMeets(k1, t1, k2, t2);
    OverlapMeets(k2, t2, k1, t1);
  }

  lemma OverlapMeets(k1: string, t1: string, k2: string, t2: string)
    ensures Overlap(k1, t1, k2, t2) ==> MakeData(k1, t1) == MakeData(k2, t2)
  {
  }

  lemma DataNamesMeetLonger(k1: string, t1: string, k2: string, t2: string)
    requires |k1| >= |k2|
    ensures MakeData(k1, t1) == MakeData(k2, t2) ==> (k1 == k2 && t1 == t2) || Overlap(k1, t1, k2, t2)
  {
    var n1, n2 := MakeData(k1, t1), MakeData(k2, t2);
    if n1 == n2 {
      assert n1[5..] == k1 + "_" + t1 && n2[5..] == k2 + "_" + t2;
      var tail1, tail2 := k1 + "_" + t1, k2 + "_" + t2;
      assert k2 == tail2[..|k2|] == tail1[..|k2|] == k1[..|k2|];
      if |k1| == |k2| {
        assert t1 == tail1[|k1| + 1..] && t2 == tail2[|k2| + 1..];
      } else {
        assert k1[|k2|] == tail1[|k2|] == tail2[|k2|] == '_';
        var x := k1[|k2| + 1..];
        assert k1 == k2 + "_" + x;
        assert t2 == tail2[|k2| + 1..] == tail1[|k2| + 1..] == x + "_" + t1;
        assert OverlapOn(x, k1, t1, k2, t2);
      }
    }
  }

  /** A head's name is the version name with "entry" for a timestamp. */
  lemma HeadMeetsVersion(k1: string, k2: string, ts: string)
    requires '_' !in ts
    ensures MakeDataEntry(k1) == MakeData(k2, ts) <==> k1 == k2 && ts == "entry"
  {
    assert MakeDataEntry(k1) == MakeData(k1, "entry");
    DataNamesMeet(k1, "entry", k2, ts);
    NoOverlap(k1, "entry", k2, ts);
    NoOverlap(k2, ts, k1, "entry");
  }

  lemma NoOverlap(k1: string, t1: string, k2: string, t2: string)
    requires '_' !in t2
    ensures !Overlap(k1, t1, k2, t2)
  {
  }

  /** The names as the diagram of the store and its source write them. */
  lemma NamesAsWritten()
    ensures MakeTrans("ts1") == "trans_ts1" && MakeLock("key1") == "lock_key1"
    ensures MakeDataEntry("key1") == "data_key1_entry" && MakeData("key1", "Trans1") == "data_key1_Trans1"
  {
  }

  /** Without the condition on timestamps two keys share a version record. */
  lemma DataNamesClash()
    ensures MakeData("a", "b_c") == MakeData("a_b", "c")
    ensures MakeData("a", "entry") == MakeDataEntry("a")
  {
  }

  /** With it, no two addresses share a name. */
  lemma NamesDistinct(a: Slot, b: Slot)
    requires GoodSlot(a) && GoodSlot(b)
    ensures Name(a) == Name(b) <==> a == b
  {
    assert Name(a)[0] == if a.TransSlot? then 't' else if a.LockSlot? then 'l' else 'd';
    assert Name(b)[0] == if b.TransSlot? then 't' else if b.LockSlot? then 'l' else 'd';
    if Name(a) == Name(b) {
      match (a, b) {
        case (TransSlot(t1), TransSlot(t2)) =>
          ParseTransInverts(t1);
          ParseTransInverts(t2);
        case (LockSlot(k1), LockSlot(k2)) =>
          assert MakeLock(k1)[5..] == k1 && MakeLock(k2)[5..] == k2;
        case (HeadSlot(k1), HeadSlot(k2)) =>
          HeadMeetsVersion(k1, k2, "entry");
          assert MakeDataEntry(k2) == MakeData(k2, "entry");
        case (HeadSlot(k1), VersionSlot(k2, t)) => HeadMeetsVersion(k1, k2, t);
        case (VersionSlot(k2, t), HeadSlot(k1)) => HeadMeetsVersion(k1, k2, t);
        case (VersionSlot(k1, t1), VersionSlot(k2, t2)) =>
          DataNamesMeet(k1, t1, k2, t2);
          NoOverlap(k1, t1, k2, t2);
          NoOverlap(k2, t2, k1, t1);
        case _ => assert false;
      }
    }
  }

  /** Only transaction records have names under "trans_". */
  lemma TransPrefix(s: Slot)
    ensures TRANS_PREFIX <= Name(s) <==> s.TransSlot?
  {
    assert Name(s)[0] == if s.TransSlot? then 't' else if s.LockSlot? then 'l' else 'd';
    if TRANS_PREFIX <= Name(s) {
      assert Name(s)[0] == TRANS_PREFIX[0];
    }
  }
}
