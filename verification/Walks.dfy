/** When the walk down a key's versions ends, whoever has written the key, in whatever order, and whatever
    database calls have failed. */
module Walks {
  import opened Timestamps
  import opened Sequences
  import opened Records
  import opened Tables
  import opened Operations
  import opened Histories

  /** Who has written the key, in order, several writes of one transaction in a row being one turn; and whether
      the newest turn has been stored under its own name, by a write that failed in its second put. */
  datatype Turns = Turns(names: seq<string>, half: bool)
  {
    predicate Newest(ts: string) {
      names != [] && names[|names| - 1] == ts
    }

    /** The turns that have a record of their own. */
    function Stored(): seq<string> {
      if half then names else Older(names)
    }
  }

  function Older(names: seq<string>): seq<string> {
    if names == [] then [] else names[..|names| - 1]
  }

  /** A write whose get fails starts the turns anew. */
  function TurnsAfter(turns: Turns, w: Write): Turns {
    if w.io.putFails then turns
    else if w.io.getFails then Turns([w.ts], false)
    else if turns.Newest(w.ts) then turns
    else if turns.names != [] && w.io.put2Fails then turns.(half := true)
    else Turns(turns.names + [w.ts], false)
  }

  function TurnsOf(log: seq<Write>, key: string): Turns {
    if log == [] then Turns([], false)
    else
      var past, w := TurnsOf(log[..|log| - 1], key), log[|log| - 1];
      if w.key == key then TurnsAfter(past, w) else past
  }

  /** The last turn of `ts`, or -1. */
  function LastTurn(names: seq<string>, ts: string): (n: int)
    ensures -1 <= n < |names|
    ensures n >= 0 ==> names[n] == ts
    ensures forall i :: n < i < |names| ==> names[i] != ts
  {
    if names == [] then -1
    else if names[|names| - 1] == ts then |names| - 1
    else LastTurn(Older(names), ts)
  }

  function TurnBefore(names: seq<string>, n: nat): string
    requires n < |names|
  {
    if n == 0 then "" else names[n - 1]
  }

  /** The record stored for `ts` is from its last stored turn, and names the turn before that. */
  predicate KeptFrom(versions: map<(string, string), Data>, key: string, turns: Turns, ts: string) {
    var n := LastTurn(turns.Stored(), ts);
    n >= 0 ==>
      && (key, ts) in versions && versions[(key, ts)].version == ts
      && versions[(key, ts)].next == TurnBefore(turns.names, n)
  }

  ghost predicate StoredTurns(t: Tables, key: string, turns: Turns) {
    var names := turns.names;
    && (key in t.heads <==> names != [])
    && (names != [] ==>
      t.heads[key].version == names[|names| - 1] && t.heads[key].next == TurnBefore(names, |names| - 1))
    && (forall i :: 0 <= i < |names| ==> names[i] != "")
    && forall ts :: KeptFrom(t.versions, key, turns, ts)
  }

  /** The entry is copied under its own name, which stores the newest turn. */
  lemma CopyStoresTurn(t: Tables, key: string, turns: Turns, versions: map<(string, string), Data>)
    requires StoredTurns(t, key, turns) && turns.names != []
    requires versions == t.versions[(key, t.heads[key].version) := t.heads[key]]
    ensures forall ts :: KeptFrom(versions, key, turns.(half := true), ts)
  {
    forall ts ensures KeptFrom(versions, key, turns.(half := true), ts) {
      assert KeptFrom(t.versions, key, turns, ts);
    }
  }

  lemma WriteStoresTurn(t: Tables, key: string, turns: Turns, w: Write)
    requires StoredTurns(t, key, turns) && w.key == key && GoodTs(w.ts)
    ensures StoredTurns(WriteOne(t, w).0, key, TurnsAfter(turns, w))
  {
    if w.io.putFails {
      WriteFails(t, w);
    } else if w.io.getFails || turns.names == [] {
      WriteStartsAnew(t, key, turns, w);
    } else if turns.Newest(w.ts) {
      WriteInPlace(t, key, turns, w);
    } else {
      WriteStoresOnto(t, key, turns, w);
    }
  }

  lemma WriteFails(t: Tables, w: Write)
    requires w.io.putFails
    ensures WriteOne(t, w).0 == t
  {
  }

  lemma WriteStartsAnew(t: Tables, key: string, turns: Turns, w: Write)
    requires StoredTurns(t, key, turns) && w.key == key && GoodTs(w.ts)
    requires !w.io.putFails && (w.io.getFails || turns.names == [])
    ensures StoredTurns(WriteOne(t, w).0, key, TurnsAfter(turns, w))
  {
    assert TurnsAfter(turns, w) == Turns([w.ts], false);
    assert WriteOne(t, w).0 == t.(heads := t.heads[key := Data(w.kind, w.value, "", w.ts)]);
  }

  lemma WriteInPlace(t: Tables, key: string, turns: Turns, w: Write)
    requires StoredTurns(t, key, turns) && w.key == key && !w.io.putFails && !w.io.getFails && turns.Newest(w.ts)
    ensures StoredTurns(WriteOne(t, w).0, key, TurnsAfter(turns, w))
  {
    assert WriteOne(t, w).0 == t.(heads := t.heads[key := t.heads[key].(kind := w.kind, value := w.value)]);
  }

  lemma WriteStoresOnto(t: Tables, key: string, turns: Turns, w: Write)
    requires StoredTurns(t, key, turns) && w.key == key && GoodTs(w.ts)
    requires !w.io.putFails && !w.io.getFails && turns.names != [] && !turns.Newest(w.ts)
    ensures StoredTurns(WriteOne(t, w).0, key, TurnsAfter(turns, w))
  {
    var copied := t.versions[(key, t.heads[key].version) := t.heads[key]];
    CopyStoresTurn(t, key, turns, copied);
    if !w.io.put2Fails {
      NewTurnKeepsStored(copied, key, turns, w.ts);
    }
  }

  lemma NewTurnKeepsStored(versions: map<(string, string), Data>, key: string, turns: Turns, ts: string)
    requires turns.names != [] && forall v :: KeptFrom(versions, key, turns.(half := true), v)
    ensures forall v :: KeptFrom(versions, key, Turns(turns.names + [ts], false), v)
  {
    assert Turns(turns.names + [ts], false).Stored() == turns.names;
    forall v ensures KeptFrom(versions, key, Turns(turns.names + [ts], false), v) {
      assert KeptFrom(versions, key, turns.(half := true), v);
    }
  }

  lemma OtherKeyKeepsTurns(t: Tables, key: string, turns: Turns, w: Write)
    requires StoredTurns(t, key, turns) && w.key != key
    ensures StoredTurns(WriteOne(t, w).0, key, turns)
  {
    forall ts ensures KeptFrom(WriteOne(t, w).0.versions, key, turns, ts) {
      assert KeptFrom(t.versions, key, turns, ts);
    }
  }

  lemma {:induction false} WritesStoreTurns(log: seq<Write>, key: string)
    requires GoodNames(log)
    ensures StoredTurns(WriteAll(log), key, TurnsOf(log, key))
  {
    if log != [] {
      var past, w := log[..|log| - 1], log[|log| - 1];
      WritesStoreTurns(past, key);
      if w.key == key {
        WriteStoresTurn(WriteAll(past), key, TurnsOf(past, key), w);
      } else {
        OtherKeyKeepsTurns(WriteAll(past), key, TurnsOf(past, key), w);
      }
    }
  }

  /** With no stored turn repeated the walk goes back turn by turn, to the first. */
  lemma {:induction false} WalkGoesBack(t: Tables, key: string, turns: Turns, n: nat)
    requires StoredTurns(t, key, turns) && NoRepeats(turns.Stored()) && n < |turns.names|
    ensures var d := VersionAt(t, key, n);
            d.Some? && d.value.next == TurnBefore(turns.names, |turns.names| - 1 - n)
  {
    if n > 0 {
      WalkGoesBack(t, key, turns, n - 1);
      var i := |turns.names| - 1 - n;
      assert turns.Stored()[i] == turns.names[i] && LastTurn(turns.Stored(), turns.names[i]) == i;
      assert KeptFrom(t.versions, key, turns, turns.names[i]);
    }
  }

  /** Where a stored turn comes up again later, the walk never gets below it. */
  lemma {:induction false} WalkStaysAbove(t: Tables, key: string, turns: Turns, low: nat, again: nat, n: nat)
    requires StoredTurns(t, key, turns)
    requires low < again < |turns.Stored()| && turns.names[low] == turns.names[again]
    ensures VersionAt(t, key, n).Some? && LastTurn(turns.Stored(), VersionAt(t, key, n).value.next) > low
  {
    if n == 0 {
      TurnStaysAbove(turns, low, again, |turns.names| - 2);
    } else {
      WalkStaysAbove(t, key, turns, low, again, n - 1);
      var ts := VersionAt(t, key, n - 1).value.next;
      assert KeptFrom(t.versions, key, turns, ts);
      TurnStaysAbove(turns, low, again, LastTurn(turns.Stored(), ts) - 1);
    }
  }

  lemma TurnStaysAbove(turns: Turns, low: nat, again: nat, k: nat)
    requires low < again < |turns.Stored()| && turns.names[low] == turns.names[again] && low <= k < |turns.Stored()|
    ensures LastTurn(turns.Stored(), turns.names[k]) > low
  {
    assert turns.Stored()[k] == turns.names[k] && turns.Stored()[again] == turns.names[again];
  }

  lemma WalkEnds(t: Tables, key: string, turns: Turns)
    requires StoredTurns(t, key, turns) && NoRepeats(turns.Stored())
    ensures VersionAt(t, key, |turns.names|).None?
  {
    if turns.names != [] {
      WalkGoesBack(t, key, turns, |turns.names| - 1);
    }
  }

  lemma WalkLoops(t: Tables, key: string, turns: Turns, n: nat)
    requires StoredTurns(t, key, turns) && !NoRepeats(turns.Stored())
    ensures VersionAt(t, key, n).Some?
  {
    var i, j :| 0 <= i < j < |turns.Stored()| && turns.Stored()[i] == turns.Stored()[j];
    WalkStaysAbove(t, key, turns, i, j, n);
  }

  /** The walk down the key comes to an end. */
  ghost predicate Ends(t: Tables, key: string) {
    exists n :: VersionAt(t, key, n).None?
  }

  /** After any history of writes to all keys, whichever of their database calls fail, the walk of `ReadData`
      down a key ends exactly when no transaction has two turns at writing it among those stored under their
      names: all but the newest, and the newest too once a later write has failed half-way. */
  lemma WalkEndsExactly(log: seq<Write>, key: string)
    requires GoodNames(log)
    ensures Ends(WriteAll(log), key) <==> NoRepeats(TurnsOf(log, key).Stored())
  {
    var t, turns := WriteAll(log), TurnsOf(log, key);
    WritesStoreTurns(log, key);
    if NoRepeats(turns.Stored()) {
      WalkEnds(t, key, turns);
    } else {
      forall n ensures VersionAt(t, key, n).Some? {
        WalkLoops(t, key, turns, n);
      }
    }
  }
}
