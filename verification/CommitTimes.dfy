/** At which timestamps the participants of one transaction commit. */
module CommitTimes {
  import opened Text
  import opened Records
  import opened Polling
  import opened Commitment

  lemma OneCommitTs(w: World, h: nat, g: nat)
    requires Inv(w) && InState(w, h, Committed) && InState(w, g, Committed)
    requires forall x :: InList(w, x) ==> !SelfTsIs(w, x, "")
    ensures w.recs[g].commitTs == w.recs[h].commitTs && exists x :: SelfTsIs(w, x, w.recs[h].commitTs)
  {
    assert RecOk(w, h) && RecOk(w, g);
    var ts, ts' := w.recs[h].commitTs, w.recs[g].commitTs;
    assert CommitTsOk(w, ts) && CommitTsOk(w, ts');
    forall x ensures !SelfTsIs(w, x, "") {
      assert SelfTsIs(w, x, "") ==> InList(w, x);
    }
    var x :| SelfTsIs(w, x, ts);
    var x' :| SelfTsIs(w, x', ts');
    LeTotal(ts, ts');
  }

  /** All participants that commit do so at one timestamp, the largest any of them took itself,
      provided none lost its own in a crash. */
  lemma CommitTimestampsAgree(es: seq<Event>, w: World, h: nat, g: nat)
    requires Runs(INITIAL, es, w) && InState(w, h, Committed) && InState(w, g, Committed)
    requires forall x :: InList(w, x) ==> !SelfTsIs(w, x, "")
    ensures w.recs[h].commitTs == w.recs[g].commitTs
    ensures forall x :: InList(w, x) && x in w.recs ==> Le(w.recs[x].selfTs, w.recs[h].commitTs)
    ensures exists x :: SelfTsIs(w, x, w.recs[h].commitTs)
  {
    ReachedKeepsInv(es, w);
    OneCommitTs(w, h, g);
    assert CommitTsOk(w, w.recs[h].commitTs);
  }

  /** What a participant commits with is never below its own timestamp and never ahead of the clock. */
  lemma CommitTimestampBounds(es: seq<Event>, w: World, h: nat)
    requires Runs(INITIAL, es, w) && InState(w, h, Committed)
    ensures Le(w.recs[h].selfTs, w.recs[h].commitTs) && Le(w.recs[h].commitTs, w.clock)
  {
    ReachedKeepsInv(es, w);
    assert RecOk(w, h) && CommitTsOk(w, w.recs[h].commitTs);
  }

  /** `max` is the largest own timestamp of all participants. */
  ghost predicate LargestOwn(w: World, max: string) {
    (exists x :: SelfTsIs(w, x, max)) && forall x :: InList(w, x) && x in w.recs ==> Le(w.recs[x].selfTs, max)
  }

  lemma CountReachesAll(w: World, h: nat, heard: seq<Option<Reply>>, now: string, ts: string, x: nat)
    requires Inv(w) && Allowed(w, PollRound(h, heard, now)) && InList(w, x) && x in w.recs
    requires ByCount(w.recs[h].members, h, heard, Seed(w.recs[h], now), ts)
    ensures Le(w.recs[x].selfTs, ts)
  {
    CountJustified(w, h, heard, now, ts);
  }

  lemma CountIsHeard(w: World, h: nat, heard: seq<Option<Reply>>, now: string, ts: string) returns (x: nat)
    requires Inv(w) && Allowed(w, PollRound(h, heard, now))
    requires ByCount(w.recs[h].members, h, heard, Seed(w.recs[h], now), ts)
    ensures ts == Seed(w.recs[h], now) || SelfTsIs(w, x, ts)
  {
    var members := w.recs[h].members;
    assert RecOk(w, h);
    x := h;
    if ts != Seed(w.recs[h], now) {
      var i :| 0 <= i < |members| && Says(members, h, heard, i, Prepared) && heard[i].value.ts == ts;
      x := members[i];
      assert ReplyOk(w, x, heard[i].value);
    }
  }

  /** Counting everyone prepared, a participant commits with the largest own timestamp of them all, except
      exactly that one which lost its own commits with its clock if that has passed the largest. */
  lemma CountedTimestampExactly(
    es: seq<Event>, w: World, h: nat, heard: seq<Option<Reply>>, now: string, ts: string, max: string)
    requires Runs(INITIAL, es, w) && Allowed(w, PollRound(h, heard, now))
    requires ByCount(w.recs[h].members, h, heard, Seed(w.recs[h], now), ts)
    requires LargestOwn(w, max)
    ensures ts == if w.recs[h].selfTs == "" && Less(max, now) then now else max
  {
    ReachedKeepsInv(es, w);
    CountedIn(w, h, heard, now, ts, max);
  }

  lemma CountedIn(w: World, h: nat, heard: seq<Option<Reply>>, now: string, ts: string, max: string)
    requires Inv(w) && Allowed(w, PollRound(h, heard, now))
    requires ByCount(w.recs[h].members, h, heard, Seed(w.recs[h], now), ts)
    requires LargestOwn(w, max)
    ensures ts == if w.recs[h].selfTs == "" && Less(max, now) then now else max
  {
    CountBetween(w, h, heard, now, ts, max);
    LargestHeard(w.recs[h].selfTs, now, ts, max);
  }

  lemma CountBetween(w: World, h: nat, heard: seq<Option<Reply>>, now: string, ts: string, max: string)
    requires Inv(w) && Allowed(w, PollRound(h, heard, now))
    requires ByCount(w.recs[h].members, h, heard, Seed(w.recs[h], now), ts)
    requires LargestOwn(w, max)
    ensures Le(w.recs[h].selfTs, max) && Le(max, ts) && Le(Seed(w.recs[h], now), ts)
    ensures ts == Seed(w.recs[h], now) || Le(ts, max)
  {
    assert RecOk(w, h) && InList(w, h);
    var x :| SelfTsIs(w, x, max);
    CountReachesAll(w, h, heard, now, ts, x);
    var y := CountIsHeard(w, h, heard, now, ts);
  }

  lemma LargestHeard(own: string, now: string, ts: string, max: string)
    requires Le(own, max) && Le(max, ts)
    requires var seed := if own == "" then now else own; Le(seed, ts) && (ts == seed || Le(ts, max))
    ensures ts == if own == "" && Less(max, now) then now else max
  {
    LeTotal(max, ts);
  }
}
