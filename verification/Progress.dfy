/** What can still be done: a commit can be carried through, and an outcome can reach whoever waits for it. */
module Progress {
  import opened Text
  import opened Sequences
  import opened Records
  import opened Polling
  import opened Commitment
  import opened Atomicity
  import opened Mishaps
  import opened Failures

  // ----- outcomes spread -----

  /** `h` has heard from `g` alone. */
  function HeardFrom(members: seq<nat>, g: nat, r: Reply): seq<Option<Reply>> {
    seq(|members|, i requires 0 <= i < |members| => if members[i] == g then Some(r) else None)
  }

  /** Once one participant has an outcome, any prepared one can get it: it asks, and follows. */
  lemma OutcomeSpreads(es: seq<Event>, w: World, g: nat, h: nat) returns (later: seq<Event>, w': World)
    requires Runs(INITIAL, es, w) && g in w.began && g in w.recs && w.recs[g].Finished() && InState(w, h, Prepared)
    ensures Runs(w, later, w') && h in w'.recs
    ensures w'.recs[h] == if InState(w, g, RolledBack) then w.recs[h].(state := RolledBack)
                          else w.recs[h].(state := Committed, commitTs := w.recs[g].commitTs)
  {
    ReachedKeepsInv(es, w);
    var mid := Apply(w, AnswerQuery(g));
    StepKeepsInv(w, AnswerQuery(g));
    RunsStep(w, AnswerQuery(g));
    var e := Ask(mid, g, h);
    w' := Apply(mid, e);
    RunsStep(mid, e);
    RunsJoin(w, [AnswerQuery(g)], mid, [e], w');
    later := [AnswerQuery(g)] + [e];
  }

  lemma Ask(w: World, g: nat, h: nat) returns (e: Event)
    requires Inv(w) && g in w.began && g in w.recs && w.recs[g].Finished() && InState(w, h, Prepared)
    requires (g, ReplyOf(Some(w.recs[g]))) in w.replies
    ensures Allowed(w, e) && e.PollRound? && e.h == h
    ensures Apply(w, e).recs[h] == if InState(w, g, RolledBack) then w.recs[h].(state := RolledBack)
                                   else w.recs[h].(state := Committed, commitTs := w.recs[g].commitTs)
  {
    var t, r := w.recs[h], ReplyOf(Some(w.recs[g]));
    assert RecOk(w, h);
    BegunIsListed(w, g);
    LeRefl(w.clock);
    e := PollRound(h, HeardFrom(t.members, g, r), w.clock);
    HeardOneDecides(t, h, g, r, w.clock);
    AssertionHolds(w, h, e.heard, w.clock);
  }

  lemma HeardOneDecides(t: Trans, h: nat, g: nat, r: Reply, now: string)
    requires g in t.members && g != h && (r.state.Committed? || r.state.RolledBack?)
    ensures var round := Poll(t, h, HeardFrom(t.members, g, r), now);
            if r.state.RolledBack? then round == RollsBack else round in {Commits(r.ts), AssertFails}
  {
    var heard := HeardFrom(t.members, g, r);
    var i :| 0 <= i < |t.members| && t.members[i] == g;
    var k := FirstOutcome(t.members, h, heard, i);
    FirstOutcomeDecides(t, h, heard, now, k);
  }

  // ----- a commit carried through -----

  lemma {:induction false} ListOf(s: set<nat>) returns (list: seq<nat>)
    ensures NoRepeats(list) && (set h | h in list) == s
  {
    if s == {} {
      list := [];
    } else {
      var h :| h in s;
      var rest := ListOf(s - {h});
      list := [h] + rest;
      assert forall x :: x in rest <==> x in s - {h} by {
        assert forall x :: x in rest <==> x in (set y | y in rest);
      }
    }
  }

  /** The request to prepare is on its way to an open participant, and its answer will be read as such. */
  predicate Reachable(w: World, h: nat) {
    InState(w, h, Begin) && h in w.inbox
  }

  predicate Served(w: World, h: nat) {
    InState(w, h, Prepared) && (h, 0) in w.answers
  }

  lemma {:induction false} SendAll(w: World) returns (es: seq<Event>, w': World)
    requires Inv(w) && w.phase.Preparing?
    ensures Runs(w, es, w') && Inv(w')
    ensures w' == w.(toSend := [], inbox := w.inbox + set h | h in w.toSend)
    decreases |w.toSend|
  {
    if w.toSend == [] {
      es, w' := [], w;
      assert w == w.(toSend := [], inbox := w.inbox + set h | h in w.toSend);
    } else {
      StepKeepsInv(w, SendPrepare);
      RunsStep(w, SendPrepare);
      es, w' := SendAll(Apply(w, SendPrepare));
      RunsJoin(w, [SendPrepare], Apply(w, SendPrepare), es, w');
      es := [SendPrepare] + es;
      OneMoreSent(w.inbox, w.toSend);
    }
  }

  lemma OneMoreSent(inbox: set<nat>, toSend: seq<nat>)
    requires toSend != []
    ensures inbox + (set h | h in toSend) == (inbox + {toSend[0]}) + set h | h in toSend[1..]
  {
    assert toSend == [toSend[0]] + toSend[1..];
  }

  /** What serving prepares and collecting answers leaves as it is. */
  predicate SamePlan(w: World, w': World) {
    w'.plan == w.plan && w'.phase == w.phase && w'.toSend == w.toSend && w'.unread == w.unread && w'.began == w.began
  }

  lemma ServeNext(w: World, h: nat)
    requires Inv(w) && Reachable(w, h)
    ensures var e := ServePrepare(h, true); var w' := Apply(w, e);
            && Allowed(w, e) && Inv(w') && Served(w', h) && SamePlan(w, w') && w'.results == w.results
            && (forall g :: g != h && Served(w, g) ==> Served(w', g))
            && (forall g :: g != h && Reachable(w, g) ==> Reachable(w', g))
  {
    assert PendingOk(w, h);
    StepKeepsInv(w, ServePrepare(h, true));
  }

  lemma {:induction false} ServeList(w: World, list: seq<nat>, n: nat) returns (es: seq<Event>, w': World)
    requires Inv(w) && NoRepeats(list) && n <= |list| && ServedUpTo(w, list, 0)
    ensures Runs(w, es, w') && Inv(w') && SamePlan(w, w') && w'.results == w.results
    ensures ServedUpTo(w', list, n)
  {
    if n == 0 {
      es, w' := [], w;
    } else {
      var before, mid := ServeList(w, list, n - 1);
      var e := ServeOneMore(mid, list, n - 1);
      RunOneMore(w, before, mid, e);
      es, w' := before + [e], Apply(mid, e);
    }
  }

  /** The first `n` of the list have prepared and answered, the requests to the others are on their way. */
  predicate ServedUpTo(w: World, list: seq<nat>, n: nat) {
    forall i :: 0 <= i < |list| ==> if i < n then Served(w, list[i]) else Reachable(w, list[i])
  }

  lemma ServeOneMore(w: World, list: seq<nat>, n: nat) returns (e: Event)
    requires Inv(w) && NoRepeats(list) && n < |list| && ServedUpTo(w, list, n)
    ensures Allowed(w, e) && Inv(Apply(w, e)) && SamePlan(w, Apply(w, e)) && Apply(w, e).results == w.results
    ensures ServedUpTo(Apply(w, e), list, n + 1)
  {
    e := ServePrepare(list[n], true);
    ServeNext(w, list[n]);
  }

  /** The answers of the first `n` of the list have been read, and all were a success. */
  predicate CollectedUpTo(w: World, list: seq<nat>, n: nat)
    requires n <= |list|
  {
    && (forall h :: h in w.results ==> exists i :: 0 <= i < n && list[i] == h)
    && (forall i :: 0 <= i < n ==> list[i] in w.results && w.results[list[i]] == 0)
  }

  lemma CollectNext(w: World, list: seq<nat>, n: nat)
    requires Inv(w) && Collecting(w) && w.plan.value.list == list && NoRepeats(list) && n < |list|
    requires NothingUnread(w) && Served(w, list[n]) && CollectedUpTo(w, list, n)
    ensures var e := Collect(list[n], 0);
            && Allowed(w, e) && Inv(Apply(w, e)) && CollectedUpTo(Apply(w, e), list, n + 1)
            && Apply(w, e) == w.(results := Apply(w, e).results)
  {
    assert InList(w, list[n]);
    BegunIsListed(w, list[n]);
    assert list[n] !in w.results;
    StepKeepsInv(w, Collect(list[n], 0));
    OneMoreCollected(w, list, n);
  }

  lemma OneMoreCollected(w: World, list: seq<nat>, n: nat)
    requires NoRepeats(list) && n < |list| && CollectedUpTo(w, list, n)
    ensures CollectedUpTo(w.(results := w.results[list[n] := 0]), list, n + 1)
  {
    assert forall i :: 0 <= i < n ==> list[i] != list[n];
  }

  lemma {:induction false} CollectList(w: World, list: seq<nat>, n: nat) returns (es: seq<Event>, w': World)
    requires Inv(w) && Collecting(w) && w.plan.value.list == list && NoRepeats(list) && n <= |list|
    requires w.results == map[]
    requires NothingUnread(w) && forall i :: 0 <= i < |list| ==> Served(w, list[i])
    ensures Runs(w, es, w') && Inv(w') && w' == w.(results := w'.results)
    ensures CollectedUpTo(w', list, n)
  {
    if n == 0 {
      es, w' := [], w;
      assert w == w.(results := w.results);
    } else {
      var before, mid := CollectList(w, list, n - 1);
      var e := Collect(list[n - 1], 0);
      CollectNext(mid, list, n - 1);
      RunOneMore(w, before, mid, e);
      es, w' := before + [e], Apply(mid, e);
    }
  }

  lemma CommitNext(w: World, h: nat) returns (e: Event)
    requires Inv(w) && InList(w, h) && InState(w, h, Prepared)
    requires AllAnswered(w)
    ensures Allowed(w, e) && Inv(Apply(w, e)) && InState(Apply(w, e), h, Committed) && AllAnswered(Apply(w, e))
    ensures var w' := Apply(w, e); SamePlan(w, w') && w'.results == w.results
    ensures forall g :: g != h && g in w.recs ==> g in Apply(w, e).recs && Apply(w, e).recs[g] == w.recs[g]
  {
    e := HearsAllCommits(w, h);
    StepKeepsInv(w, e);
    StepGrows(w, e, h);
    RoundKeepsAnswers(w, e);
  }

  lemma RoundKeepsAnswers(w: World, e: Event)
    requires Allowed(w, e) && e.PollRound? && AllAnswered(w)
    ensures AllAnswered(Apply(w, e))
  {
    var w' := Apply(w, e);
    forall i | 0 <= i < |w'.plan.value.list| ensures Answered(w', w'.plan.value.list[i]) {
      assert Answered(w, w.plan.value.list[i]);
    }
  }

  predicate AllAnswered(w: World) {
    w.plan.Some? && forall i :: 0 <= i < |w.plan.value.list| ==> Answered(w, w.plan.value.list[i])
  }

  /** The first `n` of the list have committed, the others have prepared. */
  predicate CommittedUpTo(w: World, list: seq<nat>, n: nat) {
    forall i :: 0 <= i < |list| ==> InState(w, list[i], if i < n then Committed else Prepared)
  }

  lemma OneMoreCommitted(w: World, w': World, list: seq<nat>, n: nat)
    requires NoRepeats(list) && n < |list| && CommittedUpTo(w, list, n) && InState(w', list[n], Committed)
    requires forall g :: g != list[n] && g in w.recs ==> g in w'.recs && w'.recs[g] == w.recs[g]
    ensures CommittedUpTo(w', list, n + 1)
  {
    forall i | 0 <= i < |list| ensures InState(w', list[i], if i < n + 1 then Committed else Prepared) {
      assert InState(w, list[i], if i < n then Committed else Prepared);
      assert i != n ==> list[i] != list[n];
    }
  }

  lemma {:induction false} CommitList(w: World, n: nat) returns (es: seq<Event>, w': World)
    requires Inv(w) && AllAnswered(w) && n <= |w.plan.value.list| && NoRepeats(w.plan.value.list)
    requires CommittedUpTo(w, w.plan.value.list, 0)
    ensures Runs(w, es, w') && Inv(w') && SamePlan(w, w') && w'.results == w.results && AllAnswered(w')
    ensures CommittedUpTo(w', w.plan.value.list, n)
  {
    if n == 0 {
      es, w' := [], w;
    } else {
      var before, mid := CommitList(w, n - 1);
      var e := CommitOneMore(mid, n - 1);
      RunOneMore(w, before, mid, e);
      es, w' := before + [e], Apply(mid, e);
    }
  }

  lemma CommitOneMore(w: World, n: nat) returns (e: Event)
    requires Inv(w) && AllAnswered(w) && n < |w.plan.value.list| && NoRepeats(w.plan.value.list)
    requires CommittedUpTo(w, w.plan.value.list, n)
    ensures Allowed(w, e) && Inv(Apply(w, e)) && SamePlan(w, Apply(w, e)) && Apply(w, e).results == w.results
    ensures AllAnswered(Apply(w, e)) && CommittedUpTo(Apply(w, e), w.plan.value.list, n + 1)
  {
    var h := w.plan.value.list[n];
    assert InList(w, h) && InState(w, h, if n < n then Committed else Prepared);
    e := CommitNext(w, h);
    OneMoreCommitted(w, Apply(w, e), w.plan.value.list, n);
  }

  /** The participants are all open when the client asks for the commit, and owe no response. */
  predicate ReadyToCommit(w: World) {
    && w.phase.Working? && w.clock != "" && w.began != {}
    && forall h :: h in w.began ==> InState(w, h, Begin) && h !in w.unread
  }

  /** From any point at which all participants are open the commit can be carried through: every one is asked,
      prepares and answers, the client is told of success, and every one commits. */
  lemma CommitCanSucceed(es: seq<Event>, w: World) returns (later: seq<Event>, w': World)
    requires Runs(INITIAL, es, w) && ReadyToCommit(w)
    ensures Runs(w, later, w') && w'.phase == Told(0) && w'.began == w.began && AllAnsweredYes(w')
    ensures forall h :: h in w.began ==> InState(w', h, Committed)
  {
    ReachedKeepsInv(es, w);
    var first, told := ToldAfterAll(w);
    var second;
    second, w' := AllCommit(told);
    RunsJoin(w, first, told, second, w');
    later := first + second;
  }

  lemma StartAll(w: World) returns (es: seq<Event>, w': World)
    requires Inv(w) && ReadyToCommit(w)
    ensures Runs(w, es, w') && Inv(w') && Collecting(w') && NoRepeats(w'.plan.value.list)
    ensures w'.began == w.began && w'.unread == w.unread && w'.results == map[]
    ensures forall i :: 0 <= i < |w'.plan.value.list| ==> Reachable(w', w'.plan.value.list[i])
  {
    var list := ListOf(w.began);
    var e := StartCommit(list);
    StepKeepsInv(w, e);
    RunsStep(w, e);
    var sent;
    sent, w' := SendAll(Apply(w, e));
    RunsJoin(w, [e], Apply(w, e), sent, w');
    es := [e] + sent;
    forall i | 0 <= i < |list| ensures Reachable(w', list[i]) {
      BegunIsListed(w', list[i]);
    }
  }

  lemma ServeAndCollect(w: World) returns (es: seq<Event>, w': World)
    requires Inv(w) && Collecting(w) && NoRepeats(w.plan.value.list) && NothingUnread(w) && w.results == map[]
    requires forall i :: 0 <= i < |w.plan.value.list| ==> Reachable(w, w.plan.value.list[i])
    ensures Runs(w, es, w') && Inv(w') && w'.plan == w.plan && w'.began == w.began && w'.phase == w.phase
    ensures w'.toSend == [] && CommittedUpTo(w', w.plan.value.list, 0)
    ensures forall h :: InList(w, h) ==> h in w'.results && w'.results[h] == 0
  {
    var list := w.plan.value.list;
    var first, mid := ServeList(w, list, |list|);
    var second;
    second, w' := CollectList(mid, list, |list|);
    RunsJoin(w, first, mid, second, w');
    es := first + second;
    forall i | 0 <= i < |list| ensures InState(w', list[i], Prepared) {
      assert Served(mid, list[i]);
    }
  }

  lemma ToldAfterAll(w: World) returns (es: seq<Event>, w': World)
    requires Inv(w) && ReadyToCommit(w)
    ensures Runs(w, es, w') && Inv(w') && w'.phase == Told(0) && w'.began == w.began && AllAnsweredYes(w')
    ensures w'.plan.Some? && NoRepeats(w'.plan.value.list) && CommittedUpTo(w', w'.plan.value.list, 0)
  {
    var first, mid := StartAll(w);
    var second, ready := ServeAndCollect(mid);
    RunsJoin(w, first, mid, second, ready);
    TellKeeps(ready);
    RunOneMore(w, first + second, ready, Tell);
    es, w' := first + second + [Tell], Apply(ready, Tell);
  }

  lemma TellKeeps(w: World)
    requires Inv(w) && Collecting(w) && forall h :: InList(w, h) ==> h in w.results && w.results[h] == 0
    ensures Allowed(w, Tell) && Inv(Apply(w, Tell)) && AllAnsweredYes(Apply(w, Tell))
  {
    StepKeepsInv(w, Tell);
    CollectedYes(Apply(w, Tell));
  }

  lemma CollectedYes(w: World)
    requires PlanCovers(w) && w.plan.Some? && forall h :: InList(w, h) ==> h in w.results && w.results[h] == 0
    ensures AllAnsweredYes(w)
  {
    forall h | h in w.began ensures h in w.results && w.results[h] == 0 {
      BegunIsListed(w, h);
    }
  }

  lemma AllCommit(w: World) returns (es: seq<Event>, w': World)
    requires Inv(w) && w.plan.Some? && NoRepeats(w.plan.value.list)
    requires CommittedUpTo(w, w.plan.value.list, 0)
    ensures Runs(w, es, w') && SamePlan(w, w') && w'.results == w.results
    ensures forall h :: h in w.began ==> InState(w', h, Committed)
  {
    var list := w.plan.value.list;
    forall h | InList(w, h) ensures InState(w, h, Prepared) {
      var i :| 0 <= i < |list| && list[i] == h;
      assert InState(w, list[i], if i < 0 then Committed else Prepared);
    }
    var first, mid := AnswerAll(w, |list|);
    var second;
    second, w' := CommitList(mid, |list|);
    RunsJoin(w, first, mid, second, w');
    es := first + second;
    forall h | h in w.began ensures InState(w', h, Committed) {
      BegunIsListed(w, h);
      var i :| 0 <= i < |list| && list[i] == h;
      assert InState(w', list[i], if i < |list| then Committed else Prepared);
    }
  }
}
