/** The written commits are optional: a run without its commit steps comes to the same verdict. */
module OptionalCommits {
  import opened Text
  import opened Records
  import opened Polling
  import opened Commitment
  import opened Atomicity

  predicate CommitStep(w: World, e: Event) {
    e.PollRound? && Allowed(w, e) && Poll(w.recs[e.h], e.h, e.heard, e.now).Commits?
  }

  /** The run `es` from `w` on, less the steps by which a participant writes that it has committed. */
  function WithoutCommits(w: World, es: seq<Event>): seq<Event>
    decreases es
  {
    if es == [] || !Allowed(w, es[0]) then []
    else (if CommitStep(w, es[0]) then [] else [es[0]]) + WithoutCommits(Apply(w, es[0]), es[1..])
  }

  function Stripped(recs: map<nat, Trans>): map<nat, Trans> {
    map h | h in recs :: WithoutOutcome(recs[h])
  }

  lemma StrippedSet(recs: map<nat, Trans>, h: nat, t: Trans)
    ensures Stripped(recs[h := t]) == Stripped(recs)[h := WithoutOutcome(t)]
  {
  }

  /** `v` is `w` with nothing committed, and nothing heard of commits. */
  predicate Shadows(v: World, w: World) {
    v == w.(recs := Stripped(w.recs), replies := v.replies) && forall r :: r in w.replies && !r.1.state.Committed? ==>
      r in v.replies
  }

  /** A round that hears of a commit commits. */
  lemma HeardCommitDecides(w: World, h: nat, heard: seq<Option<Reply>>, now: string, i: nat)
    requires Inv(w) && Allowed(w, PollRound(h, heard, now)) && i < |heard| && heard[i].Some?
    requires heard[i].value.state.Committed?
    ensures CommitStep(w, PollRound(h, heard, now))
  {
    var t := w.recs[h];
    assert RecOk(w, h) && ReplyOk(w, t.members[i], heard[i].value) && InState(w, t.members[i], Committed);
    assert SaysOutcome(t.members, h, heard, i);
    UndecidedExactly(t, h, heard, now);
    AssertionHolds(w, h, heard, now);
    forall g | InList(w, g) ensures !InState(w, g, RolledBack) {
      assert Holds(w, g);
    }
    if Poll(t, h, heard, now) == RollsBack {
      var g := PollRollsBack(w, h, heard, now);
      assert false;
    }
  }

  lemma PollShadows(v: World, w: World, e: Event)
    requires Inv(w) && Allowed(w, e) && Shadows(v, w) && e.PollRound? && !CommitStep(w, e)
    ensures Allowed(v, e) && Shadows(Apply(v, e), Apply(w, e))
  {
    var members := w.recs[e.h].members;
    forall i | 0 <= i < |members| && e.heard[i].Some? ensures (members[i], e.heard[i].value) in v.replies {
      if e.heard[i].value.state.Committed? {
        HeardCommitDecides(w, e.h, e.heard, e.now, i);
      }
    }
    assert v.recs[e.h] == w.recs[e.h];
    assert Apply(v, e).recs == Stripped(Apply(w, e).recs);
  }

  predicate ServesPrepare(e: Event) {
    e.ServePrepare? || e.CrashInPrepare? || e.ServeBegin? || e.RollBackOpen?
  }

  lemma ServeShadows(v: World, w: World, e: Event)
    requires Inv(w) && Allowed(w, e) && Shadows(v, w) && ServesPrepare(e)
    ensures Allowed(v, e) && Shadows(Apply(v, e), Apply(w, e))
  {
    assert e.ServePrepare? || e.CrashInPrepare? ==> PendingOk(w, e.h);
    var w' := Apply(w, e);
    assert e.h in w.recs && !w.recs[e.h].state.Committed? ==> v.recs[e.h] == w.recs[e.h];
    if e.h in w'.recs {
      StrippedSet(w.recs, e.h, w'.recs[e.h]);
      assert w'.recs == w.recs[e.h := w'.recs[e.h]] || w'.recs == w.recs;
    }
  }

  lemma MessageShadows(v: World, w: World, e: Event)
    requires Allowed(w, e) && Shadows(v, w) && (MovesMessages(e) || e.StartCommit?)
    ensures Allowed(v, e) && Shadows(Apply(v, e), Apply(w, e))
  {
    if e.AnswerQuery? && e.h in w.recs && !w.recs[e.h].state.Committed? {
      assert v.recs[e.h] == w.recs[e.h];
    }
  }

  /** A step of the run is one of the shorter run too, unless it commits; then the shorter run stays. */
  lemma StepShadows(v: World, w: World, e: Event)
    requires Inv(w) && Allowed(w, e) && Shadows(v, w)
    ensures if CommitStep(w, e) then Shadows(v, Apply(w, e)) else Allowed(v, e) && Shadows(Apply(v, e), Apply(w, e))
  {
    if CommitStep(w, e) {
      var t := w.recs[e.h];
      assert RecOk(w, e.h) && WithoutOutcome(Settle(t, Poll(t, e.h, e.heard, e.now))) == t == WithoutOutcome(t);
      StrippedSet(w.recs, e.h, Apply(w, e).recs[e.h]);
      assert Stripped(w.recs)[e.h := t] == Stripped(w.recs);
    } else if e.PollRound? {
      PollShadows(v, w, e);
    } else if ServesPrepare(e) {
      ServeShadows(v, w, e);
    } else {
      MessageShadows(v, w, e);
    }
  }

  lemma {:induction false} RunShadows(v: World, w: World, es: seq<Event>, w': World) returns (v': World)
    requires Inv(w) && Runs(w, es, w') && Shadows(v, w)
    ensures Runs(v, WithoutCommits(w, es), v') && Shadows(v', w')
    decreases es
  {
    if es == [] {
      v' := v;
    } else {
      var e, rest := es[0], WithoutCommits(Apply(w, es[0]), es[1..]);
      StepKeepsInv(w, e);
      StepShadows(v, w, e);
      if CommitStep(w, e) {
        v' := RunShadows(v, Apply(w, e), es[1..], w');
        assert WithoutCommits(w, es) == rest;
      } else {
        v' := RunShadows(Apply(v, e), Apply(w, e), es[1..], w');
        assert WithoutCommits(w, es) == [e] + rest && ([e] + rest)[1..] == rest;
      }
    }
  }

  /** Take from any run every step that writes a commit: what is left is a run, nobody has committed at its
      end, the client has been told the same, and the records come to the same verdict. */
  lemma CommitsAreOptional(es: seq<Event>, w: World) returns (v: World)
    requires Runs(INITIAL, es, w)
    ensures Runs(INITIAL, WithoutCommits(INITIAL, es), v)
    ensures Decided(v) == Decided(w) && v.phase == w.phase && forall h :: !InState(v, h, Committed)
    ensures v.recs.Keys == w.recs.Keys
    ensures forall h :: h in w.recs && !InState(w, h, Committed) ==> v.recs[h] == w.recs[h]
  {
    v := RunShadows(INITIAL, INITIAL, es, w);
    OutcomesDoNotDecide(w, v);
  }
}
