/** Each participant of a commit run goes through a run of its own: the two models agree on its record. */
module Projection {
  import opened Text
  import opened Timestamps
  import opened Records
  import opened Operations
  import opened Polling
  import opened Commitment
  import P = Participant

  /** The participant `h`, over its whole run, has the record the commit run gives it. */
  predicate Agree(n: P.Node, name: string, w: World, h: nat) {
    && n.clock == w.clock
    && (h in w.recs <==> name in n.t.trans)
    && (h in w.recs ==> n.t.trans[name] == w.recs[h])
    && (InState(w, h, TransState.Begin) ==> name in n.conns)
  }

  /** What a step of the commit is to the participant's record, if anything. */
  function EventOf(w: World, e: Event, h: nat, name: string): Option<P.Event>
    requires Allowed(w, e)
  {
    match e
    case ServeBegin(g) => if g == h then Some(P.BeginTrans(name, HEALTHY)) else None
    case ServePrepare(g, stored) =>
      if g == h && InState(w, h, TransState.Begin) && w.plan.Some?
      then Some(P.Prepare(name, w.plan.value.start, w.plan.value.list, HEALTHY.(putFails := !stored)))
      else None
    case CrashInPrepare(g) =>
      if g == h && w.plan.Some? then Some(P.CrashInPrepare(name, w.plan.value.start, w.plan.value.list)) else None
    case RollBackOpen(g) => if g == h then Some(P.Disconnect(name, false)) else None
    case PollRound(g, heard, now) =>
      if g != h then None
      else
        (match Poll(w.recs[g], g, heard, now)
         case Commits(ts) => Some(P.Commit(name, ts))
         case RollsBack => Some(P.Abort(name))
         case _ => None)
    case Tick(now) => Some(P.Tick(now))
    case _ => None
  }

  predicate Projects(w: World, e: Event, h: nat, n: P.Node, name: string)
    requires Allowed(w, e)
  {
    match EventOf(w, e, h, name)
    case None => Agree(n, name, Apply(w, e), h)
    case Some(pe) => P.Allowed(n, pe) && Agree(P.Apply(n, pe), name, Apply(w, e), h)
  }

  lemma StepProjects(w: World, e: Event, h: nat, n: P.Node, name: string)
    requires Inv(w) && Allowed(w, e) && Agree(n, name, w, h) && GoodTs(name)
    ensures Projects(w, e, h, n, name)
  {
    match e
    case ServeBegin(g) => OpenProjects(w, e, h, n, name);
    case ServePrepare(g, stored) => PrepareProjects(w, e, h, n, name);
    case CrashInPrepare(g) => CrashProjects(w, e, h, n, name);
    case RollBackOpen(g) => OpenProjects(w, e, h, n, name);
    case PollRound(g, heard, now) => PollProjects(w, e, h, n, name);
    case Tick(now) =>
    case _ =>
  }

  lemma OpenProjects(w: World, e: Event, h: nat, n: P.Node, name: string)
    requires Allowed(w, e) && Agree(n, name, w, h) && GoodTs(name) && (e.ServeBegin? || e.RollBackOpen?)
    ensures Projects(w, e, h, n, name)
  {
  }

  lemma PrepareProjects(w: World, e: Event, h: nat, n: P.Node, name: string)
    requires Inv(w) && Allowed(w, e) && Agree(n, name, w, h) && e.ServePrepare?
    ensures Projects(w, e, h, n, name)
  {
    assert PendingOk(w, e.h) && RecOk(w, e.h);
    ServeProjects(w, e, h, n, name);
  }

  lemma ServeProjects(w: World, e: Event, h: nat, n: P.Node, name: string)
    requires Allowed(w, e) && Agree(n, name, w, h) && e.ServePrepare?
    requires w.plan.Some? && Le(w.plan.value.start, w.clock)
    ensures Projects(w, e, h, n, name)
  {
  }

  lemma CrashProjects(w: World, e: Event, h: nat, n: P.Node, name: string)
    requires Inv(w) && Allowed(w, e) && Agree(n, name, w, h) && e.CrashInPrepare?
    ensures Projects(w, e, h, n, name)
  {
    assert PendingOk(w, e.h) && RecOk(w, e.h);
  }

  lemma PollProjects(w: World, e: Event, h: nat, n: P.Node, name: string)
    requires Inv(w) && Allowed(w, e) && Agree(n, name, w, h) && e.PollRound?
    ensures Projects(w, e, h, n, name)
  {
    CommitInBounds(w, e);
    RoundProjects(w, e, h, n, name);
  }

  /** A round commits at a timestamp issued by now and not below the start or the participant's own. */
  predicate InBounds(w: World, e: Event)
    requires Allowed(w, e) && e.PollRound?
  {
    match Poll(w.recs[e.h], e.h, e.heard, e.now)
    case Commits(ts) => Le(w.recs[e.h].startTs, ts) && Le(w.recs[e.h].selfTs, ts) && Le(ts, w.clock)
    case _ => true
  }

  lemma CommitInBounds(w: World, e: Event)
    requires Inv(w) && Allowed(w, e) && e.PollRound?
    ensures InBounds(w, e)
  {
    assert RecOk(w, e.h) && SelfTsIs(w, e.h, w.recs[e.h].selfTs);
    if Poll(w.recs[e.h], e.h, e.heard, e.now).Commits? {
      PollCommits(w, e.h, e.heard, e.now, Poll(w.recs[e.h], e.h, e.heard, e.now).ts);
    }
  }

  lemma RoundProjects(w: World, e: Event, h: nat, n: P.Node, name: string)
    requires Allowed(w, e) && Agree(n, name, w, h) && e.PollRound? && InBounds(w, e)
    ensures Projects(w, e, h, n, name)
  {
  }

  lemma {:induction false} RunProjects(w: World, es: seq<Event>, w': World, h: nat, n: P.Node, name: string)
    returns (pes: seq<P.Event>)
    requires Inv(w) && Runs(w, es, w') && Agree(n, name, w, h) && GoodTs(name)
    ensures P.Runs(n, pes) && Agree(P.Run(n, pes), name, w', h)
    decreases es
  {
    if es == [] {
      pes := [];
    } else {
      var e := es[0];
      StepKeepsInv(w, e);
      StepProjects(w, e, h, n, name);
      match EventOf(w, e, h, name)
      case None => pes := RunProjects(Apply(w, e), es[1..], w', h, n, name);
      case Some(pe) =>
        pes := RunProjects(Apply(w, e), es[1..], w', h, P.Apply(n, pe), name);
        assert ([pe] + pes)[1..] == pes;
        pes := [pe] + pes;
    }
  }

  /** Every commit run is, seen from any one participant, a run of that participant: it begins the transaction,
      prepares, crashes, commits and rolls back as its connections and polling routines make it, and ends with
      the same record. So what holds of all runs of a participant holds of it in every commit. */
  lemma CommitIsARunOfEach(es: seq<Event>, w: World, h: nat, name: string) returns (pes: seq<P.Event>)
    requires Runs(INITIAL, es, w) && GoodTs(name)
    ensures P.Runs(P.INITIAL, pes) && P.Run(P.INITIAL, pes).clock == w.clock
    ensures (h in w.recs <==> name in P.Run(P.INITIAL, pes).t.trans)
    ensures h in w.recs ==> P.Run(P.INITIAL, pes).t.trans[name] == w.recs[h]
  {
    pes := RunProjects(INITIAL, es, w, h, P.INITIAL, name);
  }
}
