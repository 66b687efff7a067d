/** One round of `prepare_routine`: a prepared participant asks the others how far they are. */
module Polling {
  import opened Text
  import opened Records

  /** The answer to a state query: the prepared participant's own timestamp, or the committed one. */
  datatype Reply = Reply(state: TransState, ts: string)

  function ReplyOf(t: Option<Trans>): Reply {
    match t
    case None => Reply(Begin, "")
    case Some(t) =>
      Reply(t.state, if t.state.Prepared? then t.selfTs else if t.state.Committed? then t.commitTs else "")
  }

  datatype Round = Undecided | Commits(ts: string) | RollsBack | AssertFails

  /** The round from participant `i` on, with `max` the largest timestamp so far and `n` found prepared. */
  function PollFrom(
    members: seq<nat>, self: nat, selfTs: string, replies: seq<Option<Reply>>, i: nat, max: string, n: nat): Round
    requires |replies| == |members| && i <= |members|
    decreases |members| - i
  {
    if i == |members| then if n == |members| then Commits(max) else Undecided
    else if members[i] == self then PollFrom(members, self, selfTs, replies, i + 1, max, n + 1)
    else if replies[i].None? then PollFrom(members, self, selfTs, replies, i + 1, max, n)
    else
      var r := replies[i].value;
      match r.state
      case Begin => PollFrom(members, self, selfTs, replies, i + 1, max, n)
      case Prepared => PollFrom(members, self, selfTs, replies, i + 1, Max(max, r.ts), n + 1)
      case Committed => if Less(r.ts, max) && selfTs != "" then AssertFails else Commits(r.ts)
      case RolledBack => RollsBack
  }

  /** What the maximum starts from: the participant's own timestamp, or the clock when it has none. */
  function Seed(t: Trans, now: string): string {
    if t.selfTs == "" then now else t.selfTs
  }

  function Poll(t: Trans, self: nat, replies: seq<Option<Reply>>, now: string): Round
    requires |replies| == |t.members|
  {
    PollFrom(t.members, self, t.selfTs, replies, 0, Seed(t, now), 0)
  }

  /** The loop itself, over whatever the network brings back: no reply stands for a failed exchange. */
  method PollOnce(t: Trans, self: nat, replies: seq<Option<Reply>>, now: string) returns (r: Round)
    requires |replies| == |t.members|
    ensures r == Poll(t, self, replies, now)
  {
    var max := t.selfTs;
    if |max| == 0 {
      max := now;
    }
    var n := 0;
    for i := 0 to |t.members|
      invariant Poll(t, self, replies, now) == PollFrom(t.members, self, t.selfTs, replies, i, max, n)
    {
      if t.members[i] == self {
        n := n + 1;
        continue;
      }
      if replies[i].None? {
        continue;
      }
      var reply := replies[i].value;
      if reply.state.Begin? {
        continue;
      } else if reply.state.Prepared? {
        n := n + 1;
        if Less(max, reply.ts) {
          max := reply.ts;
        }
      } else if reply.state.Committed? {
        if Less(reply.ts, max) && |t.selfTs| > 0 {
          return AssertFails;
        }
        return Commits(reply.ts);
      } else {
        return RollsBack;
      }
    }
    if n == |t.members| {
      return Commits(max);
    }
    return Undecided;
  }

  /** What the round leaves in the participant's record. */
  function Settle(t: Trans, r: Round): Trans {
    match r
    case Commits(ts) => t.(state := Committed, commitTs := ts)
    case RollsBack => t.(state := RolledBack)
    case _ => t
  }

  predicate SaysPrepared(members: seq<nat>, self: nat, replies: seq<Option<Reply>>, i: nat)
    requires |replies| == |members| && i < |members|
  {
    members[i] == self || (replies[i].Some? && replies[i].value.state.Prepared?)
  }

  predicate Says(members: seq<nat>, self: nat, replies: seq<Option<Reply>>, i: nat, state: TransState)
    requires |replies| == |members| && i < |members|
  {
    members[i] != self && replies[i].Some? && replies[i].value.state == state
  }

  /** `max` is the starting point or some reply of a prepared participant. */
  predicate FromReplies(members: seq<nat>, self: nat, replies: seq<Option<Reply>>, seed: string, max: string)
    requires |replies| == |members|
  {
    max == seed || exists i ::
      0 <= i < |members| && Says(members, self, replies, i, Prepared) && replies[i].value.ts == max
  }

  /** `max` bounds the starting point and the replies of the prepared participants before `n`. */
  predicate BoundsReplies(members: seq<nat>, self: nat, replies: seq<Option<Reply>>, n: nat, seed: string, max: string)
    requires |replies| == |members| && n <= |members|
  {
    Le(seed, max) && forall i :: 0 <= i < n && Says(members, self, replies, i, Prepared) ==>
      Le(replies[i].value.ts, max)
  }

  /** Commits because everyone said prepared, at the largest timestamp heard. */
  predicate ByCount(members: seq<nat>, self: nat, replies: seq<Option<Reply>>, seed: string, ts: string)
    requires |replies| == |members|
  {
    && (forall i :: 0 <= i < |members| ==> SaysPrepared(members, self, replies, i))
    && FromReplies(members, self, replies, seed, ts)
    && BoundsReplies(members, self, replies, |members|, seed, ts)
  }

  /** Commits because someone had, at that one's timestamp. */
  ghost predicate ByCopy(members: seq<nat>, self: nat, replies: seq<Option<Reply>>, ts: string)
    requires |replies| == |members|
  {
    exists i :: 0 <= i < |members| && Says(members, self, replies, i, Committed) && replies[i].value.ts == ts
  }

  /** Every outcome of a round has one of these causes. */
  ghost predicate Caused(
    members: seq<nat>, self: nat, selfTs: string, replies: seq<Option<Reply>>, seed: string, r: Round)
    requires |replies| == |members|
  {
    match r
    case Undecided => exists i :: 0 <= i < |members| && !SaysPrepared(members, self, replies, i)
    case Commits(ts) => ByCount(members, self, replies, seed, ts) || ByCopy(members, self, replies, ts)
    case RollsBack => exists i :: 0 <= i < |members| && Says(members, self, replies, i, RolledBack)
    case AssertFails =>
      selfTs != "" && exists i, max ::
        && 0 <= i < |members| && Says(members, self, replies, i, Committed)
        && FromReplies(members, self, replies, seed, max) && Less(replies[i].value.ts, max)
  }

  lemma {:induction false} PollFromCaused(
    members: seq<nat>, self: nat, selfTs: string, replies: seq<Option<Reply>>, i: nat, max: string, n: nat,
    seed: string)
    requires |replies| == |members| && i <= |members| && n <= i
    requires FromReplies(members, self, replies, seed, max) && BoundsReplies(members, self, replies, i, seed, max)
    requires n == i <==> forall j :: 0 <= j < i ==> SaysPrepared(members, self, replies, j)
    ensures Caused(members, self, selfTs, replies, seed, PollFrom(members, self, selfTs, replies, i, max, n))
    decreases |members| - i
  {
    if i == |members| {
      return;
    }
    assert SaysPrepared(members, self, replies, i) || !SaysPrepared(members, self, replies, i);
    if members[i] == self {
      PollFromCaused(members, self, selfTs, replies, i + 1, max, n + 1, seed);
    } else if replies[i].None? || replies[i].value.state.Begin? {
      assert !SaysPrepared(members, self, replies, i);
      PollFromCaused(members, self, selfTs, replies, i + 1, max, n, seed);
    } else if replies[i].value.state.Prepared? {
      var ts := replies[i].value.ts;
      MaxBounds(max, ts);
      BoundsWiden(members, self, replies, i, seed, max, Max(max, ts));
      assert Says(members, self, replies, i, Prepared);
      PollFromCaused(members, self, selfTs, replies, i + 1, Max(max, ts), n + 1, seed);
    } else if replies[i].value.state.Committed? {
      assert Says(members, self, replies, i, Committed);
    } else {
      assert Says(members, self, replies, i, RolledBack);
    }
  }

  lemma BoundsWiden(
    members: seq<nat>, self: nat, replies: seq<Option<Reply>>, n: nat, seed: string, max: string, max': string)
    requires |replies| == |members| && n <= |members|
    requires BoundsReplies(members, self, replies, n, seed, max) && Le(max, max')
    ensures BoundsReplies(members, self, replies, n, seed, max')
  {
    LeTrans(seed, max, max');
    forall i | 0 <= i < n && Says(members, self, replies, i, Prepared) ensures Le(replies[i].value.ts, max') {
      LeTrans(replies[i].value.ts, max, max');
    }
  }

  /** A round ends undecided, or has a cause among the replies for what it does. */
  lemma PollCaused(t: Trans, self: nat, replies: seq<Option<Reply>>, now: string)
    requires |replies| == |t.members|
    ensures Caused(t.members, self, t.selfTs, replies, Seed(t, now), Poll(t, self, replies, now))
  {
    LeRefl(Seed(t, now));
    PollFromCaused(t.members, self, t.selfTs, replies, 0, Seed(t, now), 0, Seed(t, now));
  }

  /** When everyone says prepared the round commits, and only a reply of prepared by all, or one of an
      outcome, decides it. */
  lemma {:induction false} UnanimousFrom(
    members: seq<nat>, self: nat, selfTs: string, replies: seq<Option<Reply>>, i: nat, max: string, n: nat)
    requires |replies| == |members| && i <= |members| && n <= i
    requires forall j :: i <= j < |members| ==> SaysPrepared(members, self, replies, j)
    ensures n == i ==> PollFrom(members, self, selfTs, replies, i, max, n).Commits?
    decreases |members| - i
  {
    if i < |members| && n == i {
      assert SaysPrepared(members, self, replies, i);
      var max' := if members[i] == self then max else Max(max, replies[i].value.ts);
      UnanimousFrom(members, self, selfTs, replies, i + 1, max', n + 1);
    }
  }

  lemma UnanimousCommits(t: Trans, self: nat, replies: seq<Option<Reply>>, now: string)
    requires |replies| == |t.members|
    requires forall j :: 0 <= j < |t.members| ==> SaysPrepared(t.members, self, replies, j)
    ensures Poll(t, self, replies, now).Commits?
    ensures ByCount(t.members, self, replies, Seed(t, now), Poll(t, self, replies, now).ts)
  {
    UnanimousFrom(t.members, self, t.selfTs, replies, 0, Seed(t, now), 0);
    PollCaused(t, self, replies, now);
    assert forall i :: 0 <= i < |t.members| ==> SaysPrepared(t.members, self, replies, i) ==>
      !Says(t.members, self, replies, i, Committed);
  }

  lemma {:induction false} FirstOutcome(members: seq<nat>, self: nat, replies: seq<Option<Reply>>, i: nat)
    returns (k: nat)
    requires |replies| == |members| && i < |members| && SaysOutcome(members, self, replies, i)
    ensures k <= i && SaysOutcome(members, self, replies, k)
    ensures forall j :: 0 <= j < k ==> !SaysOutcome(members, self, replies, j)
  {
    k := i;
    if j :| 0 <= j < i && SaysOutcome(members, self, replies, j) {
      k := FirstOutcome(members, self, replies, j);
    }
  }

  /** The first participant that reports an outcome decides the round: a rollback is followed; so is a commit, at
      the timestamp reported, unless the participant has an own timestamp and has met a later one before. */
  ghost predicate FollowsFirst(
    members: seq<nat>, self: nat, selfTs: string, replies: seq<Option<Reply>>, seed: string, i: nat, r: Round)
    requires |replies| == |members| && i < |members| && replies[i].Some?
  {
    var ts := replies[i].value.ts;
    if replies[i].value.state.RolledBack? then r == RollsBack
    else exists max |
      FromReplies(members, self, replies, seed, max) && BoundsReplies(members, self, replies, i, seed, max) ::
      r == if Less(ts, max) && selfTs != "" then AssertFails else Commits(ts)
  }

  lemma {:induction false} FirstOutcomeFrom(
    members: seq<nat>, self: nat, selfTs: string, replies: seq<Option<Reply>>, j: nat, i: nat, max: string, n: nat,
    seed: string)
    requires |replies| == |members| && j <= i < |members| && SaysOutcome(members, self, replies, i)
    requires forall k :: j <= k < i ==> !SaysOutcome(members, self, replies, k)
    requires FromReplies(members, self, replies, seed, max) && BoundsReplies(members, self, replies, j, seed, max)
    ensures FollowsFirst(members, self, selfTs, replies, seed, i, PollFrom(members, self, selfTs, replies, j, max, n))
    decreases i - j
  {
    if j < i {
      assert !SaysOutcome(members, self, replies, j);
      if members[j] == self {
        FirstOutcomeFrom(members, self, selfTs, replies, j + 1, i, max, n + 1, seed);
      } else if replies[j].None? || replies[j].value.state.Begin? {
        FirstOutcomeFrom(members, self, selfTs, replies, j + 1, i, max, n, seed);
      } else {
        var ts := replies[j].value.ts;
        MaxBounds(max, ts);
        BoundsWiden(members, self, replies, j, seed, max, Max(max, ts));
        assert Says(members, self, replies, j, Prepared);
        FirstOutcomeFrom(members, self, selfTs, replies, j + 1, i, Max(max, ts), n + 1, seed);
      }
    }
  }

  lemma FirstOutcomeDecides(t: Trans, self: nat, replies: seq<Option<Reply>>, now: string, i: nat)
    requires |replies| == |t.members| && i < |t.members| && SaysOutcome(t.members, self, replies, i)
    requires forall k :: 0 <= k < i ==> !SaysOutcome(t.members, self, replies, k)
    ensures FollowsFirst(t.members, self, t.selfTs, replies, Seed(t, now), i, Poll(t, self, replies, now))
  {
    LeRefl(Seed(t, now));
    FirstOutcomeFrom(t.members, self, t.selfTs, replies, 0, i, Seed(t, now), 0, Seed(t, now));
  }

  predicate SaysOutcome(members: seq<nat>, self: nat, replies: seq<Option<Reply>>, i: nat)
    requires |replies| == |members| && i < |members|
  {
    Says(members, self, replies, i, Committed) || Says(members, self, replies, i, RolledBack)
  }

  lemma {:induction false} UndecidedFrom(
    members: seq<nat>, self: nat, selfTs: string, replies: seq<Option<Reply>>, i: nat, max: string, n: nat)
    requires |replies| == |members| && i <= |members| && n <= i
    ensures PollFrom(members, self, selfTs, replies, i, max, n) == Undecided <==>
            (forall j :: i <= j < |members| ==> !SaysOutcome(members, self, replies, j)) &&
            (n < i || exists j :: i <= j < |members| && !SaysPrepared(members, self, replies, j))
    decreases |members| - i
  {
    if i < |members| {
      assert SaysOutcome(members, self, replies, i) || !SaysOutcome(members, self, replies, i);
      assert SaysPrepared(members, self, replies, i) || !SaysPrepared(members, self, replies, i);
      if members[i] == self {
        UndecidedFrom(members, self, selfTs, replies, i + 1, max, n + 1);
      } else if replies[i].None? || replies[i].value.state.Begin? {
        UndecidedFrom(members, self, selfTs, replies, i + 1, max, n);
      } else if replies[i].value.state.Prepared? {
        UndecidedFrom(members, self, selfTs, replies, i + 1, Max(max, replies[i].value.ts), n + 1);
      }
    }
  }

  /** The participant asks again exactly when nobody reported an outcome and someone is not known to be prepared. */
  lemma UndecidedExactly(t: Trans, self: nat, replies: seq<Option<Reply>>, now: string)
    requires |replies| == |t.members|
    ensures Poll(t, self, replies, now) == Undecided <==>
            (forall j :: 0 <= j < |t.members| ==> !SaysOutcome(t.members, self, replies, j)) &&
            (exists j :: 0 <= j < |t.members| && !SaysPrepared(t.members, self, replies, j))
  {
    UndecidedFrom(t.members, self, t.selfTs, replies, 0, Seed(t, now), 0);
  }
}
