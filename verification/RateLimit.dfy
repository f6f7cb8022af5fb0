/**
  The per-tier token-bucket limiter. Levels, rates and clock readings are exact:
  reals, with time in seconds.
 */
module RateLimit {
  import opened Config
  import opened Strconv
  import opened Strings
  import opened Wrappers

  // ----- One bucket

  datatype BucketState = BucketState(rate: real, capacity: real, tokens: real, last: real)

  const UNLIMITED := BucketState(0.0, 0.0, 0.0, 0.0)

  /** A limited bucket as `parseBucket` makes it: full. */
  ghost predicate Full(b: BucketState) {
    b.rate > 0.0 && b.capacity >= 1.0 && b.tokens == b.capacity
  }

  /** The level at `now`, capped at the capacity. */
  function Refill(b: BucketState, now: real): real {
    var level := b.tokens + (now - b.last) * b.rate;
    if level > b.capacity then b.capacity else level
  }

  /** What one call does to the bucket, and whether it is admitted. */
  function Take(b: BucketState, now: real): (BucketState, bool) {
    if b.rate == 0.0 then (b, true)
    else
      var level := Refill(b, now);
      if level < 1.0 then (b.(tokens := level, last := now), false)
      else (b.(tokens := level - 1.0, last := now), true)
  }

  // ----- Runs of one bucket

  ghost predicate Nondecreasing(from: real, ts: seq<real>) {
    && (forall i :: 0 <= i < |ts| ==> from <= ts[i])
    && (forall i, j :: 0 <= i <= j < |ts| ==> ts[i] <= ts[j])
  }

  /** The bucket after the first `k` calls. */
  function StateAt(b: BucketState, ts: seq<real>, k: nat): BucketState
    requires k <= |ts|
  {
    if k == 0 then b else Take(StateAt(b, ts, k - 1), ts[k - 1]).0
  }

  function Decision(b: BucketState, ts: seq<real>, k: nat): bool
    requires k < |ts|
  {
    Take(StateAt(b, ts, k), ts[k]).1
  }

  function Decisions(b: BucketState, ts: seq<real>): (d: seq<bool>)
    ensures |d| == |ts|
  {
    seq(|ts|, k requires 0 <= k < |ts| => Decision(b, ts, k))
  }

  /** How many of the first `k` calls are admitted. */
  function Count(d: seq<bool>, k: nat): nat
    requires k <= |d|
  {
    if k == 0 then 0 else Count(d, k - 1) + if d[k - 1] then 1 else 0
  }

  /** How many of the calls `j .. k - 1` are admitted. */
  function Admitted(d: seq<bool>, j: nat, k: nat): int
    requires j <= k <= |d|
  {
    Count(d, k) - Count(d, j)
  }

  /** What a window of `length` seconds may carry. */
  function Bound(b: BucketState, length: real): real {
    b.capacity + b.rate * length
  }

  /** What the window that call `j` opens still has left when call `k` arrives. */
  function Slack(b: BucketState, ts: seq<real>, d: seq<bool>, j: nat, k: nat): real
    requires j <= k < |ts| == |d|
  {
    Bound(b, ts[k] - ts[j]) - Admitted(d, j, k) as real
  }

  ghost predicate WithinEveryWindow(b: BucketState, ts: seq<real>, d: seq<bool>)
    requires |d| == |ts|
  {
    forall i, j :: 0 <= i <= j < |ts| ==> Admitted(d, i, j + 1) as real <= Bound(b, ts[j] - ts[i])
  }

  lemma {:induction false} ParametersKept(b: BucketState, ts: seq<real>, k: nat)
    requires k <= |ts|
    ensures StateAt(b, ts, k).rate == b.rate && StateAt(b, ts, k).capacity == b.capacity
    ensures b.rate != 0.0 && k > 0 ==> StateAt(b, ts, k).last == ts[k - 1]
  {
    if k > 0 {
      ParametersKept(b, ts, k - 1);
    }
  }

  lemma BoundShift(b: BucketState, x: real, y: real, z: real)
    ensures Bound(b, z - x) == Bound(b, y - x) + (z - y) * b.rate
  {
    assert (z - x) == (y - x) + (z - y);
  }

  lemma BoundMonotone(b: BucketState, x: real, y: real)
    requires b.rate >= 0.0 && x <= y
    ensures Bound(b, x) <= Bound(b, y)
  {
    assert b.rate * (y - x) >= 0.0;
    assert b.rate * y == b.rate * x + b.rate * (y - x);
  }

  lemma Gained(rate: real, length: real)
    requires rate >= 0.0 && length >= 0.0
    ensures length * rate >= 0.0
  {
  }

  /** The level one call later: one token spent if it was admitted, then a capped gain. */
  function NextLevel(level: real, admitted: bool, gain: real, capacity: real): real {
    var left := level + gain - if admitted then 1.0 else 0.0;
    if left > capacity then capacity else left
  }

  lemma RefillAfterTake(b: BucketState, rate: real, s: real, t: real)
    requires b.rate == rate > 0.0
    ensures Refill(Take(b, s).0, t) == NextLevel(Refill(b, s), Take(b, s).1, (t - s) * rate, b.capacity)
  {
  }

  lemma LevelAt(b: BucketState, ts: seq<real>, k: nat)
    requires b.rate > 0.0 && 0 < k < |ts|
    ensures Refill(StateAt(b, ts, k), ts[k]) ==
            NextLevel(Refill(StateAt(b, ts, k - 1), ts[k - 1]), Decisions(b, ts)[k - 1],
                      (ts[k] - ts[k - 1]) * b.rate, b.capacity)
  {
    ParametersKept(b, ts, k - 1);
    RefillAfterTake(StateAt(b, ts, k - 1), b.rate, ts[k - 1], ts[k]);
  }

  lemma NextSlack(b: BucketState, ts: seq<real>, d: seq<bool>, j: nat, k: nat)
    requires j < k < |ts| == |d|
    ensures Slack(b, ts, d, j, k) ==
            Slack(b, ts, d, j, k - 1) + (ts[k] - ts[k - 1]) * b.rate - if d[k - 1] then 1.0 else 0.0
  {
    BoundShift(b, ts[j], ts[k - 1], ts[k]);
  }

  lemma SlackNow(b: BucketState, ts: seq<real>, d: seq<bool>, k: nat)
    requires k < |ts| == |d|
    ensures Slack(b, ts, d, k, k) == b.capacity
  {
  }

  ghost predicate LeastSlack(level: real, b: BucketState, ts: seq<real>, d: seq<bool>, k: nat)
    requires k < |ts| == |d|
  {
    && (forall j: nat :: j <= k ==> level <= Slack(b, ts, d, j, k))
    && (exists j: nat :: j <= k && level == Slack(b, ts, d, j, k))
  }

  lemma LeastSlackFirst(b: BucketState, ts: seq<real>, d: seq<bool>)
    requires Full(b) && 0 < |ts| == |d| && b.last <= ts[0]
    ensures LeastSlack(Refill(b, ts[0]), b, ts, d, 0)
  {
    Gained(b.rate, ts[0] - b.last);
    SlackNow(b, ts, d, 0);
    assert Refill(b, ts[0]) == Slack(b, ts, d, 0, 0);
  }

  lemma LeastSlackStep(b: BucketState, ts: seq<real>, d: seq<bool>, k: nat, before: real, level: real)
    requires 0 < k < |ts| == |d| && LeastSlack(before, b, ts, d, k - 1)
    requires level == NextLevel(before, d[k - 1], (ts[k] - ts[k - 1]) * b.rate, b.capacity)
    ensures LeastSlack(level, b, ts, d, k)
  {
    SlackNow(b, ts, d, k);
    forall j: nat | j < k
      ensures level <= Slack(b, ts, d, j, k)
    {
      NextSlack(b, ts, d, j, k);
      assert before <= Slack(b, ts, d, j, k - 1);
    }
    var j: nat :| j <= k - 1 && before == Slack(b, ts, d, j, k - 1);
    NextSlack(b, ts, d, j, k);
    assert level == Slack(b, ts, d, j, k) || level == Slack(b, ts, d, k, k);
  }

  /** The stored level is the least slack of any window ending at this call. */
  lemma {:induction false} LevelIsLeastSlack(b: BucketState, ts: seq<real>, k: nat)
    requires Full(b) && Nondecreasing(b.last, ts) && k < |ts|
    ensures LeastSlack(Refill(StateAt(b, ts, k), ts[k]), b, ts, Decisions(b, ts), k)
  {
    var d := Decisions(b, ts);
    if k == 0 {
      LeastSlackFirst(b, ts, d);
    } else {
      LevelIsLeastSlack(b, ts, k - 1);
      LevelAt(b, ts, k);
      LeastSlackStep(b, ts, d, k, Refill(StateAt(b, ts, k - 1), ts[k - 1]), Refill(StateAt(b, ts, k), ts[k]));
    }
  }

  /**
    The limiter is exactly its window statement: call `k` is admitted if and only if
    every window that ends with it still has room for one more.
   */
  lemma WindowCharacterisation(b: BucketState, ts: seq<real>, k: nat)
    requires Full(b) && Nondecreasing(b.last, ts) && k < |ts|
    ensures var d := Decisions(b, ts);
      d[k] <==> forall j: nat :: j <= k ==> Admitted(d, j, k) as real + 1.0 <= Bound(b, ts[k] - ts[j])
  {
    var d := Decisions(b, ts);
    var level := Refill(StateAt(b, ts, k), ts[k]);
    LevelIsLeastSlack(b, ts, k);
    ParametersKept(b, ts, k);
    assert d[k] <==> level >= 1.0;
    if d[k] {
      forall j: nat | j <= k
        ensures Admitted(d, j, k) as real + 1.0 <= Bound(b, ts[k] - ts[j])
      {
        assert level <= Slack(b, ts, d, j, k);
      }
    } else {
      var j: nat :| j <= k && level == Slack(b, ts, d, j, k);
      assert Admitted(d, j, k) as real + 1.0 > Bound(b, ts[k] - ts[j]);
    }
  }

  lemma Room(b: BucketState, ts: seq<real>, j: nat, k: nat)
    requires Full(b) && Nondecreasing(b.last, ts) && j <= k < |ts| && Decisions(b, ts)[k]
    ensures Admitted(Decisions(b, ts), j, k) as real + 1.0 <= Bound(b, ts[k] - ts[j])
  {
    WindowCharacterisation(b, ts, k);
  }

  lemma NoRoom(b: BucketState, ts: seq<real>, k: nat) returns (j: nat)
    requires Full(b) && Nondecreasing(b.last, ts) && k < |ts| && !Decisions(b, ts)[k]
    ensures j <= k && Admitted(Decisions(b, ts), j, k) as real + 1.0 > Bound(b, ts[k] - ts[j])
  {
    WindowCharacterisation(b, ts, k);
    j :| 0 <= j <= k && Admitted(Decisions(b, ts), j, k) as real + 1.0 > Bound(b, ts[k] - ts[j]);
  }

  lemma RefillInRange(b: BucketState, now: real)
    requires b.rate >= 0.0 && b.last <= now && 0.0 <= b.tokens <= b.capacity
    ensures b.tokens <= Refill(b, now) <= b.capacity
  {
    Gained(b.rate, now - b.last);
  }

  lemma {:induction false} LevelInRange(b: BucketState, ts: seq<real>, k: nat)
    requires Full(b) && Nondecreasing(b.last, ts) && k <= |ts|
    ensures 0.0 <= StateAt(b, ts, k).tokens <= b.capacity
  {
    if k > 0 {
      LevelInRange(b, ts, k - 1);
      ParametersKept(b, ts, k - 1);
      RefillInRange(StateAt(b, ts, k - 1), ts[k - 1]);
    }
  }

  /** The limiter itself stays within the bound on every window. */
  lemma {:induction false} LimiterWithinEveryWindow(b: BucketState, ts: seq<real>)
    requires Full(b) && Nondecreasing(b.last, ts)
    ensures WithinEveryWindow(b, ts, Decisions(b, ts))
  {
    forall i, j | 0 <= i <= j < |ts|
      ensures Admitted(Decisions(b, ts), i, j + 1) as real <= Bound(b, ts[j] - ts[i])
    {
      WindowWithinBound(b, ts, i, j);
    }
  }

  lemma {:induction false} WindowWithinBound(b: BucketState, ts: seq<real>, i: nat, j: nat)
    requires Full(b) && Nondecreasing(b.last, ts) && i <= j < |ts|
    ensures Admitted(Decisions(b, ts), i, j + 1) as real <= Bound(b, ts[j] - ts[i])
    decreases j
  {
    var d := Decisions(b, ts);
    if d[j] {
      WindowCharacterisation(b, ts, j);
    } else if i < j {
      WindowWithinBound(b, ts, i, j - 1);
      BoundMonotone(b, ts[j - 1] - ts[i], ts[j] - ts[i]);
    } else {
      BoundMonotone(b, 0.0, ts[j] - ts[i]);
    }
  }

  /**
    Greedy optimality: after any number of calls, no policy that respects the same
    bound on every window has admitted more.
   */
  lemma {:induction false} GreedyIsOptimal(b: BucketState, ts: seq<real>, policy: seq<bool>, n: nat)
    requires Full(b) && Nondecreasing(b.last, ts) && |policy| == |ts| && n <= |ts|
    requires WithinEveryWindow(b, ts, policy)
    ensures Count(policy, n) <= Count(Decisions(b, ts), n)
    decreases n
  {
    if n > 0 {
      var d, k := Decisions(b, ts), n - 1;
      GreedyIsOptimal(b, ts, policy, k);
      if policy[k] && !d[k] {
        var j := FullWindow(b, ts, policy, k);
        GreedyIsOptimal(b, ts, policy, j);
      }
    }
  }

  /** Where the policy admits and the limiter does not, the limiter filled a window the policy did not. */
  lemma FullWindow(b: BucketState, ts: seq<real>, policy: seq<bool>, k: nat) returns (j: nat)
    requires Full(b) && Nondecreasing(b.last, ts) && k < |policy| == |ts|
    requires WithinEveryWindow(b, ts, policy) && policy[k] && !Decisions(b, ts)[k]
    ensures j <= k && Admitted(policy, j, k) < Admitted(Decisions(b, ts), j, k)
  {
    j := NoRoom(b, ts, k);
    assert Admitted(policy, j, k + 1) as real <= Bound(b, ts[k] - ts[j]);
  }

  // ----- Deleting rejected calls

  /** The calls of a run that `keep` marks. */
  function Kept<T>(xs: seq<T>, keep: seq<bool>): (r: seq<T>)
    requires |xs| == |keep|
    ensures |r| <= |xs|
  {
    if xs == [] then []
    else
      var n := |xs| - 1;
      Kept(xs[..n], keep[..n]) + if keep[n] then [xs[n]] else []
  }

  lemma {:induction false} KeptNondecreasing(from: real, ts: seq<real>, keep: seq<bool>)
    requires |keep| == |ts| && Nondecreasing(from, ts)
    ensures Nondecreasing(from, Kept(ts, keep))
    ensures forall i :: 0 <= i < |Kept(ts, keep)| ==> Kept(ts, keep)[i] in ts
  {
    if ts != [] {
      KeptNondecreasing(from, ts[..|ts| - 1], keep[..|ts| - 1]);
    }
  }

  /** Capped refill composes: stopping on the way makes no difference. */
  lemma RefillComposes(b: BucketState, s: real, t: real)
    requires b.rate >= 0.0 && s <= t
    ensures Refill(b.(tokens := Refill(b, s), last := s), t) == Refill(b, t)
  {
    Gained(b.rate, t - s);
    assert (t - b.last) * b.rate == (s - b.last) * b.rate + (t - s) * b.rate;
  }

  /** `c` is `b` left alone until `c.last`. */
  ghost predicate RefilledFrom(c: BucketState, b: BucketState) {
    && c.rate == b.rate && c.capacity == b.capacity && b.last <= c.last
    && c.tokens == Refill(b, c.last)
  }

  lemma {:induction false} StateAtPrefix(b: BucketState, ts: seq<real>, us: seq<real>, k: nat)
    requires k <= |ts|
    ensures StateAt(b, ts + us, k) == StateAt(b, ts, k)
  {
    if k > 0 {
      StateAtPrefix(b, ts, us, k - 1);
    }
  }

  lemma DecisionsSnoc(b: BucketState, ts: seq<real>, t: real)
    ensures Decisions(b, ts + [t]) == Decisions(b, ts) + [Take(StateAt(b, ts, |ts|), t).1]
    ensures StateAt(b, ts + [t], |ts| + 1) == Take(StateAt(b, ts, |ts|), t).0
  {
    forall k: nat | k <= |ts|
      ensures StateAt(b, ts + [t], k) == StateAt(b, ts, k)
    {
      StateAtPrefix(b, ts, [t], k);
    }
  }

  /** Two buckets that differ only by time passed decide the next call alike, kept or left out. */
  lemma RefilledFromStep(c: BucketState, b: BucketState, t: real, keep: bool)
    requires RefilledFrom(c, b) && b.rate > 0.0 && c.last <= t && 0.0 <= b.tokens <= b.capacity
    requires keep || !Take(c, t).1
    ensures Take(c, t).1 == Take(b, t).1
    ensures RefilledFrom(Take(c, t).0, if keep then Take(b, t).0 else b)
  {
    RefillComposes(b, c.last, t);
    assert b.(tokens := Refill(b, c.last), last := c.last) == c;
    assert Refill(c, t) == Refill(b, t);
    assert Take(c, t) == Take(b, t);
    RefillInRange(b, t);
    if keep {
      RefilledFromItself(Take(b, t).0);
    }
  }

  lemma RefilledFromItself(b: BucketState)
    requires b.tokens <= b.capacity
    ensures RefilledFrom(b, b)
  {
  }

  lemma KeptSnoc<T>(xs: seq<T>, x: T, keep: seq<bool>)
    requires |xs| + 1 == |keep|
    ensures Kept(xs + [x], keep) == Kept(xs, keep[..|xs|]) + if keep[|xs|] then [x] else []
  {
    assert (xs + [x])[..|xs|] == xs;
  }

  /** Leaving rejected calls out of a run changes none of the other decisions. */
  lemma {:induction false} DeletingRejectedCalls(b: BucketState, ts: seq<real>, keep: seq<bool>)
    requires Full(b) && Nondecreasing(b.last, ts) && |keep| == |ts|
    requires forall k :: 0 <= k < |ts| && !keep[k] ==> !Decisions(b, ts)[k]
    ensures Decisions(b, Kept(ts, keep)) == Kept(Decisions(b, ts), keep)
    ensures RefilledFrom(StateAt(b, ts, |ts|), StateAt(b, Kept(ts, keep), |Kept(ts, keep)|))
    decreases |ts|
  {
    if ts == [] {
      RefilledFromItself(b);
    } else {
      var n := |ts| - 1;
      assert ts == ts[..n] + [ts[n]];
      DecisionsSnoc(b, ts[..n], ts[n]);
      assert forall k :: 0 <= k < n ==> Decisions(b, ts[..n])[k] == Decisions(b, ts)[k];
      DeletingRejectedCalls(b, ts[..n], keep[..n]);
      KeptNondecreasing(b.last, ts[..n], keep[..n]);
      DeletingOneMore(b, ts[..n], ts[n], keep);
    }
  }

  lemma DeletingOneMore(b: BucketState, past: seq<real>, t: real, keep: seq<bool>)
    requires Full(b) && Nondecreasing(b.last, past + [t]) && |keep| == |past| + 1
    requires Nondecreasing(b.last, Kept(past, keep[..|past|]))
    requires keep[|past|] || !Take(StateAt(b, past, |past|), t).1
    requires var short := Kept(past, keep[..|past|]);
      && Decisions(b, short) == Kept(Decisions(b, past), keep[..|past|])
      && RefilledFrom(StateAt(b, past, |past|), StateAt(b, short, |short|))
    ensures var ts := past + [t];
      && Decisions(b, Kept(ts, keep)) == Kept(Decisions(b, ts), keep)
      && RefilledFrom(StateAt(b, ts, |ts|), StateAt(b, Kept(ts, keep), |Kept(ts, keep)|))
  {
    var n, ts, short := |past|, past + [t], Kept(past, keep[..|past|]);
    var c, b' := StateAt(b, past, n), StateAt(b, short, |short|);
    DecisionsSnoc(b, past, t);
    DecisionsSnoc(b, short, t);
    KeptSnoc(past, t, keep);
    KeptSnoc(Decisions(b, past), Take(c, t).1, keep);
    assert c.last <= t && c.rate > 0.0 by {
      ParametersKept(b, past, n);
      assert n > 0 ==> ts[n - 1] == past[n - 1];
    }
    LevelInRange(b, short, |short|);
    ParametersKept(b, short, |short|);
    RefilledFromStep(c, b', t, keep[n]);
    if keep[n] {
      assert Kept(ts, keep) == short + [t];
    } else {
      assert Kept(ts, keep) == short;
      assert Kept(Decisions(b, ts), keep) == Kept(Decisions(b, past), keep[..n]);
    }
  }

  // ----- Several tiers

  type LimiterState = map<string, BucketState>

  /** One call on one tier; a tier without a bucket is not limited. */
  function AllowTier(l: LimiterState, tier: string, now: real): (LimiterState, bool) {
    if tier !in l then (l, true)
    else
      var (b, admitted) := Take(l[tier], now);
      (l[tier := b], admitted)
  }

  datatype Call = Call(tier: string, at: real)

  function LimiterAt(l: LimiterState, calls: seq<Call>, k: nat): LimiterState
    requires k <= |calls|
  {
    if k == 0 then l else AllowTier(LimiterAt(l, calls, k - 1), calls[k - 1].tier, calls[k - 1].at).0
  }

  /** The times of the calls on one tier among the first `k`. */
  function TimesOf(calls: seq<Call>, tier: string, k: nat): seq<real>
    requires k <= |calls|
  {
    if k == 0 then []
    else TimesOf(calls, tier, k - 1) + if calls[k - 1].tier == tier then [calls[k - 1].at] else []
  }

  /** Calls on other tiers leave a tier's bucket, and so its decisions, as they are. */
  lemma {:induction false} TiersAreIndependent(l: LimiterState, calls: seq<Call>, tier: string, k: nat)
    requires tier in l && k <= |calls|
    ensures var own := TimesOf(calls, tier, k);
      && tier in LimiterAt(l, calls, k)
      && LimiterAt(l, calls, k)[tier] == StateAt(l[tier], own, |own|)
      && (k < |calls| && calls[k].tier == tier ==>
            AllowTier(LimiterAt(l, calls, k), tier, calls[k].at).1 ==
            Decision(l[tier], own + [calls[k].at], |own|))
  {
    var own := TimesOf(calls, tier, k);
    if k > 0 {
      TiersAreIndependent(l, calls, tier, k - 1);
      var before := TimesOf(calls, tier, k - 1);
      if calls[k - 1].tier == tier {
        DecisionsSnoc(l[tier], before, calls[k - 1].at);
      } else {
        assert own == before;
      }
    }
    if k < |calls| {
      StateAtPrefix(l[tier], own, [calls[k].at], |own|);
    }
  }

  // ----- One tier's windows, seen in the run of all tiers

  /** How many of the first `k` calls were on the tier and admitted. */
  function CountOn(l: LimiterState, calls: seq<Call>, tier: string, k: nat): nat
    requires k <= |calls|
  {
    if k == 0 then 0
    else
      var admitted := calls[k - 1].tier == tier && AllowTier(LimiterAt(l, calls, k - 1), tier, calls[k - 1].at).1;
      CountOn(l, calls, tier, k - 1) + if admitted then 1 else 0
  }

  ghost predicate InOrder(calls: seq<Call>, from: real) {
    && (forall i :: 0 <= i < |calls| ==> from <= calls[i].at)
    && (forall i, j :: 0 <= i <= j < |calls| ==> calls[i].at <= calls[j].at)
  }

  lemma {:induction false} TimesOfGrows(calls: seq<Call>, tier: string, j: nat, k: nat)
    requires j <= k <= |calls|
    ensures TimesOf(calls, tier, j) <= TimesOf(calls, tier, k)
  {
    if j < k {
      TimesOfGrows(calls, tier, j, k - 1);
    }
  }

  lemma {:induction false} TimesInOrder(calls: seq<Call>, tier: string, k: nat, from: real)
    requires k <= |calls| && InOrder(calls, from)
    ensures Nondecreasing(from, TimesOf(calls, tier, k))
    ensures k > 0 ==> forall i :: 0 <= i < |TimesOf(calls, tier, k)| ==> TimesOf(calls, tier, k)[i] <= calls[k - 1].at
  {
    if k > 0 {
      TimesInOrder(calls, tier, k - 1, from);
    }
  }

  /** Every call of the tier's own run is one of the whole run. */
  lemma {:induction false} CallBehind(calls: seq<Call>, tier: string, k: nat, m: nat) returns (j: nat)
    requires k <= |calls| && m < |TimesOf(calls, tier, k)|
    ensures j < k && calls[j].tier == tier && |TimesOf(calls, tier, j)| == m
  {
    if m < |TimesOf(calls, tier, k - 1)| {
      j := CallBehind(calls, tier, k - 1, m);
    } else {
      j := k - 1;
    }
  }

  lemma DecisionPrefix(b: BucketState, ts: seq<real>, longer: seq<real>, n: nat)
    requires n < |ts| && ts <= longer
    ensures Decision(b, longer, n) == Decision(b, ts, n)
  {
    var us := longer[|ts|..];
    assert longer == ts + us;
    StateAtPrefix(b, ts, us, n);
  }

  /** Counting the tier's admissions in the whole run and in its own comes to the same. */
  lemma {:induction false} CountOnIsCount(l: LimiterState, calls: seq<Call>, tier: string, j: nat, own: seq<real>)
    requires tier in l && j <= |calls| && TimesOf(calls, tier, j) <= own
    ensures CountOn(l, calls, tier, j) == Count(Decisions(l[tier], own), |TimesOf(calls, tier, j)|)
  {
    if j > 0 {
      var before := TimesOf(calls, tier, j - 1);
      TimesOfGrows(calls, tier, j - 1, j);
      assert before <= own;
      CountOnIsCount(l, calls, tier, j - 1, own);
      if calls[j - 1].tier == tier {
        TiersAreIndependent(l, calls, tier, j - 1);
        DecisionPrefix(l[tier], before + [calls[j - 1].at], own, |before|);
      }
    }
  }

  /** A window that opens with a call of the tier, in the whole run and in the tier's own. */
  lemma SameWindow(l: LimiterState, calls: seq<Call>, j: nat, k: nat, own: seq<real>)
    requires j <= k < |calls| && calls[j].tier == calls[k].tier && calls[k].tier in l
    requires own == TimesOf(calls, calls[k].tier, k + 1)
    ensures var tier := calls[k].tier;
      var m, n := |TimesOf(calls, tier, j)|, |TimesOf(calls, tier, k)|;
      && m <= n < |own| && own[m] == calls[j].at && own[n] == calls[k].at
      && Admitted(Decisions(l[tier], own), m, n) == CountOn(l, calls, tier, k) - CountOn(l, calls, tier, j)
  {
    var tier := calls[k].tier;
    TimesOfGrows(calls, tier, j, k);
    TimesOfGrows(calls, tier, j, k + 1);
    TimesOfGrows(calls, tier, j + 1, k + 1);
    CountOnIsCount(l, calls, tier, j, own);
    CountOnIsCount(l, calls, tier, k, own);
  }

  /** The window from call `j` to call `k` over their tier's calls has room for one more. */
  ghost predicate RoomFor(l: LimiterState, calls: seq<Call>, j: nat, k: nat)
    requires j <= k < |calls| && calls[k].tier in l
  {
    var tier := calls[k].tier;
    (CountOn(l, calls, tier, k) - CountOn(l, calls, tier, j)) as real + 1.0 <= Bound(l[tier], calls[k].at - calls[j].at)
  }

  /** The `k`-th call, seen in its tier's own run. */
  lemma OwnDecision(l: LimiterState, calls: seq<Call>, k: nat)
    requires k < |calls| && calls[k].tier in l
    ensures var tier := calls[k].tier;
      var own, n := TimesOf(calls, tier, k + 1), |TimesOf(calls, tier, k)|;
      && n < |own|
      && AllowTier(LimiterAt(l, calls, k), tier, calls[k].at).1 == Decisions(l[tier], own)[n]
  {
    TiersAreIndependent(l, calls, calls[k].tier, k);
  }

  lemma AdmittedHasRoom(l: LimiterState, calls: seq<Call>, j: nat, k: nat)
    requires j <= k < |calls| && calls[j].tier == calls[k].tier && calls[k].tier in l && Full(l[calls[k].tier])
    requires InOrder(calls, l[calls[k].tier].last)
    requires AllowTier(LimiterAt(l, calls, k), calls[k].tier, calls[k].at).1
    ensures RoomFor(l, calls, j, k)
  {
    var tier := calls[k].tier;
    var own := TimesOf(calls, tier, k + 1);
    OwnDecision(l, calls, k);
    TimesInOrder(calls, tier, k + 1, l[tier].last);
    SameWindow(l, calls, j, k, own);
    Room(l[tier], own, |TimesOf(calls, tier, j)|, |TimesOf(calls, tier, k)|);
  }

  lemma RefusedHasFullWindow(l: LimiterState, calls: seq<Call>, k: nat) returns (j: nat)
    requires k < |calls| && calls[k].tier in l && Full(l[calls[k].tier])
    requires InOrder(calls, l[calls[k].tier].last)
    requires !AllowTier(LimiterAt(l, calls, k), calls[k].tier, calls[k].at).1
    ensures j <= k && calls[j].tier == calls[k].tier && !RoomFor(l, calls, j, k)
  {
    var tier := calls[k].tier;
    var own, n := TimesOf(calls, tier, k + 1), |TimesOf(calls, tier, k)|;
    OwnDecision(l, calls, k);
    TimesInOrder(calls, tier, k + 1, l[tier].last);
    var m := NoRoom(l[tier], own, n);
    j := CallBehind(calls, tier, k + 1, m);
    SameWindow(l, calls, j, k, own);
  }

  /**
    The window statement for the limiter as a whole: however the calls of the three tiers
    interleave, call `k` is admitted if and only if every window over its own tier's calls
    that ends with it has room for one more.
   */
  lemma EveryTierIsExact(l: LimiterState, calls: seq<Call>, k: nat)
    requires k < |calls| && calls[k].tier in l && Full(l[calls[k].tier])
    requires InOrder(calls, l[calls[k].tier].last)
    ensures AllowTier(LimiterAt(l, calls, k), calls[k].tier, calls[k].at).1 <==>
            forall j: nat :: j <= k && calls[j].tier == calls[k].tier ==> RoomFor(l, calls, j, k)
  {
    if AllowTier(LimiterAt(l, calls, k), calls[k].tier, calls[k].at).1 {
      forall j: nat | j <= k && calls[j].tier == calls[k].tier
        ensures RoomFor(l, calls, j, k)
      {
        AdmittedHasRoom(l, calls, j, k);
      }
    } else {
      var _ := RefusedHasFullWindow(l, calls, k);
    }
  }

  // ----- Rate specifications

  function UnitSeconds(unit: string): (r: Option<real>)
    ensures r.Some? ==> r.value > 0.0
  {
    if unit == "sec" || unit == "second" || unit == "s" then Some(1.0)
    else if unit == "min" || unit == "minute" || unit == "m" then Some(60.0)
    else if unit == "hour" || unit == "h" then Some(3600.0)
    else if unit == "day" || unit == "d" then Some(86400.0)
    else None
  }

  function FullBucket(count: nat, seconds: real, now: real): (b: BucketState)
    requires seconds > 0.0
    ensures count > 0 ==> Full(b)
  {
    BucketState(count as real / seconds, count as real, count as real, now)
  }

  /** Whatever the specification says, the bucket is either unlimited or limited and full. */
  function ParseBucket(spec: string, now: real): (b: BucketState)
    ensures b == UNLIMITED || Full(b)
  {
    var trimmed := TrimSpace(spec);
    var slash := IndexOf(trimmed, '/');
    if trimmed == "" || trimmed == "unlimited" || slash < 0 then UNLIMITED
    else
      var count := Atoi(TrimSpace(trimmed[..slash]));
      if count.None? || count.value <= 0 then UNLIMITED
      else
        var seconds := UnitSeconds(ToLower(TrimSpace(trimmed[slash + 1..])));
        if seconds.None? then UNLIMITED
        else FullBucket(count.value, seconds.value, now)
  }

  /** A positive count, a slash and a unit in any letter case, spaces anywhere around them. */
  lemma ParseBucketOfSpec(p0: string, n: nat, p1: string, p2: string, unit: string, p3: string, now: real)
    requires AllSpace(p0) && AllSpace(p1) && AllSpace(p2) && AllSpace(p3)
    requires 0 < n < TWO_63 && UnitSeconds(ToLower(unit)).Some?
    ensures ParseBucket(p0 + ((Itoa(n) + p1) + ("/" + (p2 + unit)) + p3), now) ==
            FullBucket(n, UnitSeconds(ToLower(unit)).value, now)
  {
    var left, right := Itoa(n) + p1, p2 + unit;
    var body := left + ("/" + right);
    UnitHasNoSpace(unit);
    DigitsAreNotSpecial(n);
    assert body[0] == Itoa(n)[0] && body[|body| - 1] == unit[|unit| - 1];
    TrimSpacePad(p0, body, p3);
    assert '/' !in p1 by {
      assert forall i :: 0 <= i < |p1| ==> IsSpace(p1[i]);
    }
    TrimSpacePad("", Itoa(n), p1);
    assert "" + left == left;
    TrimSpacePad(p2, unit, "");
    assert unit + "" == unit;
    AtoiOfItoa(n);
    ParseBucketOfParts(p0 + (body + p3), left, right, now);
  }

  lemma ParseBucketOfParts(spec: string, left: string, right: string, now: real)
    requires TrimSpace(spec) == left + ("/" + right) && '/' !in left
    ensures ParseBucket(spec, now) ==
            var count, seconds := Atoi(TrimSpace(left)), UnitSeconds(ToLower(TrimSpace(right)));
            if count.None? || count.value <= 0 || seconds.None? then UNLIMITED
            else FullBucket(count.value, seconds.value, now)
  {
    AroundSlash(left, right, TrimSpace(spec));
    assert '/' !in "unlimited" && TrimSpace(spec) != "unlimited";
  }

  lemma AroundSlash(left: string, right: string, text: string)
    requires text == left + ("/" + right) && '/' !in left
    ensures '/' in text && IndexOf(text, '/') == |left|
    ensures text[..IndexOf(text, '/')] == left && text[IndexOf(text, '/') + 1..] == right
  {
    IndexOfFirst(left, '/', right);
    assert text[|left|] == '/';
  }

  /** What each unit name stands for, and that there are no others. */
  lemma UnitsByValue(unit: string)
    ensures unit == "s" || unit == "sec" || unit == "second" ==> UnitSeconds(unit) == Some(1.0)
    ensures unit == "m" || unit == "min" || unit == "minute" ==> UnitSeconds(unit) == Some(60.0)
    ensures unit == "h" || unit == "hour" ==> UnitSeconds(unit) == Some(3600.0)
    ensures unit == "d" || unit == "day" ==> UnitSeconds(unit) == Some(86400.0)
    ensures UnitSeconds(unit).Some? ==>
      unit in {"s", "sec", "second", "m", "min", "minute", "h", "hour", "d", "day"}
  {
  }

  /** A count per unit: that many at once, and that many more for each unit of time. */
  lemma BucketByValue(count: nat, seconds: real, now: real)
    requires seconds > 0.0
    ensures var b := FullBucket(count, seconds, now);
      && b.rate * seconds == count as real && b.capacity == count as real
      && b.tokens == count as real && b.last == now
  {
  }

  // ----- Specifications that do not limit

  /** The specification names no positive count per known unit. */
  predicate NamesNoLimit(spec: string) {
    var trimmed := TrimSpace(spec);
    || '/' !in trimmed
    || BadCount(trimmed[..IndexOf(trimmed, '/')])
    || UnitSeconds(ToLower(TrimSpace(trimmed[IndexOf(trimmed, '/') + 1..]))).None?
  }

  predicate BadCount(text: string) {
    match Atoi(TrimSpace(text))
    case None => true
    case Some(n) => n <= 0
  }

  /** Nothing, blanks, `unlimited` and every other text without a slash are among them. */
  lemma NoSlashNoLimit(spec: string)
    ensures '/' !in spec ==> NamesNoLimit(spec)
    ensures AllSpace(spec) || spec == "unlimited" ==> '/' !in spec
  {
    TrimKeepsOut(spec, '/');
    assert AllSpace(spec) ==> forall i :: 0 <= i < |spec| ==> IsSpace(spec[i]);
    assert spec == "unlimited" ==> '/' !in spec;
  }

  lemma TrimKeepsOut(s: string, c: char)
    ensures c !in s ==> c !in TrimSpace(s)
  {
    var t := TrimLeft(s, IsSpace);
    assert s == s[..|s| - |t|] + t;
    assert TrimSpace(s) <= t;
  }

  /** So are a bad or nonpositive count, and an unknown unit, on either side of the first slash. */
  lemma BadPartsNoLimit(spec: string, left: string, right: string)
    requires TrimSpace(spec) == left + ("/" + right) && '/' !in left
    ensures NamesNoLimit(spec) <==> BadCount(left) || UnitSeconds(ToLower(TrimSpace(right))).None?
  {
    AroundSlash(left, right, TrimSpace(spec));
    NoLimitInParts(spec, TrimSpace(spec), left, right);
  }

  lemma NoLimitInParts(spec: string, text: string, left: string, right: string)
    requires TrimSpace(spec) == text && '/' in text
    requires text[..IndexOf(text, '/')] == left && text[IndexOf(text, '/') + 1..] == right
    ensures NamesNoLimit(spec) <==> BadCount(left) || UnitSeconds(ToLower(TrimSpace(right))).None?
  {
  }

  lemma NoLimitIsUnlimited(spec: string, now: real)
    ensures NamesNoLimit(spec) <==> ParseBucket(spec, now).rate == 0.0
    ensures !NamesNoLimit(spec) ==> Full(ParseBucket(spec, now))
  {
    assert UNLIMITED.rate == 0.0;
  }

  /** A tier that has no bucket, or one without a rate. */
  predicate IsUnlimited(l: LimiterState, tier: string) {
    tier in l ==> l[tier].rate == 0.0
  }

  /** In every run, whatever the other tiers do and at whatever times, such a tier stays as it was. */
  lemma {:induction false} UnlimitedStays(l: LimiterState, calls: seq<Call>, tier: string, k: nat)
    requires IsUnlimited(l, tier) && k <= |calls|
    ensures var m := LimiterAt(l, calls, k);
      IsUnlimited(m, tier) && (tier in m <==> tier in l) && (tier in l ==> m[tier] == l[tier])
  {
    if k > 0 {
      UnlimitedStays(l, calls, tier, k - 1);
    }
  }

  /** Every call on it is admitted, and leaves the whole limiter as it was. */
  lemma UnlimitedAdmitsAll(l: LimiterState, calls: seq<Call>, k: nat)
    requires k < |calls| && IsUnlimited(l, calls[k].tier)
    ensures AllowTier(LimiterAt(l, calls, k), calls[k].tier, calls[k].at) == (LimiterAt(l, calls, k), true)
  {
    var tier := calls[k].tier;
    UnlimitedStays(l, calls, tier, k);
    var m := LimiterAt(l, calls, k);
    assert tier in m ==> m[tier := m[tier]] == m;
  }

  /** From the configuration on: a tier whose specification names no limit is never refused. */
  lemma NoLimitAdmitsAll(l: LimiterState, spec: string, now: real, calls: seq<Call>, k: nat)
    requires k < |calls| && calls[k].tier in l && l[calls[k].tier] == ParseBucket(spec, now) && NamesNoLimit(spec)
    ensures AllowTier(LimiterAt(l, calls, k), calls[k].tier, calls[k].at) == (LimiterAt(l, calls, k), true)
  {
    NoLimitIsUnlimited(spec, now);
    UnlimitedAdmitsAll(l, calls, k);
  }

  lemma UnitHasNoSpace(unit: string)
    requires UnitSeconds(ToLower(unit)).Some?
    ensures IsToken(unit)
  {
    LowerKeepsSpaces(unit);
    forall i | 0 <= i < |unit|
      ensures !IsSpace(unit[i])
    {
      assert !IsSpace(ToLower(unit)[i]);
    }
  }

  lemma DigitsAreNotSpecial(n: nat)
    ensures IsToken(Itoa(n)) && '/' !in Itoa(n)
  {
    assert AllDigits(Digits(n));
  }

  // ----- The limiter object

  class Bucket {
    var rate: real
    var capacity: real
    var tokens: real
    var last: real

    ghost function State(): BucketState
      reads this
    {
      BucketState(rate, capacity, tokens, last)
    }

    constructor (b: BucketState)
      ensures State() == b
    {
      rate, capacity, tokens, last := b.rate, b.capacity, b.tokens, b.last;
    }

    /** Refill, cap and consume. */
    method TakeOne(now: real) returns (admitted: bool)
      requires rate != 0.0
      modifies this
      ensures (State(), admitted) == Take(old(State()), now)
    {
      var elapsed := now - last;
      last := now;
      tokens := tokens + elapsed * rate;
      if tokens > capacity {
        tokens := capacity;
      }
      if tokens < 1.0 {
        return false;
      }
      tokens := tokens - 1.0;
      return true;
    }
  }

  class Limiter {
    var buckets: map<string, Bucket?>

    /** No two tiers share a bucket. */
    ghost predicate Valid()
      reads this
    {
      forall t, u :: t in buckets && u in buckets && t != u && buckets[t] != null ==> buckets[t] != buckets[u]
    }

    ghost function Repr(): set<object>
      reads this
    {
      set t | t in buckets && buckets[t] != null :: buckets[t]
    }

    ghost function State(): LimiterState
      reads this, Repr()
    {
      map t | t in buckets && buckets[t] != null :: buckets[t].State()
    }

    constructor (anonymous: BucketState, identified: BucketState, trusted: BucketState)
      ensures Valid() && fresh(Repr())
      ensures State() == map[TIER_ANONYMOUS := anonymous, TIER_IDENTIFIED := identified, TIER_TRUSTED := trusted]
    {
      var a := new Bucket(anonymous);
      var i := new Bucket(identified);
      var t := new Bucket(trusted);
      buckets := map[TIER_ANONYMOUS := a, TIER_IDENTIFIED := i, TIER_TRUSTED := t];
      new;
      TiersDiffer();
    }
  }

  /** `New`: one bucket for each tier's rate specification. */
  method New(cfg: LimitsConfig, now: real) returns (l: Limiter)
    ensures fresh(l) && l.Valid() && fresh(l.Repr())
    ensures l.State() == map[TIER_ANONYMOUS := ParseBucket(cfg.anonymous, now),
                             TIER_IDENTIFIED := ParseBucket(cfg.identified, now),
                             TIER_TRUSTED := ParseBucket(cfg.trusted, now)]
  {
    var anonymous := ParseBucket(cfg.anonymous, now);
    var identified := ParseBucket(cfg.identified, now);
    var trusted := ParseBucket(cfg.trusted, now);
    l := new Limiter(anonymous, identified, trusted);
  }

  /** `(*Limiter).Allow`; the receiver may be nil. */
  method Allow(l: Limiter?, tier: string, now: real) returns (admitted: bool)
    requires l != null ==> l.Valid()
    modifies if l != null then l.Repr() else {}
    ensures l == null ==> admitted
    ensures l != null ==>
      && l.Valid() && l.Repr() == old(l.Repr())
      && (l.State(), admitted) == AllowTier(old(l.State()), tier, now)
      && (IsUnlimited(old(l.State()), tier) ==> admitted && l.State() == old(l.State()))
  {
    if l == null {
      return true;
    }
    if tier !in l.buckets || l.buckets[tier] == null {
      return true;
    }
    var b := l.buckets[tier];
    if b.rate == 0.0 {
      assert old(l.State())[tier := b.State()] == l.State();
      return true;
    }
    admitted := b.TakeOne(now);
    assert forall t :: t in l.buckets && t != tier && l.buckets[t] != null ==>
      l.buckets[t].State() == old(l.buckets[t].State());
    assert l.State() == old(l.State())[tier := b.State()];
  }
}
