/** One agent's trajectory: six parallel lists filled one time step at a
    time, indexed like a Python list, and summarised by its (discounted)
    returns. Rewards and discounts are exact reals. */
module Trajectories {
  import opened Wrappers

  /** What `trajectory[t]` returns: one (s, a, probs, r, s', legal) tuple. */
  datatype Entry<S> = Entry(state: S, action: int, actionProbs: seq<real>, reward: real, nextState: S, legalActions: seq<bool>)

  datatype Trajectory<S> = Trajectory(
    states: seq<S>,
    actions: seq<int>,
    actionProbs: seq<seq<real>>,
    legalActions: seq<seq<bool>>,
    rewards: seq<real>,
    nextStates: seq<S>,
    currentTimestep: nat)

  /** The six lists all have `current_timestep` entries. */
  predicate Valid<S>(t: Trajectory<S>) {
    && |t.states| == t.currentTimestep
    && |t.actions| == t.currentTimestep
    && |t.actionProbs| == t.currentTimestep
    && |t.legalActions| == t.currentTimestep
    && |t.rewards| == t.currentTimestep
    && |t.nextStates| == t.currentTimestep
  }

  /** `Trajectory()`: every list empty. */
  function Empty<S>(): (t: Trajectory<S>)
    ensures Valid(t) && Len(t) == 0
  {
    Trajectory([], [], [], [], [], [], 0)
  }

  /** `len(trajectory)`. */
  function Len<S>(t: Trajectory<S>): nat {
    t.currentTimestep
  }

  /** `legal_actions or [True] * len(action_probs)`: `None` and the empty
      list are falsy and give an all-true mask, one flag per probability. */
  function LegalOrDefault(legal: Option<seq<bool>>, nProbs: nat): (r: seq<bool>)
    ensures legal.Some? && legal.value != [] ==> r == legal.value
    ensures (legal.None? || legal.value == []) ==> |r| == nProbs && forall i :: 0 <= i < |r| ==> r[i]
  {
    if legal.Some? && legal.value != [] then legal.value else seq(nProbs, _ => true)
  }

  /** `add_timestep`: one more entry at the end of every list, the earlier
      entries untouched, and the step counter one higher. */
  function AddTimestep<S>(t: Trajectory<S>, state: S, action: int, actionProbs: seq<real>, reward: real, nextState: S, legal: Option<seq<bool>>): (r: Trajectory<S>)
    requires Valid(t)
    ensures Valid(r) && Len(r) == Len(t) + 1
    ensures At(r, Len(t)) == Entry(state, action, actionProbs, reward, nextState, LegalOrDefault(legal, |actionProbs|))
    ensures forall i :: 0 <= i < Len(t) ==> At(r, i) == At(t, i)
  {
    Trajectory(
      t.states + [state],
      t.actions + [action],
      t.actionProbs + [actionProbs],
      t.legalActions + [LegalOrDefault(legal, |actionProbs|)],
      t.rewards + [reward],
      t.nextStates + [nextState],
      t.currentTimestep + 1)
  }

  /** The tuple stored at non-negative position `i`. */
  function At<S>(t: Trajectory<S>, i: nat): Entry<S>
    requires Valid(t) && i < Len(t)
  {
    Entry(t.states[i], t.actions[i], t.actionProbs[i], t.rewards[i], t.nextStates[i], t.legalActions[i])
  }

  datatype IndexError = IndexError

  /** `trajectory[i]` with Python's list indexing: a negative `i` counts
      from the end, and anything outside `-len .. len - 1` raises. */
  function GetItem<S>(t: Trajectory<S>, i: int): (r: Result<Entry<S>, IndexError>)
    requires Valid(t)
    ensures r.Success? <==> -(Len(t) as int) <= i < Len(t)
    ensures 0 <= i < Len(t) ==> r == Success(At(t, i))
    ensures -(Len(t) as int) <= i < 0 ==> r == Success(At(t, Len(t) + i))
  {
    if 0 <= i < Len(t) then Success(At(t, i))
    else if -(Len(t) as int) <= i < 0 then Success(At(t, Len(t) + i))
    else Failure(IndexError)
  }

  /** The trajectory that records `es` in order, each through `add_timestep`
      with the entry's own legal-action mask. */
  function Record<S>(es: seq<Entry<S>>): (t: Trajectory<S>)
    ensures Valid(t) && Len(t) == |es|
  {
    if es == [] then Empty()
    else
      var e := es[|es| - 1];
      AddTimestep(Record(es[..|es| - 1]), e.state, e.action, e.actionProbs, e.reward, e.nextState, Some(e.legalActions))
  }

  /** Insertion order: the `i`-th recorded tuple is returned at index `i`
      (and at `i - len`), provided its legal-action mask is non-empty and
      thus not replaced by the default. */
  lemma {:induction false} RecordIndex<S>(es: seq<Entry<S>>, i: int)
    requires 0 <= i < |es|
    requires forall k :: 0 <= k < |es| ==> es[k].legalActions != []
    ensures GetItem(Record(es), i) == Success(es[i])
    ensures GetItem(Record(es), i - |es|) == Success(es[i])
  {
    var prefix := es[..|es| - 1];
    if i < |es| - 1 {
      assert forall k :: 0 <= k < |prefix| ==> prefix[k].legalActions != [] by {
        forall k | 0 <= k < |prefix| ensures prefix[k].legalActions != [] {
          assert prefix[k] == es[k];
        }
      }
      RecordIndex(prefix, i);
      assert prefix[i] == es[i];
    }
  }

  // ---- returns ----------------------------------------------------------

  function Pow(d: real, i: nat): real {
    if i == 0 then 1.0 else d * Pow(d, i - 1)
  }

  /** Plain sum, last element last (the order `cumsum` adds in). */
  function Sum(s: seq<real>): real {
    if s == [] then 0.0 else Sum(s[..|s| - 1]) + s[|s| - 1]
  }

  lemma {:induction false} SumCons(a: real, s: seq<real>)
    ensures Sum([a] + s) == a + Sum(s)
  {
    if s != [] {
      assert ([a] + s)[..|[a] + s| - 1] == [a] + s[..|s| - 1];
      SumCons(a, s[..|s| - 1]);
    }
  }

  /** Reference definition of a return from step `t`: the rewards from
      `t` on, each weighted by the discount raised to its absolute step. */
  function DiscountedFrom(rs: seq<real>, d: real, t: nat): real
    decreases |rs| - t
  {
    if t >= |rs| then 0.0 else rs[t] * Pow(d, t) + DiscountedFrom(rs, d, t + 1)
  }

  function Reverse<T>(s: seq<T>): (r: seq<T>)
    ensures |r| == |s|
    ensures forall i :: 0 <= i < |s| ==> r[i] == s[|s| - 1 - i]
  {
    seq(|s|, i requires 0 <= i < |s| => s[|s| - 1 - i])
  }

  /** `np.cumsum`: entry `i` is the sum of the first `i + 1` entries. */
  function CumSum(s: seq<real>): (r: seq<real>)
    ensures |r| == |s|
  {
    seq(|s|, i requires 0 <= i < |s| => Sum(s[..i + 1]))
  }

  /** Element-wise product of two arrays of equal length. */
  function Mul(a: seq<real>, b: seq<real>): (r: seq<real>)
    requires |a| == |b|
    ensures |r| == |a| && forall i :: 0 <= i < |a| ==> r[i] == a[i] * b[i]
  {
    seq(|a|, i requires 0 <= i < |a| => a[i] * b[i])
  }

  /** `discount ** np.arange(m)`. */
  function DiscountPowers(d: real, m: nat): (r: seq<real>)
    ensures |r| == m && forall i :: 0 <= i < m ==> r[i] == Pow(d, i)
  {
    seq(m, i requires 0 <= i < m => Pow(d, i))
  }

  /** `np.clip(max_timestep, 0, current_timestep)`, with `None` standing for
      `current_timestep`. */
  function Horizon(maxTimestep: Option<int>, n: nat): (m: nat)
    ensures m <= n
    ensures maxTimestep.None? ==> m == n
    ensures maxTimestep.Some? ==> m == if maxTimestep.value <= 0 then 0 else if maxTimestep.value >= n then n else maxTimestep.value
  {
    var raw := maxTimestep.GetOr(n);
    if raw < 0 then 0 else if raw > n then n else raw
  }

  /** `returns_per_timestep`: rewards and discount powers reversed,
      multiplied, cumulatively summed, and reversed back. */
  function ReturnsPerTimestep(rs: seq<real>, d: real): (g: seq<real>) {
    Reverse(CumSum(Mul(Reverse(rs), Reverse(DiscountPowers(d, |rs|)))))
  }

  datatype Returns = Total(value: real) | ToGo(values: seq<real>)

  datatype ReturnsError = DiscountOutOfRange | ShapeMismatch | NoReturns

  /** `get_returns`: the assertion on the discount, the clipped horizon `m`,
      and either the whole array (`to_go`) or its first entry. The `n`
      rewards are multiplied element-wise with the `m` discount powers, so
      numpy broadcasting decides the shape: equal lengths pair up; a single
      power `d^0 = 1` scales every reward, which drops the discount; a
      single reward against no powers gives an empty array; any other pair
      of lengths raises. Taking the first entry of an empty array raises. */
  function GetReturns<S>(t: Trajectory<S>, maxTimestep: Option<int>, discount: real, toGo: bool): (r: Result<Returns, ReturnsError>)
    requires Valid(t)
    ensures var n := Len(t);
            var m := Horizon(maxTimestep, n);
            && (r.Failure? <==> !(0.0 < discount <= 1.0) || (m != n && m != 1 && n != 1) || (!toGo && m == 0))
            && (!(0.0 < discount <= 1.0) ==> r == Failure(DiscountOutOfRange))
            && (r.Success? ==> (toGo <==> r.value.ToGo?))
            && (r.Success? && toGo ==> |r.value.values| == if m == 0 then 0 else n)
  {
    var n := Len(t);
    var m := Horizon(maxTimestep, n);
    if !(0.0 < discount <= 1.0) then Failure(DiscountOutOfRange)
    else if m != n && m != 1 && n != 1 then Failure(ShapeMismatch)
    else
      var g := if m == n then ReturnsPerTimestep(t.rewards, discount)
               else if m == 1 then ReturnsPerTimestep(t.rewards, 1.0)
               else [];
      if toGo then Success(ToGo(g))
      else if |g| == 0 then Failure(NoReturns)
      else Success(Total(g[0]))
  }

  /** The sum of `w[t..]`, first element first. */
  function SuffixSum(w: seq<real>, t: nat): real
    decreases |w| - t
  {
    if t >= |w| then 0.0 else w[t] + SuffixSum(w, t + 1)
  }

  /** Summing the first `k` entries of a reversed array sums its last `k`. */
  lemma {:induction false} ReversedPrefixSum(w: seq<real>, k: nat)
    requires k <= |w|
    ensures Sum(Reverse(w)[..k]) == SuffixSum(w, |w| - k)
  {
    if k > 0 {
      var x := Reverse(w);
      ReversedPrefixSum(w, k - 1);
      assert x[..k][..k - 1] == x[..k - 1];
      assert x[k - 1] == w[|w| - k];
    }
  }

  /** The weighted rewards `rewards[i] * discount^i`. */
  function Weights(rs: seq<real>, d: real): (w: seq<real>)
    ensures |w| == |rs| && forall i :: 0 <= i < |rs| ==> w[i] == rs[i] * Pow(d, i)
  {
    Mul(rs, DiscountPowers(d, |rs|))
  }

  lemma {:induction false} DiscountedIsSuffix(rs: seq<real>, d: real, t: nat)
    requires t <= |rs|
    ensures DiscountedFrom(rs, d, t) == SuffixSum(Weights(rs, d), t)
    decreases |rs| - t
  {
    if t < |rs| {
      DiscountedIsSuffix(rs, d, t + 1);
    }
  }

  /** Reverse, cumulative sum, reverse back: entry `t` sums `w[t..]`. */
  function SuffixSums(w: seq<real>): (g: seq<real>)
    ensures |g| == |w|
  {
    Reverse(CumSum(Reverse(w)))
  }

  lemma SuffixSumsAt(w: seq<real>, t: nat)
    requires t < |w|
    ensures SuffixSums(w)[t] == SuffixSum(w, t)
  {
    ReversedPrefixSum(w, |w| - t);
  }

  /** Reversing both factors before the product is reversing the product. */
  lemma ReturnsPerTimestepIsSuffixSums(rs: seq<real>, d: real)
    ensures ReturnsPerTimestep(rs, d) == SuffixSums(Weights(rs, d))
  {
    var w := Weights(rs, d);
    var x := Mul(Reverse(rs), Reverse(DiscountPowers(d, |rs|)));
    forall j | 0 <= j < |x| ensures x[j] == Reverse(w)[j] {
      assert Reverse(w)[j] == w[|rs| - 1 - j];
    }
    assert x == Reverse(w);
  }

  /** Entry `t` of the array is the reference return from `t`. */
  lemma ReturnsPerTimestepAt(rs: seq<real>, d: real, t: nat)
    requires t < |rs|
    ensures |ReturnsPerTimestep(rs, d)| == |rs|
    ensures ReturnsPerTimestep(rs, d)[t] == DiscountedFrom(rs, d, t)
  {
    ReturnsPerTimestepIsSuffixSums(rs, d);
    SuffixSumsAt(Weights(rs, d), t);
    DiscountedIsSuffix(rs, d, t);
  }

  /** Returns-to-go, entry by entry: entry `t` is the sum over `i >= t` of
      `discount^i * rewards[i]` (absolute exponent), and without `to_go`
      the result is the whole discounted return. */
  lemma GetReturnsMeaning<S>(tr: Trajectory<S>, discount: real, t: nat)
    requires Valid(tr) && 0.0 < discount <= 1.0 && t < Len(tr)
    ensures GetReturns(tr, None, discount, true) == Success(ToGo(ReturnsPerTimestep(tr.rewards, discount)))
    ensures ReturnsPerTimestep(tr.rewards, discount)[t] == DiscountedFrom(tr.rewards, discount, t)
    ensures GetReturns(tr, None, discount, false) == Success(Total(DiscountedFrom(tr.rewards, discount, 0)))
  {
    ReturnsPerTimestepAt(tr.rewards, discount, t);
    ReturnsPerTimestepAt(tr.rewards, discount, 0);
  }

  /** The backward recurrence the returns-to-go satisfy: the last entry is
      the discounted last reward, and each earlier one adds its own
      discounted reward to the next. */
  lemma ReturnsRecurrence(rs: seq<real>, d: real, t: nat)
    requires t < |rs|
    ensures t == |rs| - 1 ==> ReturnsPerTimestep(rs, d)[t] == Weights(rs, d)[t]
    ensures t < |rs| - 1 ==> ReturnsPerTimestep(rs, d)[t] == Weights(rs, d)[t] + ReturnsPerTimestep(rs, d)[t + 1]
  {
    var w := Weights(rs, d);
    ReturnsPerTimestepIsSuffixSums(rs, d);
    SuffixSumsAt(w, t);
    assert SuffixSum(w, t) == w[t] + SuffixSum(w, t + 1);
    if t < |rs| - 1 {
      SuffixSumsAt(w, t + 1);
    } else {
      assert SuffixSum(w, t + 1) == 0.0;
    }
  }

  lemma {:induction false} UndiscountedFrom(rs: seq<real>, t: nat)
    requires t <= |rs|
    ensures DiscountedFrom(rs, 1.0, t) == Sum(rs[t..])
    decreases |rs| - t
  {
    if t < |rs| {
      UndiscountedFrom(rs, t + 1);
      PowOne(t);
      assert rs[t..] == [rs[t]] + rs[t + 1..];
      SumCons(rs[t], rs[t + 1..]);
    }
  }

  lemma {:induction false} PowOne(i: nat)
    ensures Pow(1.0, i) == 1.0
  {
    if i > 0 {
      PowOne(i - 1);
    }
  }

  /** With discount 1 the total return is the plain sum of the rewards. */
  lemma UndiscountedTotal<S>(tr: Trajectory<S>)
    requires Valid(tr) && Len(tr) > 0
    ensures GetReturns(tr, None, 1.0, false) == Success(Total(Sum(tr.rewards)))
  {
    ReturnsPerTimestepAt(tr.rewards, 1.0, 0);
    UndiscountedFrom(tr.rewards, 0);
    assert tr.rewards[0..] == tr.rewards;
  }

  /** A horizon of one against a longer trajectory broadcasts `d^0 = 1`
      over every reward: the total is the undiscounted sum of all rewards,
      whatever the discount, rather than the first reward. */
  lemma HorizonOneIgnoresDiscount<S>(tr: Trajectory<S>, discount: real)
    requires Valid(tr) && Len(tr) > 1 && 0.0 < discount <= 1.0
    ensures GetReturns(tr, Some(1), discount, false) == Success(Total(Sum(tr.rewards)))
  {
    ReturnsPerTimestepAt(tr.rewards, 1.0, 0);
    UndiscountedFrom(tr.rewards, 0);
    assert tr.rewards[0..] == tr.rewards;
  }

  /** Every horizon strictly between one and the length raises. */
  lemma ShortHorizonRaises<S>(tr: Trajectory<S>, h: int, discount: real, toGo: bool)
    requires Valid(tr) && 1 < h < Len(tr) && 0.0 < discount <= 1.0
    ensures GetReturns(tr, Some(h), discount, toGo) == Failure(ShapeMismatch)
  {
  }

  // ---- finite-horizon returns as evidently intended ----------------------

  /** `get_returns` with the rewards cut to the clipped horizon before the
      discount powers are applied, so both arrays have `m` entries. */
  function GetReturnsTruncated<S>(t: Trajectory<S>, maxTimestep: Option<int>, discount: real, toGo: bool): (r: Result<Returns, ReturnsError>)
    requires Valid(t)
    ensures var m := Horizon(maxTimestep, Len(t));
            && (r.Failure? <==> !(0.0 < discount <= 1.0) || (!toGo && m == 0))
            && (r.Success? && toGo ==> r.value.ToGo? && |r.value.values| == m)
  {
    var m := Horizon(maxTimestep, Len(t));
    if !(0.0 < discount <= 1.0) then Failure(DiscountOutOfRange)
    else
      var g := ReturnsPerTimestep(t.rewards[..m], discount);
      if toGo then Success(ToGo(g))
      else if |g| == 0 then Failure(NoReturns)
      else Success(Total(g[0]))
  }

  /** With discount 1 and a horizon `m > 0`, the total is the sum of the
      first `m` rewards: the finite-horizon undiscounted return. */
  lemma FiniteHorizonUndiscounted<S>(tr: Trajectory<S>, h: int)
    requires Valid(tr) && 0 < h
    requires Len(tr) > 0
    ensures var m := Horizon(Some(h), Len(tr));
            GetReturnsTruncated(tr, Some(h), 1.0, false) == Success(Total(Sum(tr.rewards[..m])))
  {
    var m := Horizon(Some(h), Len(tr));
    var rs := tr.rewards[..m];
    ReturnsPerTimestepAt(rs, 1.0, 0);
    UndiscountedFrom(rs, 0);
    assert rs[0..] == rs;
  }

  /** Without a horizon the truncated version is `get_returns` itself. */
  lemma TruncatedFullHorizon<S>(tr: Trajectory<S>, discount: real, toGo: bool)
    requires Valid(tr)
    ensures GetReturnsTruncated(tr, None, discount, toGo) == GetReturns(tr, None, discount, toGo)
  {
    assert tr.rewards[..Len(tr)] == tr.rewards;
  }

  /** Rewards [1, 2, 3] with horizon 2 and discount 1: `get_returns` raises,
      while the truncated version gives 1 + 2. */
  lemma ShortHorizonExample()
    ensures var tr := Trajectory([0, 0, 0], [0, 0, 0], [[], [], []], [[], [], []], [1.0, 2.0, 3.0], [0, 0, 0], 3);
            && GetReturns(tr, Some(2), 1.0, false) == Failure(ShapeMismatch)
            && GetReturnsTruncated(tr, Some(2), 1.0, false) == Success(Total(3.0))
  {
    var tr := Trajectory([0, 0, 0], [0, 0, 0], [[], [], []], [[], [], []], [1.0, 2.0, 3.0], [0, 0, 0], 3);
    FiniteHorizonUndiscounted(tr, 2);
    assert tr.rewards[..2] == [1.0, 2.0];
    assert Sum([1.0, 2.0]) == Sum([1.0]) + 2.0;
  }

  // ---- returns-to-go as evidently intended --------------------------------

  /** Reference return-to-go with the exponent relative to `t`:
      `sum over i >= t of discount^(i - t) * rewards[i]`. */
  function RelativeFrom(rs: seq<real>, d: real, t: nat): real
    decreases |rs| - t
  {
    if t >= |rs| then 0.0 else rs[t] + d * RelativeFrom(rs, d, t + 1)
  }

  /** Returns-to-go where each step restarts the discounting. */
  function ReturnsToGoRelative(rs: seq<real>, d: real): (g: seq<real>)
    ensures |g| == |rs|
    ensures forall t :: 0 <= t < |rs| ==> g[t] == RelativeFrom(rs, d, t)
  {
    seq(|rs|, t requires 0 <= t < |rs| => RelativeFrom(rs, d, t))
  }

  /** The absolute-exponent return from `t` is the relative one scaled by
      `discount^t`. */
  lemma {:induction false} RelativeScaled(rs: seq<real>, d: real, t: nat)
    ensures DiscountedFrom(rs, d, t) == Pow(d, t) * RelativeFrom(rs, d, t)
    decreases |rs| - t
  {
    if t < |rs| {
      var p := Pow(d, t);
      var rest := RelativeFrom(rs, d, t + 1);
      calc {
        DiscountedFrom(rs, d, t);
        rs[t] * p + DiscountedFrom(rs, d, t + 1);
        { RelativeScaled(rs, d, t + 1); }
        rs[t] * p + Pow(d, t + 1) * rest;
        { assert Pow(d, t + 1) == d * p; }
        rs[t] * p + (d * p) * rest;
        p * (rs[t] + d * rest);
        p * RelativeFrom(rs, d, t);
      }
    }
  }

  /** The relative form keeps the recurrence `G[t] = r[t] + d * G[t + 1]`
      and ends with the last reward undiscounted. */
  lemma ReturnsToGoRelativeRecurrence(rs: seq<real>, d: real, t: nat)
    requires t < |rs|
    ensures t < |rs| - 1 ==> ReturnsToGoRelative(rs, d)[t] == rs[t] + d * ReturnsToGoRelative(rs, d)[t + 1]
    ensures t == |rs| - 1 ==> ReturnsToGoRelative(rs, d)[t] == rs[t]
  {
    if t == |rs| - 1 {
      assert RelativeFrom(rs, d, t + 1) == 0.0;
    }
  }

  /** At step 0 the two forms agree, so the total return is unaffected. */
  lemma ReturnsToGoRelativeAtStart(rs: seq<real>, d: real)
    requires |rs| > 0
    ensures ReturnsPerTimestep(rs, d)[0] == ReturnsToGoRelative(rs, d)[0]
  {
    ReturnsPerTimestepAt(rs, d, 0);
    RelativeScaled(rs, d, 0);
  }

  /** Rewards [0, 1] with discount 1/2: the code's return-to-go at step 1 is
      1/2, while the reward still to come from step 1 is 1. */
  lemma AbsoluteExponentExample()
    ensures ReturnsPerTimestep([0.0, 1.0], 0.5)[1] == 0.5
    ensures ReturnsToGoRelative([0.0, 1.0], 0.5)[1] == 1.0
  {
    ReturnsPerTimestepAt([0.0, 1.0], 0.5, 1);
  }
}
