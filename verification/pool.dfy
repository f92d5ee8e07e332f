/** A pool of trajectories: how many time steps it holds, how pools are
    grown, and how iteration cuts the shuffled, flattened time steps into
    equal mini-batches. The shuffle is an argument (a permutation chosen by
    the caller in place of `torch.randperm`). */
module Pools {
  import opened Wrappers
  import opened Trajectories

  datatype Pool<S> = Pool(trajectories: seq<Trajectory<S>>, discount: real, minibatchSize: Option<int>)

  /** Every trajectory of the pool keeps its six lists in step. */
  predicate AllValid<S>(p: Pool<S>) {
    forall i :: 0 <= i < |p.trajectories| ==> Valid(p.trajectories[i])
  }

  /** Total number of time steps over a list of trajectories. */
  function TotalSteps<S>(ts: seq<Trajectory<S>>): nat {
    if ts == [] then 0 else TotalSteps(ts[..|ts| - 1]) + Len(ts[|ts| - 1])
  }

  /** `len(pool)`: the time steps of all trajectories together. */
  function PoolLen<S>(p: Pool<S>): nat {
    TotalSteps(p.trajectories)
  }

  /** `TrajectoryPool(discount, minibatch_size, n)`: `n` empty trajectories
      (none when `n` is negative, as `range(n)` is then empty). */
  function Init<S>(discount: real, minibatchSize: Option<int>, n: int): (p: Pool<S>)
    ensures AllValid(p)
    ensures |p.trajectories| == if n < 0 then 0 else n
    ensures forall i :: 0 <= i < |p.trajectories| ==> Len(p.trajectories[i]) == 0
    ensures p.discount == discount && p.minibatchSize == minibatchSize
  {
    Pool(seq(if n < 0 then 0 else n, _ => Empty()), discount, minibatchSize)
  }

  lemma {:induction false} ZeroSteps<S>(ts: seq<Trajectory<S>>)
    requires forall i :: 0 <= i < |ts| ==> Len(ts[i]) == 0
    ensures TotalSteps(ts) == 0
  {
    if ts != [] {
      ZeroSteps(ts[..|ts| - 1]);
    }
  }

  /** A fresh pool holds no time steps, however many trajectories it has. */
  lemma InitEmpty<S>(discount: real, minibatchSize: Option<int>, n: int)
    ensures PoolLen(Init<S>(discount, minibatchSize, n)) == 0
  {
    ZeroSteps(Init<S>(discount, minibatchSize, n).trajectories);
  }

  /** `add`: the trajectory goes at the end, the others stay where they
      were, and the pool grows by its time steps. */
  function Add<S>(p: Pool<S>, t: Trajectory<S>): (r: Pool<S>)
    ensures |r.trajectories| == |p.trajectories| + 1 && r.trajectories[|p.trajectories|] == t
    ensures forall i :: 0 <= i < |p.trajectories| ==> r.trajectories[i] == p.trajectories[i]
    ensures r.discount == p.discount && r.minibatchSize == p.minibatchSize
    ensures PoolLen(r) == PoolLen(p) + Len(t)
  {
    var ts := p.trajectories + [t];
    assert ts[..|ts| - 1] == p.trajectories;
    p.(trajectories := ts)
  }

  /** `extend`: the other pool's trajectories are added one by one, in
      order, after the existing ones, which stay unchanged; the settings
      of the extended pool are kept. */
  method Extend<S>(p: Pool<S>, q: Pool<S>) returns (r: Pool<S>)
    ensures |r.trajectories| == |p.trajectories| + |q.trajectories|
    ensures forall i :: 0 <= i < |p.trajectories| ==> r.trajectories[i] == p.trajectories[i]
    ensures forall i :: 0 <= i < |q.trajectories| ==> r.trajectories[|p.trajectories| + i] == q.trajectories[i]
    ensures r.discount == p.discount && r.minibatchSize == p.minibatchSize
    ensures PoolLen(r) == PoolLen(p) + PoolLen(q)
  {
    r := p;
    var i := 0;
    while i < |q.trajectories|
      invariant 0 <= i <= |q.trajectories|
      invariant r.trajectories == p.trajectories + q.trajectories[..i]
      invariant r.discount == p.discount && r.minibatchSize == p.minibatchSize
      invariant PoolLen(r) == PoolLen(p) + TotalSteps(q.trajectories[..i])
    {
      assert q.trajectories[..i + 1][..i] == q.trajectories[..i];
      r := Add(r, q.trajectories[i]);
      i := i + 1;
    }
    assert q.trajectories[..i] == q.trajectories;
  }

  /** Extending with a pool whose trajectories are all valid keeps the pool
      valid. */
  lemma ExtendKeepsValid<S>(p: Pool<S>, q: Pool<S>, r: Pool<S>)
    requires AllValid(p) && AllValid(q)
    requires |r.trajectories| == |p.trajectories| + |q.trajectories|
    requires forall i :: 0 <= i < |p.trajectories| ==> r.trajectories[i] == p.trajectories[i]
    requires forall i :: 0 <= i < |q.trajectories| ==> r.trajectories[|p.trajectories| + i] == q.trajectories[i]
    ensures AllValid(r)
  {
    forall i | 0 <= i < |r.trajectories| ensures Valid(r.trajectories[i]) {
      if i >= |p.trajectories| {
        assert r.trajectories[|p.trajectories| + (i - |p.trajectories|)] == q.trajectories[i - |p.trajectories|];
      }
    }
  }

  // ---- flattening and iteration -------------------------------------------

  /** One time step of the flattened pool, with its return-to-go in place
      of the reward (what `tensorify` stacks). */
  datatype Row<S> = Row(entry: Entry<S>, returnToGo: real)

  /** The rows of one trajectory: each entry with its discounted
      return-to-go, as `get_returns(discount, to_go=True)` computes it. */
  function TrajectoryRows<S>(t: Trajectory<S>, d: real): (rows: seq<Row<S>>)
    requires Valid(t) && 0.0 < d <= 1.0
    ensures |rows| == Len(t)
  {
    var g := GetReturns(t, None, d, true).value.values;
    seq(Len(t), i requires 0 <= i < Len(t) => Row(At(t, i), g[i]))
  }

  /** Row `i` of a trajectory is its `i`-th entry with the return from `i`. */
  lemma TrajectoryRowsAt<S>(t: Trajectory<S>, d: real, i: nat)
    requires Valid(t) && 0.0 < d <= 1.0 && i < Len(t)
    ensures TrajectoryRows(t, d)[i] == Row(At(t, i), DiscountedFrom(t.rewards, d, i))
  {
    GetReturnsMeaning(t, d, i);
  }

  /** The pool's rows, trajectory after trajectory (`torch.cat`). */
  function Rows<S>(ts: seq<Trajectory<S>>, d: real): (rows: seq<Row<S>>)
    requires forall i :: 0 <= i < |ts| ==> Valid(ts[i])
    requires 0.0 < d <= 1.0
    ensures |rows| == TotalSteps(ts)
  {
    if ts == [] then [] else Rows(ts[..|ts| - 1], d) + TrajectoryRows(ts[|ts| - 1], d)
  }

  /** What `torch.randperm(n)` returns: each of `0 .. n - 1` exactly once. */
  predicate IsPermutation(perm: seq<nat>, n: nat) {
    && |perm| == n
    && (forall i :: 0 <= i < n ==> perm[i] < n)
    && (forall i, j :: 0 <= i < j < n ==> perm[i] != perm[j])
  }

  datatype IterError = NoMinibatchSize | NothingToConcatenate | DiscountOutOfRange | ZeroDivision

  /** The iterator state: the pool, the next mini-batch number and the
      shuffled rows. */
  datatype Batches<S> = Batches(pool: Pool<S>, current: nat, fullBatch: seq<Row<S>>)

  predicate BatchesValid<S>(b: Batches<S>) {
    AllValid(b.pool) && b.pool.minibatchSize.Some? && |b.fullBatch| == PoolLen(b.pool)
  }

  /** `iter(pool)`: the mini-batch size must be set; the rows are built
      (which needs at least one trajectory and a discount in (0, 1]) and
      reordered by `perm`. */
  function Iter<S>(p: Pool<S>, perm: seq<nat>): (r: Result<Batches<S>, IterError>)
    requires AllValid(p) && IsPermutation(perm, PoolLen(p))
    ensures r.Failure? <==> p.minibatchSize.None? || p.trajectories == [] || !(0.0 < p.discount <= 1.0)
    ensures p.minibatchSize.None? ==> r == Failure(NoMinibatchSize)
    ensures r.Success? ==> && BatchesValid(r.value) && r.value.pool == p && r.value.current == 0
                           && forall i :: 0 <= i < PoolLen(p) ==> r.value.fullBatch[i] == Rows(p.trajectories, p.discount)[perm[i]]
  {
    if p.minibatchSize.None? then Failure(NoMinibatchSize)
    else if p.trajectories == [] then Failure(NothingToConcatenate)
    else if !(0.0 < p.discount <= 1.0) then Failure(IterError.DiscountOutOfRange)
    else
      var rows := Rows(p.trajectories, p.discount);
      Success(Batches(p, 0, seq(PoolLen(p), i requires 0 <= i < PoolLen(p) => rows[perm[i]])))
  }

  /** Python's `a // b` for `b != 0`: the floor of the quotient. */
  function FloorDiv(a: int, b: int): (q: int)
    requires b != 0
    ensures b > 0 ==> q * b <= a < q * b + b
    ensures b < 0 ==> q * b >= a > q * b + b
  {
    if b > 0 then a / b else (-a) / (-b)
  }

  /** Python's `s[start:end]`: negative bounds count from the end, and both
      are clipped to the sequence. */
  function Slice<T>(s: seq<T>, start: int, end: int): (r: seq<T>)
    ensures 0 <= start <= end <= |s| ==> r == s[start..end]
  {
    var lo := if start < 0 then (if start + |s| < 0 then 0 else start + |s|) else if start > |s| then |s| else start;
    var hi := if end < 0 then (if end + |s| < 0 then 0 else end + |s|) else if end > |s| then |s| else end;
    s[lo..if hi < lo then lo else hi]
  }

  datatype NextOutcome<S> = Stop | Batch(rows: seq<Row<S>>, rest: Batches<S>) | Raise(error: IterError)

  /** How many mini-batches a pool of `n` rows yields with size `m`. */
  function BatchCount(n: nat, m: int): nat {
    if m > 0 then n / m else 0
  }

  /** A batch number below `n / m` describes rows inside the array. */
  lemma BatchInside(j: int, m: int, n: nat)
    requires m > 0 && 0 <= j < n / m
    ensures 0 <= j * m && j * m + m <= n
  {
    var q := n / m;
    assert (j + 1) * m <= q * m;
  }

  /** Mini-batch `j` of size `m`: rows `[j * m, j * m + m)`. */
  function MiniBatch<T>(rows: seq<T>, j: int, m: int): (r: seq<T>)
    requires m > 0 && 0 <= j < |rows| / m
    ensures |r| == m && forall i :: 0 <= i < m ==> j * m + i < |rows| && r[i] == rows[j * m + i]
  {
    BatchInside(j, m, |rows|);
    rows[j * m .. j * m + m]
  }

  /** `next(iterator)`: a zero size raises; once `current` reaches
      `len // minibatch_size` iteration stops (at once for a negative
      size); otherwise mini-batch `current` comes out and `current` moves
      on. */
  function Next<S>(b: Batches<S>): (r: NextOutcome<S>)
    requires BatchesValid(b)
    ensures b.pool.minibatchSize.value == 0 <==> r.Raise?
    ensures r.Raise? ==> r.error == ZeroDivision
    ensures r.Batch? <==> b.current < BatchCount(|b.fullBatch|, b.pool.minibatchSize.value)
    ensures r.Batch? ==> && b.pool.minibatchSize.value > 0
                         && r.rows == MiniBatch(b.fullBatch, b.current, b.pool.minibatchSize.value)
                         && r.rest == b.(current := b.current + 1)
  {
    var m := b.pool.minibatchSize.value;
    var timesteps := PoolLen(b.pool);
    if m == 0 then Raise(ZeroDivision)
    else if b.current >= FloorDiv(timesteps, m) then Stop
    else
      var start := b.current * m;
      var end := start + m;
      BatchInside(b.current, m, timesteps);
      Batch(Slice(b.fullBatch, start, end), b.(current := b.current + 1))
  }

  /** Every mini-batch still to come, in order, until the iteration stops
      (or raises). */
  function Drain<S>(b: Batches<S>): (r: Result<seq<seq<Row<S>>>, IterError>)
    requires BatchesValid(b)
    decreases BatchCount(|b.fullBatch|, b.pool.minibatchSize.value) - b.current
  {
    match Next(b)
    case Stop => Success([])
    case Raise(e) => Failure(e)
    case Batch(rows, rest) =>
      match Drain(rest)
      case Success(more) => Success([rows] + more)
      case Failure(e) => Failure(e)
  }

  /** From mini-batch `c` on, iteration yields exactly the mini-batches
      `c .. len / m - 1`, in order. */
  lemma {:induction false} DrainFrom<S>(b: Batches<S>)
    requires BatchesValid(b) && b.pool.minibatchSize.value > 0
    requires b.current <= |b.fullBatch| / b.pool.minibatchSize.value
    ensures var m := b.pool.minibatchSize.value;
            var k := |b.fullBatch| / m;
            && Drain(b).Success?
            && |Drain(b).value| == k - b.current
            && forall j :: b.current <= j < k ==> Drain(b).value[j - b.current] == MiniBatch(b.fullBatch, j, m)
    decreases |b.fullBatch| / b.pool.minibatchSize.value - b.current
  {
    var m := b.pool.minibatchSize.value;
    var k := |b.fullBatch| / m;
    if b.current < k {
      var rest := b.(current := b.current + 1);
      DrainFrom(rest);
      assert Next(b) == Batch(MiniBatch(b.fullBatch, b.current, m), rest);
      var all := Drain(b).value;
      assert all == [MiniBatch(b.fullBatch, b.current, m)] + Drain(rest).value;
      forall j | b.current < j < k ensures all[j - b.current] == MiniBatch(b.fullBatch, j, m) {
        assert all[j - b.current] == Drain(rest).value[j - rest.current];
      }
    }
  }

  /** Draining from the first mini-batch: `len / m` mini-batches in order
      for a positive size, a raise for size zero, nothing for a negative
      size. */
  lemma DrainAll<S>(b: Batches<S>)
    requires BatchesValid(b) && b.current == 0
    ensures var m := b.pool.minibatchSize.value;
            var n := |b.fullBatch|;
            && (m > 0 ==> && Drain(b).Success?
                          && |Drain(b).value| == n / m
                          && forall j :: 0 <= j < n / m ==> Drain(b).value[j] == MiniBatch(b.fullBatch, j, m))
            && (m == 0 ==> Drain(b) == Failure(ZeroDivision))
            && (m < 0 ==> Drain(b) == Success([]))
  {
    if b.pool.minibatchSize.value > 0 {
      DrainFrom(b);
    }
  }

  /** Floor division leaves a remainder below the divisor. */
  lemma Remainder(n: nat, m: int)
    requires m > 0
    ensures 0 <= n - (n / m) * m < m
  {
  }

  /** A whole pass: with a positive mini-batch size the iterator yields
      `len / m` mini-batches that tile the shuffled rows from the front,
      leaving out the last `len % m < m` rows; with a zero size the first
      `next` raises, and with a negative one nothing is yielded. */
  lemma AllBatches<S>(p: Pool<S>, perm: seq<nat>)
    requires AllValid(p) && IsPermutation(perm, PoolLen(p)) && Iter(p, perm).Success?
    ensures var b := Iter(p, perm).value;
            var m := p.minibatchSize.value;
            && (m > 0 ==> && Drain(b).Success?
                          && |Drain(b).value| == PoolLen(p) / m
                          && PoolLen(p) - (PoolLen(p) / m) * m < m
                          && forall j :: 0 <= j < PoolLen(p) / m ==> Drain(b).value[j] == MiniBatch(b.fullBatch, j, m))
            && (m == 0 ==> Drain(b) == Failure(ZeroDivision))
            && (m < 0 ==> Drain(b) == Success([]))
  {
    var b := Iter(p, perm).value;
    assert b.pool == p && |b.fullBatch| == PoolLen(p);
    DrainAll(b);
    if p.minibatchSize.value > 0 {
      Remainder(PoolLen(p), p.minibatchSize.value);
    }
  }
}
