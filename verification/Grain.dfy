/** `choose_auto_grain` (host_client.mbt) and what it means for the number of claimed chunks. */
module Grain {
  import opened Arithmetic
  import opened Int32
  import opened DispatchModel
  import opened DispatchClaims
  import opened DispatchCoverage
  import opened Wrappers
  import opened Partition
  import DispatchRuns

  /** length / parts rounded up, as the source writes it. */
  function Quota(length: int, parts: int): int
    requires 0 < length && 0 < parts
  {
    if length % parts == 0 then length / parts else length / parts + 1
  }

  /** `Double::to_int`: truncation that saturates. */
  function ToInt(x: real): int {
    if x >= MAX as real then MAX else if x <= MIN as real then MIN else if x >= 0.0 then x.Floor else -((-x).Floor)
  }

  /**
   As many items as take 0.1 ms by the observed cost, between 1 and an even share. A cost that was never
   observed or is not positive gives about eight chunks per worker.
   */
  function AutoGrain(fl: real -> real, length: int, workers: int, msPerItem: Option<real>): int
    requires 0 < workers && workers * 8 <= MAX
  {
    if length <= 0 then 1
    else
      var maximum := Quota(length, workers);
      var candidate := if msPerItem.Some? && msPerItem.value > 0.0 then ToInt(fl(0.1 / msPerItem.value))
                       else Quota(length, workers * 8);
      Clamped(candidate, maximum)
  }

  function Clamped(candidate: int, maximum: int): int {
    if candidate < 1 then 1 else if candidate > maximum then maximum else candidate
  }

  /** Exactly the least g with g * parts >= length. */
  lemma {:induction false} QuotaIsCeiling(length: int, parts: int)
    requires 0 < length && 0 < parts
    ensures 1 <= Quota(length, parts) && (Quota(length, parts) - 1) * parts < length <= Quota(length, parts) * parts
  {
    assert length == length / parts * parts + length % parts;
  }

  lemma LeastFactor(a: int, b: int, few: int, many: int, length: int)
    requires (b - 1) * many < length <= a * few && 0 < few <= many && 0 <= a
    ensures b <= a
  {
    MulOrder(few, many, a);
    if a < b { MulOrder(a, b - 1, many); }
  }

  lemma QuotaFalls(length: int, few: int, many: int)
    requires 0 < length && 0 < few <= many
    ensures Quota(length, many) <= Quota(length, few)
  {
    QuotaIsCeiling(length, few);
    QuotaIsCeiling(length, many);
    LeastFactor(Quota(length, few), Quota(length, many), few, many, length);
  }

  /**
   The grain is usable, never leaves a worker without a chunk for lack of chunks, and without an
   observed cost is the least that needs at most 8 * workers chunks for an undivided range.
   */
  lemma {:induction false} AutoGrainRange(fl: real -> real, length: int, workers: int, msPerItem: Option<real>)
    requires 0 < workers && workers * 8 <= MAX && length <= MAX
    ensures 1 <= AutoGrain(fl, length, workers, msPerItem) <= MAX
    ensures 0 < length ==> (AutoGrain(fl, length, workers, msPerItem) - 1) * workers < length
    ensures 0 < length && (msPerItem.None? || msPerItem.value <= 0.0) ==>
      AutoGrain(fl, length, workers, msPerItem) == Quota(length, workers * 8)
  {
    if 0 < length {
      QuotaIsCeiling(length, workers);
      QuotaFalls(length, workers, workers * 8);
      QuotaIsCeiling(length, workers * 8);
      var g, m := AutoGrain(fl, length, workers, msPerItem), Quota(length, workers);
      MulOrder(g - 1, m - 1, workers);
      QuotaAtMost(length, workers);
    }
  }

  /** What rounding may do to the time of one chunk. */
  const LONG: real := 0.1 * UP
  const SHORT: real := 0.1 * DOWN

  /** How long that many items take by a cost of c ms per item. */
  function Time(items: int, c: real): real {
    items as real * c
  }

  /** A chunk of g items takes at most `long` and one item more than `short`, unless share or item decides. */
  predicate Fits(g: int, share: int, c: real, short: real, long: real) {
    && (1 < g < share ==> Time(g, c) <= long && short < Time(g + 1, c))
    && (Time(share, c) <= short ==> g == share)
    && (long < Time(2, c) ==> g == 1)
  }

  /**
   What the grain is for, with an observed cost and a rounded quotient: a chunk takes about 0.1 ms and
   one item more would take longer, unless an even share is already shorter than that or two items are
   already longer.
   */
  lemma {:induction false} ObservedGrain(fl: real -> real, length: int, workers: int, c: real)
    requires Rounding(fl) && 0 < workers && workers * 8 <= MAX && 0 < length <= MAX && 0.0 < c
    ensures Fits(AutoGrain(fl, length, workers, Some(c)), Quota(length, workers), c, SHORT, LONG)
  {
    Inverse10(c);
    assert Settled(fl, 0.1 / c);
    ShareInside(length, workers);
    ChunkTime(0.1 / c, fl(0.1 / c), c, Quota(length, workers), DOWN, UP);
  }

  /** The same without rounding: the chunk's time is 0.1 ms rounded down to whole items. */
  lemma {:induction false} ObservedGrainExact(length: int, workers: int, c: real)
    requires 0 < workers && workers * 8 <= MAX && 0 < length <= MAX && 0.0 < c
    ensures Fits(AutoGrain(Partition.Exact(), length, workers, Some(c)), Quota(length, workers), c, 0.1, 0.1)
  {
    Inverse10(c);
    ShareInside(length, workers);
    ChunkTime(0.1 / c, 0.1 / c, c, Quota(length, workers), 1.0, 1.0);
  }

  lemma {:induction false} ShareInside(length: int, workers: int)
    requires 0 < length && 0 < workers
    ensures 1 <= Quota(length, workers) <= length
  {
    QuotaIsCeiling(length, workers);
    QuotaAtMost(length, workers);
  }

  lemma {:induction false} Inverse10(c: real)
    requires 0.0 < c
    ensures 0.0 <= 0.1 / c && 0.1 / c * c == 0.1
  {
    Divide(0.0, 0.1, c);
  }

  /** y is the number of items, up to a relative error, that take 0.1 ms. */
  lemma {:induction false} ChunkTime(q: real, y: real, c: real, share: int, down: real, up: real)
    requires 0.0 < c && q * c == 0.1 && q * down <= y <= q * up && 0.0 <= y && 1 <= share <= MAX
    ensures Fits(Clamped(ToInt(y), share), share, c, 0.1 * down, 0.1 * up)
  {
    assert q * up * c == 0.1 * up && q * down * c == 0.1 * down;
    Scale(y, q * up, c);
    Scale(q * down, y, c);
    Truncated(y, c, Clamped(ToInt(y), share), share, 0.1 * down, 0.1 * up);
  }

  lemma {:induction false} Truncated(y: real, c: real, g: int, share: int, short: real, long: real)
    requires 0.0 < c && 0.0 <= y && 1 <= share <= MAX && short <= y * c <= long && g == Clamped(ToInt(y), share)
    ensures Fits(g, share, c, short, long)
  {
    Whole(y, g, share);
    Compared(y, g, c);
    Compared(y, g + 1, c);
    Compared(y, share, c);
    Compared(y, 2, c);
  }

  /** The clamped number of whole items in y. */
  lemma {:induction false} Whole(y: real, g: int, share: int)
    requires 0.0 <= y && 1 <= share <= MAX && g == Clamped(ToInt(y), share)
    ensures 1 < g < share ==> g as real <= y < (g + 1) as real
    ensures share as real <= y ==> g == share
    ensures y < 2 as real ==> g == 1
  {}

  lemma {:induction false} Compared(y: real, items: int, c: real)
    requires 0.0 < c
    ensures items as real <= y <==> Time(items, c) <= y * c
  {
    if items as real <= y { Scale(items as real, y, c); } else { Below(y, items as real, c); }
  }

  lemma {:induction false} Below(a: real, b: real, x: real)
    requires a < b && 0.0 < x
    ensures a * x < b * x
  {
    assert 0.0 < (b - a) * x;
  }

  lemma QuotaAtMost(length: int, parts: int)
    requires 0 < length && 0 < parts
    ensures Quota(length, parts) <= length
  {
    QuotaFalls(length, 1, parts);
  }

  // ---- chunks over all shards

  /** The sum over the first n shards of ceil(length / g). */
  function Chunks(bounds: seq<int>, n: nat, g: int): nat
    requires n < |bounds| && 0 < g
  {
    if n == 0 then 0 else Chunks(bounds, n - 1, g) + CeilDiv(bounds[n] - bounds[n - 1], g)
  }

  lemma {:induction false} ChunksBound(bounds: seq<int>, n: nat, g: int)
    requires n < |bounds| && 0 < g
    requires forall v :: 0 <= v < n ==> bounds[v] <= bounds[v + 1]
    ensures Chunks(bounds, n, g) * g <= bounds[n] - bounds[0] + n * (g - 1)
  {
    if n > 0 {
      ChunksBound(bounds, n - 1, g);
      CeilDivIsQuotient(bounds[n] - bounds[n - 1], g);
      Distribute(Chunks(bounds, n - 1, g), CeilDiv(bounds[n] - bounds[n - 1], g), g);
      Distribute(n - 1, 1, g - 1);
    }
  }

  lemma AtMostNine(sum: int, workers: int, g: int, length: int)
    requires sum * g <= length + workers * (g - 1) && length <= g * (workers * 8) && 1 <= g && 0 <= workers
    ensures sum <= 9 * workers
  {
    var p := workers * g;
    assert workers * (g - 1) == p - workers;
    assert g * (workers * 8) == 8 * p;
    assert (sum - 9 * workers - 1) * g == sum * g - 9 * p - g;
    assert sum > 9 * workers ==> 0 <= (sum - 9 * workers - 1) * g;
  }

  /** With the initial automatic grain, however the range is cut: at most 9 chunks per worker. */
  lemma {:induction false} NinePerWorker(bounds: seq<int>, workers: nat, g: int)
    requires workers + 1 == |bounds| && 0 < workers && workers * 8 <= MAX
    requires forall v :: 0 <= v < workers ==> bounds[v] <= bounds[v + 1]
    requires bounds[0] < bounds[workers] && g == Quota(bounds[workers] - bounds[0], workers * 8)
    ensures Chunks(bounds, workers, g) <= 9 * workers
  {
    QuotaIsCeiling(bounds[workers] - bounds[0], workers * 8);
    ChunksBound(bounds, workers, g);
    AtMostNine(Chunks(bounds, workers, g), workers, g, bounds[workers] - bounds[0]);
  }

  // ---- claims of a whole dispatch

  function Total(claims: seq<nat>, n: nat): nat
    requires n <= |claims|
  {
    if n == 0 then 0 else Total(claims, n - 1) + claims[n - 1]
  }

  lemma {:induction false} TotalIsChunks(s: State, n: nat)
    requires n < |s.job.bounds| && n <= |s.hist.claims| && 0 < s.job.grain
    requires forall v :: 0 <= v < n ==> DispatchRuns.InChunks(s, v)
    ensures Total(s.hist.claims, n) == Chunks(s.job.bounds, n, s.job.grain)
  {
    if n > 0 {
      assert DispatchRuns.InChunks(s, n - 1);
      TotalIsChunks(s, n - 1);
    }
  }

  /** The dispatch is over a non-empty range with the grain chosen before any cost was observed. */
  ghost predicate InitialAuto(c: Config, s: State) {
    && 0 < c.workers && c.workers * 8 <= MAX && |s.job.bounds| == c.workers + 1
    && s.job.bounds[0] < s.job.bounds[c.workers]
    && s.job.grain == AutoGrain(Partition.Exact(), s.job.bounds[c.workers] - s.job.bounds[0], c.workers, None)
  }

  /**
   A dispatch that ends with every status OK, and in which no slot was touched early, makes exactly
   the sum of ceil(length / grain) successful claims; at most 9 per worker for the initial grain.
   */
  lemma {:induction false} ClaimsOfDispatch(c: Config, data: seq<int>, schedule: seq<Action>)
    requires ValidConfig(c) && |data| == c.capacity
    ensures
      var s := After(c, data, schedule);
      s.host.Complete? && Dynamic(c, s) && AllOk(s) && !s.hist.early ==>
        && Total(s.hist.claims, c.workers) == Chunks(s.job.bounds, c.workers, s.job.grain)
        && (InitialAuto(c, s) ==> Total(s.hist.claims, c.workers) <= 9 * c.workers)
  {
    var s := After(c, data, schedule);
    if s.host.Complete? && Dynamic(c, s) && AllOk(s) && !s.hist.early {
      forall v | 0 <= v < c.workers ensures DispatchRuns.InChunks(s, v) {
        DispatchRuns.ClaimsPerShard(c, data, schedule, v);
      }
      TotalIsChunks(s, c.workers);
      Bounds(c, data, schedule);
      if InitialAuto(c, s) { NineForDispatch(c, s); }
    }
  }

  lemma {:induction false} NineForDispatch(c: Config, s: State)
    requires InitialAuto(c, s) && ValidJob(c, s.job) && c.capacity <= MAX
    ensures Chunks(s.job.bounds, c.workers, s.job.grain) <= 9 * c.workers
  {
    AutoGrainRange(Partition.Exact(), s.job.bounds[c.workers] - s.job.bounds[0], c.workers, None);
    NinePerWorker(s.job.bounds, c.workers, s.job.grain);
  }

  lemma Bounds(c: Config, data: seq<int>, schedule: seq<Action>)
    requires ValidConfig(c) && |data| == c.capacity
    ensures var s := After(c, data, schedule); !s.host.Ready? ==> ValidJob(c, s.job)
  {
    DispatchRuns.Always(c, data, schedule);
  }
}
