/**
 How `partition_weighted` cuts a range and how `record_worker_weights` moves the weights
 (host_client.mbt).

 Every floating-point operation is the exact one followed by a rounding function `fl`. Tiling is
 proved for any rounding; the proportional share for exact arithmetic.
 */
module Partition {
  import opened Int32
  import opened DispatchModel
  import opened DispatchClaims
  import DispatchRuns

  // ---- rounding

  const UP: real := 1.0000000001
  const DOWN: real := 0.9999999999

  /** A relative error far larger than that of IEEE 754 doubles. */
  ghost predicate Near(r: real, x: real) {
    x * DOWN <= r <= x * UP
  }

  ghost predicate Ordered(fl: real -> real, x: real, y: real) {
    0.0 <= x <= y ==> fl(x) <= fl(y)
  }

  ghost predicate Settled(fl: real -> real, x: real) {
    0.0 <= x ==> fl(fl(x)) == fl(x) && Near(fl(x), x)
  }

  /** A monotone rounding of non-negative values, without overflow or underflow. */
  ghost predicate Rounding(fl: real -> real) {
    (forall x: real, y: real :: Ordered(fl, x, y)) && (forall x: real :: Settled(fl, x))
  }

  lemma Rounds(fl: real -> real, x: real)
    requires Rounding(fl) && 0.0 <= x
    ensures 0.0 <= fl(x) <= x * UP && fl(fl(x)) == fl(x) && (0.0 < x ==> 0.0 < fl(x))
  {
    assert Settled(fl, x);
  }

  lemma RoundsInOrder(fl: real -> real, x: real, y: real)
    requires Rounding(fl) && 0.0 <= x <= y
    ensures fl(x) <= fl(y)
  {
    assert Ordered(fl, x, y);
  }

  function Exact(): real -> real {
    (x: real) => x
  }

  lemma ExactRounds()
    ensures Rounding(Exact())
  {}

  // ---- cutting a range

  function Weight(w: real): (r: real)
    ensures r > 0.0
  {
    if w > 0.0 then w else 1.0
  }

  /** The accumulated weight of the first k workers. */
  function Before(fl: real -> real, weights: seq<real>, k: nat): real
    requires k <= |weights|
  {
    if k == 0 then 0.0 else fl(Before(fl, weights, k - 1) + Weight(weights[k - 1]))
  }

  function Share(fl: real -> real, length: real, before: real, total: real): real
    requires total != 0.0
  {
    fl(fl(length * before) / total)
  }

  /** Where the shard of worker k begins, which is where the shard of worker k - 1 ends. */
  function Cut(fl: real -> real, start: int, end: int, weights: seq<real>, k: nat): int
    requires k <= |weights| && Before(fl, weights, |weights|) != 0.0
  {
    if k == |weights| then end
    else start + Share(fl, (end - start) as real, Before(fl, weights, k), Before(fl, weights, |weights|)).Floor
  }

  lemma BeforeStep(fl: real -> real, b: real, w: real)
    requires Rounding(fl) && 0.0 <= b && fl(b) == b && 0.0 < w
    ensures b <= fl(b + w) && 0.0 < fl(b + w) && fl(fl(b + w)) == fl(b + w)
  {
    RoundsInOrder(fl, b, b + w);
    Rounds(fl, b + w);
  }

  lemma {:induction false} BeforeRises(fl: real -> real, weights: seq<real>, j: nat, k: nat)
    requires Rounding(fl) && j <= k <= |weights|
    ensures 0.0 <= Before(fl, weights, j) <= Before(fl, weights, k)
    ensures fl(Before(fl, weights, k)) == Before(fl, weights, k)
    ensures 0 < k ==> 0.0 < Before(fl, weights, k)
    decreases k
  {
    if k == 0 {
      Rounds(fl, 0.0);
    } else {
      BeforeRises(fl, weights, if j < k then j else k - 1, k - 1);
      BeforeStep(fl, Before(fl, weights, k - 1), Weight(weights[k - 1]));
    }
  }

  lemma Scale(a: real, b: real, x: real)
    requires a <= b && 0.0 <= x
    ensures a * x <= b * x
  {
    assert 0.0 <= (b - a) * x;
  }

  lemma Divide(a: real, b: real, x: real)
    requires a <= b && 0.0 < x
    ensures a / x <= b / x
  {
    Scale(a, b, 1.0 / x);
  }

  lemma {:induction false} ShareRises(fl: real -> real, length: real, a: real, b: real, total: real)
    requires Rounding(fl) && 0.0 <= length && 0.0 <= a <= b && 0.0 < total
    ensures 0.0 <= Share(fl, length, a, total) <= Share(fl, length, b, total)
  {
    Scale(a, b, length);
    Scale(0.0, a, length);
    RoundedQuotients(fl, length * a, length * b, total);
  }

  lemma {:induction false} RoundedQuotients(fl: real -> real, x: real, y: real, total: real)
    requires Rounding(fl) && 0.0 <= x <= y && 0.0 < total
    ensures 0.0 <= fl(fl(x) / total) <= fl(fl(y) / total)
  {
    RoundsInOrder(fl, x, y);
    Rounds(fl, x);
    Divide(0.0, fl(x), total);
    Divide(fl(x), fl(y), total);
    RoundsInOrder(fl, fl(x) / total, fl(y) / total);
    Rounds(fl, fl(x) / total);
  }

  lemma Cancel(a: real, b: real)
    requires b != 0.0
    ensures a * b / b == a
  {}

  lemma QuotientOfRounded(fl: real -> real, l: real, total: real)
    requires Rounding(fl) && 0.0 <= l * total && 0.0 < total
    ensures 0.0 <= fl(l * total) / total <= l * UP
  {
    Rounds(fl, l * total);
    Divide(0.0, fl(l * total), total);
    Divide(fl(l * total), (l * UP) * total, total);
    Cancel(l * UP, total);
  }

  /** Rounding twice cannot push a share of an `Int` length beyond that length. */
  lemma WholeShare(fl: real -> real, l: real, total: real)
    requires Rounding(fl) && 0.0 <= l <= 2147483647.0 && 0.0 < total
    ensures Share(fl, l, total, total) < l + 1.0
  {
    Scale(0.0, l, total);
    QuotientOfRounded(fl, l, total);
    Rounds(fl, fl(l * total) / total);
  }

  // ---- tiling

  /** The weights leave every cut well defined. */
  ghost predicate Cuttable(fl: real -> real, start: int, end: int, weights: seq<real>) {
    Rounding(fl) && 0 < |weights| && 0 <= start <= end <= MAX
  }

  lemma TotalPositive(fl: real -> real, weights: seq<real>)
    requires Rounding(fl) && 0 < |weights|
    ensures 0.0 < Before(fl, weights, |weights|)
  {
    BeforeRises(fl, weights, 0, |weights|);
  }

  /** For any rounding and any weights the cuts run from `start` to `end` without stepping back. */
  lemma {:induction false} CutsTile(fl: real -> real, start: int, end: int, weights: seq<real>, j: nat, k: nat)
    requires Cuttable(fl, start, end, weights) && j <= k <= |weights|
    ensures 0.0 < Before(fl, weights, |weights|)
    ensures Cut(fl, start, end, weights, 0) == start && Cut(fl, start, end, weights, |weights|) == end
    ensures start <= Cut(fl, start, end, weights, j) <= Cut(fl, start, end, weights, k) <= end
  {
    TotalPositive(fl, weights);
    var length, total := (end - start) as real, Before(fl, weights, |weights|);
    CutStep(fl, start, end, weights, 0, j);
    CutStep(fl, start, end, weights, j, k);
    CutStep(fl, start, end, weights, k, |weights|);
    Rounds(fl, 0.0);
    assert Share(fl, length, 0.0, total) == 0.0;
  }

  lemma CutStep(fl: real -> real, start: int, end: int, weights: seq<real>, j: nat, k: nat)
    requires Cuttable(fl, start, end, weights) && j <= k <= |weights| && 0.0 < Before(fl, weights, |weights|)
    ensures Cut(fl, start, end, weights, j) <= Cut(fl, start, end, weights, k)
  {
    if j < |weights| {
      var length, total := (end - start) as real, Before(fl, weights, |weights|);
      BeforeRises(fl, weights, j, k);
      BeforeRises(fl, weights, k, |weights|);
      ShareRises(fl, length, Before(fl, weights, j), Before(fl, weights, k), total);
      WholeShare(fl, length, total);
    }
  }

  /** The bounds of a dispatch over [start, end). */
  function Cuts(fl: real -> real, start: int, end: int, weights: seq<real>): (bounds: seq<int>)
    requires Before(fl, weights, |weights|) != 0.0
    ensures |bounds| == |weights| + 1
  {
    seq(|weights| + 1, k requires 0 <= k <= |weights| => Cut(fl, start, end, weights, k))
  }

  /** A checked range, cut by any weights, gives the dispatch protocol a valid job over that range. */
  lemma {:induction false} CutsAreValidJob(fl: real -> real, start: int, end: int, weights: seq<real>, c: Config,
                                           job: Job)
    requires Cuttable(fl, start, end, weights) && end <= c.capacity && c.workers == |weights|
    requires Before(fl, weights, |weights|) != 0.0 && job.bounds == Cuts(fl, start, end, weights)
        && 0 <= job.grain <= MAX
    ensures ValidJob(c, job) && job.bounds[0] == start && job.bounds[c.workers] == end
  {
    forall u, v | 0 <= u <= v <= c.workers
      ensures start == job.bounds[0] && job.bounds[u] <= job.bounds[v] && job.bounds[c.workers] == end
    {
      CutsTile(fl, start, end, weights, u, v);
    }
    assert job.bounds[0] <= job.bounds[c.workers];
  }

  /** The weights are summed twice, the first `workerId` of them into `before`. */
  method PartitionWeighted(fl: real -> real, start: int, end: int, workerId: nat, weights: seq<real>)
    returns (workerStart: int, workerEnd: int)
    requires Cuttable(fl, start, end, weights) && workerId < |weights|
    ensures Before(fl, weights, |weights|) != 0.0
    ensures workerStart == Cut(fl, start, end, weights, workerId)
    ensures workerEnd == Cut(fl, start, end, weights, workerId + 1)
    ensures start <= workerStart <= workerEnd <= end
  {
    var total, before := 0.0, 0.0;
    for id := 0 to |weights|
      invariant total == Before(fl, weights, id)
      invariant before == Before(fl, weights, if id < workerId then id else workerId)
    {
      var weight := Weight(weights[id]);
      total := fl(total + weight);
      if id < workerId {
        before := fl(before + weight);
      }
    }
    CutsTile(fl, start, end, weights, workerId, workerId + 1);
    var own := Weight(weights[workerId]);
    var length := (end - start) as real;
    workerStart := start + Share(fl, length, before, total).Floor;
    workerEnd := if workerId + 1 == |weights| then end else start + Share(fl, length, fl(before + own), total).Floor;
  }

  /** The part of `length` proportional to `weight` out of `total`. */
  function ProRata(length: real, weight: real, total: real): real
    requires total != 0.0
  {
    length * weight / total
  }

  lemma ProRataAdds(l: real, a: real, w: real, total: real)
    requires total != 0.0
    ensures ProRata(l, a + w, total) == ProRata(l, a, total) + ProRata(l, w, total)
    ensures ProRata(l, total, total) == l
  {
    assert l * (a + w) == l * a + l * w;
    AddQuotients(l * a, l * w, total);
    Cancel(l, total);
  }

  lemma AddQuotients(x: real, y: real, z: real)
    requires z != 0.0
    ensures (x + y) / z == x / z + y / z
  {}

  lemma ExactShare(l: real, a: real, total: real)
    requires total != 0.0
    ensures Share(Exact(), l, a, total) == ProRata(l, a, total)
  {}

  /** In exact arithmetic the last cut needs no special case. */
  lemma ExactCut(start: int, end: int, weights: seq<real>, k: nat)
    requires k <= |weights| && Before(Exact(), weights, |weights|) != 0.0
    ensures Cut(Exact(), start, end, weights, k) ==
      start + ProRata((end - start) as real, Before(Exact(), weights, k), Before(Exact(), weights, |weights|)).Floor
  {
    var l, total := (end - start) as real, Before(Exact(), weights, |weights|);
    ExactShare(l, Before(Exact(), weights, k), total);
    ProRataAdds(l, 0.0, 0.0, total);
    assert l.Floor == end - start;
  }

  /** In exact arithmetic every shard is within 1 of its proportional share. */
  lemma {:induction false} FairShare(start: int, end: int, weights: seq<real>, k: nat)
    requires k < |weights|
    ensures 0.0 < Before(Exact(), weights, |weights|)
    ensures
      var share := ProRata((end - start) as real, Weight(weights[k]), Before(Exact(), weights, |weights|));
      var length := Cut(Exact(), start, end, weights, k + 1) - Cut(Exact(), start, end, weights, k);
      length as real - 1.0 < share < length as real + 1.0
  {
    ExactRounds();
    TotalPositive(Exact(), weights);
    ExactCut(start, end, weights, k);
    ExactCut(start, end, weights, k + 1);
    ProRataAdds((end - start) as real, Before(Exact(), weights, k), Weight(weights[k]),
                Before(Exact(), weights, |weights|));
    assert Before(Exact(), weights, k + 1) == Before(Exact(), weights, k) + Weight(weights[k]);
  }

  // ---- fairness under rounding

  /** What two rounded operations can add to a share, per element of the range. */
  const SLACK: real := 0.00000000021

  /** What all of them together can add to the length of a shard. */
  const DRIFT: real := 0.000000001

  /** Dividing keeps a relative error. */
  lemma {:induction false} NearQuotient(x: real, r: real, total: real)
    requires Near(r, x) && 0.0 < total
    ensures Near(r / total, x / total)
  {
    Divide(x * DOWN, r, total);
    Divide(r, x * UP, total);
    Commute(x, DOWN, total);
    Commute(x, UP, total);
  }

  lemma {:induction false} Commute(x: real, f: real, total: real)
    requires 0.0 < total
    ensures x * f / total == x / total * f
  {}

  lemma {:induction false} ProRataInside(l: real, a: real, total: real)
    requires 0.0 <= l && 0.0 <= a <= total && 0.0 < total
    ensures 0.0 <= l * a && 0.0 <= ProRata(l, a, total) <= l
  {
    Scale(0.0, a, l);
    Scale(a, total, l);
    Divide(0.0, l * a, total);
    Divide(l * a, l * total, total);
    Cancel(l, total);
  }

  /** A rounded share stays close to the share it rounds. */
  lemma {:induction false} ShareNear(fl: real -> real, l: real, b: real, total: real)
    requires Rounding(fl) && 0.0 <= l && 0.0 <= b <= total && 0.0 < total
    ensures
      var q := ProRata(l, b, total);
      q - l * SLACK <= Share(fl, l, b, total) <= q + l * SLACK
  {
    ProRataInside(l, b, total);
    NearTwice(fl, l, l * b, total);
  }

  lemma {:induction false} NearTwice(fl: real -> real, l: real, x: real, total: real)
    requires Rounding(fl) && 0.0 <= x && 0.0 < total && 0.0 <= x / total <= l
    ensures x / total - l * SLACK <= fl(fl(x) / total) <= x / total + l * SLACK
  {
    assert Settled(fl, x);
    var y := fl(x) / total;
    NearQuotient(x, fl(x), total);
    assert Settled(fl, y);
    Twice(x / total, y, fl(y), l);
  }

  lemma {:induction false} Twice(q: real, y: real, z: real, l: real)
    requires 0.0 <= q <= l && q * DOWN <= y <= q * UP && y * DOWN <= z <= y * UP
    ensures q - l * SLACK <= z <= q + l * SLACK
  {}

  /** One rounded addition moves the accumulated weight by little of the total. */
  lemma {:induction false} StepNear(fl: real -> real, b: real, w: real, total: real)
    requires Rounding(fl) && 0.0 <= b && 0.0 < w && fl(b + w) <= total
    ensures -(total * SLACK) <= fl(b + w) - b - w <= total * SLACK
  {
    assert Settled(fl, b + w);
  }

  lemma {:induction false} SmallPart(l: real, d: real, total: real)
    requires 0.0 <= l && 0.0 < total && -(total * SLACK) <= d <= total * SLACK
    ensures -(l * SLACK) <= ProRata(l, d, total) <= l * SLACK
  {
    Scale(d, total * SLACK, l);
    Scale(-(total * SLACK), d, l);
    Divide(l * d, l * SLACK * total, total);
    Divide(-(l * SLACK) * total, l * d, total);
    Cancel(l * SLACK, total);
    Cancel(-(l * SLACK), total);
  }

  /** The exact shares of two neighbouring accumulated weights differ by little more than one weight's. */
  lemma {:induction false} StepShare(fl: real -> real, l: real, b: real, w: real, total: real)
    requires Rounding(fl) && 0.0 <= l && 0.0 <= b && 0.0 < w && fl(b + w) <= total && 0.0 < total
    ensures
      var step := ProRata(l, fl(b + w), total) - ProRata(l, b, total);
      step - l * SLACK <= ProRata(l, w, total) <= step + l * SLACK
  {
    var d := fl(b + w) - b - w;
    StepNear(fl, b, w, total);
    SmallPart(l, d, total);
    ProRataAdds(l, b, w, total);
    ProRataAdds(l, b + w, d, total);
    assert b + w + d == fl(b + w);
  }

  /** The value that a cut truncates; the last cut is exact. */
  function CutShare(fl: real -> real, length: int, weights: seq<real>, k: nat): real
    requires k <= |weights| && Before(fl, weights, |weights|) != 0.0
  {
    if k == |weights| then length as real
    else Share(fl, length as real, Before(fl, weights, k), Before(fl, weights, |weights|))
  }

  /** A value is close to the exact share of the first k weights. */
  ghost predicate CloseTo(fl: real -> real, length: int, weights: seq<real>, k: nat, value: real)
    requires k <= |weights| && Before(fl, weights, |weights|) != 0.0
  {
    var l := length as real;
    var q := ProRata(l, Before(fl, weights, k), Before(fl, weights, |weights|));
    q - l * SLACK <= value <= q + l * SLACK
  }

  lemma {:induction false} CutNear(fl: real -> real, start: int, end: int, weights: seq<real>, k: nat)
    requires Cuttable(fl, start, end, weights) && k <= |weights|
    ensures 0.0 < Before(fl, weights, |weights|)
    ensures CloseTo(fl, end - start, weights, k, CutShare(fl, end - start, weights, k))
  {
    TotalPositive(fl, weights);
    BeforeRises(fl, weights, 0, k);
    BeforeRises(fl, weights, k, |weights|);
    var l, total := (end - start) as real, Before(fl, weights, |weights|);
    if k == |weights| { WholeNear(l, total); } else { ShareNear(fl, l, Before(fl, weights, k), total); }
  }

  lemma {:induction false} WholeNear(l: real, total: real)
    requires 0.0 <= l && 0.0 < total
    ensures ProRata(l, total, total) == l && 0.0 <= l * SLACK
  {
    Cancel(l, total);
  }

  lemma {:induction false} CutTruncates(fl: real -> real, start: int, end: int, weights: seq<real>, k: nat)
    requires start <= end && k <= |weights| && Before(fl, weights, |weights|) != 0.0
    ensures Cut(fl, start, end, weights, k) == start + CutShare(fl, end - start, weights, k).Floor
  {
    assert ((end - start) as real).Floor == end - start;
  }

  /**
   Under any rounding every shard is within 1 + length / 10^9 of the share that its weight has in the
   total the source adds up.
   */
  lemma {:induction false} FairShareRounded(fl: real -> real, start: int, end: int, weights: seq<real>, k: nat)
    requires Cuttable(fl, start, end, weights) && k < |weights|
    ensures 0.0 < Before(fl, weights, |weights|)
    ensures
      var l := (end - start) as real;
      var share := ProRata(l, Weight(weights[k]), Before(fl, weights, |weights|));
      var length := Cut(fl, start, end, weights, k + 1) - Cut(fl, start, end, weights, k);
      length as real - (1.0 + l * DRIFT) < share < length as real + (1.0 + l * DRIFT)
  {
    var l, total := (end - start) as real, Before(fl, weights, |weights|);
    CutNear(fl, start, end, weights, k);
    CutNear(fl, start, end, weights, k + 1);
    CutTruncates(fl, start, end, weights, k);
    CutTruncates(fl, start, end, weights, k + 1);
    BeforeRises(fl, weights, 0, k);
    BeforeRises(fl, weights, k + 1, |weights|);
    StepShare(fl, l, Before(fl, weights, k), Weight(weights[k]), total);
    Floors(CutShare(fl, end - start, weights, k), CutShare(fl, end - start, weights, k + 1), start,
           Cut(fl, start, end, weights, k), Cut(fl, start, end, weights, k + 1));
  }

  lemma {:induction false} Floors(x: real, y: real, start: int, a: int, b: int)
    requires a == start + x.Floor && b == start + y.Floor
    ensures y - x - 1.0 < (b - a) as real < y - x + 1.0
  {}

  // ---- weights

  /** One worker's new weight after a static dispatch. */
  function Blend(fl: real -> real, weight: real, length: int, elapsedUs: int): real {
    if length > 0 && elapsedUs > 0 then
      fl(fl(weight * 0.75) + fl(fl(length as real / elapsedUs as real) * 0.25))
    else weight
  }

  /**
   In exact arithmetic a blend moves the weight a quarter of the way to the observed throughput; an
   empty shard or a missing time leaves it alone.
   */
  lemma {:induction false} BlendQuarter(weight: real, length: int, elapsedUs: int)
    ensures 0 < length && 0 < elapsedUs ==>
      var observed := length as real / elapsedUs as real;
      Blend(Exact(), weight, length, elapsedUs) - observed == 0.75 * (weight - observed)
    ensures length <= 0 || elapsedUs <= 0 ==> forall fl: real -> real :: Blend(fl, weight, length, elapsedUs) == weight
  {}

  /** Under any rounding more work in less time never earns less weight. */
  lemma {:induction false} FasterNeverLoses(fl: real -> real, weight: real, length: int, more: int, less: int,
                                            elapsedUs: int)
    requires Rounding(fl) && 0.0 < weight && 0 < length <= more && 0 < less <= elapsedUs
    ensures Blend(fl, weight, length, elapsedUs) <= Blend(fl, weight, more, less)
  {
    var slow, fast := length as real / elapsedUs as real, more as real / less as real;
    Throughputs(length as real, more as real, less as real, elapsedUs as real);
    RoundsInOrder(fl, slow, fast);
    Rounds(fl, slow);
    RoundsInOrder(fl, fl(slow) * 0.25, fl(fast) * 0.25);
    Rounds(fl, fl(slow) * 0.25);
    Rounds(fl, weight * 0.75);
    RoundsInOrder(fl, fl(weight * 0.75) + fl(fl(slow) * 0.25), fl(weight * 0.75) + fl(fl(fast) * 0.25));
  }

  lemma {:induction false} Throughputs(l: real, more: real, less: real, e: real)
    requires 0.0 < l <= more && 0.0 < less <= e
    ensures 0.0 <= l / e <= more / less
  {
    Divide(0.0, l, e);
    Divide(l, more, e);
    Inverse(less, e);
    Scale(1.0 / e, 1.0 / less, more);
    assert more / e == 1.0 / e * more && more / less == 1.0 / less * more;
  }

  /** A weight that is not positive counts as 1.0. */
  lemma {:induction false} FallbackIsOne(fl: real -> real, weights: seq<real>, i: nat, k: nat)
    requires i < |weights| && weights[i] <= 0.0 && k <= |weights|
    ensures Before(fl, weights, k) == Before(fl, weights[i := 1.0], k)
  {
    if k > 0 { FallbackIsOne(fl, weights, i, k - 1); }
  }

  /** Weights stay positive under any rounding, so the fallback to 1.0 is never taken. */
  lemma {:induction false} BlendPositive(fl: real -> real, weight: real, length: int, elapsedUs: int)
    requires Rounding(fl) && weight > 0.0
    ensures Blend(fl, weight, length, elapsedUs) > 0.0
  {
    if length > 0 && elapsedUs > 0 {
      var q := length as real / elapsedUs as real;
      Rounds(fl, weight * 0.75);
      Rounds(fl, q);
      Rounds(fl, fl(q) * 0.25);
      Rounds(fl, fl(weight * 0.75) + fl(fl(q) * 0.25));
    }
  }

  /** No observation is outside these bounds, which leave room for rounding. */
  const LEAST: real := 0.99999999 / 2147483647.0
  const MOST: real := 2147483647.0 * 1.00000001

  /** And they stay between these bounds, under any rounding, however often they are blended. */
  lemma {:induction false} BlendBounded(fl: real -> real, weight: real, length: int, elapsedUs: int)
    requires Rounding(fl) && LEAST <= weight <= MOST && length <= MAX && elapsedUs <= MAX
    ensures LEAST <= Blend(fl, weight, length, elapsedUs) <= MOST
  {
    if length > 0 && elapsedUs > 0 {
      var q := length as real / elapsedUs as real;
      Observed(length, elapsedUs);
      assert Settled(fl, q);
      assert Settled(fl, fl(q) * 0.25);
      assert Settled(fl, weight * 0.75);
      assert Settled(fl, fl(weight * 0.75) + fl(fl(q) * 0.25));
      Mixed(weight, q, fl(weight * 0.75), fl(q), fl(fl(q) * 0.25), fl(fl(weight * 0.75) + fl(fl(q) * 0.25)));
    }
  }

  lemma {:induction false} Observed(length: int, elapsedUs: int)
    requires 0 < length <= MAX && 0 < elapsedUs <= MAX
    ensures 1.0 / 2147483647.0 <= length as real / elapsedUs as real <= 2147483647.0
  {
    var l, e, m := length as real, elapsedUs as real, 2147483647.0;
    Divide(1.0, l, e);
    Divide(l, m, e);
    Inverse(e, m);
    Inverse(1.0, e);
    Scale(1.0 / e, 1.0, m);
  }

  lemma {:induction false} Mixed(w: real, q: real, a: real, b: real, d: real, r: real)
    requires LEAST <= w <= MOST && 1.0 / 2147483647.0 <= q <= 2147483647.0
    requires Near(a, w * 0.75) && Near(b, q) && Near(d, b * 0.25) && Near(r, a + d)
    ensures LEAST <= r <= MOST
  {}

  lemma Inverse(a: real, b: real)
    requires 0.0 < a <= b
    ensures 1.0 / b <= 1.0 / a
  {
    Scale(a, b, 1.0 / a * (1.0 / b));
    assert a * (1.0 / a * (1.0 / b)) == 1.0 / b;
    assert b * (1.0 / a * (1.0 / b)) == 1.0 / a;
  }
}
