/** `run_reducer_async` (thread_pool.mbt): the host combines one partial result per worker. */
module Reduce {
  import opened Int32
  import opened Kernels
  import opened DispatchModel
  import DispatchRuns

  ghost predicate Associative(combine: (int, int) -> int) {
    forall x: int, y: int, z: int :: combine(combine(x, y), z) == combine(x, combine(y, z))
  }

  /** The sequential meaning: fold the items of [lo, hi) into v from the left. */
  function Fold(combine: (int, int) -> int, item: int -> int, v: int, lo: int, hi: int): int
    decreases hi - lo
  {
    if hi <= lo then v else combine(Fold(combine, item, v, lo, hi - 1), item(hi - 1))
  }

  /** What a reducer owes for its non-empty segment: the items combined without an initial value. */
  function Segment(combine: (int, int) -> int, item: int -> int, lo: int, hi: int): int
    requires lo < hi
    decreases hi - lo
  {
    if hi == lo + 1 then item(lo) else combine(Segment(combine, item, lo, hi - 1), item(hi - 1))
  }

  /** The host's value after the first n workers: empty ranges are skipped. */
  function Combined(combine: (int, int) -> int, init: int, bounds: seq<int>, results: seq<int>, n: nat): int
    requires n <= |results| && |bounds| == |results| + 1
  {
    if n == 0 then init
    else
      var value := Combined(combine, init, bounds, results, n - 1);
      if bounds[n - 1] < bounds[n] then combine(value, results[n - 1]) else value
  }

  lemma {:induction false} SegmentAbsorbs(combine: (int, int) -> int, item: int -> int, v: int, lo: int, hi: int)
    requires Associative(combine) && lo < hi
    ensures combine(v, Segment(combine, item, lo, hi)) == Fold(combine, item, v, lo, hi)
    decreases hi - lo
  {
    if hi > lo + 1 {
      SegmentAbsorbs(combine, item, v, lo, hi - 1);
      var seg, last := Segment(combine, item, lo, hi - 1), item(hi - 1);
      assert combine(combine(v, seg), last) == combine(v, combine(seg, last));
    } else {
      assert Fold(combine, item, v, lo, lo) == v;
    }
  }

  lemma {:induction false} FoldSplit(combine: (int, int) -> int, item: int -> int, v: int, lo: int, mid: int, hi: int)
    requires lo <= mid <= hi
    ensures Fold(combine, item, v, lo, hi) == Fold(combine, item, Fold(combine, item, v, lo, mid), mid, hi)
    decreases hi - mid
  {
    if mid < hi { FoldSplit(combine, item, v, lo, mid, hi - 1); }
  }

  /** Every non-empty shard has been reduced to its segment. */
  ghost predicate Reduced(combine: (int, int) -> int, item: int -> int, bounds: seq<int>, results: seq<int>) {
    && |bounds| == |results| + 1
    && (forall w :: 0 <= w < |results| ==> bounds[w] <= bounds[w + 1])
    && (forall w :: 0 <= w < |results| && bounds[w] < bounds[w + 1] ==>
          results[w] == Segment(combine, item, bounds[w], bounds[w + 1]))
  }

  lemma {:induction false} CombinedIsFold(combine: (int, int) -> int, item: int -> int, init: int,
                                          bounds: seq<int>, results: seq<int>, n: nat)
    requires Associative(combine) && Reduced(combine, item, bounds, results) && n <= |results|
    ensures bounds[0] <= bounds[n]
    ensures Combined(combine, init, bounds, results, n) == Fold(combine, item, init, bounds[0], bounds[n])
  {
    if n > 0 {
      CombinedIsFold(combine, item, init, bounds, results, n - 1);
      FoldSplit(combine, item, init, bounds[0], bounds[n - 1], bounds[n]);
      if bounds[n - 1] < bounds[n] {
        SegmentAbsorbs(combine, item, Combined(combine, init, bounds, results, n - 1), bounds[n - 1], bounds[n]);
      }
    }
  }

  /**
   The host's loop over the range and result words of the slots: for an associative operation the
   sequential fold over the whole range, whatever the number of workers and the empty ranges.
   */
  method CombineResults(combine: (int, int) -> int, ghost item: int -> int, init: int,
                        bounds: seq<int>, results: seq<int>)
    returns (value: int)
    requires Associative(combine) && Reduced(combine, item, bounds, results)
    ensures value == Fold(combine, item, init, bounds[0], bounds[|results|])
  {
    value := init;
    for id := 0 to |results|
      invariant value == Combined(combine, init, bounds, results, id)
    {
      if bounds[id] < bounds[id + 1] {
        value := combine(value, results[id]);
      }
    }
    CombinedIsFold(combine, item, init, bounds, results, |results|);
  }

  // ---- over the dispatch protocol

  ghost function ResultsOf(s: State): seq<int> {
    seq(|s.outs|, w requires 0 <= w < |s.outs| => s.outs[w].result)
  }

  /** The bounds as the host reads them back from the slots. */
  ghost function BoundsOf(s: State): seq<int>
    requires |s.job.bounds| > 0
  {
    seq(|s.slots| + 1, w requires 0 <= w <= |s.slots| =>
      if w < |s.slots| then s.slots[w].start else if w > 0 then s.slots[w - 1].end else s.job.bounds[0])
  }

  /** The reducer returns the segment of its range, for every non-empty range of this memory. */
  ghost predicate Reduces(k: Kernel, argument: int, header: seq<int>, data: seq<int>,
                          combine: (int, int) -> int, item: int -> int) {
    forall lo: int, hi: int :: lo < hi ==>
      Result(k, argument, header, data, lo, hi) == Segment(combine, item, lo, hi)
  }

  /** A finished static dispatch of a reducer with every status OK. */
  ghost predicate Reduction(c: Config, s: State, combine: (int, int) -> int, item: int -> int)
    requires WF(c, s)
  {
    && s.host.Complete? && s.job.grain == 0 && Resolves(c, s.job) && AllOk(s)
    && JobRaceFree(c, s.job, s.hist.base)
    && Reduces(KernelOf(c, s.job), s.job.argument, Header(KernelOf(c, s.job), s.hist.base), s.hist.base, combine, item)
  }

  lemma ReadBack(c: Config, data: seq<int>, schedule: seq<Action>)
    requires ValidConfig(c) && |data| == c.capacity
    ensures var s := After(c, data, schedule); s.host.Complete? ==> BoundsOf(s) == s.job.bounds && ValidJob(c, s.job)
  {
    DispatchRuns.Always(c, data, schedule);
    var s := After(c, data, schedule);
    if s.host.Complete? {
      forall w | 0 <= w < c.workers
        ensures s.slots[w].start == s.job.bounds[w] && s.slots[w].end == s.job.bounds[w + 1]
      {
        DispatchRuns.EveryWorkerRan(c, data, schedule, w);
      }
      assert BoundsOf(s)[c.workers] == s.job.bounds[c.workers];
    }
  }

  /** On every schedule the combined value is the sequential fold over the dispatched range. */
  lemma {:induction false} ParReduce(c: Config, data: seq<int>, schedule: seq<Action>, combine: (int, int) -> int,
                                     item: int -> int, init: int)
    requires ValidConfig(c) && |data| == c.capacity && Associative(combine)
    ensures
      var s := After(c, data, schedule);
      Reduction(c, s, combine, item) ==>
        && |BoundsOf(s)| == |ResultsOf(s)| + 1
        && Combined(combine, init, BoundsOf(s), ResultsOf(s), c.workers) ==
           Fold(combine, item, init, s.job.bounds[0], s.job.bounds[c.workers])
  {
    var s := After(c, data, schedule);
    if Reduction(c, s, combine, item) {
      ReadBack(c, data, schedule);
      forall w | 0 <= w < c.workers && s.job.bounds[w] < s.job.bounds[w + 1]
        ensures ResultsOf(s)[w] == Segment(combine, item, s.job.bounds[w], s.job.bounds[w + 1])
      {
        DispatchRuns.StaticResults(c, data, schedule, w);
      }
      CombinedIsFold(combine, item, init, s.job.bounds, ResultsOf(s), c.workers);
    }
  }

  // ---- the sum

  function AddWrapped(): (int, int) -> int {
    (x: int, y: int) => Wrap(x + y)
  }

  function Word(data: seq<int>): int -> int {
    (i: int) => Wrap(Load(data, i))
  }

  lemma AddAssociates()
    ensures Associative(AddWrapped())
  {
    forall x: int, y: int, z: int
      ensures AddWrapped()(AddWrapped()(x, y), z) == AddWrapped()(x, AddWrapped()(y, z))
    {
      WrapAdd(x + y, z);
      WrapAdd(x, y + z);
    }
  }

  lemma SumStep(argument: int, data: seq<int>, lo: int, hi: int)
    requires lo < hi
    ensures Result(SumKernel(), argument, [], data, lo, hi) ==
      AddWrapped()(Result(SumKernel(), argument, [], data, lo, hi - 1), Word(data)(hi - 1))
  {
    assert Loaded(data, [hi - 1]) == [Load(data, hi - 1)];
    WrapAdd(Result(SumKernel(), argument, [], data, lo, hi - 1), Load(data, hi - 1));
  }

  lemma {:induction false} SumSegment(argument: int, data: seq<int>, lo: int, hi: int)
    requires lo < hi
    ensures Result(SumKernel(), argument, [], data, lo, hi) == Segment(AddWrapped(), Word(data), lo, hi)
    decreases hi - lo
  {
    SumStep(argument, data, lo, hi);
    if hi > lo + 1 {
      SumSegment(argument, data, lo, hi - 1);
    } else {
      assert Result(SumKernel(), argument, [], data, lo, lo) == 0;
    }
  }

  /** The sum over a dispatched range is the wrapping sum of its words, on every schedule. */
  lemma {:induction false} ParSum(c: Config, data: seq<int>, schedule: seq<Action>, init: int)
    requires ValidConfig(c) && |data| == c.capacity
    ensures
      var s := After(c, data, schedule);
      s.host.Complete? && s.job.grain == 0 && AllOk(s)
        && c.lookup(s.job.kernelId, s.job.layoutHash) == Found(SumKernel()) ==>
        && |BoundsOf(s)| == |ResultsOf(s)| + 1
        && Combined(AddWrapped(), init, BoundsOf(s), ResultsOf(s), c.workers) ==
           Fold(AddWrapped(), Word(s.hist.base), init, s.job.bounds[0], s.job.bounds[c.workers])
  {
    var s := After(c, data, schedule);
    if s.host.Complete? && s.job.grain == 0 && AllOk(s)
       && c.lookup(s.job.kernelId, s.job.layoutHash) == Found(SumKernel()) {
      AddAssociates();
      var argument := s.job.argument;
      assert Header(SumKernel(), s.hist.base) == [];
      forall lo: int, hi: int | lo < hi
        ensures Result(SumKernel(), argument, [], s.hist.base, lo, hi) == Segment(AddWrapped(), Word(s.hist.base), lo,
            hi)
      {
        SumSegment(argument, s.hist.base, lo, hi);
      }
      ParReduce(c, data, schedule, AddWrapped(), Word(s.hist.base), init);
    }
  }
}
