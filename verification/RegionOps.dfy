/** `par_map_in_place`, `par_zip` and `par_pipeline` of `SharedRegion` (thread_pool.mbt). */
module RegionOps {
  import opened Int32
  import opened Kernels
  import opened DispatchModel
  import opened Arena
  import DispatchRuns

  /** A dispatch of kernel k over one region, as `par_map_in_place` starts it. */
  ghost predicate RegionJob(c: Config, job: Job, k: Kernel, r: Region) {
    && c.lookup(job.kernelId, job.layoutHash) == Found(k)
    && |job.bounds| > 0 && job.bounds[0] == r.offset && job.bounds[|job.bounds| - 1] == r.offset + r.length
  }

  // ---- par_zip

  /** `par_zip` passes the distance of the right region as argument. */
  ghost predicate ZipJob(c: Config, job: Job, left: Region, right: Region) {
    && RegionJob(c, job, ZipAddKernel(), left) && left.length == right.length
    && job.argument == right.offset - left.offset
  }

  predicate ZippedAt(before: seq<int>, after: seq<int>, left: Region, right: Region, x: int) {
    Load(after, x) == if left.offset <= x < left.offset + left.length
                      then Wrap(Load(before, x) + Load(before, x - left.offset + right.offset)) else Load(before, x)
  }

  /** The left region now holds the sums; everything else, the right region included, is unchanged. */
  predicate Zipped(before: seq<int>, after: seq<int>, left: Region, right: Region) {
    |after| == |before| && forall x :: 0 <= x < |before| ==> ZippedAt(before, after, left, right, x)
  }

  /** Regions of one arena generation meet the exact race-freedom condition of `zip_add`. */
  lemma {:induction false} ZipRegionsRaceFree(regions: seq<Region>, cursor: int, j: nat, k: nat)
    requires Packed(regions, cursor) && j < |regions| && k < |regions| && regions[j].length == regions[k].length
    ensures RaceFree(ZipAddKernel(), regions[k].offset - regions[j].offset, [], regions[j].offset,
                     regions[j].offset + regions[j].length)
  {
    if j < k { PackedDisjoint(regions, cursor, j, k); }
    if k < j { PackedDisjoint(regions, cursor, k, j); }
    ZipRaceFree(regions[k].offset - regions[j].offset, regions[j].offset, regions[j].offset + regions[j].length);
  }

  lemma ZipOutput(data: seq<int>, delta: int, index: int)
    ensures Output(ZipAddKernel(), delta, [], data, index) == Wrap(Load(data, index) + Load(data, index + delta))
  {
    assert Loaded(data, [index, index + delta]) == [Load(data, index), Load(data, index + delta)];
  }

  lemma {:induction false} ZipWord(data: seq<int>, left: Region, right: Region, delta: int, hi: int, x: nat)
    requires delta == right.offset - left.offset && hi == left.offset + left.length && x < |data|
    requires RaceFree(ZipAddKernel(), delta, [], left.offset, hi)
    ensures ZippedAt(data, Run(ZipAddKernel(), delta, [], data, left.offset, hi), left, right, x)
  {
    RunAt(ZipAddKernel(), delta, [], data, left.offset, hi, x);
    ZipOutput(data, delta, x);
  }

  lemma {:induction false} ZipIsElementwise(data: seq<int>, left: Region, right: Region, delta: int, hi: int)
    requires delta == right.offset - left.offset && hi == left.offset + left.length
    requires RaceFree(ZipAddKernel(), delta, [], left.offset, hi)
    ensures Zipped(data, Run(ZipAddKernel(), delta, [], data, left.offset, hi), left, right)
  {
    forall x | 0 <= x < |data|
      ensures ZippedAt(data, Run(ZipAddKernel(), delta, [], data, left.offset, hi), left, right, x)
    {
      ZipWord(data, left, right, delta, hi, x);
    }
  }

  lemma ZipRun(c: Config, job: Job, data: seq<int>, left: Region, right: Region)
    requires ZipJob(c, job, left, right)
    requires RaceFree(ZipAddKernel(), right.offset - left.offset, [], left.offset, left.offset + left.length)
    ensures JobRaceFree(c, job, data) && Zipped(data, RunJob(c, job, data), left, right)
  {
    assert Header(ZipAddKernel(), data) == [];
    ZipIsElementwise(data, left, right, job.argument, left.offset + left.length);
  }

  /**
   On every schedule, a finished `par_zip` of two regions of one arena generation, harmless and with
   every status OK, has added the right region to the left one and left every other word alone.
   */
  lemma {:induction false} ParZip(c: Config, data: seq<int>, schedule: seq<Action>, regions: seq<Region>, cursor: int,
                                  j: nat, k: nat)
    requires ValidConfig(c) && |data| == c.capacity && Packed(regions, cursor) && cursor <= c.capacity
    requires j < |regions| && k < |regions|
    ensures
      var s := After(c, data, schedule);
      s.host.Complete? && ZipJob(c, s.job, regions[j], regions[k]) && AllOk(s) && Harmless(s) ==>
        && Inside(regions[j], |s.data|) && Inside(regions[k], |s.data|)
        && Zipped(s.hist.base, s.data, regions[j], regions[k])
  {
    var s := After(c, data, schedule);
    PackedInside(regions, cursor, j);
    PackedInside(regions, cursor, k);
    if s.host.Complete? && ZipJob(c, s.job, regions[j], regions[k]) && AllOk(s) && Harmless(s) {
      ZipOrderly(c, s, regions, cursor, j, k);
      DispatchRuns.DispatchIsOneCall(c, data, schedule);
    }
  }

  lemma {:induction false} ZipOrderly(c: Config, s: State, regions: seq<Region>, cursor: int, j: nat, k: nat)
    requires Packed(regions, cursor) && j < |regions| && k < |regions| && !s.host.Ready?
    requires ZipJob(c, s.job, regions[j], regions[k]) && Harmless(s)
    ensures DispatchRuns.Orderly(c, s) && Zipped(s.hist.base, RunJob(c, s.job, s.hist.base), regions[j], regions[k])
  {
    ZipRegionsRaceFree(regions, cursor, j, k);
    ZipRun(c, s.job, s.hist.base, regions[j], regions[k]);
  }

  // ---- par_pipeline

  /** The kernel maps each word on its own, in place, as f does. */
  ghost predicate Pointwise(k: Kernel, f: (int, int) -> int) {
    && k.header == 0 && k.writes && (forall argument: int :: k.shift(argument, []) == 0)
    && (forall argument: int, i: int :: k.sources(argument, [], i) == [i])
    && (forall argument: int, data: seq<int>, i: int ::
          Output(k, argument, [], data, i) == f(argument, Load(data, i)))
  }

  function MixWord(): (int, int) -> int {
    (argument: int, word: int) => MixRounds(word, argument)
  }

  function AddWord(): (int, int) -> int {
    (argument: int, word: int) => Wrap(word + argument)
  }

  /** `mix_range` is of this kind. */
  lemma MixIsPointwise()
    ensures Pointwise(MixKernel(), MixWord())
  {
    forall argument: int, data: seq<int>, i: int
      ensures Output(MixKernel(), argument, [], data, i) == MixWord()(argument, Load(data, i))
    {
      InPlaceOutput(data, argument, i);
    }
  }

  /** So is `add_range`. */
  lemma AddIsPointwise()
    ensures Pointwise(AddKernel(), AddWord())
  {
    forall argument: int, data: seq<int>, i: int
      ensures Output(AddKernel(), argument, [], data, i) == AddWord()(argument, Load(data, i))
    {
      InPlaceOutput(data, argument, i);
    }
  }

  datatype Stage = Stage(kernel: Kernel, f: (int, int) -> int, argument: int)

  function Composed(stages: seq<Stage>, word: int): int {
    if stages == [] then word
    else
      var last := stages[|stages| - 1];
      last.f(last.argument, Composed(stages[..|stages| - 1], word))
  }

  /** One map of a whole region. */
  function Mapped(stages: seq<Stage>, data: seq<int>, r: Region): (m: seq<int>)
    ensures |m| == |data|
    ensures forall x :: 0 <= x < |data| ==>
      m[x] == if r.offset <= x < r.offset + r.length then Composed(stages, data[x]) else data[x]
  {
    seq(|data|, x requires 0 <= x < |data| =>
      if r.offset <= x < r.offset + r.length then Composed(stages, data[x]) else data[x])
  }

  /** The jobs of a pipeline over one region. */
  ghost predicate Pipeline(c: Config, jobs: seq<Job>, stages: seq<Stage>, r: Region) {
    && |jobs| == |stages|
    && forall i :: 0 <= i < |jobs| ==> StageJob(c, jobs[i], stages[i], r)
  }

  ghost predicate StageJob(c: Config, job: Job, stage: Stage, r: Region) {
    RegionJob(c, job, stage.kernel, r) && job.argument == stage.argument && Pointwise(stage.kernel, stage.f)
  }

  lemma {:induction false} PointwiseRaceFree(k: Kernel, f: (int, int) -> int, argument: int, lo: int, hi: int)
    requires Pointwise(k, f)
    ensures RaceFree(k, argument, [], lo, hi)
  {}

  lemma {:induction false} PointwiseRun(k: Kernel, f: (int, int) -> int, argument: int, data: seq<int>, lo: int,
                                        hi: int, x: nat)
    requires Pointwise(k, f) && x < |data|
    ensures Run(k, argument, [], data, lo, hi)[x] == if lo <= x < hi then f(argument, data[x]) else data[x]
  {
    PointwiseRaceFree(k, f, argument, lo, hi);
    RunAt(k, argument, [], data, lo, hi, x);
    assert Output(k, argument, [], data, x) == f(argument, Load(data, x));
  }

  lemma {:induction false} StageIsMap(c: Config, job: Job, stage: Stage, data: seq<int>, r: Region, x: nat)
    requires StageJob(c, job, stage, r) && x < |data|
    ensures RunJob(c, job, data)[x] ==
      if r.offset <= x < r.offset + r.length then stage.f(stage.argument, data[x]) else data[x]
  {
    assert Header(stage.kernel, data) == [];
    PointwiseRun(stage.kernel, stage.f, stage.argument, data, r.offset, r.offset + r.length, x);
  }

  /** Running the stages one dispatch after the other equals one map of their composition. */
  lemma {:induction false} PipelineIsOneMap(c: Config, data: seq<int>, jobs: seq<Job>, stages: seq<Stage>, r: Region)
    requires Pipeline(c, jobs, stages, r)
    ensures DispatchRuns.RunJobs(c, data, jobs) == Mapped(stages, data, r)
    decreases |jobs|
  {
    if jobs != [] {
      var n := |jobs| - 1;
      PipelineIsOneMap(c, data, jobs[..n], stages[..n], r);
      var before, after := Mapped(stages[..n], data, r), DispatchRuns.RunJobs(c, data, jobs);
      assert StageJob(c, jobs[n], stages[n], r);
      forall x: nat | x < |data| ensures after[x] == Mapped(stages, data, r)[x] {
        StageIsMap(c, jobs[n], stages[n], before, r, x);
      }
    }
  }

  /** The in-place kernels never race, whatever the region and the memory. */
  lemma {:induction false} StageRaceFree(c: Config, job: Job, stage: Stage, r: Region, data: seq<int>)
    requires StageJob(c, job, stage, r)
    ensures Resolves(c, job) && |job.bounds| > 0 && JobRaceFree(c, job, data)
  {
    assert Header(stage.kernel, data) == [];
    PointwiseRaceFree(stage.kernel, stage.f, stage.argument, r.offset, r.offset + r.length);
  }

  lemma {:induction false} PipelineIsFree(c: Config, data: seq<int>, jobs: seq<Job>, stages: seq<Stage>, r: Region)
    requires Pipeline(c, jobs, stages, r)
    ensures DispatchRuns.FreeJobs(c, data, jobs)
    decreases |jobs|
  {
    if jobs != [] {
      var n := |jobs| - 1;
      PipelineIsFree(c, data, jobs[..n], stages[..n], r);
      StageRaceFree(c, jobs[n], stages[n], r, DispatchRuns.RunJobs(c, data, jobs[..n]));
    }
  }

  /**
   On every schedule, once every stage has reported OK and was harmless, the region holds one map of
   their composition.
   */
  lemma {:induction false} ParPipeline(c: Config, data: seq<int>, schedule: seq<Action>, stages: seq<Stage>, r: Region)
    requires ValidConfig(c) && |data| == c.capacity
    ensures
      var s := After(c, data, schedule);
      s.host.Ready? && DispatchRuns.AllFine(s.hist.reports) && Pipeline(c, s.hist.jobs, stages, r) ==>
        s.data == Mapped(stages, data, r)
  {
    var s := After(c, data, schedule);
    if s.host.Ready? && DispatchRuns.AllFine(s.hist.reports) && Pipeline(c, s.hist.jobs, stages, r) {
      PipelineIsFree(c, data, s.hist.jobs, stages, r);
      DispatchRuns.RunsRefineSequence(c, data, schedule);
      PipelineIsOneMap(c, data, s.hist.jobs, stages, r);
    }
  }

  /** The stages of one `par_pipeline` share their cuts, so only the first needs to be harmless. */
  lemma {:induction false} ParPipelineFirst(c: Config, data: seq<int>, schedule: seq<Action>, stages: seq<Stage>,
                                            r: Region)
    requires ValidConfig(c) && |data| == c.capacity
    ensures
      var s := After(c, data, schedule);
      && |s.hist.reports| == |s.hist.jobs|
      && (s.host.Ready? && Pipeline(c, s.hist.jobs, stages, r) && DispatchRuns.SameCuts(c, s.hist.jobs)
            && DispatchRuns.AllReportOk(s.hist.reports) && (stages != [] ==> s.hist.reports[0].harmless)
          ==> s.data == Mapped(stages, data, r))
  {
    DispatchRuns.OnlyFirstAtRisk(c, data, schedule);
    ParPipeline(c, data, schedule, stages, r);
  }

  // ---- mix and add

  /** The dispatch runs kernel k over [lo, hi). */
  ghost predicate RangeJob(c: Config, job: Job, k: Kernel, lo: int, hi: int) {
    c.lookup(job.kernelId, job.layoutHash) == Found(k)
    && |job.bounds| > 0 && job.bounds[0] == lo && job.bounds[|job.bounds| - 1] == hi
  }

  /** Each word of [lo, hi) has become what f makes of it, every other word is as it was. */
  ghost predicate MappedBy(f: (int, int) -> int, argument: int, before: seq<int>, after: seq<int>, lo: int, hi: int) {
    |after| == |before| &&
    forall x :: 0 <= x < |before| ==> after[x] == if lo <= x < hi then f(argument, before[x]) else before[x]
  }

  lemma {:induction false} MapDispatch(c: Config, data: seq<int>, schedule: seq<Action>, k: Kernel, f: (int,
                                       int) -> int,
                                       lo: int, hi: int)
    requires ValidConfig(c) && |data| == c.capacity && Pointwise(k, f)
    ensures
      var s := After(c, data, schedule);
      s.host.Complete? && RangeJob(c, s.job, k, lo, hi) && AllOk(s) && Harmless(s) ==>
        MappedBy(f, s.job.argument, s.hist.base, s.data, lo, hi)
  {
    var s := After(c, data, schedule);
    if s.host.Complete? && RangeJob(c, s.job, k, lo, hi) && AllOk(s) && Harmless(s) {
      var stage, r := Stage(k, f, s.job.argument), Region(lo, hi - lo);
      StageRaceFree(c, s.job, stage, r, s.hist.base);
      DispatchRuns.DispatchIsOneCall(c, data, schedule);
      forall x | 0 <= x < |s.hist.base|
        ensures s.data[x] == if lo <= x < hi then f(s.job.argument, s.hist.base[x]) else s.hist.base[x]
      {
        StageIsMap(c, s.job, stage, s.hist.base, r, x);
      }
    }
  }

  /**
   On every schedule, a finished dispatch of `mix_range` with every status OK has given each word of its
   range its rounds and left every other word alone: unconditionally if it was static, and if it was
   harmless otherwise.
   */
  lemma {:induction false} MixDispatch(c: Config, data: seq<int>, schedule: seq<Action>, lo: int, hi: int)
    requires ValidConfig(c) && |data| == c.capacity
    ensures
      var s := After(c, data, schedule);
      s.host.Complete? && RangeJob(c, s.job, MixKernel(), lo, hi) && AllOk(s) && Harmless(s) ==>
        MappedBy(MixWord(), s.job.argument, s.hist.base, s.data, lo, hi)
  {
    MixIsPointwise();
    MapDispatch(c, data, schedule, MixKernel(), MixWord(), lo, hi);
  }

  /** The same for `add_range`. */
  lemma {:induction false} AddDispatch(c: Config, data: seq<int>, schedule: seq<Action>, lo: int, hi: int)
    requires ValidConfig(c) && |data| == c.capacity
    ensures
      var s := After(c, data, schedule);
      s.host.Complete? && RangeJob(c, s.job, AddKernel(), lo, hi) && AllOk(s) && Harmless(s) ==>
        MappedBy(AddWord(), s.job.argument, s.hist.base, s.data, lo, hi)
  {
    AddIsPointwise();
    MapDispatch(c, data, schedule, AddKernel(), AddWord(), lo, hi);
  }

  /** The rounds of several mixes; a negative argument means none. */
  function TotalRounds(jobs: seq<Job>): nat {
    if jobs == [] then 0
    else
      var last := jobs[|jobs| - 1].argument;
      TotalRounds(jobs[..|jobs| - 1]) + if last < 0 then 0 else last
  }

  ghost predicate MixJobs(c: Config, jobs: seq<Job>, lo: int, hi: int) {
    forall i :: 0 <= i < |jobs| ==> RangeJob(c, jobs[i], MixKernel(), lo, hi)
  }

  function MixStages(jobs: seq<Job>): (stages: seq<Stage>)
    ensures |stages| == |jobs|
    ensures forall i :: 0 <= i < |jobs| ==> stages[i] == Stage(MixKernel(), MixWord(), jobs[i].argument)
  {
    seq(|jobs|, i requires 0 <= i < |jobs| => Stage(MixKernel(), MixWord(), jobs[i].argument))
  }

  lemma {:induction false} MixesCompose(jobs: seq<Job>, word: int)
    ensures Composed(MixStages(jobs), word) == MixRounds(word, TotalRounds(jobs))
    decreases |jobs|
  {
    if jobs != [] {
      var n := |jobs| - 1;
      MixesCompose(jobs[..n], word);
      assert MixStages(jobs)[..n] == MixStages(jobs[..n]);
      MixRoundsAdd(word, TotalRounds(jobs[..n]), if jobs[n].argument < 0 then 0 else jobs[n].argument);
    }
  }

  /**
   On every schedule, any number of OK and harmless mixes over one range leaves what a single mix with
   all their rounds leaves: r1 rounds and then r2 rounds are r1 + r2 rounds.
   */
  lemma {:induction false} MixDispatchesAdd(c: Config, data: seq<int>, schedule: seq<Action>, lo: int, hi: int)
    requires ValidConfig(c) && |data| == c.capacity
    ensures
      var s := After(c, data, schedule);
      s.host.Ready? && DispatchRuns.AllFine(s.hist.reports) && MixJobs(c, s.hist.jobs, lo, hi) ==>
        MappedBy(MixWord(), TotalRounds(s.hist.jobs), data, s.data, lo, hi)
  {
    var s := After(c, data, schedule);
    if s.host.Ready? && DispatchRuns.AllFine(s.hist.reports) && MixJobs(c, s.hist.jobs, lo, hi) {
      var jobs, stages, r := s.hist.jobs, MixStages(s.hist.jobs), Region(lo, hi - lo);
      MixIsPointwise();
      forall i | 0 <= i < |jobs| ensures StageJob(c, jobs[i], stages[i], r) {
        assert RangeJob(c, jobs[i], MixKernel(), lo, hi);
      }
      ParPipeline(c, data, schedule, stages, r);
      forall x | 0 <= x < |data|
        ensures s.data[x] == if lo <= x < hi then MixWord()(TotalRounds(jobs), data[x]) else data[x]
      {
        MixesCompose(jobs, data[x]);
      }
    }
  }
}
