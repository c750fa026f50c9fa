/** The promises of the dispatch protocol, for every schedule of every pool. */
module DispatchRuns {
  import opened Int32
  import opened Kernels
  import opened DispatchModel
  import opened DispatchControl
  import opened DispatchCoverage
  import opened DispatchExclusive
  import opened DispatchMemory
  import opened DispatchCancel
  import opened DispatchClaims

  /** The sequential meaning of a list of dispatches. */
  ghost function RunJobs(c: Config, data: seq<int>, jobs: seq<Job>): (r: seq<int>)
    ensures |r| == |data|
  {
    if jobs == [] then data
    else
      var before, last := RunJobs(c, data, jobs[..|jobs| - 1]), jobs[|jobs| - 1];
      if Resolves(c, last) && |last.bounds| > 0 then RunJob(c, last, before) else before
  }

  /** A property of the sequential program alone: each job is race free on what the jobs before it leave. */
  ghost predicate FreeJobs(c: Config, data: seq<int>, jobs: seq<Job>) {
    jobs == [] ||
    var before, last := jobs[..|jobs| - 1], jobs[|jobs| - 1];
    && FreeJobs(c, data, before) && Resolves(c, last) && |last.bounds| > 0
    && JobRaceFree(c, last, RunJobs(c, data, before))
  }

  /** Every finished dispatch reported OK and was harmless. */
  predicate AllFine(reports: seq<Report>) {
    forall i :: 0 <= i < |reports| ==> reports[i].ok && reports[i].harmless
  }

  /** As long as the reports are fine, the data is the sequential meaning of a race-free program. */
  ghost predicate Chain(c: Config, s: State) {
    && |s.hist.initial| == |s.hist.base| == c.capacity && |s.hist.reports| == |s.hist.jobs|
    && (AllFine(s.hist.reports) && FreeJobs(c, s.hist.initial, s.hist.jobs) ==>
          RunJobs(c, s.hist.initial, s.hist.jobs) == if s.host.Ready? then s.data else s.hist.base)
  }

  /** Why a static dispatch, and a dynamic one that began with quiet slots, has no hazard. */
  ghost predicate Benign(s: State) {
    !s.host.Ready? && (s.job.grain == 0 || AllQuiet(s)) ==> !s.hist.hazard
  }

  /** What a finished dynamic dispatch with status OK leaves in the slots until the next one. */
  ghost predicate Tidy(c: Config, s: State)
    requires WF(c, s)
  {
    s.host.Ready? && s.hist.jobs != [] && s.job.grain > 0 && Resolves(c, s.job) && AllOk(s) ==>
      && |s.job.bounds| == c.workers + 1
      && forall v :: 0 <= v < c.workers ==> s.slots[v].end == s.job.bounds[v + 1] <= s.cursors[v]
  }

  /** The next job repeats the cuts of a dynamic one that ended with every status OK. */
  ghost predicate Repeats(c: Config, last: Job, report: Report, next: Job) {
    last.grain > 0 && Resolves(c, last) && report.ok && next.bounds == last.bounds
  }

  /** Job i of the record is harmless if it is static or repeats the job before it. */
  ghost predicate Linked(c: Config, jobs: seq<Job>, reports: seq<Report>, i: int)
    requires |jobs| == |reports| && 0 <= i < |jobs|
  {
    jobs[i].grain == 0 || (i > 0 && Repeats(c, jobs[i - 1], reports[i - 1], jobs[i])) ==> reports[i].harmless
  }

  /** The record's last entry is about the job at hand, or the job at hand continues it. */
  ghost predicate Continues(c: Config, s: State)
    requires |s.hist.jobs| == |s.hist.reports| > 0
  {
    var n := |s.hist.jobs| - 1;
    if s.host.Ready? then s.job == s.hist.jobs[n] && s.hist.reports[n].ok == AllOk(s)
    else Repeats(c, s.hist.jobs[n], s.hist.reports[n], s.job) ==> AllQuiet(s)
  }

  ghost predicate Record(c: Config, s: State) {
    && |s.hist.jobs| == |s.hist.reports| && (s.hist.jobs != [] ==> Continues(c, s))
    && forall i :: 0 <= i < |s.hist.jobs| ==> Linked(c, s.hist.jobs, s.hist.reports, i)
  }

  ghost predicate Inv(c: Config, s: State) {
    && Ctl(c, s) && Cov(c, s) && Excl(c, s) && Mem(c, s) && CancelInv(c, s) && Counts(c, s)
    && Chain(c, s) && Benign(s) && Tidy(c, s) && Record(c, s)
  }

  /** A clean dispatch processed exactly its range. */
  lemma ProcessedAll(c: Config, s: State, x: int)
    requires Ctl(c, s) && Cov(c, s) && Excl(c, s) && s.host.Complete? && Safe(c, s) && AllOk(s)
    ensures s.hist.visits[x] == if s.job.bounds[0] <= x < s.job.bounds[c.workers] then 1 else 0
  {
    assert IndexOk(c, s, x);
    if s.job.bounds[0] <= x < s.job.bounds[c.workers] {
      if s.job.grain > 0 {
        AtLeastOnce(c, s, x);
      } else {
        var v := ShardOf(s.job.bounds, c.workers, x);
        AllFinished(c, s, v);
        assert ShardOk(c, s, v) && FrontIff(c, s, v, x);
        AllFinished(c, s, s.hist.owner[x]);
      }
    }
  }

  /** A dispatch without hazard whose workers all report OK leaves the memory of one sequential call. */
  lemma CleanMemory(c: Config, s: State)
    requires Ctl(c, s) && Cov(c, s) && Excl(c, s) && Mem(c, s) && s.host.Complete? && AllOk(s) && !s.hist.hazard
    requires |s.hist.base| == c.capacity && Resolves(c, s.job) && JobRaceFree(c, s.job, s.hist.base)
    ensures s.data == RunJob(c, s.job, s.hist.base)
  {
    assert Safe(c, s) && Regular(c, s);
    var t := TaskOf(c, s);
    RunPointwise(t.k, t.argument, t.header, t.base, t.lo, t.hi);
    var r := RunJob(c, s.job, s.hist.base);
    forall x | 0 <= x < |s.data| ensures s.data[x] == r[x] {
      ProcessedAll(c, s, x - t.k.shift(t.argument, t.header));
      assert WordOk(t, s.hist.visits, s.data, x);
    }
  }

  lemma RestedWork(c: Config, s: State, w: nat, time: int)
    requires Ctl(c, s) && s.host.Ready? && w < c.workers
    ensures WorkStep(c, s, w, time) == SetWorker(s, w, WorkStep(c, s, w, time).workers[w])
    ensures ThrowStep(s, w) == s
  {
    Nearby(c, s, w);
  }

  /** r has the same record of finished dispatches as s, and is in the same dispatch. */
  ghost predicate SamePage(s: State, r: State) {
    && r.hist.initial == s.hist.initial && r.hist.base == s.hist.base && r.hist.jobs == s.hist.jobs
    && r.hist.reports == s.hist.reports && (r.host.Ready? <==> s.host.Ready?) && r.job == s.job
    && r.hist.quiet == s.hist.quiet
  }

  lemma {:induction false} KeptPage(s: State, r: State)
    requires Kept(s, r)
    ensures SamePage(s, r)
  {}

  lemma {:induction false} HostPage(c: Config, s: State)
    requires WF(c, s) && !s.host.Complete?
    ensures SamePage(s, HostMove(c, s))
  {}

  /** A worker or the host leaves the history of finished dispatches alone, except at Complete. */
  lemma {:induction false} SameBook(c: Config, s: State, a: Action)
    requires WF(c, s) && !a.Dispatch? && !(a.HostStep? && s.host.Complete?)
    ensures SamePage(s, Next(c, s, a))
  {
    if a.HostStep? { HostPage(c, s); }
    else if a.Work? && a.w < c.workers { KeptPage(s, WorkStep(c, s, a.w, a.time)); }
    else if a.Throw? && a.w < c.workers { KeptPage(s, ThrowStep(s, a.w)); }
  }

  lemma QuietBook(c: Config, s: State, a: Action)
    requires Ctl(c, s) && !a.Dispatch? && s.host.Ready?
    ensures var r := Next(c, s, a);
      r.slots == s.slots && r.cursors == s.cursors && r.outs == s.outs && r.data == s.data
  {
    if a.Work? && a.w < c.workers { RestedWork(c, s, a.w, a.time); }
    if a.Throw? && a.w < c.workers { RestedWork(c, s, a.w, 0); }
  }

  lemma {:induction false} ScanHazard(c: Config, s: State, w: nat, offset: nat, v: nat)
    requires Near(c, s, w) && !s.host.Ready? && s.workers[w].pc == Scan(offset) && offset < c.workers
    requires Published(s.host, w) && v == Victim(w, offset, c.workers) && v < c.workers
    requires !s.hist.hazard && ScanStep(c, s, w, offset).hist.hazard
    ensures s.job.grain > 0 && v != w && !Published(s.host, v) && !s.hist.quiet[v]
  {}

  lemma {:induction false} OnlyScans(c: Config, s: State, w: nat, time: int)
    requires WF(c, s) && w < c.workers && !s.workers[w].pc.Scan?
    ensures WorkStep(c, s, w, time).hist.hazard == s.hist.hazard
  {}

  /** Only a scan of a slot that is not quiet, in a dynamic dispatch, is a hazard. */
  lemma {:induction false} HazardStep(c: Config, s: State, w: nat, time: int)
    requires Near(c, s, w) && !s.host.Ready? && !s.hist.hazard && WorkStep(c, s, w, time).hist.hazard
    ensures s.job.grain > 0 && !AllQuiet(s)
  {
    var pc := s.workers[w].pc;
    if pc.Scan? {
      VictimInPool(w, pc.offset, c.workers);
      ScanHazard(c, s, w, pc.offset, Victim(w, pc.offset, c.workers));
    } else {
      OnlyScans(c, s, w, time);
    }
  }

  /** The last dispatch of a fine record extends the sequential meaning of those before it. */
  lemma {:induction false} ChainEnd(c: Config, data: seq<int>, jobs: seq<Job>, last: Job, base: seq<int>,
                                    after: seq<int>)
    requires FreeJobs(c, data, jobs + [last]) && RunJobs(c, data, jobs) == base
    requires Resolves(c, last) && |last.bounds| > 0 ==> JobRaceFree(c, last, base) ==> after == RunJob(c, last, base)
    ensures RunJobs(c, data, jobs + [last]) == after
  {
    assert (jobs + [last])[..|jobs|] == jobs && (jobs + [last])[|jobs|] == last;
  }

  lemma {:induction false} FreePrefix(c: Config, data: seq<int>, jobs: seq<Job>, last: Job)
    requires FreeJobs(c, data, jobs + [last])
    ensures FreeJobs(c, data, jobs)
  {
    assert (jobs + [last])[..|jobs|] == jobs;
  }

  lemma {:induction false} FinishChain(c: Config, s: State)
    requires Inv(c, s) && s.host.Complete?
    ensures Chain(c, HostMove(c, s))
  {
    var h, last := s.hist, Report(AllOk(s), Harmless(s));
    if AllFine(h.reports + [last]) && FreeJobs(c, h.initial, h.jobs + [s.job]) {
      FinePrefix(h.reports, last);
      FreePrefix(c, h.initial, h.jobs, s.job);
      if Resolves(c, s.job) && |s.job.bounds| > 0 && JobRaceFree(c, s.job, h.base) { CleanMemory(c, s); }
      ChainEnd(c, h.initial, h.jobs, s.job, h.base, s.data);
    }
  }

  lemma {:induction false} FinishTidy(c: Config, s: State)
    requires Ctl(c, s) && Cov(c, s) && s.host.Complete?
    ensures Tidy(c, HostMove(c, s))
  {
    if s.job.grain > 0 && Resolves(c, s.job) && AllOk(s) {
      forall v | 0 <= v < c.workers ensures s.slots[v].end == s.job.bounds[v + 1] <= s.cursors[v] {
        AllFinished(c, s, v);
        assert Drained(s.epoch, s.job.bounds[v + 1], s.cursors[v], s.workers[v]);
      }
    }
  }

  lemma {:induction false} FinePrefix(reports: seq<Report>, last: Report)
    requires AllFine(reports + [last])
    ensures AllFine(reports) && last.ok && last.harmless
  {
    forall i | 0 <= i < |reports| ensures reports[i].ok && reports[i].harmless {
      assert (reports + [last])[i] == reports[i];
    }
    assert (reports + [last])[|reports|] == last;
  }

  lemma {:induction false} FinishRecord(c: Config, s: State)
    requires WF(c, s) && s.host.Complete? && Record(c, s)
    ensures Record(c, HostMove(c, s))
  {
    var r := HostMove(c, s);
    forall i | 0 <= i < |r.hist.jobs| ensures Linked(c, r.hist.jobs, r.hist.reports, i) {
      if i < |s.hist.jobs| { assert Linked(c, s.hist.jobs, s.hist.reports, i); }
    }
  }

  lemma {:induction false} DispatchRecord(c: Config, s: State, job: Job)
    requires WF(c, s) && s.host.Ready? && ValidJob(c, job) && Record(c, s) && Tidy(c, s)
    ensures Record(c, StartJob(c, s, job))
  {}

  /** A record that nobody touched, over words that did not move between dispatches. */
  lemma {:induction false} SameRecord(c: Config, s: State, r: State)
    requires WF(c, s) && WF(c, r) && SamePage(s, r) && Chain(c, s) && Tidy(c, s) && Record(c, s)
    requires s.host.Ready? ==> r.slots == s.slots && r.cursors == s.cursors && r.outs == s.outs && r.data == s.data
    ensures Chain(c, r) && Tidy(c, r) && Record(c, r)
  {}

  lemma {:induction false} StillBenign(c: Config, s: State, a: Action)
    requires Ctl(c, s) && Benign(s) && SamePage(s, Next(c, s, a)) && !s.host.Ready? && !a.Dispatch?
    ensures Benign(Next(c, s, a))
  {
    if a.Work? && a.w < c.workers && !s.hist.hazard && Next(c, s, a).hist.hazard {
      Nearby(c, s, a.w);
      HazardStep(c, s, a.w, a.time);
    }
  }

  lemma {:induction false} BookDispatch(c: Config, s: State, job: Job)
    requires Ctl(c, s) && Chain(c, s) && Record(c, s) && Tidy(c, s) && s.host.Ready? && ValidJob(c, job)
    ensures var r := StartJob(c, s, job); Chain(c, r) && Benign(r) && Tidy(c, r) && Record(c, r)
  {
    DispatchRecord(c, s, job);
  }

  lemma {:induction false} BookNext(c: Config, s: State, a: Action)
    requires Inv(c, s)
    ensures var r := Next(c, s, a); Chain(c, r) && Benign(r) && Tidy(c, r) && Record(c, r)
  {
    if a.HostStep? && s.host.Complete? {
      FinishChain(c, s);
      FinishTidy(c, s);
      FinishRecord(c, s);
    } else if a.Dispatch? {
      if s.host.Ready? && ValidJob(c, a.job) { BookDispatch(c, s, a.job); }
    } else {
      SameBook(c, s, a);
      if s.host.Ready? { QuietBook(c, s, a); } else { StillBenign(c, s, a); }
      SameRecord(c, s, Next(c, s, a));
    }
  }

  lemma InvNext(c: Config, s: State, a: Action)
    requires Inv(c, s)
    ensures Inv(c, Next(c, s, a)) && Next(c, s, a).hist.initial == s.hist.initial
  {
    CtlNext(c, s, a);
    CovNext(c, s, a);
    ExclNext(c, s, a);
    MemNext(c, s, a);
    CancelNext(c, s, a);
    CountNext(c, s, a);
    BookNext(c, s, a);
    InitialNext(c, s, a);
  }

  lemma InitialNext(c: Config, s: State, a: Action)
    requires WF(c, s)
    ensures Next(c, s, a).hist.initial == s.hist.initial
  {}

  /** Every state of every schedule satisfies the invariant. */
  lemma {:induction false} Always(c: Config, data: seq<int>, schedule: seq<Action>)
    requires ValidConfig(c) && |data| == c.capacity
    ensures Inv(c, After(c, data, schedule)) && After(c, data, schedule).hist.initial == data
  {
    if schedule == [] {
      CtlInit(c, data);
    } else {
      Always(c, data, schedule[..|schedule| - 1]);
      InvNext(c, After(c, data, schedule[..|schedule| - 1]), schedule[|schedule| - 1]);
    }
  }

  // ---- the promises

  /** A dynamic dispatch that ends with every status OK has processed every index of its range. */
  lemma {:induction false} EveryIndexProcessed(c: Config, data: seq<int>, schedule: seq<Action>)
    requires ValidConfig(c) && |data| == c.capacity
    ensures
      var s := After(c, data, schedule);
      s.host.Complete? && Dynamic(c, s) && AllOk(s) ==>
        forall x :: s.job.bounds[0] <= x < s.job.bounds[c.workers] ==> x in s.hist.visits
  {
    Always(c, data, schedule);
    var s := After(c, data, schedule);
    if s.host.Complete? && Dynamic(c, s) && AllOk(s) {
      forall x | s.job.bounds[0] <= x < s.job.bounds[c.workers] ensures x in s.hist.visits {
        AtLeastOnce(c, s, x);
      }
    }
  }

  /**
   A dispatch that ends with every status OK has processed each index of its range exactly once
   and nothing else, if it was static, or began with quiet slots, or no worker touched a slot
   that was not quiet before its publication.
   */
  lemma {:induction false} EveryIndexOnce(c: Config, data: seq<int>, schedule: seq<Action>)
    requires ValidConfig(c) && |data| == c.capacity
    ensures
      var s := After(c, data, schedule);
      s.host.Complete? && Resolves(c, s.job) && AllOk(s) && Harmless(s) ==>
        forall x :: s.hist.visits[x] == if s.job.bounds[0] <= x < s.job.bounds[c.workers] then 1 else 0
  {
    Always(c, data, schedule);
    var s := After(c, data, schedule);
    if s.host.Complete? && Resolves(c, s.job) && AllOk(s) && Harmless(s) {
      forall x ensures s.hist.visits[x] == if s.job.bounds[0] <= x < s.job.bounds[c.workers] then 1 else 0 {
        ProcessedAll(c, s, x);
      }
    }
  }

  /** A dynamic dispatch ended with every status OK and no other dispatch has begun. */
  ghost predicate RestedOk(c: Config, s: State) {
    s.host.Ready? && s.hist.jobs != [] && Resolves(c, s.job) && s.job.grain > 0 && AllOk(s)
  }

  /**
   Repeating such a dispatch over the same shards starts with quiet slots, whatever happened to
   the first: from then on EveryIndexOnce needs no hypothesis about the schedule.
   */
  lemma {:induction false} RepeatStartsQuiet(c: Config, data: seq<int>, schedule: seq<Action>, job: Job)
    requires ValidConfig(c) && |data| == c.capacity && ValidJob(c, job)
    ensures
      var s := After(c, data, schedule);
      RestedOk(c, s) && job.bounds == s.job.bounds ==> AllQuiet(Next(c, s, Dispatch(job)))
  {
    Always(c, data, schedule);
    assert Tidy(c, After(c, data, schedule));
  }

  /**
   At completion with status words of any kind, including cancellation, the processed part of
   each shard is exactly the prefix before its cursor, each index once.
   */
  lemma {:induction false} ProcessedPrefix(c: Config, data: seq<int>, schedule: seq<Action>, v: nat, x: int)
    requires ValidConfig(c) && |data| == c.capacity
    ensures
      var s := After(c, data, schedule);
      s.host.Complete? && Resolves(c, s.job) && Harmless(s) && s.job.grain > 0 && v < c.workers
        && s.job.bounds[v] <= x < s.job.bounds[v + 1]
      ==> s.hist.visits[x] == (if x < s.cursors[v] then 1 else 0)
  {
    Always(c, data, schedule);
    var s := After(c, data, schedule);
    if s.host.Complete? && Resolves(c, s.job) && Harmless(s) && s.job.grain > 0 && v < c.workers
       && s.job.bounds[v] <= x < s.job.bounds[v + 1] {
      assert ShardOk(c, s, v) && FrontIff(c, s, v, x) && IndexOk(c, s, x);
      if x in s.hist.owner { AllFinished(c, s, s.hist.owner[x]); }
    }
  }

  /**
   When `wait_run` has returned -1, every worker has picked up every epoch published so far, this
   one included; its descriptor, status, result and done words belong to this epoch; and nobody
   had stored this epoch's number as a done word before, also when the epoch has just wrapped.
   */
  lemma {:induction false} EveryWorkerRan(c: Config, data: seq<int>, schedule: seq<Action>, w: nat)
    requires ValidConfig(c) && |data| == c.capacity && w < c.workers
    ensures
      var s := After(c, data, schedule);
      s.host.Complete? ==>
        && s.workers[w].seen == s.outs[w].done == s.epoch
        && s.workers[w].trips == s.hist.dispatches
        && s.outs[w].status == s.workers[w].status && s.outs[w].result == s.workers[w].result
        && s.epoch == NextEpoch(s.hist.previous)
        && s.slots[w] == Slot(s.epoch, s.job.bounds[w], s.job.bounds[w + 1], s.job.argument, s.job.kernelId,
                              s.job.layoutHash, s.job.grain, s.hist.baseline, 0)
  {
    Always(c, data, schedule);
    var s := After(c, data, schedule);
    if s.host.Complete? { AllFinished(c, s, w); }
  }

  /** A done word equal to the running epoch is always the worker's own report for this dispatch. */
  lemma {:induction false} NoStaleDone(c: Config, data: seq<int>, schedule: seq<Action>, w: nat)
    requires ValidConfig(c) && |data| == c.capacity && w < c.workers
    ensures
      var s := After(c, data, schedule);
      !s.host.Ready? && s.outs[w].done == s.epoch ==>
        && Published(s.host, w) && s.workers[w].seen == s.epoch && s.workers[w].trips == s.hist.dispatches
        && (s.outs[w].status == RUNTIME_FAILED || s.outs[w].status == s.workers[w].status)
  {
    Always(c, data, schedule);
    Nearby(c, After(c, data, schedule), w);
  }

  /** A worker sleeps only on an epoch it has seen, or the host is about to notify it. */
  lemma {:induction false} NoLostWakeup(c: Config, data: seq<int>, schedule: seq<Action>, w: nat)
    requires ValidConfig(c) && |data| == c.capacity && w < c.workers
    ensures
      var s := After(c, data, schedule);
      s.workers[w].pc.Asleep? && s.slots[w].epoch != s.workers[w].seen ==> s.host == Write(w, 13)
  {
    Always(c, data, schedule);
    Nearby(c, After(c, data, schedule), w);
  }

  /** The worker can take a step of its own. */
  ghost predicate CanMove(c: Config, s: State, w: nat)
    requires WF(c, s) && w < c.workers
  {
    WorkStep(c, s, w, 0).workers[w] != s.workers[w]
  }

  lemma RunningMoves(c: Config, s: State, w: nat)
    requires Near(c, s, w) && !s.host.Ready? && Published(s.host, w)
    requires s.workers[w].seen == s.epoch && s.outs[w].done != s.epoch
    ensures CanMove(c, s, w)
  {
    var pc := s.workers[w].pc;
    if pc.Scan? || Claiming(pc) { VictimInPool(w, pc.offset, c.workers); }
  }

  lemma UnawareMoves(c: Config, s: State, w: nat)
    requires Near(c, s, w) && (s.host.ScanDone? || s.host.ScanStatus?)
    requires s.workers[w].seen != s.epoch
    ensures CanMove(c, s, w)
  {}

  /**
   While `wait_run` waits, every worker whose done word is missing is awake and can take a step:
   no dispatch is ever stuck.
   */
  lemma {:induction false} NoDeadlock(c: Config, data: seq<int>, schedule: seq<Action>, w: nat)
    requires ValidConfig(c) && |data| == c.capacity && w < c.workers
    ensures
      var s := After(c, data, schedule);
      (s.host.ScanDone? || s.host.ScanStatus?) && s.outs[w].done != s.epoch ==> CanMove(c, s, w)
  {
    Always(c, data, schedule);
    var s := After(c, data, schedule);
    Nearby(c, s, w);
    if (s.host.ScanDone? || s.host.ScanStatus?) && s.outs[w].done != s.epoch {
      if s.workers[w].seen == s.epoch { RunningMoves(c, s, w); } else { UnawareMoves(c, s, w); }
    }
  }

  /** A static worker that published OK published the sequential result of its own range. */
  lemma {:induction false} StaticResults(c: Config, data: seq<int>, schedule: seq<Action>, w: nat)
    requires ValidConfig(c) && |data| == c.capacity && w < c.workers
    ensures
      var s := After(c, data, schedule);
      s.host.Complete? && s.job.grain == 0 && Resolves(c, s.job) && JobRaceFree(c, s.job, s.hist.base)
        && s.outs[w].status == OK
      ==>
        var k := KernelOf(c, s.job);
        s.outs[w].result ==
          Result(k, s.job.argument, Header(k, s.hist.base), s.hist.base, s.job.bounds[w], s.job.bounds[w + 1])
  {
    Always(c, data, schedule);
    var s := After(c, data, schedule);
    if s.host.Complete? && s.job.grain == 0 && Resolves(c, s.job) && JobRaceFree(c, s.job, s.hist.base)
       && s.outs[w].status == OK {
      assert Safe(c, s) && Regular(c, s);
      AllFinished(c, s, w);
      assert ResultOk(TaskOf(c, s), RoundOf(s), s.workers[w], w);
    }
  }

  /** A harmless dispatch of a kernel that is race free on the memory the dispatch began with. */
  ghost predicate Orderly(c: Config, s: State) {
    && !s.host.Ready? && |s.job.bounds| > 0 && Resolves(c, s.job) && JobRaceFree(c, s.job, s.hist.base) && Harmless(s)
  }

  lemma {:induction false} OrderlyIsRegular(c: Config, s: State)
    requires Inv(c, s) && Orderly(c, s)
    ensures Regular(c, s)
  {}

  /** A dynamic worker of an orderly dispatch reports the sequential result of a chunk, or 0 without one. */
  lemma {:induction false} DynamicResults(c: Config, data: seq<int>, schedule: seq<Action>, w: nat)
    requires ValidConfig(c) && |data| == c.capacity && w < c.workers
    ensures
      var s := After(c, data, schedule);
      s.host.Complete? && s.job.grain > 0 && Orderly(c, s) ==>
        && Regular(c, s)
        && if s.workers[w].chunks == 0 then s.outs[w].result == 0 else ChunkResult(TaskOf(c, s), s.outs[w].result)
  {
    Always(c, data, schedule);
    var s := After(c, data, schedule);
    if s.host.Complete? && s.job.grain > 0 && Orderly(c, s) {
      OrderlyIsRegular(c, s);
      AllFinished(c, s, w);
      assert ResultOk(TaskOf(c, s), RoundOf(s), s.workers[w], w);
    }
  }

  /**
   At every moment of an orderly dispatch a word holds its sequential output if its index has been
   processed and its value from before otherwise; header words never change.
   */
  lemma {:induction false} WordsDuringDispatch(c: Config, data: seq<int>, schedule: seq<Action>, x: int)
    requires ValidConfig(c) && |data| == c.capacity
    ensures
      var s := After(c, data, schedule);
      Orderly(c, s) ==>
        && Regular(c, s) && |s.hist.base| == |s.data| && WordOk(TaskOf(c, s), s.hist.visits, s.data, x)
        && (0 <= x < KernelOf(c, s.job).header ==> Load(s.data, x) == Load(s.hist.base, x))
  {
    Always(c, data, schedule);
    var s := After(c, data, schedule);
    if Orderly(c, s) {
      OrderlyIsRegular(c, s);
      WordsNow(c, s, x);
    }
  }

  lemma WordsNow(c: Config, s: State, x: int)
    requires Ctl(c, s) && Excl(c, s) && Mem(c, s)
    ensures Regular(c, s) ==>
      && |s.hist.base| == |s.data| && WordOk(TaskOf(c, s), s.hist.visits, s.data, x)
      && (0 <= x < KernelOf(c, s.job).header ==> Load(s.data, x) == Load(s.hist.base, x))
  {
    if Regular(c, s) {
      var t := TaskOf(c, s);
      assert WordOk(t, s.hist.visits, s.data, x);
      forall i | i in s.hist.visits ensures t.lo <= i < t.hi { assert IndexOk(c, s, i); }
      if 0 <= x < t.k.header { HeaderStill(t, s.hist.visits, s.data, x); }
    }
  }

  /** A finished orderly dispatch whose workers all report OK has the effect of one sequential call. */
  lemma {:induction false} DispatchIsOneCall(c: Config, data: seq<int>, schedule: seq<Action>)
    requires ValidConfig(c) && |data| == c.capacity
    ensures
      var s := After(c, data, schedule);
      s.host.Complete? && AllOk(s) && Orderly(c, s) ==> s.data == RunJob(c, s.job, s.hist.base)
  {
    Always(c, data, schedule);
    var s := After(c, data, schedule);
    if s.host.Complete? && AllOk(s) && Orderly(c, s) { CleanMemory(c, s); }
  }

  /**
   Refinement over whole runs: while the pool is between dispatches and every finished one reported
   OK and was harmless, the shared data is what the same dispatches leave when run one after the
   other as single sequential calls, provided that this sequential program is race free.
   */
  lemma {:induction false} RunsRefineSequence(c: Config, data: seq<int>, schedule: seq<Action>)
    requires ValidConfig(c) && |data| == c.capacity
    ensures
      var s := After(c, data, schedule);
      s.host.Ready? && AllFine(s.hist.reports) && FreeJobs(c, data, s.hist.jobs) ==>
        s.data == RunJobs(c, data, s.hist.jobs)
  {
    Always(c, data, schedule);
  }

  /** The same for the memory that the dispatch at hand began with. */
  lemma {:induction false} BaseRefinesSequence(c: Config, data: seq<int>, schedule: seq<Action>)
    requires ValidConfig(c) && |data| == c.capacity
    ensures
      var s := After(c, data, schedule);
      !s.host.Ready? && AllFine(s.hist.reports) && FreeJobs(c, data, s.hist.jobs) ==>
        s.hist.base == RunJobs(c, data, s.hist.jobs)
  {
    Always(c, data, schedule);
  }

  /** Dynamic dispatches over one range and the same cuts, as the weights do not move in between. */
  ghost predicate SameCuts(c: Config, jobs: seq<Job>) {
    forall i :: 0 <= i < |jobs| ==> jobs[i].grain > 0 && Resolves(c, jobs[i]) && jobs[i].bounds == jobs[0].bounds
  }

  predicate AllReportOk(reports: seq<Report>) {
    forall i :: 0 <= i < |reports| ==> reports[i].ok
  }

  /** Of a series of OK dispatches over the same cuts only the first can meet a slot that is not quiet. */
  lemma {:induction false} OnlyFirstAtRisk(c: Config, data: seq<int>, schedule: seq<Action>)
    requires ValidConfig(c) && |data| == c.capacity
    ensures
      var s := After(c, data, schedule);
      && |s.hist.reports| == |s.hist.jobs|
      && (SameCuts(c, s.hist.jobs) && AllReportOk(s.hist.reports) && (s.hist.jobs != [] ==> s.hist.reports[0].harmless)
          ==> AllFine(s.hist.reports))
  {
    Always(c, data, schedule);
    var h := After(c, data, schedule).hist;
    if SameCuts(c, h.jobs) && AllReportOk(h.reports) && (h.jobs != [] ==> h.reports[0].harmless) {
      forall i | 0 <= i < |h.reports| ensures h.reports[i].ok && h.reports[i].harmless {
        assert Linked(c, h.jobs, h.reports, i);
        if i > 0 { assert Repeats(c, h.jobs[i - 1], h.reports[i - 1], h.jobs[i]); }
      }
    }
  }

  /** Cancelled is reported only if requested in this dispatch, and lets at most one chunk start. */
  lemma {:induction false} CancelIsCooperative(c: Config, data: seq<int>, schedule: seq<Action>, w: nat)
    requires ValidConfig(c) && |data| == c.capacity && w < c.workers
    ensures
      var s := After(c, data, schedule);
      && (s.host.Complete? && s.outs[w].status == CANCELLED ==> s.hist.requests > 0)
      && (!s.host.Ready? && s.workers[w].seen == s.epoch && s.hist.requests < MAX ==> s.workers[w].late <= 1)
  {
    Always(c, data, schedule);
    var s := After(c, data, schedule);
    if s.host.Complete? {
      AllFinished(c, s, w);
      assert CancelWorker(s.epoch, s.job.grain, s.hist.requests, s.workers[w]);
    }
  }

  /** Shard v was claimed in exactly ceil(length / grain) chunks. */
  ghost predicate InChunks(s: State, v: nat) {
    && v + 1 < |s.job.bounds| && v < |s.hist.claims| && s.job.grain > 0
    && s.hist.claims[v] == CeilDiv(s.job.bounds[v + 1] - s.job.bounds[v], s.job.grain)
  }

  /** With no early touch, a finished dispatch has drained every shard in as few chunks as possible. */
  lemma {:induction false} ClaimsPerShard(c: Config, data: seq<int>, schedule: seq<Action>, v: nat)
    requires ValidConfig(c) && |data| == c.capacity && v < c.workers
    ensures
      var s := After(c, data, schedule);
      s.host.Complete? && Dynamic(c, s) && AllOk(s) && !s.hist.early ==> InChunks(s, v)
  {
    Always(c, data, schedule);
    ShardClaims(c, After(c, data, schedule), v);
  }

  lemma ShardClaims(c: Config, s: State, v: nat)
    requires Inv(c, s) && v < c.workers
    ensures s.host.Complete? && Dynamic(c, s) && AllOk(s) && !s.hist.early ==> InChunks(s, v)
  {
    if s.host.Complete? && Dynamic(c, s) && AllOk(s) && !s.hist.early {
      assert Exact(c, s);
      AllFinished(c, s, v);
      assert Drained(s.epoch, s.job.bounds[v + 1], s.cursors[v], s.workers[v]);
      assert CountOk(Stored(s.host, v, CURSOR_WORD), s.job.bounds[v], s.job.bounds[v + 1],
                     s.cursors[v], s.hist.claims[v], s.job.grain);
    }
  }

  /** A compare-exchange that would fail now has been overtaken by somebody else's claim. */
  lemma {:induction false} FailedCasMeansClaim(c: Config, data: seq<int>, schedule: seq<Action>, w: nat)
    requires ValidConfig(c) && |data| == c.capacity && w < c.workers
    ensures
      var s := After(c, data, schedule);
      Exact(c, s) && s.workers[w].pc.Cas? ==>
        var v := Victim(w, s.workers[w].pc.offset, c.workers);
        v < c.workers && (s.cursors[v] != s.workers[w].pc.current ==> s.workers[w].pc.stamp < s.hist.claims[v])
  {
    Always(c, data, schedule);
    var s := After(c, data, schedule);
    if Exact(c, s) { assert StampOk(c, s, s.workers[w], w); }
  }
}
