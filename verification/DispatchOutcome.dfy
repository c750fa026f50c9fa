/**
 What a finished dispatch reports: which status, result and elapsed words the workers leave, and
 which verdict the host reads from them.
 */
module DispatchOutcome {
  import opened Int32
  import opened Kernels
  import opened DispatchModel
  import opened DispatchControl
  import opened DispatchCoverage
  import DispatchRuns

  /** The worker has read its descriptor. */
  predicate Informed(pc: Pc) {
    !pc.ReadStop? && !pc.Read?
  }

  /** The worker's outcome is settled, and being published or published. */
  predicate Settled(pc: Pc) {
    Idle(pc) || pc.PubElapsed? || pc.PubResult? || pc.PubStatus? || pc.PubDone?
  }

  /** The elapsed word has been stored. */
  predicate Timed(pc: Pc) {
    Idle(pc) || pc.PubResult? || pc.PubStatus? || pc.PubDone?
  }

  /** The statuses a worker of this job may end with. */
  ghost predicate StatusFits(c: Config, job: Job, status: int) {
    match c.lookup(job.kernelId, job.layoutHash)
    case Found(_) => status == OK || (job.grain > 0 && status == CANCELLED)
    case Missing(reason) => status == reason || (job.grain > 0 && (status == OK || status == CANCELLED))
  }

  ghost predicate OutcomeFits(c: Config, job: Job, wk: Worker) {
    StatusFits(c, job, wk.status) && (!Resolves(c, job) ==> wk.result == 0)
  }

  ghost predicate OutcomeWorker(c: Config, epoch: int, job: Job, out: Out, wk: Worker) {
    wk.seen == epoch ==>
      && ((if job.grain > 0 then Informed(wk.pc) else Settled(wk.pc)) ==> OutcomeFits(c, job, wk))
      && (Timed(wk.pc) ==> out.elapsed >= 1)
  }

  ghost predicate Outcomes(c: Config, s: State)
    requires WF(c, s)
  {
    !s.host.Ready? ==>
      forall w :: 0 <= w < c.workers ==> OutcomeWorker(c, s.epoch, s.job, s.outs[w], s.workers[w])
  }

  ghost predicate Bound(c: Config, s: State, w: nat) {
    && Near(c, s, w) && !s.host.Ready? && ValidConfig(c)
    && OutcomeWorker(c, s.epoch, s.job, s.outs[w], s.workers[w])
  }

  ghost predicate StillFits(c: Config, s: State, r: State, w: nat) {
    w < |r.workers| == |r.outs| && OutcomeWorker(c, s.epoch, s.job, r.outs[w], r.workers[w])
  }

  lemma {:induction false} WaitFits(c: Config, s: State, w: nat)
    requires Bound(c, s, w)
    ensures StillFits(c, s, WaitStep(c, s, w), w)
  {}

  lemma {:induction false} ReadFits(c: Config, s: State, w: nat, k: nat)
    requires Bound(c, s, w) && s.workers[w].pc == Read(k)
    ensures StillFits(c, s, ReadStep(c, s, w, k), w)
  {}

  lemma {:induction false} ScanFits(c: Config, s: State, w: nat, offset: nat)
    requires Bound(c, s, w) && s.workers[w].pc == Scan(offset)
    ensures StillFits(c, s, ScanStep(c, s, w, offset), w)
  {}

  lemma {:induction false} ClaimFits(c: Config, s: State, w: nat)
    requires Bound(c, s, w) && s.workers[w].pc.Cas?
    ensures StillFits(c, s, ClaimStep(c, s, w), w)
  {}

  lemma {:induction false} ProbeFits(c: Config, s: State, w: nat)
    requires Bound(c, s, w) && Claiming(s.workers[w].pc) && !s.workers[w].pc.Cas?
    ensures StillFits(c, s, ClaimStep(c, s, w), w)
  {}

  lemma {:induction false} KernelFits(c: Config, s: State, w: nat)
    requires Bound(c, s, w) && InKernel(s.workers[w].pc)
    ensures StillFits(c, s, RunKernel(c, s, w), w)
  {}

  lemma {:induction false} PublishFits(c: Config, s: State, w: nat, time: int)
    requires Bound(c, s, w)
    ensures StillFits(c, s, PublishStep(c, s, w, time), w)
  {}

  lemma {:induction false} ThrowFits(c: Config, s: State, w: nat)
    requires Bound(c, s, w)
    ensures StillFits(c, s, ThrowStep(s, w), w)
  {}

  lemma {:induction false} WorkFits(c: Config, s: State, w: nat, time: int)
    requires Bound(c, s, w)
    ensures StillFits(c, s, WorkStep(c, s, w, time), w)
  {
    var pc := s.workers[w].pc;
    if Waiting(pc) { WaitFits(c, s, w); }
    else if pc.Read? { ReadFits(c, s, w, pc.k); }
    else if pc.Scan? { ScanFits(c, s, w, pc.offset); }
    else if pc.Cas? { ClaimFits(c, s, w); }
    else if Claiming(pc) { ProbeFits(c, s, w); }
    else if InKernel(pc) { KernelFits(c, s, w); }
    else { PublishFits(c, s, w, time); }
  }

  lemma {:induction false} FitsFrame(c: Config, s: State, r: State, w: nat)
    requires WF(c, s) && w < c.workers && LocalMove(c, s, r, w) && Outcomes(c, s)
    requires !s.host.Ready? ==> StillFits(c, s, r, w)
    ensures Outcomes(c, r)
  {
    assert RoundOf(r) == RoundOf(s);
  }

  /** The host clears an elapsed word only before it publishes the slot. */
  lemma {:induction false} HostFits(c: Config, s: State, w: nat)
    requires Near(c, s, w) && !s.host.Ready? && !s.host.Complete? && HostOk(c, s)
    requires OutcomeWorker(c, s.epoch, s.job, s.outs[w], s.workers[w])
    ensures StillFits(c, s, HostMove(c, s), w)
  {}

  lemma {:induction false} DispatchFits(c: Config, s: State, job: Job)
    requires Ctl(c, s) && s.host.Ready? && ValidJob(c, job)
    ensures Outcomes(c, StartJob(c, s, job))
  {
    var r := StartJob(c, s, job);
    forall w | 0 <= w < c.workers ensures OutcomeWorker(c, r.epoch, r.job, r.outs[w], r.workers[w]) {
      Nearby(c, s, w);
    }
  }

  lemma {:induction false} OutcomesNext(c: Config, s: State, a: Action)
    requires Ctl(c, s) && Outcomes(c, s)
    ensures Outcomes(c, Next(c, s, a))
  {
    match a
    case Work(w, time) =>
      if w < c.workers {
        Nearby(c, s, w);
        WorkKeeps(c, s, w, time);
        if !s.host.Ready? { WorkFits(c, s, w, time); }
        FitsFrame(c, s, Next(c, s, a), w);
      }
    case Throw(w) =>
      if w < c.workers {
        Nearby(c, s, w);
        ThrowKeeps(c, s, w);
        if !s.host.Ready? { ThrowFits(c, s, w); }
        FitsFrame(c, s, Next(c, s, a), w);
      }
    case HostStep =>
      if !s.host.Ready? && !s.host.Complete? {
        var r := HostMove(c, s);
        forall w | 0 <= w < c.workers ensures OutcomeWorker(c, r.epoch, r.job, r.outs[w], r.workers[w]) {
          Nearby(c, s, w);
          HostFits(c, s, w);
        }
      }
    case Cancel =>
    case Dispatch(job) => if s.host.Ready? && ValidJob(c, job) { DispatchFits(c, s, job); }
  }

  lemma {:induction false} OutcomesAlways(c: Config, data: seq<int>, schedule: seq<Action>)
    requires ValidConfig(c) && |data| == c.capacity
    ensures Outcomes(c, After(c, data, schedule)) && Ctl(c, After(c, data, schedule))
  {
    DispatchRuns.Always(c, data, schedule);
    if schedule != [] {
      var n := |schedule| - 1;
      OutcomesAlways(c, data, schedule[..n]);
      OutcomesNext(c, After(c, data, schedule[..n]), schedule[n]);
    }
  }

  // ---- the words

  /**
   The outcome words of a finished dispatch. With a kernel found, every status is OK or, in a dynamic
   dispatch, Cancelled. With none found, a static status is the lookup's reason, a dynamic one may
   also be OK or Cancelled, and the result is 0. The elapsed word is at least 1.
   */
  lemma {:induction false} OutcomeWords(c: Config, data: seq<int>, schedule: seq<Action>, w: nat)
    requires ValidConfig(c) && |data| == c.capacity && w < c.workers
    ensures
      var s := After(c, data, schedule);
      s.host.Complete? ==>
        && s.outs[w].elapsed >= 1
        && match c.lookup(s.job.kernelId, s.job.layoutHash)
           case Found(_) => s.outs[w].status == OK || (s.job.grain > 0 && s.outs[w].status == CANCELLED)
           case Missing(reason) =>
             && s.outs[w].result == 0
             && (s.outs[w].status == reason
                 || (s.job.grain > 0 && (s.outs[w].status == OK || s.outs[w].status == CANCELLED)))
  {
    OutcomesAlways(c, data, schedule);
    var s := After(c, data, schedule);
    if s.host.Complete? {
      AllFinished(c, s, w);
      assert OutcomeWorker(c, s.epoch, s.job, s.outs[w], s.workers[w]);
    }
  }

  /** A dynamic dispatch that left an index out was cancelled, and some worker says so. */
  lemma {:induction false} LeftOutMeansCancelled(c: Config, data: seq<int>, schedule: seq<Action>, x: int)
    requires ValidConfig(c) && |data| == c.capacity
    ensures
      var s := After(c, data, schedule);
      s.host.Complete? && Dynamic(c, s) && s.job.bounds[0] <= x < s.job.bounds[c.workers] && x !in s.hist.visits ==>
        exists w :: 0 <= w < c.workers && s.outs[w].status == CANCELLED
  {
    var s := After(c, data, schedule);
    if s.host.Complete? && Dynamic(c, s) && s.job.bounds[0] <= x < s.job.bounds[c.workers] && x !in s.hist.visits {
      DispatchRuns.EveryIndexProcessed(c, data, schedule);
      var w :| 0 <= w < c.workers && s.outs[w].status != OK;
      OutcomeWords(c, data, schedule, w);
    }
  }

  // ---- without a kernel

  /** Worker u has given up in this epoch. */
  ghost predicate Gave(s: State, u: nat) {
    u < |s.workers| && s.workers[u].seen == s.epoch && Informed(s.workers[u].pc) && s.workers[u].status != OK
  }

  ghost predicate SomeGave(s: State) {
    exists u: nat :: Gave(s, u)
  }

  ghost predicate Unserved(c: Config, s: State) {
    !s.host.Ready? && s.job.grain > 0 && !Resolves(c, s.job) && |s.job.bounds| == c.workers + 1
  }

  /** Something of shard v has been claimed. */
  ghost predicate Touched(c: Config, s: State, v: int)
    requires WF(c, s) && |s.job.bounds| == c.workers + 1
  {
    0 <= v < c.workers && Stored(s.host, v, CURSOR_WORD) && s.job.bounds[v] < s.cursors[v]
  }

  /** Whoever claims finds no kernel and gives up; nobody else leaves anything unclaimed. */
  ghost predicate Lossy(c: Config, s: State)
    requires WF(c, s)
  {
    Unserved(c, s) ==>
      && (forall v :: Touched(c, s, v) ==> SomeGave(s))
      && (forall w :: 0 <= w < c.workers ==> Drained(s.epoch, s.job.bounds[w + 1], s.cursors[w], s.workers[w]))
  }

  /** A step of worker w claims nothing or gives up, and stays given up. */
  ghost predicate Loses(c: Config, s: State, r: State, w: nat)
    requires WF(c, s) && WF(c, r) && |s.job.bounds| == c.workers + 1
  {
    && w < c.workers && (Gave(s, w) ==> Gave(r, w))
    && (r.cursors == s.cursors || (Gave(r, w) && forall v :: 0 <= v < c.workers ==> s.cursors[v] <= r.cursors[v]))
    && Drained(s.epoch, s.job.bounds[w + 1], r.cursors[w], r.workers[w])
  }

  ghost predicate Lossier(c: Config, s: State, w: nat) {
    && Near(c, s, w) && Unserved(c, s) && ValidConfig(c)
    && Drained(s.epoch, s.job.bounds[w + 1], s.cursors[w], s.workers[w])
  }

  lemma {:induction false} WaitLoses(c: Config, s: State, w: nat)
    requires Lossier(c, s, w)
    ensures Loses(c, s, WaitStep(c, s, w), w)
  {}

  lemma {:induction false} ReadLoses(c: Config, s: State, w: nat, k: nat)
    requires Lossier(c, s, w) && s.workers[w].pc == Read(k)
    ensures Loses(c, s, ReadStep(c, s, w, k), w)
  {}

  lemma {:induction false} ScanLoses(c: Config, s: State, w: nat, offset: nat)
    requires Lossier(c, s, w) && s.workers[w].pc == Scan(offset)
    ensures Loses(c, s, ScanStep(c, s, w, offset), w)
  {
    VictimInPool(w, offset, c.workers);
  }

  lemma {:induction false} CasLoses(c: Config, s: State, w: nat, offset: nat, limit: int, current: int, stamp: nat)
    requires Lossier(c, s, w) && s.workers[w].pc == Cas(offset, limit, current, stamp)
    ensures Loses(c, s, ClaimStep(c, s, w), w)
  {
    VictimInPool(w, offset, c.workers);
  }

  lemma {:induction false} ProbeLoses(c: Config, s: State, w: nat)
    requires Lossier(c, s, w) && Claiming(s.workers[w].pc) && !s.workers[w].pc.Cas?
    ensures Loses(c, s, ClaimStep(c, s, w), w)
  {
    VictimInPool(w, s.workers[w].pc.offset, c.workers);
  }

  lemma {:induction false} PublishLoses(c: Config, s: State, w: nat, time: int)
    requires Lossier(c, s, w)
    requires
      var pc := s.workers[w].pc;
      !Waiting(pc) && !pc.Read? && !pc.Scan? && !Claiming(pc) && !InKernel(pc)
    ensures Loses(c, s, PublishStep(c, s, w, time), w)
  {}

  lemma {:induction false} WorkLoses(c: Config, s: State, w: nat, time: int)
    requires Lossier(c, s, w)
    ensures Loses(c, s, WorkStep(c, s, w, time), w)
  {
    var pc := s.workers[w].pc;
    if Waiting(pc) { WaitLoses(c, s, w); }
    else if pc.Read? { ReadLoses(c, s, w, pc.k); }
    else if pc.Scan? { ScanLoses(c, s, w, pc.offset); }
    else if pc.Cas? { CasLoses(c, s, w, pc.offset, pc.limit, pc.current, pc.stamp); }
    else if Claiming(pc) { ProbeLoses(c, s, w); }
    else if !InKernel(pc) { PublishLoses(c, s, w, time); }
  }

  lemma {:induction false} ThrowLoses(c: Config, s: State, w: nat)
    requires Lossier(c, s, w)
    ensures Loses(c, s, ThrowStep(s, w), w)
  {}

  lemma {:induction false} LossyFrame(c: Config, s: State, r: State, w: nat)
    requires WF(c, s) && w < c.workers && LocalMove(c, s, r, w) && Lossy(c, s)
    requires Unserved(c, s) ==> Loses(c, s, r, w)
    ensures Lossy(c, r)
  {
    assert RoundOf(r) == RoundOf(s);
    if Unserved(c, s) && SomeGave(s) {
      var u: nat :| Gave(s, u);
      assert Gave(r, u);
    }
    if Unserved(c, s) && Gave(r, w) { assert SomeGave(r); }
    forall v | Unserved(c, s) && Touched(c, r, v) ensures SomeGave(r) {
      if r.cursors == s.cursors { assert Touched(c, s, v); }
    }
  }

  /** A store of `start_run` may reset a cursor, but only before the slot's worker has noticed. */
  lemma {:induction false} LossyWrite(c: Config, s: State)
    requires Ctl(c, s) && Lossy(c, s) && (s.host.Count? || s.host.Write?)
    ensures Lossy(c, HostMove(c, s))
  {
    var r := HostMove(c, s);
    if Unserved(c, s) {
      forall u: nat | Gave(s, u) ensures Gave(r, u) { Nearby(c, s, u); }
      forall v | Touched(c, r, v) ensures SomeGave(r) {
        assert Touched(c, s, v);
        var u: nat :| Gave(s, u);
        assert Gave(r, u);
      }
      forall w | 0 <= w < c.workers ensures Drained(r.epoch, r.job.bounds[w + 1], r.cursors[w], r.workers[w]) {
        Nearby(c, s, w);
      }
    }
  }

  lemma {:induction false} LossyHost(c: Config, s: State, r: State)
    requires WF(c, s) && WF(c, r) && Lossy(c, s) && !s.host.Ready? && !s.host.Count? && !s.host.Write?
    requires r.workers == s.workers && r.cursors == s.cursors && r.job == s.job && r.epoch == s.epoch
    requires r.host.Ready? || !r.host.Write?
    ensures Lossy(c, r)
  {
    if Unserved(c, s) && SomeGave(s) {
      var u: nat :| Gave(s, u);
      assert Gave(r, u);
    }
    forall v | Unserved(c, r) && Touched(c, r, v) ensures SomeGave(r) { assert Touched(c, s, v); }
  }

  lemma {:induction false} LossyDispatch(c: Config, s: State, job: Job)
    requires Ctl(c, s) && s.host.Ready? && ValidJob(c, job)
    ensures Lossy(c, StartJob(c, s, job))
  {
    var r := StartJob(c, s, job);
    forall w | 0 <= w < c.workers ensures r.workers[w].seen != r.epoch { Nearby(c, s, w); }
  }

  lemma {:induction false} LossyNext(c: Config, s: State, a: Action)
    requires Ctl(c, s) && Lossy(c, s)
    ensures Lossy(c, Next(c, s, a))
  {
    match a
    case Work(w, time) =>
      if w < c.workers {
        Nearby(c, s, w);
        WorkKeeps(c, s, w, time);
        if Unserved(c, s) { WorkLoses(c, s, w, time); }
        LossyFrame(c, s, Next(c, s, a), w);
      }
    case Throw(w) =>
      if w < c.workers {
        Nearby(c, s, w);
        ThrowKeeps(c, s, w);
        if Unserved(c, s) { ThrowLoses(c, s, w); }
        LossyFrame(c, s, Next(c, s, a), w);
      }
    case HostStep =>
      if s.host.Count? || s.host.Write? { LossyWrite(c, s); }
      else if !s.host.Ready? { LossyHost(c, s, HostMove(c, s)); }
    case Cancel => if !s.host.Ready? && !s.host.Count? && !s.host.Write? { LossyHost(c, s, Next(c, s, a)); }
    case Dispatch(job) => if s.host.Ready? && ValidJob(c, job) { LossyDispatch(c, s, job); }
  }

  lemma {:induction false} LossyAlways(c: Config, data: seq<int>, schedule: seq<Action>)
    requires ValidConfig(c) && |data| == c.capacity
    ensures Lossy(c, After(c, data, schedule))
  {
    if schedule != [] {
      var n := |schedule| - 1;
      LossyAlways(c, data, schedule[..n]);
      DispatchRuns.Always(c, data, schedule[..n]);
      LossyNext(c, After(c, data, schedule[..n]), schedule[n]);
    }
  }

  lemma {:induction false} ClaimedByNobody(c: Config, s: State)
    requires Ctl(c, s) && Lossy(c, s) && Unserved(c, s) && s.host.Complete?
    requires s.job.bounds[0] < s.job.bounds[c.workers]
    ensures !AllOk(s)
  {
    var v := ShardOf(s.job.bounds, c.workers, s.job.bounds[0]);
    AllFinished(c, s, v);
    if AllOk(s) {
      assert Drained(s.epoch, s.job.bounds[v + 1], s.cursors[v], s.workers[v]);
      assert Touched(c, s, v);
      var u: nat :| Gave(s, u);
      AllFinished(c, s, u);
    }
  }

  /** A dynamic dispatch of a kernel that nobody has, over a range that is not empty, never passes as OK. */
  lemma {:induction false} NoKernelIsNoticed(c: Config, data: seq<int>, schedule: seq<Action>)
    requires ValidConfig(c) && |data| == c.capacity
    ensures
      var s := After(c, data, schedule);
      s.host.Complete? && s.job.grain > 0 && !Resolves(c, s.job) && s.job.bounds[0] < s.job.bounds[c.workers] ==>
        !AllOk(s)
  {
    LossyAlways(c, data, schedule);
    DispatchRuns.Always(c, data, schedule);
    var s := After(c, data, schedule);
    if s.host.Complete? && s.job.grain > 0 && !Resolves(c, s.job) && s.job.bounds[0] < s.job.bounds[c.workers] {
      ClaimedByNobody(c, s);
    }
  }

  // ---- the elapsed word

  /** One of the times given to worker w in this schedule, at least 1. */
  predicate Given(schedule: seq<Action>, w: nat, elapsed: int) {
    exists i :: 0 <= i < |schedule| && Gives(schedule[i], w, elapsed)
  }

  predicate Gives(a: Action, w: nat, elapsed: int) {
    a.Work? && a.w == w && elapsed == if a.time < 1 then 1 else a.time
  }

  ghost predicate ElapsedOk(s: State, schedule: seq<Action>, w: nat) {
    w < |s.workers| == |s.outs| && (Measured(s, w) ==> Given(schedule, w, s.outs[w].elapsed))
  }

  lemma {:induction false} GivenLater(schedule: seq<Action>, a: Action, w: nat, elapsed: int)
    requires Given(schedule, w, elapsed) || Gives(a, w, elapsed)
    ensures Given(schedule + [a], w, elapsed)
  {
    if Given(schedule, w, elapsed) {
      var i :| 0 <= i < |schedule| && Gives(schedule[i], w, elapsed);
      assert (schedule + [a])[i] == schedule[i];
    } else {
      assert (schedule + [a])[|schedule|] == a;
    }
  }

  /** The worker has stored the elapsed word of this epoch. */
  ghost predicate Measured(s: State, w: nat)
    requires w < |s.workers|
  {
    !s.host.Ready? && s.workers[w].seen == s.epoch && Timed(s.workers[w].pc)
  }

  /** Only the store of the elapsed word gets a worker past it, and nothing else changes that word. */
  ghost predicate Measures(s: State, r: State, a: Action, w: nat) {
    && w < |s.workers| == |s.outs| == |r.workers| == |r.outs|
    && (Measured(r, w) ==>
          (Measured(s, w) && r.outs[w].elapsed == s.outs[w].elapsed) || Gives(a, w, r.outs[w].elapsed))
  }

  lemma {:induction false} WaitMeasures(c: Config, s: State, w: nat, a: Action)
    requires Near(c, s, w) && !s.host.Ready? && Waiting(s.workers[w].pc)
    ensures Measures(s, WaitStep(c, s, w), a, w)
  {}

  lemma {:induction false} ReadMeasures(c: Config, s: State, w: nat, a: Action)
    requires Near(c, s, w) && !s.host.Ready? && s.workers[w].pc.Read?
    ensures Measures(s, ReadStep(c, s, w, s.workers[w].pc.k), a, w)
  {}

  lemma {:induction false} ScanMeasures(c: Config, s: State, w: nat, a: Action)
    requires Near(c, s, w) && !s.host.Ready? && s.workers[w].pc.Scan?
    ensures Measures(s, ScanStep(c, s, w, s.workers[w].pc.offset), a, w)
  {}

  lemma {:induction false} ClaimMeasures(c: Config, s: State, w: nat, a: Action)
    requires Near(c, s, w) && !s.host.Ready? && Claiming(s.workers[w].pc)
    ensures Measures(s, ClaimStep(c, s, w), a, w)
  {}

  lemma {:induction false} KernelMeasures(c: Config, s: State, w: nat, a: Action)
    requires Near(c, s, w) && !s.host.Ready? && InKernel(s.workers[w].pc)
    ensures Measures(s, RunKernel(c, s, w), a, w)
  {}

  lemma {:induction false} PublishMeasures(c: Config, s: State, w: nat, time: int)
    requires Near(c, s, w) && !s.host.Ready?
    ensures Measures(s, PublishStep(c, s, w, time), Work(w, time), w)
  {}

  lemma {:induction false} WorkMeasures(c: Config, s: State, w: nat, time: int)
    requires Near(c, s, w) && !s.host.Ready?
    ensures Measures(s, WorkStep(c, s, w, time), Work(w, time), w)
  {
    var pc := s.workers[w].pc;
    if Waiting(pc) { WaitMeasures(c, s, w, Work(w, time)); }
    else if pc.Read? { ReadMeasures(c, s, w, Work(w, time)); }
    else if pc.Scan? { ScanMeasures(c, s, w, Work(w, time)); }
    else if Claiming(pc) { ClaimMeasures(c, s, w, Work(w, time)); }
    else if InKernel(pc) { KernelMeasures(c, s, w, Work(w, time)); }
    else { PublishMeasures(c, s, w, time); }
  }

  lemma {:induction false} HostMeasures(c: Config, s: State, w: nat)
    requires Near(c, s, w) && HostOk(c, s)
    ensures Measures(s, HostMove(c, s), HostStep, w)
  {}

  lemma {:induction false} OtherMeasures(c: Config, s: State, r: State, a: Action, u: nat, w: nat)
    requires WF(c, s) && u < c.workers && w < c.workers && LocalMove(c, s, r, u)
    requires r.workers[w] == s.workers[w] && r.outs[w] == s.outs[w]
    ensures Measures(s, r, a, w)
  {
    assert RoundOf(r) == RoundOf(s);
  }

  lemma {:induction false} RestedMeasures(c: Config, s: State, a: Action, w: nat)
    requires Ctl(c, s) && w < c.workers && s.host.Ready?
    ensures Measures(s, Next(c, s, a), a, w)
  {
    Nearby(c, s, w);
    if a.Work? && a.w < c.workers {
      Nearby(c, s, a.w);
      WorkKeeps(c, s, a.w, a.time);
    } else if a.Throw? && a.w < c.workers {
      Nearby(c, s, a.w);
      ThrowKeeps(c, s, a.w);
    }
  }

  lemma {:induction false} ElapsedFrom(c: Config, s: State, a: Action, w: nat)
    requires Ctl(c, s) && w < c.workers
    ensures Measures(s, Next(c, s, a), a, w)
  {
    Nearby(c, s, w);
    if s.host.Ready? {
      RestedMeasures(c, s, a, w);
    } else if a.Work? && a.w < c.workers {
      Nearby(c, s, a.w);
      WorkKeeps(c, s, a.w, a.time);
      if a.w == w { WorkMeasures(c, s, w, a.time); } else { OtherMeasures(c, s, Next(c, s, a), a, a.w, w); }
    } else if a.Throw? && a.w < c.workers {
      Nearby(c, s, a.w);
      ThrowKeeps(c, s, a.w);
      if a.w == w { ThrowMeasures(c, s, a, w); } else { OtherMeasures(c, s, Next(c, s, a), a, a.w, w); }
    } else if a.HostStep? {
      HostMeasures(c, s, w);
    }
  }

  lemma {:induction false} ThrowMeasures(c: Config, s: State, a: Action, w: nat)
    requires Near(c, s, w) && !s.host.Ready?
    ensures Measures(s, ThrowStep(s, w), a, w)
  {}

  lemma {:induction false} ElapsedNext(c: Config, s: State, r: State, schedule: seq<Action>, a: Action, w: nat)
    requires Ctl(c, s) && w < c.workers && ElapsedOk(s, schedule, w) && r == Next(c, s, a)
    ensures ElapsedOk(r, schedule + [a], w)
  {
    ElapsedFrom(c, s, a, w);
    if Measured(r, w) { GivenLater(schedule, a, w, r.outs[w].elapsed); }
  }

  lemma {:induction false} ElapsedLast(c: Config, data: seq<int>, before: seq<Action>, last: Action, w: nat)
    requires ValidConfig(c) && |data| == c.capacity && w < c.workers
    requires ElapsedOk(After(c, data, before), before, w)
    ensures ElapsedOk(After(c, data, before + [last]), before + [last], w)
  {
    DispatchRuns.Always(c, data, before);
    AfterLast(c, data, before, last);
    ElapsedNext(c, After(c, data, before), After(c, data, before + [last]), before, last, w);
  }

  lemma {:induction false} AfterLast(c: Config, data: seq<int>, before: seq<Action>, last: Action)
    requires ValidConfig(c) && |data| == c.capacity
    ensures After(c, data, before + [last]) == Next(c, After(c, data, before), last)
  {
    assert (before + [last])[..|before|] == before;
  }

  lemma {:induction false} ElapsedAlways(c: Config, data: seq<int>, schedule: seq<Action>, w: nat)
    requires ValidConfig(c) && |data| == c.capacity && w < c.workers
    ensures ElapsedOk(After(c, data, schedule), schedule, w)
    decreases |schedule|
  {
    if schedule != [] {
      var before, last := schedule[..|schedule| - 1], schedule[|schedule| - 1];
      ElapsedAlways(c, data, before, w);
      ElapsedLast(c, data, before, last, w);
      assert schedule == before + [last];
    }
  }

  /** The elapsed word of a finished dispatch is a time the worker measured, at least 1. */
  lemma {:induction false} ElapsedIsMeasured(c: Config, data: seq<int>, schedule: seq<Action>, w: nat)
    requires ValidConfig(c) && |data| == c.capacity && w < c.workers
    ensures
      var s := After(c, data, schedule);
      s.host.Complete? ==> Given(schedule, w, s.outs[w].elapsed)
  {
    ElapsedAlways(c, data, schedule, w);
    DispatchRuns.Always(c, data, schedule);
    var s := After(c, data, schedule);
    if s.host.Complete? { AllFinished(c, s, w); }
  }

  // ---- the host's verdict

  datatype Verdict = Returned | Cancelled | WorkerFailed(worker: nat, status: int)

  /** `first_failed_status` and `worker_status_error`, from worker w on. */
  function Judge(outs: seq<Out>, w: nat): Verdict
    decreases |outs| - w
  {
    if w >= |outs| then Returned
    else if outs[w].status == OK then Judge(outs, w + 1)
    else if outs[w].status == CANCELLED then Cancelled
    else WorkerFailed(w, outs[w].status)
  }

  /** The verdict is that of some worker, and Returned only if all are OK. */
  lemma {:induction false} JudgedBy(outs: seq<Out>, w: nat)
    ensures Judge(outs, w) == Returned <==> forall v :: w <= v < |outs| ==> outs[v].status == OK
    ensures Judge(outs, w) == Cancelled ==> exists v :: w <= v < |outs| && outs[v].status == CANCELLED
    ensures Judge(outs, w).WorkerFailed? ==>
      var v := Judge(outs, w).worker;
      && w <= v < |outs| && outs[v].status == Judge(outs, w).status && outs[v].status != OK
          && outs[v].status != CANCELLED
      && forall u :: w <= u < v ==> outs[u].status == OK
    decreases |outs| - w
  {
    if w < |outs| { JudgedBy(outs, w + 1); }
  }

  /** The first status that is not OK decides. */
  lemma {:induction false} JudgedFirst(outs: seq<Out>, w: nat, k: nat)
    requires w <= k < |outs| && outs[k].status != OK && forall v :: w <= v < k ==> outs[v].status == OK
    ensures Judge(outs, w) == if outs[k].status == CANCELLED then Cancelled else WorkerFailed(k, outs[k].status)
    decreases k - w
  {
    if w < k { JudgedFirst(outs, w + 1, k); }
  }

  /**
   What the caller of a finished dispatch is told. With a kernel found it returns or is cancelled, a
   static one always returns; it is cancelled only on request, and always when an index was left out.
   With none found a static dispatch fails with the lookup's reason at worker 0, and a dynamic one over
   a range that is not empty fails with that reason unless it was cancelled.
   */
  lemma {:induction false} VerdictTells(c: Config, data: seq<int>, schedule: seq<Action>, x: int)
    requires ValidConfig(c) && |data| == c.capacity
    ensures
      var s := After(c, data, schedule);
      s.host.Complete? ==>
        var verdict, inRange := Judge(s.outs, 0), s.job.bounds[0] <= x < s.job.bounds[c.workers];
        && (verdict == Cancelled ==> s.job.grain > 0 && s.hist.requests > 0)
        && match c.lookup(s.job.kernelId, s.job.layoutHash)
           case Found(_) =>
             && (verdict == Returned || verdict == Cancelled)
             && (Dynamic(c, s) && inRange && x !in s.hist.visits ==> verdict == Cancelled)
           case Missing(reason) =>
             && (s.job.grain == 0 ==> verdict == WorkerFailed(0, reason))
             && (s.job.grain > 0 && inRange ==>
                   verdict == Cancelled || (verdict.WorkerFailed? && verdict.status == reason))
  {
    DispatchRuns.Always(c, data, schedule);
    var s := After(c, data, schedule);
    if s.host.Complete? {
      JudgedBy(s.outs, 0);
      forall w | 0 <= w < c.workers ensures StatusFits(c, s.job, s.outs[w].status) { OutcomeWords(c, data, schedule,
          w); }
      forall w | 0 <= w < c.workers ensures s.outs[w].status == CANCELLED ==> s.hist.requests > 0 {
        DispatchRuns.CancelIsCooperative(c, data, schedule, w);
      }
      LeftOutMeansCancelled(c, data, schedule, x);
      NoKernelIsNoticed(c, data, schedule);
    }
  }
}
