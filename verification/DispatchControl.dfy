/** What every step keeps about epochs, descriptors and program counters, on every schedule. */
module DispatchControl {
  import opened Int32
  import opened Kernels
  import opened DispatchModel

  /** The facts about the current dispatch that a worker's state is judged against. */
  datatype Round = Round(epoch: int, previous: int, job: Job, baseline: int, dispatches: nat)

  function RoundOf(s: State): Round {
    Round(s.epoch, s.hist.previous, s.job, s.hist.baseline, s.hist.dispatches)
  }

  predicate Idle(pc: Pc) {
    pc.Check? || pc.Park? || pc.Asleep? || pc.PubNotify?
  }

  /** The done word of a worker that has finished `trips` dispatches, the last with epoch e. */
  function DoneWord(e: int, trips: nat): int {
    if trips == 0 then -1 else e
  }

  predicate Rested(e: int, trips: nat, slot: Slot, out: Out, wk: Worker) {
    slot.epoch == wk.seen == e && out.done == DoneWord(e, trips) && Idle(wk.pc) && wk.trips == trips
  }

  ghost predicate RegsUpTo(c: Config, g: Round, w: nat, regs: Regs, k: nat)
    requires w + 1 < |g.job.bounds|
  {
    && (0 < k ==> regs.start == g.job.bounds[w])
    && (1 < k ==> regs.end == g.job.bounds[w + 1])
    && (2 < k ==> regs.argument == g.job.argument)
    && (3 < k ==> regs.kernelId == g.job.kernelId)
    && (4 < k ==> regs.layoutHash == g.job.layoutHash)
    && (5 < k ==> regs.grain == g.job.grain)
    && (6 < k ==> regs.workers == c.workers)
    && (7 < k ==> regs.baseline == g.baseline)
  }

  ghost predicate WrittenUpTo(g: Round, w: nat, slot: Slot, k: nat)
    requires w + 1 < |g.job.bounds|
  {
    && (0 < k ==> slot.start == g.job.bounds[w])
    && (1 < k ==> slot.end == g.job.bounds[w + 1])
    && (2 < k ==> slot.argument == g.job.argument)
    && (3 < k ==> slot.kernelId == g.job.kernelId)
    && (4 < k ==> slot.layoutHash == g.job.layoutHash)
    && (9 < k ==> slot.grain == g.job.grain)
    && (10 < k ==> slot.baseline == g.baseline)
    && (11 < k ==> slot.stop == 0)
  }

  /** A victim position inside the scan loop; a worker's own shard has its true end as limit. */
  ghost predicate AtVictim(c: Config, g: Round, w: nat, offset: nat, limit: int)
    requires w + 1 < |g.job.bounds|
  {
    && g.job.grain > 0 && offset < c.workers && limit <= c.capacity
    && (offset == 0 ==> limit == g.job.bounds[w + 1])
  }

  ghost predicate InCall(c: Config, g: Round, w: nat, ret: Return, lo: int, hi: int)
    requires w + 1 < |g.job.bounds|
  {
    && Resolves(c, g.job)
    && match ret
       case Static => g.job.grain == 0 && lo == g.job.bounds[w] && hi == g.job.bounds[w + 1]
       case Chunk(offset, limit) => AtVictim(c, g, w, offset, limit) && 0 <= lo < hi <= limit
  }

  /** A worker that has picked up this epoch and not yet stored its done word. */
  ghost predicate Running(c: Config, g: Round, out: Out, wk: Worker, w: nat)
    requires w + 1 < |g.job.bounds|
  {
    && (!wk.pc.ReadStop? && !wk.pc.Read? ==> RegsUpTo(c, g, w, wk.regs, 8))
    && match wk.pc
       case ReadStop => true
       case Read(k) => k <= 7 && RegsUpTo(c, g, w, wk.regs, k)
       case Scan(offset) => g.job.grain > 0 && offset <= c.workers
       case Probe(offset, limit) => AtVictim(c, g, w, offset, limit) && wk.status == OK
       case LoadCursor(offset, limit) => AtVictim(c, g, w, offset, limit) && wk.status == OK
       case Cas(offset, limit, current, _) =>
         AtVictim(c, g, w, offset, limit) && wk.status == OK && 0 <= current < limit
       case Recheck(offset, limit) => AtVictim(c, g, w, offset, limit) && wk.status == OK
       case Enter(ret, lo, hi, header) =>
         InCall(c, g, w, ret, lo, hi) && |header| <= KernelOf(c, g.job).header && (ret.Chunk? ==> wk.status == OK)
       case Loop(ret, lo, hi, i, header, _, _) =>
         && InCall(c, g, w, ret, lo, hi) && lo <= i <= hi && |header| == KernelOf(c, g.job).header
         && (ret.Chunk? ==> wk.status == OK)
       case PubElapsed => true
       case PubResult => true
       case PubStatus => out.result == wk.result
       case PubDone => out.result == wk.result && out.status == wk.status
       case CrashLoad(_, _) => true
       case CrashStatus(_, _, e) => e == g.epoch
       case CrashDone(_, _, e) => e == g.epoch && out.status == RUNTIME_FAILED
       case _ => false
  }

  /** Published, but the worker has not loaded the new epoch; only then may it still sleep. */
  ghost predicate Unaware(g: Round, due: bool, out: Out, wk: Worker) {
    && wk.seen == g.previous && wk.trips + 1 == g.dispatches && out.done == DoneWord(g.previous, wk.trips)
    && (Idle(wk.pc) || wk.pc.Reload?) && (wk.pc.Asleep? ==> due)
  }

  ghost predicate Finished(g: Round, out: Out, wk: Worker) {
    && wk.seen == out.done == g.epoch && wk.trips == g.dispatches
    && ((Idle(wk.pc) && out.result == wk.result && out.status == wk.status)
        || ((wk.pc.CrashNotify? || wk.pc.Dead?) && out.status == RUNTIME_FAILED))
  }

  /** due: the host's next step is to notify this worker. */
  ghost predicate CtlWorker(c: Config, g: Round, published: bool, due: bool, slot: Slot, out: Out, wk: Worker, w: nat)
    requires w + 1 < |g.job.bounds|
  {
    && g.dispatches > 0
    && if !published then Rested(g.previous, g.dispatches - 1, slot, out, wk)
       else
         && slot.epoch == g.epoch && WrittenUpTo(g, w, slot, 12)
         && (|| Unaware(g, due, out, wk)
             || (wk.seen == g.epoch && wk.trips == g.dispatches && out.done == DoneWord(g.previous, wk.trips - 1)
                 && Running(c, g, out, wk, w))
             || Finished(g, out, wk))
  }

  /** What a scan of `wait_run` with nothing pending has already seen. */
  ghost predicate Seen(s: State, upTo: nat) {
    forall u :: 0 <= u < upTo && u < |s.outs| ==> s.outs[u].done == s.epoch && s.outs[u].status != RUNTIME_FAILED
  }

  ghost predicate HostOk(c: Config, s: State)
    requires WF(c, s)
  {
    match s.host
    case Write(id, k) =>
      && id < c.workers && k <= 13 && id + 1 < |s.job.bounds|
      && WrittenUpTo(RoundOf(s), id, s.slots[id], k)
    case ScanDone(id, pending) => id <= c.workers && (!pending ==> Seen(s, id))
    case ScanStatus(id, pending) => id < c.workers && s.outs[id].done == s.epoch && (!pending ==> Seen(s, id))
    case Complete => Seen(s, c.workers)
    case Failed(id) => id < c.workers && s.outs[id].done == s.epoch && s.outs[id].status == RUNTIME_FAILED
    case _ => true
  }

  ghost predicate Bounded(c: Config, s: State)
    requires WF(c, s)
  {
    forall v :: 0 <= v < c.workers ==> s.slots[v].end <= c.capacity && 0 <= s.cursors[v] <= c.capacity
  }

  ghost predicate Workers(c: Config, s: State)
    requires WF(c, s) && ValidJob(c, s.job)
  {
    forall w :: 0 <= w < c.workers ==>
      CtlWorker(c, RoundOf(s), Published(s.host, w), s.host == Write(w, 13), s.slots[w], s.outs[w], s.workers[w], w)
  }

  ghost predicate Ctl(c: Config, s: State) {
    && WF(c, s) && ValidConfig(c) && 0 <= s.epoch <= MAX && Bounded(c, s) && HostOk(c, s)
    && if s.host.Ready? then
         forall w :: 0 <= w < c.workers ==>
           Rested(s.epoch, s.hist.dispatches, s.slots[w], s.outs[w], s.workers[w])
       else
         && ValidJob(c, s.job) && 0 <= s.hist.previous <= MAX && s.epoch == NextEpoch(s.hist.previous)
         && (s.hist.requests == 0 ==> s.cancelSeq == s.hist.baseline)
         && (s.host.Count? || s.host.Write? ==> s.hist.requests == 0)
         && (!s.host.Count? ==> s.workerCount == c.workers)
         && Workers(c, s)
  }

  lemma CtlInit(c: Config, data: seq<int>)
    requires ValidConfig(c) && |data| == c.capacity
    ensures Ctl(c, Init(c, data))
  {}

  // ---- one agent moves, the others are framed

  /** r differs from s in worker w, its outcome words, cursors, data and history at most. */
  ghost predicate LocalMove(c: Config, s: State, r: State, w: nat)
    requires WF(c, s) && w < c.workers
  {
    && WF(c, r) && r.host == s.host && r.slots == s.slots && RoundOf(r) == RoundOf(s) && Bounded(c, r)
    && r.cancelSeq == s.cancelSeq && r.workerCount == s.workerCount && r.hist.requests == s.hist.requests
    && r.outs == s.outs[w := r.outs[w]] && r.workers == s.workers[w := r.workers[w]]
    && (s.outs[w].done == s.epoch ==> r.outs[w] == s.outs[w])
  }

  /** What worker w itself must satisfy, whichever way the host stands. */
  ghost predicate WorkerOk(c: Config, s: State, out: Out, wk: Worker, w: nat)
    requires WF(c, s) && w < c.workers
  {
    if s.host.Ready? then Rested(s.epoch, s.hist.dispatches, s.slots[w], out, wk)
    else
      && |s.job.bounds| == c.workers + 1
      && CtlWorker(c, RoundOf(s), Published(s.host, w), s.host == Write(w, 13), s.slots[w], out, wk, w)
  }

  /** The part of Ctl that a step of worker w needs. */
  ghost predicate Near(c: Config, s: State, w: nat) {
    && WF(c, s) && w < c.workers && Bounded(c, s) && WorkerOk(c, s, s.outs[w], s.workers[w], w)
    && (!s.host.Ready? ==>
          && 0 <= s.job.grain && s.job.bounds[w] <= s.job.bounds[w + 1]
          && s.hist.previous != s.epoch && s.epoch != -1)
    && (!s.host.Ready? && !s.host.Count? ==> s.workerCount == c.workers)
  }

  /** r is s after a step of worker w that keeps w's own invariant. */
  ghost predicate Stepped(c: Config, s: State, r: State, w: nat)
    requires WF(c, s) && w < c.workers
  {
    LocalMove(c, s, r, w) && WorkerOk(c, s, r.outs[w], r.workers[w], w)
  }

  lemma Nearby(c: Config, s: State, w: nat)
    requires Ctl(c, s) && w < c.workers
    ensures Near(c, s, w)
  {}

  lemma Frame(c: Config, s: State, r: State, w: nat)
    requires Ctl(c, s) && w < c.workers && Stepped(c, s, r, w)
    ensures Ctl(c, r)
  {}

  lemma WaitKeeps(c: Config, s: State, w: nat)
    requires Near(c, s, w)
    ensures Stepped(c, s, WaitStep(c, s, w), w)
  {}

  lemma ReadKeeps(c: Config, s: State, w: nat, k: nat)
    requires Near(c, s, w) && s.workers[w].pc == Read(k)
    ensures Stepped(c, s, ReadStep(c, s, w, k), w)
  {}

  /** Inside the scan loop the victim is a real slot. */
  lemma VictimInPool(w: nat, offset: nat, workers: nat)
    requires 0 < workers
    ensures Victim(w, offset, workers) < workers
    ensures w < workers ==> Victim(w, 0, workers) == w
  {}

  lemma ScanKeeps(c: Config, s: State, w: nat, offset: nat)
    requires Near(c, s, w) && s.workers[w].pc == Scan(offset)
    ensures Stepped(c, s, ScanStep(c, s, w, offset), w)
  {
    VictimInPool(w, offset, c.workers);
  }

  lemma ProbeKeeps(c: Config, s: State, w: nat)
    requires Near(c, s, w) && (s.workers[w].pc.Probe? || s.workers[w].pc.Recheck? || s.workers[w].pc.LoadCursor?)
    ensures Stepped(c, s, ClaimStep(c, s, w), w)
  {
    if s.workers[w].pc.LoadCursor? {
      VictimInPool(w, s.workers[w].pc.offset, c.workers);
    }
  }

  lemma CasKeeps(c: Config, s: State, w: nat, offset: nat, limit: int, current: int, stamp: nat)
    requires Near(c, s, w) && s.workers[w].pc == Cas(offset, limit, current, stamp)
    ensures Stepped(c, s, ClaimStep(c, s, w), w)
  {
    VictimInPool(w, offset, c.workers);
  }

  lemma KernelKeeps(c: Config, s: State, w: nat)
    requires Near(c, s, w)
    ensures Stepped(c, s, RunKernel(c, s, w), w)
  {}

  lemma PublishKeeps(c: Config, s: State, w: nat, time: int)
    requires Near(c, s, w)
    ensures Stepped(c, s, PublishStep(c, s, w, time), w)
  {}

  lemma ThrowKeeps(c: Config, s: State, w: nat)
    requires Near(c, s, w)
    ensures Stepped(c, s, ThrowStep(s, w), w)
  {}

  lemma WorkKeeps(c: Config, s: State, w: nat, time: int)
    requires Near(c, s, w)
    ensures Stepped(c, s, WorkStep(c, s, w, time), w)
  {
    var pc := s.workers[w].pc;
    if Waiting(pc) { WaitKeeps(c, s, w); }
    else if pc.Read? { ReadKeeps(c, s, w, pc.k); }
    else if pc.Scan? { ScanKeeps(c, s, w, pc.offset); }
    else if pc.Cas? { CasKeeps(c, s, w, pc.offset, pc.limit, pc.current, pc.stamp); }
    else if Claiming(pc) { ProbeKeeps(c, s, w); }
    else if InKernel(pc) { KernelKeeps(c, s, w); }
    else { PublishKeeps(c, s, w, time); }
  }

  /** A store or notification of `start_run`, seen from worker w. */
  lemma WriteKeeps(c: Config, s: State, w: nat)
    requires Near(c, s, w) && HostOk(c, s) && s.cancelSeq == s.hist.baseline
    requires s.host.Count? || s.host.Write?
    ensures var r := HostMove(c, s);
      WorkerOk(c, r, r.outs[w], r.workers[w], w)
  {}

  lemma WriteBounds(c: Config, s: State)
    requires Ctl(c, s) && (s.host.Count? || s.host.Write?)
    ensures Bounded(c, HostMove(c, s)) && HostOk(c, HostMove(c, s))
  {}

  lemma CtlWrite(c: Config, s: State)
    requires Ctl(c, s) && (s.host.Count? || s.host.Write?)
    ensures Ctl(c, HostMove(c, s))
  {
    var r := HostMove(c, s);
    forall w | 0 <= w < c.workers ensures WorkerOk(c, r, r.outs[w], r.workers[w], w) {
      Nearby(c, s, w);
      WriteKeeps(c, s, w);
    }
    WriteBounds(c, s);
  }

  /** At the end of `wait_run` every worker has finished and none of them failed. */
  lemma AllFinished(c: Config, s: State, w: nat)
    requires Ctl(c, s) && s.host.Complete? && w < c.workers
    ensures Finished(RoundOf(s), s.outs[w], s.workers[w]) && Idle(s.workers[w].pc)
    ensures WrittenUpTo(RoundOf(s), w, s.slots[w], 12) && s.slots[w].epoch == s.epoch
  {
    Nearby(c, s, w);
    assert s.outs[w].done == s.epoch;
  }

  lemma CtlFinish(c: Config, s: State)
    requires Ctl(c, s) && s.host.Complete?
    ensures Ctl(c, HostMove(c, s))
  {
    var r := HostMove(c, s);
    forall w | 0 <= w < c.workers ensures WorkerOk(c, r, r.outs[w], r.workers[w], w) {
      AllFinished(c, s, w);
    }
  }

  lemma ScanKeepsSeen(c: Config, s: State)
    requires WF(c, s) && HostOk(c, s) && (s.host.ScanDone? || s.host.ScanStatus?)
    ensures HostOk(c, HostMove(c, s))
  {}

  /** A step of `wait_run` changes nothing but the host's own position. */
  lemma CtlScanDone(c: Config, s: State)
    requires Ctl(c, s) && (s.host.ScanDone? || s.host.ScanStatus?)
    ensures Ctl(c, HostMove(c, s))
  {
    var r := HostMove(c, s);
    ScanKeepsSeen(c, s);
    assert r == s.(host := r.host) && !r.host.Ready? && !r.host.Count? && !r.host.Write?;
    forall w | 0 <= w < c.workers ensures WorkerOk(c, r, r.outs[w], r.workers[w], w) {
      assert WorkerOk(c, s, s.outs[w], s.workers[w], w);
    }
  }

  lemma CtlDispatch(c: Config, s: State, job: Job)
    requires Ctl(c, s) && s.host.Ready? && ValidJob(c, job)
    ensures Ctl(c, StartJob(c, s, job))
  {
    var r := StartJob(c, s, job);
    forall w | 0 <= w < c.workers ensures WorkerOk(c, r, r.outs[w], r.workers[w], w) {
      assert WorkerOk(c, s, s.outs[w], s.workers[w], w);
    }
  }

  lemma CtlCancel(c: Config, s: State)
    requires Ctl(c, s)
    ensures Ctl(c, Next(c, s, Cancel))
  {
    var r := Next(c, s, Cancel);
    if !s.host.Ready? {
      forall w | 0 <= w < c.workers ensures WorkerOk(c, r, r.outs[w], r.workers[w], w) {
        assert WorkerOk(c, s, s.outs[w], s.workers[w], w);
      }
    }
  }

  lemma CtlNext(c: Config, s: State, a: Action)
    requires Ctl(c, s)
    ensures Ctl(c, Next(c, s, a))
  {
    match a
    case Work(w, time) =>
      if w < c.workers {
        Nearby(c, s, w);
        WorkKeeps(c, s, w, time);
        Frame(c, s, Next(c, s, a), w);
      }
    case Throw(w) =>
      if w < c.workers {
        Nearby(c, s, w);
        ThrowKeeps(c, s, w);
        Frame(c, s, Next(c, s, a), w);
      }
    case HostStep =>
      if s.host.Count? || s.host.Write? { CtlWrite(c, s); }
      else if s.host.Complete? { CtlFinish(c, s); }
      else if s.host.ScanDone? || s.host.ScanStatus? { CtlScanDone(c, s); }
    case Cancel => CtlCancel(c, s);
    case Dispatch(job) => if s.host.Ready? && ValidJob(c, job) { CtlDispatch(c, s, job); }
  }
}
