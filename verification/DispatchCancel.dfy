/** Cooperative cancellation: who may report it, and how much work a request lets through. */
module DispatchCancel {
  import opened Int32
  import opened Kernels
  import opened DispatchModel
  import opened DispatchControl

  /** The cancel sequence after a number of requests, with its wrap from 2147483647 to 1. */
  function CycleAt(start: int, requests: nat): int {
    if requests == 0 then start
    else if start == 0 then (requests - 1) % MAX + 1
    else (start - 1 + requests) % MAX + 1
  }

  lemma CycleStep(start: int, requests: nat)
    requires 0 <= start <= MAX
    ensures NextEpoch(CycleAt(start, requests)) == CycleAt(start, requests + 1)
    ensures 0 <= CycleAt(start, requests) <= MAX
  {}

  /** Fewer than 2^31 - 1 requests never bring the sequence back to where it began. */
  lemma CycleMoves(start: int, requests: nat)
    requires 0 <= start <= MAX && 0 < requests < MAX
    ensures CycleAt(start, requests) != start
  {}

  /** The worker has begun a chunk that it will finish although cancellation was requested. */
  predicate LastChunk(pc: Pc) {
    pc.Enter? || pc.Loop? || pc.Recheck? || pc.CrashLoad? || pc.CrashStatus? || pc.CrashDone?
    || pc.CrashNotify? || pc.Dead?
  }

  /** The worker's status variable belongs to this dispatch. */
  predicate StatusSet(pc: Pc, grain: int) {
    !pc.ReadStop? && !pc.Read? && (grain > 0 || !LastChunk(pc))
  }

  ghost predicate CancelWorker(epoch: int, grain: int, requests: nat, wk: Worker) {
    wk.seen == epoch ==>
      && (StatusSet(wk.pc, grain) && wk.status == CANCELLED ==> requests > 0)
      && (grain <= 0 ==> wk.late == 0)
      && (requests < MAX ==>
            wk.late <= 1 && (wk.late == 1 ==> requests > 0 && (LastChunk(wk.pc) || wk.status != OK)))
      && (wk.pc.ReadStop? || wk.pc.Read? ==> wk.late == 0)
  }

  ghost predicate CancelInv(c: Config, s: State)
    requires WF(c, s)
  {
    && 0 <= s.cancelSeq <= MAX
    && (!s.host.Ready? ==>
          && 0 <= s.hist.baseline <= MAX && s.cancelSeq == CycleAt(s.hist.baseline, s.hist.requests)
          && forall w :: 0 <= w < c.workers ==> CancelWorker(s.epoch, s.job.grain, s.hist.requests, s.workers[w]))
  }

  ghost predicate CancelMove(c: Config, s: State, r: State, w: nat)
    requires WF(c, s) && WF(c, r) && w < c.workers
  {
    && r.host == s.host && r.epoch == s.epoch && r.job == s.job && r.cancelSeq == s.cancelSeq
    && r.hist.baseline == s.hist.baseline && r.hist.requests == s.hist.requests
    && r.workers == s.workers[w := r.workers[w]]
    && CancelWorker(s.epoch, s.job.grain, s.hist.requests, r.workers[w])
  }

  ghost predicate Counted(c: Config, s: State, w: nat) {
    && Near(c, s, w) && !s.host.Ready?
    && CancelWorker(s.epoch, s.job.grain, s.hist.requests, s.workers[w])
    && (0 < s.hist.requests < MAX ==> s.cancelSeq != s.hist.baseline)
    && (s.hist.requests == 0 ==> s.cancelSeq == s.hist.baseline)
  }

  lemma WaitCancel(c: Config, s: State, w: nat)
    requires Counted(c, s, w)
    ensures CancelMove(c, s, WaitStep(c, s, w), w)
  {}

  lemma ReadCancel(c: Config, s: State, w: nat, k: nat)
    requires Counted(c, s, w) && s.workers[w].pc == Read(k) && ValidConfig(c)
    ensures CancelMove(c, s, ReadStep(c, s, w, k), w)
  {}

  lemma ScanCancel(c: Config, s: State, w: nat, offset: nat)
    requires Counted(c, s, w) && s.workers[w].pc == Scan(offset)
    ensures CancelMove(c, s, ScanStep(c, s, w, offset), w)
  {}

  lemma {:induction false} ClaimCancel(c: Config, s: State, w: nat)
    requires Counted(c, s, w) && ValidConfig(c) && s.workers[w].pc.Cas?
    ensures CancelMove(c, s, ClaimStep(c, s, w), w)
  {}

  lemma {:induction false} ProbeCancel(c: Config, s: State, w: nat)
    requires Counted(c, s, w) && Claiming(s.workers[w].pc) && !s.workers[w].pc.Cas?
    ensures CancelMove(c, s, ClaimStep(c, s, w), w)
  {}

  lemma KernelCancel(c: Config, s: State, w: nat)
    requires Counted(c, s, w)
    ensures CancelMove(c, s, RunKernel(c, s, w), w)
  {}

  lemma PublishCancel(c: Config, s: State, w: nat, time: int)
    requires Counted(c, s, w)
    ensures CancelMove(c, s, PublishStep(c, s, w, time), w)
  {}

  lemma ThrowCancel(c: Config, s: State, w: nat)
    requires Counted(c, s, w)
    ensures CancelMove(c, s, ThrowStep(s, w), w)
  {}

  lemma WorkCancel(c: Config, s: State, w: nat, time: int)
    requires Counted(c, s, w) && ValidConfig(c)
    ensures CancelMove(c, s, WorkStep(c, s, w, time), w)
  {
    var pc := s.workers[w].pc;
    if Waiting(pc) { WaitCancel(c, s, w); }
    else if pc.Read? { ReadCancel(c, s, w, pc.k); }
    else if pc.Scan? { ScanCancel(c, s, w, pc.offset); }
    else if pc.Cas? { ClaimCancel(c, s, w); }
    else if Claiming(pc) { ProbeCancel(c, s, w); }
    else if InKernel(pc) { KernelCancel(c, s, w); }
    else { PublishCancel(c, s, w, time); }
  }

  lemma CancelReady(c: Config, s: State, a: Action)
    requires Ctl(c, s) && CancelInv(c, s) && s.host.Ready? && !a.Dispatch?
    ensures CancelInv(c, Next(c, s, a))
  {
    match a
    case Work(w, time) => if w < c.workers { Nearby(c, s, w); }
    case Throw(w) => if w < c.workers { Nearby(c, s, w); }
    case _ =>
  }

  lemma HostCancel(c: Config, s: State)
    requires WF(c, s) && CancelInv(c, s)
    ensures CancelInv(c, HostMove(c, s))
  {}

  lemma CancelNext(c: Config, s: State, a: Action)
    requires Ctl(c, s) && CancelInv(c, s)
    ensures CancelInv(c, Next(c, s, a))
  {
    var r := Next(c, s, a);
    match a
    case Dispatch(job) =>
      if s.host.Ready? && ValidJob(c, job) {
        forall w | 0 <= w < c.workers ensures s.workers[w].seen == s.epoch { Nearby(c, s, w); }
      }
    case HostStep => HostCancel(c, s);
    case Cancel =>
      if !s.host.Ready? { CycleStep(s.hist.baseline, s.hist.requests); }
    case Work(w, time) =>
      if s.host.Ready? {
        CancelReady(c, s, a);
      } else if w < c.workers {
        if 0 < s.hist.requests < MAX { CycleMoves(s.hist.baseline, s.hist.requests); }
        Nearby(c, s, w);
        WorkCancel(c, s, w, time);
      }
    case Throw(w) =>
      if s.host.Ready? {
        CancelReady(c, s, a);
      } else if w < c.workers {
        if 0 < s.hist.requests < MAX { CycleMoves(s.hist.baseline, s.hist.requests); }
        Nearby(c, s, w);
        ThrowCancel(c, s, w);
      }
  }
}
