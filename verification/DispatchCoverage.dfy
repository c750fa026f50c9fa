/**
 A dynamic dispatch processes every index at least once, on every schedule: also when workers
 steal from slots the host has only half written or that still hold the previous dispatch.
 */
module DispatchCoverage {
  import opened Int32
  import opened Kernels
  import opened DispatchModel
  import opened DispatchControl

  /** x has been processed, or the worker that claimed it last still holds it. */
  ghost predicate Covered(s: State, x: int) {
    || x in s.hist.visits
    || (x in s.hist.owner && s.hist.owner[x] < |s.workers| && Pends(s.workers[s.hist.owner[x]].pc, x))
  }

  /** The worker is no longer claiming from its own shard. */
  predicate PastOwn(pc: Pc) {
    match pc
    case Scan(offset) => offset > 0
    case Probe(offset, _) => offset > 0
    case LoadCursor(offset, _) => offset > 0
    case Cas(offset, _, _, _) => offset > 0
    case Recheck(offset, _) => offset > 0
    case Enter(ret, _, _, _) => ret.Chunk? && ret.offset > 0
    case Loop(ret, _, _, _, _, _, _) => ret.Chunk? && ret.offset > 0
    case _ => Idle(pc) || pc.PubElapsed? || pc.PubResult? || pc.PubStatus? || pc.PubDone?
  }

  /** A worker that left its own shard with status OK left nothing of it unclaimed. */
  predicate Drained(epoch: int, end: int, cursor: int, wk: Worker) {
    wk.seen == epoch && wk.status == OK && PastOwn(wk.pc) ==> end <= cursor
  }

  ghost predicate Dynamic(c: Config, s: State) {
    !s.host.Ready? && s.job.grain > 0 && Resolves(c, s.job)
  }

  /** x lies below the cursor that the host has stored for shard v in this dispatch. */
  ghost predicate InClaimed(c: Config, s: State, v: int, x: int)
    requires WF(c, s) && |s.job.bounds| == c.workers + 1
  {
    && 0 <= v < c.workers && Stored(s.host, v, CURSOR_WORD)
    && s.job.bounds[v] <= x < s.job.bounds[v + 1] && x < s.cursors[v]
  }

  ghost predicate Cov(c: Config, s: State)
    requires WF(c, s)
  {
    Dynamic(c, s) && |s.job.bounds| == c.workers + 1 ==>
      && (forall v, x :: InClaimed(c, s, v, x) ==> Covered(s, x))
      && (forall w :: 0 <= w < c.workers ==> Drained(s.epoch, s.job.bounds[w + 1], s.cursors[w], s.workers[w]))
  }

  /** What a worker step does to coverage: nothing covered is lost, claimed indices are covered. */
  ghost predicate Progress(c: Config, s: State, r: State, w: nat)
    requires WF(c, s) && WF(c, r)
  {
    && w < c.workers && r.host == s.host && r.epoch == s.epoch && r.job == s.job
    && (forall u :: 0 <= u < c.workers && u != w ==> r.workers[u] == s.workers[u])
    && (forall v :: 0 <= v < c.workers ==> s.cursors[v] <= r.cursors[v])
    && (forall x :: Covered(s, x) ==> Covered(r, x))
    && (forall v, x :: 0 <= v < c.workers && s.cursors[v] <= x < r.cursors[v] ==> Covered(r, x))
    && |s.job.bounds| == c.workers + 1
    && Drained(r.epoch, r.job.bounds[w + 1], r.cursors[w], r.workers[w])
  }

  lemma CovFrame(c: Config, s: State, r: State, w: nat)
    requires WF(c, s) && WF(c, r) && Cov(c, s) && Progress(c, s, r, w)
    ensures Cov(c, r)
  {
    if Dynamic(c, r) {
      forall v, x | InClaimed(c, r, v, x) ensures Covered(r, x) {
        if x < s.cursors[v] {
          assert InClaimed(c, s, v, x);
        }
      }
    }
  }

  ghost predicate Mine(c: Config, s: State, w: nat)
    requires WF(c, s)
  {
    && Near(c, s, w) && Dynamic(c, s)
    && Drained(s.epoch, s.job.bounds[w + 1], s.cursors[w], s.workers[w])
  }

  /** Most steps claim nothing, process nothing and keep what the worker holds. */
  ghost predicate Plain(c: Config, s: State, r: State, w: nat)
    requires WF(c, s) && WF(c, r)
  {
    && w < c.workers && r.host == s.host && r.epoch == s.epoch && r.job == s.job
    && r.cursors == s.cursors && r.hist.owner == s.hist.owner && r.hist.visits == s.hist.visits
    && r.workers == s.workers[w := r.workers[w]]
    && (forall x :: Pends(s.workers[w].pc, x) ==> Pends(r.workers[w].pc, x))
    && |s.job.bounds| == c.workers + 1
    && Drained(s.epoch, s.job.bounds[w + 1], s.cursors[w], r.workers[w])
  }

  lemma PlainProgress(c: Config, s: State, r: State, w: nat)
    requires WF(c, s) && WF(c, r) && Plain(c, s, r, w)
    ensures Progress(c, s, r, w)
  {}

  lemma WaitPlain(c: Config, s: State, w: nat)
    requires WF(c, s) && Mine(c, s, w)
    ensures Plain(c, s, WaitStep(c, s, w), w)
  {}

  lemma ReadPlain(c: Config, s: State, w: nat, k: nat)
    requires WF(c, s) && Mine(c, s, w) && s.workers[w].pc == Read(k)
    ensures Plain(c, s, ReadStep(c, s, w, k), w)
  {}

  lemma ScanPlain(c: Config, s: State, w: nat, offset: nat)
    requires WF(c, s) && Mine(c, s, w) && s.workers[w].pc == Scan(offset)
    ensures Plain(c, s, ScanStep(c, s, w, offset), w)
  {}

  lemma ProbePlain(c: Config, s: State, w: nat)
    requires WF(c, s) && Mine(c, s, w)
    requires s.workers[w].pc.Probe? || s.workers[w].pc.Recheck? || s.workers[w].pc.LoadCursor?
    ensures Plain(c, s, ClaimStep(c, s, w), w)
  {
    VictimInPool(w, 0, c.workers);
  }

  lemma PublishPlain(c: Config, s: State, w: nat, time: int)
    requires WF(c, s) && Mine(c, s, w)
    ensures Plain(c, s, PublishStep(c, s, w, time), w)
  {}

  lemma ThrowPlain(c: Config, s: State, w: nat)
    requires WF(c, s) && Mine(c, s, w)
    ensures Plain(c, s, ThrowStep(s, w), w)
  {}

  lemma {:induction false} CasFails(c: Config, s: State, w: nat, offset: nat, limit: int, current: int, stamp: nat,
                                    v: nat)
    requires WF(c, s) && Mine(c, s, w) && s.workers[w].pc == Cas(offset, limit, current, stamp)
    requires v == Victim(w, offset, c.workers) && v < c.workers && s.cursors[v] != current
    ensures Plain(c, s, ClaimStep(c, s, w), w)
  {}

  /** A successful compare-exchange covers exactly what it claims. */
  lemma {:induction false} CasClaims(c: Config, s: State, w: nat, offset: nat, limit: int, current: int, stamp: nat,
                                     v: nat)
    requires WF(c, s) && Mine(c, s, w) && s.workers[w].pc == Cas(offset, limit, current, stamp)
    requires v == Victim(w, offset, c.workers) && v < c.workers && s.cursors[v] == current
    ensures Progress(c, s, ClaimStep(c, s, w), w)
  {
    var r := ClaimStep(c, s, w);
    forall x | Covered(s, x) ensures Covered(r, x) {}
  }

  lemma {:induction false} CasProgress(c: Config, s: State, w: nat, offset: nat, limit: int, current: int, stamp: nat)
    requires WF(c, s) && Mine(c, s, w) && s.workers[w].pc == Cas(offset, limit, current, stamp)
    ensures Progress(c, s, ClaimStep(c, s, w), w)
  {
    VictimInPool(w, offset, c.workers);
    var v := Victim(w, offset, c.workers);
    if s.cursors[v] == current {
      CasClaims(c, s, w, offset, limit, current, stamp, v);
    } else {
      CasFails(c, s, w, offset, limit, current, stamp, v);
      PlainProgress(c, s, ClaimStep(c, s, w), w);
    }
  }

  lemma KernelProgress(c: Config, s: State, w: nat)
    requires WF(c, s) && Mine(c, s, w) && (s.workers[w].pc.Enter? || s.workers[w].pc.Loop?)
    ensures Progress(c, s, RunKernel(c, s, w), w)
  {
    var r := RunKernel(c, s, w);
    assert Drained(r.epoch, r.job.bounds[w + 1], r.cursors[w], r.workers[w]);
    if r.hist.visits == s.hist.visits {
      PlainProgress(c, s, r, w);
    } else {
      forall x | Covered(s, x) ensures Covered(r, x) {}
    }
  }

  lemma WorkPlain(c: Config, s: State, w: nat, time: int)
    requires WF(c, s) && Mine(c, s, w) && !s.workers[w].pc.Cas? && !InKernel(s.workers[w].pc)
    ensures Plain(c, s, WorkStep(c, s, w, time), w)
  {
    var pc := s.workers[w].pc;
    if Waiting(pc) { WaitPlain(c, s, w); }
    else if pc.Read? { ReadPlain(c, s, w, pc.k); }
    else if pc.Scan? { ScanPlain(c, s, w, pc.offset); }
    else if Claiming(pc) { ProbePlain(c, s, w); }
    else { PublishPlain(c, s, w, time); }
  }

  lemma WorkProgress(c: Config, s: State, w: nat, time: int)
    requires WF(c, s) && Mine(c, s, w)
    ensures Progress(c, s, WorkStep(c, s, w, time), w)
  {
    var pc := s.workers[w].pc;
    if pc.Cas? {
      CasProgress(c, s, w, pc.offset, pc.limit, pc.current, pc.stamp);
    } else if InKernel(pc) {
      KernelProgress(c, s, w);
    } else {
      WorkPlain(c, s, w, time);
      PlainProgress(c, s, WorkStep(c, s, w, time), w);
    }
  }

  /** A step of `start_run` other than waking a worker: only slot words and one cursor change. */
  lemma CovStore(c: Config, s: State, id: nat, k: nat)
    requires WF(c, s) && Cov(c, s) && s.host == Write(id, k) && k < 13 && id < c.workers
    requires |s.job.bounds| == c.workers + 1
    requires s.workers[id].seen != s.epoch || k != 8
    ensures Cov(c, HostMove(c, s))
  {
    var r := HostMove(c, s);
    if Dynamic(c, s) {
      forall v, x | InClaimed(c, r, v, x) ensures Covered(r, x) {
        assert InClaimed(c, s, v, x);
        assert Covered(s, x);
      }
    }
  }

  lemma CovNotify(c: Config, s: State, id: nat)
    requires WF(c, s) && Cov(c, s) && s.host == Write(id, 13) && id < c.workers
    requires |s.job.bounds| == c.workers + 1
    ensures Cov(c, HostMove(c, s))
  {
    var r := HostMove(c, s);
    if Dynamic(c, s) {
      forall v, x | InClaimed(c, r, v, x) ensures Covered(r, x) {
        assert InClaimed(c, s, v, x);
        assert Covered(s, x);
      }
    }
  }

  lemma CovScan(c: Config, s: State)
    requires WF(c, s) && Cov(c, s) && !s.host.Write?
    ensures Cov(c, HostMove(c, s))
  {
    var r := HostMove(c, s);
    if Dynamic(c, r) && |s.job.bounds| == c.workers + 1 {
      forall v, x | InClaimed(c, r, v, x) ensures Covered(r, x) {
        assert InClaimed(c, s, v, x);
        assert Covered(s, x);
      }
    }
  }

  /** A slot whose epoch the host has not stored belongs to a worker of the previous epoch. */
  lemma NotYet(c: Config, s: State, id: nat, k: nat)
    requires Ctl(c, s) && s.host == Write(id, k)
    ensures k <= 12 ==> s.workers[id].seen != s.epoch
  {
    Nearby(c, s, id);
  }

  lemma CovDispatch(c: Config, s: State, job: Job)
    requires Ctl(c, s) && s.host.Ready? && ValidJob(c, job)
    ensures Cov(c, StartJob(c, s, job))
  {
    forall w | 0 <= w < c.workers ensures s.workers[w].seen == s.epoch {
      Nearby(c, s, w);
    }
  }

  lemma CovNext(c: Config, s: State, a: Action)
    requires Ctl(c, s) && Cov(c, s)
    ensures Cov(c, Next(c, s, a))
  {
    match a
    case Work(w, time) =>
      if w < c.workers && Dynamic(c, s) {
        Nearby(c, s, w);
        WorkProgress(c, s, w, time);
        CovFrame(c, s, Next(c, s, a), w);
      } else if !Dynamic(c, s) {
        StillStatic(c, s, a);
      }
    case Throw(w) =>
      if w < c.workers && Dynamic(c, s) {
        Nearby(c, s, w);
        ThrowPlain(c, s, w);
        PlainProgress(c, s, Next(c, s, a), w);
        CovFrame(c, s, Next(c, s, a), w);
      } else if !Dynamic(c, s) {
        StillStatic(c, s, a);
      }
    case HostStep =>
      if s.host.Write? {
        NotYet(c, s, s.host.id, s.host.k);
        if s.host.k < 13 { CovStore(c, s, s.host.id, s.host.k); } else { CovNotify(c, s, s.host.id); }
      } else {
        CovScan(c, s);
      }
    case Cancel =>
      var r := Next(c, s, a);
      if Dynamic(c, r) {
        forall v, x | InClaimed(c, r, v, x) ensures Covered(r, x) {
          assert InClaimed(c, s, v, x);
          assert Covered(s, x);
        }
      }
    case Dispatch(job) => if s.host.Ready? && ValidJob(c, job) { CovDispatch(c, s, job); }
  }

  /** A worker never changes the job, so a dispatch that is not dynamic stays so. */
  lemma StillStatic(c: Config, s: State, a: Action)
    requires WF(c, s) && !Dynamic(c, s) && (a.Work? || a.Throw?)
    ensures !Dynamic(c, Next(c, s, a))
  {}

  // ---- the theorem

  /** Every index of a tiled range lies in one of its shards. */
  lemma {:induction false} ShardOf(bounds: seq<int>, n: nat, x: int) returns (v: nat)
    requires n + 1 <= |bounds| && bounds[0] <= x < bounds[n]
    ensures v < n && bounds[v] <= x < bounds[v + 1]
  {
    if bounds[n - 1] <= x { v := n - 1; } else { v := ShardOf(bounds, n - 1, x); }
  }

  /**
   At least once, with no hypothesis on the schedule: when `wait_run` has returned -1 for a dynamic
   dispatch and every status word is OK, every index of the range has been processed.
   */
  lemma AtLeastOnce(c: Config, s: State, x: int)
    requires Ctl(c, s) && Cov(c, s) && s.host.Complete? && Dynamic(c, s) && AllOk(s)
    requires s.job.bounds[0] <= x < s.job.bounds[c.workers]
    ensures x in s.hist.visits
  {
    var v := ShardOf(s.job.bounds, c.workers, x);
    AllFinished(c, s, v);
    assert Drained(s.epoch, s.job.bounds[v + 1], s.cursors[v], s.workers[v]);
    assert InClaimed(c, s, v, x);
    if x !in s.hist.visits {
      AllFinished(c, s, s.hist.owner[x]);
    }
  }
}
