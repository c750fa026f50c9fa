/**
 The data words during a dispatch, with kernel loads and stores as separate interleaved steps:
 whatever the schedule, a processed index has its sequential output and every other word is
 untouched, if the kernel is race free over the range and the schedule has no hazard.
 */
module DispatchMemory {
  import opened Int32
  import opened Kernels
  import opened DispatchModel
  import opened DispatchControl
  import opened DispatchExclusive

  /** The kernel call a dispatch stands for, with the memory and range it is judged by. */
  datatype Task = Task(k: Kernel, argument: int, header: seq<int>, base: seq<int>, lo: int, hi: int)

  ghost function TaskOf(c: Config, s: State): Task
    requires Safe(c, s)
  {
    var k := KernelOf(c, s.job);
    Task(k, s.job.argument, Header(k, s.hist.base), s.hist.base, s.job.bounds[0], s.job.bounds[c.workers])
  }

  ghost predicate Regular(c: Config, s: State) {
    Safe(c, s) && JobRaceFree(c, s.job, s.hist.base) && |s.hist.base| == c.capacity
  }

  ghost predicate WordOk(t: Task, visits: multiset<int>, data: seq<int>, x: int)
    requires |data| == |t.base|
  {
    0 <= x < |data| ==>
      var i := x - t.k.shift(t.argument, t.header);
      data[x] == if t.k.writes && i in visits then Output(t.k, t.argument, t.header, t.base, i) else t.base[x]
  }

  /** What a worker has loaded so far is what the sequential call would have loaded. */
  ghost predicate LoadsOk(t: Task, wk: Worker) {
    match wk.pc
    case Enter(_, _, _, header) => |header| <= |t.header| && header == t.header[..|header|]
    case Loop(_, lo, _, i, header, buffer, acc) =>
      var sources := t.k.sources(t.argument, t.header, i);
      && header == t.header && |buffer| <= |sources| && buffer == Loaded(t.base, sources)[..|buffer|]
      && lo <= i && acc == Result(t.k, t.argument, t.header, t.base, lo, i)
    case _ => true
  }

  /** A worker with a static range has that range's sequential result when it publishes OK. */
  ghost predicate ResultOk(t: Task, g: Round, wk: Worker, w: nat)
    requires w + 1 < |g.job.bounds|
  {
    && (g.job.grain == 0 && wk.seen == g.epoch && wk.status == OK
          && (Idle(wk.pc) || wk.pc.PubElapsed? || wk.pc.PubResult? || wk.pc.PubStatus? || wk.pc.PubDone?)
        ==> wk.result == Result(t.k, t.argument, t.header, t.base, g.job.bounds[w], g.job.bounds[w + 1]))
    && (g.job.grain > 0 && wk.seen == g.epoch ==> ChunksOk(t, wk))
  }

  /** Outside the kernel a worker has the sequential result of a chunk, or 0 before its first one. */
  ghost predicate ChunksOk(t: Task, wk: Worker) {
    if wk.pc.ReadStop? || wk.pc.Read? then wk.chunks == 0
    else if InKernel(wk.pc) then wk.chunks > 0
    else (if wk.chunks == 0 then wk.result == 0 else ChunkResult(t, wk.result))
         || wk.pc.CrashLoad? || wk.pc.CrashStatus? || wk.pc.CrashDone? || wk.pc.CrashNotify? || wk.pc.Dead?
  }

  ghost predicate ChunkResult(t: Task, result: int) {
    exists lo, hi :: lo < hi && result == Result(t.k, t.argument, t.header, t.base, lo, hi)
  }

  ghost predicate Mem(c: Config, s: State) {
    Regular(c, s) ==>
      var t := TaskOf(c, s);
      && |s.data| == |t.base|
      && (forall x :: WordOk(t, s.hist.visits, s.data, x))
      && (forall w :: 0 <= w < c.workers ==> LoadsOk(t, s.workers[w]) && ResultOk(t, RoundOf(s), s.workers[w], w))
  }

  /** Processed indices lie in the range, and the index a worker holds is not processed. */
  ghost predicate Sorted(t: Task, visits: multiset<int>) {
    forall i :: i in visits ==> t.lo <= i < t.hi
  }

  ghost predicate TaskFree(t: Task) {
    RaceFree(t.k, t.argument, t.header, t.lo, t.hi) && |t.header| == t.k.header
  }

  /** A word that an unprocessed index reads still has its value from before the dispatch. */
  lemma SourceStill(t: Task, visits: multiset<int>, data: seq<int>, i: int, a: int)
    requires TaskFree(t) && Sorted(t, visits) && |data| == |t.base|
    requires t.lo <= i < t.hi && i !in visits && a in t.k.sources(t.argument, t.header, i)
    requires WordOk(t, visits, data, a)
    ensures Load(data, a) == Load(t.base, a)
  {}

  lemma HeaderStill(t: Task, visits: multiset<int>, data: seq<int>, a: int)
    requires TaskFree(t) && Sorted(t, visits) && |data| == |t.base|
    requires 0 <= a < t.k.header && WordOk(t, visits, data, a)
    ensures Load(data, a) == Load(t.base, a)
  {}

  /** The store of one index: its word becomes final, no other word moves. */
  lemma StoreWord(t: Task, visits: multiset<int>, data: seq<int>, i: int, x: int)
    requires |data| == |t.base| && WordOk(t, visits, data, x)
    ensures
      var stored := if t.k.writes
                    then Store(data, i + t.k.shift(t.argument, t.header), Output(t.k, t.argument, t.header, t.base, i))
                    else data;
      WordOk(t, visits + multiset{i}, stored, x)
  {}

  // ---- worker steps

  ghost predicate Quietly(c: Config, s: State, r: State, w: nat)
    requires WF(c, s) && WF(c, r)
  {
    && w < c.workers && !s.host.Ready? && r.host == s.host && r.epoch == s.epoch && r.job == s.job
    && RoundOf(r) == RoundOf(s)
    && r.data == s.data && r.hist.base == s.hist.base && r.hist.visits == s.hist.visits
    && (s.hist.hazard ==> r.hist.hazard) && r.workers == s.workers[w := r.workers[w]]
  }

  lemma QuietFrame(c: Config, s: State, r: State, w: nat)
    requires WF(c, s) && WF(c, r) && Mem(c, s) && Safe(c, r) && Quietly(c, s, r, w)
    requires Regular(c, r) ==>
      LoadsOk(TaskOf(c, r), r.workers[w]) && ResultOk(TaskOf(c, r), RoundOf(r), r.workers[w], w)
    ensures Mem(c, r)
  {
    if Regular(c, r) {
      assert Regular(c, s) && TaskOf(c, r) == TaskOf(c, s);
    }
  }

  /** What worker w's own invariants say before its step. */
  ghost predicate Ours(c: Config, s: State, t: Task, w: nat)
  {
    && Near(c, s, w) && Safe(c, s) && t == TaskOf(c, s)
    && LoadsOk(t, s.workers[w]) && ResultOk(t, RoundOf(s), s.workers[w], w)
  }

  ghost predicate QuietOk(c: Config, s: State, r: State, t: Task, w: nat)
    requires WF(c, s) && WF(c, r)
  {
    Quietly(c, s, r, w) && |s.job.bounds| == c.workers + 1 && LoadsOk(t, r.workers[w])
        && ResultOk(t, RoundOf(s), r.workers[w], w)
  }

  lemma WaitQuiet(c: Config, s: State, t: Task, w: nat)
    requires Ours(c, s, t, w)
    ensures QuietOk(c, s, WaitStep(c, s, w), t, w)
  {}

  lemma ReadQuiet(c: Config, s: State, t: Task, w: nat, k: nat)
    requires Ours(c, s, t, w) && s.workers[w].pc == Read(k)
    ensures QuietOk(c, s, ReadStep(c, s, w, k), t, w)
  {}

  lemma ScanQuiet(c: Config, s: State, t: Task, w: nat, offset: nat)
    requires Ours(c, s, t, w) && s.workers[w].pc == Scan(offset)
    ensures QuietOk(c, s, ScanStep(c, s, w, offset), t, w)
  {}

  lemma ClaimQuiet(c: Config, s: State, t: Task, w: nat)
    requires Ours(c, s, t, w)
    ensures QuietOk(c, s, ClaimStep(c, s, w), t, w)
  {}

  lemma PublishQuiet(c: Config, s: State, t: Task, w: nat, time: int)
    requires Ours(c, s, t, w)
    ensures QuietOk(c, s, PublishStep(c, s, w, time), t, w)
  {}

  lemma ThrowQuiet(c: Config, s: State, t: Task, w: nat)
    requires Ours(c, s, t, w)
    ensures QuietOk(c, s, ThrowStep(s, w), t, w)
  {}

  lemma EnterQuiet(c: Config, s: State, t: Task, w: nat)
    requires Ours(c, s, t, w) && s.workers[w].pc.Enter?
    requires |s.workers[w].pc.header| < t.k.header ==>
      Load(s.data, |s.workers[w].pc.header|) == Load(t.base, |s.workers[w].pc.header|)
    ensures QuietOk(c, s, RunKernel(c, s, w), t, w)
  {}

  lemma LoopQuiet(c: Config, s: State, t: Task, w: nat)
    requires Ours(c, s, t, w) && s.workers[w].pc.Loop? && !Processing(c, s, w)
    requires var sources := t.k.sources(t.argument, t.header, s.workers[w].pc.i);
      s.workers[w].pc.i < s.workers[w].pc.hi && |s.workers[w].pc.buffer| < |sources| ==>
        Load(s.data, sources[|s.workers[w].pc.buffer|]) == Load(t.base, sources[|s.workers[w].pc.buffer|])
    ensures QuietOk(c, s, RunKernel(c, s, w), t, w)
  {
    var pc := s.workers[w].pc;
    if pc.ret.Chunk? && pc.i >= pc.hi {
      assert pc.lo < pc.hi && pc.acc == Result(t.k, t.argument, t.header, t.base, pc.lo, pc.hi);
      assert ChunkResult(t, pc.acc);
    }
  }

  /** A load, an entry or a return of the kernel. */
  lemma LoadQuiet(c: Config, s: State, t: Task, w: nat)
    requires Ours(c, s, t, w) && TaskFree(t) && Sorted(t, s.hist.visits) && |s.data| == |t.base|
    requires (s.workers[w].pc.Enter? || s.workers[w].pc.Loop?) && !Processing(c, s, w)
    requires forall x :: WordOk(t, s.hist.visits, s.data, x)
    requires s.workers[w].pc.Loop? && s.workers[w].pc.i < s.workers[w].pc.hi ==>
      t.lo <= s.workers[w].pc.i < t.hi && s.workers[w].pc.i !in s.hist.visits
    ensures QuietOk(c, s, RunKernel(c, s, w), t, w)
  {
    if s.workers[w].pc.Enter? {
      var next := |s.workers[w].pc.header|;
      if next < t.k.header {
        assert WordOk(t, s.hist.visits, s.data, next);
        HeaderStill(t, s.hist.visits, s.data, next);
      }
      EnterQuiet(c, s, t, w);
    } else {
      var i, buffer := s.workers[w].pc.i, s.workers[w].pc.buffer;
      var sources := t.k.sources(t.argument, t.header, i);
      if i < s.workers[w].pc.hi && |buffer| < |sources| {
        var a := sources[|buffer|];
        assert a in sources && WordOk(t, s.hist.visits, s.data, a);
        SourceStill(t, s.hist.visits, s.data, i, a);
      }
      LoopQuiet(c, s, t, w);
    }
  }

  lemma WorkQuiet(c: Config, s: State, t: Task, w: nat, time: int)
    requires Ours(c, s, t, w) && !s.workers[w].pc.Enter? && !s.workers[w].pc.Loop?
    ensures QuietOk(c, s, WorkStep(c, s, w, time), t, w)
  {
    var pc := s.workers[w].pc;
    if Waiting(pc) { WaitQuiet(c, s, t, w); }
    else if pc.Read? { ReadQuiet(c, s, t, w, pc.k); }
    else if pc.Scan? { ScanQuiet(c, s, t, w, pc.offset); }
    else if Claiming(pc) { ClaimQuiet(c, s, t, w); }
    else { PublishQuiet(c, s, t, w, time); }
  }

  /** What a processing step stores, in terms of the memory before the dispatch. */
  lemma StoreStep(c: Config, s: State, t: Task, w: nat)
    requires Ours(c, s, t, w) && Processing(c, s, w)
    ensures
      var r, i := RunKernel(c, s, w), s.workers[w].pc.i;
      && r.hist == s.hist.(visits := s.hist.visits + multiset{i})
      && r.data == (if t.k.writes
                    then Store(s.data, i + t.k.shift(t.argument, t.header), Output(t.k, t.argument, t.header, t.base,
                        i))
                    else s.data)
      && r.workers == s.workers[w := r.workers[w]] && r.host == s.host && r.epoch == s.epoch && r.job == s.job
      && LoadsOk(t, r.workers[w]) && ResultOk(t, RoundOf(s), r.workers[w], w)
  {
    var pc := s.workers[w].pc;
    var sources := t.k.sources(t.argument, t.header, pc.i);
    assert pc.buffer == Loaded(t.base, sources);
  }

  lemma StoreMem(c: Config, s: State, w: nat)
    requires Near(c, s, w) && Mem(c, s) && Safe(c, s) && Processing(c, s, w)
    ensures Mem(c, RunKernel(c, s, w))
  {
    var r := RunKernel(c, s, w);
    if Regular(c, s) {
      var t := TaskOf(c, s);
      StoreStep(c, s, t, w);
      assert TaskOf(c, r) == t;
      forall x ensures WordOk(t, r.hist.visits, r.data, x) {
        StoreWord(t, s.hist.visits, s.data, s.workers[w].pc.i, x);
      }
    } else {
      StoreKeepsJob(c, s, w);
    }
  }

  lemma StoreKeepsJob(c: Config, s: State, w: nat)
    requires Near(c, s, w)
    ensures var r := RunKernel(c, s, w); r.job == s.job && r.hist.base == s.hist.base
    ensures var r := RunKernel(c, s, w); r.host == s.host && r.hist.hazard == s.hist.hazard
  {}

  /** The claims of Excl, as far as the memory argument uses them. */
  lemma SortedVisits(c: Config, s: State)
    requires Safe(c, s) && Excl(c, s) && Regular(c, s)
    ensures Sorted(TaskOf(c, s), s.hist.visits) && TaskFree(TaskOf(c, s))
  {
    forall i | i in s.hist.visits ensures s.job.bounds[0] <= i < s.job.bounds[c.workers] {
      assert IndexOk(c, s, i);
    }
  }

  lemma HeldIndex(c: Config, s: State, w: nat)
    requires Safe(c, s) && Excl(c, s) && w < c.workers && s.workers[w].pc.Loop?
    requires s.workers[w].pc.i < s.workers[w].pc.hi
    ensures s.job.bounds[0] <= s.workers[w].pc.i < s.job.bounds[c.workers]
    ensures s.workers[w].pc.i !in s.hist.visits
  {
    assert HoldOk(c, s, w, s.workers[w].pc.i);
    assert IndexOk(c, s, s.workers[w].pc.i);
  }

  lemma WorkMem(c: Config, s: State, w: nat, time: int)
    requires Near(c, s, w) && Mem(c, s) && Excl(c, s) && Safe(c, s) && Regular(c, s)
    requires Safe(c, WorkStep(c, s, w, time))
    ensures Mem(c, WorkStep(c, s, w, time))
  {
    var r, t := WorkStep(c, s, w, time), TaskOf(c, s);
    SortedVisits(c, s);
    if Processing(c, s, w) {
      StoreMem(c, s, w);
    } else {
      if s.workers[w].pc.Enter? || s.workers[w].pc.Loop? {
        if s.workers[w].pc.Loop? && s.workers[w].pc.i < s.workers[w].pc.hi { HeldIndex(c, s, w); }
        LoadQuiet(c, s, t, w);
      } else {
        WorkQuiet(c, s, t, w, time);
      }
      QuietFrame(c, s, r, w);
    }
  }

  // ---- host steps and the whole

  lemma HostMem(c: Config, s: State, r: State)
    requires WF(c, s) && WF(c, r) && Mem(c, s) && Safe(c, s) && Safe(c, r)
    requires r.job == s.job && r.epoch == s.epoch && r.data == s.data && RoundOf(r) == RoundOf(s)
    requires r.hist.base == s.hist.base && r.hist.visits == s.hist.visits
    requires forall u :: 0 <= u < c.workers ==>
      r.workers[u] == s.workers[u] || (s.workers[u].pc.Asleep? && r.workers[u] == s.workers[u].(pc := Check))
    ensures Mem(c, r)
  {
    if Regular(c, r) {
      assert Regular(c, s) && TaskOf(c, r) == TaskOf(c, s);
    }
  }

  lemma DispatchMem(c: Config, s: State, job: Job)
    requires Ctl(c, s) && s.host.Ready? && ValidJob(c, job)
    ensures Mem(c, StartJob(c, s, job))
  {
    forall w | 0 <= w < c.workers ensures Idle(s.workers[w].pc) && s.workers[w].seen == s.epoch {
      Nearby(c, s, w);
    }
  }

  /** Neither the host nor a cancellation touches data words or what workers have loaded. */
  lemma HostMoves(c: Config, s: State, a: Action)
    requires WF(c, s) && Mem(c, s) && Safe(c, s) && Safe(c, Next(c, s, a)) && (a.HostStep? || a.Cancel?)
    ensures Mem(c, Next(c, s, a))
  {
    HostMem(c, s, Next(c, s, a));
  }

  lemma RegularBefore(c: Config, s: State, a: Action)
    requires WF(c, s) && Safe(c, s) && Regular(c, Next(c, s, a)) && !a.Dispatch?
    ensures Regular(c, s)
  {}

  lemma MemNext(c: Config, s: State, a: Action)
    requires Ctl(c, s) && Excl(c, s) && Mem(c, s)
    ensures Mem(c, Next(c, s, a))
  {
    var r := Next(c, s, a);
    if Regular(c, r) {
      match a
      case Dispatch(job) =>
        if s.host.Ready? && ValidJob(c, job) { DispatchMem(c, s, job); }
      case Work(w, time) =>
        SafeBefore(c, s, a);
        RegularBefore(c, s, a);
        if w < c.workers {
          Nearby(c, s, w);
          WorkMem(c, s, w, time);
        }
      case Throw(w) =>
        SafeBefore(c, s, a);
        RegularBefore(c, s, a);
        if w < c.workers {
          Nearby(c, s, w);
          ThrowQuiet(c, s, TaskOf(c, s), w);
          QuietFrame(c, s, r, w);
        }
      case _ =>
        SafeBefore(c, s, a);
        HostMoves(c, s, a);
    }
  }
}
