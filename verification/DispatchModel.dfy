/**
 The dispatch protocol as a step system: one host, any number of workers and the shared words.

 Every `Atomics` call and every kernel load or store is one step; any agent may take the next
 step. Control words are sequentially consistent (section 25.4 of ECMA-262). A schedule is a
 sequence of actions; an action that is not enabled leaves the state alone, so that a theorem
 over all schedules is a theorem over all interleavings.
 */
module DispatchModel {
  import opened Int32
  import opened Kernels

  const OK := 0
  const UNKNOWN := -1
  const LAYOUT_MISMATCH := -2
  const RUNTIME_FAILED := -3
  const CANCELLED := -4

  /** What the worker's entry table answers for a kernel id and layout hash. */
  datatype Lookup = Found(kernel: Kernel) | Missing(status: int)

  /**
   The control words a launch finds and leaves: zeroes for a new allocation, the words of the last
   dispatch after a restart. Module Handshake shows when a launch ends in such a state.
   */
  datatype Boot = Boot(epoch: int, cancelSeq: int, workerCount: int, slots: seq<Slot>, cursors: seq<int>)

  datatype Config = Config(workers: nat, capacity: nat, lookup: (int, int) -> Lookup, boot: Boot)

  /** One dispatch. Shard v is [bounds[v], bounds[v + 1]); grain 0 selects static ranges. */
  datatype Job = Job(bounds: seq<int>, argument: int, kernelId: int, layoutHash: int, grain: int)

  ghost predicate ValidConfig(c: Config) {
    && 1 <= c.workers
    && c.capacity <= MAX
    && ValidBoot(c)
    && forall id, hash :: c.lookup(id, hash).Missing? ==>
         c.lookup(id, hash).status == UNKNOWN || c.lookup(id, hash).status == LAYOUT_MISMATCH
  }

  /** Every slot carries the pool's epoch and no end or cursor is outside the data. */
  predicate ValidBoot(c: Config) {
    && 0 <= c.boot.epoch <= MAX && 0 <= c.boot.cancelSeq <= MAX && |c.boot.slots| == |c.boot.cursors| == c.workers
    && forall v :: 0 <= v < c.workers ==>
         c.boot.slots[v].epoch == c.boot.epoch && c.boot.slots[v].end <= c.capacity
         && 0 <= c.boot.cursors[v] <= c.capacity
  }

  /** The words of a new shared allocation. */
  function NewBoot(workers: nat): Boot {
    Boot(0, 0, 0, seq(workers, _ => Slot(0, 0, 0, 0, 0, 0, 0, 0, 0)), seq(workers, _ => 0))
  }

  /** What `Pool::start_run` checks, given bounds that `partition_weighted` produced. */
  ghost predicate ValidJob(c: Config, job: Job) {
    && |job.bounds| == c.workers + 1
    && 0 <= job.bounds[0]
    && job.bounds[c.workers] <= c.capacity
    && (forall u, v :: 0 <= u <= v <= c.workers ==> job.bounds[u] <= job.bounds[v])
    && 0 <= job.grain <= MAX
  }

  // The control words of one slot, split by who writes them during a dispatch.
  datatype Slot = Slot(epoch: int, start: int, end: int, argument: int, kernelId: int, layoutHash: int,
                       grain: int, baseline: int, stop: int)
  datatype Out = Out(done: int, status: int, result: int, elapsed: int)
  datatype Regs = Regs(start: int, end: int, argument: int, kernelId: int, layoutHash: int, grain: int,
                       workers: int, baseline: int)

  /** Where a kernel call returns to. */
  datatype Return = Static | Chunk(offset: nat, limit: int)

  datatype Pc =
    | Check | Park | Asleep | Reload | ReadStop | Read(k: nat)
    | Scan(offset: nat) | Probe(offset: nat, limit: int) | LoadCursor(offset: nat, limit: int)
    | Cas(offset: nat, limit: int, current: int, stamp: nat)
    | Enter(ret: Return, lo: int, hi: int, header: seq<int>)
    | Loop(ret: Return, lo: int, hi: int, i: int, header: seq<int>, buffer: seq<int>, acc: int)
    | Recheck(offset: nat, limit: int)
    | PubElapsed | PubResult | PubStatus | PubDone | PubNotify
    | CrashLoad(lo: int, hi: int) | CrashStatus(lo: int, hi: int, epoch: int)
    | CrashDone(lo: int, hi: int, epoch: int) | CrashNotify(lo: int, hi: int) | Dead(lo: int, hi: int)
    | Exited

  // trips, chunks and late are history: epochs picked up so far, chunks claimed in this epoch, and
  // those of them claimed after a cancellation request.
  datatype Worker = Worker(pc: Pc, seen: int, regs: Regs, status: int, result: int, trips: nat, chunks: nat, late: nat)

  /** ScanDone(workers, false) is `wait_run` about to return -1; Complete is after it has. */
  datatype Host =
    | Ready | Count | Write(id: nat, k: nat)
    | ScanDone(id: nat, pending: bool) | ScanStatus(id: nat, pending: bool)
    | Complete | Failed(id: nat)

  /**
   History the program does not keep. previous: epoch before this dispatch. baseline: cancel
   sequence when it began. base: data when it began. owner: who claimed an index. visits: indices
   a kernel has processed. front: how far each shard was claimed. quiet: see Quiet. early: some
   foreign slot was touched before its publication; hazard: and that slot was not quiet.
   jobs, reports: the finished dispatches and what each of them reported.
   */
  datatype History = History(
    previous: int, baseline: int, base: seq<int>, owner: map<int, nat>, visits: multiset<int>,
    front: seq<int>, claims: seq<nat>, quiet: seq<bool>, early: bool, hazard: bool, requests: nat,
    dispatches: nat, initial: seq<int>, jobs: seq<Job>, reports: seq<Report>)

  /** ok: every status word was OK; harmless: see Harmless. */
  datatype Report = Report(ok: bool, harmless: bool)

  datatype State = State(
    host: Host, epoch: int, job: Job, slots: seq<Slot>, cursors: seq<int>, outs: seq<Out>,
    cancelSeq: int, workerCount: int, data: seq<int>, workers: seq<Worker>, hist: History)

  datatype Action = Work(w: nat, time: int) | Throw(w: nat) | HostStep | Cancel | Dispatch(job: Job)

  ghost predicate WF(c: Config, s: State) {
    && |s.slots| == |s.cursors| == |s.outs| == |s.workers| == c.workers
    && |s.hist.front| == |s.hist.claims| == |s.hist.quiet| == c.workers
    && |s.data| == c.capacity
    && (!s.host.Ready? ==> |s.job.bounds| == c.workers + 1)
  }

  function NextEpoch(e: int): int {
    if e == MAX then 1 else e + 1
  }

  /** A pool whose launch has just passed the ready handshake: each done word is -1. */
  ghost function Init(c: Config, data: seq<int>): (s: State)
    requires ValidConfig(c) && |data| == c.capacity
    ensures WF(c, s)
  {
    var up := Worker(PubNotify, c.boot.epoch, Regs(0, 0, 0, 0, 0, 0, 0, 0), OK, 0, 0, 0, 0);
    State(Ready, c.boot.epoch, Job([], 0, 0, 0, 0), c.boot.slots, c.boot.cursors,
          seq(c.workers, _ => Out(-1, 0, 0, 0)), c.boot.cancelSeq, c.boot.workerCount, data, seq(c.workers, _ => up),
          History(0, 0, data, map[], multiset{}, seq(c.workers, _ => 0), seq(c.workers, _ => 0),
                  seq(c.workers, _ => false), false, false, 0, 0, data, [], []))
  }

  // ---- what a state means

  /** The host has stored this dispatch's epoch into slot v. */
  predicate Published(host: Host, v: nat) {
    match host
    case Count => false
    case Write(id, k) => v < id || (v == id && 12 < k)
    case _ => true
  }

  /** The host has stored this dispatch's word number k of slot v. */
  predicate Stored(host: Host, v: nat, k: nat) {
    match host
    case Count => false
    case Write(id, j) => v < id || (v == id && k < j)
    case _ => true
  }

  const END_WORD: nat := 1
  const CURSOR_WORD: nat := 8

  /**
   Slot v can be touched early without harm: neither its old nor its new end exceeds the end of
   its new shard, and its old cursor leaves nothing to claim below it.
   */
  predicate Quiet(job: Job, slot: Slot, cursor: int, v: nat)
    requires v + 1 < |job.bounds|
  {
    slot.end <= job.bounds[v + 1] <= cursor
  }

  function Victim(w: nat, offset: nat, count: int): nat {
    if count <= 0 then 0 else (w + offset) % count
  }

  predicate Waiting(pc: Pc) {
    pc.Check? || pc.Park? || pc.Asleep? || pc.Reload? || pc.ReadStop?
  }

  predicate Claiming(pc: Pc) {
    pc.Probe? || pc.LoadCursor? || pc.Cas? || pc.Recheck?
  }

  predicate InKernel(pc: Pc) {
    pc.Enter? || pc.Loop?
  }

  /** Index x is in the part of a chunk or range that the worker holds and has not processed. */
  predicate Pends(pc: Pc, x: int) {
    match pc
    case Enter(_, lo, hi, _) => lo <= x < hi
    case Loop(_, _, hi, i, _, _, _) => i <= x < hi
    case CrashLoad(lo, hi) => lo <= x < hi
    case CrashStatus(lo, hi, _) => lo <= x < hi
    case CrashDone(lo, hi, _) => lo <= x < hi
    case CrashNotify(lo, hi) => lo <= x < hi
    case Dead(lo, hi) => lo <= x < hi
    case _ => false
  }

  function Own(owner: map<int, nat>, lo: int, hi: int, w: nat): (r: map<int, nat>)
    ensures forall x :: x in r <==> x in owner || lo <= x < hi
    ensures forall x :: x in r ==> r[x] == if lo <= x < hi then w else owner[x]
    decreases hi - lo
  {
    if lo >= hi then owner else Own(owner[lo := w], lo + 1, hi, w)
  }

  // ---- worker steps (run_dispatch_worker)

  /** What no worker step touches: the host, the descriptors, and the record of the dispatch. */
  ghost predicate Kept(s: State, r: State) {
    && r.host == s.host && r.epoch == s.epoch && r.job == s.job && r.slots == s.slots
    && r.cancelSeq == s.cancelSeq && r.workerCount == s.workerCount
    && r.hist.previous == s.hist.previous && r.hist.baseline == s.hist.baseline && r.hist.base == s.hist.base
    && r.hist.quiet == s.hist.quiet && r.hist.requests == s.hist.requests
    && r.hist.dispatches == s.hist.dispatches && r.hist.initial == s.hist.initial
    && r.hist.jobs == s.hist.jobs && r.hist.reports == s.hist.reports
    && (s.hist.early ==> r.hist.early) && (s.hist.hazard ==> r.hist.hazard)
  }

  ghost function SetWorker(s: State, w: nat, wk: Worker): State
    requires w < |s.workers|
  {
    s.(workers := s.workers[w := wk])
  }

  ghost function ReadWord(s: State, w: nat, regs: Regs, k: nat): Regs
    requires w < |s.slots|
  {
    var slot := s.slots[w];
    if k == 0 then regs.(start := slot.start)
    else if k == 1 then regs.(end := slot.end)
    else if k == 2 then regs.(argument := slot.argument)
    else if k == 3 then regs.(kernelId := slot.kernelId)
    else if k == 4 then regs.(layoutHash := slot.layoutHash)
    else if k == 5 then regs.(grain := slot.grain)
    else if k == 6 then regs.(workers := s.workerCount)
    else regs.(baseline := slot.baseline)
  }

  /** `dispatch(values, lo, hi, ...)`: look the kernel up and enter it, or report why not. */
  ghost function Call(c: Config, s: State, w: nat, wk: Worker, ret: Return, v: nat, lo: int, hi: int): (r: State)
    requires WF(c, s) && w < c.workers
    ensures WF(c, r) && Kept(s, r)
  {
    match c.lookup(wk.regs.kernelId, wk.regs.layoutHash)
    case Found(_) =>
      var claimed := s.hist.(owner := Own(s.hist.owner, lo, hi, w),
                             front := if v < c.workers then s.hist.front[v := hi] else s.hist.front);
      SetWorker(s.(hist := claimed), w, wk.(pc := Enter(ret, lo, hi, [])))
    case Missing(status) =>
      SetWorker(s, w, wk.(status := status, result := 0,
                          pc := if ret.Static? then PubElapsed else Scan(ret.offset + 1)))
  }

  ghost function WaitStep(c: Config, s: State, w: nat): (r: State)
    requires WF(c, s) && w < c.workers
    ensures WF(c, r) && Kept(s, r)
  {
    var wk, slot := s.workers[w], s.slots[w];
    match wk.pc
    case Check => SetWorker(s, w, wk.(pc := if slot.epoch == wk.seen then Park else Reload))
    case Park => SetWorker(s, w, wk.(pc := if slot.epoch == wk.seen then Asleep else Check))
    case Reload => SetWorker(s, w, wk.(pc := ReadStop, seen := slot.epoch, trips := wk.trips + 1, chunks := 0,
        late := 0))
    case ReadStop => SetWorker(s, w, wk.(pc := if slot.stop != 0 then Exited else Read(0)))
    case _ => s
  }

  ghost function ReadStep(c: Config, s: State, w: nat, k: nat): (r: State)
    requires WF(c, s) && w < c.workers
    ensures WF(c, r) && Kept(s, r)
  {
    var wk := s.workers[w].(regs := ReadWord(s, w, s.workers[w].regs, k));
    if k < 7 then SetWorker(s, w, wk.(pc := Read(k + 1)))
    else if wk.regs.grain > 0 then SetWorker(s, w, wk.(pc := Scan(0), status := OK, result := 0))
    else Call(c, s, w, wk, Static, w, wk.regs.start, wk.regs.end)
  }

  /** The loop over victims: load the victim's end, or leave when all were visited. */
  ghost function ScanStep(c: Config, s: State, w: nat, offset: nat): (r: State)
    requires WF(c, s) && w < c.workers
    ensures WF(c, r) && Kept(s, r)
  {
    var wk := s.workers[w];
    if offset >= wk.regs.workers then SetWorker(s, w, wk.(pc := PubElapsed))
    else
      var v := Victim(w, offset, wk.regs.workers);
      if v >= c.workers then s
      else
        var foreign := v != w && !Published(s.host, v);
        var touched := s.hist.(early := s.hist.early || foreign,
                               hazard := s.hist.hazard || (foreign && !s.hist.quiet[v]));
        SetWorker(s.(hist := touched), w,
                  wk.(pc := if wk.status == OK then Probe(offset, s.slots[v].end) else Scan(offset + 1)))
  }

  /** The compare-exchange of `atomic_claim_chunk`, and the call on the chunk it claimed. */
  ghost function CasStep(c: Config, s: State, w: nat, offset: nat, limit: int, current: int): (r: State)
    requires WF(c, s) && w < c.workers
    ensures WF(c, r) && Kept(s, r)
  {
    var wk := s.workers[w];
    var v := Victim(w, offset, wk.regs.workers);
    if v >= c.workers then s
    else if s.cursors[v] != current then SetWorker(s, w, wk.(pc := LoadCursor(offset, limit)))
    else
      var next := if current + wk.regs.grain < limit then current + wk.regs.grain else limit;
      var late := if s.hist.requests > 0 then wk.late + 1 else wk.late;
      var moved := s.(cursors := s.cursors[v := next],
                      hist := s.hist.(claims := s.hist.claims[v := s.hist.claims[v] + 1]));
      Call(c, moved, w, wk.(chunks := wk.chunks + 1, late := late), Chunk(offset, limit), v, current, next)
  }

  /** The inner loop: cancellation check, then `atomic_claim_chunk`. */
  ghost function ClaimStep(c: Config, s: State, w: nat): (r: State)
    requires WF(c, s) && w < c.workers
    ensures WF(c, r) && Kept(s, r)
  {
    var wk := s.workers[w];
    match wk.pc
    case Probe(offset, limit) =>
      if s.cancelSeq != wk.regs.baseline then SetWorker(s, w, wk.(status := CANCELLED, pc := Scan(offset + 1)))
      else SetWorker(s, w, wk.(pc := LoadCursor(offset, limit)))
    case LoadCursor(offset, limit) =>
      var v := Victim(w, offset, wk.regs.workers);
      if v >= c.workers then s
      else if s.cursors[v] >= limit then SetWorker(s, w, wk.(pc := Scan(offset + 1)))
      else SetWorker(s, w, wk.(pc := Cas(offset, limit, s.cursors[v], s.hist.claims[v])))
    case Cas(offset, limit, current, _) => CasStep(c, s, w, offset, limit, current)
    case Recheck(offset, limit) =>
      if s.cancelSeq != wk.regs.baseline then SetWorker(s, w, wk.(status := CANCELLED, pc := Scan(offset + 1)))
      else SetWorker(s, w, wk.(pc := Probe(offset, limit)))
    case _ => s
  }

  /** One load or store of the running kernel, or its return. */
  ghost function KernelStep(c: Config, s: State, w: nat, k: Kernel): (r: State)
    requires WF(c, s) && w < c.workers
    ensures WF(c, r) && Kept(s, r)
  {
    var wk := s.workers[w];
    match wk.pc
    case Enter(ret, lo, hi, header) =>
      if |header| < k.header then
        SetWorker(s, w, wk.(pc := Enter(ret, lo, hi, header + [Load(s.data, |header|)])))
      else SetWorker(s, w, wk.(pc := Loop(ret, lo, hi, lo, header, [], 0)))
    case Loop(ret, lo, hi, i, header, buffer, acc) =>
      var argument := wk.regs.argument;
      var sources := k.sources(argument, header, i);
      if i >= hi then
        SetWorker(s, w, wk.(status := OK, result := acc,
                            pc := if ret.Static? then PubElapsed else Recheck(ret.offset, ret.limit)))
      else if |buffer| < |sources| then
        SetWorker(s, w, wk.(pc := Loop(ret, lo, hi, i, header, buffer + [Load(s.data, sources[|buffer|])], acc)))
      else
        var stored := if k.writes
                      then Store(s.data, i + k.shift(argument, header), k.value(argument, header, i, buffer))
                      else s.data;
        SetWorker(s.(data := stored, hist := s.hist.(visits := s.hist.visits + multiset{i})), w,
                  wk.(pc := Loop(ret, lo, hi, i + 1, header, [], k.fold(acc, buffer))))
    case _ => s
  }

  /** The stores that publish an outcome, in program order, for normal and failed workers. */
  ghost function PublishStep(c: Config, s: State, w: nat, time: int): (r: State)
    requires WF(c, s) && w < c.workers
    ensures WF(c, r) && Kept(s, r)
  {
    var wk, out := s.workers[w], s.outs[w];
    match wk.pc
    case PubElapsed =>
      SetWorker(s.(outs := s.outs[w := out.(elapsed := if time < 1 then 1 else time)]), w, wk.(pc := PubResult))
    case PubResult => SetWorker(s.(outs := s.outs[w := out.(result := wk.result)]), w, wk.(pc := PubStatus))
    case PubStatus => SetWorker(s.(outs := s.outs[w := out.(status := wk.status)]), w, wk.(pc := PubDone))
    case PubDone => SetWorker(s.(outs := s.outs[w := out.(done := wk.seen)]), w, wk.(pc := PubNotify))
    case PubNotify => SetWorker(s, w, wk.(pc := Check))
    case CrashLoad(lo, hi) => SetWorker(s, w, wk.(pc := CrashStatus(lo, hi, s.slots[w].epoch)))
    case CrashStatus(lo, hi, e) =>
      SetWorker(s.(outs := s.outs[w := out.(status := RUNTIME_FAILED)]), w, wk.(pc := CrashDone(lo, hi, e)))
    case CrashDone(lo, hi, e) =>
      SetWorker(s.(outs := s.outs[w := out.(done := e)]), w, wk.(pc := CrashNotify(lo, hi)))
    case CrashNotify(lo, hi) => SetWorker(s, w, wk.(pc := Dead(lo, hi)))
    case _ => s
  }

  ghost function WorkStep(c: Config, s: State, w: nat, time: int): (r: State)
    requires WF(c, s) && w < c.workers
    ensures WF(c, r) && Kept(s, r)
  {
    var pc := s.workers[w].pc;
    if Waiting(pc) then WaitStep(c, s, w)
    else if pc.Read? then ReadStep(c, s, w, pc.k)
    else if pc.Scan? then ScanStep(c, s, w, pc.offset)
    else if Claiming(pc) then ClaimStep(c, s, w)
    else if InKernel(pc) then RunKernel(c, s, w)
    else PublishStep(c, s, w, time)
  }

  ghost function RunKernel(c: Config, s: State, w: nat): (r: State)
    requires WF(c, s) && w < c.workers
    ensures WF(c, r) && Kept(s, r)
  {
    var regs := s.workers[w].regs;
    match c.lookup(regs.kernelId, regs.layoutHash)
    case Found(k) => KernelStep(c, s, w, k)
    case Missing(_) => s
  }

  /** An uncaught exception in the kernel: control passes to the handler of start.mbt. */
  ghost function ThrowStep(s: State, w: nat): (r: State)
    requires w < |s.workers|
    ensures Kept(s, r) && |r.workers| == |s.workers|
  {
    var wk := s.workers[w];
    match wk.pc
    case Enter(_, lo, hi, _) => SetWorker(s, w, wk.(pc := CrashLoad(lo, hi)))
    case Loop(_, _, hi, i, _, _, _) => SetWorker(s, w, wk.(pc := CrashLoad(i, hi)))
    case _ => s
  }

  // ---- host steps (start_run, wait_run, cancel_active, finish_run)

  ghost function WriteWord(s: State, id: nat, k: nat): State
    requires id < |s.slots| == |s.outs| == |s.cursors| && id + 1 < |s.job.bounds|
  {
    var slot, out := s.slots[id], s.outs[id];
    if k == 0 then s.(slots := s.slots[id := slot.(start := s.job.bounds[id])])
    else if k == 1 then s.(slots := s.slots[id := slot.(end := s.job.bounds[id + 1])])
    else if k == 2 then s.(slots := s.slots[id := slot.(argument := s.job.argument)])
    else if k == 3 then s.(slots := s.slots[id := slot.(kernelId := s.job.kernelId)])
    else if k == 4 then s.(slots := s.slots[id := slot.(layoutHash := s.job.layoutHash)])
    else if k == 5 then s.(outs := s.outs[id := out.(status := OK)])
    else if k == 6 then s.(outs := s.outs[id := out.(result := 0)])
    else if k == 7 then s.(outs := s.outs[id := out.(elapsed := 0)])
    else if k == 8 then s.(cursors := s.cursors[id := s.job.bounds[id]])
    else if k == 9 then s.(slots := s.slots[id := slot.(grain := s.job.grain)])
    else if k == 10 then s.(slots := s.slots[id := slot.(baseline := s.cancelSeq)])
    else if k == 11 then s.(slots := s.slots[id := slot.(stop := 0)])
    else s.(slots := s.slots[id := slot.(epoch := s.epoch)])
  }

  ghost function NotifyWorker(s: State, id: nat): State
    requires id < |s.workers|
  {
    if s.workers[id].pc.Asleep? then SetWorker(s, id, s.workers[id].(pc := Check)) else s
  }

  ghost predicate AllOk(s: State) {
    forall w :: 0 <= w < |s.outs| ==> s.outs[w].status == OK
  }

  ghost predicate Resolves(c: Config, job: Job) {
    c.lookup(job.kernelId, job.layoutHash).Found?
  }

  ghost function KernelOf(c: Config, job: Job): Kernel
    requires Resolves(c, job)
  {
    c.lookup(job.kernelId, job.layoutHash).kernel
  }

  /** The sequential meaning of a dispatch: one call over the whole range. */
  ghost function RunJob(c: Config, job: Job, data: seq<int>): (r: seq<int>)
    requires Resolves(c, job) && |job.bounds| > 0
    ensures |r| == |data|
  {
    var k := KernelOf(c, job);
    Run(k, job.argument, Header(k, data), data, job.bounds[0], job.bounds[|job.bounds| - 1])
  }

  ghost predicate JobRaceFree(c: Config, job: Job, data: seq<int>)
    requires Resolves(c, job) && |job.bounds| > 0
  {
    var k := KernelOf(c, job);
    RaceFree(k, job.argument, Header(k, data), job.bounds[0], job.bounds[|job.bounds| - 1])
  }

  /** Slot 0 is published first, so only the other slots can be touched early. */
  ghost predicate AllQuiet(s: State) {
    forall v :: 1 <= v < |s.hist.quiet| ==> s.hist.quiet[v]
  }

  /** A static dispatch, one that began with quiet slots, or one in which nobody met a slot that was not. */
  ghost predicate Harmless(s: State) {
    s.job.grain == 0 || AllQuiet(s) || !s.hist.hazard
  }

  ghost function HostMove(c: Config, s: State): (r: State)
    requires WF(c, s)
    ensures WF(c, r)
  {
    match s.host
    case Count => s.(workerCount := c.workers, host := Write(0, 0))
    case Write(id, k) =>
      if id >= c.workers || id + 1 >= |s.job.bounds| then s
      else if k < 13 then WriteWord(s, id, k).(host := Write(id, k + 1))
      else NotifyWorker(s, id).(host := if id + 1 < c.workers then Write(id + 1, 0) else ScanDone(0, false))
    case ScanDone(id, pending) =>
      if id >= c.workers then s.(host := if pending then ScanDone(0, false) else Complete)
      else if s.outs[id].done == s.epoch then s.(host := ScanStatus(id, pending))
      else s.(host := ScanDone(id + 1, true))
    case ScanStatus(id, pending) =>
      if id < c.workers && s.outs[id].status == RUNTIME_FAILED then s.(host := Failed(id))
      else s.(host := ScanDone(id + 1, pending))
    case Complete =>
      s.(host := Ready,
         hist := s.hist.(jobs := s.hist.jobs + [s.job], reports := s.hist.reports + [Report(AllOk(s), Harmless(s))]))
    case _ => s
  }

  ghost function StartJob(c: Config, s: State, job: Job): (r: State)
    requires WF(c, s) && ValidJob(c, job)
    ensures WF(c, r)
  {
    s.(host := Count, epoch := NextEpoch(s.epoch), job := job,
       hist := s.hist.(
         previous := s.epoch, baseline := s.cancelSeq, base := s.data, owner := map[], visits := multiset{},
         front := job.bounds[..c.workers], claims := seq(c.workers, _ => 0),
         quiet := seq(c.workers, v requires 0 <= v < c.workers => Quiet(job, s.slots[v], s.cursors[v], v)),
         early := false, hazard := false, requests := 0, dispatches := s.hist.dispatches + 1))
  }

  ghost function Next(c: Config, s: State, a: Action): (r: State)
    requires WF(c, s)
    ensures WF(c, r)
  {
    match a
    case Work(w, time) => if w < c.workers then WorkStep(c, s, w, time) else s
    case Throw(w) => if w < c.workers then ThrowStep(s, w) else s
    case HostStep => HostMove(c, s)
    case Cancel =>
      if s.host.ScanDone? || s.host.ScanStatus? || s.host.Complete?
      then s.(cancelSeq := NextEpoch(s.cancelSeq), hist := s.hist.(requests := s.hist.requests + 1)) else s
    case Dispatch(job) => if s.host.Ready? && ValidJob(c, job) then StartJob(c, s, job) else s
  }

  /** The state a schedule leads to. */
  ghost function After(c: Config, data: seq<int>, schedule: seq<Action>): (s: State)
    requires ValidConfig(c) && |data| == c.capacity
    ensures WF(c, s)
  {
    if schedule == [] then Init(c, data)
    else Next(c, After(c, data, schedule[..|schedule| - 1]), schedule[|schedule| - 1])
  }
}
