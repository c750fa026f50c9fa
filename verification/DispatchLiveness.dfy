/**
 Every dispatch ends: from the moment all slots are published each worker has only finitely many
 steps to take until it reports, whatever the others do, so that under any schedule that goes on
 stepping every agent `wait_run` returns.
 */
module DispatchLiveness {
  import opened Arithmetic
  import opened Int32
  import opened Kernels
  import opened DispatchModel
  import opened DispatchControl
  import DispatchRuns

  /** Compared from left to right. */
  datatype Rank = Rank(stage: nat, turns: nat, left: nat, place: nat, todo: nat, loads: nat)

  predicate Lower(a: Rank, b: Rank) {
    if a.stage != b.stage then a.stage < b.stage
    else if a.turns != b.turns then a.turns < b.turns
    else if a.left != b.left then a.left < b.left
    else if a.place != b.place then a.place < b.place
    else if a.todo != b.todo then a.todo < b.todo
    else a.loads < b.loads
  }

  predicate AtMost(a: Rank, b: Rank) {
    a == b || Lower(a, b)
  }

  function Positive(x: int): nat {
    if x < 0 then 0 else x
  }

  /** What is left to claim below a limit. */
  function Left(cursors: seq<int>, w: nat, offset: nat, limit: int, count: nat): nat {
    var v := Victim(w, offset, count);
    if v < |cursors| then Positive(limit - cursors[v]) else 0
  }

  /** A compare-exchange whose expected value is too high fails without anybody having claimed. */
  predicate TooHigh(cursors: seq<int>, w: nat, offset: nat, current: int, count: nat) {
    var v := Victim(w, offset, count);
    v < |cursors| && cursors[v] < current
  }

  function Turns(count: nat, offset: nat): nat {
    2 * Positive(count - offset)
  }

  /** The words a kernel has yet to load for one index. */
  ghost function Loads(c: Config, job: Job, argument: int, header: seq<int>, i: int, buffer: seq<int>): nat {
    if Resolves(c, job) then Positive(|KernelOf(c, job).sources(argument, header, i)| - |buffer|) else 0
  }

  ghost function Headers(c: Config, job: Job, header: seq<int>): nat {
    if Resolves(c, job) then Positive(KernelOf(c, job).header - |header|) else 0
  }

  ghost function CallRank(ret: Return, cursors: seq<int>, w: nat, count: nat, todo: nat, loads: nat): Rank {
    match ret
    case Static => Rank(2, 0, 0, 7, todo, loads)
    case Chunk(offset, limit) => Rank(2, Turns(count, offset), Left(cursors, w, offset, limit, count), 7, todo, loads)
  }

  ghost function ClaimRank(pc: Pc, cursors: seq<int>, w: nat, count: nat): Rank {
    match pc
    case Recheck(offset, limit) => Rank(2, Turns(count, offset), Left(cursors, w, offset, limit, count), 5, 0, 0)
    case Probe(offset, limit) => Rank(2, Turns(count, offset), Left(cursors, w, offset, limit, count), 4, 0, 0)
    case LoadCursor(offset, limit) => Rank(2, Turns(count, offset), Left(cursors, w, offset, limit, count), 3, 0, 0)
    case Cas(offset, limit, current, _) =>
      if TooHigh(cursors, w, offset, current, count)
      then Rank(2, Turns(count, offset), Left(cursors, w, offset, limit, count), 6, 0, 0)
      else Rank(2, Turns(count, offset), Positive(limit - current), 2, 0, 0)
    case _ => Rank(0, 0, 0, 0, 0, 0)
  }

  function PublishRank(pc: Pc): Rank {
    if pc.CrashLoad? then Rank(1, 0, 0, 6, 0, 0)
    else if pc.CrashStatus? || pc.PubElapsed? then Rank(1, 0, 0, 5, 0, 0)
    else if pc.CrashDone? || pc.PubResult? then Rank(1, 0, 0, 4, 0, 0)
    else if pc.PubStatus? then Rank(1, 0, 0, 3, 0, 0)
    else Rank(1, 0, 0, 2, 0, 0)
  }

  /** A worker that has picked up the epoch and not yet reported. */
  ghost function RunRank(c: Config, job: Job, cursors: seq<int>, wk: Worker, w: nat): Rank {
    var pc := wk.pc;
    if pc.ReadStop? then Rank(3, 0, 0, 9, 0, 0)
    else if pc.Read? then Rank(3, 0, 0, Positive(8 - pc.k), 0, 0)
    else if pc.Scan? then Rank(2, Turns(c.workers, pc.offset) + 1, 0, 0, 0, 0)
    else if Claiming(pc) then ClaimRank(pc, cursors, w, c.workers)
    else if pc.Enter? then
      CallRank(pc.ret, cursors, w, c.workers, Positive(pc.hi - pc.lo) + 1, Headers(c, job, pc.header))
    else if pc.Loop? then
      CallRank(pc.ret, cursors, w, c.workers, Positive(pc.hi - pc.i),
               Loads(c, job, wk.regs.argument, pc.header, pc.i, pc.buffer))
    else PublishRank(pc)
  }

  function WakeRank(pc: Pc): Rank {
    Rank(4, 0, 0, if pc.Reload? then 1 else if pc.Check? then 2 else 3, 0, 0)
  }

  ghost function RankOf(c: Config, s: State, w: nat): Rank
    requires WF(c, s) && w < c.workers
  {
    if s.outs[w].done == s.epoch then Rank(0, 0, 0, 0, 0, 0)
    else if s.workers[w].seen != s.epoch then WakeRank(s.workers[w].pc)
    else RunRank(c, s.job, s.cursors, s.workers[w], w)
  }

  // ---- a worker's own steps

  predicate Scanning(host: Host) {
    host.ScanDone? || host.ScanStatus?
  }

  /** `wait_run` is waiting for worker w. */
  ghost predicate Owing(c: Config, s: State, w: nat) {
    Near(c, s, w) && Scanning(s.host) && s.outs[w].done != s.epoch
  }

  lemma {:induction false} WaitFalls(c: Config, s: State, w: nat)
    requires Owing(c, s, w) && Waiting(s.workers[w].pc)
    ensures Lower(RankOf(c, WaitStep(c, s, w), w), RankOf(c, s, w))
  {}

  lemma {:induction false} ReadFalls(c: Config, s: State, w: nat, k: nat)
    requires Owing(c, s, w) && s.workers[w].pc == Read(k)
    ensures Lower(RankOf(c, ReadStep(c, s, w, k), w), RankOf(c, s, w))
  {}

  lemma {:induction false} ScanFalls(c: Config, s: State, w: nat, offset: nat)
    requires Owing(c, s, w) && s.workers[w].pc == Scan(offset)
    ensures Lower(RankOf(c, ScanStep(c, s, w, offset), w), RankOf(c, s, w))
  {
    VictimInPool(w, offset, c.workers);
  }

  lemma {:induction false} ProbeFalls(c: Config, s: State, w: nat)
    requires Owing(c, s, w) && (s.workers[w].pc.Probe? || s.workers[w].pc.Recheck? || s.workers[w].pc.LoadCursor?)
    ensures Lower(RankOf(c, ClaimStep(c, s, w), w), RankOf(c, s, w))
  {
    VictimInPool(w, s.workers[w].pc.offset, c.workers);
  }

  lemma {:induction false} CasFalls(c: Config, s: State, w: nat, offset: nat, limit: int, current: int, stamp: nat)
    requires Owing(c, s, w) && s.workers[w].pc == Cas(offset, limit, current, stamp)
    ensures Lower(RankOf(c, ClaimStep(c, s, w), w), RankOf(c, s, w))
  {
    VictimInPool(w, offset, c.workers);
  }

  lemma {:induction false} EnterFalls(c: Config, s: State, w: nat)
    requires Owing(c, s, w) && s.workers[w].pc.Enter?
    ensures Lower(RankOf(c, RunKernel(c, s, w), w), RankOf(c, s, w))
  {}

  lemma {:induction false} LoopFalls(c: Config, s: State, w: nat)
    requires Owing(c, s, w) && s.workers[w].pc.Loop?
    ensures Lower(RankOf(c, RunKernel(c, s, w), w), RankOf(c, s, w))
  {}

  lemma {:induction false} ThrowFalls(c: Config, s: State, w: nat)
    requires Owing(c, s, w)
    ensures AtMost(RankOf(c, ThrowStep(s, w), w), RankOf(c, s, w))
  {}

  lemma {:induction false} PublishFalls(c: Config, s: State, w: nat, time: int)
    requires Owing(c, s, w)
    requires
      var pc := s.workers[w].pc;
      !Waiting(pc) && !pc.Read? && !pc.Scan? && !Claiming(pc) && !InKernel(pc)
    ensures Lower(RankOf(c, PublishStep(c, s, w, time), w), RankOf(c, s, w))
  {}

  /** Every step of a worker that has not reported brings it closer to its report. */
  lemma {:induction false} WorkFalls(c: Config, s: State, w: nat, time: int)
    requires Owing(c, s, w)
    ensures Lower(RankOf(c, WorkStep(c, s, w, time), w), RankOf(c, s, w))
  {
    var pc := s.workers[w].pc;
    if Waiting(pc) { WaitFalls(c, s, w); }
    else if pc.Read? { ReadFalls(c, s, w, pc.k); }
    else if pc.Scan? { ScanFalls(c, s, w, pc.offset); }
    else if pc.Cas? { CasFalls(c, s, w, pc.offset, pc.limit, pc.current, pc.stamp); }
    else if Claiming(pc) { ProbeFalls(c, s, w); }
    else if pc.Enter? { EnterFalls(c, s, w); }
    else if pc.Loop? { LoopFalls(c, s, w); }
    else { PublishFalls(c, s, w, time); }
  }

  // ---- the others' steps

  ghost predicate CursorsRise(s: State, r: State) {
    |s.cursors| == |r.cursors| && forall v :: 0 <= v < |s.cursors| ==> s.cursors[v] <= r.cursors[v]
  }

  lemma {:induction false} CasRaises(c: Config, s: State, w: nat, offset: nat, limit: int, current: int, stamp: nat)
    requires Near(c, s, w) && Scanning(s.host) && s.workers[w].pc == Cas(offset, limit, current, stamp)
    ensures CursorsRise(s, ClaimStep(c, s, w))
  {
    VictimInPool(w, offset, c.workers);
  }

  lemma {:induction false} NoClaim(c: Config, s: State, w: nat, time: int)
    requires WF(c, s) && w < c.workers && !s.workers[w].pc.Cas?
    ensures WorkStep(c, s, w, time).cursors == s.cursors
  {}

  /** Once every slot is published no step lowers a cursor. */
  lemma {:induction false} WorkRaises(c: Config, s: State, w: nat, time: int)
    requires Near(c, s, w) && Scanning(s.host)
    ensures CursorsRise(s, WorkStep(c, s, w, time))
  {
    var pc := s.workers[w].pc;
    if pc.Cas? { CasRaises(c, s, w, pc.offset, pc.limit, pc.current, pc.stamp); } else { NoClaim(c, s, w, time); }
  }

  lemma {:induction false} ClaimRankFalls(pc: Pc, before: seq<int>, after: seq<int>, w: nat, count: nat)
    requires |before| == |after| && forall v :: 0 <= v < |before| ==> before[v] <= after[v]
    ensures AtMost(ClaimRank(pc, after, w, count), ClaimRank(pc, before, w, count))
  {}

  /** A worker that stands still comes no further from its report. */
  lemma {:induction false} RankStays(c: Config, s: State, r: State, u: nat)
    requires WF(c, s) && WF(c, r) && u < c.workers && CursorsRise(s, r)
    requires r.workers[u] == s.workers[u] && r.outs[u] == s.outs[u] && r.epoch == s.epoch && r.job == s.job
    ensures AtMost(RankOf(c, r, u), RankOf(c, s, u))
  {
    if Claiming(s.workers[u].pc) { ClaimRankFalls(s.workers[u].pc, s.cursors, r.cursors, u, c.workers); }
  }

  /** A step of worker w, as the wait for worker u sees it. */
  lemma {:induction false} RankAfterWork(c: Config, s: State, w: nat, time: int, u: nat)
    requires Near(c, s, w) && Owing(c, s, u)
    ensures var r := WorkStep(c, s, w, time);
      AtMost(RankOf(c, r, u), RankOf(c, s, u)) && (u == w ==> Lower(RankOf(c, r, u), RankOf(c, s, u)))
  {
    if u == w {
      WorkFalls(c, s, w, time);
    } else {
      WorkKeeps(c, s, w, time);
      WorkRaises(c, s, w, time);
      RankStays(c, s, WorkStep(c, s, w, time), u);
    }
  }

  lemma {:induction false} RankAfterThrow(c: Config, s: State, w: nat, u: nat)
    requires Near(c, s, w) && Owing(c, s, u)
    ensures AtMost(RankOf(c, ThrowStep(s, w), u), RankOf(c, s, u))
  {
    if u == w {
      ThrowFalls(c, s, w);
    } else {
      ThrowKeeps(c, s, w);
      assert ThrowStep(s, w).cursors == s.cursors;
      RankStays(c, s, ThrowStep(s, w), u);
    }
  }

  /** `wait_run` has returned, or nothing is running. */
  predicate Ended(host: Host) {
    host.Ready? || host.Complete? || host.Failed?
  }

  /** The rank of worker u has not risen, and has fallen if the step was its own. */
  ghost predicate Falls(c: Config, s: State, r: State, u: nat, own: bool) {
    && WF(c, s) && WF(c, r) && u < c.workers
    && AtMost(RankOf(c, r, u), RankOf(c, s, u)) && (own ==> Lower(RankOf(c, r, u), RankOf(c, s, u)))
  }

  /** Any step while `wait_run` waits for worker u. */
  lemma {:induction false} RankNext(c: Config, s: State, a: Action, u: nat)
    requires Ctl(c, s) && Scanning(s.host) && u < c.workers && s.outs[u].done != s.epoch
    ensures var r := Next(c, s, a);
      (Scanning(r.host) || Ended(r.host)) && r.epoch == s.epoch && Falls(c, s, r, u, a.Work? && a.w == u)
  {
    Nearby(c, s, u);
    if a.Work? && a.w < c.workers {
      Nearby(c, s, a.w);
      RankAfterWork(c, s, a.w, a.time, u);
    } else if a.Throw? && a.w < c.workers {
      Nearby(c, s, a.w);
      RankAfterThrow(c, s, a.w, u);
    } else {
      RankStays(c, s, Next(c, s, a), u);
    }
  }

  ghost predicate Reported(s: State, upTo: nat) {
    forall u :: 0 <= u < upTo && u < |s.outs| ==> s.outs[u].done == s.epoch
  }

  /** Reports last as long as `wait_run` waits. */
  lemma {:induction false} ReportsLast(c: Config, s: State, a: Action, upTo: nat)
    requires Ctl(c, s) && Scanning(s.host) && Reported(s, upTo)
    ensures var r := Next(c, s, a);
      (Scanning(r.host) || Ended(r.host)) && Reported(r, upTo)
  {
    if a.Work? && a.w < c.workers {
      Nearby(c, s, a.w);
      WorkKeeps(c, s, a.w, a.time);
    } else if a.Throw? && a.w < c.workers {
      Nearby(c, s, a.w);
      ThrowKeeps(c, s, a.w);
    }
  }

  // ---- descent

  /** While it lasts the rank never rises, and falls whenever the agent waited for takes a step. */
  ghost predicate Descent(lasts: nat -> bool, over: nat -> bool, rank: nat -> Rank, step: nat -> bool, i: nat) {
    lasts(i) && !over(i) ==>
      over(i + 1) || (lasts(i + 1) && AtMost(rank(i + 1), rank(i)) && (step(i) ==> Lower(rank(i + 1), rank(i))))
  }

  ghost predicate Comes(step: nat -> bool, n: nat) {
    exists m: nat :: n <= m && step(m)
  }

  /** Ranks are well founded, so it is over some time if the agent keeps coming. */
  lemma {:induction false} Descends(lasts: nat -> bool, over: nat -> bool, rank: nat -> Rank, step: nat -> bool, n: nat,
                                    r: Rank, m: nat) returns (k: nat)
    requires (forall i: nat :: Descent(lasts, over, rank, step, i)) && (forall i: nat :: Comes(step, i))
    requires lasts(n) && r == rank(n) && n <= m && step(m)
    ensures n <= k && over(k)
    decreases r.stage, r.turns, r.left, r.place, r.todo, r.loads, m - n
  {
    if over(n) { return n; }
    assert Descent(lasts, over, rank, step, n);
    if over(n + 1) { return n + 1; }
    var next := m;
    if step(n) {
      assert Comes(step, n + 1);
      next :| n + 1 <= next && step(next);
    }
    k := Descends(lasts, over, rank, step, n + 1, rank(n + 1), next);
  }

  lemma {:induction false} Ends(lasts: nat -> bool, over: nat -> bool, rank: nat -> Rank, step: nat -> bool, n: nat)
    returns (k: nat)
    requires (forall i: nat :: Descent(lasts, over, rank, step, i)) && (forall i: nat :: Comes(step, i)) && lasts(n)
    ensures n <= k && over(k)
  {
    assert Comes(step, n);
    var m: nat :| n <= m && step(m);
    k := Descends(lasts, over, rank, step, n, rank(n), m);
  }

  // ---- runs that go on for ever

  function WorkerTurns(f: nat -> Action, w: nat): nat -> bool {
    (m: nat) => f(m).Work? && f(m).w == w
  }

  function HostTurns(f: nat -> Action): nat -> bool {
    (m: nat) => f(m).HostStep?
  }

  /** No worker and not the host is passed over for ever; exceptions, requests and dispatches come as they like. */
  ghost predicate Fair(c: Config, f: nat -> Action) {
    && (forall n: nat :: Comes(HostTurns(f), n))
    && (forall w: nat, n: nat :: w < c.workers ==> Comes(WorkerTurns(f, w), n))
  }

  /** The states of a run under schedule f. */
  ghost predicate Run(c: Config, run: nat -> State, f: nat -> Action) {
    forall n: nat :: Follows(c, run(n), f(n), run(n + 1))
  }

  ghost predicate Follows(c: Config, s: State, a: Action, t: State) {
    Ctl(c, s) && t == Next(c, s, a)
  }

  predicate Publishing(host: Host) {
    host.Count? || host.Write?
  }

  function WriteRank(c: Config, host: Host): Rank {
    match host
    case Count => Rank(0, c.workers + 1, 0, 0, 0, 0)
    case Write(id, k) => Rank(0, Positive(c.workers - id), Positive(14 - k), 0, 0, 0)
    case _ => Rank(0, 0, 0, 0, 0, 0)
  }

  lemma {:induction false} Writes(c: Config, s: State, a: Action, t: State)
    requires Follows(c, s, a, t) && Publishing(s.host)
    ensures Scanning(t.host) || (Publishing(t.host) && AtMost(WriteRank(c, t.host), WriteRank(c, s.host)))
    ensures a.HostStep? ==> Scanning(t.host) || Lower(WriteRank(c, t.host), WriteRank(c, s.host))
  {}

  lemma {:induction false} PublicationEnds(c: Config, run: nat -> State, f: nat -> Action, n: nat) returns (k: nat)
    requires Fair(c, f) && Run(c, run, f) && Publishing(run(n).host)
    ensures n <= k && Scanning(run(k).host)
  {
    var lasts, over := (i: nat) => Publishing(run(i).host), (i: nat) => Scanning(run(i).host);
    var rank, step := (i: nat) => WriteRank(c, run(i).host), HostTurns(f);
    forall i: nat ensures Descent(lasts, over, rank, step, i) {
      if Publishing(run(i).host) { Writes(c, run(i), f(i), run(i + 1)); }
    }
    k := Ends(lasts, over, rank, step, n);
  }

  ghost predicate Waits(s: State, upTo: nat) {
    Scanning(s.host) && Reported(s, upTo)
  }

  lemma {:induction false} WaitStays(c: Config, s: State, a: Action, t: State, w: nat)
    requires Follows(c, s, a, t) && Waits(s, w)
    ensures Ended(t.host) || Waits(t, w)
  {
    ReportsLast(c, s, a, w);
  }

  lemma {:induction false} WaitRank(c: Config, s: State, a: Action, t: State, w: nat)
    requires Follows(c, s, a, t) && w < c.workers && Waits(s, w) && !Waits(s, w + 1)
    ensures Falls(c, s, t, w, a.Work? && a.w == w)
  {
    NotYet(s, w);
    RankNext(c, s, a, w);
  }

  lemma {:induction false} NotYet(s: State, w: nat)
    requires Waits(s, w) && !Waits(s, w + 1)
    ensures w < |s.outs| && s.outs[w].done != s.epoch
  {}

  /** The wait for one worker is over after finitely many steps, and the earlier reports are still there. */
  lemma {:induction false} WorkerReports(c: Config, run: nat -> State, f: nat -> Action, n: nat, w: nat)
    returns (k: nat)
    requires Fair(c, f) && Run(c, run, f) && w < c.workers && Waits(run(n), w)
    ensures n <= k && (Ended(run(k).host) || Waits(run(k), w + 1))
  {
    var lasts, over := (i: nat) => Waits(run(i), w), (i: nat) => Ended(run(i).host) || Waits(run(i), w + 1);
    var rank := (i: nat) => if WF(c, run(i)) then RankOf(c, run(i), w) else Rank(0, 0, 0, 0, 0, 0);
    var step := WorkerTurns(f, w);
    forall i: nat ensures Descent(lasts, over, rank, step, i) {
      if Waits(run(i), w) && !Waits(run(i), w + 1) {
        WaitStays(c, run(i), f(i), run(i + 1), w);
        WaitRank(c, run(i), f(i), run(i + 1), w);
      }
    }
    k := Ends(lasts, over, rank, step, n);
  }

  lemma {:induction false} AllReport(c: Config, run: nat -> State, f: nat -> Action, n: nat, w: nat) returns (k: nat)
    requires Fair(c, f) && Run(c, run, f) && w <= c.workers && Waits(run(n), w)
    ensures n <= k && (Ended(run(k).host) || Waits(run(k), c.workers))
    decreases c.workers - w
  {
    k := n;
    if w < c.workers {
      k := WorkerReports(c, run, f, n, w);
      if !Ended(run(k).host) {
        var rest := AllReport(c, run, f, k, w + 1);
        k := rest;
      }
    }
  }

  function ScanRank(c: Config, host: Host): Rank {
    match host
    case ScanDone(id, pending) => Rank(0, if pending then 1 else 0, 2 * Positive(c.workers - id) + 1, 0, 0, 0)
    case ScanStatus(id, pending) => Rank(0, if pending then 1 else 0, 2 * Positive(c.workers - id), 0, 0, 0)
    case _ => Rank(0, 0, 0, 0, 0, 0)
  }

  lemma {:induction false} Scans(c: Config, s: State, a: Action, t: State)
    requires Follows(c, s, a, t) && Waits(s, c.workers) && !Ended(t.host)
    ensures AtMost(ScanRank(c, t.host), ScanRank(c, s.host))
    ensures a.HostStep? ==> Lower(ScanRank(c, t.host), ScanRank(c, s.host))
  {}

  lemma {:induction false} ScanEnds(c: Config, run: nat -> State, f: nat -> Action, n: nat) returns (k: nat)
    requires Fair(c, f) && Run(c, run, f) && Waits(run(n), c.workers)
    ensures n <= k && Ended(run(k).host)
  {
    var lasts, over := (i: nat) => Waits(run(i), c.workers), (i: nat) => Ended(run(i).host);
    var rank, step := (i: nat) => ScanRank(c, run(i).host), HostTurns(f);
    forall i: nat ensures Descent(lasts, over, rank, step, i) {
      if Waits(run(i), c.workers) && !Ended(run(i + 1).host) {
        WaitStays(c, run(i), f(i), run(i + 1), c.workers);
        Scans(c, run(i), f(i), run(i + 1));
      }
    }
    k := Ends(lasts, over, rank, step, n);
  }

  ghost function At(c: Config, data: seq<int>, f: nat -> Action, n: nat): (s: State)
    requires ValidConfig(c) && |data| == c.capacity
  {
    After(c, data, seq(n, (i: nat) => f(i)))
  }

  lemma {:induction false} AtFollows(c: Config, data: seq<int>, f: nat -> Action, n: nat)
    requires ValidConfig(c) && |data| == c.capacity
    ensures Follows(c, At(c, data, f, n), f(n), At(c, data, f, n + 1))
  {
    assert seq(n + 1, (i: nat) => f(i))[..n] == seq(n, (i: nat) => f(i));
    DispatchRuns.Always(c, data, seq(n, (i: nat) => f(i)));
  }

  ghost predicate EndsAfter(c: Config, data: seq<int>, f: nat -> Action, n: nat)
    requires ValidConfig(c) && |data| == c.capacity
  {
    exists k: nat :: n <= k && Ended(At(c, data, f, k).host)
  }

  lemma {:induction false} RunEnds(c: Config, run: nat -> State, f: nat -> Action, n: nat) returns (k: nat)
    requires Fair(c, f) && Run(c, run, f)
    ensures n <= k && Ended(run(k).host)
  {
    k := n;
    if Publishing(run(k).host) { k := PublicationEnds(c, run, f, k); }
    if Scanning(run(k).host) {
      assert Waits(run(k), 0);
      k := AllReport(c, run, f, k, 0);
    }
    if !Ended(run(k).host) { k := ScanEnds(c, run, f, k); }
  }

  /**
   Liveness: under every fair schedule, from every moment on, `wait_run` returns after finitely many
   steps, whatever kernels throw and whatever is cancelled.
   */
  lemma {:induction false} EveryDispatchEnds(c: Config, data: seq<int>, f: nat -> Action, n: nat)
    requires ValidConfig(c) && |data| == c.capacity && Fair(c, f)
    ensures EndsAfter(c, data, f, n)
  {
    var run := (i: nat) => At(c, data, f, i);
    forall i: nat ensures Follows(c, run(i), f(i), run(i + 1)) { AtFollows(c, data, f, i); }
    var k := RunEnds(c, run, f, n);
    assert Ended(At(c, data, f, k).host);
  }

  // ---- without exceptions

  predicate Sane(out: Out, wk: Worker) {
    && out.status != RUNTIME_FAILED && wk.status != RUNTIME_FAILED
    && !wk.pc.CrashLoad? && !wk.pc.CrashStatus? && !wk.pc.CrashDone? && !wk.pc.CrashNotify? && !wk.pc.Dead?
  }

  ghost predicate AllSane(s: State)
    requires |s.outs| == |s.workers|
  {
    !s.host.Failed? && forall w :: 0 <= w < |s.outs| ==> Sane(s.outs[w], s.workers[w])
  }

  lemma {:induction false} CallSane(c: Config, s: State, w: nat, wk: Worker, ret: Return, v: nat, lo: int, hi: int)
    requires ValidConfig(c) && WF(c, s) && w < c.workers && Sane(s.outs[w], wk)
    ensures var r := Call(c, s, w, wk, ret, v, lo, hi); Sane(r.outs[w], r.workers[w])
  {}

  lemma {:induction false} ReadSane(c: Config, s: State, w: nat, k: nat)
    requires ValidConfig(c) && WF(c, s) && w < c.workers && Sane(s.outs[w], s.workers[w])
    ensures var r := ReadStep(c, s, w, k); Sane(r.outs[w], r.workers[w])
  {
    var wk := s.workers[w].(regs := ReadWord(s, w, s.workers[w].regs, k));
    CallSane(c, s, w, wk, Static, w, wk.regs.start, wk.regs.end);
  }

  lemma {:induction false} ClaimSane(c: Config, s: State, w: nat)
    requires ValidConfig(c) && WF(c, s) && w < c.workers && Sane(s.outs[w], s.workers[w])
    ensures var r := ClaimStep(c, s, w); Sane(r.outs[w], r.workers[w])
  {}

  lemma {:induction false} OtherSane(c: Config, s: State, w: nat, time: int)
    requires WF(c, s) && w < c.workers && Sane(s.outs[w], s.workers[w])
    requires !s.workers[w].pc.Read? && !Claiming(s.workers[w].pc)
    ensures var r := WorkStep(c, s, w, time); Sane(r.outs[w], r.workers[w])
  {}

  lemma {:induction false} WorkSane(c: Config, s: State, w: nat, time: int)
    requires ValidConfig(c) && WF(c, s) && w < c.workers && Sane(s.outs[w], s.workers[w])
    ensures var r := WorkStep(c, s, w, time); Sane(r.outs[w], r.workers[w])
  {
    var pc := s.workers[w].pc;
    if pc.Read? { ReadSane(c, s, w, pc.k); }
    else if Claiming(pc) { ClaimSane(c, s, w); }
    else { OtherSane(c, s, w, time); }
  }

  lemma {:induction false} HostSane(c: Config, s: State)
    requires WF(c, s) && AllSane(s)
    ensures AllSane(HostMove(c, s))
  {}

  lemma {:induction false} NextSane(c: Config, s: State, a: Action)
    requires Ctl(c, s) && AllSane(s) && !a.Throw?
    ensures AllSane(Next(c, s, a))
  {
    if a.HostStep? { HostSane(c, s); }
    if a.Work? && a.w < c.workers {
      Nearby(c, s, a.w);
      WorkKeeps(c, s, a.w, a.time);
      WorkSane(c, s, a.w, a.time);
    }
  }

  lemma {:induction false} StaysSane(c: Config, run: nat -> State, f: nat -> Action, n: nat)
    requires Run(c, run, f) && WF(c, run(0)) && AllSane(run(0)) && forall i: nat :: !f(i).Throw?
    ensures WF(c, run(n)) && AllSane(run(n))
  {
    if n > 0 {
      StaysSane(c, run, f, n - 1);
      assert Follows(c, run(n - 1), f(n - 1), run(n));
      NextSane(c, run(n - 1), f(n - 1));
    }
  }

  ghost predicate ReturnsAfter(c: Config, data: seq<int>, f: nat -> Action, n: nat)
    requires ValidConfig(c) && |data| == c.capacity
  {
    exists k: nat :: n <= k && var host := At(c, data, f, k).host; host.Complete? || host.Ready?
  }

  /** And if no kernel throws, it returns -1: the dispatch completes. */
  lemma {:induction false} EveryDispatchCompletes(c: Config, data: seq<int>, f: nat -> Action, n: nat)
    requires ValidConfig(c) && |data| == c.capacity && Fair(c, f) && forall i: nat :: !f(i).Throw?
    ensures ReturnsAfter(c, data, f, n)
  {
    EveryDispatchEnds(c, data, f, n);
    var k: nat :| n <= k && Ended(At(c, data, f, k).host);
    var run := (i: nat) => At(c, data, f, i);
    forall i: nat ensures Follows(c, run(i), f(i), run(i + 1)) { AtFollows(c, data, f, i); }
    assert seq(0, (i: nat) => f(i)) == [];
    StaysSane(c, run, f, k);
    assert !run(k).host.Failed?;
    var host := At(c, data, f, k).host;
    assert host.Complete? || host.Ready?;
  }

  // ---- fair schedules exist

  function RoundRobin(workers: nat): nat -> Action {
    (n: nat) => if n % (workers + 1) == workers then HostStep else Work(n % (workers + 1), 0)
  }

  lemma {:induction false} Revisits(n: nat, size: nat, place: nat)
    requires place < size
    ensures n <= n * size + place && (n * size + place) % size == place
  {
    RowMajor(place, n, size);
    MulOrder(1, size, n);
  }

  /** Taking turns is fair, and no turn is an exception. */
  lemma {:induction false} RoundRobinIsFair(c: Config)
    ensures Fair(c, RoundRobin(c.workers)) && forall i: nat :: !RoundRobin(c.workers)(i).Throw?
  {
    var f, size := RoundRobin(c.workers), c.workers + 1;
    forall n: nat ensures Comes(HostTurns(f), n) {
      Revisits(n, size, c.workers);
      assert HostTurns(f)(n * size + c.workers);
    }
    forall w: nat, n: nat ensures w < c.workers ==> Comes(WorkerTurns(f, w), n) {
      if w < c.workers {
        Revisits(n, size, w);
        assert WorkerTurns(f, w)(n * size + w);
      }
    }
  }
}
