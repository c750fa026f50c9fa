/**
 The mutex and condition-variable pool of native/c/bench.c, which native/rust/src/main.rs repeats.

 The host publishes a run under the mutex, wakes everybody and sleeps until `remaining` is zero;
 every worker transforms its own range outside the mutex. Waiting on a condition releases the
 mutex in the same step, and every waiter may also wake up for no reason, as POSIX and Rust
 allow. Loads and stores of the data are separate steps. The epoch has 64 bits.
 */
module CondPool {
  import opened Arithmetic
  import opened CondRanges

  datatype Pc =
    | Acquire | Guard | Waiting | Relock | Take | Unlock | Load | Store(value: int)
    | Return | Decrement | Signal | Release | StopUnlock | Exited

  /** trips is history: how many runs the worker has picked up. */
  datatype Worker = Worker(pc: Pc, seen: nat, i: nat, hi: nat, rounds: nat, trips: nat)

  datatype Host =
    | Idle | Lock(elements: nat, rounds: nat) | Publish(elements: nat, rounds: nat) | Broadcast
    | Check | Sleeping | HostRelock | HostUnlock
    | StopLock | StopSet | StopBroadcast | StopRelease | Join | Joined

  /** What the host did to the data between and with its runs. */
  datatype Event = Wrote(index: nat, value: int) | Ran(elements: nat, rounds: nat)

  /**
   holder is the mutex: -1 free, w a worker, |workers| the host. The last six fields are
   history: the epoch and data before the latest publication, its ranges, the number of runs,
   the completed events, and the run that the caller asked for last.
   */
  datatype State = State(holder: int, epoch: nat, remaining: nat, elements: nat, rounds: nat, stop: bool,
                         data: seq<int>, workers: seq<Worker>, host: Host,
                         previous: nat, base: seq<int>, bounds: seq<nat>, runs: nat, log: seq<Event>,
                         asked: Event)

  datatype Action =
    | Work(w: nat) | Spurious(w: nat) | HostStep | HostSpurious
    | Fill(index: nat, value: int) | StartRun(elements: nat, rounds: nat) | Destroy

  // ---- steps

  function Put(s: State, w: nat, pc: Pc): (r: State)
    requires w < |s.workers|
  {
    s.(workers := s.workers[w := s.workers[w].(pc := pc)])
  }

  /** What a worker can never change. */
  predicate Kept(s: State, r: State, w: nat)
    requires w < |s.workers|
  {
    && |r.workers| == |s.workers| && r.workers == s.workers[w := r.workers[w]]
    && r.epoch == s.epoch && r.elements == s.elements && r.rounds == s.rounds && r.stop == s.stop
    && |r.data| == |s.data| && r.previous == s.previous && r.base == s.base && r.bounds == s.bounds
    && r.runs == s.runs && r.log == s.log && r.asked == s.asked
    && (r.host == s.host || (s.host.Sleeping? && r.host == HostRelock))
  }

  function WorkStep(s: State, w: nat): (r: State)
    requires w < |s.workers|
    ensures Kept(s, r, w)
  {
    var wk := s.workers[w];
    match wk.pc
    case Acquire => if s.holder == -1 then Put(s, w, Guard).(holder := w) else s
    case Guard =>
      if s.stop then Put(s, w, StopUnlock)
      else if s.epoch == wk.seen then Put(s, w, Waiting).(holder := -1)
      else Put(s, w, Take)
    case Waiting => s
    case Relock => if s.holder == -1 then Put(s, w, Guard).(holder := w) else s
    case Take =>
      s.(workers := s.workers[w := Worker(Unlock, s.epoch, Bound(s.elements, w, |s.workers|),
                                          Bound(s.elements, w + 1, |s.workers|), s.rounds, wk.trips + 1)])
    case Unlock => Put(s, w, Load).(holder := -1)
    case Load =>
      if wk.i < wk.hi then Put(s, w, Store(if wk.i < |s.data| then s.data[wk.i] else 0)) else Put(s, w, Return)
    case Store(value) =>
      var stored := if wk.i < |s.data| then s.data[wk.i := MixValue(value, wk.rounds)] else s.data;
      s.(data := stored, workers := s.workers[w := wk.(pc := Load, i := wk.i + 1)])
    case Return => if s.holder == -1 then Put(s, w, Decrement).(holder := w) else s
    case Decrement =>
      var left := if s.remaining == 0 then SIZE - 1 else s.remaining - 1;
      Put(s, w, if left == 0 then Signal else Release).(remaining := left)
    case Signal => Put(s, w, Release).(host := if s.host.Sleeping? then HostRelock else s.host)
    case Release => Put(s, w, Acquire).(holder := -1)
    case StopUnlock => Put(s, w, Exited).(holder := -1)
    case Exited => s
  }

  function Roused(wk: Worker): Worker {
    if wk.pc.Waiting? then wk.(pc := Relock) else wk
  }

  function WakeAll(s: State): State {
    s.(workers := seq(|s.workers|, w requires 0 <= w < |s.workers| => Roused(s.workers[w])))
  }

  predicate ValidRun(s: State, elements: nat) {
    0 < |s.workers| && elements <= |s.data| && elements * |s.workers| < SIZE
  }

  function Publication(s: State, elements: nat, rounds: nat): State
    requires |s.workers| > 0
  {
    s.(elements := elements, rounds := rounds, remaining := |s.workers|, epoch := (s.epoch + 1) % SIZE,
       host := Broadcast, previous := s.epoch, base := s.data, runs := s.runs + 1,
       bounds := seq(|s.workers| + 1, v requires 0 <= v => Bound(elements, v, |s.workers|)))
  }

  function HostMove(s: State): (r: State)
    requires |s.workers| > 0
  {
    var n := |s.workers|;
    match s.host
    case Idle => s
    case Lock(elements, rounds) => if s.holder == -1 then s.(holder := n, host := Publish(elements, rounds)) else s
    case Publish(elements, rounds) => Publication(s, elements, rounds)
    case Broadcast => WakeAll(s).(host := Check)
    case Check => if s.remaining != 0 then s.(host := Sleeping, holder := -1) else s.(host := HostUnlock)
    case Sleeping => s
    case HostRelock => if s.holder == -1 then s.(holder := n, host := Check) else s
    case HostUnlock => s.(holder := -1, host := Idle, log := s.log + [s.asked])
    case StopLock => if s.holder == -1 then s.(holder := n, host := StopSet) else s
    case StopSet => s.(stop := true, previous := s.epoch, epoch := (s.epoch + 1) % SIZE, host := StopBroadcast)
    case StopBroadcast => WakeAll(s).(host := StopRelease)
    case StopRelease => s.(holder := -1, host := Join)
    case Join => if forall w :: 0 <= w < n ==> s.workers[w].pc.Exited? then s.(host := Joined) else s
    case Joined => s
  }

  function Next(s: State, a: Action): (r: State)
    requires |s.workers| > 0
    ensures |r.workers| == |s.workers|
  {
    match a
    case Work(w) => if w < |s.workers| then WorkStep(s, w) else s
    case Spurious(w) => if w < |s.workers| then s.(workers := s.workers[w := Roused(s.workers[w])]) else s
    case HostStep => HostMove(s)
    case HostSpurious => if s.host.Sleeping? then s.(host := HostRelock) else s
    case Fill(index, value) =>
      if s.host.Idle? && index < |s.data| then
        s.(data := s.data[index := value], log := s.log + [Wrote(index, value)])
      else s
    case StartRun(elements, rounds) =>
      if s.host.Idle? && ValidRun(s, elements) then
        s.(host := Lock(elements, rounds), asked := Ran(elements, rounds))
      else s
    case Destroy => if s.host.Idle? then s.(host := StopLock) else s
  }

  function Init(n: nat, data: seq<int>): State {
    State(-1, 0, 0, 0, 0, false, data, seq(n, _ => Worker(Acquire, 0, 0, 0, 0, 0)), Idle, 0, data, [], 0, [],
          Ran(0, 0))
  }

  function After(n: nat, data: seq<int>, schedule: seq<Action>): (s: State)
    requires n > 0
    ensures |s.workers| == n
  {
    if schedule == [] then Init(n, data)
    else Next(After(n, data, schedule[..|schedule| - 1]), schedule[|schedule| - 1])
  }

  function Apply(data: seq<int>, e: Event): (r: seq<int>)
    ensures |r| == |data|
  {
    match e
    case Wrote(index, value) => if index < |data| then data[index := value] else data
    case Ran(elements, rounds) => Transformed(data, 0, elements, rounds)
  }

  /** The data after a list of events, each run being one sequential transform. */
  function Replay(data: seq<int>, log: seq<Event>): (r: seq<int>)
    ensures |r| == |data|
  {
    if log == [] then data else Apply(Replay(data, log[..|log| - 1]), log[|log| - 1])
  }

  // ---- the invariant

  predicate Holds(pc: Pc) {
    pc.Guard? || pc.Take? || pc.Unlock? || pc.Decrement? || pc.Signal? || pc.Release? || pc.StopUnlock?
  }

  predicate HostHolds(h: Host) {
    h.Publish? || h.Broadcast? || h.Check? || h.HostUnlock? || h.StopSet? || h.StopBroadcast? || h.StopRelease?
  }

  predicate Calm(h: Host) {
    h.Idle? || h.Lock? || h.Publish? || h.StopLock? || h.StopSet?
  }

  predicate Active(h: Host) {
    h.Broadcast? || h.Check? || h.Sleeping? || h.HostRelock? || h.HostUnlock?
  }

  /** At the top of its loop, not yet past the test of the epoch. */
  predicate Resting(pc: Pc) {
    pc.Acquire? || pc.Guard? || pc.Waiting? || pc.Relock?
  }

  /** Finished with the current epoch. */
  predicate Over(wk: Worker, epoch: nat) {
    wk.seen == epoch && (Resting(wk.pc) || wk.pc.Signal? || wk.pc.Release?)
  }

  function Unfinished(workers: seq<Worker>, epoch: nat): nat {
    if workers == [] then 0
    else Unfinished(workers[..|workers| - 1], epoch) + if Over(workers[|workers| - 1], epoch) then 0 else 1
  }

  predicate FreshOk(h: Host, wk: Worker) {
    wk.pc.Acquire? || wk.pc.Guard? || wk.pc.Relock? || wk.pc.Take? || (wk.pc.Waiting? && h.Broadcast?)
  }

  /** Where a worker is inside its range [lo, hi) of the base data. */
  predicate BusyOk(wk: Worker, base: seq<int>, lo: nat, hi: nat) {
    && lo <= wk.i <= wk.hi == hi <= |base|
    && match wk.pc
       case Unlock => wk.i == lo
       case Load => true
       case Store(value) => wk.i < hi && value == base[wk.i]
       case Return => wk.i == hi
       case Decrement => wk.i == hi
       case Acquire => wk.i == hi
       case Guard => wk.i == hi
       case Waiting => wk.i == hi
       case Relock => wk.i == hi
       case Signal => wk.i == hi
       case Release => wk.i == hi
       case Take => false
       case StopUnlock => false
       case Exited => false
  }

  predicate WorkerOk(s: State, w: nat, wk: Worker)
    requires w + 1 < |s.bounds| || !Active(s.host)
  {
    if Calm(s.host) then Resting(wk.pc) && wk.seen == s.epoch && wk.trips == s.runs
    else if Active(s.host) then
      if wk.seen == s.epoch then
        wk.trips == s.runs && wk.rounds == s.rounds && BusyOk(wk, s.base, s.bounds[w], s.bounds[w + 1])
        && (wk.pc.Signal? ==> s.remaining == 0)
      else wk.seen == s.previous && wk.trips + 1 == s.runs && FreshOk(s.host, wk)
    else
      && wk.seen == s.previous && wk.trips == s.runs
      && (wk.pc.Acquire? || wk.pc.Guard? || wk.pc.Relock? || wk.pc.StopUnlock? || wk.pc.Exited?
          || (wk.pc.Waiting? && s.host.StopBroadcast?))
  }

  predicate BoundsOk(s: State) {
    && 0 < |s.workers| && |s.bounds| == |s.workers| + 1 && s.bounds[0] == 0 && s.bounds[|s.workers|] == s.elements
    && s.elements <= |s.data|
    && (forall v :: 0 <= v < |s.workers| ==> s.bounds[v] <= s.bounds[v + 1])
    && (forall v :: 0 <= v <= |s.workers| ==> s.bounds[v] == Bound(s.elements, v, |s.workers|))
  }

  predicate WordOk(s: State, w: nat, x: nat)
    requires w < |s.workers| && x < |s.data| == |s.base|
  {
    s.data[x] == if s.workers[w].seen == s.epoch && x < s.workers[w].i
                 then MixValue(s.base[x], s.rounds) else s.base[x]
  }

  ghost predicate DataOk(s: State)
    requires |s.bounds| == |s.workers| + 1
  {
    && |s.base| == |s.data|
    && (forall x :: s.elements <= x < |s.data| ==> s.data[x] == s.base[x])
    && (forall w, x :: 0 <= w < |s.workers| && s.bounds[w] <= x < s.bounds[w + 1] && x < |s.data| ==> WordOk(s, w, x))
  }

  ghost predicate LockOk(s: State) {
    && -1 <= s.holder <= |s.workers|
    && (forall w :: 0 <= w < |s.workers| ==> (Holds(s.workers[w].pc) <==> s.holder == w))
    && (HostHolds(s.host) <==> s.holder == |s.workers|)
  }

  ghost predicate PhaseOk(s: State) {
    && |s.workers| > 0
    && (Active(s.host) ==> BoundsOk(s) && DataOk(s) && s.remaining == Unfinished(s.workers, s.epoch))
    && (s.host.Lock? || s.host.Publish? ==>
          ValidRun(s, s.host.elements) && s.asked == Ran(s.host.elements, s.host.rounds))
    && (Active(s.host) ==> s.asked == Ran(s.elements, s.rounds))
    && (Calm(s.host) ==> s.remaining == 0)
    && (s.stop <==> !Calm(s.host) && !Active(s.host))
    && (!Calm(s.host) ==> s.epoch == (s.previous + 1) % SIZE)
    && s.epoch < SIZE && s.previous < SIZE
    && (s.host.HostUnlock? ==> s.remaining == 0)
    && (s.host.Sleeping? && s.remaining == 0 ==> 0 <= s.holder < |s.workers| && s.workers[s.holder].pc.Signal?)
    && (forall w :: 0 <= w < |s.workers| ==> WorkerOk(s, w, s.workers[w]))
  }

  ghost predicate Inv(s: State, initial: seq<int>) {
    && LockOk(s) && PhaseOk(s)
    && Replay(initial, s.log) == if Active(s.host) then s.base else s.data
  }

  // ---- counting

  lemma {:induction false} UnfinishedUpdate(workers: seq<Worker>, epoch: nat, w: nat, wk: Worker)
    requires w < |workers|
    ensures Unfinished(workers[w := wk], epoch) ==
      Unfinished(workers, epoch) - (if Over(workers[w], epoch) then 0 else 1) + (if Over(wk, epoch) then 0 else 1)
  {
    var n := |workers| - 1;
    assert workers[w := wk][..n] == if w < n then workers[..n][w := wk] else workers[..n];
    if w < n { UnfinishedUpdate(workers[..n], epoch, w, wk); }
  }

  lemma {:induction false} UnfinishedSame(a: seq<Worker>, b: seq<Worker>, epoch: nat)
    requires |a| == |b| && forall w :: 0 <= w < |a| ==> (Over(a[w], epoch) <==> Over(b[w], epoch))
    ensures Unfinished(a, epoch) == Unfinished(b, epoch)
  {
    if a != [] { UnfinishedSame(a[..|a| - 1], b[..|b| - 1], epoch); }
  }

  lemma {:induction false} UnfinishedAll(workers: seq<Worker>, epoch: nat)
    requires forall w :: 0 <= w < |workers| ==> !Over(workers[w], epoch)
    ensures Unfinished(workers, epoch) == |workers|
  {
    if workers != [] { UnfinishedAll(workers[..|workers| - 1], epoch); }
  }

  lemma {:induction false} UnfinishedZero(workers: seq<Worker>, epoch: nat, w: nat)
    requires w < |workers| && Unfinished(workers, epoch) == 0
    ensures Over(workers[w], epoch)
  {
    if w < |workers| - 1 { UnfinishedZero(workers[..|workers| - 1], epoch, w); }
  }

  // ---- steps of a worker

  lemma WorkLock(s: State, w: nat)
    requires LockOk(s) && PhaseOk(s) && w < |s.workers|
    ensures LockOk(WorkStep(s, w))
  {
    var r := WorkStep(s, w);
    assert Holds(s.workers[w].pc) <==> s.holder == w;
    forall u | 0 <= u < |r.workers| ensures Holds(r.workers[u].pc) <==> r.holder == u {
      assert Holds(s.workers[u].pc) <==> s.holder == u;
    }
  }

  lemma QuietSelf(s: State, w: nat)
    requires LockOk(s) && PhaseOk(s) && w < |s.workers| && !Active(s.host)
    ensures WorkerOk(WorkStep(s, w), w, WorkStep(s, w).workers[w])
  {
    assert WorkerOk(s, w, s.workers[w]);
  }

  lemma FreshSelf(s: State, w: nat)
    requires PhaseOk(s) && w < |s.workers| && Active(s.host) && s.workers[w].seen != s.epoch
    ensures WorkerOk(WorkStep(s, w), w, WorkStep(s, w).workers[w])
  {
    assert WorkerOk(s, w, s.workers[w]);
    BoundInside(s, w);
  }

  lemma BusySelf(s: State, w: nat)
    requires PhaseOk(s) && w < |s.workers| && Active(s.host) && s.workers[w].seen == s.epoch
    ensures WorkerOk(WorkStep(s, w), w, WorkStep(s, w).workers[w])
  {
    var wk := s.workers[w];
    assert WorkerOk(s, w, wk);
    if wk.pc.Load? && wk.i < wk.hi { assert WordOk(s, w, wk.i); }
  }

  lemma WorkSelf(s: State, w: nat)
    requires LockOk(s) && PhaseOk(s) && w < |s.workers|
    ensures WorkerOk(WorkStep(s, w), w, WorkStep(s, w).workers[w])
  {
    if !Active(s.host) { QuietSelf(s, w); }
    else if s.workers[w].seen == s.epoch { BusySelf(s, w); }
    else { FreshSelf(s, w); }
  }

  /** The others only see that `remaining` changes under the mutex. */
  lemma WorkOthers(s: State, w: nat, u: nat)
    requires LockOk(s) && PhaseOk(s) && w < |s.workers| && u < |s.workers| && u != w
    ensures WorkerOk(WorkStep(s, w), u, s.workers[u])
  {
    assert WorkerOk(s, u, s.workers[u]);
    assert Holds(s.workers[w].pc) <==> s.holder == w;
    assert Holds(s.workers[u].pc) <==> s.holder == u;
  }

  /** A worker becomes finished exactly when it decrements `remaining`. */
  lemma {:induction false} WorkOver(s: State, w: nat)
    requires PhaseOk(s) && w < |s.workers| && Active(s.host)
    ensures Over(WorkStep(s, w).workers[w], s.epoch) <==> Over(s.workers[w], s.epoch) || s.workers[w].pc.Decrement?
    ensures s.workers[w].pc.Decrement? ==> !Over(s.workers[w], s.epoch)
  {
    assert WorkerOk(s, w, s.workers[w]);
  }

  lemma {:induction false} WorkDecrements(s: State, w: nat)
    requires w < |s.workers|
    ensures WorkStep(s, w).remaining ==
      if s.workers[w].pc.Decrement? then if s.remaining == 0 then SIZE - 1 else s.remaining - 1 else s.remaining
  {}

  lemma {:induction false} WorkCount(s: State, w: nat)
    requires PhaseOk(s) && w < |s.workers| && Active(s.host)
    ensures var r := WorkStep(s, w); r.remaining == Unfinished(r.workers, r.epoch)
  {
    WorkOver(s, w);
    WorkDecrements(s, w);
    UnfinishedUpdate(s.workers, s.epoch, w, WorkStep(s, w).workers[w]);
  }

  lemma {:induction false} WorkRemaining(s: State, w: nat)
    requires LockOk(s) && PhaseOk(s) && w < |s.workers|
    ensures var r := WorkStep(s, w);
      && (Calm(r.host) ==> r.remaining == 0)
      && (r.host.HostUnlock? ==> r.remaining == 0)
      && (r.host.Sleeping? && r.remaining == 0 ==>
            0 <= r.holder < |r.workers| && r.workers[r.holder].pc.Signal?)
  {
    assert WorkerOk(s, w, s.workers[w]);
    assert Holds(s.workers[w].pc) <==> s.holder == w;
  }

  /** No range ends beyond `elements`. */
  lemma {:induction false} BoundInside(s: State, v: nat)
    requires BoundsOk(s) && v < |s.workers|
    ensures s.bounds[v + 1] <= s.elements
    decreases |s.workers| - v
  {
    if v + 1 < |s.workers| { BoundInside(s, v + 1); }
  }

  lemma {:induction false} BoundsOrder(s: State, u: nat, v: nat)
    requires BoundsOk(s) && u <= v <= |s.workers|
    ensures s.bounds[u] <= s.bounds[v]
    decreases v - u
  {
    if u < v { BoundsOrder(s, u, v - 1); }
  }

  lemma WorkData(s: State, w: nat)
    requires PhaseOk(s) && w < |s.workers| && Active(s.host)
    ensures BoundsOk(WorkStep(s, w)) && DataOk(WorkStep(s, w))
  {
    var r := WorkStep(s, w);
    assert WorkerOk(s, w, s.workers[w]);
    BoundInside(s, w);
    forall v, x | 0 <= v < |r.workers| && r.bounds[v] <= x < r.bounds[v + 1] && x < |r.data|
      ensures WordOk(r, v, x)
    {
      assert WordOk(s, v, x);
      if v < w { BoundsOrder(s, v + 1, w); }
      if w < v { BoundsOrder(s, w + 1, v); }
    }
  }

  lemma WorkPhase(s: State, w: nat)
    requires LockOk(s) && PhaseOk(s) && w < |s.workers|
    ensures PhaseOk(WorkStep(s, w))
  {
    var r := WorkStep(s, w);
    WorkSelf(s, w);
    if Active(s.host) { WorkCount(s, w); }
    WorkRemaining(s, w);
    if Active(s.host) { WorkData(s, w); }
    forall u | 0 <= u < |r.workers| ensures WorkerOk(r, u, r.workers[u]) {
      if u != w { WorkOthers(s, w, u); }
    }
  }

  lemma WorkOk(s: State, w: nat, initial: seq<int>)
    requires Inv(s, initial) && w < |s.workers|
    ensures Inv(WorkStep(s, w), initial)
  {
    WorkLock(s, w);
    WorkPhase(s, w);
    if !Active(s.host) { QuietWork(s, w); }
  }

  /** Outside a run no worker writes data. */
  lemma QuietWork(s: State, w: nat)
    requires PhaseOk(s) && w < |s.workers| && !Active(s.host)
    ensures WorkStep(s, w).data == s.data
  {
    assert WorkerOk(s, w, s.workers[w]);
  }

  // ---- steps of the host

  /** The data part of the invariant only looks at which epoch a worker has seen and how far it is. */
  lemma DataFrame(s: State, r: State)
    requires BoundsOk(s) && DataOk(s) && |r.workers| == |s.workers|
    requires r.data == s.data && r.base == s.base && r.bounds == s.bounds
    requires r.epoch == s.epoch && r.elements == s.elements && r.rounds == s.rounds
    requires forall u :: 0 <= u < |s.workers| ==>
      r.workers[u].seen == s.workers[u].seen && r.workers[u].i == s.workers[u].i
    ensures BoundsOk(r) && DataOk(r)
  {
    forall v, x | 0 <= v < |r.workers| && r.bounds[v] <= x < r.bounds[v + 1] && x < |r.data|
      ensures WordOk(r, v, x)
    {
      assert WordOk(s, v, x);
    }
  }

  /** Waking any of the waiting workers, for whatever reason. */
  lemma RousePhase(s: State, workers: seq<Worker>)
    requires PhaseOk(s) && |workers| == |s.workers|
    requires forall u :: 0 <= u < |workers| ==> workers[u] == s.workers[u] || workers[u] == Roused(s.workers[u])
    ensures PhaseOk(s.(workers := workers))
  {
    var r := s.(workers := workers);
    UnfinishedSame(s.workers, r.workers, s.epoch);
    forall u | 0 <= u < |r.workers| ensures WorkerOk(r, u, r.workers[u]) {
      assert WorkerOk(s, u, s.workers[u]);
    }
    if Active(s.host) { DataFrame(s, r); }
  }

  lemma RouseOk(s: State, workers: seq<Worker>, initial: seq<int>)
    requires Inv(s, initial) && |workers| == |s.workers|
    requires forall u :: 0 <= u < |workers| ==> workers[u] == s.workers[u] || workers[u] == Roused(s.workers[u])
    ensures Inv(s.(workers := workers), initial)
  {
    RousePhase(s, workers);
    forall u | 0 <= u < |workers| ensures Holds(workers[u].pc) <==> s.holder == u {
      assert Holds(s.workers[u].pc) <==> s.holder == u;
    }
  }

  lemma PublishOk(s: State, initial: seq<int>)
    requires Inv(s, initial) && s.host.Publish?
    ensures Inv(HostMove(s), initial)
  {
    var r, n := HostMove(s), |s.workers|;
    BoundsEnds(r.elements, n);
    forall v | 0 <= v < n ensures r.bounds[v] <= r.bounds[v + 1] {
      BoundsRise(r.elements, v, n);
    }
    forall u | 0 <= u < n ensures WorkerOk(r, u, r.workers[u]) && !Over(r.workers[u], r.epoch) {
      assert WorkerOk(s, u, s.workers[u]);
    }
    UnfinishedAll(r.workers, r.epoch);
  }

  lemma WakeOk(s: State, initial: seq<int>)
    requires Inv(s, initial) && (s.host.Broadcast? || s.host.StopBroadcast?)
    ensures Inv(HostMove(s), initial)
  {
    var all := WakeAll(s);
    RouseOk(s, all.workers, initial);
    HostPhase(all, HostMove(s));
  }

  /** A host step that leaves the workers and the data alone, seen by one of them. */
  lemma HostPhase(s: State, r: State)
    requires PhaseOk(s) && r == s.(host := r.host, holder := r.holder, asked := r.asked)
    requires Active(s.host) ==> r.asked == s.asked
    requires Calm(r.host) == Calm(s.host) && Active(r.host) == Active(s.host)
    requires s.host.Broadcast? || s.host.StopBroadcast? ==>
      r.host == s.host || forall u :: 0 <= u < |s.workers| ==> !s.workers[u].pc.Waiting?
    requires r.host.Broadcast? ==> s.host.Broadcast?
    requires r.host.StopBroadcast? ==> s.host.StopBroadcast?
    requires r.host.Lock? || r.host.Publish? ==>
      ValidRun(r, r.host.elements) && r.asked == Ran(r.host.elements, r.host.rounds)
    requires (r.host.HostUnlock? ==> r.remaining == 0) && (r.host.Sleeping? ==> r.remaining != 0)
    ensures PhaseOk(r)
  {
    forall u | 0 <= u < |r.workers| ensures WorkerOk(r, u, r.workers[u]) {
      assert WorkerOk(s, u, s.workers[u]);
    }
    if Active(s.host) { DataFrame(s, r); }
  }

  /** The worker whose range holds x. */
  lemma {:induction false} RangeOf(s: State, n: nat, x: nat) returns (w: nat)
    requires BoundsOk(s) && 0 < n <= |s.workers| && x < s.bounds[n]
    ensures w < |s.workers| && s.bounds[w] <= x < s.bounds[w + 1]
  {
    if s.bounds[n - 1] <= x { w := n - 1; } else { w := RangeOf(s, n - 1, x); }
  }

  /** When nobody is unfinished the data is the sequential transform of the base. */
  lemma AllFinished(s: State)
    requires PhaseOk(s) && Active(s.host) && s.remaining == 0
    ensures s.data == Transformed(s.base, 0, s.elements, s.rounds)
    ensures forall w :: 0 <= w < |s.workers| ==> Over(s.workers[w], s.epoch)
  {
    forall w | 0 <= w < |s.workers| ensures Over(s.workers[w], s.epoch) {
      UnfinishedZero(s.workers, s.epoch, w);
    }
    forall x | 0 <= x < |s.data| ensures s.data[x] == Transformed(s.base, 0, s.elements, s.rounds)[x] {
      if x < s.elements {
        var w := RangeOf(s, |s.workers|, x);
        assert WordOk(s, w, x) && WorkerOk(s, w, s.workers[w]);
      }
    }
  }

  lemma ReplayAppend(initial: seq<int>, log: seq<Event>, e: Event)
    ensures Replay(initial, log + [e]) == Apply(Replay(initial, log), e)
  {
    assert (log + [e])[..|log|] == log;
  }

  lemma ReturnOk(s: State, initial: seq<int>)
    requires Inv(s, initial) && s.host.HostUnlock?
    ensures Inv(HostMove(s), initial)
  {
    var r := HostMove(s);
    AllFinished(s);
    ReplayAppend(initial, s.log, Ran(s.elements, s.rounds));
    forall u | 0 <= u < |r.workers| ensures WorkerOk(r, u, r.workers[u]) {
      assert WorkerOk(s, u, s.workers[u]);
      assert Holds(s.workers[u].pc) <==> s.holder == u;
    }
  }

  lemma StopOk(s: State)
    requires PhaseOk(s) && s.host.StopSet?
    ensures PhaseOk(HostMove(s))
  {
    var r := HostMove(s);
    forall u | 0 <= u < |r.workers| ensures WorkerOk(r, u, r.workers[u]) {
      assert WorkerOk(s, u, s.workers[u]);
    }
  }

  /** The host's other steps change at most the mutex and its program counter, or set the stop flag. */
  lemma QuietHostOk(s: State, initial: seq<int>)
    requires Inv(s, initial)
    requires !s.host.Publish? && !s.host.HostUnlock? && !s.host.Broadcast? && !s.host.StopBroadcast?
    ensures Inv(HostMove(s), initial)
  {
    var r := HostMove(s);
    if s.host.StopSet? { StopOk(s); }
    else if r != s { HostPhase(s, r); }
    forall u | 0 <= u < |r.workers| ensures Holds(r.workers[u].pc) <==> r.holder == u {
      assert Holds(s.workers[u].pc) <==> s.holder == u;
    }
  }

  lemma FillOk(s: State, index: nat, value: int, initial: seq<int>)
    requires Inv(s, initial) && s.host.Idle? && index < |s.data|
    ensures Inv(Next(s, Fill(index, value)), initial)
  {
    var r := Next(s, Fill(index, value));
    ReplayAppend(initial, s.log, Wrote(index, value));
    forall u | 0 <= u < |r.workers| ensures WorkerOk(r, u, r.workers[u]) {
      assert WorkerOk(s, u, s.workers[u]);
    }
  }

  lemma CallerOk(s: State, a: Action, initial: seq<int>)
    requires Inv(s, initial) && (a.Fill? || a.StartRun? || a.Destroy? || a.HostSpurious?)
    ensures Inv(Next(s, a), initial)
  {
    var r := Next(s, a);
    if r != s {
      if a.Fill? { FillOk(s, a.index, a.value, initial); } else { HostPhase(s, r); }
    }
  }

  lemma HostOk(s: State, initial: seq<int>)
    requires Inv(s, initial)
    ensures Inv(HostMove(s), initial)
  {
    if s.host.Publish? { PublishOk(s, initial); }
    else if s.host.HostUnlock? { ReturnOk(s, initial); }
    else if s.host.Broadcast? || s.host.StopBroadcast? { WakeOk(s, initial); }
    else { QuietHostOk(s, initial); }
  }

  lemma NextOk(s: State, a: Action, initial: seq<int>)
    requires Inv(s, initial)
    ensures Inv(Next(s, a), initial)
  {
    if a.Work? { if a.w < |s.workers| { WorkOk(s, a.w, initial); } }
    else if a.Spurious? { if a.w < |s.workers| { RouseOk(s, Next(s, a).workers, initial); } }
    else if a.HostStep? { HostOk(s, initial); }
    else { CallerOk(s, a, initial); }
  }

  lemma {:induction false} Always(n: nat, data: seq<int>, schedule: seq<Action>)
    requires n > 0
    ensures Inv(After(n, data, schedule), data)
  {
    if schedule != [] {
      Always(n, data, schedule[..|schedule| - 1]);
      NextOk(After(n, data, schedule[..|schedule| - 1]), schedule[|schedule| - 1], data);
    }
  }

  // ---- the promises

  /** `remaining` is always the number of workers not finished with the current epoch. */
  lemma {:induction false} RemainingCounts(n: nat, data: seq<int>, schedule: seq<Action>)
    requires n > 0
    ensures
      var s := After(n, data, schedule);
      && (Active(s.host) ==> s.remaining == Unfinished(s.workers, s.epoch) <= n)
      && (Calm(s.host) ==> s.remaining == 0)
  {
    Always(n, data, schedule);
    UnfinishedAtMost(After(n, data, schedule).workers, After(n, data, schedule).epoch);
  }

  lemma {:induction false} UnfinishedAtMost(workers: seq<Worker>, epoch: nat)
    ensures Unfinished(workers, epoch) <= |workers|
  {
    if workers != [] { UnfinishedAtMost(workers[..|workers| - 1], epoch); }
  }

  /** No worker skips or repeats an epoch, also when the 64-bit epoch wraps. */
  lemma {:induction false} EveryEpochOnce(n: nat, data: seq<int>, schedule: seq<Action>, w: nat)
    requires w < n
    ensures
      var s := After(n, data, schedule);
      && (s.host.Idle? ==> s.workers[w].trips == s.runs && s.workers[w].seen == s.epoch)
      && (Active(s.host) ==> s.workers[w].trips == s.runs - if s.workers[w].seen == s.epoch then 0 else 1)
  {
    Always(n, data, schedule);
    var s := After(n, data, schedule);
    assert WorkerOk(s, w, s.workers[w]);
  }

  /** When a run returns, the data is what the host's writes and runs leave one after the other. */
  lemma {:induction false} RunsAreSequential(n: nat, data: seq<int>, schedule: seq<Action>)
    requires n > 0
    ensures var s := After(n, data, schedule);
      s.host.Idle? || s.host.Joined? ==> s.data == Replay(data, s.log)
  {
    Always(n, data, schedule);
  }

  /** Two critical sections never overlap, the host's included. */
  lemma {:induction false} MutualExclusion(n: nat, data: seq<int>, schedule: seq<Action>, v: nat, w: nat)
    requires v < n && w < n
    ensures var s := After(n, data, schedule);
      && (Holds(s.workers[v].pc) && Holds(s.workers[w].pc) ==> v == w)
      && !(HostHolds(s.host) && Holds(s.workers[v].pc))
  {
    Always(n, data, schedule);
    var s := After(n, data, schedule);
    assert (Holds(s.workers[v].pc) <==> s.holder == v) && (Holds(s.workers[w].pc) <==> s.holder == w);
  }

  /** A sleeping host still has work to wait for or is about to be signalled; so has a worker. */
  lemma {:induction false} NoLostWakeup(n: nat, data: seq<int>, schedule: seq<Action>, w: nat)
    requires w < n
    ensures
      var s := After(n, data, schedule);
      && (s.host.Sleeping? ==> s.remaining > 0 || exists v :: 0 <= v < n && s.workers[v].pc.Signal?)
      && (s.workers[w].pc.Waiting? ==>
            (s.epoch == s.workers[w].seen && !s.stop) || s.host.Broadcast? || s.host.StopBroadcast?)
  {
    Always(n, data, schedule);
    var s := After(n, data, schedule);
    assert WorkerOk(s, w, s.workers[w]);
  }

  ghost predicate Stuck(s: State)
    requires |s.workers| > 0
  {
    HostMove(s) == s && forall w :: 0 <= w < |s.workers| ==> WorkStep(s, w) == s
  }

  lemma {:induction false} NobodyUnfinished(workers: seq<Worker>, epoch: nat)
    requires forall w :: 0 <= w < |workers| ==> Over(workers[w], epoch)
    ensures Unfinished(workers, epoch) == 0
  {
    if workers != [] { NobodyUnfinished(workers[..|workers| - 1], epoch); }
  }

  /** Whoever holds the mutex can go on. */
  lemma {:induction false} HolderMoves(s: State, w: nat)
    requires w < |s.workers| && Holds(s.workers[w].pc)
    ensures WorkStep(s, w).workers[w].pc != s.workers[w].pc
  {}

  /** In a stuck state every worker waits for the next epoch or has left. */
  lemma {:induction false} StuckWorker(s: State, w: nat)
    requires LockOk(s) && PhaseOk(s) && Stuck(s) && w < |s.workers|
    ensures s.workers[w].pc.Waiting? || s.workers[w].pc.Exited?
    ensures Active(s.host) ==> Over(s.workers[w], s.epoch)
    ensures s.stop ==> s.workers[w].pc.Exited?
  {
    assert WorkStep(s, w) == s && WorkerOk(s, w, s.workers[w]);
    NobodyHolds(s);
  }

  lemma {:induction false} NobodyHolds(s: State)
    requires LockOk(s) && PhaseOk(s) && Stuck(s)
    ensures !(0 <= s.holder < |s.workers|)
  {
    if 0 <= s.holder < |s.workers| {
      HolderMoves(s, s.holder);
    }
  }

  /** No deadlock, even without spurious wake-ups: only an idle host or a finished pool can be stuck. */
  lemma {:induction false} NoDeadlock(n: nat, data: seq<int>, schedule: seq<Action>)
    requires n > 0
    ensures var s := After(n, data, schedule); Stuck(s) ==> s.host.Idle? || s.host.Joined?
  {
    Always(n, data, schedule);
    var s := After(n, data, schedule);
    if Stuck(s) {
      forall w | 0 <= w < n
        ensures Active(s.host) ==> Over(s.workers[w], s.epoch)
        ensures s.stop ==> s.workers[w].pc.Exited?
      {
        StuckWorker(s, w);
      }
      if Active(s.host) { NobodyUnfinished(s.workers, s.epoch); }
      NobodyHolds(s);
    }
  }
}
