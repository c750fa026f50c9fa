/**
 The compare-exchange lock of worker/mutex.mbt with its contended counter and start barrier.

 Word 0 is the lock, word 1 the counter, word 2 the barrier. `Atomics.wait` compares and joins
 the waiter list in one step; `Atomics.notify(.., 1)` takes the first waiter of that list
 (section 25.4 of ECMA-262). Agents step in any order.
 */
module Mutex {
  import opened Int32

  datatype Pc =
    | StartLoad | StartWait | StartSleep
    | Cas | Wait | Sleep
    | LoadCounter | StoreCounter(current: int) | Release | Notify
    | Final | Finished

  /** stores is history: how often the thread has written the counter. */
  datatype Thread = Thread(pc: Pc, i: nat, stores: nat)

  datatype Host = Arming | Waking | Done

  /** holder is history: the thread between its successful exchange and its release, or -1. */
  datatype State = State(lock: int, counter: int, start: int, waiters: seq<nat>, threads: seq<Thread>,
                         host: Host, holder: int)

  datatype Action = Step(t: nat) | HostStep

  /** The loop head of `run_counter`. */
  function Head(i: nat, iterations: int): Pc {
    if i < iterations then Cas else Final
  }

  function Set(s: State, t: nat, pc: Pc): State
    requires t < |s.threads|
  {
    s.(threads := s.threads[t := s.threads[t].(pc := pc)])
  }

  function Init(n: nat): State {
    State(0, 0, 0, [], seq(n, _ => Thread(StartLoad, 0, 0)), Arming, -1)
  }

  function ThreadStep(s: State, t: nat, iterations: int): (r: State)
    requires t < |s.threads|
    ensures |r.threads| == |s.threads| && r.host == s.host && r.start == s.start
  {
    var th := s.threads[t];
    match th.pc
    case StartLoad => Set(s, t, if s.start == 0 then StartWait else Head(0, iterations))
    case StartWait => Set(s, t, if s.start == 0 then StartSleep else StartLoad)
    case StartSleep => s
    case Cas =>
      if s.lock == 0 then Set(s, t, LoadCounter).(lock := 1, holder := t) else Set(s, t, Wait)
    case Wait =>
      if s.lock == 1 then Set(s, t, Sleep).(waiters := s.waiters + [t]) else Set(s, t, Cas)
    case Sleep => s
    case LoadCounter => Set(s, t, StoreCounter(s.counter))
    case StoreCounter(current) =>
      s.(counter := Wrap(current + 1), threads := s.threads[t := th.(pc := Release, stores := th.stores + 1)])
    case Release => Set(s, t, Notify).(lock := 0, holder := -1)
    case Notify =>
      var woken := if s.waiters == [] then s
                   else if s.waiters[0] < |s.threads| then Set(s, s.waiters[0], Cas).(waiters := s.waiters[1..])
                   else s.(waiters := s.waiters[1..]);
      woken.(threads := woken.threads[t := th.(pc := Head(th.i + 1, iterations), i := th.i + 1)])
    case Final => Set(s, t, Finished)
    case Finished => s
  }

  function Rouse(th: Thread): Thread {
    if th.pc.StartSleep? then th.(pc := StartLoad) else th
  }

  function HostMove(s: State): (r: State)
    ensures |r.threads| == |s.threads|
  {
    match s.host
    case Arming => s.(start := 1, host := Waking)
    case Waking =>
      s.(host := Done,
         threads := seq(|s.threads|, t requires 0 <= t < |s.threads| => Rouse(s.threads[t])))
    case Done => s
  }

  function Next(s: State, a: Action, iterations: int): (r: State)
    ensures |r.threads| == |s.threads|
  {
    match a
    case Step(t) => if t < |s.threads| then ThreadStep(s, t, iterations) else s
    case HostStep => HostMove(s)
  }

  function After(n: nat, iterations: int, schedule: seq<Action>): (s: State)
    ensures |s.threads| == n
  {
    if schedule == [] then Init(n)
    else Next(After(n, iterations, schedule[..|schedule| - 1]), schedule[|schedule| - 1], iterations)
  }

  // ---- the invariant

  predicate Critical(pc: Pc) {
    pc.LoadCounter? || pc.StoreCounter? || pc.Release?
  }

  /** Awake and able to take a free lock, or about to wake somebody. */
  predicate Alert(pc: Pc) {
    pc.Cas? || pc.Wait? || pc.Notify?
  }

  function Total(threads: seq<Thread>): nat {
    if threads == [] then 0 else Total(threads[..|threads| - 1]) + threads[|threads| - 1].stores
  }

  predicate ThreadOk(s: State, t: nat, iterations: int)
    requires t < |s.threads|
  {
    var th := s.threads[t];
    && (Critical(th.pc) <==> s.holder == t)
    && (th.pc.Sleep? <==> t in s.waiters)
    && (th.pc.StoreCounter? ==> th.pc.current == s.counter)
    && th.stores == (if th.pc.Release? || th.pc.Notify? then th.i + 1 else th.i)
    && (th.pc.StartLoad? || th.pc.StartWait? || th.pc.StartSleep? ==> th.i == 0)
    && (Critical(th.pc) || Alert(th.pc) || th.pc.Sleep? ==> th.i < iterations)
    && (th.pc.Final? || th.pc.Finished? ==> th.i == if iterations < 0 then 0 else iterations)
    && (th.pc.StartSleep? ==> s.host != Done)
  }

  ghost predicate Inv(s: State, iterations: int) {
    && (s.lock == 0 || s.lock == 1) && (s.lock == 1 <==> 0 <= s.holder) && -1 <= s.holder < |s.threads|
    && (forall t :: 0 <= t < |s.threads| ==> ThreadOk(s, t, iterations))
    && (forall k :: 0 <= k < |s.waiters| ==> s.waiters[k] < |s.threads|)
    && (forall j, k :: 0 <= j < k < |s.waiters| ==> s.waiters[j] != s.waiters[k])
    && s.counter == Wrap(Total(s.threads))
    && (s.lock == 0 && s.waiters != [] ==> exists t :: 0 <= t < |s.threads| && Alert(s.threads[t].pc))
    && (s.host == Arming <==> s.start == 0)
  }

  /** Changing one thread changes the total by the difference of its stores. */
  lemma {:induction false} TotalUpdate(threads: seq<Thread>, t: nat, th: Thread)
    requires t < |threads|
    ensures Total(threads[t := th]) == Total(threads) - threads[t].stores + th.stores
  {
    var n := |threads| - 1;
    assert threads[t := th][..n] == if t < n then threads[..n][t := th] else threads[..n];
    if t < n { TotalUpdate(threads[..n], t, th); }
  }

  lemma {:induction false} TotalSame(a: seq<Thread>, b: seq<Thread>)
    requires |a| == |b| && forall t :: 0 <= t < |a| ==> a[t].stores == b[t].stores
    ensures Total(a) == Total(b)
  {
    if a != [] { TotalSame(a[..|a| - 1], b[..|b| - 1]); }
  }

  lemma {:induction false} TotalConstant(threads: seq<Thread>, each: nat)
    requires forall t :: 0 <= t < |threads| ==> threads[t].stores == each
    ensures Total(threads) == |threads| * each
  {
    if threads != [] { TotalConstant(threads[..|threads| - 1], each); }
  }

  lemma InitOk(n: nat, iterations: int)
    ensures Inv(Init(n), iterations)
  {
    TotalConstant(Init(n).threads, 0);
  }

  /** A wake-up removes the first waiter from the list, and nobody else. */
  lemma Dequeue(waiters: seq<nat>, u: nat)
    requires waiters != [] && forall j, k :: 0 <= j < k < |waiters| ==> waiters[j] != waiters[k]
    ensures u in waiters[1..] <==> u in waiters && u != waiters[0]
  {
    if u in waiters && u != waiters[0] {
      var k :| 0 <= k < |waiters| && waiters[k] == u;
      assert waiters[1..][k - 1] == u;
    }
  }

  lemma NotifyThreads(s: State, t: nat, iterations: int, u: nat)
    requires Inv(s, iterations) && t < |s.threads| && s.threads[t].pc.Notify? && u < |s.threads|
    ensures ThreadOk(ThreadStep(s, t, iterations), u, iterations)
  {
    assert ThreadOk(s, t, iterations) && ThreadOk(s, u, iterations);
    if s.waiters != [] {
      assert ThreadOk(s, s.waiters[0], iterations);
      Dequeue(s.waiters, u);
    }
  }

  lemma NotifyOk(s: State, t: nat, iterations: int)
    requires Inv(s, iterations) && t < |s.threads| && s.threads[t].pc.Notify?
    ensures Inv(ThreadStep(s, t, iterations), iterations)
  {
    var r := ThreadStep(s, t, iterations);
    TotalSame(s.threads, r.threads);
    forall u | 0 <= u < |r.threads| ensures ThreadOk(r, u, iterations) {
      NotifyThreads(s, t, iterations, u);
    }
    if s.waiters != [] {
      assert ThreadOk(s, s.waiters[0], iterations);
      assert Alert(r.threads[s.waiters[0]].pc);
    }
  }

  lemma StepThreads(s: State, t: nat, iterations: int, u: nat)
    requires Inv(s, iterations) && t < |s.threads| && !s.threads[t].pc.Notify? && u < |s.threads|
    ensures ThreadOk(ThreadStep(s, t, iterations), u, iterations)
  {
    assert ThreadOk(s, t, iterations) && ThreadOk(s, u, iterations);
  }

  lemma StepWaiters(s: State, t: nat, iterations: int)
    requires Inv(s, iterations) && t < |s.threads| && !s.threads[t].pc.Notify?
    ensures
      var r := ThreadStep(s, t, iterations);
      r.lock == 0 && r.waiters != [] ==> exists u :: 0 <= u < |r.threads| && Alert(r.threads[u].pc)
  {
    var r := ThreadStep(s, t, iterations);
    assert ThreadOk(s, t, iterations);
    if r.lock == 0 && r.waiters != [] {
      if s.lock == 1 {
        assert Alert(r.threads[t].pc);
      } else {
        var u :| 0 <= u < |s.threads| && Alert(s.threads[u].pc);
        assert Alert(r.threads[u].pc);
      }
    }
  }

  /** Every other step changes one thread and perhaps appends it to the waiters. */
  lemma StepOk(s: State, t: nat, iterations: int)
    requires Inv(s, iterations) && t < |s.threads| && !s.threads[t].pc.Notify?
    ensures Inv(ThreadStep(s, t, iterations), iterations)
  {
    var r := ThreadStep(s, t, iterations);
    assert ThreadOk(s, t, iterations);
    StepTotal(s, t, iterations);
    StepWaiters(s, t, iterations);
    forall u | 0 <= u < |r.threads| ensures ThreadOk(r, u, iterations) {
      StepThreads(s, t, iterations, u);
    }
  }

  lemma StepTotal(s: State, t: nat, iterations: int)
    requires Inv(s, iterations) && t < |s.threads| && !s.threads[t].pc.Notify?
    ensures var r := ThreadStep(s, t, iterations); r.counter == Wrap(Total(r.threads))
  {
    var r := ThreadStep(s, t, iterations);
    assert ThreadOk(s, t, iterations);
    TotalUpdate(s.threads, t, r.threads[t]);
    WrapAdd(Total(s.threads), 1);
  }

  lemma HostOk(s: State, iterations: int)
    requires Inv(s, iterations)
    ensures Inv(HostMove(s), iterations)
  {
    var r := HostMove(s);
    TotalSame(s.threads, r.threads);
    forall u | 0 <= u < |r.threads| ensures ThreadOk(r, u, iterations) {
      assert ThreadOk(s, u, iterations);
    }
    if r.lock == 0 && r.waiters != [] {
      var u :| 0 <= u < |s.threads| && Alert(s.threads[u].pc);
      assert Alert(r.threads[u].pc);
    }
  }

  lemma {:induction false} Always(n: nat, iterations: int, schedule: seq<Action>)
    ensures Inv(After(n, iterations, schedule), iterations)
  {
    if schedule == [] {
      InitOk(n, iterations);
    } else {
      var s, a := After(n, iterations, schedule[..|schedule| - 1]), schedule[|schedule| - 1];
      Always(n, iterations, schedule[..|schedule| - 1]);
      match a
      case HostStep => HostOk(s, iterations);
      case Step(t) =>
        if t < |s.threads| {
          if s.threads[t].pc.Notify? { NotifyOk(s, t, iterations); } else { StepOk(s, t, iterations); }
        }
    }
  }

  // ---- the promises

  /** Never two threads between their exchange and their release. */
  lemma {:induction false} MutualExclusion(n: nat, iterations: int, schedule: seq<Action>, t: nat, u: nat)
    requires t < n && u < n
    ensures
      var s := After(n, iterations, schedule);
      Critical(s.threads[t].pc) && Critical(s.threads[u].pc) ==> t == u
  {
    Always(n, iterations, schedule);
    assert ThreadOk(After(n, iterations, schedule), t, iterations);
    assert ThreadOk(After(n, iterations, schedule), u, iterations);
  }

  /** A free lock with sleepers always finds somebody awake to take it or about to notify. */
  lemma {:induction false} NoLostWakeup(n: nat, iterations: int, schedule: seq<Action>, sleeper: nat)
    requires sleeper < n
    ensures
      var s := After(n, iterations, schedule);
      s.lock == 0 && s.threads[sleeper].pc.Sleep? ==> exists t :: 0 <= t < n && Alert(s.threads[t].pc)
  {
    Always(n, iterations, schedule);
    assert ThreadOk(After(n, iterations, schedule), sleeper, iterations);
  }

  predicate Blocked(pc: Pc) {
    pc.Sleep? || pc.StartSleep? || pc.Finished?
  }

  /** While a thread sleeps on the lock, some thread is not blocked. */
  lemma SomebodyMoves(s: State, iterations: int, sleeper: nat)
    requires Inv(s, iterations) && sleeper < |s.threads| && s.threads[sleeper].pc.Sleep?
    ensures exists u :: 0 <= u < |s.threads| && !Blocked(s.threads[u].pc)
  {
    assert ThreadOk(s, sleeper, iterations);
    if s.lock == 1 {
      assert ThreadOk(s, s.holder, iterations);
      assert !Blocked(s.threads[s.holder].pc);
    } else {
      var u :| 0 <= u < |s.threads| && Alert(s.threads[u].pc);
      assert !Blocked(s.threads[u].pc);
    }
  }

  /** No deadlock: if neither the host nor any thread can move, every thread has finished. */
  lemma {:induction false} NoDeadlock(n: nat, iterations: int, schedule: seq<Action>, t: nat)
    requires t < n
    ensures
      var s := After(n, iterations, schedule);
      s.host.Done? && (forall u :: 0 <= u < n ==> Blocked(s.threads[u].pc)) ==> s.threads[t].pc.Finished?
  {
    Always(n, iterations, schedule);
    var s := After(n, iterations, schedule);
    assert ThreadOk(s, t, iterations);
    if s.threads[t].pc.Sleep? { SomebodyMoves(s, iterations, t); }
  }

  /** When every thread has finished, no increment was lost. */
  lemma {:induction false} FinalCounter(n: nat, iterations: int, schedule: seq<Action>)
    ensures
      var s := After(n, iterations, schedule);
      (forall t :: 0 <= t < n ==> s.threads[t].pc.Finished?) ==>
        s.counter == Wrap(n * if iterations < 0 then 0 else iterations)
  {
    Always(n, iterations, schedule);
    var s := After(n, iterations, schedule);
    if forall t :: 0 <= t < n ==> s.threads[t].pc.Finished? {
      forall t | 0 <= t < n ensures s.threads[t].stores == if iterations < 0 then 0 else iterations {
        assert ThreadOk(s, t, iterations);
      }
      TotalConstant(s.threads, if iterations < 0 then 0 else iterations);
    }
  }
}
