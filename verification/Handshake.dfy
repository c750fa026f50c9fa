/**
 `launch_workers`, as used by pool creation and by `restart_workers`: the ready handshake and the
 first epoch published after it.

 A worker loads its slot's epoch, stores -1 as its done word and notifies; the host waits until
 every done word is -1. The old workers of a restart are gone before the launch begins.
 */
module Handshake {
  import opened Int32
  import opened DispatchModel
  import opened DispatchControl
  import opened DispatchCancel
  import opened DispatchCoverage
  import opened DispatchFailure
  import DispatchRuns

  /** Looping is inside the wait loop; PickedUp has left it because its slot's epoch changed. */
  datatype Launch = Off | LoadEpoch | StoreDone(seen: int) | Looping(seen: int) | PickedUp

  /** Publish(id) has yet to store the new epoch into slot id; Open is `launch_workers` returned. */
  datatype Launcher = Start(id: nat) | Await(id: nat) | Open | Publish(id: nat)

  datatype Room = Room(host: Launcher, epochs: seq<int>, dones: seq<int>, workers: seq<Launch>)

  datatype Turn = Step(w: nat) | HostTurns

  function WorkerTurn(s: Room, w: nat): (r: Room)
    requires w < |s.workers| == |s.dones| == |s.epochs|
    ensures r.host == s.host && r.epochs == s.epochs && |r.workers| == |s.workers| && |r.dones| == |s.dones|
    ensures forall u :: 0 <= u < |s.dones| && u != w ==> r.dones[u] == s.dones[u] && r.workers[u] == s.workers[u]
  {
    match s.workers[w]
    case Off => s
    case LoadEpoch => s.(workers := s.workers[w := StoreDone(s.epochs[w])])
    case StoreDone(seen) => s.(dones := s.dones[w := -1], workers := s.workers[w := Looping(seen)])
    case Looping(seen) => if s.epochs[w] != seen then s.(workers := s.workers[w := PickedUp]) else s
    case PickedUp => s
  }

  /** After the handshake the host publishes the epoch that follows e, slot by slot. */
  function HostTurn(s: Room, e: int): (r: Room)
    requires |s.workers| == |s.dones| == |s.epochs|
    ensures |r.workers| == |r.dones| == |r.epochs| == |s.workers|
  {
    match s.host
    case Start(id) =>
      if id < |s.workers| then s.(host := Start(id + 1), workers := s.workers[id := LoadEpoch])
      else s.(host := Await(0))
    case Await(id) =>
      if id >= |s.workers| then s.(host := Open)
      else if s.dones[id] == -1 then s.(host := Await(id + 1)) else s
    case Open => s.(host := Publish(0))
    case Publish(id) =>
      if id < |s.workers| then s.(host := Publish(id + 1), epochs := s.epochs[id := NextEpoch(e)]) else s
  }

  function Turned(s: Room, e: int, a: Turn): (r: Room)
    requires |s.workers| == |s.dones| == |s.epochs|
    ensures |r.workers| == |r.dones| == |r.epochs| == |s.workers|
  {
    match a
    case Step(w) => if w < |s.workers| then WorkerTurn(s, w) else s
    case HostTurns => HostTurn(s, e)
  }

  /** A launch over slots that all carry epoch e and hold these done words. */
  function Launched(e: int, dones: seq<int>, schedule: seq<Turn>): (s: Room)
    ensures |s.workers| == |s.dones| == |s.epochs| == |dones|
  {
    if schedule == [] then Room(Start(0), seq(|dones|, _ => e), dones, seq(|dones|, _ => Off))
    else Turned(Launched(e, dones, schedule[..|schedule| - 1]), e, schedule[|schedule| - 1])
  }

  /** Past the handshake every worker must have recorded the epoch before the next one. */
  predicate Recorded(s: Room, e: int, w: nat)
    requires w < |s.workers|
  {
    s.host.Open? || s.host.Publish? ==> s.workers[w] == Looping(e) || (s.host.Publish? && s.workers[w].PickedUp?)
  }

  /** The worker took the newly published epoch for an old one and will never pick it up. */
  predicate Missed(s: Room, e: int, w: nat)
    requires w < |s.workers|
  {
    s.workers[w] == Looping(NextEpoch(e))
  }

  // ---- the handshake is sound when no done word was -1

  predicate WorkerSound(s: Room, e: int, dones: seq<int>, w: nat)
    requires w < |s.workers| == |s.dones| == |s.epochs| == |dones|
  {
    && (s.epochs[w] == e || (s.host.Publish? && s.epochs[w] == NextEpoch(e)))
    && (s.workers[w].Off? || s.workers[w].LoadEpoch? || s.workers[w].StoreDone? ==>
          s.dones[w] == dones[w] && !s.host.Open? && !s.host.Publish?)
    && (s.workers[w].StoreDone? || s.workers[w].Looping? ==> s.workers[w].seen == e)
    && (s.workers[w].PickedUp? ==> s.host.Publish?)
    && (s.host.Await? && w < s.host.id ==> s.workers[w].Looping?)
    && (s.host.Start? && s.host.id <= w ==> s.workers[w].Off?)
  }

  lemma {:induction false} LaunchSound(e: int, dones: seq<int>, schedule: seq<Turn>, w: nat)
    requires 0 <= e <= MAX && w < |dones| && dones[w] != -1
    ensures WorkerSound(Launched(e, dones, schedule), e, dones, w)
  {
    if schedule != [] {
      LaunchSound(e, dones, schedule[..|schedule| - 1], w);
    }
  }

  // ---- and misleading otherwise

  ghost predicate Occurs(e: int, dones: seq<int>, s: Room) {
    exists schedule :: Launched(e, dones, schedule) == s
  }

  lemma Turns(e: int, dones: seq<int>, s: Room, a: Turn) returns (r: Room)
    requires Occurs(e, dones, s)
    requires |s.workers| == |s.dones| == |s.epochs|
    ensures r == Turned(s, e, a) && Occurs(e, dones, r)
  {
    var schedule :| Launched(e, dones, schedule) == s;
    assert (schedule + [a])[..|schedule|] == schedule;
    r := Turned(s, e, a);
    assert Launched(e, dones, schedule + [a]) == r;
  }

  /** Worker u has been started and has not moved; its done word is still -1 from before. */
  predicate Laggard(s: Room, n: nat, u: nat) {
    |s.workers| == |s.dones| == |s.epochs| == n && u < n && s.workers[u].LoadEpoch? && s.dones[u] == -1
  }

  lemma {:induction false} StartAll(e: int, dones: seq<int>, s: Room, id: nat, u: nat) returns (r: Room)
    requires Occurs(e, dones, s) && |s.workers| == |s.dones| == |s.epochs| == |dones| && s.host == Start(id)
    requires id <= |dones| && u < |dones| && s.dones == dones && dones[u] == -1
    requires forall w :: 0 <= w < id ==> s.workers[w].LoadEpoch?
    ensures Occurs(e, dones, r) && r.host == Await(0) && Laggard(r, |dones|, u)
    ensures r.dones == dones && forall w :: 0 <= w < |dones| ==> r.workers[w].LoadEpoch?
    decreases |dones| - id
  {
    r := Turns(e, dones, s, HostTurns);
    if id < |dones| { r := StartAll(e, dones, r, id + 1, u); }
  }

  /** All others answer the handshake, and the host goes on past everybody. */
  lemma {:induction false} AwaitAll(e: int, dones: seq<int>, s: Room, id: nat, u: nat) returns (r: Room)
    requires Occurs(e, dones, s) && Laggard(s, |dones|, u) && s.host == Await(id) && id <= |dones|
    requires forall w :: id <= w < |dones| ==> s.workers[w].LoadEpoch?
    ensures Occurs(e, dones, r) && Laggard(r, |dones|, u) && r.host.Open?
    decreases |dones| - id
  {
    if id == |dones| {
      r := Turns(e, dones, s, HostTurns);
    } else {
      r := s;
      if id != u {
        r := Turns(e, dones, r, Step(id));
        r := Turns(e, dones, r, Step(id));
      }
      r := Turns(e, dones, r, HostTurns);
      r := AwaitAll(e, dones, r, id + 1, u);
    }
  }

  lemma {:induction false} PublishAll(e: int, dones: seq<int>, s: Room, id: nat, u: nat) returns (r: Room)
    requires Occurs(e, dones, s) && Laggard(s, |dones|, u) && s.host == Publish(id) && id <= |dones|
    requires id > u ==> s.epochs[u] == NextEpoch(e)
    ensures Occurs(e, dones, r) && Laggard(r, |dones|, u) && r.epochs[u] == NextEpoch(e)
    decreases |dones| - id
  {
    if id == |dones| {
      r := s;
    } else {
      r := Turns(e, dones, s, HostTurns);
      r := PublishAll(e, dones, r, id + 1, u);
    }
  }

  lemma Misled(e: int, dones: seq<int>, u: nat) returns (open: Room, lost: Room)
    requires u < |dones| && dones[u] == -1 && 0 <= e <= MAX
    ensures Occurs(e, dones, open) && u < |open.workers| && !Recorded(open, e, u)
    ensures Occurs(e, dones, lost) && u < |lost.workers| && Missed(lost, e, u)
  {
    var s := Launched(e, dones, []);
    assert Occurs(e, dones, s);
    s := StartAll(e, dones, s, 0, u);
    open := AwaitAll(e, dones, s, 0, u);
    lost := Turns(e, dones, open, HostTurns);
    lost := PublishAll(e, dones, lost, 0, u);
    lost := Turns(e, dones, lost, Step(u));
    lost := Turns(e, dones, lost, Step(u));
  }

  ghost predicate AlwaysRecorded(e: int, dones: seq<int>) {
    forall schedule, w :: 0 <= w < |dones| ==> Recorded(Launched(e, dones, schedule), e, w)
  }

  ghost predicate NeverMissed(e: int, dones: seq<int>) {
    forall schedule, w :: 0 <= w < |dones| ==> !Missed(Launched(e, dones, schedule), e, w)
  }

  /**
   The exact condition. On every interleaving a passed handshake means that every worker has
   recorded the current epoch, and the next published epoch reaches all of them, if and only if
   no slot's done word was -1 when the launch began.
   */
  lemma {:induction false} HandshakeExact(e: int, dones: seq<int>)
    requires 0 <= e <= MAX
    ensures AlwaysRecorded(e, dones) <==> forall w :: 0 <= w < |dones| ==> dones[w] != -1
    ensures NeverMissed(e, dones) <==> forall w :: 0 <= w < |dones| ==> dones[w] != -1
  {
    if forall w :: 0 <= w < |dones| ==> dones[w] != -1 {
      forall schedule, w | 0 <= w < |dones|
        ensures Recorded(Launched(e, dones, schedule), e, w) && !Missed(Launched(e, dones, schedule), e, w)
      {
        LaunchSound(e, dones, schedule, w);
      }
    } else {
      var u :| 0 <= u < |dones| && dones[u] == -1;
      var open, lost := Misled(e, dones, u);
      var first :| Launched(e, dones, first) == open;
      var second :| Launched(e, dones, second) == lost;
      assert !Recorded(Launched(e, dones, first), e, u) && Missed(Launched(e, dones, second), e, u);
    }
  }

  // ---- restarting a pool after a runtime failure

  ghost function DonesOf(s: State): seq<int> {
    seq(|s.outs|, w requires 0 <= w < |s.outs| => s.outs[w].done)
  }

  /** The control words a restart finds. */
  ghost function BootOf(s: State): Boot {
    Boot(s.epoch, s.cancelSeq, s.workerCount, s.slots, s.cursors)
  }

  /** Not the first dispatch since the last launch, or every worker has reported. */
  ghost predicate AllHaveReported(c: Config, s: State)
    requires WF(c, s)
  {
    s.hist.dispatches > 1 || forall w :: 0 <= w < c.workers ==> s.outs[w].done == s.epoch
  }

  lemma {:induction false} NoneReady(c: Config, s: State)
    requires Ctl(c, s) && (s.host.Failed? || s.host.Complete?)
    ensures |DonesOf(s)| == c.workers && 0 <= s.epoch <= MAX
    ensures AllHaveReported(c, s) <==> forall w :: 0 <= w < c.workers ==> DonesOf(s)[w] != -1
  {
    forall w | 0 <= w < c.workers
      ensures DonesOf(s)[w] == -1 <==> s.hist.dispatches == 1 && s.outs[w].done != s.epoch
    {
      Nearby(c, s, w);
    }
    if 0 < c.workers { Nearby(c, s, 0); }
  }

  /**
   A restart after a dispatch that failed or ended with a bad status is sound exactly when it was
   not the first dispatch since the last launch, or every worker had already reported.
   */
  lemma {:induction false} RestartSound(c: Config, data: seq<int>, schedule: seq<Action>)
    requires ValidConfig(c) && |data| == c.capacity
    ensures
      var s := After(c, data, schedule);
      s.host.Failed? || s.host.Complete? ==>
        && (AlwaysRecorded(s.epoch, DonesOf(s)) <==> AllHaveReported(c, s))
        && (NeverMissed(s.epoch, DonesOf(s)) <==> AllHaveReported(c, s))
  {
    DispatchRuns.Always(c, data, schedule);
    var s := After(c, data, schedule);
    if s.host.Failed? || s.host.Complete? {
      NoneReady(c, s);
      HandshakeExact(s.epoch, DonesOf(s));
    }
  }

  /** The pool has failed, and a restart can lose the next epoch although its handshake passes. */
  ghost predicate Misleading(s: State) {
    && s.host.Failed? && !AlwaysRecorded(s.epoch, DonesOf(s)) && !NeverMissed(s.epoch, DonesOf(s))
  }

  /** This happens: in every pool of several workers, for every job with something to do, on some schedule. */
  lemma {:induction false} RestartCanMislead(c: Config, data: seq<int>, job: Job)
    requires ValidConfig(c) && |data| == c.capacity && 2 <= c.workers && ValidJob(c, job) && Resolves(c, job)
    requires job.grain == 0 || job.bounds[0] < job.bounds[c.workers]
    ensures exists schedule :: After(c, data, schedule).job == job && Misleading(After(c, data, schedule))
  {
    var u := 0;
    if job.grain > 0 { u := ShardOf(job.bounds, c.workers, job.bounds[0]); }
    var schedule := FirstFailure(c, data, job, u);
    var s, other := After(c, data, schedule), if u == 0 then 1 else 0;
    assert DonesOf(s)[other] == -1;
    DispatchRuns.Always(c, data, schedule);
    HandshakeExact(s.epoch, DonesOf(s));
    assert s.job == job && Misleading(s);
  }

  // ---- a passed handshake and the protocol model meet

  /** What the launch left is what the protocol model starts from. */
  ghost predicate Meets(room: Room, s: State, w: nat)
    requires w < |room.workers| == |room.dones| == |room.epochs| == |s.workers| == |s.outs| == |s.slots|
  {
    && room.dones[w] == s.outs[w].done == -1 && room.epochs[w] == s.slots[w].epoch
    && room.workers[w] == Looping(s.workers[w].seen)
  }

  /** A launch over slots without -1 ends, at its open handshake, in the initial state of the model. */
  lemma {:induction false} OpenIsInit(c: Config, data: seq<int>, dones: seq<int>, launch: seq<Turn>)
    requires ValidConfig(c) && |data| == c.capacity && |dones| == c.workers
    requires forall w :: 0 <= w < c.workers ==> dones[w] != -1
    ensures
      var room := Launched(c.boot.epoch, dones, launch);
      room.host.Open? ==> forall w :: 0 <= w < c.workers ==> Meets(room, Init(c, data), w)
  {
    var room := Launched(c.boot.epoch, dones, launch);
    if room.host.Open? {
      forall w | 0 <= w < c.workers ensures Meets(room, Init(c, data), w) {
        LaunchSound(c.boot.epoch, dones, launch, w);
        DoneAtOpen(c.boot.epoch, dones, launch, w);
      }
    }
  }

  /** Past its store every worker's done word is -1. */
  lemma {:induction false} DoneAtOpen(e: int, dones: seq<int>, launch: seq<Turn>, w: nat)
    requires 0 <= e <= MAX && w < |dones|
    ensures var s := Launched(e, dones, launch); s.workers[w].Looping? || s.workers[w].PickedUp? ==> s.dones[w] == -1
  {
    if launch != [] { DoneAtOpen(e, dones, launch[..|launch| - 1], w); }
  }

  /**
   What a failed or finished dispatch leaves is a valid start for the restarted pool, and when the
   restart is sound its open handshake is the initial state over the very data that was left.
   */
  lemma {:induction false} RestartBoots(c: Config, data: seq<int>, schedule: seq<Action>, launch: seq<Turn>)
    requires ValidConfig(c) && |data| == c.capacity
    ensures
      var s := After(c, data, schedule);
      s.host.Failed? || s.host.Complete? ==>
        var restarted, room := c.(boot := BootOf(s)), Launched(s.epoch, DonesOf(s), launch);
        && ValidConfig(restarted) && |room.workers| == |room.dones| == |room.epochs| == c.workers
        && (AlwaysRecorded(s.epoch, DonesOf(s)) && room.host.Open? ==>
              forall w :: 0 <= w < c.workers ==> Meets(room, Init(restarted, s.data), w))
  {
    DispatchRuns.Always(c, data, schedule);
    var s := After(c, data, schedule);
    if s.host.Failed? || s.host.Complete? {
      forall v | 0 <= v < c.workers ensures s.slots[v].epoch == s.epoch {
        Nearby(c, s, v);
      }
      HandshakeExact(s.epoch, DonesOf(s));
      if AlwaysRecorded(s.epoch, DonesOf(s)) { OpenIsInit(c.(boot := BootOf(s)), s.data, DonesOf(s), launch); }
    }
  }
}
