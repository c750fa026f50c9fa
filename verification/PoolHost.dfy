/**
 The host's `Pool` object (host_client.mbt): its fields and control words as its methods leave them
 when the workers stand still. HostAlone ties `StartRun` to the host steps of the protocol model.
 */
module PoolHost {
  import opened Int32
  import opened DispatchModel
  import opened DispatchOutcome
  import opened Partition
  import opened Wrappers

  /** What `start_run` answers: the epoch it published, or the error it raised. */
  datatype Outcome = Started(epoch: int) | WorkerFailed(message: string) | Closed | InvalidArgument

  /** What one scan of `wait_run` finds. */
  datatype Scan = Finished | Failure(worker: nat) | Pending(worker: nat)

  // The words of a slot (protocol.mbt); the request number and the worker count live in slot 0.
  const SLOT_LENGTH := 16
  const EPOCH := 0
  const DONE_EPOCH := 1
  const RANGE_START := 2
  const RANGE_END := 3
  const ARGUMENT := 4
  const STOP := 5
  const KERNEL_ID := 6
  const LAYOUT_HASH := 7
  const STATUS := 8
  const DYNAMIC_CURSOR := 9
  const GRAIN := 10
  const CANCEL_SEQUENCE := 11
  const CANCEL_BASELINE := 12
  const RESULT := 13
  const ELAPSED_US := 14
  const WORKER_COUNT := 15

  // ---- control words in the vocabulary of the protocol model

  function SlotOf(control: seq<int>, id: nat): Slot
    requires (id + 1) * SLOT_LENGTH <= |control|
  {
    var b := id * SLOT_LENGTH;
    Slot(control[b + EPOCH], control[b + RANGE_START], control[b + RANGE_END], control[b + ARGUMENT],
        control[b + KERNEL_ID], control[b + LAYOUT_HASH],
         control[b + GRAIN], control[b + CANCEL_BASELINE], control[b + STOP])
  }

  function OutOf(control: seq<int>, id: nat): Out
    requires (id + 1) * SLOT_LENGTH <= |control|
  {
    var b := id * SLOT_LENGTH;
    Out(control[b + DONE_EPOCH], control[b + STATUS], control[b + RESULT], control[b + ELAPSED_US])
  }

  /** The outcome words of every worker. */
  function Outs(control: seq<int>, workers: nat): (outs: seq<Out>)
    requires workers * SLOT_LENGTH <= |control|
    ensures |outs| == workers
    ensures forall id :: 0 <= id < workers ==> outs[id] == OutOf(control, id)
  {
    seq(workers, id requires 0 <= id < workers => OutOf(control, id))
  }

  function CursorOf(control: seq<int>, id: nat): int
    requires (id + 1) * SLOT_LENGTH <= |control|
  {
    control[id * SLOT_LENGTH + DYNAMIC_CURSOR]
  }

  /** The slot that a published dispatch leaves. */
  function SlotFor(job: Job, epoch: int, baseline: int, id: nat): Slot
    requires id + 1 < |job.bounds|
  {
    Slot(epoch, job.bounds[id], job.bounds[id + 1], job.argument, job.kernelId, job.layoutHash, job.grain, baseline, 0)
  }

  /** Slot id carries this descriptor and fresh outcome words; its done word is still the worker's. */
  predicate Carries(control: seq<int>, before: seq<int>, slot: Slot, id: nat)
    requires (id + 1) * SLOT_LENGTH <= |control| == |before|
  {
    && SlotOf(control, id) == slot
    && OutOf(control, id) == Out(OutOf(before, id).done, OK, 0, 0)
    && CursorOf(control, id) == slot.start
  }

  /** The first n slots carry the dispatch. */
  ghost predicate AllCarry(control: seq<int>, before: seq<int>, job: Job, epoch: int, baseline: int, n: nat)
    requires n * SLOT_LENGTH <= |control| == |before| && n < |job.bounds|
  {
    forall v :: 0 <= v < n ==> Carries(control, before, SlotFor(job, epoch, baseline, v), v)
  }

  /** Publishing the next slot leaves the slots before it alone: distinct slots have distinct words. */
  lemma {:induction false} OneMoreCarries(control: seq<int>, later: seq<int>, before: seq<int>, job: Job, epoch: int,
                                          baseline: int, n: nat)
    requires (n + 1) * SLOT_LENGTH <= |control| == |later| == |before| && n + 1 < |job.bounds|
    requires AllCarry(control, before, job, epoch, baseline, n)
    requires forall x :: 0 <= x < n * SLOT_LENGTH ==> later[x] == control[x]
    requires Carries(later, control, SlotFor(job, epoch, baseline, n), n)
    requires control[n * SLOT_LENGTH + DONE_EPOCH] == before[n * SLOT_LENGTH + DONE_EPOCH]
    ensures AllCarry(later, before, job, epoch, baseline, n + 1)
  {
    forall v | 0 <= v < n ensures Carries(later, before, SlotFor(job, epoch, baseline, v), v) {
      assert Carries(control, before, SlotFor(job, epoch, baseline, v), v);
    }
  }

  class Pool {
    const workers: nat
    const capacity: int
    const control: array<int>
    var epoch: int
    var activeEpoch: int
    var cancelSequence: int
    var failure: Option<string>
    var closed: bool
    var weights: seq<real>
    var alive: seq<bool>

    ghost predicate Valid()
      reads this
    {
      && 0 < workers && control.Length == workers * SLOT_LENGTH && 0 <= capacity <= MAX
      && 0 <= epoch <= MAX && 0 <= activeEpoch <= MAX && 0 <= cancelSequence <= MAX
      && |weights| == workers && (forall id :: 0 <= id < workers ==> weights[id] > 0.0)
      && |alive| == workers && (failure.Some? ==> activeEpoch == 0 && AllTerminated())
    }

    /** No worker runs any more. */
    predicate AllTerminated()
      reads this
    {
      forall id :: 0 <= id < |alive| ==> !alive[id]
    }

    /** A poisoned pool stays poisoned with its first message, and its control words stay as they are. */
    twostate predicate StaysPoisoned()
      reads this, control
    {
      old(failure).Some? ==> failure == old(failure) && control[..] == old(control[..])
    }

    /** The first nine of a slot's thirteen stores, in program order. */
    method WriteTask(id: nat, start: int, end: int, argument: int, kernelId: int, layoutHash: int)
      requires Valid() && id < workers
      modifies control
      ensures var b := id * SLOT_LENGTH;
        && control[b + RANGE_START] == start && control[b + RANGE_END] == end && control[b + ARGUMENT] == argument
        && control[b + KERNEL_ID] == kernelId && control[b + LAYOUT_HASH] == layoutHash && control[b + STATUS] == OK
        && control[b + RESULT] == 0 && control[b + ELAPSED_US] == 0 && control[b + DYNAMIC_CURSOR] == start
        && control[b + DONE_EPOCH] == old(control[b + DONE_EPOCH])
            && control[b + CANCEL_SEQUENCE] == old(control[b + CANCEL_SEQUENCE])
      ensures forall x :: 0 <= x < control.Length && !(id * SLOT_LENGTH <= x < id * SLOT_LENGTH + 15) ==>
        control[x] == old(control[x])
    {
      var b := id * SLOT_LENGTH;
      control[b + RANGE_START] := start;
      control[b + RANGE_END] := end;
      control[b + ARGUMENT] := argument;
      control[b + KERNEL_ID] := kernelId;
      control[b + LAYOUT_HASH] := layoutHash;
      control[b + STATUS] := OK;
      control[b + RESULT] := 0;
      control[b + ELAPSED_US] := 0;
      control[b + DYNAMIC_CURSOR] := start;
    }

    /** All thirteen, the epoch last. */
    method WriteSlot(id: nat, start: int, end: int, argument: int, kernelId: int, layoutHash: int, grain: int)
      requires Valid() && id < workers
      modifies control
      ensures Carries(control[..], old(control[..]),
                      Slot(epoch, start, end, argument, kernelId, layoutHash, grain, cancelSequence, 0), id)
      ensures forall x :: 0 <= x < control.Length && !(id * SLOT_LENGTH <= x < id * SLOT_LENGTH + 15) ==>
        control[x] == old(control[x])
      ensures control[id * SLOT_LENGTH + CANCEL_SEQUENCE] == old(control[id * SLOT_LENGTH + CANCEL_SEQUENCE])
    {
      WriteTask(id, start, end, argument, kernelId, layoutHash);
      var b := id * SLOT_LENGTH;
      control[b + GRAIN] := grain;
      control[b + CANCEL_BASELINE] := cancelSequence;
      control[b + STOP] := 0;
      control[b + EPOCH] := epoch;
    }

    /** The cuts of a range under the pool's weights. */
    ghost function BoundsFor(fl: real -> real, start: int, end: int): (bounds: seq<int>)
      requires Valid() && Rounding(fl)
      reads this
      ensures |bounds| == workers + 1
    {
      TotalPositive(fl, weights);
      Cuts(fl, start, end, weights)
    }

    /** The dispatch that a call of `start_run` with these arguments describes. */
    ghost function JobFor(fl: real -> real, start: int, end: int, argument: int, kernelId: int, layoutHash: int,
                          grain: int): (job: Job)
      requires Valid() && Rounding(fl)
      reads this
      ensures |job.bounds| == workers + 1
    {
      Job(BoundsFor(fl, start, end), argument, kernelId, layoutHash, grain)
    }

    /** One round of the loop of `start_run`: cut the range for one worker and store its slot. */
    method PublishSlot(fl: real -> real, id: nat, start: int, end: int, argument: int, kernelId: int, layoutHash: int,
                       grain: int)
      requires Valid() && Cuttable(fl, start, end, weights) && id < workers
      modifies control
      ensures Carries(control[..], old(control[..]),
                      SlotFor(JobFor(fl, start, end, argument, kernelId, layoutHash, grain), epoch, cancelSequence,
                          id), id)
      ensures forall x :: 0 <= x < control.Length && !(id * SLOT_LENGTH <= x < id * SLOT_LENGTH + 15) ==>
        control[x] == old(control[x])
      ensures control[id * SLOT_LENGTH + CANCEL_SEQUENCE] == old(control[id * SLOT_LENGTH + CANCEL_SEQUENCE])
    {
      ghost var slot := SlotFor(JobFor(fl, start, end, argument, kernelId, layoutHash, grain), epoch, cancelSequence,
          id);
      var workerStart, workerEnd := PartitionWeighted(fl, start, end, id, weights);
      assert slot == Slot(epoch, workerStart, workerEnd, argument, kernelId, layoutHash, grain, cancelSequence, 0);
      WriteSlot(id, workerStart, workerEnd, argument, kernelId, layoutHash, grain);
      assert Carries(control[..], old(control[..]), slot, id);
    }

    /** The loop of `start_run`: one slot after the other. */
    method PublishAll(fl: real -> real, start: int, end: int, argument: int, kernelId: int, layoutHash: int, grain: int)
      requires Valid() && Cuttable(fl, start, end, weights)
      modifies control
      ensures control[WORKER_COUNT] == workers && control[CANCEL_SEQUENCE] == old(control[CANCEL_SEQUENCE])
      ensures AllCarry(control[..], old(control[..]), JobFor(fl, start, end, argument, kernelId, layoutHash, grain),
                       epoch, cancelSequence, workers)
    {
      ghost var job := JobFor(fl, start, end, argument, kernelId, layoutHash, grain);
      control[WORKER_COUNT] := workers;
      for id := 0 to workers
        invariant control[WORKER_COUNT] == workers && control[CANCEL_SEQUENCE] == old(control[CANCEL_SEQUENCE])
        invariant forall x :: id * SLOT_LENGTH <= x < control.Length && x != WORKER_COUNT ==>
            control[x] == old(control[x])
        invariant AllCarry(control[..], old(control[..]), job, epoch, cancelSequence, id)
      {
        ghost var before := control[..];
        PublishSlot(fl, id, start, end, argument, kernelId, layoutHash, grain);
        OneMoreCarries(before, control[..], old(control[..]), job, epoch, cancelSequence, id);
      }
    }

    /**
     Refuses in the order failure, closed, range, grain, and then changes nothing; otherwise publishes
     the next epoch to every slot over the cuts of the range, and leaves the request word alone.
     */
    method StartRun(fl: real -> real, start: int, end: int, argument: int, kernelId: int, layoutHash: int, grain: int)
      returns (r: Outcome)
      requires Valid() && Rounding(fl)
      modifies this`epoch, this`activeEpoch, control
      ensures Valid() && StaysPoisoned()
      ensures failure.Some? ==> r == Outcome.WorkerFailed(failure.value)
      ensures failure.None? && closed ==> r == Closed
      ensures failure.None? && !closed ==>
        r == if 0 <= start <= end <= capacity && 0 <= grain then Started(epoch) else InvalidArgument
      ensures !r.Started? ==> epoch == old(epoch) && activeEpoch == old(activeEpoch) && control[..] == old(control[..])
      ensures r.Started? ==>
        && epoch == NextEpoch(old(epoch)) == activeEpoch && 0 < epoch != old(epoch)
        && control[WORKER_COUNT] == workers && control[CANCEL_SEQUENCE] == old(control[CANCEL_SEQUENCE])
        && AllCarry(control[..], old(control[..]), JobFor(fl, start, end, argument, kernelId, layoutHash, grain),
                    epoch, cancelSequence, workers)
    {
      if failure.Some? { return Outcome.WorkerFailed(failure.value); }
      if closed { return Closed; }
      if start < 0 || end < start || end > capacity { return InvalidArgument; }
      if grain < 0 { return InvalidArgument; }
      epoch := if epoch == MAX then 1 else epoch + 1;
      activeEpoch := epoch;
      PublishAll(fl, start, end, argument, kernelId, layoutHash, grain);
      r := Started(epoch);
    }

    /** One cancellation request: refused when nothing is active, otherwise a new request number. */
    method CancelActive() returns (requested: bool)
      requires Valid()
      modifies this`cancelSequence, control
      ensures Valid() && StaysPoisoned()
      ensures requested == (!closed && failure.None? && activeEpoch != 0)
      ensures !requested ==> cancelSequence == old(cancelSequence) && control[..] == old(control[..])
      ensures requested ==> cancelSequence == NextEpoch(old(cancelSequence)) != old(cancelSequence)
                            && control[..] == old(control[..])[CANCEL_SEQUENCE := cancelSequence]
    {
      if closed || failure.Some? || activeEpoch == 0 { return false; }
      cancelSequence := if cancelSequence == MAX then 1 else cancelSequence + 1;
      control[CANCEL_SEQUENCE] := cancelSequence;
      requested := true;
    }

    method TerminateWorkers()
      requires Valid()
      modifies this`alive
      ensures Valid() && AllTerminated()
    {
      for id := 0 to workers
        invariant Valid() && forall v :: 0 <= v < id ==> !alive[v]
      {
        alive := alive[id := false];
      }
    }

    /** The first failure is kept, and leaves no worker running. */
    method Poison(message: string)
      requires Valid()
      modifies this`failure, this`activeEpoch, this`alive
      ensures Valid() && StaysPoisoned()
      ensures failure == if old(failure).Some? then old(failure) else Some(message)
      ensures activeEpoch == 0 && AllTerminated()
    {
      if failure.None? {
        TerminateWorkers();
        failure := Some(message);
        activeEpoch := 0;
      }
    }

    /**
     `recover_runtime_failure`: poison the pool, or replace every worker and keep everything else, epoch
     and weights included. `launched` is the outcome of `launch_workers`.
     */
    method Recover(restart: bool, launched: bool, message: string)
      requires Valid() && failure.None?
      modifies this`failure, this`activeEpoch, this`alive
      ensures Valid() && activeEpoch == 0
      ensures failure == if !restart then Some(message)
                         else if launched then None else Some(message + "; Worker restart failed")
      ensures restart && launched ==> forall id :: 0 <= id < workers ==> alive[id]
    {
      if !restart {
        Poison(message);
      } else {
        TerminateWorkers();
        activeEpoch := 0;
        if launched {
          alive := seq(workers, _ => true);
        } else {
          Poison(message + "; Worker restart failed");
        }
      }
    }

    method FinishRun(finished: int)
      requires Valid()
      modifies this`activeEpoch
      ensures Valid() && StaysPoisoned()
      ensures activeEpoch == if old(activeEpoch) == finished then 0 else old(activeEpoch)
    {
      if activeEpoch == finished { activeEpoch := 0; }
    }

    /** The lowest worker whose status is not OK, or none. */
    method FirstFailedStatus() returns (worker: int, status: int)
      requires Valid()
      ensures worker == -1 ==> status == OK && forall v :: 0 <= v < workers ==> OutOf(control[..], v).status == OK
      ensures worker != -1 ==> 0 <= worker < workers && OutOf(control[..], worker).status == status != OK
                               && forall v :: 0 <= v < worker ==> OutOf(control[..], v).status == OK
    {
      for id := 0 to workers
        invariant forall v :: 0 <= v < id ==> OutOf(control[..], v).status == OK
      {
        status := control[id * SLOT_LENGTH + STATUS];
        if status != OK { return id, status; }
      }
      return -1, OK;
    }

    /** `first_failed_status` and `worker_status_error` after a dispatch: what its caller is told. */
    method Conclude() returns (verdict: Verdict)
      requires Valid()
      ensures verdict == Judge(Outs(control[..], workers), 0)
    {
      var worker, status := FirstFailedStatus();
      ghost var outs := Outs(control[..], workers);
      JudgedBy(outs, 0);
      if worker < 0 { return Returned; }
      JudgedFirst(outs, 0, worker);
      verdict := if status == CANCELLED then Cancelled else Verdict.WorkerFailed(worker, status);
    }

    /** Worker v has reported a runtime failure for this epoch. */
    predicate Crashed(running: int, v: nat)
      requires control.Length == workers * SLOT_LENGTH && v < workers
      reads control
    {
      OutOf(control[..], v).done == running && OutOf(control[..], v).status == RUNTIME_FAILED
    }

    /** One pass of `wait_run` over standing words: the first failure, else the first missing done word. */
    method ScanRun(running: int) returns (scan: Scan)
      requires Valid()
      ensures scan.Finished? <==> forall v :: 0 <= v < workers ==>
        OutOf(control[..], v).done == running && !Crashed(running, v)
      ensures scan.Failure? ==> scan.worker < workers && Crashed(running, scan.worker)
                                && forall v :: 0 <= v < scan.worker ==> !Crashed(running, v)
      ensures scan.Pending? ==> scan.worker < workers && OutOf(control[..], scan.worker).done != running
                                && forall v :: 0 <= v < scan.worker ==> OutOf(control[..], v).done == running
      ensures !scan.Failure? ==> forall v :: 0 <= v < workers ==> !Crashed(running, v)
    {
      var pending: nat := workers;
      for id := 0 to workers
        invariant pending < id || pending == workers
        invariant pending < id ==> OutOf(control[..], pending).done != running
        invariant forall v :: 0 <= v < id && v < pending ==> OutOf(control[..], v).done == running
        invariant forall v :: 0 <= v < id ==> !Crashed(running, v)
      {
        if control[id * SLOT_LENGTH + DONE_EPOCH] == running {
          if control[id * SLOT_LENGTH + STATUS] == RUNTIME_FAILED {
            assert Crashed(running, id);
            return Failure(id);
          }
        } else if pending == workers {
          pending := id;
        }
      }
      scan := if pending == workers then Finished else Pending(pending);
    }

    /** The weight of one worker after the dispatch whose words stand in its slot. */
    ghost function NewWeight(fl: real -> real, id: nat, weight: real): real
      requires control.Length == workers * SLOT_LENGTH && id < workers
      reads control
    {
      Blend(fl, weight, SlotOf(control[..], id).end - SlotOf(control[..], id).start, OutOf(control[..], id).elapsed)
    }

    method Reweigh(fl: real -> real, id: nat) returns (weight: real)
      requires Valid() && Rounding(fl) && id < workers
      ensures weight == NewWeight(fl, id, weights[id]) && weight > 0.0
    {
      var length := control[id * SLOT_LENGTH + RANGE_END] - control[id * SLOT_LENGTH + RANGE_START];
      var elapsed := control[id * SLOT_LENGTH + ELAPSED_US];
      BlendPositive(fl, weights[id], length, elapsed);
      weight := weights[id];
      if length > 0 && elapsed > 0 {
        var observed := fl(length as real / elapsed as real);
        weight := fl(fl(weights[id] * 0.75) + fl(observed * 0.25));
      }
    }

    /** Every weight moves by its own slot's length and elapsed time, and stays positive. */
    method RecordWorkerWeights(fl: real -> real)
      requires Valid() && Rounding(fl)
      modifies this`weights
      ensures Valid() && StaysPoisoned()
      ensures forall id :: 0 <= id < workers ==> weights[id] == NewWeight(fl, id, old(weights)[id])
    {
      for id := 0 to workers
        invariant Valid()
        invariant forall v :: id <= v < workers ==> weights[v] == old(weights)[v]
        invariant forall v :: 0 <= v < id ==> weights[v] == NewWeight(fl, v, old(weights)[v])
      {
        var weight := Reweigh(fl, id);
        weights := weights[id := weight];
      }
    }
  }

  // ---- the same stores as steps of the protocol model

  /** Slot id, its outcome words and its cursor after the first k stores of its round. */
  function SlotAfter(slot: Slot, job: Job, epoch: int, baseline: int, id: nat, k: nat): Slot
    requires id + 1 < |job.bounds|
  {
    Slot(if 12 < k then epoch else slot.epoch, if 0 < k then job.bounds[id] else slot.start,
         if 1 < k then job.bounds[id + 1] else slot.end, if 2 < k then job.argument else slot.argument,
         if 3 < k then job.kernelId else slot.kernelId, if 4 < k then job.layoutHash else slot.layoutHash,
         if 9 < k then job.grain else slot.grain, if 10 < k then baseline else slot.baseline,
         if 11 < k then 0 else slot.stop)
  }

  function OutAfter(out: Out, k: nat): Out {
    Out(out.done, if 5 < k then OK else out.status, if 6 < k then 0 else out.result, if 7 < k then 0 else out.elapsed)
  }

  /** How many of slot v's stores the host has made. */
  function StoresMade(host: Host, v: nat): nat {
    match host
    case Count => 0
    case Write(id, k) => if v < id then 13 else if v == id then k else 0
    case _ => 13
  }

  /** s is s0 after part of the loop of `start_run`. */
  ghost predicate Written(c: Config, s0: State, s: State)
    requires WF(c, s0) && WF(c, s) && |s0.job.bounds| == c.workers + 1
  {
    && s.job == s0.job && s.epoch == s0.epoch && s.cancelSeq == s0.cancelSeq && s.data == s0.data
    && forall v :: 0 <= v < c.workers ==> WrittenSlot(s0, s, v)
  }

  ghost predicate WrittenSlot(s0: State, s: State, v: nat)
    requires v < |s.slots| == |s.outs| == |s.cursors| && v < |s0.slots| == |s0.outs| == |s0.cursors|
    requires v + 1 < |s0.job.bounds|
  {
    && s.slots[v] == SlotAfter(s0.slots[v], s0.job, s0.epoch, s0.cancelSeq, v, StoresMade(s.host, v))
    && s.outs[v] == OutAfter(s0.outs[v], StoresMade(s.host, v))
    && s.cursors[v] == if 8 < StoresMade(s.host, v) then s0.job.bounds[v] else s0.cursors[v]
  }

  ghost function HostSteps(c: Config, s: State, n: nat): (t: State)
    requires WF(c, s)
    ensures WF(c, t)
    decreases n
  {
    if n == 0 then s else HostSteps(c, HostMove(c, s), n - 1)
  }

  lemma {:induction false} StoreNext(c: Config, s0: State, s: State, v: nat)
    requires WF(c, s0) && WF(c, s) && |s0.job.bounds| == c.workers + 1 && s.job == s0.job && s.epoch == s0.epoch
    requires s.cancelSeq == s0.cancelSeq && v < c.workers && WrittenSlot(s0, s, v)
    requires s.host.Count? || (s.host.Write? && s.host.id < c.workers && s.host.k <= 13)
    ensures WrittenSlot(s0, HostMove(c, s), v)
  {}

  lemma {:induction false} HostFinishes(c: Config, s0: State, s: State) returns (n: nat)
    requires WF(c, s0) && WF(c, s) && |s0.job.bounds| == c.workers + 1 && 0 < c.workers && Written(c, s0, s)
    requires s.host.Count? || (s.host.Write? && s.host.id < c.workers && s.host.k <= 13)
    ensures var t := HostSteps(c, s, n); t.host == ScanDone(0, false) && Written(c, s0, t)
    decreases if s.host.Count? then c.workers + 1 else c.workers - s.host.id, if s.host.Count? then 0 else 14 - s.host.k
  {
    var next := HostMove(c, s);
    forall v | 0 <= v < c.workers ensures WrittenSlot(s0, next, v) { StoreNext(c, s0, s, v); }
    if next.host.ScanDone? {
      n := 1;
      assert HostSteps(c, s, 1) == HostSteps(c, next, 0);
    } else {
      n := HostFinishes(c, s0, next);
      n := n + 1;
    }
  }

  /**
   The host steps of the model, taken alone from the start of a dispatch, leave in every slot exactly
   what `StartRun` leaves in the control words.
   */
  lemma {:induction false} HostAlone(c: Config, s: State, job: Job) returns (n: nat)
    requires WF(c, s) && s.host.Ready? && ValidJob(c, job) && 0 < c.workers
    ensures
      var t := HostSteps(c, StartJob(c, s, job), n);
      && t.host == ScanDone(0, false) && t.epoch == NextEpoch(s.epoch) && t.data == s.data
      && forall v :: 0 <= v < c.workers ==>
           && t.slots[v] == SlotFor(job, t.epoch, s.cancelSeq, v)
           && t.outs[v] == Out(s.outs[v].done, OK, 0, 0)
           && t.cursors[v] == job.bounds[v]
  {
    var s0 := StartJob(c, s, job);
    n := HostFinishes(c, s0, s0);
    var t := HostSteps(c, s0, n);
    forall v | 0 <= v < c.workers
      ensures t.slots[v] == SlotFor(job, t.epoch, s.cancelSeq, v) && t.outs[v] == Out(s.outs[v].done, OK, 0, 0)
      ensures t.cursors[v] == job.bounds[v]
    {
      assert WrittenSlot(s0, t, v);
    }
  }
}
