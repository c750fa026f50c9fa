/**
 A first dispatch can fail before every worker has reported: one worker throws in its kernel while
 another has not even noticed the epoch. Holds for every pool of several workers and every job that
 gives some worker something to do.
 */
module DispatchFailure {
  import opened Int32
  import opened Kernels
  import opened DispatchModel
  import opened DispatchControl
  import opened DispatchCoverage
  import opened DispatchLiveness
  import opened DispatchWindow
  import DispatchRuns

  /** Nobody but worker u has moved. */
  ghost predicate Alone(c: Config, s: State, t: State, u: nat) {
    && WF(c, s) && WF(c, t) && u < c.workers && t.host == s.host && t.job == s.job && t.epoch == s.epoch
    && t.hist.dispatches == s.hist.dispatches && t.hist.baseline == s.hist.baseline && t.cancelSeq == s.cancelSeq
    && t.workers == s.workers[u := t.workers[u]]
  }

  lemma {:induction false} AloneThen(c: Config, s: State, t: State, r: State, u: nat)
    requires Alone(c, s, t, u) && Alone(c, t, r, u)
    ensures Alone(c, s, r, u)
  {}

  /** Worker u is on its way into the kernel, or there. */
  ghost predicate Underway(c: Config, s: State, u: nat)
    requires WF(c, s) && u < c.workers
  {
    var wk := s.workers[u];
    && Resolves(c, s.job) && |s.job.bounds| == c.workers + 1 && s.cancelSeq == s.hist.baseline
    && (InKernel(wk.pc)
        || ((s.job.grain > 0 ==> s.cursors[u] < s.job.bounds[u + 1])
            && (Waiting(wk.pc) || wk.pc.PubNotify? || wk.pc.Read? || AtOwn(s.cursors[u], wk))))
  }

  /** Before its first claim from its own shard. */
  predicate AtOwn(cursor: int, wk: Worker) {
    wk.status == OK && match wk.pc
      case Scan(offset) => offset == 0
      case Probe(offset, _) => offset == 0
      case LoadCursor(offset, _) => offset == 0
      case Cas(offset, _, current, _) => offset == 0 && current == cursor
      case _ => false
  }

  lemma {:induction false} UnderwayWait(c: Config, s: State, u: nat)
    requires Owing(c, s, u) && Underway(c, s, u) && Waiting(s.workers[u].pc)
    ensures Underway(c, WaitStep(c, s, u), u)
  {}

  lemma {:induction false} UnderwayRead(c: Config, s: State, u: nat, k: nat)
    requires Owing(c, s, u) && Underway(c, s, u) && s.workers[u].pc == Read(k)
    ensures Underway(c, ReadStep(c, s, u, k), u)
  {}

  lemma {:induction false} UnderwayScan(c: Config, s: State, u: nat)
    requires Owing(c, s, u) && Underway(c, s, u) && s.workers[u].pc.Scan?
    ensures Underway(c, ScanStep(c, s, u, s.workers[u].pc.offset), u)
  {
    VictimInPool(u, 0, c.workers);
  }

  lemma {:induction false} UnderwayClaim(c: Config, s: State, u: nat)
    requires Owing(c, s, u) && Underway(c, s, u) && Claiming(s.workers[u].pc)
    ensures Underway(c, ClaimStep(c, s, u), u)
  {
    VictimInPool(u, 0, c.workers);
  }

  lemma {:induction false} UnderwayNotify(c: Config, s: State, u: nat)
    requires Owing(c, s, u) && Underway(c, s, u) && s.workers[u].pc.PubNotify?
    ensures Underway(c, PublishStep(c, s, u, 0), u)
  {}

  lemma {:induction false} UnderwayNext(c: Config, s: State, u: nat)
    requires Owing(c, s, u) && Underway(c, s, u) && !InKernel(s.workers[u].pc)
    ensures Underway(c, WorkStep(c, s, u, 0), u)
  {
    var pc := s.workers[u].pc;
    if Waiting(pc) { UnderwayWait(c, s, u); }
    else if pc.Read? { UnderwayRead(c, s, u, pc.k); }
    else if pc.Scan? { UnderwayScan(c, s, u); }
    else if Claiming(pc) { UnderwayClaim(c, s, u); }
    else { UnderwayNotify(c, s, u); }
  }

  /** A step of worker u alone. */
  lemma {:induction false} StepAlone(c: Config, s: State, u: nat) returns (t: State)
    requires Reachable(c, s) && WF(c, s) && u < c.workers
    ensures t == WorkStep(c, s, u, 0) && Leads(c, s, t) && Alone(c, s, t, u)
  {
    Close(c, s, u);
    WorkKeeps(c, s, u, 0);
    t := GoWork(c, s, u);
  }

  /** Nothing on the way into the kernel is a report. */
  lemma {:induction false} StepOwes(c: Config, s: State, t: State, u: nat)
    requires Owing(c, s, u) && Underway(c, s, u) && !InKernel(s.workers[u].pc) && t == WorkStep(c, s, u, 0)
    ensures t.outs[u].done == s.outs[u].done
  {}

  lemma {:induction false} IntoKernel(c: Config, s: State, u: nat, r: Rank) returns (t: State)
    requires Reachable(c, s) && Owing(c, s, u) && Underway(c, s, u) && r == RankOf(c, s, u)
    ensures Leads(c, s, t) && Alone(c, s, t, u) && InKernel(t.workers[u].pc) && t.host == s.host
    decreases r.stage, r.turns, r.left, r.place, r.todo, r.loads
  {
    if InKernel(s.workers[u].pc) {
      t := s;
      Stay(c, s);
    } else {
      var a := StepAlone(c, s, u);
      UnderwayNext(c, s, u);
      WorkFalls(c, s, u, 0);
      StepOwes(c, s, a, u);
      Close(c, a, u);
      t := IntoKernel(c, a, u, RankOf(c, a, u));
      AloneThen(c, s, a, t, u);
      Then(c, s, a, t);
    }
  }

  // ---- the exception and its report

  lemma {:induction false} CrashStep(c: Config, s: State, u: nat)
    requires Near(c, s, u) && Scanning(s.host)
    requires s.workers[u].pc.CrashLoad? || s.workers[u].pc.CrashStatus? || s.workers[u].pc.CrashDone?
    ensures
      var t := WorkStep(c, s, u, 0);
      if s.workers[u].pc.CrashLoad? then t.workers[u].pc.CrashStatus?
      else if s.workers[u].pc.CrashStatus? then t.workers[u].pc.CrashDone?
      else t.outs[u].done == s.epoch && t.outs[u].status == RUNTIME_FAILED
  {}

  lemma {:induction false} Crash(c: Config, s: State, u: nat) returns (t: State)
    requires Reachable(c, s) && WF(c, s) && u < c.workers && Scanning(s.host) && InKernel(s.workers[u].pc)
    ensures Leads(c, s, t) && Alone(c, s, t, u) && t.workers[u].pc.CrashLoad?
  {
    Close(c, s, u);
    ThrowKeeps(c, s, u);
    t := Go(c, s, Throw(u));
  }

  lemma {:induction false} CrashOn(c: Config, s: State, u: nat) returns (t: State)
    requires Reachable(c, s) && WF(c, s) && u < c.workers && Scanning(s.host)
    requires s.workers[u].pc.CrashLoad? || s.workers[u].pc.CrashStatus? || s.workers[u].pc.CrashDone?
    ensures Leads(c, s, t) && Alone(c, s, t, u)
    ensures
      if s.workers[u].pc.CrashLoad? then t.workers[u].pc.CrashStatus?
      else if s.workers[u].pc.CrashStatus? then t.workers[u].pc.CrashDone?
      else t.outs[u].done == s.epoch && t.outs[u].status == RUNTIME_FAILED
  {
    Close(c, s, u);
    CrashStep(c, s, u);
    t := StepAlone(c, s, u);
  }

  /** Worker u fails and says so, and nobody else has moved. */
  lemma {:induction false} FailAlone(c: Config, s: State, u: nat) returns (t: State)
    requires Reachable(c, s) && WF(c, s) && u < c.workers && Scanning(s.host) && InKernel(s.workers[u].pc)
    ensures Leads(c, s, t) && Alone(c, s, t, u) && t.outs[u].done == t.epoch && t.outs[u].status == RUNTIME_FAILED
  {
    var a := Crash(c, s, u);
    var b := CrashOn(c, a, u);
    Then(c, s, a, b);
    AloneThen(c, s, a, b, u);
    var d := CrashOn(c, b, u);
    Then(c, s, b, d);
    AloneThen(c, s, b, d, u);
    t := CrashOn(c, d, u);
    Then(c, s, d, t);
    AloneThen(c, s, d, t, u);
  }

  // ---- the host notices

  /** The host has gone on scanning and nothing else has changed. */
  lemma {:induction false} HostFails(c: Config, s: State, u: nat) returns (t: State)
    requires Reachable(c, s) && WF(c, s) && u < c.workers && Scanning(s.host)
    requires s.host.id == u || (s.host.ScanDone? && s.host.id < u)
    requires s.outs[u].done == s.epoch && s.outs[u].status == RUNTIME_FAILED
    requires forall v :: 0 <= v < u ==> s.outs[v].done != s.epoch
    ensures Leads(c, s, t) && t == s.(host := Failed(u))
    decreases u - s.host.id, if s.host.ScanDone? then 1 else 0
  {
    var a := Go(c, s, HostStep);
    if a.host == Failed(u) {
      t := a;
    } else {
      t := HostFails(c, a, u);
      Then(c, s, a, t);
    }
  }

  // ---- the whole run

  ghost predicate Fresh(c: Config, s: State, job: Job) {
    && Reachable(c, s) && WF(c, s) && s.host.Count? && s.job == job && s.hist.dispatches == 1
    && s.cancelSeq == s.hist.baseline && forall v :: 0 <= v < c.workers ==>
        s.workers[v].pc.PubNotify? && s.workers[v].seen != s.epoch
  }

  lemma {:induction false} FirstDispatch(c: Config, data: seq<int>, job: Job) returns (s: State)
    requires ValidConfig(c) && |data| == c.capacity && ValidJob(c, job)
    ensures Connects(c, Init(c, data), s) && Fresh(c, s, job)
  {
    var init := Init(c, data);
    ConnectsOne(c, init, HostStep);
    s := Go(c, init, Dispatch(job));
  }

  ghost predicate Ripe(c: Config, s: State, job: Job) {
    && Reachable(c, s) && WF(c, s) && s.host == ScanDone(0, false) && s.job == job && s.hist.dispatches == 1
    && s.cancelSeq == s.hist.baseline && |job.bounds| == c.workers + 1
    && forall v :: 0 <= v < c.workers ==>
         s.workers[v].pc.PubNotify? && s.workers[v].seen != s.epoch && s.cursors[v] == job.bounds[v]
  }

  lemma {:induction false} AllPublished(c: Config, s: State, job: Job) returns (t: State)
    requires Fresh(c, s, job) && 0 < c.workers
    ensures Leads(c, s, t) && Ripe(c, t, job)
  {
    var a := HostGo(c, s);
    var b := HostTo(c, a, c.workers - 1, 13);
    Then(c, s, a, b);
    WroteThen(c, s, a, b);
    t := HostGo(c, b);
    Then(c, s, b, t);
    WroteThen(c, s, b, t);
    forall v | 0 <= v < c.workers ensures t.cursors[v] == job.bounds[v] { assert WroteSlot(s, t, v); }
  }

  lemma {:induction false} NotReported(c: Config, s: State, v: nat)
    requires Reachable(c, s) && WF(c, s) && v < c.workers && !s.host.Ready? && s.hist.dispatches == 1
    requires s.workers[v].seen != s.epoch
    ensures s.outs[v].done == -1 != s.epoch
  {
    Close(c, s, v);
  }

  lemma {:induction false} Starts(c: Config, s: State, job: Job, u: nat)
    requires Ripe(c, s, job) && u < c.workers && Resolves(c, job)
        && (job.grain == 0 || job.bounds[u] < job.bounds[u + 1])
    ensures Owing(c, s, u) && Underway(c, s, u)
  {
    Close(c, s, u);
    NotReported(c, s, u);
  }

  /** The host has given up because of worker u, and every other worker's done word is still -1. */
  ghost predicate FailedFirst(s: State, job: Job, u: nat) {
    && s.host == Failed(u) && s.job == job && s.hist.dispatches == 1
    && forall v :: 0 <= v < |s.outs| && v != u ==> s.outs[v].done == -1
  }

  lemma {:induction false} FailsFirst(c: Config, s: State, job: Job, u: nat) returns (t: State)
    requires Ripe(c, s, job) && u < c.workers && Resolves(c, job)
        && (job.grain == 0 || job.bounds[u] < job.bounds[u + 1])
    ensures Leads(c, s, t) && FailedFirst(t, job, u)
  {
    Starts(c, s, job, u);
    var a := IntoKernel(c, s, u, RankOf(c, s, u));
    var b := FailAlone(c, a, u);
    Then(c, s, a, b);
    AloneThen(c, s, a, b, u);
    forall v | 0 <= v < c.workers && v != u ensures b.outs[v].done == -1 != b.epoch { NotReported(c, b, v); }
    t := HostFails(c, b, u);
    Then(c, s, b, t);
  }

  lemma {:induction false} PathIsAfter(c: Config, data: seq<int>, states: seq<State>, actions: seq<Action>, n: nat)
    requires ValidConfig(c) && |data| == c.capacity && Path(c, states, actions) && states[0] == Init(c, data)
    requires n <= |actions|
    ensures After(c, data, actions[..n]) == states[n]
  {
    if n > 0 {
      PathIsAfter(c, data, states, actions, n - 1);
      var last := actions[n - 1];
      assert actions[..n][..n - 1] == actions[..n - 1] && actions[..n][n - 1] == last;
    }
  }

  lemma {:induction false} Scheduled(c: Config, data: seq<int>, t: State) returns (schedule: seq<Action>)
    requires ValidConfig(c) && |data| == c.capacity && Connects(c, Init(c, data), t)
    ensures After(c, data, schedule) == t
  {
    var states, actions :| Path(c, states, actions) && states[0] == Init(c, data) && states[|actions|] == t;
    PathIsAfter(c, data, states, actions, |actions|);
    assert actions[..|actions|] == actions;
    schedule := actions;
  }

  /** Some schedule lets a first dispatch of this job fail while all workers but one have never reported. */
  lemma {:induction false} FirstFailure(c: Config, data: seq<int>, job: Job, u: nat) returns (schedule: seq<Action>)
    requires ValidConfig(c) && |data| == c.capacity && ValidJob(c, job) && Resolves(c, job) && u < c.workers
    requires job.grain == 0 || job.bounds[u] < job.bounds[u + 1]
    ensures FailedFirst(After(c, data, schedule), job, u)
  {
    var a := FirstDispatch(c, data, job);
    var b := AllPublished(c, a, job);
    var t := FailsFirst(c, b, job, u);
    ConnectsThen(c, Init(c, data), a, b);
    ConnectsThen(c, Init(c, data), b, t);
    schedule := Scheduled(c, data, t);
  }
}
