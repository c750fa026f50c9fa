/**
 No index is processed twice and none outside the range, on every schedule without a hazard: no
 worker touched a foreign slot before its publication, unless that slot was quiet. Static
 dispatches never touch foreign slots, so for them the condition holds by itself.
 */
module DispatchExclusive {
  import opened Int32
  import opened Kernels
  import opened DispatchModel
  import opened DispatchControl

  /** The worker has entered its own static range in this epoch. */
  predicate Started(epoch: int, wk: Worker) {
    wk.seen == epoch && !wk.pc.ReadStop? && !wk.pc.Read?
  }

  ghost predicate Safe(c: Config, s: State) {
    && !s.host.Ready? && Resolves(c, s.job) && !s.hist.hazard
    && WF(c, s) && ValidJob(c, s.job) && 0 < c.workers
  }

  /** front[v] separates the claimed part of shard v from the rest, and the cursor agrees with it. */
  ghost predicate ShardOk(c: Config, s: State, v: int)
    requires WF(c, s) && ValidJob(c, s.job) && 0 <= v < c.workers
  {
    && s.job.bounds[v] <= s.hist.front[v] <= s.job.bounds[v + 1]
    && (s.hist.quiet[v] ==> s.slots[v].end <= s.job.bounds[v + 1])
    && if s.job.grain == 0 then
         s.hist.front[v] == if Started(s.epoch, s.workers[v]) then s.job.bounds[v + 1] else s.job.bounds[v]
       else if Stored(s.host, v, CURSOR_WORD) then s.cursors[v] == s.hist.front[v]
       else s.hist.front[v] == s.job.bounds[v] && (s.hist.quiet[v] ==> s.job.bounds[v + 1] <= s.cursors[v])
  }

  /** A claimed index is in range, processed at most once, and held exactly until processed. */
  ghost predicate IndexOk(c: Config, s: State, x: int)
    requires WF(c, s) && ValidJob(c, s.job)
  {
    && s.hist.visits[x] <= 1
    && (x in s.hist.visits ==> x in s.hist.owner)
    && (x in s.hist.owner ==>
          && s.job.bounds[0] <= x < s.job.bounds[c.workers]
          && s.hist.owner[x] < c.workers
          && (x in s.hist.visits <==> !Pends(s.workers[s.hist.owner[x]].pc, x)))
  }

  ghost predicate HoldOk(c: Config, s: State, w: int, x: int)
    requires WF(c, s)
  {
    0 <= w < c.workers && Pends(s.workers[w].pc, x) ==> x in s.hist.owner && s.hist.owner[x] == w
  }

  ghost predicate FrontIff(c: Config, s: State, v: int, x: int)
    requires WF(c, s) && ValidJob(c, s.job)
  {
    0 <= v < c.workers && s.job.bounds[v] <= x < s.job.bounds[v + 1] ==>
      (x in s.hist.owner <==> x < s.hist.front[v])
  }

  ghost predicate LimitOk(c: Config, host: Host, job: Job, quiet: seq<bool>, w: nat, offset: nat, limit: int)
    requires 0 < c.workers && |job.bounds| == c.workers + 1 && |quiet| == c.workers
  {
    var v := Victim(w, offset, c.workers);
    limit <= job.bounds[v + 1] && (v == w || Published(host, v) || quiet[v])
  }

  /** Whichever victim worker w is at, its limit does not pass the end of the victim's shard. */
  ghost predicate TouchOk(c: Config, host: Host, job: Job, quiet: seq<bool>, wk: Worker, w: nat)
    requires 0 < c.workers && |job.bounds| == c.workers + 1 && |quiet| == c.workers
  {
    match wk.pc
    case Probe(offset, limit) => LimitOk(c, host, job, quiet, w, offset, limit)
    case LoadCursor(offset, limit) => LimitOk(c, host, job, quiet, w, offset, limit)
    case Cas(offset, limit, _, _) => LimitOk(c, host, job, quiet, w, offset, limit)
    case Recheck(offset, limit) => LimitOk(c, host, job, quiet, w, offset, limit)
    case Enter(ret, _, _, _) => ret.Chunk? ==> LimitOk(c, host, job, quiet, w, ret.offset, ret.limit)
    case Loop(ret, _, _, _, _, _, _) => ret.Chunk? ==> LimitOk(c, host, job, quiet, w, ret.offset, ret.limit)
    case _ => true
  }

  ghost predicate Excl(c: Config, s: State) {
    Safe(c, s) ==>
      && (forall v :: 0 <= v < c.workers ==> ShardOk(c, s, v))
      && (forall w :: 0 <= w < c.workers ==> TouchOk(c, s.host, s.job, s.hist.quiet, s.workers[w], w))
      && (forall x :: IndexOk(c, s, x))
      && (forall w, x :: HoldOk(c, s, w, x))
      && (forall v, x :: FrontIff(c, s, v, x))
  }

  /** Shards of a tiled range do not overlap. */
  lemma ShardsDisjoint(c: Config, job: Job, u: int, v: int, x: int)
    requires ValidJob(c, job) && 0 <= u < c.workers && 0 <= v < c.workers
    requires job.bounds[u] <= x < job.bounds[u + 1] && job.bounds[v] <= x < job.bounds[v + 1]
    ensures u == v
  {}

  // ---- worker steps

  /** A step that claims and processes nothing. */
  ghost predicate Calm(c: Config, s: State, r: State, w: nat)
    requires WF(c, s) && WF(c, r)
  {
    && w < c.workers && r.host == s.host && r.epoch == s.epoch && r.job == s.job
    && r.slots == s.slots && r.cursors == s.cursors && r.workers == s.workers[w := r.workers[w]]
    && r.hist.owner == s.hist.owner && r.hist.visits == s.hist.visits && r.hist.front == s.hist.front
    && r.hist.quiet == s.hist.quiet && (s.hist.hazard ==> r.hist.hazard)
    && (forall x :: Pends(s.workers[w].pc, x) <==> Pends(r.workers[w].pc, x))
    && (s.job.grain == 0 ==> (Started(s.epoch, s.workers[w]) <==> Started(s.epoch, r.workers[w])))
  }

  lemma CalmFrame(c: Config, s: State, r: State, w: nat)
    requires WF(c, s) && WF(c, r) && Excl(c, s) && Safe(c, r) && Calm(c, s, r, w)
    requires TouchOk(c, r.host, r.job, r.hist.quiet, r.workers[w], w)
    ensures Excl(c, r)
  {
    forall v | 0 <= v < c.workers ensures ShardOk(c, r, v) { assert ShardOk(c, s, v); }
    forall x ensures IndexOk(c, r, x) { assert IndexOk(c, s, x); }
    forall u, x ensures HoldOk(c, r, u, x) { assert HoldOk(c, s, u, x); }
    forall v, x ensures FrontIff(c, r, v, x) { assert FrontIff(c, s, v, x); }
    forall u | 0 <= u < c.workers ensures TouchOk(c, r.host, r.job, r.hist.quiet, r.workers[u], u) {
      assert TouchOk(c, s.host, s.job, s.hist.quiet, s.workers[u], u);
    }
  }

  /** What a step of worker w needs to know besides Excl. */
  ghost predicate Here(c: Config, s: State, w: nat) {
    Near(c, s, w) && Safe(c, s) && Excl(c, s)
  }

  ghost predicate CalmOk(c: Config, s: State, r: State, w: nat)
    requires WF(c, s) && WF(c, r)
  {
    && Calm(c, s, r, w)
    && |r.job.bounds| == c.workers + 1
    && (!r.hist.hazard ==> TouchOk(c, r.host, r.job, r.hist.quiet, r.workers[w], w))
  }

  ghost predicate Local(c: Config, s: State, w: nat) {
    && Near(c, s, w) && !s.host.Ready? && Resolves(c, s.job) && |s.job.bounds| == c.workers + 1
    && TouchOk(c, s.host, s.job, s.hist.quiet, s.workers[w], w)
  }

  lemma WaitCalm(c: Config, s: State, w: nat)
    requires Local(c, s, w)
    ensures CalmOk(c, s, WaitStep(c, s, w), w)
  {}

  lemma ReadCalm(c: Config, s: State, w: nat, k: nat)
    requires Local(c, s, w) && s.workers[w].pc == Read(k) && (k < 7 || s.job.grain > 0)
    ensures CalmOk(c, s, ReadStep(c, s, w, k), w)
  {}

  lemma ProbeCalm(c: Config, s: State, w: nat)
    requires Local(c, s, w)
    requires s.workers[w].pc.Probe? || s.workers[w].pc.Recheck? || s.workers[w].pc.LoadCursor?
    ensures CalmOk(c, s, ClaimStep(c, s, w), w)
  {}

  lemma PublishCalm(c: Config, s: State, w: nat, time: int)
    requires Local(c, s, w)
    ensures CalmOk(c, s, PublishStep(c, s, w, time), w)
  {}

  lemma ThrowCalm(c: Config, s: State, w: nat)
    requires Local(c, s, w)
    ensures CalmOk(c, s, ThrowStep(s, w), w)
  {}

  lemma ScanCalm(c: Config, s: State, w: nat, offset: nat)
    requires Local(c, s, w) && s.workers[w].pc == Scan(offset)
    requires var v := Victim(w, offset, c.workers);
      v < c.workers && (Published(s.host, v) ==> s.slots[v].end == s.job.bounds[v + 1]) &&
      (s.hist.quiet[v] ==> s.slots[v].end <= s.job.bounds[v + 1])
    ensures CalmOk(c, s, ScanStep(c, s, w, offset), w)
  {}

  /** The worker's next step is the one that processes index i. */
  ghost predicate Processing(c: Config, s: State, w: nat) {
    && w < |s.workers| && s.workers[w].pc.Loop? && s.workers[w].pc.i < s.workers[w].pc.hi && Resolves(c, s.job)
    && |KernelOf(c, s.job).sources(s.job.argument, s.workers[w].pc.header, s.workers[w].pc.i)|
       <= |s.workers[w].pc.buffer|
  }

  lemma KernelCalm(c: Config, s: State, w: nat)
    requires Local(c, s, w) && (s.workers[w].pc.Enter? || s.workers[w].pc.Loop?) && !Processing(c, s, w)
    ensures CalmOk(c, s, RunKernel(c, s, w), w)
  {}

  lemma WorkCalm(c: Config, s: State, w: nat, time: int)
    requires Here(c, s, w) && !s.workers[w].pc.Cas? && !Processing(c, s, w)
    requires !(s.workers[w].pc == Read(7) && s.job.grain == 0)
    requires forall v :: 0 <= v < c.workers && Published(s.host, v) ==> s.slots[v].end == s.job.bounds[v + 1]
    ensures CalmOk(c, s, WorkStep(c, s, w, time), w)
  {
    assert TouchOk(c, s.host, s.job, s.hist.quiet, s.workers[w], w);
    var pc := s.workers[w].pc;
    if Waiting(pc) { WaitCalm(c, s, w); }
    else if pc.Read? { ReadCalm(c, s, w, pc.k); }
    else if pc.Scan? {
      VictimInPool(w, pc.offset, c.workers);
      assert ShardOk(c, s, Victim(w, pc.offset, c.workers));
      ScanCalm(c, s, w, pc.offset);
    }
    else if Claiming(pc) { ProbeCalm(c, s, w); }
    else if InKernel(pc) { KernelCalm(c, s, w); }
    else { PublishCalm(c, s, w, time); }
  }

  /** r is s after worker w has claimed the next part [lo, hi) of shard v. */
  ghost predicate Claims(c: Config, s: State, r: State, w: nat, v: nat, lo: int, hi: int)
    requires WF(c, s) && WF(c, r)
  {
    && w < c.workers && v < c.workers && r.host == s.host && r.epoch == s.epoch && r.job == s.job
    && r.slots == s.slots && r.workers == s.workers[w := r.workers[w]]
    && (forall u :: 0 <= u < c.workers && u != v ==> r.cursors[u] == s.cursors[u])
    && r.hist.owner == Own(s.hist.owner, lo, hi, w) && r.hist.visits == s.hist.visits
    && r.hist.front == s.hist.front[v := hi] && r.hist.quiet == s.hist.quiet
    && (s.hist.hazard ==> r.hist.hazard)
    && (forall x :: !Pends(s.workers[w].pc, x))
    && (forall x :: Pends(r.workers[w].pc, x) <==> lo <= x < hi)
  }

  lemma ClaimIndex(c: Config, s: State, r: State, w: nat, v: nat, lo: int, hi: int, x: int)
    requires WF(c, s) && WF(c, r) && Excl(c, s) && Safe(c, s) && Safe(c, r) && Claims(c, s, r, w, v, lo, hi)
    requires lo == s.hist.front[v] && hi <= s.job.bounds[v + 1]
    ensures IndexOk(c, r, x)
  {
    assert ShardOk(c, s, v);
    assert IndexOk(c, s, x);
    assert FrontIff(c, s, v, x);
    if x in s.hist.owner && s.hist.owner[x] < c.workers {
      assert HoldOk(c, s, s.hist.owner[x], x);
    }
  }

  lemma ClaimHold(c: Config, s: State, r: State, w: nat, v: nat, lo: int, hi: int, u: int, x: int)
    requires WF(c, s) && WF(c, r) && Excl(c, s) && Safe(c, s) && Safe(c, r) && Claims(c, s, r, w, v, lo, hi)
    requires lo == s.hist.front[v] && hi <= s.job.bounds[v + 1]
    ensures HoldOk(c, r, u, x)
  {
    assert ShardOk(c, s, v);
    assert HoldOk(c, s, u, x);
    assert FrontIff(c, s, v, x);
  }

  lemma ClaimFront(c: Config, s: State, r: State, w: nat, v: nat, lo: int, hi: int, u: int, x: int)
    requires WF(c, s) && WF(c, r) && Excl(c, s) && Safe(c, s) && Safe(c, r) && Claims(c, s, r, w, v, lo, hi)
    requires lo == s.hist.front[v] && lo <= hi <= s.job.bounds[v + 1]
    ensures FrontIff(c, r, u, x)
  {
    assert ShardOk(c, s, v);
    assert FrontIff(c, s, u, x);
    if 0 <= u < c.workers && s.job.bounds[u] <= x < s.job.bounds[u + 1] && lo <= x < hi {
      ShardsDisjoint(c, s.job, u, v, x);
    }
  }

  lemma ClaimFrame(c: Config, s: State, r: State, w: nat, v: nat, lo: int, hi: int)
    requires WF(c, s) && WF(c, r) && Excl(c, s) && Safe(c, s) && Safe(c, r) && Claims(c, s, r, w, v, lo, hi)
    requires lo == s.hist.front[v] && lo <= hi <= s.job.bounds[v + 1]
    requires TouchOk(c, r.host, r.job, r.hist.quiet, r.workers[w], w)
    requires forall u :: 0 <= u < c.workers ==> ShardOk(c, r, u)
    ensures Excl(c, r)
  {
    forall x ensures IndexOk(c, r, x) { ClaimIndex(c, s, r, w, v, lo, hi, x); }
    forall u, x ensures HoldOk(c, r, u, x) { ClaimHold(c, s, r, w, v, lo, hi, u, x); }
    forall u, x ensures FrontIff(c, r, u, x) { ClaimFront(c, s, r, w, v, lo, hi, u, x); }
    forall u | 0 <= u < c.workers ensures TouchOk(c, r.host, r.job, r.hist.quiet, r.workers[u], u) {
      assert TouchOk(c, s.host, s.job, s.hist.quiet, s.workers[u], u);
    }
  }

  lemma {:induction false} CasWins(c: Config, s: State, w: nat, offset: nat, limit: int, current: int, stamp: nat,
                                   v: nat)
    requires Here(c, s, w) && s.workers[w].pc == Cas(offset, limit, current, stamp)
    requires v == Victim(w, offset, c.workers) && v < c.workers && s.cursors[v] == current
    ensures Excl(c, ClaimStep(c, s, w))
  {
    var r := ClaimStep(c, s, w);
    assert TouchOk(c, s.host, s.job, s.hist.quiet, s.workers[w], w);
    assert ShardOk(c, s, v);
    var hi := r.hist.front[v];
    assert Claims(c, s, r, w, v, current, hi);
    assert ShardOk(c, r, v);
    forall u | 0 <= u < c.workers ensures ShardOk(c, r, u) { assert ShardOk(c, s, u); }
    ClaimFrame(c, s, r, w, v, current, hi);
  }

  lemma {:induction false} CasLoses(c: Config, s: State, w: nat, offset: nat, limit: int, current: int, stamp: nat,
                                    v: nat)
    requires Here(c, s, w) && s.workers[w].pc == Cas(offset, limit, current, stamp)
    requires v == Victim(w, offset, c.workers) && v < c.workers && s.cursors[v] != current
    ensures Excl(c, ClaimStep(c, s, w))
  {
    assert TouchOk(c, s.host, s.job, s.hist.quiet, s.workers[w], w);
    CalmFrame(c, s, ClaimStep(c, s, w), w);
  }

  lemma {:induction false} CasExcl(c: Config, s: State, w: nat, offset: nat, limit: int, current: int, stamp: nat)
    requires Here(c, s, w) && s.workers[w].pc == Cas(offset, limit, current, stamp)
    ensures Excl(c, ClaimStep(c, s, w))
  {
    VictimInPool(w, offset, c.workers);
    var v := Victim(w, offset, c.workers);
    if s.cursors[v] == current {
      CasWins(c, s, w, offset, limit, current, stamp, v);
    } else {
      CasLoses(c, s, w, offset, limit, current, stamp, v);
    }
  }

  lemma StartExcl(c: Config, s: State, w: nat)
    requires Here(c, s, w) && s.workers[w].pc == Read(7) && s.job.grain == 0
    ensures Excl(c, ReadStep(c, s, w, 7))
  {
    var r := ReadStep(c, s, w, 7);
    assert ShardOk(c, s, w);
    assert Claims(c, s, r, w, w, s.job.bounds[w], s.job.bounds[w + 1]);
    assert ShardOk(c, r, w);
    forall u | 0 <= u < c.workers ensures ShardOk(c, r, u) { assert ShardOk(c, s, u); }
    ClaimFrame(c, s, r, w, w, s.job.bounds[w], s.job.bounds[w + 1]);
  }

  lemma StoreExcl(c: Config, s: State, w: nat)
    requires Here(c, s, w) && Processing(c, s, w)
    ensures Excl(c, RunKernel(c, s, w))
  {
    var r, i := RunKernel(c, s, w), s.workers[w].pc.i;
    assert r.hist == s.hist.(visits := s.hist.visits + multiset{i});
    assert r.workers[w].pc.Loop? && r.workers[w].pc.i == i + 1 && r.workers[w].pc.hi == s.workers[w].pc.hi;
    forall v | 0 <= v < c.workers ensures ShardOk(c, r, v) { assert ShardOk(c, s, v); }
    forall x ensures IndexOk(c, r, x) {
      assert IndexOk(c, s, x);
      assert HoldOk(c, s, w, i);
      if x in s.hist.owner { assert HoldOk(c, s, w, x); }
    }
    forall u, x ensures HoldOk(c, r, u, x) { assert HoldOk(c, s, u, x); }
    forall v, x ensures FrontIff(c, r, v, x) { assert FrontIff(c, s, v, x); }
    forall u | 0 <= u < c.workers ensures TouchOk(c, r.host, r.job, r.hist.quiet, r.workers[u], u) {
      assert TouchOk(c, s.host, s.job, s.hist.quiet, s.workers[u], u);
    }
  }

  // ---- host steps

  /** A host step that changes no worker's claim: shards and touches are re-judged, the rest stays. */
  lemma HostFrame(c: Config, s: State, r: State)
    requires WF(c, s) && WF(c, r) && Excl(c, s) && Safe(c, s) && Safe(c, r)
    requires r.job == s.job && r.epoch == s.epoch && r.hist.owner == s.hist.owner
    requires r.hist.visits == s.hist.visits && r.hist.front == s.hist.front && r.hist.quiet == s.hist.quiet
    requires forall u :: 0 <= u < c.workers ==>
      r.workers[u] == s.workers[u] || (s.workers[u].pc.Asleep? && r.workers[u] == s.workers[u].(pc := Check))
    requires forall v :: 0 <= v < c.workers ==> (Published(s.host, v) ==> Published(r.host, v)) && ShardOk(c, r, v)
    ensures Excl(c, r)
  {
    forall x ensures IndexOk(c, r, x) { assert IndexOk(c, s, x); }
    forall u, x ensures HoldOk(c, r, u, x) { assert HoldOk(c, s, u, x); }
    forall v, x ensures FrontIff(c, r, v, x) { assert FrontIff(c, s, v, x); }
    forall u | 0 <= u < c.workers ensures TouchOk(c, r.host, r.job, r.hist.quiet, r.workers[u], u) {
      assert TouchOk(c, s.host, s.job, s.hist.quiet, s.workers[u], u);
    }
  }

  lemma StoreShard(c: Config, s: State, id: nat, k: nat, v: int)
    requires Safe(c, s) && 0 <= v < c.workers && ShardOk(c, s, v) && s.host == Write(id, k) && id < c.workers && k < 13
    ensures ShardOk(c, HostMove(c, s), v)
  {}

  lemma OtherShard(c: Config, s: State, v: int)
    requires Safe(c, s) && 0 <= v < c.workers && ShardOk(c, s, v) && !s.host.Complete?
    requires s.host.Write? ==> s.host.id < c.workers && s.host.k == 13
    ensures ShardOk(c, HostMove(c, s), v)
    ensures !HostMove(c, s).host.Ready?
  {}

  lemma HostExcl(c: Config, s: State)
    requires WF(c, s) && Excl(c, s) && Safe(c, s) && Safe(c, HostMove(c, s)) && HostOk(c, s)
    ensures Excl(c, HostMove(c, s))
  {
    var r := HostMove(c, s);
    forall v | 0 <= v < c.workers
      ensures (Published(s.host, v) ==> Published(r.host, v)) && ShardOk(c, r, v)
    {
      assert ShardOk(c, s, v);
      if s.host.Write? && s.host.k < 13 {
        StoreShard(c, s, s.host.id, s.host.k, v);
      } else {
        OtherShard(c, s, v);
      }
    }
    HostFrame(c, s, r);
  }

  lemma DispatchExcl(c: Config, s: State, job: Job)
    requires Ctl(c, s) && s.host.Ready? && ValidJob(c, job)
    ensures Excl(c, StartJob(c, s, job))
  {
    var r := StartJob(c, s, job);
    forall w | 0 <= w < c.workers ensures Idle(s.workers[w].pc) && s.workers[w].seen == s.epoch {
      Nearby(c, s, w);
    }
    forall v | 0 <= v < c.workers && Safe(c, r) ensures ShardOk(c, r, v) {}
  }

  lemma SafeBefore(c: Config, s: State, a: Action)
    requires WF(c, s) && Safe(c, Next(c, s, a)) && !a.Dispatch? && (s.host.Ready? ==> !a.Dispatch?)
    ensures Safe(c, s)
  {}

  lemma PublishedEnds(c: Config, s: State, v: int)
    requires Ctl(c, s) && !s.host.Ready? && 0 <= v < c.workers && Published(s.host, v)
    ensures s.slots[v].end == s.job.bounds[v + 1]
  {
    Nearby(c, s, v);
  }

  lemma WorkExcl(c: Config, s: State, w: nat, time: int)
    requires Ctl(c, s) && Excl(c, s) && Safe(c, s) && w < c.workers && Safe(c, WorkStep(c, s, w, time))
    ensures Excl(c, WorkStep(c, s, w, time))
  {
    Nearby(c, s, w);
    if s.workers[w].pc.Cas? {
      CasExcl(c, s, w, s.workers[w].pc.offset, s.workers[w].pc.limit, s.workers[w].pc.current, s.workers[w].pc.stamp);
    } else if s.workers[w].pc == Read(7) && s.job.grain == 0 {
      StartExcl(c, s, w);
    } else if Processing(c, s, w) {
      StoreExcl(c, s, w);
    } else {
      forall v | 0 <= v < c.workers && Published(s.host, v) ensures s.slots[v].end == s.job.bounds[v + 1] {
        PublishedEnds(c, s, v);
      }
      WorkCalm(c, s, w, time);
      CalmFrame(c, s, WorkStep(c, s, w, time), w);
    }
  }

  lemma {:induction false} ThrowExcl(c: Config, s: State, w: nat)
    requires Ctl(c, s) && Excl(c, s) && Safe(c, s) && w < c.workers
    ensures Excl(c, ThrowStep(s, w))
  {
    Nearby(c, s, w);
    assert TouchOk(c, s.host, s.job, s.hist.quiet, s.workers[w], w);
    ThrowCalm(c, s, w);
    CalmFrame(c, s, ThrowStep(s, w), w);
  }

  lemma {:induction false} CancelExcl(c: Config, s: State)
    requires Ctl(c, s) && Excl(c, s) && Safe(c, s)
    ensures Excl(c, Next(c, s, Cancel))
  {
    var r := Next(c, s, Cancel);
    forall v | 0 <= v < c.workers ensures (Published(s.host, v) ==> Published(r.host, v)) && ShardOk(c, r, v) {
      assert ShardOk(c, s, v);
    }
    HostFrame(c, s, r);
  }

  lemma {:induction false} ExclNext(c: Config, s: State, a: Action)
    requires Ctl(c, s) && Excl(c, s)
    ensures Excl(c, Next(c, s, a))
  {
    if Safe(c, Next(c, s, a)) {
      if a.Dispatch? {
        if s.host.Ready? && ValidJob(c, a.job) { DispatchExcl(c, s, a.job); }
      } else {
        SafeBefore(c, s, a);
        if a.Work? { if a.w < c.workers { WorkExcl(c, s, a.w, a.time); } }
        else if a.Throw? { if a.w < c.workers { ThrowExcl(c, s, a.w); } }
        else if a.HostStep? { HostExcl(c, s); }
        else { CancelExcl(c, s); }
      }
    }
  }
}
