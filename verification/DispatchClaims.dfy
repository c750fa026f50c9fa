/**
 How many chunks a dynamic dispatch claims, when no slot is touched before its publication, and
 why a failed compare-exchange always means that somebody else claimed a chunk.
 */
module DispatchClaims {
  import opened Int32
  import opened Kernels
  import opened DispatchModel
  import opened DispatchControl
  import opened DispatchExclusive

  /** The number of chunks of g that cover a indices; see CeilDivIsQuotient. */
  function CeilDiv(a: int, g: int): nat
    requires g > 0
    decreases a
  {
    if a <= 0 then 0 else 1 + CeilDiv(a - g, g)
  }

  predicate Multiple(a: int, g: int)
    requires g > 0
    decreases a
  {
    a == 0 || (a > 0 && Multiple(a - g, g))
  }

  ghost predicate Exact(c: Config, s: State) {
    Safe(c, s) && !s.hist.early && s.job.grain > 0
  }

  ghost predicate CountOk(stored: bool, lo: int, hi: int, cursor: int, claims: nat, grain: int)
    requires grain > 0
  {
    if stored then
      lo <= cursor <= hi && claims == CeilDiv(cursor - lo, grain) && (cursor < hi ==> Multiple(cursor - lo, grain))
    else claims == 0
  }

  lemma ClaimCounts(lo: int, hi: int, cursor: int, claims: nat, grain: int)
    requires grain > 0 && CountOk(true, lo, hi, cursor, claims, grain) && cursor < hi
    ensures CountOk(true, lo, hi, if cursor + grain < hi then cursor + grain else hi, claims + 1, grain)
  {
    LastChunkCounts(cursor - lo, hi - cursor, grain);
  }

  /** A chunk of at most g beyond a multiple of g counts once. */
  lemma {:induction false} LastChunkCounts(a: int, extra: int, g: int)
    requires g > 0 && Multiple(a, g) && 0 < extra
    ensures extra <= g ==> CeilDiv(a + extra, g) == CeilDiv(a, g) + 1
    ensures CeilDiv(a + g, g) == CeilDiv(a, g) + 1
    decreases a
  {
    if a > 0 { LastChunkCounts(a - g, extra, g); }
  }

  lemma {:induction false} CeilDivIsQuotient(a: int, g: int)
    requires g > 0 && 0 <= a
    ensures CeilDiv(a, g) * g - g < a <= CeilDiv(a, g) * g
    decreases a
  {
    if a > g { CeilDivIsQuotient(a - g, g); }
  }

  /** The victim is published and the limit is the true end of its shard. */
  ghost predicate AtTrue(c: Config, host: Host, job: Job, w: nat, offset: nat, limit: int)
    requires 0 < c.workers && |job.bounds| == c.workers + 1
  {
    var v := Victim(w, offset, c.workers);
    limit == job.bounds[v + 1] && Published(host, v)
  }

  ghost predicate TrueLimit(c: Config, host: Host, job: Job, wk: Worker, w: nat)
    requires 0 < c.workers && |job.bounds| == c.workers + 1
  {
    match wk.pc
    case Probe(offset, limit) => AtTrue(c, host, job, w, offset, limit)
    case LoadCursor(offset, limit) => AtTrue(c, host, job, w, offset, limit)
    case Cas(offset, limit, _, _) => AtTrue(c, host, job, w, offset, limit)
    case Recheck(offset, limit) => AtTrue(c, host, job, w, offset, limit)
    case Enter(ret, _, _, _) => ret.Chunk? ==> AtTrue(c, host, job, w, ret.offset, ret.limit)
    case Loop(ret, _, _, _, _, _, _) => ret.Chunk? ==> AtTrue(c, host, job, w, ret.offset, ret.limit)
    case _ => true
  }

  /** The cursor still has the value the worker loaded, or somebody has claimed since. */
  ghost predicate StampOk(c: Config, s: State, wk: Worker, w: nat)
    requires WF(c, s) && 0 < c.workers
  {
    wk.pc.Cas? ==>
      var v := Victim(w, wk.pc.offset, c.workers);
      v < c.workers && wk.pc.stamp <= s.hist.claims[v] &&
      (s.cursors[v] != wk.pc.current ==> wk.pc.stamp < s.hist.claims[v])
  }

  ghost predicate Counts(c: Config, s: State)
    requires WF(c, s)
  {
    && (s.hist.hazard ==> s.hist.early)
    && (Exact(c, s) ==>
          && (forall v :: 0 <= v < c.workers ==>
                CountOk(Stored(s.host, v, CURSOR_WORD), s.job.bounds[v], s.job.bounds[v + 1],
                        s.cursors[v], s.hist.claims[v], s.job.grain))
          && (forall w :: 0 <= w < c.workers ==>
                TrueLimit(c, s.host, s.job, s.workers[w], w) && StampOk(c, s, s.workers[w], w)))
  }

  // ---- steps

  ghost predicate Keeps(c: Config, s: State, r: State, w: nat)
    requires WF(c, s) && WF(c, r)
  {
    && w < c.workers && r.host == s.host && r.job == s.job && r.workers == s.workers[w := r.workers[w]]
    && r.cursors == s.cursors && r.hist.claims == s.hist.claims
    && (r.hist.early == s.hist.early || r.hist.early) && (r.hist.hazard ==> s.hist.hazard || r.hist.early)
    && 0 < c.workers && |s.job.bounds| == c.workers + 1
    && (!r.hist.early ==> TrueLimit(c, r.host, r.job, r.workers[w], w) && StampOk(c, r, r.workers[w], w))
  }

  ghost predicate Self(c: Config, s: State, w: nat) {
    && Near(c, s, w) && Safe(c, s)
    && TrueLimit(c, s.host, s.job, s.workers[w], w) && StampOk(c, s, s.workers[w], w)
  }

  lemma WaitCount(c: Config, s: State, w: nat)
    requires Self(c, s, w)
    ensures Keeps(c, s, WaitStep(c, s, w), w)
  {}

  lemma ReadCount(c: Config, s: State, w: nat, k: nat)
    requires Self(c, s, w) && s.workers[w].pc == Read(k)
    ensures Keeps(c, s, ReadStep(c, s, w, k), w)
  {}

  lemma ScanCount(c: Config, s: State, w: nat, offset: nat)
    requires Self(c, s, w) && s.workers[w].pc == Scan(offset)
    requires Published(s.host, w)
    requires var v := Victim(w, offset, c.workers);
      v < c.workers && (Published(s.host, v) ==> s.slots[v].end == s.job.bounds[v + 1])
    ensures Keeps(c, s, ScanStep(c, s, w, offset), w)
  {}

  lemma ProbeCount(c: Config, s: State, w: nat)
    requires Self(c, s, w)
    requires s.workers[w].pc.Probe? || s.workers[w].pc.Recheck? || s.workers[w].pc.LoadCursor?
    ensures Keeps(c, s, ClaimStep(c, s, w), w)
  {
    if s.workers[w].pc.LoadCursor? { VictimInPool(w, s.workers[w].pc.offset, c.workers); }
  }

  lemma KernelCount(c: Config, s: State, w: nat)
    requires Self(c, s, w)
    ensures Keeps(c, s, RunKernel(c, s, w), w)
  {}

  lemma {:induction false} PublishQuiet(c: Config, s: State, w: nat, time: int)
    requires WF(c, s) && w < c.workers && !Claiming(s.workers[w].pc) && !InKernel(s.workers[w].pc)
    ensures var r := PublishStep(c, s, w, time);
      && !Claiming(r.workers[w].pc) && !InKernel(r.workers[w].pc) && r.workers == s.workers[w := r.workers[w]]
      && r.cursors == s.cursors && r.hist == s.hist
  {}

  lemma {:induction false} PublishCount(c: Config, s: State, w: nat, time: int)
    requires Self(c, s, w) && !Claiming(s.workers[w].pc) && !InKernel(s.workers[w].pc)
    ensures Keeps(c, s, PublishStep(c, s, w, time), w)
  {
    PublishQuiet(c, s, w, time);
    QuietTrue(c, s.host, s.job, PublishStep(c, s, w, time).workers[w], w);
  }

  lemma {:induction false} QuietTrue(c: Config, host: Host, job: Job, wk: Worker, w: nat)
    requires 0 < c.workers && |job.bounds| == c.workers + 1 && !Claiming(wk.pc) && !InKernel(wk.pc)
    ensures TrueLimit(c, host, job, wk, w)
  {}

  lemma ThrowCount(c: Config, s: State, w: nat)
    requires Self(c, s, w)
    ensures Keeps(c, s, ThrowStep(s, w), w)
  {}

  lemma KeepsFrame(c: Config, s: State, r: State, w: nat)
    requires WF(c, s) && WF(c, r) && Counts(c, s) && Safe(c, s) && Keeps(c, s, r, w)
    ensures Counts(c, r)
  {
    if Exact(c, r) {
      assert Exact(c, s);
      forall u | 0 <= u < c.workers
        ensures TrueLimit(c, r.host, r.job, r.workers[u], u) && StampOk(c, r, r.workers[u], u)
      {
        assert TrueLimit(c, s.host, s.job, s.workers[u], u) && StampOk(c, s, s.workers[u], u);
      }
    }
  }

  /** After a claim on shard v every other worker's stamp is still no larger than the claims it counts. */
  lemma {:induction false} OthersAfterClaim(c: Config, s: State, r: State, v: nat, u: nat)
    requires WF(c, s) && WF(c, r) && 0 < c.workers && |s.job.bounds| == c.workers + 1 && r.job == s.job
        && r.host == s.host
    requires v < c.workers && u < c.workers && r.workers[u] == s.workers[u]
    requires r.hist.claims == s.hist.claims[v := s.hist.claims[v] + 1]
    requires forall x :: 0 <= x < c.workers && x != v ==> r.cursors[x] == s.cursors[x]
    requires TrueLimit(c, s.host, s.job, s.workers[u], u) && StampOk(c, s, s.workers[u], u)
    ensures TrueLimit(c, r.host, r.job, r.workers[u], u) && StampOk(c, r, r.workers[u], u)
  {}

  lemma {:induction false} SelfAfterClaim(c: Config, s: State, w: nat, offset: nat, limit: int, current: int,
                                          stamp: nat, v: nat)
    requires Near(c, s, w) && Exact(c, s) && s.workers[w].pc == Cas(offset, limit, current, stamp)
    requires v == Victim(w, offset, c.workers) && v < c.workers && s.cursors[v] == current
    requires TrueLimit(c, s.host, s.job, s.workers[w], w)
    ensures var r := ClaimStep(c, s, w);
      && TrueLimit(c, r.host, r.job, r.workers[w], w) && StampOk(c, r, r.workers[w], w)
      && r.hist.early == s.hist.early && r.hist.hazard == s.hist.hazard && r.job == s.job && r.host == s.host
      && r.hist.claims == s.hist.claims[v := s.hist.claims[v] + 1] && r.workers == s.workers[w := r.workers[w]]
      && r.cursors == s.cursors[v := if current + s.job.grain < limit then current + s.job.grain else limit]
  {}

  lemma {:induction false} CasWins(c: Config, s: State, w: nat, offset: nat, limit: int, current: int, stamp: nat,
                                   v: nat)
    requires Near(c, s, w) && Counts(c, s) && Exact(c, s) && s.workers[w].pc == Cas(offset, limit, current, stamp)
    requires v == Victim(w, offset, c.workers) && v < c.workers && s.cursors[v] == current
    ensures Counts(c, ClaimStep(c, s, w))
  {
    var r := ClaimStep(c, s, w);
    assert TrueLimit(c, s.host, s.job, s.workers[w], w);
    SelfAfterClaim(c, s, w, offset, limit, current, stamp, v);
    ClaimCounts(s.job.bounds[v], s.job.bounds[v + 1], current, s.hist.claims[v], s.job.grain);
    forall u | 0 <= u < c.workers
      ensures TrueLimit(c, r.host, r.job, r.workers[u], u) && StampOk(c, r, r.workers[u], u)
    {
      assert TrueLimit(c, s.host, s.job, s.workers[u], u) && StampOk(c, s, s.workers[u], u);
      if u != w { OthersAfterClaim(c, s, r, v, u); }
    }
  }

  lemma {:induction false} CasLoses(c: Config, s: State, w: nat, offset: nat, limit: int, current: int, stamp: nat,
                                    v: nat)
    requires Near(c, s, w) && Counts(c, s) && Exact(c, s) && s.workers[w].pc == Cas(offset, limit, current, stamp)
    requires v == Victim(w, offset, c.workers) && v < c.workers && s.cursors[v] != current
    ensures Counts(c, ClaimStep(c, s, w)) && stamp < s.hist.claims[v]
  {
    assert TrueLimit(c, s.host, s.job, s.workers[w], w) && StampOk(c, s, s.workers[w], w);
    KeepsFrame(c, s, ClaimStep(c, s, w), w);
  }

  /** A compare-exchange either claims exactly one more chunk or was overtaken and changes nothing. */
  lemma {:induction false} CasCount(c: Config, s: State, w: nat, offset: nat, limit: int, current: int, stamp: nat)
    requires Near(c, s, w) && Counts(c, s) && Exact(c, s) && s.workers[w].pc == Cas(offset, limit, current, stamp)
    ensures Counts(c, ClaimStep(c, s, w))
  {
    VictimInPool(w, offset, c.workers);
    var v := Victim(w, offset, c.workers);
    if s.cursors[v] == current {
      CasWins(c, s, w, offset, limit, current, stamp, v);
    } else {
      CasLoses(c, s, w, offset, limit, current, stamp, v);
    }
  }

  lemma WorkCount(c: Config, s: State, w: nat, time: int)
    requires Ctl(c, s) && Counts(c, s) && Exact(c, s) && w < c.workers
    ensures Counts(c, WorkStep(c, s, w, time))
  {
    Nearby(c, s, w);
    assert TrueLimit(c, s.host, s.job, s.workers[w], w) && StampOk(c, s, s.workers[w], w);
    var pc := s.workers[w].pc;
    if pc.Cas? {
      CasCount(c, s, w, pc.offset, pc.limit, pc.current, pc.stamp);
    } else {
      if Waiting(pc) { WaitCount(c, s, w); }
      else if pc.Read? { ReadCount(c, s, w, pc.k); }
      else if pc.Scan? {
        VictimInPool(w, pc.offset, c.workers);
        var v := Victim(w, pc.offset, c.workers);
        if Published(s.host, v) { PublishedEnds(c, s, v); }
        ScanCount(c, s, w, pc.offset);
      }
      else if Claiming(pc) { ProbeCount(c, s, w); }
      else if InKernel(pc) { KernelCount(c, s, w); }
      else { PublishCount(c, s, w, time); }
      KeepsFrame(c, s, WorkStep(c, s, w, time), w);
    }
  }

  lemma HostCount(c: Config, s: State, r: State)
    requires WF(c, s) && WF(c, r) && Counts(c, s) && Exact(c, s)
    requires r.job == s.job && r.hist.claims == s.hist.claims && r.hist.early == s.hist.early
    requires r.hist.hazard == s.hist.hazard
    requires forall v :: 0 <= v < c.workers ==>
      && (Published(s.host, v) ==> Published(r.host, v) && r.cursors[v] == s.cursors[v])
      && CountOk(Stored(r.host, v, CURSOR_WORD), r.job.bounds[v], r.job.bounds[v + 1], r.cursors[v],
                 r.hist.claims[v], r.job.grain)
    requires forall u :: 0 <= u < c.workers ==>
      r.workers[u] == s.workers[u] || (s.workers[u].pc.Asleep? && r.workers[u] == s.workers[u].(pc := Check))
    ensures Counts(c, r)
  {
    forall u | 0 <= u < c.workers
      ensures TrueLimit(c, r.host, r.job, r.workers[u], u) && StampOk(c, r, r.workers[u], u)
    {
      assert TrueLimit(c, s.host, s.job, s.workers[u], u) && StampOk(c, s, s.workers[u], u);
      if r.workers[u].pc.Cas? { VictimInPool(u, r.workers[u].pc.offset, c.workers); }
    }
  }

  lemma StoreCount(c: Config, s: State, v: int)
    requires Safe(c, s) && s.job.grain > 0 && 0 <= v < c.workers && HostOk(c, s) && !s.host.Complete?
    requires CountOk(Stored(s.host, v, CURSOR_WORD), s.job.bounds[v], s.job.bounds[v + 1],
                     s.cursors[v], s.hist.claims[v], s.job.grain)
    ensures var r := HostMove(c, s);
      && (Published(s.host, v) ==> Published(r.host, v) && r.cursors[v] == s.cursors[v])
      && CountOk(Stored(r.host, v, CURSOR_WORD), s.job.bounds[v], s.job.bounds[v + 1], r.cursors[v],
                 s.hist.claims[v], s.job.grain)
  {}

  /** A hazard is always an early touch. */
  lemma HazardIsEarly(c: Config, s: State, a: Action)
    requires WF(c, s) && (s.hist.hazard ==> s.hist.early)
    ensures Next(c, s, a).hist.hazard ==> Next(c, s, a).hist.early
  {}

  lemma ExactBefore(c: Config, s: State, a: Action)
    requires WF(c, s) && Exact(c, Next(c, s, a)) && !a.Dispatch?
    ensures Exact(c, s)
    ensures a.HostStep? ==> !s.host.Complete?
  {
    SafeBefore(c, s, a);
  }

  lemma {:induction false} HostWakes(c: Config, s: State, u: nat)
    requires WF(c, s) && u < c.workers
    ensures var r := HostMove(c, s);
      r.workers[u] == s.workers[u] || (s.workers[u].pc.Asleep? && r.workers[u] == s.workers[u].(pc := Check))
  {}

  lemma {:induction false} HostKeepsBook(c: Config, s: State)
    requires WF(c, s) && !s.host.Complete?
    ensures var r := HostMove(c, s); r.job == s.job && r.hist == s.hist
  {}

  lemma {:induction false} HostStepCount(c: Config, s: State)
    requires Ctl(c, s) && Counts(c, s) && Exact(c, s) && !s.host.Complete?
    ensures Counts(c, HostMove(c, s))
  {
    var r := HostMove(c, s);
    HostKeepsBook(c, s);
    forall v | 0 <= v < c.workers
      ensures Published(s.host, v) ==> Published(r.host, v) && r.cursors[v] == s.cursors[v]
      ensures CountOk(Stored(r.host, v, CURSOR_WORD), r.job.bounds[v], r.job.bounds[v + 1], r.cursors[v],
                      r.hist.claims[v], r.job.grain)
    {
      StoreCount(c, s, v);
    }
    forall u | 0 <= u < c.workers
      ensures r.workers[u] == s.workers[u] || (s.workers[u].pc.Asleep? && r.workers[u] == s.workers[u].(pc := Check))
    {
      HostWakes(c, s, u);
    }
    HostCount(c, s, r);
  }

  lemma DispatchCount(c: Config, s: State, job: Job)
    requires Ctl(c, s) && s.host.Ready? && ValidJob(c, job)
    ensures Counts(c, StartJob(c, s, job))
  {
    forall w | 0 <= w < c.workers ensures Idle(s.workers[w].pc) { Nearby(c, s, w); }
  }

  lemma CountNext(c: Config, s: State, a: Action)
    requires Ctl(c, s) && Counts(c, s)
    ensures Counts(c, Next(c, s, a))
  {
    var r := Next(c, s, a);
    HazardIsEarly(c, s, a);
    if Exact(c, r) {
      match a
      case Dispatch(job) => if s.host.Ready? && ValidJob(c, job) { DispatchCount(c, s, job); }
      case Cancel =>
        ExactBefore(c, s, a);
        HostCount(c, s, r);
      case HostStep =>
        ExactBefore(c, s, a);
        HostStepCount(c, s);
      case Work(w, time) =>
        ExactBefore(c, s, a);
        if w < c.workers { WorkCount(c, s, w, time); }
      case Throw(w) =>
        ExactBefore(c, s, a);
        if w < c.workers {
          Nearby(c, s, w);
          assert TrueLimit(c, s.host, s.job, s.workers[w], w) && StampOk(c, s, s.workers[w], w);
          ThrowCount(c, s, w);
          KeepsFrame(c, s, r, w);
        }
    }
  }
}
