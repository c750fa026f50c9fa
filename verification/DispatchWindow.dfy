/**
 The publication window is real: a dynamic dispatch that begins with a slot that is not quiet has
 a schedule on which some index is processed twice or outside the range. Together with the
 exclusiveness theorem this gives the exact condition, readable from the control words beforehand.
 */
module DispatchWindow {
  import opened Int32
  import opened Kernels
  import opened DispatchModel
  import opened DispatchControl
  import opened DispatchCoverage
  import opened DispatchExclusive
  import opened DispatchRuns

  /** The state a schedule leads to from an arbitrary state. */
  ghost function Play(c: Config, s: State, schedule: seq<Action>): (t: State)
    requires WF(c, s)
    ensures WF(c, t)
    decreases |schedule|
  {
    if schedule == [] then s else Play(c, Next(c, s, schedule[0]), schedule[1..])
  }

  /** A run written out with its states. */
  ghost predicate Path(c: Config, states: seq<State>, actions: seq<Action>) {
    && |states| == |actions| + 1
    && forall i {:trigger actions[i]} :: 0 <= i < |actions| ==>
        WF(c, states[i]) && states[i + 1] == Next(c, states[i], actions[i])
  }

  ghost predicate Connects(c: Config, s: State, t: State) {
    exists states, actions :: Path(c, states, actions) && states[0] == s && states[|actions|] == t
  }

  ghost predicate Reachable(c: Config, s: State) {
    ValidConfig(c) && exists data :: |data| == c.capacity && Connects(c, Init(c, data), s)
  }

  /** t follows s on some schedule. */
  ghost predicate Leads(c: Config, s: State, t: State) {
    WF(c, s) && WF(c, t) && Reachable(c, t) && Connects(c, s, t)
  }

  lemma {:induction false} PathPlays(c: Config, states: seq<State>, actions: seq<Action>)
    requires Path(c, states, actions) && WF(c, states[0])
    ensures Play(c, states[0], actions) == states[|actions|]
    decreases |actions|
  {
    if actions != [] {
      var first := actions[0];
      forall i | 0 <= i < |actions| - 1
        ensures WF(c, states[1..][i]) && states[1..][i + 1] == Next(c, states[1..][i], actions[1..][i])
      {
        assert actions[i + 1] == actions[1..][i];
      }
      PathPlays(c, states[1..], actions[1..]);
    }
  }

  /** What some path connects, some schedule plays. */
  lemma {:induction false} Plays(c: Config, s: State, t: State) returns (schedule: seq<Action>)
    requires WF(c, s) && Connects(c, s, t)
    ensures Play(c, s, schedule) == t
  {
    var states, actions :| Path(c, states, actions) && states[0] == s && states[|actions|] == t;
    PathPlays(c, states, actions);
    schedule := actions;
  }

  lemma {:induction false} ConnectsThen(c: Config, s: State, t: State, u: State)
    requires Connects(c, s, t) && Connects(c, t, u)
    ensures Connects(c, s, u)
  {
    var xs, a :| Path(c, xs, a) && xs[0] == s && xs[|a|] == t;
    var ys, b :| Path(c, ys, b) && ys[0] == t && ys[|b|] == u;
    var zs, d := xs + ys[1..], a + b;
    forall i | 0 <= i < |d| ensures WF(c, zs[i]) && zs[i + 1] == Next(c, zs[i], d[i]) {
      if i < |a| { assert d[i] == a[i]; } else { assert d[i] == b[i - |a|]; }
    }
    assert zs[|d|] == u;
    assert Path(c, zs, d);
  }

  lemma {:induction false} ConnectsOne(c: Config, s: State, a: Action)
    requires WF(c, s)
    ensures Connects(c, s, s) && Connects(c, s, Next(c, s, a))
  {
    assert Path(c, [s], []);
    assert Path(c, [s, Next(c, s, a)], [a]);
  }

  lemma {:induction false} PathInv(c: Config, states: seq<State>, actions: seq<Action>, n: nat)
    requires Path(c, states, actions) && Inv(c, states[0]) && n <= |actions|
    ensures Inv(c, states[n])
  {
    if n > 0 {
      PathInv(c, states, actions, n - 1);
      var last := actions[n - 1];
      InvNext(c, states[n - 1], last);
    }
  }

  lemma {:induction false} ReachableInv(c: Config, s: State)
    requires Reachable(c, s)
    ensures Inv(c, s)
  {
    var data :| |data| == c.capacity && Connects(c, Init(c, data), s);
    Always(c, data, []);
    var states, actions :| Path(c, states, actions) && states[0] == Init(c, data) && states[|actions|] == s;
    PathInv(c, states, actions, |actions|);
  }

  lemma {:induction false} Close(c: Config, s: State, w: nat)
    requires Reachable(c, s) && w < c.workers
    ensures Near(c, s, w) && (!s.host.Ready? ==> ValidJob(c, s.job))
  {
    ReachableInv(c, s);
    Nearby(c, s, w);
  }

  lemma {:induction false} Stay(c: Config, s: State)
    requires Reachable(c, s) && WF(c, s)
    ensures Leads(c, s, s)
  {
    ConnectsOne(c, s, HostStep);
  }

  lemma {:induction false} Then(c: Config, s: State, t: State, u: State)
    requires Leads(c, s, t) && Leads(c, t, u)
    ensures Leads(c, s, u)
  {
    ConnectsThen(c, s, t, u);
  }

  lemma {:induction false} Go(c: Config, s: State, a: Action) returns (t: State)
    requires Reachable(c, s) && WF(c, s)
    ensures t == Next(c, s, a) && Leads(c, s, t)
  {
    t := Next(c, s, a);
    ConnectsOne(c, s, a);
    var data :| |data| == c.capacity && Connects(c, Init(c, data), s);
    ConnectsThen(c, Init(c, data), s, t);
  }

  // ---- one worker runs alone

  /** Only worker w and the cursor of shard v have moved, and nothing was unprocessed. */
  ghost predicate Solo(c: Config, s: State, t: State, w: nat, v: nat) {
    && WF(c, s) && WF(c, t) && w < c.workers && v < c.workers && Kept(s, t) && t.outs == s.outs
    && t.workers == s.workers[w := t.workers[w]] && t.cursors == s.cursors[v := t.cursors[v]]
    && forall x :: s.hist.visits[x] <= t.hist.visits[x]
  }

  /** Worker w is running a dynamic dispatch that resolves and was not cancelled. */
  ghost predicate Live(c: Config, s: State, w: nat) {
    && Reachable(c, s) && WF(c, s) && w < c.workers && Dynamic(c, s) && s.cancelSeq == s.hist.baseline
    && Published(s.host, w)
  }

  ghost predicate AtProbe(s: State, w: nat, offset: nat, limit: int)
  {
    w < |s.workers| && s.workers[w].pc == Probe(offset, limit)
  }

  /** One more processed occurrence for each index of [lo, hi). */
  ghost predicate Gained(s: State, t: State, lo: int, hi: int) {
    forall x :: s.hist.visits[x] + (if lo <= x < hi then 1 else 0) <= t.hist.visits[x]
  }

  ghost predicate InChunk(c: Config, s: State, w: nat) {
    Live(c, s, w) && s.workers[w].seen == s.epoch && InKernel(s.workers[w].pc) && s.workers[w].pc.ret.Chunk?
  }

  /** The kernel is inside the call it was in, or at the probe it returns to. */
  ghost predicate SameCall(s: State, t: State, w: nat)
    requires w < |s.workers| && w < |t.workers| && InKernel(s.workers[w].pc)
  {
    InKernel(t.workers[w].pc) && t.workers[w].pc.ret == s.workers[w].pc.ret && t.workers[w].pc.hi == s.workers[w].pc.hi
  }

  lemma {:induction false} SoloThen(c: Config, s: State, t: State, u: State, w: nat, v: nat)
    requires Solo(c, s, t, w, v) && Solo(c, t, u, w, v)
    ensures Solo(c, s, u, w, v)
  {}

  /** Gains over two consecutive stretches add up to the gain over both. */
  lemma {:induction false} GainedThen(s: State, t: State, u: State, lo: int, mid: int, hi: int)
    requires Gained(s, t, lo, mid) && Gained(t, u, mid, hi) && lo <= mid <= hi
    ensures Gained(s, u, lo, hi)
  {}

  lemma {:induction false} LoopEffect(c: Config, s: State, w: nat)
    requires Near(c, s, w) && !s.host.Ready? && Resolves(c, s.job) && s.workers[w].seen == s.epoch
    requires Published(s.host, w) && s.workers[w].pc.Loop? && s.workers[w].pc.ret.Chunk?
    ensures
      var t, pc := WorkStep(c, s, w, 0), s.workers[w].pc;
      var sources := KernelOf(c, s.job).sources(s.job.argument, pc.header, pc.i);
      && Solo(c, s, t, w, w) && t.cursors == s.cursors
      && if pc.i >= pc.hi then t.workers[w].pc == Recheck(pc.ret.offset, pc.ret.limit)
         else
           && SameCall(s, t, w) && t.workers[w].pc.Loop?
           && if |pc.buffer| < |sources| then
                && |t.workers[w].pc.buffer| == |pc.buffer| + 1
                && t.workers[w].pc.i == pc.i && t.workers[w].pc.header == pc.header
              else t.workers[w].pc.i == pc.i + 1 && Gained(s, t, pc.i, pc.i + 1)
  {}

  lemma {:induction false} EnterEffect(c: Config, s: State, w: nat)
    requires Near(c, s, w) && !s.host.Ready? && Resolves(c, s.job) && s.workers[w].seen == s.epoch
    requires Published(s.host, w) && s.workers[w].pc.Enter? && s.workers[w].pc.ret.Chunk?
    ensures
      var t, pc := WorkStep(c, s, w, 0), s.workers[w].pc;
      && Solo(c, s, t, w, w) && t.cursors == s.cursors && SameCall(s, t, w) && t.workers[w].pc.lo == pc.lo
      && if |pc.header| < KernelOf(c, s.job).header
         then t.workers[w].pc.Enter? && |t.workers[w].pc.header| == |pc.header| + 1
         else t.workers[w].pc.Loop? && t.workers[w].pc.i == pc.lo
  {}

  /** Back from the kernel, the worker looks for cancellation twice and finds none. */
  lemma {:induction false} RecheckEffect(c: Config, s: State, w: nat)
    requires Near(c, s, w) && !s.host.Ready? && s.workers[w].seen == s.epoch && Published(s.host, w)
    requires s.workers[w].pc.Recheck? && s.cancelSeq == s.hist.baseline
    ensures
      var t, pc := WorkStep(c, s, w, 0), s.workers[w].pc;
      Solo(c, s, t, w, w) && t.cursors == s.cursors && t.workers[w].pc == Probe(pc.offset, pc.limit)
      && t.workers[w].seen == s.epoch && t.hist.visits == s.hist.visits
  {}

  lemma {:induction false} LoopGo(c: Config, s: State, w: nat) returns (t: State)
    requires InChunk(c, s, w) && s.workers[w].pc.Loop?
    ensures Leads(c, s, t) && Solo(c, s, t, w, w) && t.cursors == s.cursors
    ensures t.workers[w].seen == s.epoch
    ensures
      var pc := s.workers[w].pc;
      var sources := KernelOf(c, s.job).sources(s.job.argument, pc.header, pc.i);
      if pc.i >= pc.hi then t.workers[w].pc == Recheck(pc.ret.offset, pc.ret.limit)
      else
        && SameCall(s, t, w) && t.workers[w].pc.Loop?
        && if |pc.buffer| < |sources| then
             && |t.workers[w].pc.buffer| == |pc.buffer| + 1
             && t.workers[w].pc.i == pc.i && t.workers[w].pc.header == pc.header
           else t.workers[w].pc.i == pc.i + 1 && Gained(s, t, pc.i, pc.i + 1)
  {
    Close(c, s, w);
    LoopEffect(c, s, w);
    t := GoWork(c, s, w);
    Close(c, t, w);
  }

  lemma {:induction false} GoWork(c: Config, s: State, w: nat) returns (t: State)
    requires Reachable(c, s) && WF(c, s) && w < c.workers
    ensures t == WorkStep(c, s, w, 0) && Leads(c, s, t)
  {
    t := Go(c, s, Work(w, 0));
  }

  lemma {:induction false} RecheckGo(c: Config, s: State, w: nat) returns (t: State)
    requires Live(c, s, w) && s.workers[w].seen == s.epoch && s.workers[w].pc.Recheck?
    ensures Leads(c, s, t) && Solo(c, s, t, w, w) && t.cursors == s.cursors
    ensures t.workers[w].pc == Probe(s.workers[w].pc.offset, s.workers[w].pc.limit) && t.workers[w].seen == s.epoch
  {
    Close(c, s, w);
    RecheckEffect(c, s, w);
    t := GoWork(c, s, w);
  }

  lemma {:induction false} EnterGo(c: Config, s: State, w: nat) returns (t: State)
    requires InChunk(c, s, w) && s.workers[w].pc.Enter?
    ensures Leads(c, s, t) && Solo(c, s, t, w, w) && t.cursors == s.cursors && SameCall(s, t, w)
    ensures t.workers[w].seen == s.epoch && t.workers[w].pc.lo == s.workers[w].pc.lo
    ensures if |s.workers[w].pc.header| < KernelOf(c, s.job).header
      then t.workers[w].pc.Enter? && |t.workers[w].pc.header| == |s.workers[w].pc.header| + 1
      else t.workers[w].pc.Loop? && t.workers[w].pc.i == s.workers[w].pc.lo
  {
    Close(c, s, w);
    EnterEffect(c, s, w);
    t := GoWork(c, s, w);
  }

  lemma {:induction false} FinishLoop(c: Config, s: State, w: nat) returns (t: State)
    requires InChunk(c, s, w) && s.workers[w].pc.Loop?
    ensures Leads(c, s, t) && Solo(c, s, t, w, w) && t.cursors == s.cursors && t.workers[w].seen == s.epoch
    ensures AtProbe(t, w, s.workers[w].pc.ret.offset, s.workers[w].pc.ret.limit)
    ensures Gained(s, t, s.workers[w].pc.i, s.workers[w].pc.hi)
    decreases s.workers[w].pc.hi - s.workers[w].pc.i,
      |KernelOf(c, s.job).sources(s.job.argument, s.workers[w].pc.header, s.workers[w].pc.i)| - |s.workers[w].pc.buffer|
  {
    var u := LoopGo(c, s, w);
    if s.workers[w].pc.i >= s.workers[w].pc.hi {
      t := RecheckGo(c, u, w);
    } else {
      t := FinishLoop(c, u, w);
      if u.workers[w].pc.i > s.workers[w].pc.i {
        GainedThen(s, u, t, s.workers[w].pc.i, u.workers[w].pc.i, s.workers[w].pc.hi);
      }
    }
    SoloThen(c, s, u, t, w, w);
    Then(c, s, u, t);
  }

  lemma {:induction false} FinishCall(c: Config, s: State, w: nat) returns (t: State)
    requires InChunk(c, s, w) && s.workers[w].pc.Enter?
    ensures Leads(c, s, t) && Solo(c, s, t, w, w) && t.cursors == s.cursors && t.workers[w].seen == s.epoch
    ensures AtProbe(t, w, s.workers[w].pc.ret.offset, s.workers[w].pc.ret.limit)
    ensures Gained(s, t, s.workers[w].pc.lo, s.workers[w].pc.hi)
    decreases KernelOf(c, s.job).header - |s.workers[w].pc.header|
  {
    var u := EnterGo(c, s, w);
    if u.workers[w].pc.Loop? { t := FinishLoop(c, u, w); } else { t := FinishCall(c, u, w); }
    Then(c, s, u, t);
  }

  // ---- claiming

  ghost predicate Hunting(c: Config, s: State, w: nat, offset: nat, limit: int) {
    Live(c, s, w) && s.workers[w].seen == s.epoch && AtProbe(s, w, offset, limit)
  }

  lemma {:induction false} ProbeGo(c: Config, s: State, w: nat, offset: nat, limit: int) returns (t: State)
    requires Hunting(c, s, w, offset, limit)
    ensures Leads(c, s, t) && Solo(c, s, t, w, w) && t.cursors == s.cursors && t.hist.visits == s.hist.visits
    ensures t.workers[w].pc == LoadCursor(offset, limit) && t.workers[w].seen == s.epoch
  {
    Close(c, s, w);
    t := GoWork(c, s, w);
  }

  lemma {:induction false} CursorGo(c: Config, s: State, w: nat, offset: nat, limit: int) returns (t: State)
    requires Live(c, s, w) && s.workers[w].seen == s.epoch && s.workers[w].pc == LoadCursor(offset, limit)
    ensures Leads(c, s, t) && Solo(c, s, t, w, w) && t.cursors == s.cursors && t.hist.visits == s.hist.visits
    ensures t.workers[w].seen == s.epoch
    ensures var v := Victim(w, offset, c.workers);
      v < c.workers &&
      if s.cursors[v] < limit then t.workers[w].pc.Cas? && t.workers[w].pc.offset == offset
           && t.workers[w].pc.limit == limit && t.workers[w].pc.current == s.cursors[v]
      else t.workers[w].pc == Scan(offset + 1) && t.workers[w].status == OK
  {
    Close(c, s, w);
    VictimInPool(w, offset, c.workers);
    t := GoWork(c, s, w);
  }

  lemma {:induction false} CasGo(c: Config, s: State, w: nat, offset: nat, limit: int, current: int) returns (t: State)
    requires Live(c, s, w) && s.workers[w].seen == s.epoch && s.workers[w].pc.Cas?
    requires s.workers[w].pc.offset == offset && s.workers[w].pc.limit == limit && s.workers[w].pc.current == current
    requires var v := Victim(w, offset, c.workers); v < c.workers && s.cursors[v] == current
    ensures
      var v, next := Victim(w, offset, c.workers),
          if current + s.job.grain < limit then current + s.job.grain else limit;
      && Leads(c, s, t) && Solo(c, s, t, w, v) && t.cursors[v] == next && t.workers[w].seen == s.epoch
      && t.workers[w].pc == Enter(Chunk(offset, limit), current, next, []) && t.hist.visits == s.hist.visits
  {
    Close(c, s, w);
    t := GoWork(c, s, w);
  }

  /** A worker at its probe loads its victim's cursor. */
  lemma {:induction false} LoadNext(c: Config, s: State, w: nat, offset: nat, limit: int, v: nat) returns (t: State)
    requires Hunting(c, s, w, offset, limit) && v == Victim(w, offset, c.workers) && v < c.workers
    requires s.cursors[v] < limit
    ensures Leads(c, s, t) && Solo(c, s, t, w, w) && t.cursors == s.cursors && t.workers[w].seen == s.epoch
    ensures t.hist.visits == s.hist.visits && t.workers[w].pc.Cas? && t.workers[w].pc.offset == offset
    ensures t.workers[w].pc.limit == limit && t.workers[w].pc.current == s.cursors[v]
  {
    var a := ProbeGo(c, s, w, offset, limit);
    t := CursorGo(c, a, w, offset, limit);
    Then(c, s, a, t);
  }

  /** It claims the next chunk. */
  lemma {:induction false} ClaimNext(c: Config, s: State, w: nat, offset: nat, limit: int, v: nat) returns (t: State)
    requires Hunting(c, s, w, offset, limit) && v == Victim(w, offset, c.workers) && v < c.workers
    requires s.cursors[v] < limit
    ensures Leads(c, s, t) && Solo(c, s, t, w, v) && t.workers[w].seen == s.epoch && t.hist.visits == s.hist.visits
    ensures t.cursors[v] == if s.cursors[v] + s.job.grain < limit then s.cursors[v] + s.job.grain else limit
    ensures t.workers[w].pc == Enter(Chunk(offset, limit), s.cursors[v], t.cursors[v], [])
  {
    var b := LoadNext(c, s, w, offset, limit, v);
    t := CasGo(c, b, w, offset, limit, s.cursors[v]);
    Then(c, s, b, t);
  }

  /** And processes it. */
  lemma {:induction false} TakeChunk(c: Config, s: State, w: nat, offset: nat, limit: int, v: nat) returns (t: State)
    requires Hunting(c, s, w, offset, limit) && v == Victim(w, offset, c.workers) && v < c.workers
    requires s.cursors[v] < limit
    ensures Leads(c, s, t) && Solo(c, s, t, w, v) && Hunting(c, t, w, offset, limit)
    ensures t.cursors[v] == if s.cursors[v] + s.job.grain < limit then s.cursors[v] + s.job.grain else limit
    ensures Gained(s, t, s.cursors[v], t.cursors[v])
  {
    var d := ClaimNext(c, s, w, offset, limit, v);
    t := FinishCall(c, d, w);
    Then(c, s, d, t);
  }

  /** The worker goes on until index x of its victim's shard has been processed once more. */
  lemma {:induction false} Advance(c: Config, s: State, w: nat, offset: nat, limit: int, v: nat, x: int)
    returns (t: State)
    requires Hunting(c, s, w, offset, limit) && v == Victim(w, offset, c.workers) && v < c.workers
    requires s.cursors[v] <= x < limit
    ensures Leads(c, s, t) && Solo(c, s, t, w, v) && Hunting(c, t, w, offset, limit)
    ensures x < t.cursors[v] && Gained(s, t, s.cursors[v], x + 1)
    decreases x - s.cursors[v]
  {
    var u := TakeChunk(c, s, w, offset, limit, v);
    if x < u.cursors[v] {
      t := u;
    } else {
      t := Advance(c, u, w, offset, limit, v, x);
      SoloThen(c, s, u, t, w, v);
      GainedThen(s, u, t, s.cursors[v], u.cursors[v], x + 1);
      Then(c, s, u, t);
    }
  }

  lemma {:induction false} ScanEffect(c: Config, s: State, w: nat, offset: nat, v: nat)
    requires Near(c, s, w) && Dynamic(c, s) && Published(s.host, w) && s.workers[w].seen == s.epoch
    requires s.workers[w].pc == Scan(offset) && offset < c.workers
    requires s.workers[w].status == OK && v == Victim(w, offset, c.workers) && v < c.workers
    ensures
      var t := WorkStep(c, s, w, 0);
      && Solo(c, s, t, w, w) && t.cursors == s.cursors && t.hist.visits == s.hist.visits
      && t.workers[w].pc == Probe(offset, s.slots[v].end) && t.workers[w].seen == s.epoch
  {}

  lemma {:induction false} ScanGo(c: Config, s: State, w: nat, offset: nat, v: nat) returns (t: State)
    requires Live(c, s, w) && s.workers[w].seen == s.epoch && s.workers[w].pc == Scan(offset) && offset < c.workers
    requires s.workers[w].status == OK && v == Victim(w, offset, c.workers) && v < c.workers
    ensures Leads(c, s, t) && Solo(c, s, t, w, w) && t.cursors == s.cursors && t.hist.visits == s.hist.visits
    ensures Hunting(c, t, w, offset, s.slots[v].end)
  {
    Close(c, s, w);
    ScanEffect(c, s, w, offset, v);
    t := GoWork(c, s, w);
  }

  /** With nothing left below its limit, the worker leaves the victim. */
  lemma {:induction false} GiveUp(c: Config, s: State, w: nat, offset: nat, limit: int, v: nat) returns (t: State)
    requires Hunting(c, s, w, offset, limit) && v == Victim(w, offset, c.workers) && v < c.workers
    requires s.cursors[v] >= limit
    ensures Leads(c, s, t) && Solo(c, s, t, w, w) && t.cursors == s.cursors && t.hist.visits == s.hist.visits
    ensures t.workers[w].pc == Scan(offset + 1) && t.workers[w].status == OK && t.workers[w].seen == s.epoch
    ensures Live(c, t, w) && t.epoch == s.epoch && t.slots == s.slots
  {
    var a := ProbeGo(c, s, w, offset, limit);
    t := CursorGo(c, a, w, offset, limit);
    Then(c, s, a, t);
  }

  lemma {:induction false} Neighbours(w: nat, n: nat)
    requires w + 1 < n
    ensures Victim(w, 0, n) == w && Victim(w, 1, n) == w + 1
  {}

  /** A worker that has drained its own shard turns to the next slot. */
  lemma {:induction false} TurnNext(c: Config, s: State, w: nat, limit: int) returns (t: State)
    requires Hunting(c, s, w, 0, limit) && w + 1 < c.workers && s.cursors[w] >= limit
    ensures Leads(c, s, t) && Solo(c, s, t, w, w) && t.cursors == s.cursors && t.hist.visits == s.hist.visits
    ensures Hunting(c, t, w, 1, s.slots[w + 1].end)
  {
    Neighbours(w, c.workers);
    t := Turn(c, s, w, 0, 1, limit, w, w + 1);
  }

  lemma {:induction false} Turn(c: Config, s: State, w: nat, offset: nat, after: nat, limit: int, v: nat, next: nat)
    returns (t: State)
    requires Hunting(c, s, w, offset, limit) && after == offset + 1 && after < c.workers
    requires v == Victim(w, offset, c.workers) && v < c.workers && s.cursors[v] >= limit
    requires next == Victim(w, after, c.workers) && next < c.workers
    ensures Leads(c, s, t) && Solo(c, s, t, w, w) && t.cursors == s.cursors && t.hist.visits == s.hist.visits
    ensures Hunting(c, t, w, after, s.slots[next].end)
  {
    var a := GiveUp(c, s, w, offset, limit, v);
    t := ScanGo(c, a, w, after, next);
    SoloThen(c, s, a, t, w, w);
    Then(c, s, a, t);
  }

  // ---- a worker picks up the dispatch

  predicate Starting(pc: Pc) {
    pc.PubNotify? || pc.Park? || pc.Check? || pc.Reload? || pc.ReadStop? || pc.Read? || pc == Scan(0)
  }

  function Distance(pc: Pc): int {
    if pc.PubNotify? then 14 else if pc.Park? then 13 else if pc.Check? then 12 else if pc.Reload? then 11
    else if pc.ReadStop? then 10 else if pc.Read? then 9 - pc.k else 1
  }

  /** Between noticing the new epoch and the first probe; the status is fresh once scanning. */
  ghost predicate Picking(c: Config, s: State, w: nat) {
    && Live(c, s, w) && Starting(s.workers[w].pc)
    && (s.workers[w].pc == Scan(0) ==> s.workers[w].status == OK)
    && (s.workers[w].seen == s.epoch ==> !Idle(s.workers[w].pc) && !s.workers[w].pc.Reload?)
  }

  /** One step of picking up, either way nothing but the worker's own position moves. */
  ghost predicate Picked(c: Config, s: State, t: State, w: nat) {
    && Leads(c, s, t) && Solo(c, s, t, w, w) && t.cursors == s.cursors && t.hist.visits == s.hist.visits
    && Picking(c, t, w) && 0 < Distance(t.workers[w].pc) < Distance(s.workers[w].pc)
  }

  lemma {:induction false} PickWait(c: Config, s: State, w: nat) returns (t: State)
    requires Picking(c, s, w) && Waiting(s.workers[w].pc)
    ensures Picked(c, s, t, w)
  {
    Close(c, s, w);
    t := GoWork(c, s, w);
  }

  lemma {:induction false} PickNotify(c: Config, s: State, w: nat) returns (t: State)
    requires Picking(c, s, w) && s.workers[w].pc.PubNotify?
    ensures Picked(c, s, t, w)
  {
    Close(c, s, w);
    t := GoWork(c, s, w);
  }

  lemma {:induction false} ReadEffect(c: Config, s: State, w: nat, k: nat)
    requires Near(c, s, w) && !s.host.Ready? && Published(s.host, w) && s.workers[w].pc == Read(k) && s.job.grain > 0
    ensures var t := ReadStep(c, s, w, k);
      && Solo(c, s, t, w, w) && t.cursors == s.cursors && t.hist.visits == s.hist.visits && k <= 7
      && t.workers[w].pc == (if k < 7 then Read(k + 1) else Scan(0))
      && (k == 7 ==> t.workers[w].status == OK)
  {}

  lemma {:induction false} PickRead(c: Config, s: State, w: nat) returns (t: State)
    requires Picking(c, s, w) && s.workers[w].pc.Read?
    ensures Picked(c, s, t, w)
  {
    Close(c, s, w);
    ReadEffect(c, s, w, s.workers[w].pc.k);
    t := GoWork(c, s, w);
  }

  lemma {:induction false} PickScan(c: Config, s: State, w: nat) returns (t: State)
    requires Picking(c, s, w) && s.workers[w].pc == Scan(0)
    ensures Leads(c, s, t) && Solo(c, s, t, w, w) && t.cursors == s.cursors && t.hist.visits == s.hist.visits
    ensures Hunting(c, t, w, 0, s.job.bounds[w + 1])
  {
    Close(c, s, w);
    VictimInPool(w, 0, c.workers);
    t := ScanGo(c, s, w, 0, w);
  }

  lemma {:induction false} PickOne(c: Config, s: State, w: nat) returns (t: State)
    requires Picking(c, s, w) && s.workers[w].pc != Scan(0)
    ensures Picked(c, s, t, w)
  {
    if s.workers[w].pc.Read? { t := PickRead(c, s, w); }
    else if s.workers[w].pc.PubNotify? { t := PickNotify(c, s, w); }
    else { t := PickWait(c, s, w); }
  }

  lemma {:induction false} Arrive(c: Config, s: State, w: nat) returns (t: State)
    requires Picking(c, s, w)
    ensures Leads(c, s, t) && Solo(c, s, t, w, w) && t.cursors == s.cursors && t.hist.visits == s.hist.visits
    ensures Hunting(c, t, w, 0, s.job.bounds[w + 1])
    decreases Distance(s.workers[w].pc)
  {
    if s.workers[w].pc == Scan(0) {
      t := PickScan(c, s, w);
    } else {
      var u := PickOne(c, s, w);
      t := Arrive(c, u, w);
      Then(c, s, u, t);
    }
  }

  lemma {:induction false} Pickable(c: Config, s: State, w: nat)
    requires Reachable(c, s) && WF(c, s) && Dynamic(c, s) && s.hist.requests == 0 && w < c.workers
    requires Published(s.host, w) && s.host != Write(w, 13) && s.workers[w].seen != s.epoch
    ensures Picking(c, s, w)
  {
    Close(c, s, w);
    ReachableInv(c, s);
  }

  /** A worker that has not noticed the dispatch can be made to process index x of its shard. */
  lemma {:induction false} Visit(c: Config, s: State, w: nat, x: int) returns (t: State)
    requires Picking(c, s, w) && s.cursors[w] <= x < s.job.bounds[w + 1]
    ensures Leads(c, s, t) && Kept(s, t) && Gained(s, t, x, x + 1)
  {
    VictimInPool(w, 0, c.workers);
    var u := Arrive(c, s, w);
    t := Advance(c, u, w, 0, s.job.bounds[w + 1], w, x);
    Then(c, s, u, t);
  }

  /** It can also drain its shard and stand before the next slot with the end it finds there. */
  lemma {:induction false} Thief(c: Config, s: State, w: nat) returns (t: State)
    requires Picking(c, s, w) && w + 1 < c.workers
    ensures Leads(c, s, t) && Solo(c, s, t, w, w) && Hunting(c, t, w, 1, s.slots[w + 1].end)
    ensures Gained(s, t, s.cursors[w], s.job.bounds[w + 1])
  {
    var a := Arrive(c, s, w);
    var b := DrainOwn(c, a, w, s.job.bounds[w + 1]);
    Then(c, s, a, b);
    t := TurnNext(c, b, w, s.job.bounds[w + 1]);
    Then(c, s, b, t);
  }

  lemma {:induction false} DrainOwn(c: Config, s: State, w: nat, limit: int) returns (t: State)
    requires Hunting(c, s, w, 0, limit)
    ensures Leads(c, s, t) && Solo(c, s, t, w, w) && Hunting(c, t, w, 0, limit) && t.cursors[w] >= limit
    ensures Gained(s, t, s.cursors[w], limit)
  {
    VictimInPool(w, 0, c.workers);
    if s.cursors[w] < limit {
      t := Advance(c, s, w, 0, limit, w, limit - 1);
    } else {
      t := s;
      Stay(c, s);
    }
  }

  // ---- the host runs alone

  ghost predicate WroteSlot(s: State, t: State, v: int)
    requires 0 <= v < |s.cursors| == |s.slots| == |t.cursors| == |t.slots| && v + 1 < |s.job.bounds|
  {
    && (Published(s.host, v) ==> Published(t.host, v))
    && (Stored(s.host, v, CURSOR_WORD) ==> Stored(t.host, v, CURSOR_WORD))
    && (Stored(s.host, v, END_WORD) ==> Stored(t.host, v, END_WORD))
    && t.cursors[v] == (if Stored(t.host, v, CURSOR_WORD) && !Stored(s.host, v, CURSOR_WORD)
                        then s.job.bounds[v] else s.cursors[v])
    && t.slots[v].end == (if Stored(t.host, v, END_WORD) && !Stored(s.host, v, END_WORD)
                          then s.job.bounds[v + 1] else s.slots[v].end)
  }

  /** The host has stored more words of this dispatch; nothing else changed. */
  ghost predicate Wrote(c: Config, s: State, t: State) {
    && WF(c, s) && WF(c, t) && !s.host.Ready? && !t.host.Ready? && t.hist == s.hist && t.job == s.job
    && t.epoch == s.epoch && t.cancelSeq == s.cancelSeq
    && (forall u :: 0 <= u < c.workers ==> t.workers[u] == s.workers[u] || s.workers[u].pc.Asleep?)
    && (forall u :: 0 <= u < c.workers ==> t.workers[u].seen == s.workers[u].seen)
    && (forall v :: 0 <= v < c.workers ==> WroteSlot(s, t, v))
  }

  lemma {:induction false} WroteThen(c: Config, s: State, t: State, u: State)
    requires Wrote(c, s, t) && Wrote(c, t, u)
    ensures Wrote(c, s, u)
  {
    forall v | 0 <= v < c.workers ensures WroteSlot(s, u, v) {
      assert WroteSlot(s, t, v) && WroteSlot(t, u, v);
    }
  }

  function After1(c: Config, host: Host): Host {
    match host
    case Count => Write(0, 0)
    case Write(id, k) =>
      if k < 13 then Write(id, k + 1) else if id + 1 < c.workers then Write(id + 1, 0) else ScanDone(0, false)
    case _ => host
  }

  lemma {:induction false} HostWrote(c: Config, s: State)
    requires WF(c, s) && (s.host.Count? || (s.host.Write? && s.host.id < c.workers && s.host.k <= 13))
    ensures Wrote(c, s, HostMove(c, s)) && HostMove(c, s).host == After1(c, s.host)
  {}

  lemma {:induction false} HostGo(c: Config, s: State) returns (t: State)
    requires Reachable(c, s) && WF(c, s)
    requires s.host.Count? || (s.host.Write? && s.host.id < c.workers && s.host.k <= 13)
    ensures Leads(c, s, t) && Wrote(c, s, t) && t.host == After1(c, s.host)
  {
    HostWrote(c, s);
    t := Go(c, s, HostStep);
  }

  lemma {:induction false} HostTo(c: Config, s: State, id: nat, k: nat) returns (t: State)
    requires Reachable(c, s) && WF(c, s) && s.host.Write? && s.host.k <= 13 && id < c.workers && k <= 13
    requires s.host.id < id || (s.host.id == id && s.host.k <= k)
    ensures Leads(c, s, t) && Wrote(c, s, t) && t.host == Write(id, k)
    decreases id - s.host.id, 13 - s.host.k
  {
    if s.host == Write(id, k) {
      t := s;
      Stay(c, s);
    } else {
      var u := HostGo(c, s);
      t := HostTo(c, u, id, k);
      WroteThen(c, s, u, t);
      Then(c, s, u, t);
    }
  }

  /** The host goes on until slot v is published and its worker notified. */
  lemma {:induction false} Publish(c: Config, s: State, v: nat) returns (t: State)
    requires Reachable(c, s) && WF(c, s) && s.host.Write? && s.host.k <= 13 && s.host.id <= v < c.workers
    ensures Leads(c, s, t) && Wrote(c, s, t) && Published(t.host, v) && t.host != Write(v, 13)
    ensures Stored(t.host, v, CURSOR_WORD)
  {
    var u := HostTo(c, s, v, 13);
    t := HostGo(c, u);
    WroteThen(c, s, u, t);
    Then(c, s, u, t);
  }

  // ---- the window

  /** Index x was processed twice, or outside the range. */
  ghost predicate BadAt(s: State, x: int) {
    !s.host.Ready? && |s.job.bounds| > 0 &&
    (s.hist.visits[x] > 1
     || (s.hist.visits[x] > 0 && !(s.job.bounds[0] <= x < s.job.bounds[|s.job.bounds| - 1])))
  }

  ghost predicate Bad(s: State) {
    exists x :: BadAt(s, x)
  }

  /** A dynamic dispatch has begun, the host has stored nothing and no worker has noticed. */
  ghost predicate Begun(c: Config, s: State) {
    && Reachable(c, s) && WF(c, s) && Dynamic(c, s) && s.host.Count? && ValidJob(c, s.job)
    && s.cancelSeq == s.hist.baseline && s.hist.requests == 0
    && (forall u :: 0 <= u < c.workers ==> s.workers[u].seen != s.epoch)
  }

  /** Later in the same dispatch. */
  ghost predicate Later(c: Config, s: State, t: State) {
    && Leads(c, s, t) && !t.host.Ready? && t.job == s.job && t.hist.dispatches == s.hist.dispatches
    && t.hist.requests == s.hist.requests && t.epoch == s.epoch
  }

  /** The shard of v - 1 has been processed; the earlier shards and everybody else stand where they were. */
  ghost predicate Robbed(c: Config, s: State, t: State, v: nat)
    requires 1 <= v < c.workers && WF(c, s) && WF(c, t) && |s.job.bounds| == c.workers + 1
  {
    && t.hist.base == s.hist.base && t.cursors[v] == s.cursors[v]
    && (forall u :: 0 <= u < c.workers && u != v - 1 ==> t.workers[u].seen == s.workers[u].seen)
    && (forall u :: 0 <= u < v - 1 ==> t.cursors[u] == s.job.bounds[u])
    && (forall x :: s.job.bounds[v - 1] <= x < s.job.bounds[v] ==> t.hist.visits[x] >= 1)
  }

  /** The host has come up to slot v and nobody else has moved. */
  ghost predicate Ahead(c: Config, s: State, b: State, v: nat)
    requires v < c.workers && WF(c, s) && WF(c, b) && |s.job.bounds| == c.workers + 1
  {
    && b.hist == s.hist && b.job == s.job && b.epoch == s.epoch && b.cancelSeq == s.cancelSeq
    && b.cursors[v] == s.cursors[v]
    && (forall u :: 0 <= u < c.workers ==> b.workers[u].seen == s.workers[u].seen)
    && (forall u :: 0 <= u < v ==> b.cursors[u] == s.job.bounds[u])
  }

  /** The thief v - 1 stands before slot v with the end stored there after k words. */
  lemma {:induction false} Reach(c: Config, s: State, v: nat, k: nat) returns (t: State)
    requires Begun(c, s) && 1 <= v < c.workers && k <= 8
    ensures Later(c, s, t) && t.host == Write(v, k) && Robbed(c, s, t, v)
    ensures Hunting(c, t, v - 1, 1, if k > 1 then s.job.bounds[v + 1] else s.slots[v].end)
  {
    var b := Approach(c, s, v, k);
    ThiefPicks(c, s, b, v, k);
    t := RobFrom(c, s, b, v, v - 1);
  }

  lemma {:induction false} ThiefPicks(c: Config, s: State, b: State, v: nat, k: nat)
    requires Begun(c, s) && 1 <= v < c.workers && k <= 8 && Leads(c, s, b) && Ahead(c, s, b, v) && b.host == Write(v, k)
    ensures Picking(c, b, v - 1)
  {
    Pickable(c, b, v - 1);
  }

  lemma {:induction false} RobFrom(c: Config, s: State, b: State, v: nat, w: nat) returns (t: State)
    requires v == w + 1 < c.workers && |s.job.bounds| == c.workers + 1
    requires Leads(c, s, b) && Picking(c, b, w) && Ahead(c, s, b, v)
    ensures Later(c, s, t) && t.host == b.host && Robbed(c, s, t, v) && Hunting(c, t, w, 1, b.slots[v].end)
  {
    t := Rob(c, s, b, v, w);
    LaterAlone(c, s, b, t, v, w);
  }

  lemma {:induction false} Rob(c: Config, s: State, b: State, v: nat, w: nat) returns (t: State)
    requires Leads(c, s, b) && Picking(c, b, w) && v == w + 1 < c.workers
    requires |s.job.bounds| == c.workers + 1 && Ahead(c, s, b, v)
    ensures Leads(c, s, t) && Solo(c, b, t, w, w) && Hunting(c, t, w, 1, b.slots[v].end) && Robbed(c, s, t, v)
  {
    t := Thief(c, b, w);
    Robs(c, s, b, t, v, w);
    Then(c, s, b, t);
  }

  lemma {:induction false} LaterAlone(c: Config, s: State, b: State, t: State, v: nat, w: nat)
    requires v < c.workers && |s.job.bounds| == c.workers + 1
    requires Leads(c, s, t) && Solo(c, b, t, w, w) && !b.host.Ready? && WF(c, b) && Ahead(c, s, b, v)
    ensures Later(c, s, t) && t.host == b.host
  {}

  lemma {:induction false} Robs(c: Config, s: State, b: State, t: State, v: nat, w: nat)
    requires v == w + 1 < c.workers && WF(c, s) && WF(c, b) && WF(c, t) && |s.job.bounds| == c.workers + 1
    requires Ahead(c, s, b, v) && Solo(c, b, t, w, w) && Gained(b, t, b.cursors[w], b.job.bounds[v])
    ensures Robbed(c, s, t, v)
  {}

  /** The host has published the slots before v and stored k words of slot v; nobody has moved. */
  lemma {:induction false} Approach(c: Config, s: State, v: nat, k: nat) returns (t: State)
    requires Begun(c, s) && 1 <= v < c.workers && k <= 8
    ensures Leads(c, s, t) && t.host == Write(v, k) && Ahead(c, s, t, v)
    ensures t.slots[v].end == if k > 1 then s.job.bounds[v + 1] else s.slots[v].end
  {
    t := FromCount(c, s, v, k);
    ApproachWords(c, s, t, v, k);
  }

  lemma {:induction false} FromCount(c: Config, s: State, v: nat, k: nat) returns (t: State)
    requires Reachable(c, s) && WF(c, s) && s.host.Count? && v < c.workers && k <= 13
    ensures Leads(c, s, t) && Wrote(c, s, t) && t.host == Write(v, k)
  {
    var a := HostGo(c, s);
    t := HostTo(c, a, v, k);
    WroteThen(c, s, a, t);
    Then(c, s, a, t);
  }

  lemma {:induction false} ApproachWords(c: Config, s: State, t: State, v: nat, k: nat)
    requires Wrote(c, s, t) && s.host.Count? && t.host == Write(v, k) && k <= 8 && v < c.workers
    ensures forall u :: 0 <= u < v ==> t.cursors[u] == s.job.bounds[u]
    ensures t.cursors[v] == s.cursors[v]
    ensures t.slots[v].end == if k > 1 then s.job.bounds[v + 1] else s.slots[v].end
  {
    forall u | 0 <= u < v ensures t.cursors[u] == s.job.bounds[u] {
      assert WroteSlot(s, t, u);
    }
    assert WroteSlot(s, t, v);
  }

  lemma {:induction false} LaterThen(c: Config, s: State, t: State, u: State)
    requires Later(c, s, t) && Later(c, t, u)
    ensures Later(c, s, u)
  {
    Then(c, s, t, u);
  }

  /** The thief processes index x of slot v with the limit it loaded too early. */
  lemma {:induction false} Steal(c: Config, s: State, v: nat, limit: int, x: int) returns (t: State)
    requires 1 <= v < c.workers && Hunting(c, s, v - 1, 1, limit) && s.cursors[v] <= x < limit
    ensures Later(c, s, t) && t.host == s.host && t.workers == s.workers[v - 1 := t.workers[v - 1]]
    ensures t.cursors == s.cursors[v := t.cursors[v]] && t.hist.base == s.hist.base && t.cancelSeq == s.cancelSeq
    ensures t.hist.baseline == s.hist.baseline
    ensures t.hist.visits[x] >= 1 + s.hist.visits[x]
  {
    Neighbours(v - 1, c.workers);
    t := Advance(c, s, v - 1, 1, limit, v, x);
  }

  /** First way: the new end is in place and the old cursor is still below it. */
  lemma {:induction false} StaleCursor(c: Config, s: State, v: nat) returns (t: State)
    requires Begun(c, s) && 1 <= v < c.workers && 0 <= s.cursors[v] < s.job.bounds[v + 1]
    ensures Later(c, s, t) && Bad(t)
  {
    var x := s.cursors[v];
    var a := Reach(c, s, v, 2);
    var b := Steal(c, a, v, s.job.bounds[v + 1], x);
    LaterThen(c, s, a, b);
    if s.job.bounds[0] <= x && !(s.job.bounds[v - 1] <= x < s.job.bounds[v]) {
      var u := ShardOf(s.job.bounds, v + 1, x);
      t := Again(c, b, v, u, x);
      LaterThen(c, s, b, t);
    } else {
      t := b;
    }
    assert BadAt(t, x);
  }

  /** The rightful owner of an index that was processed already processes it again. */
  lemma {:induction false} Again(c: Config, s: State, v: nat, u: nat, x: int) returns (t: State)
    requires Reachable(c, s) && WF(c, s) && Dynamic(c, s) && s.hist.requests == 0 && u <= v < c.workers
    requires s.host.Write? && s.host.id == v && s.host.k <= 8
    requires s.job.bounds[u] <= x < s.job.bounds[u + 1] && s.hist.visits[x] >= 1
    requires s.workers[u].seen != s.epoch && (u < v ==> s.cursors[u] == s.job.bounds[u])
    ensures Later(c, s, t) && t.hist.visits[x] >= 2
  {
    var d := s;
    if u == v {
      d := Publish(c, s, v);
      assert WroteSlot(s, d, v);
    } else {
      Stay(c, s);
    }
    Pickable(c, d, u);
    t := Visit(c, d, u, x);
    Then(c, s, d, t);
  }

  /** Second way: the thief took the old, larger end before the host replaced it. */
  lemma {:induction false} StaleEnd(c: Config, s: State, v: nat) returns (t: State)
    requires Begun(c, s) && 1 <= v < c.workers && s.job.bounds[v + 1] < s.slots[v].end
    ensures Later(c, s, t) && Bad(t)
  {
    var x := s.job.bounds[v + 1];
    var a := Reach(c, s, v, 1);
    var b := ResetCursor(c, a, v, s.slots[v].end);
    LaterThen(c, s, a, b);
    var d := Steal(c, b, v, s.slots[v].end, x);
    LaterThen(c, s, b, d);
    if x < s.job.bounds[c.workers] {
      var u := ShardOf(s.job.bounds, c.workers, x);
      t := AgainLater(c, d, u, x);
      LaterThen(c, s, d, t);
    } else {
      t := d;
    }
    assert BadAt(t, x);
  }

  /** The host stores the new cursor while the thief keeps the limit it has. */
  lemma {:induction false} ResetCursor(c: Config, s: State, v: nat, limit: int) returns (t: State)
    requires 1 <= v < c.workers && Hunting(c, s, v - 1, 1, limit) && s.host == Write(v, 1)
    ensures Later(c, s, t) && t.host == Write(v, 9) && t.cursors[v] == s.job.bounds[v]
    ensures Hunting(c, t, v - 1, 1, limit) && t.hist == s.hist
    ensures forall u :: 0 <= u < c.workers ==> t.workers[u].seen == s.workers[u].seen
  {
    t := HostTo(c, s, v, 9);
    assert WroteSlot(s, t, v) && WroteSlot(s, t, v - 1);
  }

  lemma {:induction false} AgainLater(c: Config, s: State, u: nat, x: int) returns (t: State)
    requires Reachable(c, s) && WF(c, s) && Dynamic(c, s) && s.hist.requests == 0 && u < c.workers
    requires s.host.Write? && s.host.id < u && s.host.k <= 13
    requires s.job.bounds[u] <= x < s.job.bounds[u + 1] && s.hist.visits[x] >= 1 && s.workers[u].seen != s.epoch
    ensures Later(c, s, t) && t.hist.visits[x] >= 2
  {
    var d := Publish(c, s, u);
    assert WroteSlot(s, d, u);
    Pickable(c, d, u);
    t := Visit(c, d, u, x);
    Then(c, s, d, t);
  }

  // ---- the exact condition

  /** Whatever happens during the current dispatch, nothing is processed twice or out of range. */
  ghost predicate AlwaysOnce(c: Config, s: State)
    requires WF(c, s)
  {
    forall schedule ::
      var t := Play(c, s, schedule);
      !t.host.Ready? && t.hist.dispatches == s.hist.dispatches ==> !Bad(t)
  }

  lemma {:induction false} BeginReachable(c: Config, s: State, job: Job) returns (t: State)
    requires Reachable(c, s) && WF(c, s) && s.host.Ready? && ValidJob(c, job)
    ensures t == StartJob(c, s, job) && Leads(c, s, t)
  {
    t := Go(c, s, Dispatch(job));
  }

  lemma {:induction false} QuietIsSafe(c: Config, s: State, t: State)
    requires Leads(c, s, t) && !s.host.Ready? && !t.host.Ready? && t.job == s.job
    requires AllQuiet(t) && Resolves(c, s.job)
    ensures !Bad(t)
  {
    ReachableInv(c, t);
    assert Safe(c, t);
    forall x ensures t.hist.visits[x] <= 1
      && (t.hist.visits[x] > 0 ==> t.job.bounds[0] <= x < t.job.bounds[c.workers])
    {
      assert IndexOk(c, t, x);
    }
  }

  /** Without a new dispatch the job and what was quiet at its start do not change. */
  lemma {:induction false} SameDispatch(c: Config, s: State, a: Action)
    requires WF(c, s)
    ensures var t := Next(c, s, a);
      s.hist.dispatches <= t.hist.dispatches &&
      (s.hist.dispatches == t.hist.dispatches ==> t.job == s.job && t.hist.quiet == s.hist.quiet)
  {}

  lemma {:induction false} PlayLeads(c: Config, s: State, schedule: seq<Action>)
    requires Reachable(c, s) && WF(c, s)
    ensures var t := Play(c, s, schedule);
      && Leads(c, s, t) && s.hist.dispatches <= t.hist.dispatches
      && (s.hist.dispatches == t.hist.dispatches ==> t.job == s.job && t.hist.quiet == s.hist.quiet)
    decreases |schedule|
  {
    if schedule == [] {
      Stay(c, s);
    } else {
      var u := Go(c, s, schedule[0]);
      SameDispatch(c, s, schedule[0]);
      PlayLeads(c, u, schedule[1..]);
      Then(c, s, u, Play(c, u, schedule[1..]));
    }
  }

  lemma {:induction false} BegunDispatch(c: Config, s: State, job: Job)
    requires Reachable(c, s) && WF(c, s) && s.host.Ready? && ValidJob(c, job) && job.grain > 0 && Resolves(c, job)
    ensures Begun(c, StartJob(c, s, job))
    ensures forall v :: 0 <= v < c.workers ==> 0 <= s.cursors[v]
  {
    var t := BeginReachable(c, s, job);
    ReachableInv(c, s);
    forall u | 0 <= u < c.workers ensures t.workers[u].seen != t.epoch {
      Close(c, s, u);
    }
  }

  /** What a caller can read from the control words before dispatching. */
  predicate SlotsQuiet(job: Job, slots: seq<Slot>, cursors: seq<int>)
    requires |slots| == |cursors| && |job.bounds| == |slots| + 1
  {
    forall v :: 1 <= v < |slots| ==> Quiet(job, slots[v], cursors[v], v)
  }

  lemma {:induction false} WindowExact(c: Config, s: State, job: Job)
    requires Reachable(c, s) && WF(c, s) && s.host.Ready? && ValidJob(c, job) && job.grain > 0 && Resolves(c, job)
    ensures AlwaysOnce(c, StartJob(c, s, job)) <==> SlotsQuiet(job, s.slots, s.cursors)
  {
    var b := BeginReachable(c, s, job);
    BegunDispatch(c, s, job);
    if SlotsQuiet(job, s.slots, s.cursors) {
      forall schedule | !Play(c, b, schedule).host.Ready? && Play(c, b, schedule).hist.dispatches == b.hist.dispatches
        ensures !Bad(Play(c, b, schedule))
      {
        PlayLeads(c, b, schedule);
        QuietIsSafe(c, b, Play(c, b, schedule));
      }
    } else {
      var v :| 1 <= v < |s.slots| && !Quiet(job, s.slots[v], s.cursors[v], v);
      var t;
      if s.cursors[v] < job.bounds[v + 1] { t := StaleCursor(c, b, v); } else { t := StaleEnd(c, b, v); }
      var schedule := Plays(c, b, t);
      assert Bad(Play(c, b, schedule));
    }
  }

  lemma {:induction false} AfterReachable(c: Config, data: seq<int>, schedule: seq<Action>)
    requires ValidConfig(c) && |data| == c.capacity
    ensures Reachable(c, After(c, data, schedule))
  {
    if schedule == [] {
      ConnectsOne(c, Init(c, data), HostStep);
    } else {
      AfterReachable(c, data, schedule[..|schedule| - 1]);
      var t := Go(c, After(c, data, schedule[..|schedule| - 1]), schedule[|schedule| - 1]);
    }
  }

  /**
   The exact condition: whatever came before, every interleaving of a dynamic dispatch processes each
   index at most once and none outside the range, if and only if every slot but the first is quiet
   when it begins.
   */
  lemma {:induction false} OnceIffQuiet(c: Config, data: seq<int>, schedule: seq<Action>, job: Job)
    requires ValidConfig(c) && |data| == c.capacity && ValidJob(c, job)
    ensures
      var s := After(c, data, schedule);
      s.host.Ready? && job.grain > 0 && Resolves(c, job) ==>
        (AlwaysOnce(c, StartJob(c, s, job)) <==> SlotsQuiet(job, s.slots, s.cursors))
  {
    AfterReachable(c, data, schedule);
    var s := After(c, data, schedule);
    if s.host.Ready? && job.grain > 0 && Resolves(c, job) { WindowExact(c, s, job); }
  }

  /** In particular the first dynamic dispatch of a fresh pool of several workers is not safe. */
  lemma {:induction false} FirstDispatchUnsafe(c: Config, data: seq<int>, job: Job)
    requires ValidConfig(c) && |data| == c.capacity && 2 <= c.workers && c.boot == NewBoot(c.workers)
    requires ValidJob(c, job) && job.grain > 0 && Resolves(c, job) && 0 < job.bounds[c.workers]
    ensures !AlwaysOnce(c, StartJob(c, Init(c, data), job))
  {
    OnceIffQuiet(c, data, [], job);
    var s := Init(c, data);
    assert !Quiet(job, s.slots[c.workers - 1], s.cursors[c.workers - 1], c.workers - 1);
  }
}
