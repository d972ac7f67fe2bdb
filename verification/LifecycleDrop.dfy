/**
 CreateWarm takes a VM from the pool before it looks at the limit, and drops it when the Host is full. This module shows
 when that happens: the dropped VM keeps running, in the Manager and outside the Host, with nothing left to be done.
 */
module LifecycleDrop {
  import opened Common
  import opened Lifecycle
  import opened LifecycleCounts
  import opened LifecycleInvariant
  import opened LifecycleSafety
  import opened LifecycleCapacity
  import opened LifecycleTheorems
  import opened LifecycleRest
  import opened LifecycleRuns
  import opened LifecycleOvershoot
  import Netalloc
  import WarmPool

  /** A step drops a session exactly when it is CreateWarm's insert and the Host is full. */
  lemma DroppedExactly(x: Sess, pc: Pc, ok: bool, hook: Option<Hook>, full: bool)
    requires OnSession(pc) && CanLocal(x, pc, ok) && !x.dropped
    ensures LocalStep(x, pc, ok, hook, full).x.dropped <==> pc.WarmInsert? && full
  {
  }

  // --- a drop needs one session more than the Host's limit ---

  lemma {:induction false} OneOutside(ss: seq<Sess>, s: nat)
    requires s < |ss| && !ss[s].h.Inside?
    ensures HostLen(ss) < |ss|
  {
    var n := |ss| - 1;
    if s < n { OneOutside(ss[..n], s); } else { FewLens(ss[..n]); }
  }

  /** Where the dropped flag of session `s` comes from. */
  lemma DropStep(c: Config, st: State, e: Event, s: Sid)
    requires Inv(c, st) && Enabled(st, e) && s < |Apply(c, st, e).sh.sessions| && Apply(c, st, e).sh.sessions[s].dropped
    ensures s < |st.sh.sessions|
    ensures !st.sh.sessions[s].dropped ==> HostLen(st.sh.sessions) >= MaxLive(c) && !st.sh.sessions[s].h.Inside?
  {
    if e.Run? {
      RunDrop(c, st, e.t, e.ok, s);
    } else {
      ArriveShape(st, e);
    }
  }

  lemma RunDrop(c: Config, st: State, t: nat, ok: bool, s: Sid)
    requires Inv(c, st) && Enabled(st, Run(t, ok))
    requires var sh' := StepOf(c, st.sh, st.threads[t], ok).sh; s < |sh'.sessions| && sh'.sessions[s].dropped
    ensures s < |st.sh.sessions|
    ensures !st.sh.sessions[s].dropped ==> HostLen(st.sh.sessions) >= MaxLive(c) && !st.sh.sessions[s].h.Inside?
  {
    var pc := st.threads[t];
    if OnSession(pc) && pc.s == s && s < |st.sh.sessions| {
      if !st.sh.sessions[s].dropped {
        DroppedExactly(st.sh.sessions[s], pc, ok, st.sh.hook, HostLen(st.sh.sessions) >= MaxLive(c));
        RunHere(c, st, t, ok);
        assert SessionOk(c, st, s);
        NumOne(st.threads, t, Holds(s));
      }
    } else if s < |st.sh.sessions| {
      RunElsewhere(c, st.sh, pc, ok, s);
    } else {
      NotBorn(c, st.sh, pc, ok, s);
    }
  }

  lemma NotBorn(c: Config, sh: Shared, pc: Pc, ok: bool, s: Sid)
    requires CanStep(sh, pc, ok) && s >= |sh.sessions|
    ensures var sh' := StepOf(c, sh, pc, ok).sh; s < |sh'.sessions| ==> !sh'.sessions[s].dropped
  {
  }

  lemma DropFollows(c: Config, st: State, st': State, s: Sid)
    requires Inv(c, st) && Follows(c, st, st') && s < |st'.sh.sessions| && st'.sh.sessions[s].dropped
    ensures s < |st.sh.sessions| <= |st'.sh.sessions|
    ensures !st.sh.sessions[s].dropped ==> |st.sh.sessions| > MaxLive(c)
  {
    var e :| Enabled(st, e) && st' == Apply(c, st, e);
    DropStep(c, st, e, s);
    FollowsOnward(c, st, st', |st.sh.sessions| - 1);
    if !st.sh.sessions[s].dropped { OneOutside(st.sh.sessions, s); }
  }

  /** In every run: once a session was dropped there are more sessions than the Host's limit. */
  lemma {:induction false} DropNeedsRoom(c: Config, trace: seq<State>, i: nat, s: Sid)
    requires IsRun(c, trace) && i < |trace| && s < |trace[i].sh.sessions| && trace[i].sh.sessions[s].dropped
    ensures |trace[i].sh.sessions| > MaxLive(c)
  {
    if i > 0 {
      RunKeeps(c, trace, i - 1);
      assert FollowsAt(c, trace, i);
      DropFollows(c, trace[i - 1], trace[i], s);
      if trace[i - 1].sh.sessions[s].dropped { DropNeedsRoom(c, trace, i - 1, s); }
    }
  }

  // --- a run that drops a VM ---

  /** Before the pool has done anything. */
  predicate Unused(p: WarmPool.State) {
    p.target >= 1 && p.ready == [] && p.queue == 0 && p.seeded == 0 && !p.held && p.looping
  }

  /** An event of the pool alone. */
  lemma PoolEvent(c: Config, k: nat, st: State, e: Event, p: WarmPool.State, spawn: Option<Pc>) returns (st': State)
    requires Reaches(c, k, st) && !e.Run? && Enabled(st, e) && Arrive(st.sh, e) == (st.sh.(pool := p), spawn)
    requires Num(With(st.threads, spawn), HostCall) <= k && Num(With(st.threads, spawn), MgrCall) <= k
    ensures Reaches(c, k, st') && st' == State(st.sh.(pool := p), With(st.threads, spawn))
  {
    st' := State(st.sh.(pool := p), With(st.threads, spawn));
    ReachesStep(c, k, st, e);
  }

  /** The pool's loop starts a build. */
  lemma StartBuild(c: Config, k: nat, st: State) returns (st': State)
    requires Reaches(c, k, st) && Unused(st.sh.pool) && k >= 1
    requires Num(st.threads, HostCall) == Num(st.threads, MgrCall) == 0
    ensures Reaches(c, k, st') && st'.sh == st.sh.(pool := st'.sh.pool) && st'.sh.pool.ready == []
    ensures st'.threads == st.threads + [MCheck(ForPool)]
  {
    var p1 := WarmPool.Seed(st.sh.pool);
    var s1 := PoolEvent(c, k, st, Seed, p1, None);
    var p2 := WarmPool.Take(p1);
    var s2 := PoolEvent(c, k, s1, LoopTake, p2, None);
    NumAppend(st.threads, MCheck(ForPool), HostCall);
    NumAppend(st.threads, MCheck(ForPool), MgrCall);
    st' := PoolEvent(c, k, s2, LoopDecide, Arrive(s2.sh, LoopDecide).0.pool, Some(MCheck(ForPool)));
  }

  /** Goroutine `t`, the last one, has made session `n`, which is not launched yet. */
  ghost predicate Making1(c: Config, st: State, st': State, n: nat) {
    && |st.sh.sessions| == n && |st'.sh.sessions| == n + 1 && st'.sh.sessions[..n] == st.sh.sessions
    && st'.sh.sessions[n] == Fresh(st'.sh.sessions[n].lease)
    && st'.sh.hook == st.sh.hook && st'.sh.pool.ready == []
    && st'.threads == st.threads + [Build(n, ForPool, Tap)]
  }

  lemma PoolAllocs(c: Config, sh: Shared, n: nat)
    requires NetOk(c, sh) && |sh.sessions| == n < c.block.Capacity() && MgrLen(sh.sessions) < c.maxConcurrent
    ensures StepFree(c, sh, MCheck(ForPool)) == Lifecycle.Outcome(sh, MAlloc(ForPool), None)
    ensures var o := StepFree(c, sh, MAlloc(ForPool));
      && o.pc == Build(n, ForPool, Tap) && o.spawn.None? && o.sh.hook == sh.hook && o.sh.pool == sh.pool
      && |o.sh.sessions| == n + 1 && o.sh.sessions[..n] == sh.sessions && o.sh.sessions[n] == Fresh(o.sh.sessions[n].lease)
  {
    Netalloc.AllocStep(sh.net);
  }

  lemma MakeForPool(c: Config, k: nat, st: State, n: nat) returns (st': State)
    requires Reaches(c, k, st) && Unused(st.sh.pool) && k >= 1
    requires Num(st.threads, HostCall) == Num(st.threads, MgrCall) == 0
    requires NetOk(c, st.sh) && |st.sh.sessions| == n < c.block.Capacity() && MgrLen(st.sh.sessions) < c.maxConcurrent
    ensures Reaches(c, k, st') && Making1(c, st, st', n)
  {
    var s1 := StartBuild(c, k, st);
    PoolAllocs(c, s1.sh, n);
    Push(c, k, st, MAlloc(ForPool));
    NextFree(c, k, st, s1.sh, MCheck(ForPool));
    Push(c, k, st, Build(n, ForPool, Tap));
    NextFree(c, k, st, s1.sh, MAlloc(ForPool));
    st' := State(StepFree(c, s1.sh, MAlloc(ForPool)).sh, st.threads + [Build(n, ForPool, Tap)]);
  }

  /** Session `n`, the newest, waits in the pool; `threads` are the goroutines besides its builder and its process waiter. */
  ghost predicate Stocked(st: State, ss: seq<Sess>, threads: seq<Pc>, n: nat) {
    && |ss| == n && |st.sh.sessions| == n + 1 && st.sh.sessions[..n] == ss
    && st.sh.sessions[n].m.Live? && st.sh.sessions[n].h.Outside? && !st.sh.sessions[n].dropped
    && st.sh.pool.ready == [n] && st.threads == threads + [Ended, Exiter(n)]
  }

  /** The launch for the pool succeeds. */
  lemma BootForPool(c: Config, k: nat, st: State, n: nat, t: nat) returns (st': State)
    requires Reaches(c, k, st) && |st.sh.sessions| == n + 1 && t < |st.threads| && st.threads[t] == Build(n, ForPool, Tap)
    ensures Reaches(c, k, st')
    ensures exists made :: st' == At(Waited(st, n), t, n, Launched(st.sh.sessions[n], made), Append(n))
  {
    var x := st.sh.sessions[n];
    Here(st, t, n);
    ReachesWithin(c, k, st);
    var made := Boot(c, k, st, t, n, x, ForPool);
    Hop(c, k, Waited(st, n), t, n, Launched(x, made), Wait(n, ForPool), true, Launched(x, made), Append(n));
    st' := At(Waited(st, n), t, n, Launched(x, made), Append(n));
  }

  /** buildOne appends it. */
  lemma AppendOne(c: Config, k: nat, st: State, n: nat, t: nat) returns (st': State)
    requires Reaches(c, k, st) && n < |st.sh.sessions| && t < |st.threads| && st.threads[t] == Append(n)
    ensures Reaches(c, k, st') && st'.threads == st.threads[t := Ended] && st'.sh.sessions == st.sh.sessions
    ensures st'.sh.pool.ready == st.sh.pool.ready + [n] && st'.sh.hook == st.sh.hook
  {
    var l := LocalAt(c, st, t, true);
    ReachesWithin(c, k, st);
    ReachesTaken(c, k, st, t, true, l);
    st' := Taken(st, t, l);
    assert st.sh.sessions[n := st.sh.sessions[n]] == st.sh.sessions;
  }

  lemma StockOne(c: Config, k: nat, st: State, st1: State, n: nat) returns (st': State)
    requires Reaches(c, k, st1) && Making1(c, st, st1, n)
    ensures Reaches(c, k, st') && Stocked(st', st.sh.sessions, st.threads, n) && st'.sh.hook == st.sh.hook
  {
    var t := |st.threads|;
    var s2 := BootForPool(c, k, st1, n, t);
    st' := AppendOne(c, k, s2, n, t);
    assert st'.sh.pool.ready == [n];
    assert st'.threads == st.threads + [Ended, Exiter(n)];
    assert st'.sh.sessions[..n] == st1.sh.sessions[..n];
  }

  /** CreateWarm takes the VM out of the pool. */
  lemma TakeWarm(c: Config, k: nat, st: State, n: nat) returns (st': State)
    requires Reaches(c, k, st) && st.sh.pool.ready == [n] && k >= 1
    requires Num(st.threads, HostCall) == Num(st.threads, MgrCall) == 0
    ensures Reaches(c, k, st') && st'.threads == st.threads + [WarmPoke(n)] && st'.sh == st.sh.(pool := st'.sh.pool)
  {
    var s1 := State(st.sh, st.threads + [Warm]);
    Push(c, k, st, Warm);
    assert Apply(c, st, CallCreateWarm) == s1;
    ReachesStep(c, k, st, CallCreateWarm);
    Push(c, k, st, WarmPoke(n));
    NextFree(c, k, st, st.sh, Warm);
    st' := State(StepFree(c, st.sh, Warm).sh, st.threads + [WarmPoke(n)]);
  }

  /** ... sends the refill token, finds the Host full and drops it. */
  lemma DropWarm(c: Config, k: nat, st: State, n: nat, t: nat) returns (st': State)
    requires Reaches(c, k, st) && n < |st.sh.sessions| && t < |st.threads| && st.threads[t] == WarmPoke(n)
    requires HostLen(st.sh.sessions) >= MaxLive(c)
    ensures Reaches(c, k, st') && st'.threads == st.threads[t := Ended] && st'.sh.hook == st.sh.hook
    ensures st'.sh.sessions == st.sh.sessions[n := st.sh.sessions[n].(dropped := true)]
  {
    var l := LocalAt(c, st, t, true);
    ReachesWithin(c, k, st);
    ReachesTaken(c, k, st, t, true, l);
    var s1 := Taken(st, t, l);
    assert s1.sh.sessions == st.sh.sessions && s1.threads == st.threads[t := WarmInsert(n)];
    var l1 := LocalAt(c, s1, t, true);
    ReachesTaken(c, k, s1, t, true, l1);
    st' := Taken(s1, t, l1);
  }

  /** Nothing but leaving is left to do. */
  predicate Leaves(pc: Pc) {
    || pc.Ended? || pc.Exiter? || pc.Watch? || pc.Watcher? || pc.HDestroy? || pc.HClose? || pc.Fire?
    || (pc.Tear? && !pc.c.Abort?) || (pc.Kill? && pc.c.FromHost?)
  }

  ghost predicate AllLeave(threads: seq<Pc>) {
    forall t :: 0 <= t < |threads| ==> Leaves(threads[t])
  }

  /** Session `d` was dropped and its VM runs. */
  predicate DroppedLive(st: State, d: Sid) {
    d < |st.sh.sessions| && st.sh.sessions[d].dropped && st.sh.sessions[d].m.Live?
  }

  /** With the Host full of sessions whose VMs have exited, the next VM from the pool is dropped. */
  lemma DropRun(c: Config, k: nat) returns (st: State, d: Sid)
    requires c.block.Valid() && k >= 1 && c.maxConcurrent >= 1 && c.block.Capacity() > MaxLive(c)
    ensures Reaches(c, k, st) && DroppedLive(st, d) && AllLeave(st.threads)
  {
    var n := MaxLive(c);
    var full := FillHost(c, k, n);
    var making := MakeForPool(c, k, full, n);
    var stocked := StockOne(c, k, full, making, n);
    StockedCounts(stocked, full, n);
    var taken := TakeWarm(c, k, stocked, n);
    st := DropWarm(c, k, taken, n, |stocked.threads|);
    d := n;
    LeaveAfter(full, stocked, st, n);
  }

  lemma StockedCounts(st: State, before: State, n: nat)
    requires Stocked(st, before.sh.sessions, before.threads, n)
    ensures HostLen(st.sh.sessions) == HostLen(before.sh.sessions)
    ensures Num(st.threads, HostCall) == Num(before.threads, HostCall) && Num(st.threads, MgrCall) == Num(before.threads, MgrCall)
  {
    assert st.sh.sessions == before.sh.sessions + [st.sh.sessions[n]];
    LenAppend(before.sh.sessions, st.sh.sessions[n]);
    assert st.threads == (before.threads + [Ended]) + [Exiter(n)];
    NumAppend(before.threads, Ended, HostCall);
    NumAppend(before.threads, Ended, MgrCall);
    NumAppend(before.threads + [Ended], Exiter(n), HostCall);
    NumAppend(before.threads + [Ended], Exiter(n), MgrCall);
  }

  lemma LeaveAfter(full: State, stocked: State, st: State, n: nat)
    requires AllTidy(full.threads) && Num(full.threads, HostCall) == Num(full.threads, MgrCall) == 0
    requires Stocked(stocked, full.sh.sessions, full.threads, n)
    requires st.threads == (stocked.threads + [WarmPoke(n)])[|stocked.threads| := Ended]
    ensures AllLeave(st.threads)
  {
    forall t | 0 <= t < |st.threads| ensures Leaves(st.threads[t]) {
      if t < |full.threads| {
        assert st.threads[t] == full.threads[t];
        if Plays(full.threads[t], MgrCall) { NumOne(full.threads, t, MgrCall); }
        if Plays(full.threads[t], HostCall) { NumOne(full.threads, t, HostCall); }
      }
    }
  }

  // --- everything that is under way comes to an end ---

  lemma LeaveStep(x: Sess, pc: Pc, hook: Option<Hook>, full: bool)
    requires Leaves(pc) && Rank(pc) > 0 && CanLocal(x, pc, true) && ThreadOk(x, pc)
    ensures var l := LocalStep(x, pc, true, hook, full);
      && Leaves(l.pc) && (l.spawn.Some? ==> Leaves(l.spawn.value))
      && Rank(l.pc) + RankOf(l.spawn) < Rank(pc)
  {
  }

  lemma LeaveCalls(x: Sess, pc: Pc, hook: Option<Hook>, full: bool)
    requires Leaves(pc) && Rank(pc) > 0 && CanLocal(x, pc, true)
    ensures var l := LocalStep(x, pc, true, hook, full);
      Change(pc, l.pc, l.spawn, HostCall) <= 0 && Change(pc, l.pc, l.spawn, MgrCall) <= 0
  {
  }

  lemma LeaveSpares(x: Sess, pc: Pc, hook: Option<Hook>, full: bool)
    requires Leaves(pc) && Rank(pc) > 0 && CanLocal(x, pc, true) && ThreadOk(x, pc)
    requires x.dropped && x.m.Live? && x.h.Outside?
    ensures var y := LocalStep(x, pc, true, hook, full).x; y.dropped && y.m.Live?
  {
  }

  ghost predicate Winding(c: Config, k: nat, st: State, d: Sid) {
    Reaches(c, k, st) && AllLeave(st.threads) && DroppedLive(st, d)
  }

  lemma ReachesInv(c: Config, k: nat, st: State)
    requires Reaches(c, k, st)
    ensures Inv(c, st)
  {
    var trace :| IsNarrowRun(c, k, trace) && trace[|trace| - 1] == st;
    RunKeeps(c, trace, |trace| - 1);
  }

  /** What the invariant says of a goroutine that is ready. */
  lemma ReadyFacts(c: Config, k: nat, st: State, d: Sid, t: nat)
    requires Winding(c, k, st, d) && t < |st.threads| && Ready(st.sh, st.threads[t])
    ensures OnSession(st.threads[t]) && st.sh.sessions[d].h.Outside?
    ensures var pc := st.threads[t]; if pc.s < |st.sh.sessions|
      then CanLocal(st.sh.sessions[pc.s], pc, true) && ThreadOk(st.sh.sessions[pc.s], pc)
      else pc.HDestroy?
  {
    ReachesInv(c, k, st);
    assert ThreadPlaced(st.sh, st.threads[t]) && Leaves(st.threads[t]);
    assert SessionOk(c, st, d);
  }

  /** One of them takes its step. */
  lemma WindOne(c: Config, k: nat, st: State, d: Sid, t: nat, l: Local) returns (st': State)
    requires Winding(c, k, st, d) && t < |st.threads| && Ready(st.sh, st.threads[t]) && st.threads[t].s < |st.sh.sessions|
    requires OnSession(st.threads[t]) && CanLocal(st.sh.sessions[st.threads[t].s], st.threads[t], true)
    requires l == LocalAt(c, st, t, true)
    requires Change(st.threads[t], l.pc, l.spawn, HostCall) <= 0 && Change(st.threads[t], l.pc, l.spawn, MgrCall) <= 0
    requires Leaves(l.pc) && (l.spawn.Some? ==> Leaves(l.spawn.value))
    requires Rank(l.pc) + RankOf(l.spawn) < Rank(st.threads[t])
    requires st.threads[t].s == d ==> l.x.dropped && l.x.m.Live?
    ensures Winding(c, k, st', d) && Total(st'.threads) < Total(st.threads)
  {
    ReachesWithin(c, k, st);
    ReachesTaken(c, k, st, t, true, l);
    TotalWith(st.threads, t, l.pc, l.spawn);
    st' := Taken(st, t, l);
  }

  lemma WindKnown(c: Config, k: nat, st: State, d: Sid, t: nat) returns (st': State)
    requires Winding(c, k, st, d) && t < |st.threads| && Ready(st.sh, st.threads[t]) && st.threads[t].s < |st.sh.sessions|
    ensures Winding(c, k, st', d) && Total(st'.threads) < Total(st.threads)
  {
    ReadyFacts(c, k, st, d, t);
    var pc := st.threads[t];
    var x, full := st.sh.sessions[pc.s], HostLen(st.sh.sessions) >= MaxLive(c);
    LeaveStep(x, pc, st.sh.hook, full);
    LeaveCalls(x, pc, st.sh.hook, full);
    if pc.s == d { LeaveSpares(x, pc, st.sh.hook, full); }
    st' := WindOne(c, k, st, d, t, LocalAt(c, st, t, true));
  }

  /** A delete of an id that was never given out ends at once. */
  lemma WindUnknown(c: Config, k: nat, st: State, d: Sid, t: nat) returns (st': State)
    requires Winding(c, k, st, d) && t < |st.threads| && Ready(st.sh, st.threads[t]) && st.threads[t].s >= |st.sh.sessions|
    ensures Winding(c, k, st', d) && Total(st'.threads) < Total(st.threads)
  {
    ReadyFacts(c, k, st, d, t);
    ReachesWithin(c, k, st);
    st' := State(st.sh, st.threads[t := Ended]);
    assert Apply(c, st, Run(t, true)) == st';
    NumUpdate(st.threads, t, Ended, HostCall);
    NumUpdate(st.threads, t, Ended, MgrCall);
    ReachesStep(c, k, st, Run(t, true));
    TotalUpdate(st.threads, t, Ended);
  }

  /** From any such state the system comes to rest, and the dropped VM still runs. */
  lemma {:induction false} WindDown(c: Config, k: nat, st: State, d: Sid) returns (st': State)
    requires Winding(c, k, st, d)
    ensures Reaches(c, k, st') && Quiet(st') && DroppedLive(st', d)
    decreases Total(st.threads)
  {
    if t: nat :| t < |st.threads| && Ready(st.sh, st.threads[t]) {
      var next: State;
      if st.threads[t].s < |st.sh.sessions| {
        next := WindKnown(c, k, st, d, t);
      } else {
        next := WindUnknown(c, k, st, d, t);
      }
      st' := WindDown(c, k, next, d);
    } else {
      AllQuiet(st);
      st' := st;
    }
  }

  // --- exactly when ---

  /** Some run with at most k creating calls in progress comes to rest with a dropped VM running outside the Host. */
  ghost predicate CanStrand(c: Config, k: nat) {
    exists st, d :: Reaches(c, k, st) && Quiet(st) && DroppedLive(st, d)
  }

  /**
   In every configuration, and even when creating calls never overlap: a VM can be left running outside the Host,
   with no goroutine left that would stop it, exactly when VMs are admitted at all and the address block has room for one
   more than the Host's limit.
   */
  lemma StrandedIff(c: Config, k: nat)
    requires c.block.Valid() && k >= 1
    ensures CanStrand(c, k) <==> c.maxConcurrent >= 1 && c.block.Capacity() > MaxLive(c)
  {
    if c.maxConcurrent >= 1 && c.block.Capacity() > MaxLive(c) {
      var st, d := DropRun(c, k);
      var end := WindDown(c, k, st, d);
    }
    forall st, d | Reaches(c, k, st) && DroppedLive(st, d)
      ensures c.maxConcurrent >= 1 && c.block.Capacity() > MaxLive(c)
    {
      var trace :| IsNarrowRun(c, k, trace) && trace[|trace| - 1] == st;
      FewSessions(c, trace, |trace| - 1);
      DropNeedsRoom(c, trace, |trace| - 1, d);
    }
  }
}
