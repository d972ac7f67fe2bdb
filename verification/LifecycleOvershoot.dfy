/** The capacity bounds are attained, and the limits are kept exactly when creating calls do not overlap. */
module LifecycleOvershoot {
  import opened Common
  import opened Lifecycle
  import opened LifecycleCounts
  import opened LifecycleInvariant
  import opened LifecycleSafety
  import opened LifecycleCapacity
  import opened LifecycleTheorems
  import opened LifecycleRuns
  import Netalloc

  // --- many calls at once ---

  predicate AtTap(st: State, pc: Pc) {
    && pc.Build? && pc.o == ForHost && pc.stage == Tap && pc.s < |st.sh.sessions|
    && st.sh.sessions[pc.s].m.Making? && st.sh.sessions[pc.s].h.Outside?
  }

  /** Every creating call stands at the start of its build, each on a session of its own. */
  ghost predicate AllAtTap(st: State) {
    && (forall t :: 0 <= t < |st.threads| && Plays(st.threads[t], HostCall) ==> AtTap(st, st.threads[t]))
    && (forall t, u :: 0 <= t < u < |st.threads| && AtTap(st, st.threads[t]) && AtTap(st, st.threads[u]) ==>
          st.threads[t].s != st.threads[u].s)
  }

  /** Where goroutines stand while no call is past the start of its build. */
  predicate Tidy(pc: Pc) {
    || pc.Build? || pc.Ended? || pc.Exiter? || pc.Watch? || pc.Watcher? || pc.HDestroy?
    || (pc.Tear? && !pc.c.Abort?) || (pc.Kill? && pc.c.FromHost?)
  }

  /** ... and that creates nothing. */
  predicate Bystander(pc: Pc) {
    Tidy(pc) && !pc.Build?
  }

  ghost predicate AllTidy(threads: seq<Pc>) {
    forall t :: 0 <= t < |threads| ==> Tidy(threads[t])
  }

  /** Of `n` sessions `host` are in the Host, `mgr` in the Manager, and `open` calls hold a new session each. */
  ghost predicate Staged(c: Config, st: State, n: nat, host: nat, mgr: nat, open: nat) {
    && NetOk(c, st.sh) && |st.sh.sessions| == n
    && HostLen(st.sh.sessions) == host && MgrLen(st.sh.sessions) == mgr
    && Num(st.threads, HostCall) == Num(st.threads, MgrCall) == open
    && AllAtTap(st) && AllTidy(st.threads)
  }

  lemma OpenAllAtTap(st: State, x: Sess, sh': Shared)
    requires AllAtTap(st) && x.m.Making? && x.h.Outside? && sh'.sessions == st.sh.sessions + [x]
    ensures AllAtTap(State(sh', st.threads + [Build(|st.sh.sessions|, ForHost, Tap)]))
  {
    var st' := State(sh', st.threads + [Build(|st.sh.sessions|, ForHost, Tap)]);
    forall t | 0 <= t < |st.threads| && AtTap(st', st'.threads[t]) && st'.threads[t].s < |st.sh.sessions|
      ensures AtTap(st, st.threads[t])
    {
    }
    forall t | 0 <= t < |st.threads| && AtTap(st', st'.threads[t]) ensures st'.threads[t].s < |st.sh.sessions| {
      assert Plays(st.threads[t], HostCall);
    }
  }

  /** What a new call adds once it has its address. */
  lemma BegunShape(c: Config, st: State)
    requires NetOk(c, st.sh) && |st.sh.sessions| < c.block.Capacity()
    ensures StepAlloc(st.sh, ForHost).pc == Build(|st.sh.sessions|, ForHost, Tap)
    ensures var sh' := Begun(st).sh;
      && NetOk(c, sh') && |sh'.sessions| == |st.sh.sessions| + 1 && sh'.hook == st.sh.hook && sh'.pool == st.sh.pool
      && sh'.sessions == st.sh.sessions + [sh'.sessions[|st.sh.sessions|]]
      && sh'.sessions[|st.sh.sessions|] == Fresh(sh'.sessions[|st.sh.sessions|].lease)
    ensures Begun(st).threads == st.threads + [Build(|st.sh.sessions|, ForHost, Tap)]
  {
    Netalloc.AllocStep(st.sh.net);
  }

  lemma BegunCounts(c: Config, st: State)
    requires NetOk(c, st.sh) && |st.sh.sessions| < c.block.Capacity()
    ensures HostLen(Begun(st).sh.sessions) == HostLen(st.sh.sessions) && MgrLen(Begun(st).sh.sessions) == MgrLen(st.sh.sessions)
    ensures Num(Begun(st).threads, HostCall) == Num(st.threads, HostCall) + 1
    ensures Num(Begun(st).threads, MgrCall) == Num(st.threads, MgrCall) + 1
  {
    BegunShape(c, st);
    var s := |st.sh.sessions|;
    LenAppend(st.sh.sessions, Begun(st).sh.sessions[s]);
    NumAppend(st.threads, Build(s, ForHost, Tap), HostCall);
    NumAppend(st.threads, Build(s, ForHost, Tap), MgrCall);
  }

  lemma OpenOne(c: Config, k: nat, st: State, n: nat, host: nat, mgr: nat, open: nat) returns (st': State)
    requires Reaches(c, k, st) && Staged(c, st, n, host, mgr, open)
    requires open < k && host < MaxLive(c) && mgr < c.maxConcurrent && n < c.block.Capacity()
    ensures Reaches(c, k, st') && Staged(c, st', n + 1, host, mgr, open + 1)
    ensures st'.sh.hook == st.sh.hook && st'.sh.pool == st.sh.pool
  {
    BegunShape(c, st);
    BegunCounts(c, st);
    Begin(c, k, st);
    st' := Begun(st);
    OpenAllAtTap(st, st'.sh.sessions[n], st'.sh);
  }

  // --- one call to its end ---

  function Finished(st: State, t: nat, s: Sid, made: seq<Stage>): State
    requires t < |st.threads| && s < |st.sh.sessions|
  {
    At(Waited(st, s), t, s, InHost(st.sh.sessions[s], made), Watch(s))
  }

  lemma FinishedCounts(st: State, t: nat, s: Sid, made: seq<Stage>)
    requires t < |st.threads| && st.threads[t] == Build(s, ForHost, Tap) && s < |st.sh.sessions|
    requires st.sh.sessions[s].m.Making? && st.sh.sessions[s].h.Outside?
    ensures var st' := Finished(st, t, s, made);
      HostLen(st'.sh.sessions) == HostLen(st.sh.sessions) + 1 && MgrLen(st'.sh.sessions) == MgrLen(st.sh.sessions) + 1
  {
    LenUpdate(st.sh.sessions, s, InHost(st.sh.sessions[s], made));
  }

  lemma FinishedCalls(st: State, t: nat, s: Sid, made: seq<Stage>)
    requires t < |st.threads| && st.threads[t] == Build(s, ForHost, Tap) && s < |st.sh.sessions|
    ensures Num(Finished(st, t, s, made).threads, HostCall) == Num(st.threads, HostCall) - 1
    ensures Num(Finished(st, t, s, made).threads, MgrCall) == Num(st.threads, MgrCall) - 1
  {
    assert Finished(st, t, s, made).threads == With(st.threads[t := Watch(s)], Some(Exiter(s)));
    NumWith(st.threads, t, Watch(s), Some(Exiter(s)), HostCall);
    NumWith(st.threads, t, Watch(s), Some(Exiter(s)), MgrCall);
  }

  lemma FinishedAllAtTap(st: State, t: nat, s: Sid, made: seq<Stage>)
    requires AllAtTap(st) && t < |st.threads| && st.threads[t] == Build(s, ForHost, Tap) && AtTap(st, st.threads[t])
    ensures AllAtTap(Finished(st, t, s, made))
  {
    var st' := Finished(st, t, s, made);
    forall v | 0 <= v < |st'.threads| && Plays(st'.threads[v], HostCall) ensures AtTap(st', st'.threads[v]) {
      assert v < |st.threads| && v != t && st'.threads[v] == st.threads[v];
      assert AtTap(st, st.threads[v]);
    }
    forall v | 0 <= v < |st'.threads| && AtTap(st', st'.threads[v])
      ensures v < |st.threads| && st'.threads[v] == st.threads[v] && AtTap(st, st.threads[v])
    {
    }
  }

  /** Call `t` has put its session `s` into both maps; goroutine `u` waits for the VM to exit. */
  ghost predicate Placed(st: State, t: nat, u: nat, s: Sid) {
    && t < u < |st.threads| && st.threads[t] == Watch(s) && st.threads[u] == Exiter(s)
    && s < |st.sh.sessions| && st.sh.sessions[s].m.Live? && st.sh.sessions[s].h.Inside?
  }

  lemma FinishOne(c: Config, k: nat, st: State, n: nat, host: nat, mgr: nat, open: nat)
      returns (st': State, t: nat, u: nat, s: Sid)
    requires Reaches(c, k, st) && Staged(c, st, n, host, mgr, open) && 1 <= open <= k
    ensures Reaches(c, k, st') && Staged(c, st', n, host + 1, mgr + 1, open - 1) && Placed(st', t, u, s)
    ensures st'.sh.hook == st.sh.hook && st'.sh.pool == st.sh.pool
  {
    t := NumWitness(st.threads, HostCall);
    assert AtTap(st, st.threads[t]);
    s, u := st.threads[t].s, |st.threads|;
    var x := st.sh.sessions[s];
    assert st == At(st, t, s, x, Build(s, ForHost, Tap)) by {
      assert st.sh.sessions[s := x] == st.sh.sessions;
      assert st.threads[t := Build(s, ForHost, Tap)] == st.threads;
    }
    var made := Finish(c, k, st, t, s, x);
    st' := Finished(st, t, s, made);
    FinishedCounts(st, t, s, made);
    FinishedCalls(st, t, s, made);
    FinishedAllAtTap(st, t, s, made);
  }

  lemma {:induction false} FinishAll(c: Config, k: nat, st: State, n: nat, host: nat, mgr: nat, open: nat) returns (st': State)
    requires Reaches(c, k, st) && Staged(c, st, n, host, mgr, open) && open <= k
    ensures Reaches(c, k, st') && Staged(c, st', n, host + open, mgr + open, 0)
    decreases open
  {
    if open == 0 {
      st' := st;
    } else {
      var next, _, _, _ := FinishOne(c, k, st, n, host, mgr, open);
      st' := FinishAll(c, k, next, n, host + 1, mgr + 1, open - 1);
    }
  }

  lemma {:induction false} OpenMany(c: Config, k: nat, st: State, n: nat, host: nat, mgr: nat, m: nat) returns (st': State)
    requires Reaches(c, k, st) && Staged(c, st, n, host, mgr, 0)
    requires m <= k && host < MaxLive(c) && mgr < c.maxConcurrent && n + m <= c.block.Capacity()
    ensures Reaches(c, k, st') && Staged(c, st', n + m, host, mgr, m)
  {
    if m == 0 {
      st' := st;
    } else {
      var before := OpenMany(c, k, st, n, host, mgr, m - 1);
      st' := OpenOne(c, k, before, n + m - 1, host, mgr, m - 1);
    }
  }

  // --- sessions in one map only ---

  /** A change of one session and one goroutine that is no creating call. */
  lemma AtStaged(c: Config, st: State, t: nat, s: Sid, x: Sess, pc: Pc, n: nat, host: nat, mgr: nat, open: nat)
    requires Staged(c, st, n, host, mgr, open) && t < |st.threads| && s < |st.sh.sessions|
    requires !st.sh.sessions[s].m.Making? && !x.m.Making? && x.lease == st.sh.sessions[s].lease
    requires !Plays(st.threads[t], HostCall) && !Plays(st.threads[t], MgrCall) && Bystander(pc)
    ensures var y := st.sh.sessions[s];
      && host + Bit(x.h.Inside?) >= Bit(y.h.Inside?) && mgr + Bit(x.m.Live?) >= Bit(y.m.Live?)
      && Staged(c, At(st, t, s, x, pc), n, host + Bit(x.h.Inside?) - Bit(y.h.Inside?), mgr + Bit(x.m.Live?) - Bit(y.m.Live?), open)
  {
    LenUpdate(st.sh.sessions, s, x);
    NumUpdate(st.threads, t, pc, HostCall);
    NumUpdate(st.threads, t, pc, MgrCall);
    AtTaps(st, t, s, x, pc);
  }

  lemma AtTaps(st: State, t: nat, s: Sid, x: Sess, pc: Pc)
    requires AllAtTap(st) && t < |st.threads| && s < |st.sh.sessions| && !st.sh.sessions[s].m.Making? && !x.m.Making?
    requires !Plays(pc, HostCall) && !Plays(pc, MgrCall)
    ensures AllAtTap(At(st, t, s, x, pc))
  {
    var st' := At(st, t, s, x, pc);
    forall v | 0 <= v < |st'.threads| && Plays(st'.threads[v], HostCall) ensures AtTap(st', st'.threads[v]) {
      assert AtTap(st, st.threads[v]);
    }
    forall v | 0 <= v < |st'.threads| && AtTap(st', st'.threads[v])
      ensures st'.threads[v] == st.threads[v] && AtTap(st, st.threads[v])
    {
    }
  }

  lemma Here(st: State, t: nat, s: Sid)
    requires t < |st.threads| && s < |st.sh.sessions|
    ensures At(st, t, s, st.sh.sessions[s], st.threads[t]) == st
  {
    assert st.sh.sessions[s := st.sh.sessions[s]] == st.sh.sessions && st.threads[t := st.threads[t]] == st.threads;
  }

  lemma ExitHops(c: Config, k: nat, st: State, u: nat, s: Sid, x: Sess)
    requires Reaches(c, k, st) && u < |st.threads| && st.threads[u] == Exiter(s)
    requires s < |st.sh.sessions| && x == st.sh.sessions[s] && x.m.Live?
    ensures Reaches(c, k, At(st, u, s, x.(m := Gone), Tear(s, TEARDOWN, Exit)))
  {
    Here(st, u, s);
    ReachesWithin(c, k, st);
    Hop(c, k, st, u, s, x, Exiter(s), true, x, Kill(s, Exit));
    Hop(c, k, st, u, s, x, Kill(s, Exit), true, x.(m := Gone), Tear(s, TEARDOWN, Exit));
  }

  lemma DeleteHop(c: Config, k: nat, st: State, v: nat, s: Sid, x: Sess)
    requires Reaches(c, k, st) && v < |st.threads| && st.threads[v] == HDestroy(s)
    requires s < |st.sh.sessions| && x == st.sh.sessions[s] && x.h.Inside?
    ensures Reaches(c, k, At(st, v, s, x.(h := Left(st.sh.hook)), Kill(s, FromHost(st.sh.hook))))
  {
    Here(st, v, s);
    ReachesWithin(c, k, st);
    Hop(c, k, st, v, s, x, HDestroy(s), true, x.(h := Left(st.sh.hook)), Kill(s, FromHost(st.sh.hook)));
  }

  /** The VM of a placed session exits and leaves the Manager; the Host still lists it. */
  lemma ExitOne(c: Config, k: nat, st: State, t: nat, u: nat, s: Sid, n: nat, host: nat, mgr: nat) returns (st': State)
    requires Reaches(c, k, st) && Staged(c, st, n, host, mgr, 0) && Placed(st, t, u, s) && mgr >= 1
    ensures Reaches(c, k, st') && Staged(c, st', n, host, mgr - 1, 0)
    ensures st'.sh.hook == st.sh.hook && st'.sh.pool == st.sh.pool
  {
    var x := st.sh.sessions[s];
    ExitHops(c, k, st, u, s, x);
    st' := At(st, u, s, x.(m := Gone), Tear(s, TEARDOWN, Exit));
    AtStaged(c, st, u, s, x.(m := Gone), Tear(s, TEARDOWN, Exit), n, host, mgr, 0);
  }

  /** A delete has taken a placed session out of the Host; the VM still runs. */
  lemma DeleteOne(c: Config, k: nat, st: State, t: nat, u: nat, s: Sid, n: nat, host: nat, mgr: nat) returns (st': State)
    requires Reaches(c, k, st) && Staged(c, st, n, host, mgr, 0) && Placed(st, t, u, s) && host >= 1
    ensures Reaches(c, k, st') && Staged(c, st', n, host - 1, mgr, 0)
  {
    var called := CallDelete(c, k, st, s, n, host, mgr);
    var x, v, hook := st.sh.sessions[s], |st.threads|, st.sh.hook;
    DeleteHop(c, k, called, v, s, x);
    st' := At(called, v, s, x.(h := Left(hook)), Kill(s, FromHost(hook)));
    AtStaged(c, called, v, s, x.(h := Left(hook)), Kill(s, FromHost(hook)), n, host, mgr, 0);
  }

  lemma CallDelete(c: Config, k: nat, st: State, s: Sid, n: nat, host: nat, mgr: nat) returns (st': State)
    requires Reaches(c, k, st) && Staged(c, st, n, host, mgr, 0)
    ensures Reaches(c, k, st') && Staged(c, st', n, host, mgr, 0)
    ensures st' == State(st.sh, st.threads + [HDestroy(s)])
  {
    st' := State(st.sh, st.threads + [HDestroy(s)]);
    NumAppend(st.threads, HDestroy(s), HostCall);
    NumAppend(st.threads, HDestroy(s), MgrCall);
    assert Apply(c, st, CallDestroy(s)) == st';
    ReachesStep(c, k, st, CallDestroy(s));
    DeleteAtTap(st, s);
  }

  lemma DeleteAtTap(st: State, s: Sid)
    requires Num(st.threads, HostCall) == 0
    ensures AllAtTap(State(st.sh, st.threads + [HDestroy(s)]))
  {
    var st' := State(st.sh, st.threads + [HDestroy(s)]);
    forall v | 0 <= v < |st'.threads| ensures !Plays(st'.threads[v], HostCall) && !AtTap(st', st'.threads[v]) {
      if v < |st.threads| && Plays(st.threads[v], HostCall) { NumOne(st.threads, v, HostCall); }
    }
  }

  lemma Empty(c: Config, k: nat) returns (st: State)
    requires c.block.Valid()
    ensures Reaches(c, k, st) && Staged(c, st, 0, 0, 0, 0) && st == Init(c)
  {
    ReachesInit(c, k);
    Netalloc.NewValid(c.block);
    st := Init(c);
  }

  /** `n` sessions in the Host whose VMs have all exited. */
  lemma {:induction false} FillHost(c: Config, k: nat, n: nat) returns (st: State)
    requires c.block.Valid() && k >= 1 && c.maxConcurrent >= 1 && n <= MaxLive(c) && n <= c.block.Capacity()
    ensures Reaches(c, k, st) && Staged(c, st, n, n, 0, 0) && st.sh.hook == None && st.sh.pool == Init(c).sh.pool
  {
    if n == 0 {
      st := Empty(c, k);
    } else {
      var before := FillHost(c, k, n - 1);
      st := OneExited(c, k, before, n - 1);
    }
  }

  lemma OneExited(c: Config, k: nat, st: State, n: nat) returns (st': State)
    requires Reaches(c, k, st) && Staged(c, st, n, n, 0, 0) && k >= 1
    requires c.maxConcurrent >= 1 && n < MaxLive(c) && n < c.block.Capacity()
    ensures Reaches(c, k, st') && Staged(c, st', n + 1, n + 1, 0, 0)
    ensures st'.sh.hook == st.sh.hook && st'.sh.pool == st.sh.pool
  {
    var open := OpenOne(c, k, st, n, n, 0, 0);
    var placed, t, u, s := FinishOne(c, k, open, n + 1, n, 0, 1);
    st' := ExitOne(c, k, placed, t, u, s, n + 1, n + 1, 1);
  }

  /** `n` VMs in the Manager that have all left the Host. */
  lemma {:induction false} FillManager(c: Config, k: nat, n: nat) returns (st: State)
    requires c.block.Valid() && k >= 1 && n <= c.maxConcurrent && n <= c.block.Capacity()
    ensures Reaches(c, k, st) && Staged(c, st, n, 0, n, 0)
  {
    if n == 0 {
      st := Empty(c, k);
    } else {
      var before := FillManager(c, k, n - 1);
      st := OneDeleted(c, k, before, n - 1);
    }
  }

  lemma OneDeleted(c: Config, k: nat, st: State, n: nat) returns (st': State)
    requires Reaches(c, k, st) && Staged(c, st, n, 0, n, 0) && k >= 1 && n < c.maxConcurrent && n < c.block.Capacity()
    ensures Reaches(c, k, st') && Staged(c, st', n + 1, 0, n + 1, 0)
  {
    var open := OpenOne(c, k, st, n, 0, n, 0);
    var placed, t, u, s := FinishOne(c, k, open, n + 1, 0, n, 1);
    st' := DeleteOne(c, k, placed, t, u, s, n + 1, 1, n + 1);
  }

  // --- the bounds are attained ---

  /**
   The Host's bound: for every configuration that admits a VM, and every k the address block has room for, a run with
   at most k creating calls in progress at any moment ends with limit - 1 + k sessions in the Host.
   */
  lemma HostAttained(c: Config, k: nat) returns (st: State)
    requires c.block.Valid() && k >= 1 && c.maxConcurrent >= 1 && MaxLive(c) - 1 + k <= c.block.Capacity()
    ensures Reaches(c, k, st) && HostLen(st.sh.sessions) == MaxLive(c) - 1 + k
  {
    var n := MaxLive(c) - 1;
    var full := FillHost(c, k, n);
    var open := OpenMany(c, k, full, n, n, 0, k);
    st := FinishAll(c, k, open, n + k, n, 0, k);
  }

  /** The Manager's bound, likewise. */
  lemma MgrAttained(c: Config, k: nat) returns (st: State)
    requires c.block.Valid() && k >= 1 && c.maxConcurrent >= 1 && c.maxConcurrent - 1 + k <= c.block.Capacity()
    ensures Reaches(c, k, st) && MgrLen(st.sh.sessions) == c.maxConcurrent - 1 + k
  {
    var n := c.maxConcurrent - 1;
    var full := FillManager(c, k, n);
    var open := OpenMany(c, k, full, n, 0, n, k);
    st := FinishAll(c, k, open, n + k, 0, n, k);
  }

  // --- when the limits are kept ---

  ghost predicate HostKept(c: Config, k: nat) {
    forall st :: Reaches(c, k, st) ==> HostLen(st.sh.sessions) <= MaxLive(c)
  }

  ghost predicate MgrKept(c: Config, k: nat) {
    forall st :: Reaches(c, k, st) ==> MgrLen(st.sh.sessions) <= Max(0, c.maxConcurrent)
  }

  lemma Wider(c: Config, k: nat, st: State)
    requires Reaches(c, 2, st) && k >= 2
    ensures Reaches(c, k, st)
  {
    var trace: seq<State> :| IsNarrowRun(c, 2, trace) && trace[|trace| - 1] == st;
    forall i | 0 <= i < |trace| ensures Within(k, trace[i]) { assert Within(2, trace[i]); }
    assert IsNarrowRun(c, k, trace);
  }

  lemma {:induction false} FewLens(ss: seq<Sess>)
    ensures HostLen(ss) <= |ss| && MgrLen(ss) <= |ss|
  {
    if ss != [] { FewLens(ss[..|ss| - 1]); }
  }

  lemma HostWithin(c: Config, k: nat, st: State)
    requires Reaches(c, k, st) && (k <= 1 || c.maxConcurrent < 1 || c.block.Capacity() <= MaxLive(c))
    ensures HostLen(st.sh.sessions) <= MaxLive(c)
  {
    var trace: seq<State> :| IsNarrowRun(c, k, trace) && trace[|trace| - 1] == st;
    if k <= 1 {
      forall j | 0 <= j < |trace| ensures Num(trace[j].threads, HostCall) <= k { assert Within(k, trace[j]); }
      HostOvershoot(c, trace, |trace| - 1, k);
    } else {
      FewSessions(c, trace, |trace| - 1);
      FewLens(st.sh.sessions);
    }
  }

  lemma MgrWithin(c: Config, k: nat, st: State)
    requires Reaches(c, k, st) && (k <= 1 || c.maxConcurrent < 1 || c.block.Capacity() <= c.maxConcurrent)
    ensures MgrLen(st.sh.sessions) <= Max(0, c.maxConcurrent)
  {
    var trace: seq<State> :| IsNarrowRun(c, k, trace) && trace[|trace| - 1] == st;
    if k <= 1 {
      forall j | 0 <= j < |trace| ensures Num(trace[j].threads, MgrCall) <= k { assert Within(k, trace[j]); }
      MgrOvershoot(c, trace, |trace| - 1, k);
    } else {
      FewSessions(c, trace, |trace| - 1);
      FewLens(st.sh.sessions);
    }
  }

  /** In every configuration: the Host's limit is kept in all runs with at most k creating calls in progress exactly when
   k is at most 1, or no VM is ever admitted, or the address block is no larger than the limit. */
  lemma HostLimitIff(c: Config, k: nat)
    requires c.block.Valid()
    ensures HostKept(c, k) <==> k <= 1 || c.maxConcurrent < 1 || c.block.Capacity() <= MaxLive(c)
  {
    if k <= 1 || c.maxConcurrent < 1 || c.block.Capacity() <= MaxLive(c) {
      forall st | Reaches(c, k, st) ensures HostLen(st.sh.sessions) <= MaxLive(c) { HostWithin(c, k, st); }
    } else {
      var st := HostAttained(c, 2);
      Wider(c, k, st);
    }
  }

  /** Likewise for the Manager's limit. */
  lemma MgrLimitIff(c: Config, k: nat)
    requires c.block.Valid()
    ensures MgrKept(c, k) <==> k <= 1 || c.maxConcurrent < 1 || c.block.Capacity() <= c.maxConcurrent
  {
    if k <= 1 || c.maxConcurrent < 1 || c.block.Capacity() <= c.maxConcurrent {
      forall st | Reaches(c, k, st) ensures MgrLen(st.sh.sessions) <= Max(0, c.maxConcurrent) { MgrWithin(c, k, st); }
    } else {
      var st := MgrAttained(c, 2);
      Wider(c, k, st);
    }
  }
}
