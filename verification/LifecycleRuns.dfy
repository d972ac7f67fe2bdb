/** Runs of the whole system, built step by step. */
module LifecycleRuns {
  import opened Common
  import opened Lifecycle
  import opened LifecycleCounts
  import opened LifecycleInvariant
  import opened LifecycleSafety

  /** At most `k` creating calls are in progress, in the Host and in the Manager. */
  ghost predicate Within(k: nat, st: State) {
    Num(st.threads, HostCall) <= k && Num(st.threads, MgrCall) <= k
  }

  ghost predicate IsNarrowRun(c: Config, k: nat, trace: seq<State>) {
    IsRun(c, trace) && forall i :: 0 <= i < |trace| ==> Within(k, trace[i])
  }

  ghost predicate Reaches(c: Config, k: nat, st: State) {
    exists trace :: IsNarrowRun(c, k, trace) && trace[|trace| - 1] == st
  }

  lemma ReachesInit(c: Config, k: nat)
    requires c.block.Valid()
    ensures Reaches(c, k, Init(c))
  {
    assert IsNarrowRun(c, k, [Init(c)]);
  }

  lemma ReachesStep(c: Config, k: nat, st: State, e: Event)
    requires Reaches(c, k, st) && Enabled(st, e) && Within(k, Apply(c, st, e))
    ensures Reaches(c, k, Apply(c, st, e))
  {
    var trace :| IsNarrowRun(c, k, trace) && trace[|trace| - 1] == st;
    var longer := trace + [Apply(c, st, e)];
    forall i | 0 < i < |longer| ensures FollowsAt(c, longer, i) {
      if i < |trace| { assert FollowsAt(c, trace, i); }
    }
    assert IsNarrowRun(c, k, longer);
  }

  lemma ReachesWithin(c: Config, k: nat, st: State)
    requires Reaches(c, k, st)
    ensures Within(k, st)
  {
    var trace: seq<State> :| IsNarrowRun(c, k, trace) && trace[|trace| - 1] == st;
    assert Within(k, trace[|trace| - 1]);
  }

  lemma WithinWith(k: nat, threads: seq<Pc>, t: nat, pc': Pc, spawn: Option<Pc>, sh: Shared, sh': Shared)
    requires t < |threads| && Within(k, State(sh, threads))
    requires Change(threads[t], pc', spawn, HostCall) <= 0 && Change(threads[t], pc', spawn, MgrCall) <= 0
    ensures Within(k, State(sh', With(threads[t := pc'], spawn)))
  {
    NumWith(threads, t, pc', spawn, HostCall);
    NumWith(threads, t, pc', spawn, MgrCall);
  }

  /** A step of goroutine `t` on its session, as part of a narrow run. */
  lemma ReachesTaken(c: Config, k: nat, st: State, t: nat, ok: bool, l: Local)
    requires Reaches(c, k, st) && Within(k, st)
    requires t < |st.threads| && OnSession(st.threads[t]) && st.threads[t].s < |st.sh.sessions|
    requires CanLocal(st.sh.sessions[st.threads[t].s], st.threads[t], ok) && l == LocalAt(c, st, t, ok)
    requires Change(st.threads[t], l.pc, l.spawn, HostCall) <= 0 && Change(st.threads[t], l.pc, l.spawn, MgrCall) <= 0
    ensures Reaches(c, k, Taken(st, t, l)) && Within(k, Taken(st, t, l))
  {
    WithinWith(k, st.threads, t, l.pc, l.spawn, st.sh, Taken(st, t, l).sh);
    assert Apply(c, st, Run(t, ok)) == Taken(st, t, l);
    ReachesStep(c, k, st, Run(t, ok));
  }

  // --- one call, from the check to the insert ---

  /** `base` with session `s` in state `x` and goroutine `t` at `pc`. */
  function At(base: State, t: nat, s: Sid, x: Sess, pc: Pc): State
    requires t < |base.threads| && s < |base.sh.sessions|
  {
    State(base.sh.(sessions := base.sh.sessions[s := x]), base.threads[t := pc])
  }

  /** One step that only moves `x` and `pc`. */
  lemma Hop(c: Config, k: nat, base: State, t: nat, s: Sid, x: Sess, pc: Pc, ok: bool, x': Sess, pc': Pc)
    requires t < |base.threads| && s < |base.sh.sessions| && OnSession(pc) && pc.s == s && CanLocal(x, pc, ok)
    requires Reaches(c, k, At(base, t, s, x, pc)) && Within(k, At(base, t, s, x, pc))
    requires forall full :: LocalStep(x, pc, ok, base.sh.hook, full) == Go(x', pc')
    requires Change(pc, pc', None, HostCall) <= 0 && Change(pc, pc', None, MgrCall) <= 0
    ensures Reaches(c, k, At(base, t, s, x', pc')) && Within(k, At(base, t, s, x', pc'))
  {
    var st := At(base, t, s, x, pc);
    var l := LocalAt(c, st, t, ok);
    ReachesTaken(c, k, st, t, ok, l);
    assert Taken(st, t, l).threads == base.threads[t := pc'];
    assert Taken(st, t, l).sh.sessions == base.sh.sessions[s := x'];
  }

  function StagesLeft(stage: Stage): nat {
    match stage
    case Tap => 6 case Rand => 5 case Dir => 4 case Token => 3 case Rootfs => 2 case Launch => 1 case Insert => 0
  }

  /** The commands from `stage` on succeed; `made` is then the history of the session's commands. */
  lemma Climb(c: Config, k: nat, base: State, t: nat, s: Sid, x: Sess, o: For, stage: Stage) returns (made: seq<Stage>)
    requires t < |base.threads| && s < |base.sh.sessions|
    requires var st := At(base, t, s, x, Build(s, o, stage)); Reaches(c, k, st) && Within(k, st)
    ensures var st := At(base, t, s, x.(m := Live, made := made), Spawn(s, o)); Reaches(c, k, st) && Within(k, st)
    decreases StagesLeft(stage)
  {
    if stage == Insert {
      made := x.made;
      Hop(c, k, base, t, s, x, Build(s, o, Insert), true, x.(m := Live, made := made), Spawn(s, o));
    } else {
      var y := x.(made := x.made + [stage]);
      Hop(c, k, base, t, s, x, Build(s, o, stage), true, y, Build(s, o, NextStage(stage)));
      made := Climb(c, k, base, t, s, y, o, NextStage(stage));
      assert y.(m := Live, made := made) == x.(m := Live, made := made);
    }
  }

  /** `base` with the process waiter of `s` started. */
  function Waited(base: State, s: Sid): State {
    State(base.sh, base.threads + [Exiter(s)])
  }

  lemma StartWaiter(c: Config, k: nat, base: State, t: nat, s: Sid, x: Sess, o: For)
    requires t < |base.threads| && s < |base.sh.sessions|
    requires var st := At(base, t, s, x, Spawn(s, o)); Reaches(c, k, st) && Within(k, st)
    ensures var st := At(Waited(base, s), t, s, x, Wait(s, o)); Reaches(c, k, st) && Within(k, st)
  {
    var st := At(base, t, s, x, Spawn(s, o));
    var l := LocalAt(c, st, t, true);
    ReachesTaken(c, k, st, t, true, l);
    assert Taken(st, t, l).threads == Waited(base, s).threads[t := Wait(s, o)];
    assert Taken(st, t, l).sh.sessions == base.sh.sessions[s := x];
  }

  lemma GuestSaysHello(c: Config, k: nat, base: State, t: nat, s: Sid, x: Sess, pc: Pc)
    requires t < |base.threads| && s < |base.sh.sessions| && x.m.Live?
    requires var st := At(base, t, s, x, pc); Reaches(c, k, st) && Within(k, st)
    ensures var st := At(base, t, s, x.(ready := true), pc); Reaches(c, k, st) && Within(k, st)
  {
    var st := At(base, t, s, x, pc);
    assert Apply(c, st, GuestReady(s)) == At(base, t, s, x.(ready := true), pc) by {
      assert st.sh.sessions[s := x.(ready := true)] == base.sh.sessions[s := x.(ready := true)];
    }
    ReachesStep(c, k, st, GuestReady(s));
  }

  /** The session of a launch that succeeded. */
  function Launched(x: Sess, made: seq<Stage>): Sess {
    x.(m := Live, ready := true, made := made)
  }

  /** A launch whose every command succeeds, up to the guest's handshake. */
  lemma Boot(c: Config, k: nat, base: State, t: nat, s: Sid, x: Sess, o: For) returns (made: seq<Stage>)
    requires t < |base.threads| && s < |base.sh.sessions|
    requires var st := At(base, t, s, x, Build(s, o, Tap)); Reaches(c, k, st) && Within(k, st)
    ensures var st := At(Waited(base, s), t, s, Launched(x, made), Wait(s, o)); Reaches(c, k, st) && Within(k, st)
  {
    made := Climb(c, k, base, t, s, x, o, Tap);
    var y := x.(m := Live, made := made);
    StartWaiter(c, k, base, t, s, y, o);
    GuestSaysHello(c, k, Waited(base, s), t, s, y, Wait(s, o));
  }

  function InHost(x: Sess, made: seq<Stage>): Sess {
    Launched(x, made).(h := Inside)
  }

  /** A call of Host.Create whose launch succeeds ends with its session in both maps. */
  lemma Finish(c: Config, k: nat, base: State, t: nat, s: Sid, x: Sess) returns (made: seq<Stage>)
    requires t < |base.threads| && s < |base.sh.sessions|
    requires var st := At(base, t, s, x, Build(s, ForHost, Tap)); Reaches(c, k, st) && Within(k, st)
    ensures var st := At(Waited(base, s), t, s, InHost(x, made), Watch(s)); Reaches(c, k, st) && Within(k, st)
  {
    made := Boot(c, k, base, t, s, x, ForHost);
    var next, z := Waited(base, s), Launched(x, made);
    Hop(c, k, next, t, s, z, Wait(s, ForHost), true, z, HInsert(s));
    Hop(c, k, next, t, s, z, HInsert(s), true, InHost(x, made), Watch(s));
  }

  // --- a new call, up to its address ---

  /** `base` after a new call that passed both checks and got the address of a new session. */
  function Begun(base: State): State
    requires base.sh.net.base.Valid()
  {
    var o := StepAlloc(base.sh, ForHost);
    State(o.sh, base.threads + [o.pc])
  }

  lemma Begin(c: Config, k: nat, base: State)
    requires Reaches(c, k, base) && base.sh.net.base.Valid()
    requires Num(base.threads, HostCall) < k && Num(base.threads, MgrCall) < k
    requires HostLen(base.sh.sessions) < MaxLive(c) && MgrLen(base.sh.sessions) < c.maxConcurrent
    requires StepAlloc(base.sh, ForHost).pc.Build?
    ensures Reaches(c, k, Begun(base))
  {
    var t := |base.threads|;
    Push(c, k, base, Check);
    ReachesStep(c, k, base, CallCreate);
    var st := State(base.sh, base.threads + [Check]);
    assert Apply(c, base, CallCreate) == st;
    Push(c, k, base, MCheck(ForHost));
    Push(c, k, base, MAlloc(ForHost));
    Push(c, k, base, StepAlloc(base.sh, ForHost).pc);
    NextFree(c, k, base, base.sh, Check);
    NextFree(c, k, base, base.sh, MCheck(ForHost));
    NextFree(c, k, base, base.sh, MAlloc(ForHost));
  }

  lemma Push(c: Config, k: nat, base: State, pc: Pc)
    requires Num(base.threads, HostCall) < k && Num(base.threads, MgrCall) < k
    ensures forall sh :: Within(k, State(sh, base.threads + [pc]))
  {
    NumAppend(base.threads, pc, HostCall);
    NumAppend(base.threads, pc, MgrCall);
  }

  lemma NextFree(c: Config, k: nat, base: State, sh: Shared, pc: Pc)
    requires !OnSession(pc) && CanStep(sh, pc, true)
    requires Reaches(c, k, State(sh, base.threads + [pc]))
    requires var o := StepFree(c, sh, pc); o.spawn.None? && Within(k, State(o.sh, base.threads + [o.pc]))
    ensures var o := StepFree(c, sh, pc); Reaches(c, k, State(o.sh, base.threads + [o.pc]))
  {
    var st, t := State(sh, base.threads + [pc]), |base.threads|;
    var o := StepFree(c, sh, pc);
    assert st.threads[t := o.pc] == base.threads + [o.pc];
    assert Apply(c, st, Run(t, true)) == State(o.sh, base.threads + [o.pc]);
    ReachesStep(c, k, st, Run(t, true));
  }
}
