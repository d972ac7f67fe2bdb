/**
 What was done to make a session. In every run: a session in the Manager had every command of Create, in order; a Create
 that failed undid what it had done; a session was ready before it was placed; every running VM has a process waiter;
 and a delete that has ended has taken its session out of the Host.
 */
module LifecycleBuild {
  import opened Common
  import opened Lifecycle
  import opened LifecycleCounts
  import opened LifecycleInvariant
  import opened LifecycleSafety
  import opened LifecycleTheorems

  /** The commands of Create after the address. */
  const COMMANDS: seq<Stage> := [Tap, Rand, Dir, Token, Rootfs, Launch]

  /** How many commands come before the one of `stage`. */
  function Position(stage: Stage): (n: nat)
    ensures n <= 6
  {
    match stage
    case Tap => 0 case Rand => 1 case Dir => 2 case Token => 3 case Rootfs => 4 case Launch => 5 case Insert => 6
  }

  /** What is to undo when the first `n` commands have succeeded and the next one fails. */
  function ToUndo(n: nat): seq<Undo> {
    if n == 0 then [UndoIp] else if n <= 2 then [UndoTap, UndoIp] else [UndoDir, UndoTap, UndoIp]
  }

  /** What a goroutine on session `x` knows of its making. */
  ghost predicate ThreadKnows(x: Sess, pc: Pc) {
    match pc
    case Build(_, _, stage) => x.made == COMMANDS[..Position(stage)] && x.undone == []
    case Unbuild(_, _, undo) =>
      |x.made| < 6 && x.made == COMMANDS[..|x.made|] && x.undone + undo == ToUndo(|x.made|)
    case WarmPoke(_) => x.ready
    case WarmInsert(_) => x.ready
    case HInsert(_) => x.ready
    case Append(_) => x.ready
    case _ => true
  }

  /** `owners` goroutines own the session, `reapers` wait for its process. */
  ghost predicate SessKnown(x: Sess, owners: nat, reapers: nat) {
    && (!x.m.Making? ==> x.made == COMMANDS && x.undone == [])
    && (x.m.Making? && owners == 0 ==> |x.made| < 6 && x.made == COMMANDS[..|x.made|] && x.undone == ToUndo(|x.made|))
    && (!x.h.Outside? || x.dropped ==> x.ready)
    && (x.m.Live? ==> reapers >= 1)
  }

  ghost predicate ThreadIn(sh: Shared, pc: Pc) {
    OnSession(pc) && pc.s < |sh.sessions| ==> ThreadKnows(sh.sessions[pc.s], pc)
  }

  ghost predicate SessIn(st: State, s: Sid)
    requires s < |st.sh.sessions|
  {
    SessKnown(st.sh.sessions[s], Num(st.threads, Owns(s)), Num(st.threads, Reaps(s)))
  }

  ghost predicate PoolReady(sh: Shared) {
    forall i :: 0 <= i < |sh.pool.ready| ==> sh.pool.ready[i] < |sh.sessions| && sh.sessions[sh.pool.ready[i]].ready
  }

  ghost predicate Known(st: State) {
    && (forall t :: 0 <= t < |st.threads| ==> ThreadIn(st.sh, st.threads[t]))
    && (forall s :: 0 <= s < |st.sh.sessions| ==> SessIn(st, s))
    && PoolReady(st.sh)
  }

  // --- one goroutine, one session ---

  predicate Making(pc: Pc) {
    pc.Build? || pc.Unbuild?
  }

  lemma BuildKnows(x: Sess, pc: Pc, ok: bool)
    requires pc.Build? && CanLocal(x, pc, ok) && ThreadOk(x, pc) && ThreadKnows(x, pc)
    ensures var l := Launching(x, pc, ok); ThreadKnows(l.x, l.pc) && l.spawn.None?
    ensures var l := Launching(x, pc, ok); l.x.m.Live? ==> l.x.made == COMMANDS && l.x.undone == []
  {
    if pc.stage != Insert {
      var n := Position(pc.stage);
      assert COMMANDS[..n + 1] == COMMANDS[..n] + [COMMANDS[n]] && COMMANDS[n] == pc.stage;
    }
  }

  lemma UnbuildKnows(x: Sess, pc: Pc, ok: bool)
    requires pc.Unbuild? && CanLocal(x, pc, ok) && ThreadOk(x, pc) && ThreadKnows(x, pc)
    ensures var l := Launching(x, pc, ok); ThreadKnows(l.x, l.pc) && l.spawn.None? && l.x.m == x.m && l.x.made == x.made
    ensures var l := Launching(x, pc, ok); !Making(l.pc) ==> l.x.undone == ToUndo(|x.made|)
  {
    assert x.undone + pc.undo == (x.undone + [pc.undo[0]]) + pc.undo[1..];
    if |pc.undo| == 1 { assert pc.undo[1..] == []; }
  }

  lemma OtherKnows(x: Sess, pc: Pc, ok: bool, hook: Option<Hook>, full: bool)
    requires OnSession(pc) && !Making(pc) && CanLocal(x, pc, ok) && ThreadOk(x, pc) && ThreadKnows(x, pc)
    ensures var l := LocalStep(x, pc, ok, hook, full);
      && ThreadKnows(l.x, l.pc) && (l.spawn.Some? ==> ThreadKnows(l.x, l.spawn.value))
      && l.x.made == x.made && l.x.undone == x.undone && (x.m.Making? <==> l.x.m.Making?) && l.x.ready == x.ready
      && (l.fx.PoolPush? ==> l.x.ready)
  {
  }

  lemma LocalKnows(x: Sess, pc: Pc, ok: bool, hook: Option<Hook>, full: bool)
    requires OnSession(pc) && CanLocal(x, pc, ok) && ThreadOk(x, pc) && ThreadKnows(x, pc)
    ensures var l := LocalStep(x, pc, ok, hook, full);
      && ThreadKnows(l.x, l.pc) && (l.spawn.Some? ==> ThreadKnows(l.x, l.spawn.value))
      && l.x.ready == x.ready && (l.fx.PoolPush? ==> l.x.ready)
  {
    if pc.Build? {
      BuildKnows(x, pc, ok);
    } else if pc.Unbuild? {
      UnbuildKnows(x, pc, ok);
    } else {
      OtherKnows(x, pc, ok, hook, full);
    }
  }

  /** The goroutines on the session that are not making it still know what they knew. */
  lemma OthersKnow(x: Sess, pc: Pc, ok: bool, hook: Option<Hook>, full: bool, qc: Pc)
    requires OnSession(pc) && CanLocal(x, pc, ok) && ThreadOk(x, pc) && ThreadKnows(x, pc)
    requires ThreadKnows(x, qc) && !(Making(pc) && Making(qc))
    ensures ThreadKnows(LocalStep(x, pc, ok, hook, full).x, qc)
  {
    LocalKnows(x, pc, ok, hook, full);
    if !Making(pc) { OtherKnows(x, pc, ok, hook, full); }
  }

  lemma PlacedReady(x: Sess, pc: Pc, ok: bool, hook: Option<Hook>, full: bool)
    requires OnSession(pc) && CanLocal(x, pc, ok) && ThreadKnows(x, pc) && (!x.h.Outside? || x.dropped ==> x.ready)
    ensures var y := LocalStep(x, pc, ok, hook, full).x; !y.h.Outside? || y.dropped ==> y.ready
  {
  }

  lemma LeaversStay(x: Sess, pc: Pc, hook: Option<Hook>)
    requires OnSession(pc) && !IsPlacing(pc) && !IsLaunching(pc) && CanLocal(x, pc, false) && ThreadOk(x, pc)
    ensures var l := Leaving(x, pc, hook);
      l.x.m.Live? ==> x.m.Live? && Change(pc, l.pc, l.spawn, Reaps(pc.s)) == 0
  {
  }

  lemma ReapersStay(x: Sess, pc: Pc, ok: bool, hook: Option<Hook>, full: bool, n: nat)
    requires OnSession(pc) && CanLocal(x, pc, ok) && ThreadOk(x, pc)
    requires n >= Bit(Plays(pc, Reaps(pc.s))) && (x.m.Live? ==> n >= 1)
    ensures var l := LocalStep(x, pc, ok, hook, full);
      l.x.m.Live? ==> n + Change(pc, l.pc, l.spawn, Reaps(pc.s)) >= 1
  {
    if !IsPlacing(pc) && !IsLaunching(pc) { LeaversStay(x, pc, hook); }
  }

  lemma OwnersStay(x: Sess, pc: Pc, ok: bool, hook: Option<Hook>, full: bool)
    requires OnSession(pc) && CanLocal(x, pc, ok) && ThreadOk(x, pc) && x.m.Making?
    ensures var l := LocalStep(x, pc, ok, hook, full);
      Change(pc, l.pc, l.spawn, Owns(pc.s)) == if Making(pc) && !Making(l.pc) then -1 else 0
  {
  }

  lemma SessStep(x: Sess, pc: Pc, ok: bool, hook: Option<Hook>, full: bool, owners: nat, reapers: nat)
    requires OnSession(pc) && CanLocal(x, pc, ok) && ThreadOk(x, pc) && ThreadKnows(x, pc) && SessKnown(x, owners, reapers)
    requires owners >= Bit(Plays(pc, Owns(pc.s))) && reapers >= Bit(Plays(pc, Reaps(pc.s)))
    ensures var l := LocalStep(x, pc, ok, hook, full);
      var n, m := owners + Change(pc, l.pc, l.spawn, Owns(pc.s)), reapers + Change(pc, l.pc, l.spawn, Reaps(pc.s));
      n >= 0 && m >= 0 ==> SessKnown(l.x, n, m)
  {
    PlacedReady(x, pc, ok, hook, full);
    ReapersStay(x, pc, ok, hook, full, reapers);
    if x.m.Making? { OwnersStay(x, pc, ok, hook, full); }
    if pc.Build? {
      BuildKnows(x, pc, ok);
    } else if pc.Unbuild? {
      UnbuildKnows(x, pc, ok);
    } else {
      OtherKnows(x, pc, ok, hook, full);
    }
  }

  // --- the whole state ---

  /** At most one goroutine is making a session. */
  lemma OneMaker(c: Config, st: State, t: nat, u: nat)
    requires Inv(c, st) && t < |st.threads| && u < |st.threads| && t != u && OnSession(st.threads[u])
    requires Making(st.threads[t]) && st.threads[t].s == st.threads[u].s < |st.sh.sessions|
    ensures !Making(st.threads[u])
  {
    var s := st.threads[t].s;
    assert SessionOk(c, st, s);
    if Making(st.threads[u]) { NumPair(st.threads, if t < u then t else u, if t < u then u else t, Owns(s)); }
  }

  /** The goroutine that moved, and the one it started. */
  lemma MoverKnows(c: Config, st: State, t: nat, ok: bool, l: Local, sh': Shared)
    requires t < |st.threads| && OnSession(st.threads[t]) && st.threads[t].s < |st.sh.sessions|
    requires ThreadPlaced(st.sh, st.threads[t]) && ThreadIn(st.sh, st.threads[t])
    requires CanLocal(st.sh.sessions[st.threads[t].s], st.threads[t], ok) && l == LocalAt(c, st, t, ok)
    requires sh'.sessions == st.sh.sessions[st.threads[t].s := l.x]
    ensures ThreadIn(sh', l.pc) && (l.spawn.Some? ==> ThreadIn(sh', l.spawn.value))
  {
    var pc := st.threads[t];
    LocalKnows(st.sh.sessions[pc.s], pc, ok, st.sh.hook, HostLen(st.sh.sessions) >= MaxLive(c));
    StaysPut(st.sh.sessions[pc.s], pc, ok, st.sh.hook, HostLen(st.sh.sessions) >= MaxLive(c));
  }

  /** Any other goroutine. */
  lemma BystanderKnows(c: Config, st: State, t: nat, ok: bool, l: Local, sh': Shared, qc: Pc)
    requires t < |st.threads| && OnSession(st.threads[t]) && st.threads[t].s < |st.sh.sessions|
    requires ThreadPlaced(st.sh, st.threads[t]) && ThreadIn(st.sh, st.threads[t]) && ThreadIn(st.sh, qc)
    requires CanLocal(st.sh.sessions[st.threads[t].s], st.threads[t], ok) && l == LocalAt(c, st, t, ok)
    requires sh'.sessions == st.sh.sessions[st.threads[t].s := l.x]
    requires OnSession(qc) && qc.s == st.threads[t].s ==> !(Making(st.threads[t]) && Making(qc))
    ensures ThreadIn(sh', qc)
  {
    var pc := st.threads[t];
    if OnSession(qc) && qc.s == pc.s {
      OthersKnow(st.sh.sessions[pc.s], pc, ok, st.sh.hook, HostLen(st.sh.sessions) >= MaxLive(c), qc);
    }
  }

  lemma TakenThread(c: Config, st: State, t: nat, ok: bool, l: Local, st': State, v: nat)
    requires Inv(c, st) && Known(st) && t < |st.threads| && OnSession(st.threads[t]) && st.threads[t].s < |st.sh.sessions|
    requires CanLocal(st.sh.sessions[st.threads[t].s], st.threads[t], ok) && l == LocalAt(c, st, t, ok)
    requires st'.sh.sessions == st.sh.sessions[st.threads[t].s := l.x] && st'.threads == With(st.threads[t := l.pc], l.spawn)
    requires v < |st'.threads|
    ensures ThreadIn(st'.sh, st'.threads[v])
  {
    assert ThreadPlaced(st.sh, st.threads[t]) && ThreadIn(st.sh, st.threads[t]);
    if v < |st.threads| && v != t {
      var qc := st.threads[v];
      assert ThreadIn(st.sh, qc);
      if OnSession(qc) && qc.s == st.threads[t].s && Making(st.threads[t]) { OneMaker(c, st, t, v); }
      BystanderKnows(c, st, t, ok, l, st'.sh, qc);
    } else {
      MoverKnows(c, st, t, ok, l, st'.sh);
    }
  }

  lemma StaysPut(x: Sess, pc: Pc, ok: bool, hook: Option<Hook>, full: bool)
    requires OnSession(pc) && CanLocal(x, pc, ok)
    ensures var l := LocalStep(x, pc, ok, hook, full);
      && (OnSession(l.pc) ==> l.pc.s == pc.s)
      && (l.spawn.Some? ==> OnSession(l.spawn.value) && l.spawn.value.s == pc.s)
  {
  }

  lemma SessHere(c: Config, st: State, t: nat, ok: bool, l: Local, st': State)
    requires t < |st.threads| && OnSession(st.threads[t]) && st.threads[t].s < |st.sh.sessions|
    requires SessIn(st, st.threads[t].s) && ThreadPlaced(st.sh, st.threads[t]) && ThreadIn(st.sh, st.threads[t])
    requires CanLocal(st.sh.sessions[st.threads[t].s], st.threads[t], ok) && l == LocalAt(c, st, t, ok)
    requires st'.sh.sessions == st.sh.sessions[st.threads[t].s := l.x] && st'.threads == With(st.threads[t := l.pc], l.spawn)
    ensures SessIn(st', st.threads[t].s)
  {
    var s := st.threads[t].s;
    NumWith(st.threads, t, l.pc, l.spawn, Owns(s));
    NumWith(st.threads, t, l.pc, l.spawn, Reaps(s));
    SessStep(st.sh.sessions[s], st.threads[t], ok, st.sh.hook, HostLen(st.sh.sessions) >= MaxLive(c),
             Num(st.threads, Owns(s)), Num(st.threads, Reaps(s)));
  }

  lemma SessElsewhere(c: Config, st: State, t: nat, ok: bool, l: Local, st': State, s: Sid)
    requires t < |st.threads| && OnSession(st.threads[t]) && st.threads[t].s < |st.sh.sessions|
    requires s < |st.sh.sessions| && s != st.threads[t].s && SessIn(st, s)
    requires CanLocal(st.sh.sessions[st.threads[t].s], st.threads[t], ok) && l == LocalAt(c, st, t, ok)
    requires st'.sh.sessions == st.sh.sessions[st.threads[t].s := l.x] && st'.threads == With(st.threads[t := l.pc], l.spawn)
    ensures SessIn(st', s)
  {
    NumWith(st.threads, t, l.pc, l.spawn, Owns(s));
    NumWith(st.threads, t, l.pc, l.spawn, Reaps(s));
    StaysPut(st.sh.sessions[st.threads[t].s], st.threads[t], ok, st.sh.hook, HostLen(st.sh.sessions) >= MaxLive(c));
  }

  lemma PerformReady(sh: Shared, s: Sid, fx: Effect)
    requires s < |sh.sessions| && PoolReady(sh) && (fx.PoolPush? ==> sh.sessions[s].ready)
    ensures Perform(sh, s, fx).sessions == sh.sessions && PoolReady(Perform(sh, s, fx))
  {
  }

  lemma TakenKnown(c: Config, st: State, t: nat, ok: bool, l: Local)
    requires Inv(c, st) && Known(st) && t < |st.threads| && OnSession(st.threads[t]) && st.threads[t].s < |st.sh.sessions|
    requires CanLocal(st.sh.sessions[st.threads[t].s], st.threads[t], ok) && l == LocalAt(c, st, t, ok)
    ensures Known(Taken(st, t, l))
  {
    var st', pc := Taken(st, t, l), st.threads[t];
    assert ThreadPlaced(st.sh, pc) && ThreadIn(st.sh, pc);
    LocalKnows(st.sh.sessions[pc.s], pc, ok, st.sh.hook, HostLen(st.sh.sessions) >= MaxLive(c));
    PerformReady(st.sh.(sessions := st.sh.sessions[pc.s := l.x]), pc.s, l.fx);
    forall v | 0 <= v < |st'.threads| ensures ThreadIn(st'.sh, st'.threads[v]) { TakenThread(c, st, t, ok, l, st', v); }
    forall s | 0 <= s < |st'.sh.sessions| ensures SessIn(st', s) {
      assert SessIn(st, s);
      if s == pc.s { SessHere(c, st, t, ok, l, st'); } else { SessElsewhere(c, st, t, ok, l, st', s); }
    }
  }

  /** A step that leaves the sessions there are as they were, but for the ready channel, and may add a fresh one. */
  ghost predicate Grows(before: seq<Sess>, after: seq<Sess>) {
    && |before| <= |after| <= |before| + 1
    && (forall s :: 0 <= s < |before| ==> after[s] == before[s].(ready := after[s].ready) && (before[s].ready ==> after[s].ready))
    && (|after| > |before| ==> after[|before|] == Fresh(after[|before|].lease))
  }

  lemma FreeGrows(c: Config, sh: Shared, pc: Pc)
    requires !OnSession(pc) && CanStep(sh, pc, false)
    ensures var o := StepFree(c, sh, pc);
      && Grows(sh.sessions, o.sh.sessions) && o.spawn.None?
      && (|o.sh.sessions| > |sh.sessions| ==> o.pc.Build? && o.pc.s == |sh.sessions|)
  {
  }

  lemma FreePool(c: Config, sh: Shared, pc: Pc)
    requires PoolReady(sh) && !OnSession(pc) && CanStep(sh, pc, false)
    ensures var o := StepFree(c, sh, pc); PoolReady(o.sh) && ThreadIn(o.sh, o.pc)
  {
  }

  lemma FreeParts(c: Config, sh: Shared, pc: Pc)
    requires !OnSession(pc) && CanStep(sh, pc, false)
    ensures var o := StepFree(c, sh, pc);
      forall s: nat :: s < |sh.sessions| ==> !Plays(o.pc, Owns(s)) && !Plays(o.pc, Reaps(s))
  {
  }

  lemma GrownThread(before: Shared, after: Shared, pc: Pc)
    requires Grows(before.sessions, after.sessions) && ThreadIn(before, pc) && (OnSession(pc) ==> pc.s < |before.sessions|)
    ensures ThreadIn(after, pc)
  {
  }

  /** A goroutine that works on a session that does not exist has nothing to know. */
  lemma StrangerThread(before: Shared, after: Shared, pc: Pc)
    requires Grows(before.sessions, after.sessions) && ThreadPlaced(before, pc) && OnSession(pc) && pc.s >= |before.sessions|
    ensures ThreadIn(after, pc)
  {
  }

  lemma GrownKnown(c: Config, st: State, st': State)
    requires Inv(c, st) && Known(st) && Grows(st.sh.sessions, st'.sh.sessions) && PoolReady(st'.sh)
    requires forall v :: 0 <= v < |st'.threads| && (v >= |st.threads| || st'.threads[v] != st.threads[v]) ==> ThreadIn(st'.sh, st'.threads[v])
    requires forall s: nat :: s < |st.sh.sessions| ==>
      Num(st'.threads, Owns(s)) == Num(st.threads, Owns(s)) && Num(st'.threads, Reaps(s)) >= Num(st.threads, Reaps(s))
    requires |st'.sh.sessions| > |st.sh.sessions| ==> Num(st'.threads, Owns(|st.sh.sessions|)) >= 1
    ensures Known(st')
  {
    forall v | 0 <= v < |st'.threads| ensures ThreadIn(st'.sh, st'.threads[v]) {
      if v < |st.threads| && st'.threads[v] == st.threads[v] {
        var pc := st.threads[v];
        assert ThreadIn(st.sh, pc) && ThreadPlaced(st.sh, pc);
        if OnSession(pc) && pc.s >= |st.sh.sessions| {
          StrangerThread(st.sh, st'.sh, pc);
        } else {
          GrownThread(st.sh, st'.sh, pc);
        }
      }
    }
    forall s | 0 <= s < |st'.sh.sessions| ensures SessIn(st', s) {
      if s < |st.sh.sessions| { assert SessIn(st, s); }
    }
  }

  lemma FreeKnown(c: Config, st: State, t: nat, o: Outcome)
    requires Inv(c, st) && Known(st) && t < |st.threads| && !OnSession(st.threads[t]) && CanStep(st.sh, st.threads[t], false)
    requires o == StepFree(c, st.sh, st.threads[t])
    ensures Known(State(o.sh, With(st.threads[t := o.pc], o.spawn)))
  {
    var st' := State(o.sh, With(st.threads[t := o.pc], o.spawn));
    FreeGrows(c, st.sh, st.threads[t]);
    FreePool(c, st.sh, st.threads[t]);
    FreeParts(c, st.sh, st.threads[t]);
    forall s: nat ensures Num(st'.threads, Owns(s)) == Num(st.threads, Owns(s)) + Bit(Plays(o.pc, Owns(s)))
      ensures Num(st'.threads, Reaps(s)) == Num(st.threads, Reaps(s)) + Bit(Plays(o.pc, Reaps(s)))
    {
      NumWith(st.threads, t, o.pc, o.spawn, Owns(s));
      NumWith(st.threads, t, o.pc, o.spawn, Reaps(s));
    }
    GrownKnown(c, st, st');
  }

  lemma StrangerKnown(c: Config, st: State, t: nat)
    requires Inv(c, st) && Known(st) && t < |st.threads| && OnSession(st.threads[t]) && st.threads[t].s >= |st.sh.sessions|
    ensures Known(State(st.sh, st.threads[t := Ended]))
  {
    var st' := State(st.sh, st.threads[t := Ended]);
    forall s: nat | s < |st.sh.sessions| ensures Num(st'.threads, Owns(s)) == Num(st.threads, Owns(s))
      ensures Num(st'.threads, Reaps(s)) == Num(st.threads, Reaps(s))
    {
      NumWith(st.threads, t, Ended, None, Owns(s));
      NumWith(st.threads, t, Ended, None, Reaps(s));
    }
    GrownKnown(c, st, st');
  }

  lemma ReadyOnlyGrows(st: State, e: Event)
    requires !e.Run? && Enabled(st, e)
    ensures var (sh', spawn) := Arrive(st.sh, e);
      forall s: nat :: s < |st.sh.sessions| && st.sh.sessions[s].ready ==> s < |sh'.sessions| && sh'.sessions[s].ready
  {
  }

  lemma BeginningKnows(sh: Shared, pc: Pc)
    requires Beginning(pc)
    ensures ThreadIn(sh, pc) && forall s: nat :: !Plays(pc, Owns(s)) && !Plays(pc, Reaps(s))
  {
  }

  lemma ArriveKnown(c: Config, st: State, sh': Shared, spawn: Option<Pc>)
    requires Inv(c, st) && Known(st) && SameButReady(st.sh.sessions, sh'.sessions) && sh'.pool.ready == st.sh.pool.ready
    requires forall s: nat :: s < |st.sh.sessions| && st.sh.sessions[s].ready ==> sh'.sessions[s].ready
    requires spawn.Some? ==> Beginning(spawn.value)
    ensures Known(State(sh', With(st.threads, spawn)))
  {
    var st' := State(sh', With(st.threads, spawn));
    if spawn.Some? { BeginningKnows(sh', spawn.value); }
    forall s: nat | s < |st.sh.sessions| ensures Num(st'.threads, Owns(s)) == Num(st.threads, Owns(s))
      ensures Num(st'.threads, Reaps(s)) == Num(st.threads, Reaps(s))
    {
      if spawn.Some? {
        NumAppend(st.threads, spawn.value, Owns(s));
        NumAppend(st.threads, spawn.value, Reaps(s));
      }
    }
    GrownKnown(c, st, st');
  }

  lemma KnownFollows(c: Config, st: State, st': State)
    requires Inv(c, st) && Known(st) && Follows(c, st, st')
    ensures Known(st')
  {
    var e :| Enabled(st, e) && st' == Apply(c, st, e);
    if !e.Run? {
      ArriveShape(st, e);
      ReadyOnlyGrows(st, e);
      ArriveKnown(c, st, Arrive(st.sh, e).0, Arrive(st.sh, e).1);
    } else if !OnSession(st.threads[e.t]) {
      FreeKnown(c, st, e.t, StepFree(c, st.sh, st.threads[e.t]));
    } else if st.threads[e.t].s >= |st.sh.sessions| {
      StrangerKnown(c, st, e.t);
    } else {
      TakenKnown(c, st, e.t, e.ok, LocalAt(c, st, e.t, e.ok));
    }
  }

  lemma {:induction false} RunKnown(c: Config, trace: seq<State>, i: nat)
    requires IsRun(c, trace) && i < |trace|
    ensures Known(trace[i])
  {
    if i > 0 {
      RunKnown(c, trace, i - 1);
      RunKeeps(c, trace, i - 1);
      assert FollowsAt(c, trace, i);
      KnownFollows(c, trace[i - 1], trace[i]);
    }
  }

  // --- what it means ---

  /**
   In every run a session that reached the Manager had all six commands of its Create in order and nothing of it was
   undone; one whose Create failed had some of the first five in order, and once nobody works on it what they took was
   given back in reverse: the directory if it was made, the TAP device if it was made, and the address.
   */
  lemma BuiltInOrder(c: Config, trace: seq<State>, i: nat, s: Sid)
    requires IsRun(c, trace) && i < |trace| && s < |trace[i].sh.sessions|
    ensures var st := trace[i]; var x := st.sh.sessions[s];
      && (!x.m.Making? ==> x.made == [Tap, Rand, Dir, Token, Rootfs, Launch] && x.undone == [])
      && (x.m.Making? && Num(st.threads, Owns(s)) == 0 ==>
            && x.made < [Tap, Rand, Dir, Token, Rootfs, Launch]
            && x.undone == (if Dir in x.made then [UndoDir] else []) + (if Tap in x.made then [UndoTap] else []) + [UndoIp])
  {
    RunKnown(c, trace, i);
    assert SessIn(trace[i], s);
    var x := trace[i].sh.sessions[s];
    if x.m.Making? && Num(trace[i].threads, Owns(s)) == 0 { PrefixHas(|x.made|); }
  }

  lemma PrefixHas(n: nat)
    requires n < 6
    ensures Tap in COMMANDS[..n] <==> n >= 1
    ensures Dir in COMMANDS[..n] <==> n >= 3
    ensures COMMANDS[..n] < COMMANDS
  {
    var some := COMMANDS[..n];
    assert n >= 1 ==> some[0] == Tap;
    assert n >= 3 ==> some[2] == Dir;
  }

  /** In every run a session in the Host, in the pool or dropped had its guest's handshake before it was placed there. */
  lemma PlacedWereReady(c: Config, trace: seq<State>, i: nat, s: Sid)
    requires IsRun(c, trace) && i < |trace| && s < |trace[i].sh.sessions|
    requires s in HostMap(trace[i]) || s in PoolSet(trace[i]) || s in DroppedSet(trace[i])
    ensures trace[i].sh.sessions[s].ready
  {
    RunKnown(c, trace, i);
    assert SessIn(trace[i], s);
  }

  /** In every run some goroutine waits for the process of every VM in the Manager, or is about to, or is about to destroy it. */
  lemma EveryVmIsWaitedFor(c: Config, trace: seq<State>, i: nat, s: Sid) returns (t: nat)
    requires IsRun(c, trace) && i < |trace| && s in MgrMap(trace[i])
    ensures t < |trace[i].threads|
    ensures var pc := trace[i].threads[t]; (pc.Spawn? && pc.s == s) || pc == Exiter(s) || pc == Kill(s, Exit)
  {
    RunKnown(c, trace, i);
    assert SessIn(trace[i], s);
    t := NumWitness(trace[i].threads, Reaps(s));
  }

  // --- deletes ---

  lemma OtherThreads(c: Config, st: State, e: Event, t: nat)
    requires Enabled(st, e) && t < |st.threads| && !(e.Run? && e.t == t)
    ensures t < |Apply(c, st, e).threads| && Apply(c, st, e).threads[t] == st.threads[t]
  {
  }

  /** The goroutine has still to begin, or the session has left the map that it takes sessions out of. */
  predicate Removing(x: Sess, pc: Pc, begin: Pc) {
    pc == begin || if begin.HDestroy? then x.h.Left? else x.m.Gone?
  }

  /** A call of Host.Destroy, or of Manager.Destroy by Shutdown, for session `s`. */
  predicate IsRemoval(begin: Pc, s: Sid) {
    begin == HDestroy(s) || begin == Kill(s, Direct)
  }

  lemma RemovalLocal(x: Sess, begin: Pc, s: Sid, ok: bool, hook: Option<Hook>, full: bool)
    requires IsRemoval(begin, s) && (begin.HDestroy? ==> !x.h.Outside?) && (begin.Kill? ==> !x.m.Making?)
    ensures var y := LocalStep(x, begin, ok, hook, full).x; if begin.HDestroy? then y.h.Left? else y.m.Gone?
  {
  }

  lemma RemovalStep(c: Config, st: State, st': State, t: nat, begin: Pc, s: Sid)
    requires Follows(c, st, st') && t < |st.threads| && s < |st.sh.sessions| && st.threads[t] == begin && IsRemoval(begin, s)
    requires var x := st.sh.sessions[s]; (begin.HDestroy? ==> !x.h.Outside?) && (begin.Kill? ==> !x.m.Making?)
    ensures t < |st'.threads| && (st'.threads[t] == begin || (s < |st'.sh.sessions| && Removing(st'.sh.sessions[s], Ended, begin)))
  {
    var e :| Enabled(st, e) && st' == Apply(c, st, e);
    if e.Run? && e.t == t {
      RemovalLocal(st.sh.sessions[s], begin, s, e.ok, st.sh.hook, HostLen(st.sh.sessions) >= MaxLive(c));
      RunHere(c, st, t, e.ok);
    } else {
      OtherThreads(c, st, e, t);
    }
  }

  lemma ThreadsGrow(c: Config, st: State, st': State)
    requires Follows(c, st, st')
    ensures |st.threads| <= |st'.threads|
  {
  }

  lemma {:induction false} RemovalRuns(c: Config, trace: seq<State>, i: nat, j: nat, t: nat, begin: Pc, s: Sid)
    requires IsRun(c, trace) && i <= j < |trace| && t < |trace[i].threads| && trace[i].threads[t] == begin && IsRemoval(begin, s)
    requires s < |trace[i].sh.sessions|
    requires if begin.HDestroy? then trace[i].sh.sessions[s].h.Inside? else trace[i].sh.sessions[s].m.Live?
    ensures t < |trace[j].threads| && s < |trace[j].sh.sessions| && Removing(trace[j].sh.sessions[s], trace[j].threads[t], begin)
    decreases j
  {
    if i < j {
      RemovalRuns(c, trace, i, j - 1, t, begin, s);
      NeverReturns(c, trace, i, j - 1, s);
      RunOnward(c, trace, j, s);
      assert FollowsAt(c, trace, j);
      ThreadsGrow(c, trace[j - 1], trace[j]);
      if trace[j - 1].threads[t] == begin { RemovalStep(c, trace[j - 1], trace[j], t, begin, s); }
    }
  }

  /** State i + 1 follows from state i by the call `e`, whose goroutine is then number `t`. */
  ghost predicate Called(c: Config, trace: seq<State>, i: nat, e: Event, t: nat) {
    i + 1 < |trace| && Enabled(trace[i], e) && trace[i + 1] == Apply(c, trace[i], e) && t == |trace[i].threads|
  }

  /**
   A call of Host.Destroy for a session in the Host, once it has ended, has taken it out for good; the Manager has it
   only while somebody else is about to destroy it.
   */
  lemma DeleteRemoves(c: Config, trace: seq<State>, i: nat, j: nat, t: nat, s: Sid)
    requires IsRun(c, trace) && i < j < |trace| && Called(c, trace, i, CallDestroy(s), t) && s in HostMap(trace[i])
    requires t < |trace[j].threads| ==> trace[j].threads[t] == Ended
    ensures s !in HostMap(trace[j]) && (s in MgrMap(trace[j]) ==> Num(trace[j].threads, Dooms(s)) >= 1)
  {
    RemovalRuns(c, trace, i + 1, j, t, HDestroy(s), s);
    RunKeeps(c, trace, j);
    assert SessionOk(c, trace[j], s);
  }

  /** A call of Manager.Destroy for a session in the Manager, once it has ended, has taken it out for good. */
  lemma ShutdownRemoves(c: Config, trace: seq<State>, i: nat, j: nat, t: nat, s: Sid)
    requires IsRun(c, trace) && i < j < |trace| && Called(c, trace, i, CallShutdown(s), t) && s in MgrMap(trace[i])
    requires t < |trace[j].threads| ==> trace[j].threads[t] == Ended
    ensures s !in MgrMap(trace[j])
  {
    RemovalRuns(c, trace, i + 1, j, t, Kill(s, Direct), s);
  }
}
