/** From one session and one goroutine to the whole system: the invariant holds on every run. */
module LifecycleSafety {
  import opened Common
  import opened Lifecycle
  import opened LifecycleCounts
  import opened LifecycleInvariant
  import Netalloc
  import WarmPool

  // --- counts over all goroutines ---

  lemma NumWith(threads: seq<Pc>, t: nat, pc': Pc, spawn: Option<Pc>, r: Role)
    requires t < |threads|
    ensures Num(threads, r) >= Bit(Plays(threads[t], r))
    ensures Num(With(threads[t := pc'], spawn), r) == Num(threads, r) + Change(threads[t], pc', spawn, r)
  {
    NumUpdate(threads, t, pc', r);
    if spawn.Some? { NumAppend(threads[t := pc'], spawn.value, r); }
    if Plays(threads[t], r) { NumOne(threads, t, r); }
  }

  lemma PartsWith(threads: seq<Pc>, t: nat, pc': Pc, spawn: Option<Pc>, s: Sid)
    requires t < |threads|
    ensures Includes(PartsOf(threads, s), threads[t], s)
    ensures PartsOf(With(threads[t := pc'], spawn), s) == Moved(PartsOf(threads, s), threads[t], pc', spawn, s)
  {
    NumWith(threads, t, pc', spawn, Holds(s));
    NumWith(threads, t, pc', spawn, Watches(s));
    NumWith(threads, t, pc', spawn, Tears(s));
    NumWith(threads, t, pc', spawn, Fires(s));
    NumWith(threads, t, pc', spawn, Owns(s));
    NumWith(threads, t, pc', spawn, Dooms(s));
  }

  /** A goroutine that plays no part for `s`: anywhere but on `s`, or on its way to look it up. */
  predicate Idle(pc: Pc, s: Sid) {
    OnSession(pc) && pc.s == s ==> pc.HDestroy? || pc.Exiter? || (pc.Kill? && (pc.c.Direct? || pc.c.Exit?))
  }

  lemma PartsSame(threads: seq<Pc>, t: nat, pc': Pc, spawn: Option<Pc>, s: Sid)
    requires t < |threads| && Idle(threads[t], s) && Idle(pc', s) && (spawn.Some? ==> Idle(spawn.value, s))
    ensures PartsOf(With(threads[t := pc'], spawn), s) == PartsOf(threads, s)
  {
    PartsWith(threads, t, pc', spawn, s);
  }

  lemma PartsStart(threads: seq<Pc>, spawn: Option<Pc>, s: Sid)
    requires spawn.Some? ==> Idle(spawn.value, s)
    ensures PartsOf(With(threads, spawn), s) == PartsOf(threads, s)
  {
    if spawn.Some? {
      NumAppend(threads, spawn.value, Holds(s));
      NumAppend(threads, spawn.value, Watches(s));
      NumAppend(threads, spawn.value, Tears(s));
      NumAppend(threads, spawn.value, Fires(s));
      NumAppend(threads, spawn.value, Owns(s));
      NumAppend(threads, spawn.value, Dooms(s));
    }
  }

  lemma PartsNone(threads: seq<Pc>, s: Sid)
    requires forall t :: 0 <= t < |threads| ==> Idle(threads[t], s)
    ensures PartsOf(threads, s) == Parts(0, 0, 0, 0, 0, 0)
  {
    NumNone(threads, Holds(s));
    NumNone(threads, Watches(s));
    NumNone(threads, Tears(s));
    NumNone(threads, Fires(s));
    NumNone(threads, Owns(s));
    NumNone(threads, Dooms(s));
  }

  // --- a goroutine's step on its session, seen by the whole state ---

  /** The state after goroutine `t` took the local step `l` on its session. */
  function Taken(st: State, t: nat, l: Local): State
    requires t < |st.threads| && OnSession(st.threads[t]) && st.threads[t].s < |st.sh.sessions|
  {
    var s := st.threads[t].s;
    State(Perform(st.sh.(sessions := st.sh.sessions[s := l.x]), s, l.fx), With(st.threads[t := l.pc], l.spawn))
  }

  /** What a step's effect does to the pool and to the allocator, seen by session `u`. */
  lemma PerformView(c: Config, sh: Shared, s: Sid, fx: Effect, u: Sid)
    requires s < |sh.sessions| && u < |sh.sessions| && sh.sessions[s].lease == Netalloc.Nth(c.block, s)
    ensures var sh' := Perform(sh, s, fx);
      && sh'.sessions == sh.sessions
      && multiset(sh'.pool.ready)[u] == multiset(sh.pool.ready)[u] + Bit(fx.PoolPush? && s == u)
      && (c.block.network + 2 + u in sh'.net.inUse
          <==> c.block.network + 2 + u in sh.net.inUse && !(fx.FreeAddress? && s == u))
  {
  }

  ghost predicate Together(x: Sess, pc: Pc, other: Pc)
    requires OnSession(pc)
  {
    && OnSession(other) && other.s == pc.s && ThreadOk(x, other)
    && !(Plays(pc, Tears(pc.s)) && Plays(other, Tears(pc.s)))
    && !(Plays(pc, Owns(pc.s)) && Plays(other, Owns(pc.s)))
  }

  /** All that the system needs to know of a local step. */
  ghost predicate GoodLocal(x: Sess, pc: Pc, l: Local, n: Parts, p: nat, used: bool)
    requires OnSession(pc)
  {
    && l.x.lease == x.lease
    && LeftWell(pc, l)
    && (forall other :: Together(x, pc, other) ==> ThreadOk(l.x, other))
    && Includes(n, pc, pc.s)
    && SessOk(l.x, Moved(n, pc, l.pc, l.spawn, pc.s), p + Bit(l.fx.PoolPush?), used && !l.fx.FreeAddress?)
    && Change(pc, l.pc, l.spawn, Builds) + Bit(l.fx.PoolPush?) == 0
    && Change(pc, l.pc, l.spawn, Pokes) + Bit(l.fx.SendToken?) == 0
  }

  ghost predicate GoodStep(c: Config, st: State, t: nat, l: Local)
    requires t < |st.threads| && OnSession(st.threads[t]) && st.threads[t].s < |st.sh.sessions|
  {
    var s := st.threads[t].s;
    GoodLocal(st.sh.sessions[s], st.threads[t], l, PartsOf(st.threads, s), multiset(st.sh.pool.ready)[s],
              c.block.network + 2 + s in st.sh.net.inUse)
  }

  lemma TakenSame(c: Config, st: State, t: nat, l: Local)
    requires t < |st.threads| && OnSession(st.threads[t]) && st.threads[t].s < |st.sh.sessions|
    requires st.sh.sessions[st.threads[t].s].lease == l.x.lease == Netalloc.Nth(c.block, st.threads[t].s)
    requires Includes(PartsOf(st.threads, st.threads[t].s), st.threads[t], st.threads[t].s)
    requires SessOk(l.x, Moved(PartsOf(st.threads, st.threads[t].s), st.threads[t], l.pc, l.spawn, st.threads[t].s),
                    multiset(st.sh.pool.ready)[st.threads[t].s] + Bit(l.fx.PoolPush?),
                    c.block.network + 2 + st.threads[t].s in st.sh.net.inUse && !l.fx.FreeAddress?)
    ensures SessionOk(c, Taken(st, t, l), st.threads[t].s)
  {
    var s := st.threads[t].s;
    PerformView(c, st.sh.(sessions := st.sh.sessions[s := l.x]), s, l.fx, s);
    PartsWith(st.threads, t, l.pc, l.spawn, s);
  }

  lemma TakenOther(c: Config, st: State, t: nat, l: Local, u: Sid)
    requires t < |st.threads| && OnSession(st.threads[t]) && st.threads[t].s < |st.sh.sessions|
    requires SessionOk(c, st, st.threads[t].s) && GoodStep(c, st, t, l)
    requires u < |st.sh.sessions| && u != st.threads[t].s && SessionOk(c, st, u)
    ensures SessionOk(c, Taken(st, t, l), u)
  {
    var s := st.threads[t].s;
    PerformView(c, st.sh.(sessions := st.sh.sessions[s := l.x]), s, l.fx, u);
    PartsSame(st.threads, t, l.pc, l.spawn, u);
  }

  lemma ApartBy(threads: seq<Pc>, t: nat, v: nat, r: Role)
    requires t < |threads| && v < |threads| && t != v && Num(threads, r) <= 1
    ensures !(Plays(threads[t], r) && Plays(threads[v], r))
  {
    if Plays(threads[t], r) && Plays(threads[v], r) {
      NumPair(threads, if t < v then t else v, if t < v then v else t, r);
    }
  }

  lemma TakenThread(c: Config, st: State, t: nat, l: Local, v: nat)
    requires t < |st.threads| && OnSession(st.threads[t]) && st.threads[t].s < |st.sh.sessions|
    requires SessionOk(c, st, st.threads[t].s) && GoodStep(c, st, t, l)
    requires v < |st.threads| && v != t && ThreadPlaced(st.sh, st.threads[v])
    ensures ThreadPlaced(Taken(st, t, l).sh, st.threads[v])
  {
    var pc, other := st.threads[t], st.threads[v];
    if OnSession(other) && other.s == pc.s {
      ApartBy(st.threads, t, v, Tears(pc.s));
      ApartBy(st.threads, t, v, Owns(pc.s));
      assert Together(st.sh.sessions[pc.s], pc, other);
    }
  }

  lemma PoolEffect(pool: WarmPool.State, builds: nat, pokes: nat, n: nat, fx: Effect, s: Sid)
    requires PoolOk(pool, builds, pokes, n) && s < n
    requires builds >= Bit(fx.PoolPush?) && pokes >= Bit(fx.SendToken?)
    ensures fx.PoolPush? ==> PoolOk(WarmPool.BuildDone(pool, s), builds - 1, pokes, n)
    ensures fx.SendToken? ==> PoolOk(WarmPool.Poke(pool), builds, pokes - 1, n)
  {
    if fx.PoolPush? { WarmPool.BuildBalanced(pool, s); }
    if fx.SendToken? { WarmPool.SendBalanced(pool); }
  }

  lemma TakenPool(st: State, t: nat, l: Local)
    requires t < |st.threads| && OnSession(st.threads[t]) && st.threads[t].s < |st.sh.sessions|
    requires PoolCounted(st)
    requires Change(st.threads[t], l.pc, l.spawn, Builds) + Bit(l.fx.PoolPush?) == 0
    requires Change(st.threads[t], l.pc, l.spawn, Pokes) + Bit(l.fx.SendToken?) == 0
    ensures PoolCounted(Taken(st, t, l))
  {
    NumWith(st.threads, t, l.pc, l.spawn, Builds);
    NumWith(st.threads, t, l.pc, l.spawn, Pokes);
    PoolEffect(st.sh.pool, Num(st.threads, Builds), Num(st.threads, Pokes), |st.sh.sessions|, l.fx, st.threads[t].s);
  }

  lemma TakenSessions(c: Config, st: State, t: nat, l: Local)
    requires SessionsOk(c, st)
    requires t < |st.threads| && OnSession(st.threads[t]) && st.threads[t].s < |st.sh.sessions|
    requires GoodStep(c, st, t, l)
    ensures SessionsOk(c, Taken(st, t, l))
  {
    var s := st.threads[t].s;
    assert SessionOk(c, st, s);
    forall u | 0 <= u < |Taken(st, t, l).sh.sessions| ensures SessionOk(c, Taken(st, t, l), u) {
      if u == s { TakenSame(c, st, t, l); } else { TakenOther(c, st, t, l, u); }
    }
  }

  lemma TakenThreads(c: Config, st: State, t: nat, l: Local)
    requires SessionsOk(c, st) && ThreadsOk(st)
    requires t < |st.threads| && OnSession(st.threads[t]) && st.threads[t].s < |st.sh.sessions|
    requires GoodStep(c, st, t, l)
    ensures ThreadsOk(Taken(st, t, l))
  {
    var st' := Taken(st, t, l);
    assert SessionOk(c, st, st.threads[t].s);
    forall v | 0 <= v < |st'.threads| ensures ThreadPlaced(st'.sh, st'.threads[v]) {
      if v < |st.threads| && v != t { TakenThread(c, st, t, l, v); }
    }
  }

  lemma TakenNet(c: Config, st: State, t: nat, l: Local)
    requires NetOk(c, st.sh)
    requires t < |st.threads| && OnSession(st.threads[t]) && st.threads[t].s < |st.sh.sessions|
    ensures NetOk(c, Taken(st, t, l).sh)
  {
  }

  lemma TakenKeeps(c: Config, st: State, t: nat, l: Local)
    requires Inv(c, st) && t < |st.threads| && OnSession(st.threads[t]) && st.threads[t].s < |st.sh.sessions|
    requires GoodStep(c, st, t, l)
    ensures Inv(c, Taken(st, t, l))
  {
    TakenSessions(c, st, t, l);
    TakenThreads(c, st, t, l);
    TakenPool(st, t, l);
    TakenNet(c, st, t, l);
  }

  lemma StepBuilds(x: Sess, pc: Pc, ok: bool, hook: Option<Hook>, full: bool)
    requires OnSession(pc) && CanLocal(x, pc, ok)
    ensures var l := LocalStep(x, pc, ok, hook, full);
      Change(pc, l.pc, l.spawn, Builds) + Bit(l.fx.PoolPush?) == 0
  {
  }

  lemma StepPokes(x: Sess, pc: Pc, ok: bool, hook: Option<Hook>, full: bool)
    requires OnSession(pc) && CanLocal(x, pc, ok)
    ensures var l := LocalStep(x, pc, ok, hook, full);
      Change(pc, l.pc, l.spawn, Pokes) + Bit(l.fx.SendToken?) == 0
  {
  }

  lemma OthersGood(x: Sess, pc: Pc, ok: bool, hook: Option<Hook>, full: bool, n: nat, p: nat)
    requires OnSession(pc) && CanLocal(x, pc, ok) && ThreadOk(x, pc)
    requires HandsOk(x, n, p) && n >= Bit(Plays(pc, Holds(pc.s)))
    ensures forall other :: Together(x, pc, other) ==> ThreadOk(LocalStep(x, pc, ok, hook, full).x, other)
  {
    forall other | Together(x, pc, other) ensures ThreadOk(LocalStep(x, pc, ok, hook, full).x, other) {
      StepOthers(x, pc, ok, hook, full, n, p, other);
    }
  }

  lemma LocalIsGood(x: Sess, pc: Pc, ok: bool, hook: Option<Hook>, full: bool, n: Parts, p: nat, used: bool, l: Local)
    requires OnSession(pc) && CanLocal(x, pc, ok) && ThreadOk(x, pc) && l == LocalStep(x, pc, ok, hook, full)
    requires SessOk(x, n, p, used) && Includes(n, pc, pc.s)
    ensures GoodLocal(x, pc, l, n, p, used)
  {
    StepThread(x, pc, ok, hook, full, n.tears);
    StepLease(x, pc, ok, hook, full);
    StepBuilds(x, pc, ok, hook, full);
    StepPokes(x, pc, ok, hook, full);
    StepSess(x, pc, ok, hook, full, n, p, used);
    OthersGood(x, pc, ok, hook, full, n.holds, p);
  }

  function LocalAt(c: Config, st: State, t: nat, ok: bool): Local
    requires t < |st.threads| && OnSession(st.threads[t]) && st.threads[t].s < |st.sh.sessions|
    requires CanLocal(st.sh.sessions[st.threads[t].s], st.threads[t], ok)
  {
    LocalStep(st.sh.sessions[st.threads[t].s], st.threads[t], ok, st.sh.hook, HostLen(st.sh.sessions) >= MaxLive(c))
  }

  lemma PartsInclude(threads: seq<Pc>, t: nat)
    requires t < |threads| && OnSession(threads[t])
    ensures Includes(PartsOf(threads, threads[t].s), threads[t], threads[t].s)
  {
    PartsWith(threads, t, Ended, None, threads[t].s);
  }

  lemma GoodAt(c: Config, st: State, t: nat, ok: bool, l: Local)
    requires t < |st.threads| && OnSession(st.threads[t]) && st.threads[t].s < |st.sh.sessions|
    requires SessionOk(c, st, st.threads[t].s) && ThreadPlaced(st.sh, st.threads[t])
    requires CanLocal(st.sh.sessions[st.threads[t].s], st.threads[t], ok)
    requires l == LocalAt(c, st, t, ok)
    ensures GoodStep(c, st, t, l)
  {
    var s := st.threads[t].s;
    PartsInclude(st.threads, t);
    LocalIsGood(st.sh.sessions[s], st.threads[t], ok, st.sh.hook, HostLen(st.sh.sessions) >= MaxLive(c),
                PartsOf(st.threads, s), multiset(st.sh.pool.ready)[s], c.block.network + 2 + s in st.sh.net.inUse, l);
  }

  lemma SessionStepKeeps(c: Config, st: State, t: nat, ok: bool)
    requires Inv(c, st) && t < |st.threads| && OnSession(st.threads[t]) && st.threads[t].s < |st.sh.sessions|
    requires CanLocal(st.sh.sessions[st.threads[t].s], st.threads[t], ok)
    ensures Inv(c, Taken(st, t, LocalAt(c, st, t, ok)))
  {
    assert ThreadPlaced(st.sh, st.threads[t]);
    assert SessionOk(c, st, st.threads[t].s);
    GoodAt(c, st, t, ok, LocalAt(c, st, t, ok));
    TakenKeeps(c, st, t, LocalAt(c, st, t, ok));
  }

  // --- steps on no session, and events ---

  /** A goroutine that plays no part for any session moves on without touching the shared state. */
  lemma QuietKeeps(c: Config, st: State, t: nat, pc': Pc)
    requires Inv(c, st) && t < |st.threads| && !OnSession(pc')
    requires OnSession(st.threads[t]) ==> st.threads[t].s >= |st.sh.sessions|
    requires Change(st.threads[t], pc', None, Builds) == 0 && Change(st.threads[t], pc', None, Pokes) == 0
    ensures Inv(c, State(st.sh, st.threads[t := pc']))
  {
    FreeSessions(c, st, t, st.sh, pc');
    NumWith(st.threads, t, pc', None, Builds);
    NumWith(st.threads, t, pc', None, Pokes);
  }

  lemma FreeSessions(c: Config, st: State, t: nat, sh': Shared, pc': Pc)
    requires SessionsOk(c, st) && ThreadsOk(st) && t < |st.threads| && !OnSession(pc')
    requires OnSession(st.threads[t]) ==> st.threads[t].s >= |st.sh.sessions|
    requires sh'.sessions == st.sh.sessions && sh'.net == st.sh.net && sh'.pool.ready == st.sh.pool.ready
    ensures SessionsOk(c, State(sh', st.threads[t := pc'])) && ThreadsOk(State(sh', st.threads[t := pc']))
  {
    var st' := State(sh', st.threads[t := pc']);
    forall u | 0 <= u < |sh'.sessions| ensures SessionOk(c, st', u) {
      assert SessionOk(c, st, u);
      PartsSame(st.threads, t, pc', None, u);
    }
    forall v | 0 <= v < |st'.threads| ensures ThreadPlaced(sh', st'.threads[v]) {
      if v != t { assert ThreadPlaced(st.sh, st.threads[v]); }
    }
  }

  lemma FailedKeeps(c: Config, st: State, t: nat)
    requires Inv(c, st) && t < |st.threads| && st.threads[t] == Failed(ForPool)
    ensures Inv(c, State(st.sh.(pool := WarmPool.BuildFailed(st.sh.pool)), st.threads[t := Ended]))
  {
    FreeSessions(c, st, t, st.sh.(pool := WarmPool.BuildFailed(st.sh.pool)), Ended);
    NumWith(st.threads, t, Ended, None, Builds);
    NumWith(st.threads, t, Ended, None, Pokes);
    WarmPool.BuildBalanced(st.sh.pool, 0);
  }

  lemma PokeKeeps(c: Config, st: State, t: nat)
    requires Inv(c, st) && t < |st.threads| && st.threads[t] == Poke
    ensures Inv(c, State(st.sh.(pool := WarmPool.Poke(st.sh.pool)), st.threads[t := Check]))
  {
    FreeSessions(c, st, t, st.sh.(pool := WarmPool.Poke(st.sh.pool)), Check);
    NumWith(st.threads, t, Check, None, Builds);
    NumWith(st.threads, t, Check, None, Pokes);
    WarmPool.SendBalanced(st.sh.pool);
  }

  lemma PopSess(x: Sess, n: Parts, p: nat, used: bool)
    requires SessOk(x, n, p, used) && p >= 1
    ensures SessOk(x, n.(holds := n.holds + 1), p - 1, used)
  {
  }

  lemma PopParts(threads: seq<Pc>, t: nat, s: Sid, u: Sid)
    requires t < |threads| && threads[t] == Warm
    ensures var n := PartsOf(threads, u);
      PartsOf(threads[t := WarmPoke(s)], u) == n.(holds := n.holds + Bit(s == u))
  {
    PartsWith(threads, t, WarmPoke(s), None, u);
  }

  lemma PopSession(c: Config, st: State, t: nat, u: Sid)
    requires t < |st.threads| && st.threads[t] == Warm && st.sh.pool.ready != []
    requires u < |st.sh.sessions| && SessionOk(c, st, u)
    ensures SessionOk(c, Popped(st, t), u)
  {
    var s, ready := st.sh.pool.ready[0], st.sh.pool.ready;
    assert ready == [s] + ready[1..];
    PopParts(st.threads, t, s, u);
    if s == u {
      PopSess(st.sh.sessions[u], PartsOf(st.threads, u), multiset(ready)[u], c.block.network + 2 + u in st.sh.net.inUse);
    }
  }

  function Popped(st: State, t: nat): State
    requires t < |st.threads| && st.sh.pool.ready != []
  {
    State(st.sh.(pool := WarmPool.Pop(st.sh.pool).0), st.threads[t := WarmPoke(st.sh.pool.ready[0])])
  }

  lemma PopPool(st: State, t: nat)
    requires PoolCounted(st) && t < |st.threads| && st.threads[t] == Warm && st.sh.pool.ready != []
    ensures PoolCounted(Popped(st, t))
  {
    NumWith(st.threads, t, WarmPoke(st.sh.pool.ready[0]), None, Builds);
    NumWith(st.threads, t, WarmPoke(st.sh.pool.ready[0]), None, Pokes);
    WarmPool.PopBalanced(st.sh.pool);
  }

  lemma PopSessions(c: Config, st: State, t: nat)
    requires SessionsOk(c, st) && t < |st.threads| && st.threads[t] == Warm && st.sh.pool.ready != []
    ensures SessionsOk(c, Popped(st, t))
  {
    forall u | 0 <= u < |st.sh.sessions| ensures SessionOk(c, Popped(st, t), u) {
      PopSession(c, st, t, u);
    }
  }

  /** AcquireWarm's pop hands the session from the pool to the caller. */
  lemma PopKeeps(c: Config, st: State, t: nat)
    requires Inv(c, st) && t < |st.threads| && st.threads[t] == Warm && st.sh.pool.ready != []
    ensures Inv(c, Popped(st, t))
  {
    assert SessionOk(c, st, st.sh.pool.ready[0]);
    PopSessions(c, st, t);
    PopThreads(c, st, t, Popped(st, t));
    PopPool(st, t);
  }

  lemma PopThreads(c: Config, st: State, t: nat, st': State)
    requires ThreadsOk(st) && t < |st.threads| && st.sh.pool.ready != [] && st.sh.pool.ready[0] < |st.sh.sessions|
    requires SessionOk(c, st, st.sh.pool.ready[0])
    requires st'.sh.sessions == st.sh.sessions && st'.threads == st.threads[t := WarmPoke(st.sh.pool.ready[0])]
    ensures ThreadsOk(st')
  {
    forall v | 0 <= v < |st'.threads| ensures ThreadPlaced(st'.sh, st'.threads[v]) {
      if v != t { assert ThreadPlaced(st.sh, st.threads[v]); }
    }
  }

  lemma MissKeeps(c: Config, st: State, t: nat)
    requires Inv(c, st) && t < |st.threads| && st.threads[t] == Warm && st.sh.pool.ready == []
    ensures Inv(c, State(st.sh.(pool := WarmPool.Pop(st.sh.pool).0), st.threads[t := Poke]))
  {
    FreeSessions(c, st, t, st.sh.(pool := WarmPool.Pop(st.sh.pool).0), Poke);
    NumWith(st.threads, t, Poke, None, Builds);
    NumWith(st.threads, t, Poke, None, Pokes);
    WarmPool.PopBalanced(st.sh.pool);
  }

  // --- a new address and a new session ---

  function Fresh(lease: Netalloc.Lease): Sess {
    Sess(lease, Making, Outside, false, false, 0, [], [], false, [], [])
  }

  lemma NewParts(threads: seq<Pc>, t: nat, o: For, s: Sid, u: Sid)
    requires t < |threads| && threads[t] == MAlloc(o)
    ensures var n := PartsOf(threads, u);
      PartsOf(threads[t := Build(s, o, Tap)], u) == n.(holds := n.holds + Bit(s == u), owns := n.owns + Bit(s == u))
  {
    PartsWith(threads, t, Build(s, o, Tap), None, u);
  }

  lemma NewSession(c: Config, st: State, t: nat, o: For, st': State)
    requires ThreadsOk(st) && t < |st.threads| && st.threads[t] == MAlloc(o)
    requires forall i :: 0 <= i < |st.sh.pool.ready| ==> st.sh.pool.ready[i] < |st.sh.sessions|
    requires var s := |st.sh.sessions|; var lease := Netalloc.Nth(c.block, s);
      && st'.sh.sessions == st.sh.sessions + [Fresh(lease)] && st'.sh.pool == st.sh.pool
      && lease.ip in st'.sh.net.inUse && st'.threads == st.threads[t := Build(s, o, Tap)]
    ensures SessionOk(c, st', |st.sh.sessions|)
  {
    var s := |st.sh.sessions|;
    forall v | 0 <= v < |st.threads| ensures Idle(st.threads[v], s) {
      assert ThreadPlaced(st.sh, st.threads[v]);
    }
    PartsNone(st.threads, s);
    NewParts(st.threads, t, o, s, s);
  }

  lemma OldSession(c: Config, st: State, t: nat, o: For, st': State, u: Sid)
    requires t < |st.threads| && st.threads[t] == MAlloc(o)
    requires u < |st.sh.sessions| && SessionOk(c, st, u)
    requires var s := |st.sh.sessions|; var lease := Netalloc.Nth(c.block, s);
      && st'.sh.sessions == st.sh.sessions + [Fresh(lease)] && st'.sh.pool == st.sh.pool
      && st'.sh.net.inUse == st.sh.net.inUse + {lease.ip} && st'.threads == st.threads[t := Build(s, o, Tap)]
    ensures SessionOk(c, st', u)
  {
    NewParts(st.threads, t, o, |st.sh.sessions|, u);
  }

  lemma AllocThreads(st: State, t: nat, o: For, st': State, x: Sess)
    requires ThreadsOk(st) && t < |st.threads| && x.m.Making?
    requires st'.sh.sessions == st.sh.sessions + [x] && st'.threads == st.threads[t := Build(|st.sh.sessions|, o, Tap)]
    ensures ThreadsOk(st')
  {
    forall v | 0 <= v < |st'.threads| ensures ThreadPlaced(st'.sh, st'.threads[v]) {
      if v != t { assert ThreadPlaced(st.sh, st.threads[v]); }
    }
  }

  lemma AllocSessions(c: Config, st: State, t: nat, o: For, st': State)
    requires SessionsOk(c, st) && ThreadsOk(st) && t < |st.threads| && st.threads[t] == MAlloc(o)
    requires forall i :: 0 <= i < |st.sh.pool.ready| ==> st.sh.pool.ready[i] < |st.sh.sessions|
    requires var s := |st.sh.sessions|; var lease := Netalloc.Nth(c.block, s);
      && st'.sh.sessions == st.sh.sessions + [Fresh(lease)] && st'.sh.pool == st.sh.pool
      && st'.sh.net.inUse == st.sh.net.inUse + {lease.ip} && st'.threads == st.threads[t := Build(s, o, Tap)]
    ensures SessionsOk(c, st')
  {
    NewSession(c, st, t, o, st');
    forall u | 0 <= u < |st'.sh.sessions| ensures SessionOk(c, st', u) {
      if u < |st.sh.sessions| { OldSession(c, st, t, o, st', u); }
    }
  }

  lemma AllocPool(st: State, t: nat, o: For, pc': Pc, st': State)
    requires PoolCounted(st) && t < |st.threads| && st.threads[t] == MAlloc(o)
    requires st'.sh.pool == st.sh.pool && |st'.sh.sessions| >= |st.sh.sessions|
    requires (pc' == Failed(o) || (pc'.Build? && pc'.o == o)) && st'.threads == st.threads[t := pc']
    ensures PoolCounted(st')
  {
    NumWith(st.threads, t, pc', None, Builds);
    NumWith(st.threads, t, pc', None, Pokes);
  }

  lemma AllocKeeps(c: Config, st: State, t: nat, o: For)
    requires Inv(c, st) && t < |st.threads| && st.threads[t] == MAlloc(o)
    ensures var r := StepAlloc(st.sh, o); Inv(c, State(r.sh, st.threads[t := r.pc]))
  {
    Netalloc.AllocStep(st.sh.net);
    var r := StepAlloc(st.sh, o);
    var st' := State(r.sh, st.threads[t := r.pc]);
    if r.pc.Failed? {
      AllocPool(st, t, o, r.pc, st');
      FailedAlloc(c, st, t, o, st');
    } else {
      AllocPool(st, t, o, r.pc, st');
      AllocSessions(c, st, t, o, st');
      AllocThreads(st, t, o, st', Fresh(Netalloc.Nth(c.block, |st.sh.sessions|)));
    }
  }

  lemma FailedAlloc(c: Config, st: State, t: nat, o: For, st': State)
    requires SessionsOk(c, st) && ThreadsOk(st) && t < |st.threads| && st.threads[t] == MAlloc(o)
    requires st'.sh.sessions == st.sh.sessions && st'.sh.net.inUse == st.sh.net.inUse && st'.sh.pool == st.sh.pool
    requires st'.threads == st.threads[t := Failed(o)]
    ensures SessionsOk(c, st') && ThreadsOk(st')
  {
    forall u | 0 <= u < |st'.sh.sessions| ensures SessionOk(c, st', u) {
      assert SessionOk(c, st, u);
      PartsSame(st.threads, t, Failed(o), None, u);
    }
    forall v | 0 <= v < |st'.threads| ensures ThreadPlaced(st'.sh, st'.threads[v]) {
      if v != t { assert ThreadPlaced(st.sh, st.threads[v]); }
    }
  }

  // --- events that are not steps ---

  /** The records agree but for the ready channel, which no clause mentions. */
  ghost predicate SameButReady(before: seq<Sess>, after: seq<Sess>) {
    |before| == |after| && forall s :: 0 <= s < |before| ==> after[s] == before[s].(ready := after[s].ready)
  }

  lemma ReadySess(x: Sess, r: bool, n: Parts, p: nat, used: bool)
    requires SessOk(x, n, p, used)
    ensures SessOk(x.(ready := r), n, p, used)
  {
  }

  /** A goroutine that an event can start: it plays no part for any session yet. */
  predicate Beginning(pc: Pc) {
    pc.Check? || pc.Warm? || pc.HDestroy? || (pc.Kill? && pc.c.Direct?) || pc == MCheck(ForPool)
  }

  lemma ArriveSessions(c: Config, st: State, sh': Shared, spawn: Option<Pc>)
    requires SessionsOk(c, st) && SameButReady(st.sh.sessions, sh'.sessions)
    requires sh'.net == st.sh.net && sh'.pool.ready == st.sh.pool.ready && (spawn.Some? ==> Beginning(spawn.value))
    ensures SessionsOk(c, State(sh', With(st.threads, spawn)))
  {
    var st' := State(sh', With(st.threads, spawn));
    forall u | 0 <= u < |sh'.sessions| ensures SessionOk(c, st', u) {
      assert SessionOk(c, st, u);
      PartsStart(st.threads, spawn, u);
      ReadySess(st.sh.sessions[u], sh'.sessions[u].ready, PartsOf(st.threads, u), multiset(st.sh.pool.ready)[u],
                c.block.network + 2 + u in st.sh.net.inUse);
    }
  }

  lemma ArriveThreads(st: State, sh': Shared, spawn: Option<Pc>)
    requires ThreadsOk(st) && SameButReady(st.sh.sessions, sh'.sessions) && (spawn.Some? ==> Beginning(spawn.value))
    ensures ThreadsOk(State(sh', With(st.threads, spawn)))
  {
    var st' := State(sh', With(st.threads, spawn));
    forall v | 0 <= v < |st'.threads| ensures ThreadPlaced(sh', st'.threads[v]) {
      if v < |st.threads| { assert ThreadPlaced(st.sh, st.threads[v]); }
    }
  }

  lemma ArriveTokens(st: State, e: Event, builds: nat, pokes: nat, n: nat)
    requires PoolOk(st.sh.pool, builds, pokes, n) && Enabled(st, e) && !e.Run?
    ensures var (sh', spawn) := Arrive(st.sh, e);
      PoolOk(sh'.pool, builds + Bit(spawn == Some(MCheck(ForPool))), pokes, n)
  {
    WarmPool.TokenBalanced(st.sh.pool);
  }

  lemma ArriveCounts(threads: seq<Pc>, spawn: Option<Pc>)
    requires spawn.Some? ==> Beginning(spawn.value)
    ensures Num(With(threads, spawn), Builds) == Num(threads, Builds) + Bit(spawn == Some(MCheck(ForPool)))
    ensures Num(With(threads, spawn), Pokes) == Num(threads, Pokes)
  {
    if spawn.Some? {
      NumAppend(threads, spawn.value, Builds);
      NumAppend(threads, spawn.value, Pokes);
    }
  }

  lemma ArriveShape(st: State, e: Event)
    requires Enabled(st, e) && !e.Run?
    ensures var (sh', spawn) := Arrive(st.sh, e);
      && SameButReady(st.sh.sessions, sh'.sessions) && sh'.net == st.sh.net && sh'.pool.ready == st.sh.pool.ready
      && (spawn.Some? ==> Beginning(spawn.value))
  {
  }

  lemma ArriveKeeps(c: Config, st: State, e: Event)
    requires Inv(c, st) && Enabled(st, e) && !e.Run?
    ensures var (sh', spawn) := Arrive(st.sh, e); Inv(c, State(sh', With(st.threads, spawn)))
  {
    var (sh', spawn) := Arrive(st.sh, e);
    ArriveShape(st, e);
    ArriveSessions(c, st, sh', spawn);
    ArriveThreads(st, sh', spawn);
    ArriveTokens(st, e, Num(st.threads, Builds), Num(st.threads, Pokes), |st.sh.sessions|);
    ArriveCounts(st.threads, spawn);
  }

  lemma FreeKeeps(c: Config, st: State, t: nat)
    requires Inv(c, st) && t < |st.threads| && !OnSession(st.threads[t]) && CanStep(st.sh, st.threads[t], false)
    ensures var o := StepFree(c, st.sh, st.threads[t]); Inv(c, State(o.sh, With(st.threads[t := o.pc], o.spawn)))
  {
    match st.threads[t]
    case Check => QuietKeeps(c, st, t, StepFree(c, st.sh, Check).pc);
    case Warm => if st.sh.pool.ready == [] { MissKeeps(c, st, t); } else { PopKeeps(c, st, t); }
    case Poke => PokeKeeps(c, st, t);
    case MCheck(o) => QuietKeeps(c, st, t, StepFree(c, st.sh, MCheck(o)).pc);
    case MAlloc(o) => AllocKeeps(c, st, t, o);
    case Failed(o) => if o == ForPool { FailedKeeps(c, st, t); } else { QuietKeeps(c, st, t, Ended); }
  }

  /** Every event keeps the invariant. */
  lemma StepKeeps(c: Config, st: State, e: Event)
    requires Inv(c, st) && Enabled(st, e)
    ensures Inv(c, Apply(c, st, e))
  {
    if !e.Run? {
      ArriveKeeps(c, st, e);
    } else if !OnSession(st.threads[e.t]) {
      FreeKeeps(c, st, e.t);
    } else if st.threads[e.t].s < |st.sh.sessions| {
      SessionStepKeeps(c, st, e.t, e.ok);
    } else {
      assert ThreadPlaced(st.sh, st.threads[e.t]);
      QuietKeeps(c, st, e.t, Ended);
    }
  }

  lemma InitOk(c: Config)
    requires c.block.Valid()
    ensures Inv(c, Init(c))
  {
    Netalloc.NewValid(c.block);
    WarmPool.NewBalanced(c.warmTarget);
  }

  lemma FollowsKeeps(c: Config, st: State, st': State)
    requires Inv(c, st) && Follows(c, st, st')
    ensures Inv(c, st')
  {
    var e :| Enabled(st, e) && st' == Apply(c, st, e);
    StepKeeps(c, st, e);
  }

  /** The invariant holds in every state of every run. */
  lemma {:induction false} RunKeeps(c: Config, trace: seq<State>, i: nat)
    requires IsRun(c, trace) && i < |trace|
    ensures Inv(c, trace[i])
  {
    if i == 0 {
      InitOk(c);
    } else {
      RunKeeps(c, trace, i - 1);
      assert FollowsAt(c, trace, i);
      FollowsKeeps(c, trace[i - 1], trace[i]);
    }
  }
}
