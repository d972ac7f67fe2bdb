/** The warm pool hands out every VM at most once. */
module LifecyclePool {
  import opened Common
  import opened Lifecycle
  import opened LifecycleCounts
  import opened LifecycleInvariant
  import opened LifecycleSafety
  import opened LifecycleTheorems
  import WarmPool

  /** How often session `s` is in the pool. */
  function Pooled(sh: Shared, s: Sid): nat {
    multiset(sh.pool.ready)[s]
  }

  function Stock(st: State, s: Sid): nat {
    Pooled(st.sh, s) + Num(st.threads, Stocks(s))
  }

  /** A session that exists is built for the pool by ever fewer goroutines, and enters the pool only from one of them. */
  ghost predicate Dwindles(st: State, st': State, s: Sid) {
    Num(st'.threads, Stocks(s)) <= Num(st.threads, Stocks(s)) && Stock(st', s) <= Stock(st, s)
  }

  /** A goroutine stays on its session. */
  lemma StaysOn(x: Sess, pc: Pc, ok: bool, hook: Option<Hook>, full: bool)
    requires OnSession(pc) && CanLocal(x, pc, ok)
    ensures var l := LocalStep(x, pc, ok, hook, full);
      && (OnSession(l.pc) ==> l.pc.s == pc.s)
      && (l.spawn.Some? ==> OnSession(l.spawn.value) && l.spawn.value.s == pc.s)
  {
  }

  lemma LocalStock(x: Sess, pc: Pc, ok: bool, hook: Option<Hook>, full: bool)
    requires OnSession(pc) && CanLocal(x, pc, ok)
    ensures var l := LocalStep(x, pc, ok, hook, full);
      Change(pc, l.pc, l.spawn, Stocks(pc.s)) + Bit(l.fx.PoolPush?) <= 0
  {
  }

  lemma ElsewhereStock(x: Sess, pc: Pc, ok: bool, hook: Option<Hook>, full: bool, s: Sid)
    requires OnSession(pc) && CanLocal(x, pc, ok) && s != pc.s
    ensures var l := LocalStep(x, pc, ok, hook, full); Change(pc, l.pc, l.spawn, Stocks(s)) == 0
  {
    StaysOn(x, pc, ok, hook, full);
  }

  lemma PerformPool(sh: Shared, u: Sid, fx: Effect, s: Sid)
    requires u < |sh.sessions|
    ensures Pooled(Perform(sh, u, fx), s) == Pooled(sh, s) + Bit(fx.PoolPush? && u == s)
  {
  }

  lemma SessionDwindles(c: Config, st: State, t: nat, ok: bool, s: Sid)
    requires t < |st.threads| && OnSession(st.threads[t]) && st.threads[t].s < |st.sh.sessions|
    requires CanLocal(st.sh.sessions[st.threads[t].s], st.threads[t], ok)
    ensures Dwindles(st, Taken(st, t, LocalAt(c, st, t, ok)), s)
  {
    var pc, l := st.threads[t], LocalAt(c, st, t, ok);
    var x, full := st.sh.sessions[pc.s], HostLen(st.sh.sessions) >= MaxLive(c);
    NumWith(st.threads, t, l.pc, l.spawn, Stocks(s));
    PerformPool(st.sh.(sessions := st.sh.sessions[pc.s := l.x]), pc.s, l.fx, s);
    if s == pc.s { LocalStock(x, pc, ok, st.sh.hook, full); } else { ElsewhereStock(x, pc, ok, st.sh.hook, full, s); }
  }

  lemma PopPooled(pool: WarmPool.State, s: Sid)
    ensures multiset(WarmPool.Pop(pool).0.ready)[s] <= multiset(pool.ready)[s]
  {
    if pool.ready != [] { assert pool.ready == [pool.ready[0]] + pool.ready[1..]; }
  }

  lemma FreeStock(c: Config, sh: Shared, pc: Pc, s: Sid)
    requires !OnSession(pc) && CanStep(sh, pc, false) && s < |sh.sessions|
    ensures var o := StepFree(c, sh, pc);
      o.spawn.None? && !Plays(o.pc, Stocks(s)) && Pooled(o.sh, s) <= Pooled(sh, s)
  {
    if pc.Warm? { PopPooled(sh.pool, s); }
  }

  lemma FreeDwindles(c: Config, st: State, t: nat, s: Sid)
    requires t < |st.threads| && !OnSession(st.threads[t]) && CanStep(st.sh, st.threads[t], false) && s < |st.sh.sessions|
    ensures var o := StepFree(c, st.sh, st.threads[t]);
      Dwindles(st, State(o.sh, With(st.threads[t := o.pc], o.spawn)), s)
  {
    var o := StepFree(c, st.sh, st.threads[t]);
    FreeStock(c, st.sh, st.threads[t], s);
    NumWith(st.threads, t, o.pc, o.spawn, Stocks(s));
  }

  lemma ArriveDwindles(st: State, e: Event, s: Sid)
    requires !e.Run? && Enabled(st, e)
    ensures var a := Arrive(st.sh, e); Dwindles(st, State(a.0, With(st.threads, a.1)), s)
  {
    var a := Arrive(st.sh, e);
    ArriveShape(st, e);
    assert a.0.pool.ready == st.sh.pool.ready;
    if a.1.Some? { NumAppend(st.threads, a.1.value, Stocks(s)); }
  }

  lemma EndDwindles(st: State, t: nat, s: Sid)
    requires t < |st.threads|
    ensures Dwindles(st, State(st.sh, st.threads[t := Ended]), s)
  {
    NumUpdate(st.threads, t, Ended, Stocks(s));
  }

  lemma StepDwindles(c: Config, st: State, t: nat, ok: bool, s: Sid)
    requires Enabled(st, Run(t, ok)) && s < |st.sh.sessions|
    ensures Dwindles(st, Apply(c, st, Run(t, ok)), s)
  {
    if !OnSession(st.threads[t]) {
      FreeDwindles(c, st, t, s);
    } else if st.threads[t].s < |st.sh.sessions| {
      SessionDwindles(c, st, t, ok, s);
      assert Apply(c, st, Run(t, ok)) == Taken(st, t, LocalAt(c, st, t, ok));
    } else {
      EndDwindles(st, t, s);
    }
  }

  lemma FollowsDwindles(c: Config, st: State, st': State, s: Sid)
    requires Follows(c, st, st') && s < |st.sh.sessions|
    ensures Dwindles(st, st', s)
  {
    var e :| Enabled(st, e) && st' == Apply(c, st, e);
    if e.Run? { StepDwindles(c, st, e.t, e.ok, s); } else { ArriveDwindles(st, e, s); }
  }

  lemma {:induction false} RunDwindles(c: Config, trace: seq<State>, i: nat, j: nat, s: Sid)
    requires IsRun(c, trace) && i <= j < |trace| && s < |trace[i].sh.sessions|
    ensures Dwindles(trace[i], trace[j], s)
    decreases j
  {
    if i < j {
      RunDwindles(c, trace, i, j - 1, s);
      NeverReturns(c, trace, i, j - 1, s);
      assert FollowsAt(c, trace, j);
      FollowsDwindles(c, trace[j - 1], trace[j], s);
    }
  }

  lemma PooledAlone(c: Config, trace: seq<State>, i: nat, s: Sid)
    requires IsRun(c, trace) && i < |trace| && s in PoolSet(trace[i])
    ensures s < |trace[i].sh.sessions| && Num(trace[i].threads, Stocks(s)) == 0
  {
    RunKeeps(c, trace, i);
    assert s in multiset(trace[i].sh.pool.ready);
    assert SessionOk(c, trace[i], s);
    NumMore(trace[i].threads, Stocks(s), Holds(s), 0);
  }

  /** A VM that has left the warm pool never comes back to it, so no two AcquireWarm calls get the same one. */
  lemma HandedOutOnce(c: Config, trace: seq<State>, i: nat, j: nat, k: nat, s: Sid)
    requires IsRun(c, trace) && i <= j <= k < |trace| && s in PoolSet(trace[i]) && s !in PoolSet(trace[j])
    ensures s !in PoolSet(trace[k])
  {
    PooledAlone(c, trace, i, s);
    NeverReturns(c, trace, i, j, s);
    RunDwindles(c, trace, i, j, s);
    RunDwindles(c, trace, j, k, s);
    assert s !in multiset(trace[j].sh.pool.ready);
    assert Pooled(trace[k].sh, s) == 0;
    assert s !in multiset(trace[k].sh.pool.ready);
  }
}
