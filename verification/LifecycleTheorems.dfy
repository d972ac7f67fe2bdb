/** What the invariant means: the promises of host.go, manager.go and main.go, over every run. */
module LifecycleTheorems {
  import opened Common
  import opened Lifecycle
  import opened LifecycleCounts
  import opened LifecycleInvariant
  import opened LifecycleSafety
  import WarmPool

  /** The keys of Host.sessions. */
  function HostMap(st: State): set<Sid> {
    set s | 0 <= s < |st.sh.sessions| && st.sh.sessions[s].h.Inside?
  }

  /** The keys of Manager.sessions. */
  function MgrMap(st: State): set<Sid> {
    set s | 0 <= s < |st.sh.sessions| && st.sh.sessions[s].m.Live?
  }

  /** Sessions popped from the warm pool by a CreateWarm that then found the Host full. */
  function DroppedSet(st: State): set<Sid> {
    set s | 0 <= s < |st.sh.sessions| && st.sh.sessions[s].dropped
  }

  function PoolSet(st: State): set<Sid> {
    set s | s in st.sh.pool.ready
  }

  function Ip(c: Config, s: Sid): nat {
    c.block.network + 2 + s
  }

  /** Nothing is left to do but wait: for a guest to exit, or for a done channel that is still open. */
  ghost predicate Quiet(st: State) {
    forall t :: 0 <= t < |st.threads| ==>
      match st.threads[t]
      case Ended => true
      case Exiter(_) => true
      case Watcher(s) => s < |st.sh.sessions| ==> !st.sh.sessions[s].done
      case _ => false
  }

  lemma {:induction false} NumWitness(threads: seq<Pc>, r: Role) returns (t: nat)
    requires Num(threads, r) >= 1
    ensures t < |threads| && Plays(threads[t], r)
  {
    var n := |threads| - 1;
    if Plays(threads[n], r) { t := n; } else { t := NumWitness(threads[..n], r); }
  }

  /**
   Teardown and hooks run once. In every state of every run, what was done to a session is a prefix of
   the one teardown sequence, its done channel was closed at most once, and the onGone hook was called
   at most once and only for a session that left the Host, with the hook registered when it left.
   */
  lemma AtMostOnce(c: Config, trace: seq<State>, i: nat, s: Sid)
    requires IsRun(c, trace) && i < |trace| && s < |trace[i].sh.sessions|
    ensures var x := trace[i].sh.sessions[s];
      && x.acted <= TEARDOWN
      && x.closes <= 1 && (x.done <==> x.closes == 1)
      && (x.fired == [] || (x.h.Left? && x.h.fn.Some? && x.fired == [x.h.fn.value]))
  {
    RunKeeps(c, trace, i);
    var st := trace[i];
    assert SessionOk(c, st, s);
    if st.sh.sessions[s].m.Gone? && Num(st.threads, Tears(s)) > 0 {
      var t := NumWitness(st.threads, Tears(s));
      assert ThreadPlaced(st.sh, st.threads[t]);
    }
  }

  /**
   Teardown and hooks run to the end. Once no goroutine is tearing the session down it is either still
   in the Manager, or was never launched, or had the whole sequence; and once no goroutine has its hook
   to call, the hook was called exactly when the session left the Host with a hook registered.
   */
  lemma ExactlyOnce(c: Config, trace: seq<State>, i: nat, s: Sid)
    requires IsRun(c, trace) && i < |trace| && s < |trace[i].sh.sessions|
    ensures var st := trace[i]; var x := st.sh.sessions[s];
      && (Num(st.threads, Tears(s)) == 0 ==> x.acted == if x.m.Gone? then TEARDOWN else [])
      && (Num(st.threads, Tears(s)) == 0 && x.m.Gone? ==> x.closes == 1)
      && (Num(st.threads, Fires(s)) == 0 ==>
            x.fired == if x.h.Left? && x.h.fn.Some? then [x.h.fn.value] else [])
      && Num(st.threads, Tears(s)) <= 1 && Num(st.threads, Fires(s)) <= 1
  {
    RunKeeps(c, trace, i);
    assert SessionOk(c, trace[i], s);
  }

  /** Wherever `b` stands in the sequence, `a` stands before it. */
  ghost predicate Precedes(acts: seq<Act>, a: Act, b: Act) {
    forall j :: 0 <= j < |acts| && acts[j] == b ==> a in acts[..j]
  }

  /**
   What the one teardown is: in every state of every run each action was done at most once, and the channel is closed
   before the VM is stopped, the VM stopped before its TAP device is deleted, the device deleted before the address is
   released, and the address released before the directory is removed. Once nobody is tearing down a session that left
   the Manager, all five were done.
   */
  lemma TornDownInOrder(c: Config, trace: seq<State>, i: nat, s: Sid)
    requires IsRun(c, trace) && i < |trace| && s < |trace[i].sh.sessions|
    ensures var acted := trace[i].sh.sessions[s].acted;
      && (forall a :: multiset(acted)[a] <= 1)
      && Precedes(acted, Close, Stop) && Precedes(acted, Stop, DeleteTap)
      && Precedes(acted, DeleteTap, ReleaseIp) && Precedes(acted, ReleaseIp, RemoveDir)
    ensures trace[i].sh.sessions[s].m.Gone? && Num(trace[i].threads, Tears(s)) == 0 ==>
      multiset(trace[i].sh.sessions[s].acted) == multiset{Close, Stop, DeleteTap, ReleaseIp, RemoveDir}
  {
    AtMostOnce(c, trace, i, s);
    ExactlyOnce(c, trace, i, s);
    var acted := trace[i].sh.sessions[s].acted;
    assert acted == TEARDOWN[..|acted|];
    InOrderPrefix(|acted|);
  }

  lemma AllOnce(n: nat)
    requires n <= 5
    ensures forall a :: multiset(TEARDOWN[..n])[a] <= 1
  {
    assert TEARDOWN[..n] + TEARDOWN[n..] == TEARDOWN;
    assert multiset(TEARDOWN) == multiset{Close, Stop, DeleteTap, ReleaseIp, RemoveDir};
    forall a ensures multiset(TEARDOWN[..n])[a] <= 1 {
      assert multiset(TEARDOWN)[a] == multiset(TEARDOWN[..n])[a] + multiset(TEARDOWN[n..])[a];
    }
  }

  lemma InOrderPrefix(n: nat)
    requires n <= 5
    ensures var acted := TEARDOWN[..n];
      && (forall a :: multiset(acted)[a] <= 1)
      && Precedes(acted, Close, Stop) && Precedes(acted, Stop, DeleteTap)
      && Precedes(acted, DeleteTap, ReleaseIp) && Precedes(acted, ReleaseIp, RemoveDir)
      && (n == 5 ==> multiset(acted) == multiset{Close, Stop, DeleteTap, ReleaseIp, RemoveDir})
  {
    var acted := TEARDOWN[..n];
    AllOnce(n);
    assert acted == [Close, Stop, DeleteTap, ReleaseIp, RemoveDir][..n];
    assert n > 0 ==> acted[0] == Close;
    assert n > 1 ==> acted[1] == Stop && Close in acted[..1];
    assert n > 2 ==> acted[2] == DeleteTap && acted[..2][1] == Stop;
    assert n > 3 ==> acted[3] == ReleaseIp && acted[..3][2] == DeleteTap;
    assert n > 4 ==> acted[4] == RemoveDir && acted[..4][3] == ReleaseIp;
  }

  /** No dead session stays counted: one in the Host map but not in the Manager's is on its way out. */
  lemma NoDeadCounted(c: Config, trace: seq<State>, i: nat, s: Sid)
    requires IsRun(c, trace) && i < |trace| && s in HostMap(trace[i])
    ensures var st := trace[i];
      || s in MgrMap(st)
      || Num(st.threads, Tears(s)) == 1
      || (st.sh.sessions[s].done && Num(st.threads, Watches(s)) >= 1)
  {
    RunKeeps(c, trace, i);
    assert SessionOk(c, trace[i], s);
  }

  /** A session's place only moves forward, so it enters each map at most once and leaves it for good. */
  function MannedRank(m: Manned): nat {
    match m case Making => 0 case Live => 1 case Gone => 2
  }

  predicate Onward(x: Sess, y: Sess) {
    && MannedRank(x.m) <= MannedRank(y.m)
    && (x.h.Inside? ==> !y.h.Outside?)
    && (x.h.Left? ==> y.h == x.h)
    && (x.dropped ==> y.dropped && y.h == x.h)
    && (x.done ==> y.done)
    && x.acted <= y.acted && x.fired <= y.fired
  }

  lemma StepOnward(x: Sess, pc: Pc, ok: bool, hook: Option<Hook>, full: bool, n: nat, p: nat)
    requires OnSession(pc) && CanLocal(x, pc, ok) && ThreadOk(x, pc)
    requires HandsOk(x, n, p) && n >= Bit(Plays(pc, Holds(pc.s)))
    ensures Onward(x, LocalStep(x, pc, ok, hook, full).x)
  {
  }

  lemma FreeElsewhere(c: Config, sh: Shared, pc: Pc, s: Sid)
    requires !OnSession(pc) && CanStep(sh, pc, false) && s < |sh.sessions|
    ensures var sh' := StepFree(c, sh, pc).sh; s < |sh'.sessions| && sh'.sessions[s] == sh.sessions[s]
  {
  }

  lemma SessionElsewhere(c: Config, sh: Shared, pc: Pc, ok: bool, s: Sid)
    requires OnSession(pc) && CanStep(sh, pc, ok) && s < |sh.sessions| && pc.s != s
    ensures var sh' := StepSession(c, sh, pc, ok).sh; s < |sh'.sessions| && sh'.sessions[s] == sh.sessions[s]
  {
  }

  lemma RunElsewhere(c: Config, sh: Shared, pc: Pc, ok: bool, s: Sid)
    requires CanStep(sh, pc, ok) && s < |sh.sessions| && (OnSession(pc) ==> pc.s != s)
    ensures var sh' := StepOf(c, sh, pc, ok).sh; s < |sh'.sessions| && sh'.sessions[s] == sh.sessions[s]
  {
    if OnSession(pc) { SessionElsewhere(c, sh, pc, ok, s); } else { FreeElsewhere(c, sh, pc, s); }
  }

  lemma RunHere(c: Config, st: State, t: nat, ok: bool)
    requires t < |st.threads| && OnSession(st.threads[t]) && st.threads[t].s < |st.sh.sessions|
    requires CanLocal(st.sh.sessions[st.threads[t].s], st.threads[t], ok)
    ensures var sh' := StepOf(c, st.sh, st.threads[t], ok).sh;
      |sh'.sessions| == |st.sh.sessions| && sh'.sessions[st.threads[t].s] == LocalAt(c, st, t, ok).x
  {
  }

  lemma OnwardHere(c: Config, st: State, t: nat, ok: bool)
    requires t < |st.threads| && OnSession(st.threads[t]) && st.threads[t].s < |st.sh.sessions|
    requires SessionOk(c, st, st.threads[t].s) && ThreadPlaced(st.sh, st.threads[t])
    requires CanLocal(st.sh.sessions[st.threads[t].s], st.threads[t], ok)
    ensures Onward(st.sh.sessions[st.threads[t].s], LocalAt(c, st, t, ok).x)
  {
    var s := st.threads[t].s;
    NumWith(st.threads, t, Ended, None, Holds(s));
    StepOnward(st.sh.sessions[s], st.threads[t], ok, st.sh.hook, HostLen(st.sh.sessions) >= MaxLive(c),
               Num(st.threads, Holds(s)), multiset(st.sh.pool.ready)[s]);
  }

  lemma ApplyOnward(c: Config, st: State, e: Event, s: Sid)
    requires Inv(c, st) && Enabled(st, e) && s < |st.sh.sessions|
    ensures var st' := Apply(c, st, e); s < |st'.sh.sessions| && Onward(st.sh.sessions[s], st'.sh.sessions[s])
  {
    if e.Run? {
      var pc := st.threads[e.t];
      if OnSession(pc) && pc.s == s {
        assert SessionOk(c, st, s) && ThreadPlaced(st.sh, pc);
        OnwardHere(c, st, e.t, e.ok);
        RunHere(c, st, e.t, e.ok);
      } else {
        RunElsewhere(c, st.sh, pc, e.ok, s);
      }
    } else {
      ArriveShape(st, e);
    }
  }

  lemma FollowsOnward(c: Config, st: State, st': State, s: Sid)
    requires Inv(c, st) && Follows(c, st, st') && s < |st.sh.sessions|
    ensures s < |st'.sh.sessions| && Onward(st.sh.sessions[s], st'.sh.sessions[s])
  {
    var e :| Enabled(st, e) && st' == Apply(c, st, e);
    ApplyOnward(c, st, e, s);
  }

  lemma OnwardTransitive(x: Sess, y: Sess, z: Sess)
    requires Onward(x, y) && Onward(y, z)
    ensures Onward(x, z)
  {
  }

  lemma RunOnward(c: Config, trace: seq<State>, j: nat, s: Sid)
    requires IsRun(c, trace) && 0 < j < |trace| && s < |trace[j - 1].sh.sessions|
    ensures s < |trace[j].sh.sessions| && Onward(trace[j - 1].sh.sessions[s], trace[j].sh.sessions[s])
  {
    RunKeeps(c, trace, j - 1);
    assert FollowsAt(c, trace, j);
    FollowsOnward(c, trace[j - 1], trace[j], s);
  }

  /** Over any stretch of a run a session's place only moves forward. */
  lemma {:induction false} NeverReturns(c: Config, trace: seq<State>, i: nat, j: nat, s: Sid)
    requires IsRun(c, trace) && i <= j < |trace| && s < |trace[i].sh.sessions|
    ensures s < |trace[j].sh.sessions| && Onward(trace[i].sh.sessions[s], trace[j].sh.sessions[s])
  {
    if i < j {
      NeverReturns(c, trace, i, j - 1, s);
      RunOnward(c, trace, j, s);
      OnwardTransitive(trace[i].sh.sessions[s], trace[j - 1].sh.sessions[s], trace[j].sh.sessions[s]);
    }
  }

  // --- addresses ---

  /**
   Address conservation. In every state of every run the allocator's in-use set is the disjoint union of
   the addresses of sessions being created or unwound, live in the Manager, and mid-teardown; each is the
   responsibility of exactly one goroutine or of the Manager's map.
   */
  lemma AddressConservation(c: Config, trace: seq<State>, i: nat)
    requires IsRun(c, trace) && i < |trace|
    ensures var st := trace[i];
      st.sh.net.inUse == set s | 0 <= s < |st.sh.sessions| && (s in MgrMap(st) || Num(st.threads, Owns(s)) == 1) :: Ip(c, s)
    ensures var st := trace[i];
      forall s :: 0 <= s < |st.sh.sessions| ==> Num(st.threads, Owns(s)) + Bit(s in MgrMap(st)) <= 1
  {
    RunKeeps(c, trace, i);
    var st := trace[i];
    forall s | 0 <= s < |st.sh.sessions|
      ensures Num(st.threads, Owns(s)) + Bit(s in MgrMap(st)) <= 1
      ensures Ip(c, s) in st.sh.net.inUse <==> s in MgrMap(st) || Num(st.threads, Owns(s)) == 1
    {
      assert SessionOk(c, st, s);
    }
    forall ip | ip in st.sh.net.inUse
      ensures exists s :: 0 <= s < |st.sh.sessions| && (s in MgrMap(st) || Num(st.threads, Owns(s)) == 1) && Ip(c, s) == ip
    {
      assert Ip(c, ip - c.block.network - 2) == ip;
    }
  }

  // --- agreement of the two maps when nothing is pending ---

  lemma QuietCounts(st: State, s: Sid)
    requires Quiet(st)
    ensures Num(st.threads, Holds(s)) == Num(st.threads, Tears(s)) == Num(st.threads, Fires(s)) == 0
    ensures Num(st.threads, Owns(s)) == Num(st.threads, Dooms(s)) == 0
    ensures s < |st.sh.sessions| && st.sh.sessions[s].done ==> Num(st.threads, Watches(s)) == 0
  {
    NumNone(st.threads, Holds(s));
    NumNone(st.threads, Tears(s));
    NumNone(st.threads, Fires(s));
    NumNone(st.threads, Owns(s));
    NumNone(st.threads, Dooms(s));
    if s < |st.sh.sessions| && st.sh.sessions[s].done { NumNone(st.threads, Watches(s)); }
  }

  lemma QuietSession(c: Config, st: State, s: Sid)
    requires Inv(c, st) && Quiet(st) && s < |st.sh.sessions|
    ensures s in HostMap(st) ==> s in MgrMap(st)
    ensures s in MgrMap(st) ==> s in HostMap(st) || s in PoolSet(st) || s in DroppedSet(st)
    ensures Ip(c, s) in st.sh.net.inUse <==> s in MgrMap(st)
  {
    assert SessionOk(c, st, s);
    QuietCounts(st, s);
    if multiset(st.sh.pool.ready)[s] > 0 { assert s in st.sh.pool.ready; }
  }

  /**
   When nothing is pending the maps agree: every Host session is in the Manager's map, every VM the
   Manager runs is in the Host, ready in the pool, or one that CreateWarm dropped at capacity, and the
   addresses in use are those of the Manager's sessions.
   */
  lemma MapsAgree(c: Config, trace: seq<State>, i: nat)
    requires IsRun(c, trace) && i < |trace| && Quiet(trace[i])
    ensures var st := trace[i];
      && HostMap(st) <= MgrMap(st) <= HostMap(st) + PoolSet(st) + DroppedSet(st)
      && st.sh.net.inUse == set s | s in MgrMap(st) :: Ip(c, s)
  {
    RunKeeps(c, trace, i);
    var st := trace[i];
    forall s | 0 <= s < |st.sh.sessions|
      ensures s in HostMap(st) ==> s in MgrMap(st)
      ensures s in MgrMap(st) ==> s in HostMap(st) || s in PoolSet(st) || s in DroppedSet(st)
      ensures Ip(c, s) in st.sh.net.inUse <==> s in MgrMap(st)
    {
      QuietSession(c, st, s);
    }
    forall ip | ip in st.sh.net.inUse ensures exists s :: s in MgrMap(st) && Ip(c, s) == ip {
      assert Ip(c, ip - c.block.network - 2) == ip;
    }
  }

  /** A quiet daemon runs exactly the VMs its Host lists if and only if it runs none that waits in the pool or was dropped. */
  lemma QuietHostIsManager(c: Config, trace: seq<State>, i: nat)
    requires IsRun(c, trace) && i < |trace| && Quiet(trace[i])
    ensures var st := trace[i]; HostMap(st) == MgrMap(st) <==> (PoolSet(st) + DroppedSet(st)) !! MgrMap(st)
  {
    var st := trace[i];
    MapsAgree(c, trace, i);
    RunKeeps(c, trace, i);
    forall s | s in PoolSet(st) + DroppedSet(st) ensures s !in HostMap(st) {
      if s < |st.sh.sessions| {
        assert SessionOk(c, st, s);
        if s in st.sh.pool.ready { assert s in multiset(st.sh.pool.ready); }
      }
    }
    if HostMap(st) == MgrMap(st) {
      assert forall s :: s in MgrMap(st) ==> s !in PoolSet(st) + DroppedSet(st);
    } else {
      var s :| s in MgrMap(st) && s !in HostMap(st);
      assert s in PoolSet(st) + DroppedSet(st);
    }
  }

  // --- the warm pool ---

  /**
   Warm pool accounting over every run of the whole system. No ready VM is listed twice, none is also in
   the Host, and tokens queued or skipped, builds running or failed and VMs ready never exceed the target
   plus the misses.
   */
  lemma WarmAccounting(c: Config, trace: seq<State>, i: nat)
    requires IsRun(c, trace) && i < |trace|
    ensures var p := trace[i].sh.pool;
      && p.building == Num(trace[i].threads, Builds)
      && p.queue + p.skipped + p.building + p.failed + |p.ready| <= p.target + p.misses
      && (p.misses == 0 ==> |p.ready| + p.building <= p.target)
    ensures forall k, l :: 0 <= k < l < |trace[i].sh.pool.ready| ==> trace[i].sh.pool.ready[k] != trace[i].sh.pool.ready[l]
    ensures PoolSet(trace[i]) !! HostMap(trace[i])
  {
    RunKeeps(c, trace, i);
    var st := trace[i];
    WarmPool.BalancedBound(st.sh.pool);
    forall k, l | 0 <= k < l < |st.sh.pool.ready| ensures st.sh.pool.ready[k] != st.sh.pool.ready[l] {
      assert SessionOk(c, st, st.sh.pool.ready[k]);
      if st.sh.pool.ready[k] == st.sh.pool.ready[l] { Twice(st.sh.pool.ready, k, l); }
    }
    forall s | s in PoolSet(st) ensures s !in HostMap(st) {
      assert s in multiset(st.sh.pool.ready);
      assert SessionOk(c, st, s);
    }
  }

  lemma Twice(ss: seq<Sid>, k: nat, l: nat)
    requires k < l < |ss| && ss[k] == ss[l]
    ensures multiset(ss)[ss[k]] >= 2
  {
    assert ss == ss[..k] + [ss[k]] + ss[k + 1..l] + [ss[l]] + ss[l + 1..];
  }

  // --- how many sessions there can ever be ---

  /** No session was made and no call is past the Manager's check. */
  ghost predicate NoneMade(st: State) {
    st.sh.sessions == [] && forall t :: 0 <= t < |st.threads| ==> !st.threads[t].MAlloc?
  }

  lemma NoCheckPasses(c: Config, st: State, e: Event)
    requires Enabled(st, e) && c.maxConcurrent < 1 && NoneMade(st)
    ensures NoneMade(Apply(c, st, e))
  {
  }

  lemma NoCheckFollows(c: Config, st: State, st': State)
    requires Follows(c, st, st') && c.maxConcurrent < 1 && NoneMade(st)
    ensures NoneMade(st')
  {
    var e :| Enabled(st, e) && st' == Apply(c, st, e);
    NoCheckPasses(c, st, e);
  }

  lemma {:induction false} NeverAdmits(c: Config, trace: seq<State>, i: nat)
    requires IsRun(c, trace) && i < |trace| && c.maxConcurrent < 1
    ensures NoneMade(trace[i])
  {
    if i > 0 {
      NeverAdmits(c, trace, i - 1);
      assert FollowsAt(c, trace, i);
      NoCheckFollows(c, trace[i - 1], trace[i]);
    }
  }

  /** Every session ever made has an address of its own, and none is made under a limit of zero or less. */
  lemma FewSessions(c: Config, trace: seq<State>, i: nat)
    requires IsRun(c, trace) && i < |trace|
    ensures |trace[i].sh.sessions| <= c.block.Capacity()
    ensures c.maxConcurrent < 1 ==> trace[i].sh.sessions == []
  {
    RunKeeps(c, trace, i);
    if c.maxConcurrent < 1 { NeverAdmits(c, trace, i); }
  }

  // --- which hook is called ---

  /** The registered hook is the one that OnGone was given last; nothing else changes it. */
  lemma HookChanges(c: Config, st: State, e: Event)
    requires Enabled(st, e)
    ensures Apply(c, st, e).sh.hook == if e.SetHook? then e.h else st.sh.hook
  {
  }

  lemma DepartureHook(x: Sess, pc: Pc, ok: bool, hook: Option<Hook>, full: bool)
    requires OnSession(pc) && CanLocal(x, pc, ok) && x.h.Inside? && LocalStep(x, pc, ok, hook, full).x.h.Left?
    ensures LocalStep(x, pc, ok, hook, full).x.h.fn == hook
  {
  }

  lemma HookStep(c: Config, st: State, st': State, s: Sid)
    requires Inv(c, st) && Follows(c, st, st') && s < |st.sh.sessions| && st.sh.sessions[s].h.Inside?
    requires s < |st'.sh.sessions| && st'.sh.sessions[s].h.Left?
    ensures st'.sh.sessions[s].h.fn == st.sh.hook
  {
    var e :| Enabled(st, e) && st' == Apply(c, st, e);
    if e.Run? {
      var pc := st.threads[e.t];
      if OnSession(pc) && pc.s == s {
        RunHere(c, st, e.t, e.ok);
        DepartureHook(st.sh.sessions[s], pc, e.ok, st.sh.hook, HostLen(st.sh.sessions) >= MaxLive(c));
      } else {
        RunElsewhere(c, st.sh, pc, e.ok, s);
      }
    } else {
      ArriveShape(st, e);
    }
  }

  /**
   The hook that counts is the one registered when the session leaves: between a state with the session in the Host and
   a later one without it there is the step at which it left, with the hook of that moment.
   */
  lemma {:induction false} HookRegistered(c: Config, trace: seq<State>, i: nat, j: nat, s: Sid) returns (m: nat)
    requires IsRun(c, trace) && i < j < |trace| && s < |trace[i].sh.sessions| && trace[i].sh.sessions[s].h.Inside?
    requires s < |trace[j].sh.sessions| && trace[j].sh.sessions[s].h.Left?
    ensures i <= m < j && s < |trace[m].sh.sessions| <= |trace[m + 1].sh.sessions|
    ensures trace[m].sh.sessions[s].h.Inside? && trace[m + 1].sh.sessions[s].h.Left?
    ensures trace[j].sh.sessions[s].h.fn == trace[m].sh.hook
    decreases j
  {
    NeverReturns(c, trace, i, j - 1, s);
    RunOnward(c, trace, j, s);
    if trace[j - 1].sh.sessions[s].h.Left? {
      m := HookRegistered(c, trace, i, j - 1, s);
    } else {
      RunKeeps(c, trace, j - 1);
      assert FollowsAt(c, trace, j);
      HookStep(c, trace[j - 1], trace[j], s);
      FollowsOnward(c, trace[j - 1], trace[j], |trace[j - 1].sh.sessions| - 1);
      m := j - 1;
    }
  }
}
