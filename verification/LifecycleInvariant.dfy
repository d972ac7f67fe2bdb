/**
 The inductive invariant of the session life cycle.

 Every clause is about one session: what its record says and how many goroutines play each part for
 it. So each step is checked for one record and one goroutine at a time, and the counting lemmas
 carry the result to all sessions and all goroutines.
 */
module LifecycleInvariant {
  import opened Common
  import opened Lifecycle
  import opened LifecycleCounts
  import Netalloc
  import WarmPool

  // --- the invariant, clause by clause ---

  /** What the local variables of a goroutine on session `x` say about it. */
  ghost predicate ThreadOk(x: Sess, pc: Pc) {
    match pc
    case Build(_, _, _) => x.m.Making?
    case Unbuild(_, _, undo) =>
      && x.m.Making?
      && (undo == [UndoIp] || undo == [UndoTap, UndoIp] || undo == [UndoDir, UndoTap, UndoIp])
    case Kill(_, c) => (c.Abort? ==> !x.m.Making?) && (c.FromHost? ==> x.h == Left(c.fn))
    case Tear(_, acts, c) =>
      x.m.Gone? && acts != [] && x.acted + acts == TEARDOWN && (c.FromHost? ==> x.h == Left(c.fn))
    case HClose(_, fn) => x.m.Gone? && x.h == Left(fn)
    case Fire(_, h) => x.h == Left(Some(h))
    case HDestroy(_) => true
    case _ => !x.m.Making?
  }

  /** A session is in one pair of hands at a time and is placed once; only a launched one is placed. */
  ghost predicate HandsOk(x: Sess, holders: nat, pooled: nat) {
    && holders + pooled + Bit(!x.h.Outside?) + Bit(x.dropped) <= 1
    && (x.m.Making? ==> pooled == 0 && x.h.Outside? && !x.dropped)
  }

  /** A launched session is in the Manager, or in one teardown, or fully torn down. */
  ghost predicate TearOk(x: Sess, tearers: nat) {
    match x.m
    case Gone => tearers <= 1 && (tearers == 0 ==> x.acted == TEARDOWN)
    case _ => tearers == 0 && x.acted == []
  }

  ghost predicate DoneOk(x: Sess) {
    && (x.done ==> x.m.Gone?)
    && (x.acted != [] ==> x.done)
    && x.closes == Bit(x.done)
  }

  ghost predicate WatchOk(x: Sess, watchers: nat) {
    x.h.Inside? ==> watchers >= 1
  }

  /** Hook calls made plus hook calls still to come: one for each departure that found a hook. */
  ghost predicate HookOk(x: Sess, firers: nat) {
    if x.h.Left? && x.h.fn.Some? then
      || (firers == 1 && x.fired == [])
      || (firers == 0 && x.fired == [x.h.fn.value])
    else
      firers == 0 && x.fired == []
  }

  /** An address is in use exactly while one goroutine or the Manager's map is responsible for it. */
  ghost predicate AddressOk(x: Sess, owners: nat, used: bool) {
    owners + Bit(x.m.Live?) == Bit(used)
  }

  /** Every VM the Manager runs is held by someone who can place or destroy it, or was dropped. */
  ghost predicate LiveOk(x: Sess, holders: nat, pooled: nat, dooms: nat) {
    x.m.Live? ==> holders + pooled + Bit(x.h.Inside?) + Bit(x.dropped) + dooms >= 1
  }

  /** How many goroutines play each part for one session. */
  datatype Parts = Parts(holds: nat, watches: nat, tears: nat, fires: nat, owns: nat, dooms: nat)

  function PartsOf(threads: seq<Pc>, s: Sid): Parts {
    Parts(Num(threads, Holds(s)), Num(threads, Watches(s)), Num(threads, Tears(s)),
          Num(threads, Fires(s)), Num(threads, Owns(s)), Num(threads, Dooms(s)))
  }

  ghost predicate SessOk(x: Sess, n: Parts, pooled: nat, used: bool) {
    && HandsOk(x, n.holds, pooled)
    && TearOk(x, n.tears)
    && DoneOk(x)
    && WatchOk(x, n.watches)
    && HookOk(x, n.fires)
    && AddressOk(x, n.owns, used)
    && LiveOk(x, n.holds, pooled, n.dooms)
  }

  ghost predicate SessionOk(c: Config, st: State, s: Sid)
    requires s < |st.sh.sessions|
  {
    && st.sh.sessions[s].lease == Netalloc.Nth(c.block, s)
    && SessOk(st.sh.sessions[s], PartsOf(st.threads, s), multiset(st.sh.pool.ready)[s],
              c.block.network + 2 + s in st.sh.net.inUse)
  }

  ghost predicate ThreadPlaced(sh: Shared, pc: Pc) {
    OnSession(pc) ==>
      if pc.s < |sh.sessions| then ThreadOk(sh.sessions[pc.s], pc)
      else pc.HDestroy? || (pc.Kill? && pc.c.Direct?)
  }

  ghost predicate NetOk(c: Config, sh: Shared) {
    Netalloc.Valid(sh.net) && sh.net.base == c.block && |sh.sessions| == sh.net.tapIdx
  }

  /** `builds` goroutines build for the pool, `pokes` are between a pop and its token. */
  ghost predicate PoolOk(pool: WarmPool.State, builds: nat, pokes: nat, sessions: nat) {
    && WarmPool.Balanced(pool) && pool.building == builds && pool.owed == pokes
    && (forall i :: 0 <= i < |pool.ready| ==> pool.ready[i] < sessions)
  }

  ghost predicate ThreadsOk(st: State) {
    forall t :: 0 <= t < |st.threads| ==> ThreadPlaced(st.sh, st.threads[t])
  }

  ghost predicate SessionsOk(c: Config, st: State) {
    forall s :: 0 <= s < |st.sh.sessions| ==> SessionOk(c, st, s)
  }

  ghost predicate PoolCounted(st: State) {
    PoolOk(st.sh.pool, Num(st.threads, Builds), Num(st.threads, Pokes), |st.sh.sessions|)
  }

  ghost predicate Inv(c: Config, st: State) {
    NetOk(c, st.sh) && PoolCounted(st) && ThreadsOk(st) && SessionsOk(c, st)
  }

  // --- one goroutine's step on its session ---

  /** How a step changes the number of goroutines playing `r`. */
  function Change(pc: Pc, pc': Pc, spawn: Option<Pc>, r: Role): int {
    Bit(Plays(pc', r)) + Bit(spawn.Some? && Plays(spawn.value, r)) - Bit(Plays(pc, r))
  }

  /** Where a teardown stands: the next action is the one its position calls for. */
  lemma TearPosition(x: Sess, pc: Pc)
    requires pc.Tear? && ThreadOk(x, pc)
    ensures |x.acted| + |pc.acts| == 5 && pc.acts[0] == TEARDOWN[|x.acted|]
    ensures (x.acted + [pc.acts[0]]) + pc.acts[1..] == TEARDOWN
    ensures |pc.acts| == 1 ==> x.acted + [pc.acts[0]] == TEARDOWN
  {
    assert (x.acted + pc.acts)[|x.acted|] == pc.acts[0];
    assert x.acted + pc.acts == (x.acted + [pc.acts[0]]) + pc.acts[1..];
  }

  /** Where a step leaves its goroutine and the one it starts. */
  ghost predicate LeftWell(pc: Pc, l: Local)
    requires OnSession(pc)
  {
    && (OnSession(l.pc) ==> l.pc.s == pc.s && ThreadOk(l.x, l.pc))
    && (l.spawn.Some? ==> OnSession(l.spawn.value) && l.spawn.value.s == pc.s && ThreadOk(l.x, l.spawn.value))
  }

  lemma PlaceThread(x: Sess, pc: Pc, full: bool)
    requires IsPlacing(pc) && ThreadOk(x, pc)
    ensures LeftWell(pc, Place(x, pc, full))
  {
  }

  lemma LaunchThread(x: Sess, pc: Pc, ok: bool)
    requires IsLaunching(pc) && CanLocal(x, pc, ok) && ThreadOk(x, pc)
    ensures LeftWell(pc, Launching(x, pc, ok))
  {
  }

  lemma LeaveThread(x: Sess, pc: Pc, hook: Option<Hook>, n: nat)
    requires OnSession(pc) && !IsPlacing(pc) && !IsLaunching(pc) && CanLocal(x, pc, false) && ThreadOk(x, pc)
    requires TearOk(x, n) && (x.m.Making? ==> x.h.Outside?)
    ensures LeftWell(pc, Leaving(x, pc, hook))
  {
    if pc.Tear? { TearPosition(x, pc); }
  }

  lemma StepThread(x: Sess, pc: Pc, ok: bool, hook: Option<Hook>, full: bool, n: nat)
    requires OnSession(pc) && CanLocal(x, pc, ok) && ThreadOk(x, pc)
    requires TearOk(x, n) && (x.m.Making? ==> x.h.Outside?)
    ensures LeftWell(pc, LocalStep(x, pc, ok, hook, full))
  {
    if IsPlacing(pc) {
      PlaceThread(x, pc, full);
    } else if IsLaunching(pc) {
      LaunchThread(x, pc, ok);
    } else {
      LeaveThread(x, pc, hook, n);
    }
  }

  lemma PlaceHands(x: Sess, pc: Pc, full: bool, n: nat, p: nat)
    requires IsPlacing(pc) && ThreadOk(x, pc) && HandsOk(x, n, p) && n >= Bit(Plays(pc, Holds(pc.s)))
    ensures var l := Place(x, pc, full); HandsOk(l.x, n + Change(pc, l.pc, l.spawn, Holds(pc.s)), p + Bit(l.fx.PoolPush?))
  {
  }

  lemma LaunchHands(x: Sess, pc: Pc, ok: bool, n: nat, p: nat)
    requires IsLaunching(pc) && CanLocal(x, pc, ok) && ThreadOk(x, pc) && HandsOk(x, n, p) && n >= Bit(Plays(pc, Holds(pc.s)))
    ensures var l := Launching(x, pc, ok); HandsOk(l.x, n + Change(pc, l.pc, l.spawn, Holds(pc.s)), p + Bit(l.fx.PoolPush?))
  {
  }

  lemma LeaveHands(x: Sess, pc: Pc, hook: Option<Hook>, n: nat, p: nat)
    requires OnSession(pc) && !IsPlacing(pc) && !IsLaunching(pc) && CanLocal(x, pc, false) && HandsOk(x, n, p)
    ensures var l := Leaving(x, pc, hook);
      && Change(pc, l.pc, l.spawn, Holds(pc.s)) == 0 && HandsOk(l.x, n, p) && !l.fx.PoolPush?
  {
  }

  lemma StepHands(x: Sess, pc: Pc, ok: bool, hook: Option<Hook>, full: bool, n: nat, p: nat)
    requires OnSession(pc) && CanLocal(x, pc, ok) && ThreadOk(x, pc)
    requires HandsOk(x, n, p) && n >= Bit(Plays(pc, Holds(pc.s)))
    ensures var l := LocalStep(x, pc, ok, hook, full);
      HandsOk(l.x, n + Change(pc, l.pc, l.spawn, Holds(pc.s)), p + Bit(l.fx.PoolPush?))
  {
    if IsPlacing(pc) {
      PlaceHands(x, pc, full, n, p);
    } else if IsLaunching(pc) {
      LaunchHands(x, pc, ok, n, p);
    } else {
      LeaveHands(x, pc, hook, n, p);
    }
  }

  lemma StepTear(x: Sess, pc: Pc, ok: bool, hook: Option<Hook>, full: bool, n: nat)
    requires OnSession(pc) && CanLocal(x, pc, ok) && ThreadOk(x, pc)
    requires TearOk(x, n) && n >= Bit(Plays(pc, Tears(pc.s)))
    ensures var l := LocalStep(x, pc, ok, hook, full);
      TearOk(l.x, n + Change(pc, l.pc, l.spawn, Tears(pc.s)))
  {
    if pc.Tear? { TearPosition(x, pc); }
  }

  lemma StepDone(x: Sess, pc: Pc, ok: bool, hook: Option<Hook>, full: bool)
    requires OnSession(pc) && CanLocal(x, pc, ok) && ThreadOk(x, pc)
    requires DoneOk(x)
    ensures DoneOk(LocalStep(x, pc, ok, hook, full).x)
  {
    if pc.Tear? { TearPosition(x, pc); }
  }

  lemma StepWatch(x: Sess, pc: Pc, ok: bool, hook: Option<Hook>, full: bool, n: nat)
    requires OnSession(pc) && CanLocal(x, pc, ok) && ThreadOk(x, pc)
    requires WatchOk(x, n) && n >= Bit(Plays(pc, Watches(pc.s)))
    ensures var l := LocalStep(x, pc, ok, hook, full);
      WatchOk(l.x, n + Change(pc, l.pc, l.spawn, Watches(pc.s)))
  {
  }

  lemma PlaceHook(x: Sess, pc: Pc, full: bool, n: nat, holders: nat, p: nat)
    requires IsPlacing(pc) && ThreadOk(x, pc) && HandsOk(x, holders, p) && holders >= Bit(Plays(pc, Holds(pc.s))) && HookOk(x, n)
    ensures var l := Place(x, pc, full);
      n + Change(pc, l.pc, l.spawn, Fires(pc.s)) >= 0 && HookOk(l.x, n + Change(pc, l.pc, l.spawn, Fires(pc.s)))
  {
  }

  lemma LaunchHook(x: Sess, pc: Pc, ok: bool, n: nat)
    requires IsLaunching(pc) && CanLocal(x, pc, ok) && HookOk(x, n)
    ensures var l := Launching(x, pc, ok);
      n + Change(pc, l.pc, l.spawn, Fires(pc.s)) >= 0 && HookOk(l.x, n + Change(pc, l.pc, l.spawn, Fires(pc.s)))
  {
  }

  lemma LeaveHook(x: Sess, pc: Pc, hook: Option<Hook>, n: nat)
    requires OnSession(pc) && !IsPlacing(pc) && !IsLaunching(pc) && CanLocal(x, pc, false) && ThreadOk(x, pc)
    requires HookOk(x, n) && n >= Bit(Plays(pc, Fires(pc.s)))
    ensures var l := Leaving(x, pc, hook);
      n + Change(pc, l.pc, l.spawn, Fires(pc.s)) >= 0 && HookOk(l.x, n + Change(pc, l.pc, l.spawn, Fires(pc.s)))
  {
  }

  lemma StepHook(x: Sess, pc: Pc, ok: bool, hook: Option<Hook>, full: bool, n: nat, holders: nat, p: nat)
    requires OnSession(pc) && CanLocal(x, pc, ok) && ThreadOk(x, pc)
    requires HandsOk(x, holders, p) && holders >= Bit(Plays(pc, Holds(pc.s)))
    requires HookOk(x, n) && n >= Bit(Plays(pc, Fires(pc.s)))
    ensures var l := LocalStep(x, pc, ok, hook, full);
      HookOk(l.x, n + Change(pc, l.pc, l.spawn, Fires(pc.s)))
  {
    if IsPlacing(pc) {
      PlaceHook(x, pc, full, n, holders, p);
    } else if IsLaunching(pc) {
      LaunchHook(x, pc, ok, n);
    } else {
      LeaveHook(x, pc, hook, n);
    }
  }

  lemma StepAddress(x: Sess, pc: Pc, ok: bool, hook: Option<Hook>, full: bool, n: nat, used: bool)
    requires OnSession(pc) && CanLocal(x, pc, ok) && ThreadOk(x, pc)
    requires AddressOk(x, n, used) && n >= Bit(Plays(pc, Owns(pc.s)))
    ensures var l := LocalStep(x, pc, ok, hook, full);
      AddressOk(l.x, n + Change(pc, l.pc, l.spawn, Owns(pc.s)), used && !l.fx.FreeAddress?)
  {
    if pc.Tear? { TearPosition(x, pc); }
  }

  lemma StepLive(x: Sess, pc: Pc, ok: bool, hook: Option<Hook>, full: bool, n: nat, p: nat, d: nat)
    requires OnSession(pc) && CanLocal(x, pc, ok) && ThreadOk(x, pc) && DoneOk(x)
    requires LiveOk(x, n, p, d) && n >= Bit(Plays(pc, Holds(pc.s))) && d >= Bit(Plays(pc, Dooms(pc.s)))
    ensures var l := LocalStep(x, pc, ok, hook, full);
      LiveOk(l.x, n + Change(pc, l.pc, l.spawn, Holds(pc.s)), p + Bit(l.fx.PoolPush?),
             d + Change(pc, l.pc, l.spawn, Dooms(pc.s)))
  {
  }

  function Moved(n: Parts, pc: Pc, pc': Pc, spawn: Option<Pc>, s: Sid): (r: Parts)
    requires n.holds >= Bit(Plays(pc, Holds(s))) && n.watches >= Bit(Plays(pc, Watches(s)))
    requires n.tears >= Bit(Plays(pc, Tears(s))) && n.fires >= Bit(Plays(pc, Fires(s)))
    requires n.owns >= Bit(Plays(pc, Owns(s))) && n.dooms >= Bit(Plays(pc, Dooms(s)))
  {
    Parts(n.holds + Change(pc, pc', spawn, Holds(s)), n.watches + Change(pc, pc', spawn, Watches(s)),
          n.tears + Change(pc, pc', spawn, Tears(s)), n.fires + Change(pc, pc', spawn, Fires(s)),
          n.owns + Change(pc, pc', spawn, Owns(s)), n.dooms + Change(pc, pc', spawn, Dooms(s)))
  }

  ghost predicate Includes(n: Parts, pc: Pc, s: Sid) {
    && n.holds >= Bit(Plays(pc, Holds(s))) && n.watches >= Bit(Plays(pc, Watches(s)))
    && n.tears >= Bit(Plays(pc, Tears(s))) && n.fires >= Bit(Plays(pc, Fires(s)))
    && n.owns >= Bit(Plays(pc, Owns(s))) && n.dooms >= Bit(Plays(pc, Dooms(s)))
  }

  /** A step keeps every clause for the session it is on. */
  lemma StepSess(x: Sess, pc: Pc, ok: bool, hook: Option<Hook>, full: bool, n: Parts, p: nat, used: bool)
    requires OnSession(pc) && CanLocal(x, pc, ok) && ThreadOk(x, pc)
    requires SessOk(x, n, p, used) && Includes(n, pc, pc.s)
    ensures var l := LocalStep(x, pc, ok, hook, full);
      SessOk(l.x, Moved(n, pc, l.pc, l.spawn, pc.s), p + Bit(l.fx.PoolPush?), used && !l.fx.FreeAddress?)
  {
    StepHands(x, pc, ok, hook, full, n.holds, p);
    StepTear(x, pc, ok, hook, full, n.tears);
    StepDone(x, pc, ok, hook, full);
    StepWatch(x, pc, ok, hook, full, n.watches);
    StepHook(x, pc, ok, hook, full, n.fires, n.holds, p);
    StepAddress(x, pc, ok, hook, full, n.owns, used);
    StepLive(x, pc, ok, hook, full, n.holds, p, n.dooms);
  }

  /** A step disturbs no other goroutine on the same session. */
  lemma StepOthers(x: Sess, pc: Pc, ok: bool, hook: Option<Hook>, full: bool, n: nat, p: nat, other: Pc)
    requires OnSession(pc) && CanLocal(x, pc, ok) && ThreadOk(x, pc)
    requires OnSession(other) && other.s == pc.s && ThreadOk(x, other)
    requires HandsOk(x, n, p) && n >= Bit(Plays(pc, Holds(pc.s)))
    requires !(Plays(pc, Tears(pc.s)) && Plays(other, Tears(pc.s)))
    requires !(Plays(pc, Owns(pc.s)) && Plays(other, Owns(pc.s)))
    ensures ThreadOk(LocalStep(x, pc, ok, hook, full).x, other)
  {
  }

  lemma StepLease(x: Sess, pc: Pc, ok: bool, hook: Option<Hook>, full: bool)
    requires CanLocal(x, pc, ok)
    ensures LocalStep(x, pc, ok, hook, full).x.lease == x.lease
  {
  }
}
