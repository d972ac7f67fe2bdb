/**
 The capacity limits. Host.Create and Manager.Create release the lock between the check and the
 insert, so overlapping calls can overshoot the limit; this module bounds by how much.
 */
module LifecycleCapacity {
  import opened Common
  import opened Lifecycle
  import opened LifecycleCounts
  import opened LifecycleInvariant
  import opened LifecycleSafety

  lemma {:induction false} LenUpdate(ss: seq<Sess>, s: nat, x: Sess)
    requires s < |ss|
    ensures HostLen(ss[s := x]) == HostLen(ss) - Bit(ss[s].h.Inside?) + Bit(x.h.Inside?)
    ensures MgrLen(ss[s := x]) == MgrLen(ss) - Bit(ss[s].m.Live?) + Bit(x.m.Live?)
  {
    var n := |ss| - 1;
    if s == n {
      assert ss[s := x][..n] == ss[..n];
    } else {
      LenUpdate(ss[..n], s, x);
      assert ss[s := x][..n] == ss[..n][s := x];
    }
  }

  lemma LenAppend(ss: seq<Sess>, x: Sess)
    ensures HostLen(ss + [x]) == HostLen(ss) + Bit(x.h.Inside?)
    ensures MgrLen(ss + [x]) == MgrLen(ss) + Bit(x.m.Live?)
  {
    assert (ss + [x])[..|ss|] == ss;
  }

  /** HostLen is the size of the Host's map. */
  lemma {:induction false} HostLenIsSize(ss: seq<Sess>)
    ensures HostLen(ss) == |set s | 0 <= s < |ss| && ss[s].h.Inside?|
  {
    var n := |ss| - 1;
    if n >= 0 {
      HostLenIsSize(ss[..n]);
      var keys := set s | 0 <= s < |ss[..n]| && ss[..n][s].h.Inside?;
      var all := set s | 0 <= s < |ss| && ss[s].h.Inside?;
      assert n !in keys;
      if ss[n].h.Inside? { assert all == keys + {n}; } else { assert all == keys; }
    }
  }

  /** MgrLen is the size of the Manager's map. */
  lemma {:induction false} MgrLenIsSize(ss: seq<Sess>)
    ensures MgrLen(ss) == |set s | 0 <= s < |ss| && ss[s].m.Live?|
  {
    var n := |ss| - 1;
    if n >= 0 {
      MgrLenIsSize(ss[..n]);
      var keys := set s | 0 <= s < |ss[..n]| && ss[..n][s].m.Live?;
      var all := set s | 0 <= s < |ss| && ss[s].m.Live?;
      assert n !in keys;
      if ss[n].m.Live? { assert all == keys + {n}; } else { assert all == keys; }
    }
  }

  /** A step on a session adds to Host.sessions only what it takes from the calls past the check. */
  lemma LocalHostLen(x: Sess, pc: Pc, ok: bool, hook: Option<Hook>, full: bool)
    requires OnSession(pc) && CanLocal(x, pc, ok)
    ensures var l := LocalStep(x, pc, ok, hook, full);
      if pc.WarmInsert? then Bit(l.x.h.Inside?) <= Bit(x.h.Inside?) + Bit(!full) && Change(pc, l.pc, l.spawn, HostPast) == 0
      else Bit(l.x.h.Inside?) + Change(pc, l.pc, l.spawn, HostPast) <= Bit(x.h.Inside?)
  {
  }

  lemma LaunchMgrLen(x: Sess, pc: Pc, ok: bool)
    requires IsLaunching(pc) && CanLocal(x, pc, ok)
    ensures var l := Launching(x, pc, ok);
      Bit(l.x.m.Live?) + Change(pc, l.pc, l.spawn, MgrPast) <= Bit(x.m.Live?)
  {
  }

  lemma LeaveMgrLen(x: Sess, pc: Pc, hook: Option<Hook>)
    requires OnSession(pc) && !IsLaunching(pc) && !IsPlacing(pc) && CanLocal(x, pc, false)
    ensures var l := Leaving(x, pc, hook);
      Bit(l.x.m.Live?) + Change(pc, l.pc, l.spawn, MgrPast) <= Bit(x.m.Live?)
  {
  }

  lemma LocalMgrLen(x: Sess, pc: Pc, ok: bool, hook: Option<Hook>, full: bool)
    requires OnSession(pc) && CanLocal(x, pc, ok)
    ensures var l := LocalStep(x, pc, ok, hook, full);
      Bit(l.x.m.Live?) + Change(pc, l.pc, l.spawn, MgrPast) <= Bit(x.m.Live?)
  {
    if IsLaunching(pc) {
      LaunchMgrLen(x, pc, ok);
    } else if !IsPlacing(pc) {
      LeaveMgrLen(x, pc, hook);
    }
  }

  ghost predicate HostBound(c: Config, k: nat, st: State) {
    HostLen(st.sh.sessions) + Num(st.threads, HostPast) <= MaxLive(c) - 1 + k
  }

  ghost predicate MgrBound(c: Config, k: nat, st: State) {
    MgrLen(st.sh.sessions) + Num(st.threads, MgrPast) <= Max(0, c.maxConcurrent - 1 + k)
  }

  lemma TakenHost(c: Config, st: State, t: nat, l: Local, k: nat)
    requires t < |st.threads| && OnSession(st.threads[t]) && st.threads[t].s < |st.sh.sessions|
    requires HostBound(c, k, st) && Num(st.threads, HostCall) <= k
    requires var pc := st.threads[t]; var x := st.sh.sessions[pc.s];
      if pc.WarmInsert? then
        && Bit(l.x.h.Inside?) <= Bit(x.h.Inside?) + Bit(HostLen(st.sh.sessions) < MaxLive(c))
        && Change(pc, l.pc, l.spawn, HostPast) == 0
      else Bit(l.x.h.Inside?) + Change(pc, l.pc, l.spawn, HostPast) <= Bit(x.h.Inside?)
    ensures HostBound(c, k, Taken(st, t, l))
  {
    LenUpdate(st.sh.sessions, st.threads[t].s, l.x);
    NumWith(st.threads, t, l.pc, l.spawn, HostPast);
    NumMore(st.threads, HostPast, HostCall, t);
  }

  lemma TakenMgr(c: Config, st: State, t: nat, l: Local, k: nat)
    requires t < |st.threads| && OnSession(st.threads[t]) && st.threads[t].s < |st.sh.sessions|
    requires MgrBound(c, k, st)
    requires Bit(l.x.m.Live?) + Change(st.threads[t], l.pc, l.spawn, MgrPast) <= Bit(st.sh.sessions[st.threads[t].s].m.Live?)
    ensures MgrBound(c, k, Taken(st, t, l))
  {
    LenUpdate(st.sh.sessions, st.threads[t].s, l.x);
    NumWith(st.threads, t, l.pc, l.spawn, MgrPast);
  }

  /** The step from `st` to `st'` keeps both bounds, given at most `k` calls in progress. */
  ghost predicate Kept(c: Config, k: nat, st: State, st': State) {
    && (HostBound(c, k, st) && Num(st.threads, HostCall) <= k && Num(st'.threads, HostCall) <= k ==> HostBound(c, k, st'))
    && (MgrBound(c, k, st) && Num(st'.threads, MgrCall) <= k ==> MgrBound(c, k, st'))
  }

  lemma SessionBounds(c: Config, st: State, t: nat, ok: bool, k: nat)
    requires t < |st.threads| && OnSession(st.threads[t]) && st.threads[t].s < |st.sh.sessions|
    requires CanLocal(st.sh.sessions[st.threads[t].s], st.threads[t], ok)
    ensures Kept(c, k, st, Taken(st, t, LocalAt(c, st, t, ok)))
  {
    var pc := st.threads[t];
    LocalHostLen(st.sh.sessions[pc.s], pc, ok, st.sh.hook, HostLen(st.sh.sessions) >= MaxLive(c));
    LocalMgrLen(st.sh.sessions[pc.s], pc, ok, st.sh.hook, HostLen(st.sh.sessions) >= MaxLive(c));
    if HostBound(c, k, st) && Num(st.threads, HostCall) <= k { TakenHost(c, st, t, LocalAt(c, st, t, ok), k); }
    if MgrBound(c, k, st) { TakenMgr(c, st, t, LocalAt(c, st, t, ok), k); }
  }

  /** The lengths do not change in a step on no session: a new session is in neither map. */
  lemma FreeLens(c: Config, sh: Shared, pc: Pc)
    requires !OnSession(pc) && CanStep(sh, pc, false)
    ensures var o := StepFree(c, sh, pc);
      HostLen(o.sh.sessions) == HostLen(sh.sessions) && MgrLen(o.sh.sessions) == MgrLen(sh.sessions)
  {
    var o := StepFree(c, sh, pc);
    if |o.sh.sessions| > |sh.sessions| { LenAppend(sh.sessions, o.sh.sessions[|sh.sessions|]); }
  }

  /** A call passes a check only below the limit. */
  lemma FreeChange(c: Config, sh: Shared, pc: Pc)
    requires !OnSession(pc) && CanStep(sh, pc, false)
    ensures var o := StepFree(c, sh, pc);
      && o.spawn.None?
      && Change(pc, o.pc, None, HostPast) <= Bit(HostLen(sh.sessions) < MaxLive(c))
      && Change(pc, o.pc, None, MgrPast) <= Bit(MgrLen(sh.sessions) < c.maxConcurrent)
  {
  }

  lemma FreeHost(c: Config, st: State, t: nat, sh': Shared, pc': Pc, k: nat)
    requires t < |st.threads| && HostLen(sh'.sessions) == HostLen(st.sh.sessions) && HostBound(c, k, st)
    requires Change(st.threads[t], pc', None, HostPast) <= Bit(HostLen(st.sh.sessions) < MaxLive(c))
    requires Num(st.threads[t := pc'], HostCall) <= k
    ensures HostBound(c, k, State(sh', st.threads[t := pc']))
  {
    NumWith(st.threads, t, pc', None, HostPast);
    NumMore(st.threads[t := pc'], HostPast, HostCall, 0);
  }

  lemma FreeMgr(c: Config, st: State, t: nat, sh': Shared, pc': Pc, k: nat)
    requires t < |st.threads| && MgrLen(sh'.sessions) == MgrLen(st.sh.sessions) && MgrBound(c, k, st)
    requires Change(st.threads[t], pc', None, MgrPast) <= Bit(MgrLen(st.sh.sessions) < c.maxConcurrent)
    requires Num(st.threads[t := pc'], MgrCall) <= k
    ensures MgrBound(c, k, State(sh', st.threads[t := pc']))
  {
    NumWith(st.threads, t, pc', None, MgrPast);
    NumMore(st.threads[t := pc'], MgrPast, MgrCall, 0);
  }

  lemma FreeBounds(c: Config, st: State, t: nat, sh': Shared, pc': Pc, k: nat)
    requires t < |st.threads|
    requires HostLen(sh'.sessions) == HostLen(st.sh.sessions) && MgrLen(sh'.sessions) == MgrLen(st.sh.sessions)
    requires Change(st.threads[t], pc', None, HostPast) <= Bit(HostLen(st.sh.sessions) < MaxLive(c))
    requires Change(st.threads[t], pc', None, MgrPast) <= Bit(MgrLen(st.sh.sessions) < c.maxConcurrent)
    ensures Kept(c, k, st, State(sh', st.threads[t := pc']))
  {
    var threads' := st.threads[t := pc'];
    if HostBound(c, k, st) && Num(threads', HostCall) <= k { FreeHost(c, st, t, sh', pc', k); }
    if MgrBound(c, k, st) && Num(threads', MgrCall) <= k { FreeMgr(c, st, t, sh', pc', k); }
  }

  lemma {:induction false} SameLens(before: seq<Sess>, after: seq<Sess>)
    requires SameButReady(before, after)
    ensures HostLen(after) == HostLen(before) && MgrLen(after) == MgrLen(before)
  {
    if before != [] { SameLens(before[..|before| - 1], after[..|after| - 1]); }
  }

  lemma ArrivePast(threads: seq<Pc>, spawn: Option<Pc>)
    requires spawn.Some? ==> Beginning(spawn.value)
    ensures Num(With(threads, spawn), HostPast) == Num(threads, HostPast)
    ensures Num(With(threads, spawn), MgrPast) == Num(threads, MgrPast)
  {
    if spawn.Some? {
      NumAppend(threads, spawn.value, HostPast);
      NumAppend(threads, spawn.value, MgrPast);
    }
  }

  lemma ArriveBounds(c: Config, st: State, sh': Shared, spawn: Option<Pc>, k: nat)
    requires SameButReady(st.sh.sessions, sh'.sessions) && (spawn.Some? ==> Beginning(spawn.value))
    ensures Kept(c, k, st, State(sh', With(st.threads, spawn)))
  {
    SameLens(st.sh.sessions, sh'.sessions);
    ArrivePast(st.threads, spawn);
  }

  lemma FreeRunBounds(c: Config, st: State, t: nat, k: nat)
    requires t < |st.threads| && !OnSession(st.threads[t]) && CanStep(st.sh, st.threads[t], false)
    ensures var o := StepFree(c, st.sh, st.threads[t]);
      Kept(c, k, st, State(o.sh, With(st.threads[t := o.pc], o.spawn)))
  {
    FreeLens(c, st.sh, st.threads[t]);
    FreeChange(c, st.sh, st.threads[t]);
    var o := StepFree(c, st.sh, st.threads[t]);
    FreeBounds(c, st, t, o.sh, o.pc, k);
  }

  lemma EndBounds(c: Config, st: State, t: nat, k: nat)
    requires t < |st.threads|
    ensures Kept(c, k, st, State(st.sh, st.threads[t := Ended]))
  {
    NumWith(st.threads, t, Ended, None, HostPast);
    NumWith(st.threads, t, Ended, None, MgrPast);
  }

  lemma RunBounds(c: Config, st: State, t: nat, ok: bool, k: nat)
    requires Enabled(st, Run(t, ok))
    ensures Kept(c, k, st, Apply(c, st, Run(t, ok)))
  {
    if !OnSession(st.threads[t]) {
      FreeRunBounds(c, st, t, k);
    } else if st.threads[t].s < |st.sh.sessions| {
      SessionBounds(c, st, t, ok, k);
    } else {
      EndBounds(c, st, t, k);
    }
  }

  lemma StepBounds(c: Config, st: State, st': State, k: nat)
    requires Follows(c, st, st')
    ensures Kept(c, k, st, st')
  {
    var e :| Enabled(st, e) && st' == Apply(c, st, e);
    if e.Run? {
      RunBounds(c, st, e.t, e.ok, k);
    } else {
      ArriveShape(st, e);
      ArriveBounds(c, st, Arrive(st.sh, e).0, Arrive(st.sh, e).1, k);
    }
  }

  /**
   The Host's limit. If at no moment of the run more than `k` calls of Create and CreateWarm are before
   their insert, the live sessions plus the calls past the check never exceed the limit by more than k - 1.
   */
  lemma {:induction false} HostOvershoot(c: Config, trace: seq<State>, i: nat, k: nat)
    requires IsRun(c, trace) && i < |trace|
    requires forall j :: 0 <= j <= i ==> Num(trace[j].threads, HostCall) <= k
    ensures HostLen(trace[i].sh.sessions) + Num(trace[i].threads, HostPast) <= MaxLive(c) - 1 + k
  {
    if i > 0 {
      HostOvershoot(c, trace, i - 1, k);
      assert FollowsAt(c, trace, i);
      StepBounds(c, trace[i - 1], trace[i], k);
    }
  }

  /** The Manager's limit, likewise. */
  lemma {:induction false} MgrOvershoot(c: Config, trace: seq<State>, i: nat, k: nat)
    requires IsRun(c, trace) && i < |trace|
    requires forall j :: 0 <= j <= i ==> Num(trace[j].threads, MgrCall) <= k
    ensures MgrLen(trace[i].sh.sessions) + Num(trace[i].threads, MgrPast) <= Max(0, c.maxConcurrent - 1 + k)
  {
    if i > 0 {
      MgrOvershoot(c, trace, i - 1, k);
      assert FollowsAt(c, trace, i);
      StepBounds(c, trace[i - 1], trace[i], k);
    }
  }
}
