/** Whatever is under way comes to an end: from every state that a run reaches the system can come to rest. */
module LifecycleRest {
  import opened Common
  import opened Lifecycle
  import opened LifecycleCounts
  import opened LifecycleInvariant
  import opened LifecycleSafety
  import opened LifecycleTheorems

  /** How many steps a goroutine has left at most, with those it starts, when its commands fail. */
  function Rank(pc: Pc): nat {
    match pc
    case Ended => 0
    case Exiter(_) => 0
    case Fire(_, _) => 1
    case Failed(_) => 1
    case Append(_) => 1
    case Watcher(_) => 2
    case HClose(_, _) => 2
    case Watch(_) => 3
    case HInsert(_) => 4
    case WarmInsert(_) => 4
    case WarmPoke(_) => 5
    case Unbuild(_, _, undo) => 1 + |undo|
    case Tear(_, acts, _) => 3 + |acts|
    case Kill(_, _) => 9
    case HDestroy(_) => 10
    case Wait(_, _) => 10
    case Spawn(_, _) => 11
    case Build(_, _, _) => 12
    case MAlloc(_) => 13
    case MCheck(_) => 14
    case Check => 15
    case Poke => 16
    case Warm => 17
  }

  function RankOf(spawn: Option<Pc>): nat {
    if spawn.Some? then Rank(spawn.value) else 0
  }

  function Total(threads: seq<Pc>): nat {
    if threads == [] then 0 else Total(threads[..|threads| - 1]) + Rank(threads[|threads| - 1])
  }

  lemma {:induction false} TotalUpdate(threads: seq<Pc>, t: nat, pc: Pc)
    requires t < |threads|
    ensures Total(threads[t := pc]) + Rank(threads[t]) == Total(threads) + Rank(pc)
  {
    var n := |threads| - 1;
    if t == n {
      assert threads[t := pc][..n] == threads[..n];
    } else {
      TotalUpdate(threads[..n], t, pc);
      assert threads[t := pc][..n] == threads[..n][t := pc];
    }
  }

  lemma TotalWith(threads: seq<Pc>, t: nat, pc: Pc, spawn: Option<Pc>)
    requires t < |threads|
    ensures Total(With(threads[t := pc], spawn)) + Rank(threads[t]) == Total(threads) + Rank(pc) + RankOf(spawn)
  {
    TotalUpdate(threads, t, pc);
    if spawn.Some? {
      assert (threads[t := pc] + [spawn.value])[..|threads|] == threads[t := pc];
    }
  }

  /** The goroutine can take its next step now. */
  predicate Ready(sh: Shared, pc: Pc) {
    Rank(pc) > 0 && (pc.Watcher? ==> pc.s < |sh.sessions| && sh.sessions[pc.s].done)
  }

  // --- every step brings its goroutine nearer to its end ---

  lemma PlaceRanks(x: Sess, pc: Pc, full: bool)
    requires IsPlacing(pc)
    ensures var l := Place(x, pc, full); Rank(l.pc) + RankOf(l.spawn) < Rank(pc)
  {
  }

  /** Build and Wait take the way of a command that fails. */
  lemma LaunchRanks(x: Sess, pc: Pc)
    requires IsLaunching(pc) && CanLocal(x, pc, false) && ThreadOk(x, pc)
    ensures var l := Launching(x, pc, false); Rank(l.pc) + RankOf(l.spawn) < Rank(pc)
  {
  }

  lemma LeaveRanks(x: Sess, pc: Pc, hook: Option<Hook>)
    requires OnSession(pc) && !IsPlacing(pc) && !IsLaunching(pc) && Rank(pc) > 0 && CanLocal(x, pc, false)
    ensures var l := Leaving(x, pc, hook); Rank(l.pc) + RankOf(l.spawn) < Rank(pc)
  {
  }

  lemma LocalRanks(x: Sess, pc: Pc, hook: Option<Hook>, full: bool)
    requires OnSession(pc) && Rank(pc) > 0 && CanLocal(x, pc, false) && ThreadOk(x, pc)
    ensures var l := LocalStep(x, pc, false, hook, full); Rank(l.pc) + RankOf(l.spawn) < Rank(pc)
  {
    if IsPlacing(pc) {
      PlaceRanks(x, pc, full);
    } else if IsLaunching(pc) {
      LaunchRanks(x, pc);
    } else {
      LeaveRanks(x, pc, hook);
    }
  }

  lemma FreeRanks(c: Config, sh: Shared, pc: Pc)
    requires !OnSession(pc) && Rank(pc) > 0 && CanStep(sh, pc, false)
    ensures var o := StepFree(c, sh, pc); Rank(o.pc) + RankOf(o.spawn) < Rank(pc)
  {
  }

  lemma StepRanks(c: Config, sh: Shared, pc: Pc)
    requires Ready(sh, pc) && ThreadPlaced(sh, pc) && sh.net.base.Valid()
    ensures CanStep(sh, pc, false)
    ensures var o := StepOf(c, sh, pc, false); Rank(o.pc) + RankOf(o.spawn) < Rank(pc)
  {
    if !OnSession(pc) {
      FreeRanks(c, sh, pc);
    } else if pc.s < |sh.sessions| {
      LocalRanks(sh.sessions[pc.s], pc, sh.hook, HostLen(sh.sessions) >= MaxLive(c));
    }
  }

  lemma StepTotals(c: Config, st: State, t: nat, st': State)
    requires Inv(c, st) && t < |st.threads| && Ready(st.sh, st.threads[t])
    requires Enabled(st, Run(t, false)) ==> st' == Apply(c, st, Run(t, false))
    ensures Enabled(st, Run(t, false)) && Total(st'.threads) < Total(st.threads)
  {
    assert ThreadPlaced(st.sh, st.threads[t]);
    StepRanks(c, st.sh, st.threads[t]);
    var o := StepOf(c, st.sh, st.threads[t], false);
    TotalWith(st.threads, t, o.pc, o.spawn);
  }

  lemma AllQuiet(st: State)
    requires forall t :: 0 <= t < |st.threads| ==> !Ready(st.sh, st.threads[t])
    ensures Quiet(st)
  {
    forall t | 0 <= t < |st.threads|
      ensures var pc := st.threads[t]; pc.Ended? || pc.Exiter? || (pc.Watcher? && (pc.s < |st.sh.sessions| ==> !st.sh.sessions[pc.s].done))
    {
      assert !Ready(st.sh, st.threads[t]);
    }
  }

  /** State i of the trace follows by a step of a goroutine that was there, not by a new call. */
  ghost predicate OwnStep(c: Config, trace: seq<State>, i: nat)
    requires 0 < i < |trace|
  {
    exists t :: Enabled(trace[i - 1], Run(t, false)) && trace[i] == Apply(c, trace[i - 1], Run(t, false))
  }

  lemma RunOn(c: Config, trace: seq<State>, t: nat, st': State) returns (longer: seq<State>)
    requires IsRun(c, trace) && Enabled(trace[|trace| - 1], Run(t, false)) && st' == Apply(c, trace[|trace| - 1], Run(t, false))
    ensures longer == trace + [st'] && IsRun(c, longer) && OwnStep(c, longer, |trace|)
  {
    longer := trace + [st'];
    forall i | 0 < i < |longer| ensures FollowsAt(c, longer, i) {
      if i < |trace| { assert FollowsAt(c, trace, i); }
    }
  }

  function Last(trace: seq<State>): State
    requires trace != []
  {
    trace[|trace| - 1]
  }

  /** One goroutine that is ready takes its step. */
  lemma OneStepOn(c: Config, trace: seq<State>, t: nat) returns (longer: seq<State>)
    requires IsRun(c, trace) && t < |Last(trace).threads| && Ready(Last(trace).sh, Last(trace).threads[t])
    ensures IsRun(c, longer) && |longer| == |trace| + 1 && trace <= longer && OwnStep(c, longer, |trace|)
    ensures Total(Last(longer).threads) < Total(Last(trace).threads)
  {
    var st := Last(trace);
    RunKeeps(c, trace, |trace| - 1);
    var st' := if Enabled(st, Run(t, false)) then Apply(c, st, Run(t, false)) else st;
    StepTotals(c, st, t, st');
    longer := RunOn(c, trace, t, st');
  }

  /** From state n on only the goroutines that were there take steps. */
  ghost predicate OwnFrom(c: Config, trace: seq<State>, n: nat)
    requires n > 0
  {
    forall i :: n <= i < |trace| ==> OwnStep(c, trace, i)
  }

  lemma OwnBefore(c: Config, next: seq<State>, longer: seq<State>, n: nat)
    requires 0 < n && |next| == n + 1 && next <= longer && OwnStep(c, next, n) && OwnFrom(c, longer, n + 1)
    ensures OwnFrom(c, longer, n)
  {
    assert longer[n - 1] == next[n - 1] && longer[n] == next[n];
    assert OwnStep(c, longer, n);
  }

  /**
   Every run can be continued, by steps of its own goroutines alone and even if every command fails from now on, to a
   state in which nothing is left to do.
   */
  lemma {:induction false} ComesToRest(c: Config, trace: seq<State>) returns (longer: seq<State>)
    requires IsRun(c, trace)
    ensures IsRun(c, longer) && trace <= longer && Quiet(Last(longer)) && OwnFrom(c, longer, |trace|)
    decreases Total(Last(trace).threads)
  {
    var st := Last(trace);
    if t: nat :| t < |st.threads| && Ready(st.sh, st.threads[t]) {
      var next := OneStepOn(c, trace, t);
      longer := ComesToRest(c, next);
      OwnBefore(c, next, longer, |trace|);
    } else {
      AllQuiet(st);
      longer := trace;
    }
  }
}
