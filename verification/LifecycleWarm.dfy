/** How many VMs the warm pool can have ready or in the making: exactly its target and one more for each miss. */
module LifecycleWarm {
  import opened Common
  import opened Lifecycle
  import opened LifecycleTheorems
  import WarmPool

  ghost predicate Reached(c: Config, st: State) {
    exists trace :: IsRun(c, trace) && trace[|trace| - 1] == st
  }

  lemma ReachedStep(c: Config, st: State, e: Event, st': State)
    requires Reached(c, st) && Enabled(st, e) && st' == Apply(c, st, e)
    ensures Reached(c, st')
  {
    var trace :| IsRun(c, trace) && trace[|trace| - 1] == st;
    var longer := trace + [st'];
    forall i | 0 < i < |longer| ensures FollowsAt(c, longer, i) {
      if i < |trace| { assert FollowsAt(c, trace, i); }
    }
    assert IsRun(c, longer);
  }

  // --- the target never changes ---

  /** NewWarmPool replaces a non-positive target by 2. */
  function Target(c: Config): nat {
    WarmPool.New(c.warmTarget).target
  }

  lemma TargetStep(c: Config, st: State, st': State)
    requires Follows(c, st, st')
    ensures st'.sh.pool.target == st.sh.pool.target
  {
  }

  lemma {:induction false} TargetKept(c: Config, trace: seq<State>, i: nat)
    requires IsRun(c, trace) && i < |trace|
    ensures trace[i].sh.pool.target == Target(c)
  {
    if i > 0 {
      TargetKept(c, trace, i - 1);
      assert FollowsAt(c, trace, i);
      TargetStep(c, trace[i - 1], trace[i]);
    }
  }

  // --- a run that does as much as it can ---

  /** No VM is ready and no token under way; `seeded` tokens were seeded, `misses` calls found the pool empty, all are built for. */
  predicate AllBuilding(p: WarmPool.State, target: nat, seeded: nat, misses: nat) {
    && p.target == target >= 1 && p.ready == [] && p.queue == 0 && !p.held && p.looping && p.owed == 0
    && p.seeded == seeded <= target && p.misses == misses && p.building == seeded + misses
  }

  /** The loop takes the one token there is and starts a build. */
  lemma BuildOne(c: Config, st: State) returns (st': State)
    requires Reached(c, st) && st.sh.pool.queue == 1 && !st.sh.pool.held && st.sh.pool.looping
    requires st.sh.pool.ready == [] && st.sh.pool.target >= 1
    ensures Reached(c, st')
    ensures st'.sh.pool == st.sh.pool.(queue := 0, building := st.sh.pool.building + 1)
  {
    var s1 := Apply(c, st, LoopTake);
    ReachedStep(c, st, LoopTake, s1);
    st' := Apply(c, s1, LoopDecide);
    ReachedStep(c, s1, LoopDecide, st');
  }

  lemma SeedOne(c: Config, st: State, target: nat, seeded: nat) returns (st': State)
    requires Reached(c, st) && AllBuilding(st.sh.pool, target, seeded, 0) && seeded < target
    ensures Reached(c, st') && AllBuilding(st'.sh.pool, target, seeded + 1, 0)
  {
    var s1 := Apply(c, st, Seed);
    ReachedStep(c, st, Seed, s1);
    st' := BuildOne(c, s1);
  }

  /** CreateWarm finds the pool empty and sends its token. */
  lemma MissOne(c: Config, st: State) returns (st': State)
    requires Reached(c, st) && st.sh.pool.ready == [] && st.sh.pool.queue == 0 && st.sh.pool.target >= 1
    ensures Reached(c, st') && st'.sh.pool == st.sh.pool.(queue := 1, misses := st.sh.pool.misses + 1)
  {
    var t := |st.threads|;
    var s1 := Apply(c, st, CallCreateWarm);
    assert s1.threads[t] == Warm;
    ReachedStep(c, st, CallCreateWarm, s1);
    var s2 := Apply(c, s1, Run(t, true));
    assert s2.threads[t] == Poke;
    ReachedStep(c, s1, Run(t, true), s2);
    st' := Apply(c, s2, Run(t, true));
    ReachedStep(c, s2, Run(t, true), st');
  }

  lemma {:induction false} SeedMany(c: Config, seeded: nat) returns (st: State)
    requires c.block.Valid() && seeded <= Target(c)
    ensures Reached(c, st) && AllBuilding(st.sh.pool, Target(c), seeded, 0)
  {
    if seeded == 0 {
      st := Init(c);
      assert IsRun(c, [st]);
    } else {
      var before := SeedMany(c, seeded - 1);
      st := SeedOne(c, before, Target(c), seeded - 1);
    }
  }

  /** For every configuration and every number of misses the bound is attained. */
  lemma {:induction false} WorkAttained(c: Config, misses: nat) returns (st: State)
    requires c.block.Valid()
    ensures Reached(c, st) && AllBuilding(st.sh.pool, Target(c), Target(c), misses)
  {
    if misses == 0 {
      st := SeedMany(c, Target(c));
    } else {
      var before := WorkAttained(c, misses - 1);
      var missed := MissOne(c, before);
      st := BuildOne(c, missed);
    }
  }

  /** With at most `m` misses the pool never has more than `n` VMs ready or in the making. */
  ghost predicate WorkKept(c: Config, m: nat, n: nat) {
    forall st :: Reached(c, st) && st.sh.pool.misses <= m ==> |st.sh.pool.ready| + st.sh.pool.building <= n
  }

  lemma WorkWithin(c: Config, st: State)
    requires Reached(c, st)
    ensures |st.sh.pool.ready| + st.sh.pool.building <= Target(c) + st.sh.pool.misses
  {
    var trace :| IsRun(c, trace) && trace[|trace| - 1] == st;
    WarmAccounting(c, trace, |trace| - 1);
    TargetKept(c, trace, |trace| - 1);
  }

  /**
   In every configuration, the VMs ready or in the making never exceed `n` in all runs with at most `m` misses exactly
   when `n` is at least the target plus `m`. So the target itself is kept in all of them exactly when `m` is 0.
   */
  lemma WorkKeptIff(c: Config, m: nat, n: nat)
    requires c.block.Valid()
    ensures WorkKept(c, m, n) <==> Target(c) + m <= n
  {
    if Target(c) + m <= n {
      forall st | Reached(c, st) && st.sh.pool.misses <= m ensures |st.sh.pool.ready| + st.sh.pool.building <= n {
        WorkWithin(c, st);
      }
    } else {
      var st := WorkAttained(c, m);
    }
  }

  // --- stopping the pool ---

  /** The loop has returned. */
  predicate Stopped(p: WarmPool.State) {
    !p.looping && !p.held
  }

  lemma StoppedStep(c: Config, st: State, st': State)
    requires Follows(c, st, st') && Stopped(st.sh.pool)
    ensures Stopped(st'.sh.pool) && st'.sh.pool.building <= st.sh.pool.building
  {
  }

  /** Once Stop has taken effect no further build is started: the builds running only become fewer. */
  lemma {:induction false} StopIsFinal(c: Config, trace: seq<State>, i: nat, j: nat)
    requires IsRun(c, trace) && i < j < |trace| && Enabled(trace[i], LoopStop) && trace[i + 1] == Apply(c, trace[i], LoopStop)
    ensures Stopped(trace[j].sh.pool) && trace[j].sh.pool.building <= trace[i].sh.pool.building
    decreases j
  {
    if i + 1 < j {
      StopIsFinal(c, trace, i, j - 1);
      assert FollowsAt(c, trace, j);
      StoppedStep(c, trace[j - 1], trace[j]);
    }
  }
}
