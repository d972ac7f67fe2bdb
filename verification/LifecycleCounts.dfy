/** Counting the goroutines that play a part, the arithmetic behind every life-cycle invariant. */
module LifecycleCounts {
  import opened Common
  import opened Lifecycle

  datatype Role =
    | Holds(s: Sid)       // must still hand the session on: to the Host, the pool, or back through Abort
    | Watches(s: Sid)     // is, or is about to start, the watch goroutine
    | Tears(s: Sid)       // is inside Manager.Destroy for the session
    | Fires(s: Sid)       // will call the onGone hook for the session
    | Owns(s: Sid)        // is responsible for releasing the session's address
    | Dooms(s: Sid)       // is about to enter Manager.Destroy for a session it gave up or took from Host
    | Stocks(s: Sid)      // is building the session for the warm pool
    | Reaps(s: Sid)       // is, or is about to start, the process waiter
    | Builds              // is a warm-pool build
    | Pokes               // is an AcquireWarm between its pop and its token
    | HostCall | HostPast // is in Host.Create or CreateWarm before the insert; is past the capacity check
    | MgrCall | MgrPast   // likewise for Manager.Create

  /** The goroutine is inside Launch for `o`. */
  predicate LaunchFor(pc: Pc, o: For) {
    match pc
    case MCheck(o') => o == o'
    case MAlloc(o') => o == o'
    case Failed(o') => o == o'
    case Build(_, o', _) => o == o'
    case Unbuild(_, o', _) => o == o'
    case Spawn(_, o') => o == o'
    case Wait(_, o') => o == o'
    case Kill(_, Abort(o')) => o == o'
    case Tear(_, _, Abort(o')) => o == o'
    case HInsert(_) => o == ForHost
    case Append(_) => o == ForPool
    case _ => false
  }

  /** The parts played for the session the goroutine is on. */
  predicate PlaysHere(pc: Pc, r: Role)
    requires OnSession(pc)
  {
    match r
    case Holds(_) => pc.WarmPoke? || pc.WarmInsert? || pc.Build? || pc.Spawn? || pc.Wait? || pc.HInsert? || pc.Append?
    case Watches(_) => pc.Watch? || pc.Watcher?
    case Tears(_) => pc.Tear?
    case Fires(_) =>
      || ((pc.Kill? || pc.Tear?) && pc.c.FromHost? && pc.c.fn.Some?)
      || (pc.HClose? && pc.fn.Some?) || pc.Fire?
    case Owns(_) => pc.Build? || pc.Unbuild? || (pc.Tear? && |pc.acts| >= 2)
    case Dooms(_) => pc.Kill? && (pc.c.Abort? || pc.c.FromHost?)
    case Stocks(_) => ((pc.Build? || pc.Spawn? || pc.Wait?) && pc.o == ForPool) || pc.Append?
    case Reaps(_) => pc.Spawn? || pc.Exiter? || (pc.Kill? && pc.c.Exit?)
    case _ => false
  }

  predicate Plays(pc: Pc, r: Role) {
    match r
    case Builds => LaunchFor(pc, ForPool)
    case Pokes => pc.Poke? || pc.WarmPoke?
    case HostCall => pc.Check? || pc.Warm? || pc.Poke? || pc.WarmPoke? || pc.WarmInsert? || LaunchFor(pc, ForHost)
    case HostPast => LaunchFor(pc, ForHost)
    case MgrCall => pc.MCheck? || pc.MAlloc? || pc.Build? || pc.Unbuild?
    case MgrPast => pc.MAlloc? || pc.Build? || pc.Unbuild?
    case _ => OnSession(pc) && pc.s == r.s && PlaysHere(pc, r)
  }

  function Num(threads: seq<Pc>, r: Role): nat {
    if threads == [] then 0
    else Num(threads[..|threads| - 1], r) + Bit(Plays(threads[|threads| - 1], r))
  }

  lemma NumAppend(threads: seq<Pc>, pc: Pc, r: Role)
    ensures Num(threads + [pc], r) == Num(threads, r) + Bit(Plays(pc, r))
  {
    assert (threads + [pc])[..|threads|] == threads;
  }

  lemma {:induction false} NumUpdate(threads: seq<Pc>, t: nat, pc: Pc, r: Role)
    requires t < |threads|
    ensures Num(threads[t := pc], r) == Num(threads, r) - Bit(Plays(threads[t], r)) + Bit(Plays(pc, r))
  {
    var n := |threads| - 1;
    if t == n {
      assert threads[t := pc][..n] == threads[..n];
    } else {
      NumUpdate(threads[..n], t, pc, r);
      assert threads[t := pc][..n] == threads[..n][t := pc];
    }
  }

  lemma {:induction false} NumPair(threads: seq<Pc>, t: nat, u: nat, r: Role)
    requires t < u < |threads| && Plays(threads[t], r) && Plays(threads[u], r)
    ensures Num(threads, r) >= 2
  {
    var n := |threads| - 1;
    if u < n {
      NumPair(threads[..n], t, u, r);
    } else {
      NumOne(threads[..n], t, r);
    }
  }

  lemma {:induction false} NumOne(threads: seq<Pc>, t: nat, r: Role)
    requires t < |threads| && Plays(threads[t], r)
    ensures Num(threads, r) >= 1
  {
    var n := |threads| - 1;
    if t < n { NumOne(threads[..n], t, r); }
  }

  lemma {:induction false} NumNone(threads: seq<Pc>, r: Role)
    requires forall t :: 0 <= t < |threads| ==> !Plays(threads[t], r)
    ensures Num(threads, r) == 0
  {
    var n := |threads| - 1;
    if n >= 0 { NumNone(threads[..n], r); }
  }

  /** Every player of `r` plays `q`, and one thread plays only `q`: strictly more play `q`. */
  lemma {:induction false} NumMore(threads: seq<Pc>, r: Role, q: Role, t: nat)
    requires forall pc :: Plays(pc, r) ==> Plays(pc, q)
    ensures Num(threads, r) <= Num(threads, q)
    ensures t < |threads| && Plays(threads[t], q) && !Plays(threads[t], r) ==> Num(threads, r) < Num(threads, q)
  {
    var n := |threads| - 1;
    if n >= 0 { NumMore(threads[..n], r, q, t); }
  }
}
