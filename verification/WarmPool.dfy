/**
 The warm pool (control-plane/internal/session/warmpool.go).

 `State` holds the pool's fields (`ready`, the tokens queued in the `replenish` channel, the loop
 goroutine) and the running totals that the accounting theorem talks about. `Pool` is the mutable
 object; each of its methods is one uninterrupted region of the source.
 */
module WarmPool {
  import opened Common

  datatype State = State(
    target: nat,
    ready: seq<nat>,     // pre-booted sessions, oldest first
    queue: nat,          // tokens in the replenish channel, capacity 2 * target
    held: bool,          // the loop has received a token and not yet compared `ready` with `target`
    looping: bool,       // the loop goroutine has not returned
    building: int,       // buildOne goroutines not yet finished
    owed: int,           // AcquireWarm calls between their pop and their token send
    // totals since Start
    seeded: nat, misses: nat, skipped: nat, failed: nat, lost: nat)

  function New(target: int): State {
    State(if target <= 0 then 2 else target, [], 0, false, true, 0, 0, 0, 0, 0, 0, 0)
  }

  /** A non-blocking send on the replenish channel: queued, or lost when the channel is full. */
  function Send(p: State): State {
    if p.queue < 2 * p.target then p.(queue := p.queue + 1) else p.(lost := p.lost + 1)
  }

  function Seed(p: State): State {
    Send(p.(seeded := p.seeded + 1))
  }

  /** AcquireWarm under the lock. */
  function Pop(p: State): (r: (State, Option<nat>)) {
    if p.ready == [] then (p.(misses := p.misses + 1, owed := p.owed + 1), None)
    else (p.(ready := p.ready[1..], owed := p.owed + 1), Some(p.ready[0]))
  }

  /** AcquireWarm after the lock: the refill token. */
  function Poke(p: State): State {
    Send(p.(owed := p.owed - 1))
  }

  function Take(p: State): State
    requires p.queue > 0
  {
    p.(queue := p.queue - 1, held := true)
  }

  predicate Full(p: State) {
    |p.ready| >= p.target
  }

  function Skip(p: State): State {
    p.(held := false, skipped := p.skipped + 1)
  }

  function Build(p: State): State {
    p.(held := false, building := p.building + 1)
  }

  function BuildFailed(p: State): State {
    p.(building := p.building - 1, failed := p.failed + 1)
  }

  function BuildDone(p: State, s: nat): State {
    p.(building := p.building - 1, ready := p.ready + [s])
  }

  /** Where every token ever sent is now, or what it turned into. */
  function Accounted(p: State): int {
    p.queue + Bit(p.held) + p.skipped + p.building + p.failed + |p.ready| + p.owed + p.lost
  }

  /** Conservation of tokens: none is created except by seeding and by misses. */
  ghost predicate Balanced(p: State) {
    && p.seeded <= p.target
    && p.queue <= 2 * p.target
    && p.building >= 0 && p.owed >= 0
    && Accounted(p) == p.seeded + p.misses
  }

  lemma NewBalanced(target: int)
    ensures Balanced(New(target))
  {
  }

  lemma SendBalanced(p: State)
    requires Balanced(p) && p.owed > 0
    ensures Balanced(Poke(p))
  {
  }

  lemma PopBalanced(p: State)
    requires Balanced(p)
    ensures Balanced(Pop(p).0)
  {
  }

  lemma TokenBalanced(p: State)
    requires Balanced(p)
    ensures p.seeded < p.target ==> Balanced(Seed(p))
    ensures p.queue > 0 && !p.held ==> Balanced(Take(p))
    ensures p.held ==> Balanced(Skip(p)) && Balanced(Build(p))
  {
  }

  lemma BuildBalanced(p: State, s: nat)
    requires Balanced(p) && p.building > 0
    ensures Balanced(BuildFailed(p)) && Balanced(BuildDone(p, s))
  {
  }

  /** The accounting theorem's reading: the pool never works on more VMs than its target plus the misses. */
  lemma BalancedBound(p: State)
    requires Balanced(p)
    ensures p.queue + p.skipped + p.building + p.failed + |p.ready| <= p.target + p.misses
    ensures p.misses == 0 ==> |p.ready| + p.building <= p.target
  {
  }

  class Pool {
    const target: nat
    var ready: seq<nat>
    var queue: nat
    var held: bool
    var looping: bool
    ghost var building: int
    ghost var owed: int
    ghost var seeded: nat
    ghost var misses: nat
    ghost var skipped: nat
    ghost var failed: nat
    ghost var lost: nat

    ghost function View(): State
      reads this
    {
      State(target, ready, queue, held, looping, building, owed, seeded, misses, skipped, failed, lost)
    }

    constructor (t: int)
      ensures View() == New(t) && Balanced(View()) && target == (if t <= 0 then 2 else t) && ready == []
    {
      target := if t <= 0 then 2 else t;
      ready, queue, held, looping := [], 0, false, true;
      building, owed, seeded, misses, skipped, failed, lost := 0, 0, 0, 0, 0, 0, 0;
    }

    method TrySend()
      modifies this`queue, this`lost
      ensures View() == Send(old(View()))
      ensures queue == if old(queue) < 2 * target then old(queue) + 1 else old(queue)
    {
      if queue < 2 * target {
        queue := queue + 1;
      } else {
        lost := lost + 1;
      }
    }

    /** Start's seeding loop, when nothing else runs meanwhile: the pool begins with `target` tokens. */
    method SeedAll()
      requires View() == New(target)
      modifies this`queue, this`lost, this`seeded
      ensures Balanced(View()) && queue == seeded == target && lost == 0
      ensures View() == New(target).(queue := target, seeded := target)
    {
      for i := 0 to target
        invariant View() == New(target).(queue := i, seeded := i)
      {
        seeded := seeded + 1;
        TrySend();
      }
    }

    /** AcquireWarm's locked region. */
    method PopReady() returns (s: Option<nat>)
      modifies this`ready, this`owed, this`misses
      ensures (View(), s) == Pop(old(View()))
      ensures old(ready) == (if s.Some? then [s.value] else []) + ready && (s.None? ==> ready == [])
    {
      owed := owed + 1;
      if ready == [] {
        misses := misses + 1;
        s := None;
      } else {
        s := Some(ready[0]);
        ready := ready[1..];
      }
    }

    /** The whole of AcquireWarm: the pop, then the refill token. */
    method AcquireWarm() returns (s: Option<nat>)
      requires Balanced(View())
      modifies this`ready, this`queue, this`owed, this`misses, this`lost
      ensures s == Pop(old(View())).1
      ensures old(ready) == (if s.Some? then [s.value] else []) + ready && (s.None? ==> ready == [])
      ensures View() == Poke(Pop(old(View())).0)
      ensures Balanced(View())
    {
      PopBalanced(View());
      s := PopReady();
      SendBalanced(View());
      owed := owed - 1;
      TrySend();
    }

    /** One round of the loop goroutine: receive a token, then start a build unless the pool is full. */
    method LoopRound() returns (start: bool)
      requires Balanced(View()) && queue > 0 && !held
      modifies this`queue, this`held, this`building, this`skipped
      ensures Balanced(View())
      ensures start <==> |old(ready)| < target
      ensures View() == if start then Build(Take(old(View()))) else Skip(Take(old(View())))
    {
      queue, held := queue - 1, true;
      var have := |ready|;
      held := false;
      start := have < target;
      if start {
        building := building + 1;
      } else {
        skipped := skipped + 1;
      }
    }
  }
}
