/**
 The life cycle of VM sessions as a transition system: Host (host.go), Manager (manager.go), the
 managerLauncher of main.go, the warm pool's builders and every goroutine they start.

 Each region that the source runs under one lock, and each external command, is one atomic step of
 the goroutine that runs it. `threads[t]` is where goroutine or call `t` stands; a run is any
 sequence of events, so every interleaving of any number of calls is covered.
 */
module Lifecycle {
  import opened Common
  import Netalloc
  import WarmPool

  type Sid = nat
  type Hook = nat

  /** On whose behalf Launch runs: Host.Create or the warm pool's buildOne. */
  datatype For = ForHost | ForPool

  /** Manager.Create after Alloc, one constructor for each command that can fail, then the insert. */
  datatype Stage = Tap | Rand | Dir | Token | Rootfs | Launch | Insert

  datatype Undo = UndoDir | UndoTap | UndoIp

  /** Manager.Destroy after it has taken the session out of the map, in the order it acts. */
  datatype Act = Close | Stop | DeleteTap | ReleaseIp | RemoveDir

  const TEARDOWN: seq<Act> := [Close, Stop, DeleteTap, ReleaseIp, RemoveDir]

  /** Who called Manager.Destroy, hence what runs next. */
  datatype Caller =
    | Abort(o: For)                 // Launch, after the boot timeout
    | Exit                          // the goroutine that waits for the VM process
    | FromHost(fn: Option<Hook>)    // Host.Destroy, with the hook it read under the lock
    | Direct                        // Manager.Shutdown

  datatype Pc =
    | Check                                    // Host.Create: the capacity check
    | Warm                                     // Host.CreateWarm: AcquireWarm's pop
    | Poke                                     // AcquireWarm after a miss: the refill token
    | MCheck(o: For)                           // Manager.Create: the capacity check
    | MAlloc(o: For)
    | Failed(o: For)                           // Launch returned an error
    | Ended
    // the goroutine works on session s
    | WarmPoke(s: Sid)                         // AcquireWarm after a hit: the refill token
    | WarmInsert(s: Sid)                       // CreateWarm: check and insert under one lock
    | Build(s: Sid, o: For, stage: Stage)
    | Unbuild(s: Sid, o: For, undo: seq<Undo>)
    | Spawn(s: Sid, o: For)                    // in the Manager; the process waiter is not started yet
    | Wait(s: Sid, o: For)                     // Launch: WaitReady
    | HInsert(s: Sid)                          // Host.Create: launched, to be inserted
    | Watch(s: Sid)                            // inserted; watch not called yet
    | Append(s: Sid)                           // buildOne: launched, to be appended
    | Watcher(s: Sid)                          // the watch goroutine, blocked on done
    | Exiter(s: Sid)                           // the process waiter, blocked on proc.Wait
    | HDestroy(s: Sid)                         // Host.Destroy: the locked removal
    | Kill(s: Sid, c: Caller)                  // Manager.Destroy: the locked removal
    | Tear(s: Sid, acts: seq<Act>, c: Caller)  // Manager.Destroy: the actions still to do
    | HClose(s: Sid, fn: Option<Hook>)         // Host.Destroy: CloseDone after Manager.Destroy
    | Fire(s: Sid, h: Hook)                    // about to call the hook

  /** Where a session stands with the Manager: before its insert, in the map, removed from the map. */
  datatype Manned = Making | Live | Gone

  /** Where a session stands with the Host; a departure remembers the hook read under the lock. */
  datatype Hosted = Outside | Inside | Left(fn: Option<Hook>)

  /** One session: its place in the two maps, its channels, and the history of what was done to it. */
  datatype Sess = Sess(
    lease: Netalloc.Lease, m: Manned, h: Hosted,
    ready: bool, done: bool,      // closed channels
    closes: nat,                  // times the done channel was closed
    acted: seq<Act>,              // teardown actions done, in order
    fired: seq<Hook>,             // hook calls made, in order
    dropped: bool,                // popped by CreateWarm at capacity
    made: seq<Stage>,             // commands of its Create that succeeded, in order
    undone: seq<Undo>)            // what a failed Create has undone, in order

  datatype Config = Config(maxLive: int, maxConcurrent: int, block: Netalloc.Block, warmTarget: int)

  /** What the goroutines share. Session ids are positions in `sessions`, given out in order. */
  datatype Shared = Shared(sessions: seq<Sess>, hook: Option<Hook>, net: Netalloc.State, pool: WarmPool.State)

  datatype State = State(sh: Shared, threads: seq<Pc>)

  function Init(c: Config): State
    requires c.block.Valid()
  {
    State(Shared([], None, Netalloc.New(c.block), WarmPool.New(c.warmTarget)), [])
  }

  datatype Event =
    | CallCreate | CallCreateWarm | CallDestroy(id: Sid) | CallShutdown(id: Sid)
    | SetHook(h: Option<Hook>)
    | Seed | LoopTake | LoopDecide | LoopStop
    | GuestReady(s: Sid)                // the guest agent's hello was accepted
    | Run(t: nat, ok: bool)             // thread t takes its next step; ok is how an external command went

  /** NewHost replaces a non-positive limit by 3. */
  function MaxLive(c: Config): int {
    if c.maxLive <= 0 then 3 else c.maxLive
  }

  /** len(Host.sessions) */
  function HostLen(sessions: seq<Sess>): nat {
    if sessions == [] then 0
    else HostLen(sessions[..|sessions| - 1]) + Bit(sessions[|sessions| - 1].h.Inside?)
  }

  /** len(Manager.sessions) */
  function MgrLen(sessions: seq<Sess>): nat {
    if sessions == [] then 0
    else MgrLen(sessions[..|sessions| - 1]) + Bit(sessions[|sessions| - 1].m.Live?)
  }

  // --- a goroutine's step on its session ---

  /** What a step does beside changing the session. */
  datatype Effect = Nothing | FreeAddress | SendToken | PoolPush

  datatype Local = Local(x: Sess, pc: Pc, spawn: Option<Pc>, fx: Effect)

  function Go(x: Sess, pc: Pc): Local {
    Local(x, pc, None, Nothing)
  }

  predicate CanLocal(x: Sess, pc: Pc, ok: bool) {
    match pc
    case Unbuild(_, _, undo) => undo != []
    case Tear(_, acts, _) => acts != []
    case Wait(_, _) => ok ==> x.ready
    case Watcher(_) => x.done
    case _ => true
  }

  /** Session.CloseDone: the close runs once, behind doneOnce. */
  function CloseDone(x: Sess): Sess {
    if x.done then x else x.(done := true, closes := x.closes + 1)
  }

  function FireOrEnd(s: Sid, fn: Option<Hook>): Pc {
    if fn.Some? then Fire(s, fn.value) else Ended
  }

  /** Where the caller of Manager.Destroy continues. */
  function Return(s: Sid, c: Caller): Pc {
    match c
    case Abort(o) => Failed(o)
    case FromHost(fn) => HClose(s, fn)
    case _ => Ended
  }

  function NextStage(stage: Stage): Stage {
    match stage
    case Tap => Rand
    case Rand => Dir
    case Dir => Token
    case Token => Rootfs
    case Rootfs => Launch
    case _ => Insert
  }

  /** How Manager.Create unwinds when the command of `stage` fails. */
  function Unwind(stage: Stage): seq<Undo> {
    match stage
    case Tap => [UndoIp]
    case Rand => [UndoTap, UndoIp]
    case Dir => [UndoTap, UndoIp]
    case _ => [UndoDir, UndoTap, UndoIp]
  }

  /** `full`: len(Host.sessions) has reached the limit. */
  function Place(x: Sess, pc: Pc, full: bool): Local {
    match pc
    case WarmPoke(s) => Local(x, WarmInsert(s), None, SendToken)
    case WarmInsert(s) => if full then Go(x.(dropped := true), Ended) else Go(x.(h := Inside), Watch(s))
    case HInsert(s) => Go(x.(h := Inside), Watch(s))
    case Watch(s) => Local(x, Ended, Some(Watcher(s)), Nothing)
    case Append(s) => Local(x, Ended, None, PoolPush)
    case _ => Go(x, pc)
  }

  function Launching(x: Sess, pc: Pc, ok: bool): Local
    requires CanLocal(x, pc, ok)
  {
    match pc
    case Build(s, o, stage) =>
      if stage == Insert then Go(x.(m := Live), Spawn(s, o))
      else if ok then Go(x.(made := x.made + [stage]), Build(s, o, NextStage(stage)))
      else Go(x, Unbuild(s, o, Unwind(stage)))
    case Unbuild(s, o, undo) =>
      Local(x.(undone := x.undone + [undo[0]]), if |undo| == 1 then Failed(o) else Unbuild(s, o, undo[1..]), None,
            if undo[0] == UndoIp then FreeAddress else Nothing)
    case Spawn(s, o) => Local(x, Wait(s, o), Some(Exiter(s)), Nothing)
    case Wait(s, o) => Go(x, if !ok then Kill(s, Abort(o)) else if o == ForHost then HInsert(s) else Append(s))
    case _ => Go(x, pc)
  }

  function TearOne(x: Sess, s: Sid, acts: seq<Act>, c: Caller): Local
    requires acts != []
  {
    var y := x.(acted := x.acted + [acts[0]]);
    Local(if acts[0] == Close then CloseDone(y) else y,
          if |acts| == 1 then Return(s, c) else Tear(s, acts[1..], c), None,
          if acts[0] == ReleaseIp then FreeAddress else Nothing)
  }

  function Leaving(x: Sess, pc: Pc, hook: Option<Hook>): Local
    requires CanLocal(x, pc, false)
  {
    match pc
    case Watcher(s) => if x.h.Inside? then Go(x.(h := Left(hook)), FireOrEnd(s, hook)) else Go(x, Ended)
    case Exiter(s) => Go(x, Kill(s, Exit))
    case HDestroy(s) => if x.h.Inside? then Go(x.(h := Left(hook)), Kill(s, FromHost(hook))) else Go(x, Ended)
    case Kill(s, c) => if x.m.Live? then Go(x.(m := Gone), Tear(s, TEARDOWN, c)) else Go(x, Return(s, c))
    case Tear(s, acts, c) => TearOne(x, s, acts, c)
    case HClose(s, fn) => Go(CloseDone(x), FireOrEnd(s, fn))
    case Fire(s, h) => Go(x.(fired := x.fired + [h]), Ended)
    case _ => Go(x, pc)
  }

  predicate IsPlacing(pc: Pc) {
    pc.WarmPoke? || pc.WarmInsert? || pc.HInsert? || pc.Watch? || pc.Append?
  }

  predicate IsLaunching(pc: Pc) {
    pc.Build? || pc.Unbuild? || pc.Spawn? || pc.Wait?
  }

  predicate OnSession(pc: Pc) {
    !(pc.Check? || pc.Warm? || pc.Poke? || pc.MCheck? || pc.MAlloc? || pc.Failed? || pc.Ended?)
  }

  function LocalStep(x: Sess, pc: Pc, ok: bool, hook: Option<Hook>, full: bool): Local
    requires CanLocal(x, pc, ok)
  {
    if IsPlacing(pc) then Place(x, pc, full)
    else if IsLaunching(pc) then Launching(x, pc, ok)
    else Leaving(x, pc, hook)
  }

  // --- a goroutine's step ---

  predicate CanStep(sh: Shared, pc: Pc, ok: bool) {
    if OnSession(pc) then pc.s < |sh.sessions| ==> CanLocal(sh.sessions[pc.s], pc, ok)
    else !pc.Ended? && (pc.MAlloc? ==> sh.net.base.Valid())
  }

  /** The shared state after a step, where the goroutine stands then, and a goroutine it started. */
  datatype Outcome = Outcome(sh: Shared, pc: Pc, spawn: Option<Pc>)

  function Perform(sh: Shared, s: Sid, fx: Effect): Shared
    requires s < |sh.sessions|
  {
    match fx
    case Nothing => sh
    case FreeAddress => sh.(net := Netalloc.Freed(sh.net, sh.sessions[s].lease.ip))
    case SendToken => sh.(pool := WarmPool.Poke(sh.pool))
    case PoolPush => sh.(pool := WarmPool.BuildDone(sh.pool, s))
  }

  function StepSession(c: Config, sh: Shared, pc: Pc, ok: bool): Outcome
    requires OnSession(pc) && CanStep(sh, pc, ok)
  {
    if pc.s >= |sh.sessions| then Outcome(sh, Ended, None) else  // no such id: ErrNotFound
      var l := LocalStep(sh.sessions[pc.s], pc, ok, sh.hook, HostLen(sh.sessions) >= MaxLive(c));
      Outcome(Perform(sh.(sessions := sh.sessions[pc.s := l.x]), pc.s, l.fx), l.pc, l.spawn)
  }

  function StepAlloc(sh: Shared, o: For): Outcome
    requires sh.net.base.Valid()
  {
    var (net, lease) := Netalloc.Issue(sh.net);
    if lease.None? then Outcome(sh.(net := net), Failed(o), None) else
      var x := Sess(lease.value, Making, Outside, false, false, 0, [], [], false, [], []);
      Outcome(sh.(net := net, sessions := sh.sessions + [x]), Build(|sh.sessions|, o, Tap), None)
  }

  function StepFree(c: Config, sh: Shared, pc: Pc): Outcome
    requires !OnSession(pc) && CanStep(sh, pc, false)
  {
    match pc
    case Check => Outcome(sh, if HostLen(sh.sessions) >= MaxLive(c) then Ended else MCheck(ForHost), None)
    case Warm =>
      var (pool, got) := WarmPool.Pop(sh.pool);
      Outcome(sh.(pool := pool), if got.Some? then WarmPoke(got.value) else Poke, None)
    case Poke => Outcome(sh.(pool := WarmPool.Poke(sh.pool)), Check, None)
    case MCheck(o) => Outcome(sh, if MgrLen(sh.sessions) >= c.maxConcurrent then Failed(o) else MAlloc(o), None)
    case MAlloc(o) => StepAlloc(sh, o)
    case Failed(o) =>
      Outcome(if o == ForPool then sh.(pool := WarmPool.BuildFailed(sh.pool)) else sh, Ended, None)
    case _ => Outcome(sh, pc, None)
  }

  function StepOf(c: Config, sh: Shared, pc: Pc, ok: bool): Outcome
    requires CanStep(sh, pc, ok)
  {
    if OnSession(pc) then StepSession(c, sh, pc, ok) else StepFree(c, sh, pc)
  }

  // --- events ---

  /** An event that is not a step of an existing goroutine: a new call, the pool's loop, the guest. */
  function Arrive(sh: Shared, e: Event): (r: (Shared, Option<Pc>))
    requires !e.Run? && (e.LoopTake? ==> sh.pool.queue > 0) && (e.GuestReady? ==> e.s < |sh.sessions|)
  {
    match e
    case CallCreate => (sh, Some(Check))
    case CallCreateWarm => (sh, Some(Warm))
    case CallDestroy(id) => (sh, Some(HDestroy(id)))
    case CallShutdown(id) => (sh, Some(Kill(id, Direct)))
    case SetHook(h) => (sh.(hook := h), None)
    case Seed => (sh.(pool := WarmPool.Seed(sh.pool)), None)
    case LoopTake => (sh.(pool := WarmPool.Take(sh.pool)), None)
    case LoopDecide =>
      if WarmPool.Full(sh.pool) then (sh.(pool := WarmPool.Skip(sh.pool)), None)
      else (sh.(pool := WarmPool.Build(sh.pool)), Some(MCheck(ForPool)))
    case LoopStop => (sh.(pool := sh.pool.(looping := false)), None)
    case GuestReady(s) => (sh.(sessions := sh.sessions[s := sh.sessions[s].(ready := true)]), None)
  }

  predicate Enabled(st: State, e: Event) {
    match e
    case Seed => st.sh.pool.seeded < st.sh.pool.target
    case LoopTake => st.sh.pool.looping && st.sh.pool.queue > 0 && !st.sh.pool.held
    case LoopDecide => st.sh.pool.held
    case LoopStop => !st.sh.pool.held
    case GuestReady(s) => s < |st.sh.sessions| && !st.sh.sessions[s].m.Making?
    case Run(t, ok) => t < |st.threads| && CanStep(st.sh, st.threads[t], ok)
    case _ => true
  }

  function With(threads: seq<Pc>, spawn: Option<Pc>): seq<Pc> {
    if spawn.Some? then threads + [spawn.value] else threads
  }

  function Apply(c: Config, st: State, e: Event): State
    requires Enabled(st, e)
  {
    if e.Run? then
      var o := StepOf(c, st.sh, st.threads[e.t], e.ok);
      State(o.sh, With(st.threads[e.t := o.pc], o.spawn))
    else
      var (sh, spawn) := Arrive(st.sh, e);
      State(sh, With(st.threads, spawn))
  }

  // --- runs ---

  /** `trace` is a run: it starts in Init and every state follows from the one before by some event. */
  ghost predicate IsRun(c: Config, trace: seq<State>) {
    && c.block.Valid()
    && |trace| > 0 && trace[0] == Init(c)
    && forall i :: 0 < i < |trace| ==> FollowsAt(c, trace, i)
  }

  ghost predicate FollowsAt(c: Config, trace: seq<State>, i: nat)
    requires 0 < i < |trace|
  {
    Follows(c, trace[i - 1], trace[i])
  }

  ghost predicate Follows(c: Config, st: State, st': State) {
    exists e :: Enabled(st, e) && st' == Apply(c, st, e)
  }
}
