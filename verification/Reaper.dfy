/**
 The idle reaper (Host.ReapIdle in control-plane/internal/session/host.go) against terminal clients that attach and
 detach at any time (control-plane/internal/session/session.go).

 Any number of sweeps run at once. Each lock-protected region is one step: the snapshot of the live map, one look at
 a session's idle time, one removal. The clock never goes back.
 */
module Reaper {
  import opened Common

  type Time = int

  /** A session as the reaper sees it. `clients[c]` says whether the c-th client ever attached is still attached. */
  datatype Sess = Sess(live: bool, createdAt: Time, readyAt: Option<Time>, clients: seq<bool>, attached: int,
                       lastDetach: Option<Time>)

  /** Session.IdleSince: None while a client is attached. */
  function IdleSince(s: Sess): Option<Time> {
    if s.attached > 0 then None
    else if s.lastDetach.Some? then s.lastDetach
    else if s.readyAt.Some? then s.readyAt
    else Some(s.createdAt)
  }

  /** The test that makes ReapIdle destroy a session. */
  predicate IdleLong(s: Sess, now: Time, timeout: int) {
    IdleSince(s).Some? && now - IdleSince(s).value >= timeout
  }

  datatype At = Checking | Killing

  /** One call of ReapIdle: the snapshot, how many of its sessions are dealt with, the ids to be returned. */
  datatype Sweep = Sweep(now: Time, timeout: int, snapshot: seq<nat>, next: nat, at: At, reaped: seq<nat>)

  datatype State = State(clock: Time, sessions: seq<Sess>, sweeps: seq<Sweep>)

  datatype Event =
    | Tick(to: Time)
    | Insert(createdAt: Time, readyAt: Option<Time>)
    | Ready(s: nat)
    | Attach(s: nat)
    | Detach(s: nat, c: nat)
    | Remove(s: nat)                                            // a DELETE or the watch goroutine
    | Start(now: Time, timeout: int, snapshot: seq<nat>)
    | Check(p: nat)
    | Kill(p: nat)

  /** List: the live sessions, once each, in any order. A timeout of zero or less reaps nothing. */
  ghost predicate IsSnapshot(sessions: seq<Sess>, timeout: int, snapshot: seq<nat>) {
    if timeout <= 0 then snapshot == [] else
      && (forall s: nat :: s in snapshot <==> s < |sessions| && sessions[s].live)
      && forall x, y :: 0 <= x < y < |snapshot| ==> snapshot[x] != snapshot[y]
  }

  /** The sweep has a session to look at. */
  predicate Busy(st: State, p: nat) {
    && p < |st.sweeps| && st.sweeps[p].next < |st.sweeps[p].snapshot|
    && st.sweeps[p].snapshot[st.sweeps[p].next] < |st.sessions|
  }

  function Target(st: State, p: nat): nat
    requires Busy(st, p)
  {
    st.sweeps[p].snapshot[st.sweeps[p].next]
  }

  ghost predicate Enabled(st: State, e: Event) {
    match e
    case Tick(to) => to >= st.clock
    case Insert(createdAt, readyAt) => createdAt <= st.clock && (readyAt.Some? ==> readyAt.value <= st.clock)
    case Ready(s) => s < |st.sessions|
    case Attach(s) => s < |st.sessions|
    case Detach(s, c) => s < |st.sessions| && c < |st.sessions[s].clients|
    case Remove(s) => s < |st.sessions|
    case Start(_, timeout, snapshot) => IsSnapshot(st.sessions, timeout, snapshot)
    case Check(p) => Busy(st, p) && st.sweeps[p].at == Checking
    case Kill(p) => Busy(st, p) && st.sweeps[p].at == Killing
  }

  function Attached(s: Sess): Sess {
    s.(clients := s.clients + [true], attached := s.attached + 1)
  }

  /** The function Attach returns; its second call does nothing. */
  function Detached(s: Sess, c: nat, clock: Time): Sess
    requires c < |s.clients|
  {
    if !s.clients[c] then s else
      var left := s.attached - 1;
      s.(clients := s.clients[c := false], attached := left,
         lastDetach := if left == 0 then Some(clock) else s.lastDetach)
  }

  function Checked(w: Sweep, s: Sess): Sweep {
    if IdleLong(s, w.now, w.timeout) then w.(at := Killing) else w.(next := w.next + 1)
  }

  function Apply(st: State, e: Event): State
    requires Enabled(st, e)
  {
    match e
    case Tick(to) => st.(clock := to)
    case Insert(createdAt, readyAt) => st.(sessions := st.sessions + [Sess(true, createdAt, readyAt, [], 0, None)])
    case Ready(s) =>
      var q := st.sessions[s];
      st.(sessions := st.sessions[s := q.(readyAt := if q.readyAt.Some? then q.readyAt else Some(st.clock))])
    case Attach(s) => st.(sessions := st.sessions[s := Attached(st.sessions[s])])
    case Detach(s, c) => st.(sessions := st.sessions[s := Detached(st.sessions[s], c, st.clock)])
    case Remove(s) => st.(sessions := st.sessions[s := st.sessions[s].(live := false)])
    case Start(now, timeout, snapshot) => st.(sweeps := st.sweeps + [Sweep(now, timeout, snapshot, 0, Checking, [])])
    case Check(p) => st.(sweeps := st.sweeps[p := Checked(st.sweeps[p], st.sessions[Target(st, p)])])
    case Kill(p) =>
      var s, w := Target(st, p), st.sweeps[p];
      st.(sessions := st.sessions[s := st.sessions[s].(live := false)],
          sweeps := st.sweeps[p := w.(next := w.next + 1, at := Checking, reaped := w.reaped + [s])])
  }

  ghost predicate Follows(st: State, st': State) {
    exists e :: Enabled(st, e) && st' == Apply(st, e)
  }

  ghost predicate FollowsAt(trace: seq<State>, i: nat)
    requires 0 < i < |trace|
  {
    Follows(trace[i - 1], trace[i])
  }

  ghost predicate IsRun(trace: seq<State>) {
    && |trace| > 0 && trace[0].sessions == [] && trace[0].sweeps == []
    && forall i :: 0 < i < |trace| ==> FollowsAt(trace, i)
  }

  // --- clients and their count ---

  function On(clients: seq<bool>): nat {
    if clients == [] then 0 else On(clients[..|clients| - 1]) + Bit(clients[|clients| - 1])
  }

  lemma OnAppend(clients: seq<bool>, b: bool)
    ensures On(clients + [b]) == On(clients) + Bit(b)
  {
    assert (clients + [b])[..|clients|] == clients;
  }

  lemma {:induction false} OnUpdate(clients: seq<bool>, c: nat, b: bool)
    requires c < |clients|
    ensures On(clients[c := b]) + Bit(clients[c]) == On(clients) + Bit(b)
  {
    var n := |clients| - 1;
    if c == n {
      assert clients[c := b][..n] == clients[..n];
    } else {
      OnUpdate(clients[..n], c, b);
      assert clients[c := b][..n] == clients[..n][c := b];
    }
  }

  lemma AnyoneCounts(clients: seq<bool>, c: nat)
    requires c < |clients| && clients[c]
    ensures On(clients) > 0
  {
    OnUpdate(clients, c, false);
  }

  // --- one step, one session ---

  /** `was` is a session at an earlier time `at`, `cur` the same session at time `clock`. */
  ghost predicate Since(was: Sess, at: Time, cur: Sess, clock: Time) {
    && at <= clock
    && cur.attached == On(cur.clients)
    && (cur.lastDetach.Some? ==> cur.lastDetach.value <= clock)
    && (was.attached > 0 && cur.attached == 0 ==> cur.lastDetach.Some? && cur.lastDetach.value >= at)
    && cur.createdAt == was.createdAt && (was.readyAt.Some? ==> cur.readyAt == was.readyAt)
    && |was.clients| <= |cur.clients|
    && (forall c :: 0 <= c < |was.clients| && !was.clients[c] ==> !cur.clients[c])
    && (cur.live ==> was.live)
  }

  lemma SinceDetach(was: Sess, at: Time, cur: Sess, clock: Time, c: nat)
    requires Since(was, at, cur, clock) && c < |cur.clients|
    ensures Since(was, at, Detached(cur, c, clock), clock)
  {
    OnUpdate(cur.clients, c, false);
  }

  lemma SinceAttach(was: Sess, at: Time, cur: Sess, clock: Time)
    requires Since(was, at, cur, clock)
    ensures Since(was, at, Attached(cur), clock)
  {
    OnAppend(cur.clients, true);
  }

  lemma SinceStep(was: Sess, at: Time, st: State, e: Event, s: nat)
    requires Enabled(st, e) && s < |st.sessions| && Since(was, at, st.sessions[s], st.clock)
    ensures Since(was, at, Apply(st, e).sessions[s], Apply(st, e).clock)
  {
    match e
    case Attach(_) => SinceAttach(was, at, st.sessions[s], st.clock);
    case Detach(x, c) => if x == s { SinceDetach(was, at, st.sessions[s], st.clock, c); }
    case _ =>
  }

  lemma CountStep(st: State, e: Event, s: nat)
    requires Enabled(st, e) && s < |Apply(st, e).sessions|
    requires s < |st.sessions| ==> Counted(st.sessions[s], st.clock)
    ensures Counted(Apply(st, e).sessions[s], Apply(st, e).clock)
  {
    match e
    case Attach(_) => if s < |st.sessions| { OnAppend(st.sessions[s].clients, true); }
    case Detach(x, c) => if x == s { OnUpdate(st.sessions[s].clients, c, false); }
    case _ =>
  }

  /** The count is that of the attached clients; a session that had clients and has none was stamped when the last one left. */
  ghost predicate Counted(s: Sess, clock: Time) {
    && s.attached == On(s.clients) && (s.lastDetach.Some? ==> s.lastDetach.value <= clock)
    && (s.clients == [] ==> s.lastDetach.None?) && (s.clients != [] && s.attached == 0 ==> s.lastDetach.Some?)
  }

  lemma {:induction false} RunCounts(trace: seq<State>, i: nat, s: nat)
    requires IsRun(trace) && i < |trace| && s < |trace[i].sessions|
    ensures Counted(trace[i].sessions[s], trace[i].clock)
  {
    if i > 0 {
      assert FollowsAt(trace, i);
      var e :| Enabled(trace[i - 1], e) && trace[i] == Apply(trace[i - 1], e);
      if s < |trace[i - 1].sessions| { RunCounts(trace, i - 1, s); }
      CountStep(trace[i - 1], e, s);
    }
  }

  lemma {:induction false} RunSince(trace: seq<State>, i: nat, j: nat, s: nat)
    requires IsRun(trace) && i <= j < |trace| && s < |trace[i].sessions|
    ensures s < |trace[j].sessions| && Since(trace[i].sessions[s], trace[i].clock, trace[j].sessions[s], trace[j].clock)
    decreases j
  {
    if i == j {
      RunCounts(trace, i, s);
    } else {
      RunSince(trace, i, j - 1, s);
      assert FollowsAt(trace, j);
      var e :| Enabled(trace[j - 1], e) && trace[j] == Apply(trace[j - 1], e);
      SinceStep(trace[i].sessions[s], trace[i].clock, trace[j - 1], e, s);
    }
  }

  // --- soundness ---

  /** In state j sweep p looks at session s and decides to destroy it. */
  ghost predicate Decides(trace: seq<State>, j: nat, p: nat, s: nat) {
    && j < |trace| && Busy(trace[j], p) && Target(trace[j], p) == s && trace[j].sweeps[p].at == Checking
    && IdleLong(trace[j].sessions[s], trace[j].sweeps[p].now, trace[j].sweeps[p].timeout)
  }

  /**
   A session is destroyed only when nobody was attached to it later than now - timeout: every state up to the check
   in which it had a client has a clock of at most now - timeout.
   */
  lemma ReapIsSound(trace: seq<State>, i: nat, j: nat, p: nat, s: nat)
    requires IsRun(trace) && i <= j && Decides(trace, j, p, s)
    requires s < |trace[i].sessions| && trace[i].sessions[s].attached > 0
    ensures trace[i].clock <= trace[j].sweeps[p].now - trace[j].sweeps[p].timeout
  {
    RunSince(trace, i, j, s);
  }

  /** A client that is attached when the session goes down attached after the check. */
  lemma LateClients(trace: seq<State>, j: nat, k: nat, p: nat, s: nat, c: nat)
    requires IsRun(trace) && Decides(trace, j, p, s) && j <= k < |trace|
    requires s < |trace[k].sessions| && c < |trace[k].sessions[s].clients| && trace[k].sessions[s].clients[c]
    ensures c >= |trace[j].sessions[s].clients|
  {
    RunCounts(trace, j, s);
    RunSince(trace, j, k, s);
    if c < |trace[j].sessions[s].clients| && trace[j].sessions[s].clients[c] {
      AnyoneCounts(trace[j].sessions[s].clients, c);
    }
  }

  // --- completeness ---

  /**
   Nobody has been attached since `since`: the last client left by then, or there never was one and the guest was ready by
   then, or it was never ready and the session is as old as that.
   */
  predicate LeftAlone(s: Sess, since: Time) {
    && (forall c :: 0 <= c < |s.clients| ==> !s.clients[c])
    && if s.clients != [] then s.lastDetach.Some? && s.lastDetach.value <= since
       else if s.readyAt.Some? then s.readyAt.value <= since
       else s.createdAt <= since
  }

  lemma {:induction false} NobodyOn(clients: seq<bool>)
    ensures On(clients) == 0 <==> forall c :: 0 <= c < |clients| ==> !clients[c]
  {
    if clients != [] {
      var n := |clients| - 1;
      NobodyOn(clients[..n]);
      assert forall c :: 0 <= c < n ==> clients[..n][c] == clients[c];
    }
  }

  /** What the test of the sweep means. */
  lemma IdleLongIff(s: Sess, clock: Time, now: Time, timeout: int)
    requires Counted(s, clock)
    ensures IdleLong(s, now, timeout) <==> LeftAlone(s, now - timeout)
  {
    NobodyOn(s.clients);
  }

  ghost predicate Gone(st: State, s: nat, reaped: seq<nat>) {
    s in reaped && s < |st.sessions| && !st.sessions[s].live
  }

  /** From state i to the next sweep p looks at the x-th session of its snapshot. */
  ghost predicate ChecksAt(trace: seq<State>, i: nat, p: nat, x: nat) {
    && i + 1 < |trace| && Busy(trace[i], p) && trace[i].sweeps[p].at == Checking && trace[i].sweeps[p].next == x
    && trace[i + 1] == Apply(trace[i], Check(p))
  }

  /** The same call of ReapIdle. */
  predicate SameCall(w: Sweep, w': Sweep) {
    w'.now == w.now && w'.timeout == w.timeout && w'.snapshot == w.snapshot
  }

  /** The sweep has looked at its x-th session. */
  predicate Looked(w: Sweep, x: nat) {
    x < w.next || (x == w.next && w.at == Killing)
  }

  /** No session is listed twice, and only sessions that the sweep has got past are reported. */
  ghost predicate SweepOk(w: Sweep) {
    && w.next <= |w.snapshot| && (w.at == Killing ==> w.next < |w.snapshot|)
    && (forall y, z :: 0 <= y < z < |w.snapshot| ==> w.snapshot[y] != w.snapshot[z])
    && (forall z :: 0 <= z < |w.reaped| ==> w.reaped[z] in w.snapshot[..w.next])
  }

  lemma SweepStep(st: State, e: Event, p: nat)
    requires Enabled(st, e) && p < |Apply(st, e).sweeps| && (p < |st.sweeps| ==> SweepOk(st.sweeps[p]))
    ensures SweepOk(Apply(st, e).sweeps[p])
    ensures p < |st.sweeps| ==> SameCall(st.sweeps[p], Apply(st, e).sweeps[p])
  {
    var w' := Apply(st, e).sweeps[p];
    if p < |st.sweeps| {
      var w := st.sweeps[p];
      assert forall s :: s in w.snapshot[..w.next] && w.next <= w'.next ==> s in w'.snapshot[..w'.next];
    }
  }

  lemma {:induction false} RunSweeps(trace: seq<State>, k: nat, p: nat)
    requires IsRun(trace) && k < |trace| && p < |trace[k].sweeps|
    ensures SweepOk(trace[k].sweeps[p])
  {
    if k > 0 {
      assert FollowsAt(trace, k);
      var e :| Enabled(trace[k - 1], e) && trace[k] == Apply(trace[k - 1], e);
      if p < |trace[k - 1].sweeps| { RunSweeps(trace, k - 1, p); }
      SweepStep(trace[k - 1], e, p);
    }
  }

  lemma LookStep(st: State, e: Event, p: nat, x: nat)
    requires Enabled(st, e) && p < |Apply(st, e).sweeps| && Looked(Apply(st, e).sweeps[p], x)
    ensures p < |st.sweeps|
    ensures Looked(st.sweeps[p], x) || (e == Check(p) && st.sweeps[p].next == x)
  {
  }

  /** What a sweep has looked at it has looked at in one step. */
  lemma {:induction false} FindCheck(trace: seq<State>, k: nat, p: nat, x: nat) returns (i: nat)
    requires IsRun(trace) && k < |trace| && p < |trace[k].sweeps| && Looked(trace[k].sweeps[p], x)
    ensures i < k && ChecksAt(trace, i, p, x) && SameCall(trace[i].sweeps[p], trace[k].sweeps[p])
  {
    assert FollowsAt(trace, k);
    var e :| Enabled(trace[k - 1], e) && trace[k] == Apply(trace[k - 1], e);
    LookStep(trace[k - 1], e, p, x);
    RunSweeps(trace, k - 1, p);
    SweepStep(trace[k - 1], e, p);
    if Looked(trace[k - 1].sweeps[p], x) {
      i := FindCheck(trace, k - 1, p, x);
    } else {
      i := k - 1;
    }
  }

  /** A session that is to go is about to be destroyed, or gone and reported. */
  ghost predicate Going(st: State, p: nat, x: nat) {
    && p < |st.sweeps| && x < |st.sweeps[p].snapshot|
    && var w := st.sweeps[p];
       (w.next == x && w.at == Killing) || (x < w.next && Gone(st, w.snapshot[x], w.reaped))
  }

  /** A session that is to stay is not reported. */
  ghost predicate Staying(st: State, p: nat, x: nat) {
    && p < |st.sweeps| && x < |st.sweeps[p].snapshot|
    && x < st.sweeps[p].next && st.sweeps[p].snapshot[x] !in st.sweeps[p].reaped
  }

  lemma VerdictStep(st: State, e: Event, p: nat, x: nat)
    requires Enabled(st, e) && p < |st.sweeps| && SweepOk(st.sweeps[p])
    ensures Going(st, p, x) ==> Going(Apply(st, e), p, x)
    ensures Staying(st, p, x) ==> Staying(Apply(st, e), p, x)
  {
    var w, w' := st.sweeps[p], Apply(st, e).sweeps[p];
    assert forall z :: 0 <= z < |w.reaped| ==> w'.reaped[z] == w.reaped[z];
  }

  lemma VerdictBegins(st: State, p: nat, x: nat)
    requires Enabled(st, Check(p)) && st.sweeps[p].next == x && SweepOk(st.sweeps[p])
    ensures if IdleLong(st.sessions[Target(st, p)], st.sweeps[p].now, st.sweeps[p].timeout)
      then Going(Apply(st, Check(p)), p, x) else Staying(Apply(st, Check(p)), p, x)
  {
    var w := st.sweeps[p];
    assert w.snapshot[x] !in w.snapshot[..x];
  }

  lemma {:induction false} VerdictStands(trace: seq<State>, i: nat, k: nat, p: nat, x: nat)
    requires IsRun(trace) && i <= k < |trace| && (Going(trace[i], p, x) || Staying(trace[i], p, x))
    ensures Going(trace[i], p, x) ==> Going(trace[k], p, x)
    ensures Staying(trace[i], p, x) ==> Staying(trace[k], p, x)
    decreases k
  {
    if i < k {
      VerdictStands(trace, i, k - 1, p, x);
      assert FollowsAt(trace, k);
      var e :| Enabled(trace[k - 1], e) && trace[k] == Apply(trace[k - 1], e);
      RunSweeps(trace, k - 1, p);
      VerdictStep(trace[k - 1], e, p, x);
    }
  }

  /**
   Every session of the snapshot that a sweep has got past was looked at in one step, and is gone and reported if it was
   left alone for the timeout then, and not reported if it was not. At the end of the call that is all of them.
   */
  lemma ReapIsComplete(trace: seq<State>, k: nat, p: nat, x: nat) returns (i: nat)
    requires IsRun(trace) && k < |trace| && p < |trace[k].sweeps| && x < trace[k].sweeps[p].next
    ensures i < k && ChecksAt(trace, i, p, x) && SameCall(trace[i].sweeps[p], trace[k].sweeps[p])
    ensures x < |trace[k].sweeps[p].snapshot| && trace[k].sweeps[p].snapshot[x] < |trace[i].sessions|
    ensures var w := trace[k].sweeps[p]; var s := w.snapshot[x];
      if LeftAlone(trace[i].sessions[s], w.now - w.timeout) then Gone(trace[k], s, w.reaped) else s !in w.reaped
  {
    i := FindCheck(trace, k, p, x);
    var w := trace[i].sweeps[p];
    RunSweeps(trace, i, p);
    RunCounts(trace, i, w.snapshot[x]);
    IdleLongIff(trace[i].sessions[w.snapshot[x]], trace[i].clock, w.now, w.timeout);
    VerdictBegins(trace[i], p, x);
    VerdictStands(trace, i + 1, k, p, x);
  }

  /** A sweep that is about to destroy a session, or has reported it, decided so in an earlier state. */
  ghost predicate Doomed(w: Sweep, s: nat) {
    s in w.reaped || (w.at == Killing && w.next < |w.snapshot| && w.snapshot[w.next] == s)
  }

  lemma DoomedStep(st: State, e: Event, p: nat, s: nat)
    requires Enabled(st, e) && p < |Apply(st, e).sweeps| && Doomed(Apply(st, e).sweeps[p], s)
    ensures p < |st.sweeps|
    ensures || Doomed(st.sweeps[p], s)
            || (Busy(st, p) && Target(st, p) == s && st.sweeps[p].at == Checking
                && IdleLong(st.sessions[s], st.sweeps[p].now, st.sweeps[p].timeout))
  {
  }

  /** Only sessions that a check found idle for the timeout are destroyed and reported. */
  lemma {:induction false} ReapedWereIdle(trace: seq<State>, k: nat, p: nat, s: nat) returns (j: nat)
    requires IsRun(trace) && k < |trace| && p < |trace[k].sweeps| && Doomed(trace[k].sweeps[p], s)
    ensures j < k && Decides(trace, j, p, s)
  {
    assert FollowsAt(trace, k);
    var e :| Enabled(trace[k - 1], e) && trace[k] == Apply(trace[k - 1], e);
    DoomedStep(trace[k - 1], e, p, s);
    if Doomed(trace[k - 1].sweeps[p], s) {
      j := ReapedWereIdle(trace, k - 1, p, s);
    } else {
      j := k - 1;
    }
  }
}
