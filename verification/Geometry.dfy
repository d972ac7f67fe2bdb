/**
 Terminal geometry across a guest's boot (control-plane/internal/session/session.go, Resize, and
 vsock_listener.go, handleGuestConn).

 Resize stores the size and then reads the guest connection; the connection handler stores the
 connection and then reads the size. Any number of Resize calls and guest connections interleave,
 one locked region or one write at a time.
 */
module Geometry {
  import opened Common

  /** Where one Resize call stands after it has stored its size. */
  datatype Status =
    | Reading             // about to read guestConn
    | Sending(to: nat)    // read that connection, about to write
    | Sent(to: nat)
    | Deferred(at: nat)   // found no guest, after `at` connections had been stored

  datatype Resize = Resize(cols: nat, rows: nat, status: Status)

  /** Where the handler of one guest connection stands. */
  datatype Stage =
    | Accepted                    // waiting for the hello frame
    | Refused
    | Setting                     // about to store the connection
    | Readying                    // about to mark the session ready
    | Looking                     // about to read the stored size
    | Replaying(w: nat)           // read size number w, about to read guestConn
    | Writing(w: nat, to: nat)
    | Serving
    | Clearing                    // the guest hung up; about to clear guestConn
    | Closed

  datatype Conn = Conn(
    stage: Stage,
    ordinal: Option<nat>,         // how many connections had been stored before this one
    looked: Option<nat>,          // the size its replay read
    received: seq<nat>)           // the sizes written to it, in order

  /** Sizes are numbered in the order they were stored; the stored one is the last. */
  datatype State = State(resizes: seq<Resize>, conns: seq<Conn>, guest: Option<nat>, sets: nat, ready: bool)

  const START: State := State([], [], None, 0, false)

  datatype Event =
    | CallResize(cols: nat, rows: nat)
    | ReadGuest(v: nat)           // Resize number v reads guestConn
    | WriteGuest(v: nat)          // ... and writes
    | Accept
    | Hello(j: nat, valid: bool)  // the first frame of connection j: type and token match or not
    | Handle(j: nat)              // the handler of connection j takes its next step
    | HangUp(j: nat)

  predicate Enabled(st: State, e: Event) {
    match e
    case CallResize(_, _) => true
    case ReadGuest(v) => v < |st.resizes| && st.resizes[v].status.Reading?
    case WriteGuest(v) => v < |st.resizes| && st.resizes[v].status.Sending? && st.resizes[v].status.to < |st.conns|
    case Accept => true
    case Hello(j, _) => j < |st.conns| && st.conns[j].stage.Accepted?
    case Handle(j) => j < |st.conns| && CanHandle(st, st.conns[j].stage)
    case HangUp(j) => j < |st.conns| && st.conns[j].stage.Serving?
  }

  predicate CanHandle(st: State, stage: Stage) {
    || stage.Setting? || stage.Readying? || stage.Looking? || stage.Replaying? || stage.Clearing?
    || (stage.Writing? && stage.to < |st.conns|)
  }

  function Receive(conns: seq<Conn>, j: nat, w: nat): (r: seq<Conn>)
    requires j < |conns|
    ensures |r| == |conns|
  {
    conns[j := conns[j].(received := conns[j].received + [w])]
  }

  function SetStage(conns: seq<Conn>, j: nat, stage: Stage): seq<Conn>
    requires j < |conns|
  {
    conns[j := conns[j].(stage := stage)]
  }

  function SetStatus(resizes: seq<Resize>, v: nat, status: Status): seq<Resize>
    requires v < |resizes|
  {
    resizes[v := resizes[v].(status := status)]
  }

  function HandleStep(st: State, j: nat): State
    requires j < |st.conns| && CanHandle(st, st.conns[j].stage)
  {
    var c := st.conns[j];
    match c.stage
    case Setting =>
      st.(guest := Some(j), sets := st.sets + 1, conns := st.conns[j := c.(stage := Readying, ordinal := Some(st.sets))])
    case Readying => st.(ready := true, conns := SetStage(st.conns, j, Looking))
    case Looking =>
      if st.resizes == [] then st.(conns := SetStage(st.conns, j, Serving))
      else
        var w := |st.resizes| - 1;
        st.(conns := st.conns[j := c.(stage := Replaying(w), looked := Some(w))])
    case Replaying(w) =>
      st.(conns := SetStage(st.conns, j, if st.guest.Some? then Writing(w, st.guest.value) else Serving))
    case Writing(w, to) => st.(conns := SetStage(Receive(st.conns, to, w), j, Serving))
    case Clearing => st.(guest := None, conns := SetStage(st.conns, j, Closed))
    case _ => st
  }

  function Apply(st: State, e: Event): State
    requires Enabled(st, e)
  {
    match e
    case CallResize(cols, rows) =>
      if cols == 0 || rows == 0 then st  // the call returns an error
      else st.(resizes := st.resizes + [Resize(cols, rows, Reading)])
    case ReadGuest(v) =>
      st.(resizes := SetStatus(st.resizes, v, if st.guest.Some? then Sending(st.guest.value) else Deferred(st.sets)))
    case WriteGuest(v) =>
      var to := st.resizes[v].status.to;
      st.(conns := Receive(st.conns, to, v), resizes := SetStatus(st.resizes, v, Sent(to)))
    case Accept => st.(conns := st.conns + [Conn(Accepted, None, None, [])])
    case Hello(j, valid) => st.(conns := SetStage(st.conns, j, if valid then Setting else Refused))
    case Handle(j) => HandleStep(st, j)
    case HangUp(j) => st.(conns := SetStage(st.conns, j, Clearing))
  }

  ghost predicate Follows(st: State, st': State) {
    exists e :: Enabled(st, e) && st' == Apply(st, e)
  }

  ghost predicate FollowsAt(trace: seq<State>, i: nat)
    requires 0 < i < |trace|
  {
    Follows(trace[i - 1], trace[i])
  }

  ghost predicate IsRun(trace: seq<State>) {
    && |trace| > 0 && trace[0] == START
    && forall i :: 0 < i < |trace| ==> FollowsAt(trace, i)
  }

  /** guestConn is a connection that was accepted. */
  predicate GuestIn(st: State) {
    st.guest.Some? ==> st.guest.value < |st.conns|
  }

  // --- the replay reads the size that found no guest, or a later one ---

  /** Connection c was stored `n`-th and has read the stored size. */
  predicate HasLooked(c: Conn) {
    c.ordinal.Some? && (c.stage.Replaying? || c.stage.Writing? || c.stage.Serving? || c.stage.Clearing? || c.stage.Closed?)
  }

  predicate ConnOk(c: Conn, sets: nat, sizes: nat) {
    && (c.ordinal.Some? ==> c.ordinal.value < sets)
    && (c.looked.Some? ==> c.looked.value < sizes)
  }

  predicate ResizeOk(r: Resize, sets: nat) {
    r.status.Deferred? ==> r.status.at <= sets
  }

  /** A connection stored after size v found no guest, once it has looked, has seen size v or a later one. */
  predicate Covered(c: Conn, r: Resize, v: nat) {
    r.status.Deferred? && HasLooked(c) && c.ordinal.value >= r.status.at ==> c.looked.Some? && c.looked.value >= v
  }

  ghost predicate LookOk(st: State) {
    && (forall j :: 0 <= j < |st.conns| ==> ConnOk(st.conns[j], st.sets, |st.resizes|))
    && (forall v :: 0 <= v < |st.resizes| ==> ResizeOk(st.resizes[v], st.sets))
    && (forall j, v :: 0 <= j < |st.conns| && 0 <= v < |st.resizes| ==> Covered(st.conns[j], st.resizes[v], v))
  }

  /** One event, seen by one connection and one size. */
  lemma PairStep(st: State, e: Event, j: nat, v: nat)
    requires Enabled(st, e) && j < |Apply(st, e).conns| && v < |Apply(st, e).resizes|
    requires j < |st.conns| ==> ConnOk(st.conns[j], st.sets, |st.resizes|)
    requires v < |st.resizes| ==> ResizeOk(st.resizes[v], st.sets)
    requires j < |st.conns| && v < |st.resizes| ==> Covered(st.conns[j], st.resizes[v], v)
    ensures Covered(Apply(st, e).conns[j], Apply(st, e).resizes[v], v)
  {
  }

  lemma ConnStep(st: State, e: Event, j: nat)
    requires Enabled(st, e) && j < |Apply(st, e).conns|
    requires j < |st.conns| ==> ConnOk(st.conns[j], st.sets, |st.resizes|)
    ensures ConnOk(Apply(st, e).conns[j], Apply(st, e).sets, |Apply(st, e).resizes|)
  {
  }

  lemma ResizeStep(st: State, e: Event, v: nat)
    requires Enabled(st, e) && v < |Apply(st, e).resizes|
    requires v < |st.resizes| ==> ResizeOk(st.resizes[v], st.sets)
    ensures ResizeOk(Apply(st, e).resizes[v], Apply(st, e).sets)
  {
  }

  lemma LookKeeps(st: State, e: Event)
    requires LookOk(st) && Enabled(st, e)
    ensures LookOk(Apply(st, e))
  {
    var st' := Apply(st, e);
    forall j | 0 <= j < |st'.conns| ensures ConnOk(st'.conns[j], st'.sets, |st'.resizes|) { ConnStep(st, e, j); }
    forall v | 0 <= v < |st'.resizes| ensures ResizeOk(st'.resizes[v], st'.sets) { ResizeStep(st, e, v); }
    forall j, v | 0 <= j < |st'.conns| && 0 <= v < |st'.resizes| ensures Covered(st'.conns[j], st'.resizes[v], v) {
      PairStep(st, e, j, v);
    }
  }

  lemma {:induction false} RunLooks(trace: seq<State>, i: nat)
    requires IsRun(trace) && i < |trace|
    ensures LookOk(trace[i])
  {
    if i > 0 {
      RunLooks(trace, i - 1);
      assert FollowsAt(trace, i);
      var e :| Enabled(trace[i - 1], e) && trace[i] == Apply(trace[i - 1], e);
      LookKeeps(trace[i - 1], e);
    }
  }

  /**
   Resize is not lost across boot. In every run: if a Resize found no guest when `at` connections had been
   stored, then the next connection to be stored, once past its replay, has read that size or a later one.
   */
  lemma ReplayCoversDeferred(trace: seq<State>, i: nat, v: nat, j: nat)
    requires IsRun(trace) && i < |trace| && v < |trace[i].resizes| && j < |trace[i].conns|
    requires trace[i].resizes[v].status.Deferred? && HasLooked(trace[i].conns[j])
    requires trace[i].conns[j].ordinal.value == trace[i].resizes[v].status.at
    ensures trace[i].conns[j].looked.Some? && v <= trace[i].conns[j].looked.value < |trace[i].resizes|
  {
    RunLooks(trace, i);
    assert Covered(trace[i].conns[j], trace[i].resizes[v], v);
    assert ConnOk(trace[i].conns[j], trace[i].sets, |trace[i].resizes|);
  }

  // --- where sizes go ---

  /** A Resize, or a replay, writes to the connection it read as the guest, and the step that writes adds nothing else. */
  lemma WritesGoTo(st: State, e: Event, j: nat)
    requires Enabled(st, e) && j < |st.conns|
    ensures j < |Apply(st, e).conns|
    ensures Apply(st, e).conns[j].received == st.conns[j].received +
      if e.WriteGuest? && st.resizes[e.v].status.to == j then [e.v]
      else if e.Handle? && st.conns[e.j].stage.Writing? && st.conns[e.j].stage.to == j then [st.conns[e.j].stage.w]
      else []
    ensures e.ReadGuest? && st.guest.Some? ==> Apply(st, e).resizes[e.v].status == Sending(st.guest.value)
    ensures e.Handle? && st.conns[e.j].stage.Replaying? && st.guest.Some? ==>
      Apply(st, e).conns[e.j].stage == Writing(st.conns[e.j].stage.w, st.guest.value)
  {
  }

  // --- a rejected connection ---

  /** A connection is stored by the step after a valid hello, and nothing is written to it before. */
  predicate ConnBegun(c: Conn) {
    && (c.ordinal.None? <==> c.stage.Accepted? || c.stage.Refused? || c.stage.Setting?)
    && (c.ordinal.None? ==> c.received == [])
  }

  predicate Stored(conns: seq<Conn>, j: nat) {
    j < |conns| && conns[j].ordinal.Some?
  }

  /** Only stored connections are written to, now or later. */
  ghost predicate TargetsOk(st: State) {
    && (forall j :: 0 <= j < |st.conns| ==> ConnBegun(st.conns[j]))
    && (st.guest.Some? ==> Stored(st.conns, st.guest.value))
    && (forall v :: 0 <= v < |st.resizes| && st.resizes[v].status.Sending? ==> Stored(st.conns, st.resizes[v].status.to))
    && (forall j :: 0 <= j < |st.conns| && st.conns[j].stage.Writing? ==> Stored(st.conns, st.conns[j].stage.to))
    && (st.ready ==> exists j :: 0 <= j < |st.conns| && st.conns[j].ordinal.Some?)
  }

  lemma StoredStays(st: State, e: Event, j: nat)
    requires Enabled(st, e) && Stored(st.conns, j)
    ensures Stored(Apply(st, e).conns, j)
  {
  }

  lemma BegunStep(st: State, e: Event, j: nat)
    requires Enabled(st, e) && TargetsOk(st) && j < |Apply(st, e).conns|
    ensures ConnBegun(Apply(st, e).conns[j])
  {
    if e.WriteGuest? { assert Stored(st.conns, st.resizes[e.v].status.to); }
    if e.Handle? && st.conns[e.j].stage.Writing? { assert Stored(st.conns, st.conns[e.j].stage.to); }
  }

  lemma WriterStep(st: State, e: Event, j: nat)
    requires Enabled(st, e) && TargetsOk(st) && j < |Apply(st, e).conns| && Apply(st, e).conns[j].stage.Writing?
    ensures Stored(Apply(st, e).conns, Apply(st, e).conns[j].stage.to)
  {
    var to := Apply(st, e).conns[j].stage.to;
    assert Stored(st.conns, to);
    StoredStays(st, e, to);
  }

  lemma SenderStep(st: State, e: Event, v: nat)
    requires Enabled(st, e) && TargetsOk(st) && v < |Apply(st, e).resizes| && Apply(st, e).resizes[v].status.Sending?
    ensures Stored(Apply(st, e).conns, Apply(st, e).resizes[v].status.to)
  {
    var to := Apply(st, e).resizes[v].status.to;
    assert Stored(st.conns, to);
    StoredStays(st, e, to);
  }

  lemma ReadyStep(st: State, e: Event)
    requires Enabled(st, e) && TargetsOk(st) && Apply(st, e).ready
    ensures exists j :: 0 <= j < |Apply(st, e).conns| && Apply(st, e).conns[j].ordinal.Some?
  {
    var j: nat :| if st.ready then j < |st.conns| && st.conns[j].ordinal.Some? else e == Handle(j) && st.conns[j].stage.Readying?;
    assert ConnBegun(st.conns[j]) && Stored(st.conns, j);
    StoredStays(st, e, j);
    assert Apply(st, e).conns[j].ordinal.Some?;
  }

  lemma TargetsStep(st: State, e: Event, st': State)
    requires Enabled(st, e) && TargetsOk(st) && st' == Apply(st, e)
    ensures TargetsOk(st')
  {
    forall j | 0 <= j < |st'.conns| ensures ConnBegun(st'.conns[j]) { BegunStep(st, e, j); }
    forall j | 0 <= j < |st'.conns| && st'.conns[j].stage.Writing? ensures Stored(st'.conns, st'.conns[j].stage.to) {
      WriterStep(st, e, j);
    }
    forall v | 0 <= v < |st'.resizes| && st'.resizes[v].status.Sending? ensures Stored(st'.conns, st'.resizes[v].status.to) {
      SenderStep(st, e, v);
    }
    if st'.ready { ReadyStep(st, e); }
    if st.guest.Some? { StoredStays(st, e, st.guest.value); }
  }

  lemma {:induction false} RunTargets(trace: seq<State>, i: nat)
    requires IsRun(trace) && i < |trace|
    ensures TargetsOk(trace[i])
  {
    if i > 0 {
      RunTargets(trace, i - 1);
      assert FollowsAt(trace, i);
      var e :| Enabled(trace[i - 1], e) && trace[i] == Apply(trace[i - 1], e);
      TargetsStep(trace[i - 1], e, trace[i]);
    }
  }

  lemma RefusedStep(st: State, st': State, j: nat)
    requires Follows(st, st') && j < |st.conns| && st.conns[j].stage.Refused?
    ensures j < |st'.conns| && st'.conns[j].stage.Refused?
  {
  }

  lemma {:induction false} RefusedStays(trace: seq<State>, i: nat, k: nat, j: nat)
    requires IsRun(trace) && i <= k < |trace| && j < |trace[i].conns| && trace[i].conns[j].stage.Refused?
    ensures j < |trace[k].conns| && trace[k].conns[j].stage.Refused?
    decreases k
  {
    if i < k {
      RefusedStays(trace, i, k - 1, j);
      assert FollowsAt(trace, k);
      RefusedStep(trace[k - 1], trace[k], j);
    }
  }

  /**
   A connection whose hello was rejected is never stored, is never the guest and is never sent a size, in every later
   state of every run.
   */
  lemma RejectedNeverServes(trace: seq<State>, i: nat, k: nat, j: nat)
    requires IsRun(trace) && i < k < |trace|
    requires Enabled(trace[i], Hello(j, false)) && trace[i + 1] == Apply(trace[i], Hello(j, false))
    ensures j < |trace[k].conns| && trace[k].conns[j].ordinal.None? && trace[k].conns[j].received == []
    ensures trace[k].guest != Some(j)
  {
    RefusedStays(trace, i + 1, k, j);
    RunTargets(trace, k);
    assert ConnBegun(trace[k].conns[j]);
  }

  /** In the step from state i a valid hello came on connection j. */
  ghost predicate ValidHello(trace: seq<State>, i: nat, j: nat) {
    i + 1 < |trace| && Enabled(trace[i], Hello(j, true)) && trace[i + 1] == Apply(trace[i], Hello(j, true))
  }

  lemma PastStep(st: State, e: Event, j: nat)
    requires Enabled(st, e) && j < |Apply(st, e).conns|
    requires !Apply(st, e).conns[j].stage.Accepted? && !Apply(st, e).conns[j].stage.Refused?
    ensures j < |st.conns| && !st.conns[j].stage.Refused?
    ensures st.conns[j].stage.Accepted? ==> e == Hello(j, true)
  {
  }

  lemma {:induction false} PastHello(trace: seq<State>, k: nat, j: nat) returns (i: nat)
    requires IsRun(trace) && k < |trace| && j < |trace[k].conns|
    requires !trace[k].conns[j].stage.Accepted? && !trace[k].conns[j].stage.Refused?
    ensures i < k && ValidHello(trace, i, j)
  {
    assert FollowsAt(trace, k);
    var e :| Enabled(trace[k - 1], e) && trace[k] == Apply(trace[k - 1], e);
    PastStep(trace[k - 1], e, j);
    if trace[k - 1].conns[j].stage.Accepted? {
      i := k - 1;
    } else {
      i := PastHello(trace, k - 1, j);
    }
  }

  /** The session is ready, and a guest is stored, only after a valid hello. */
  lemma ReadyNeedsHello(trace: seq<State>, k: nat) returns (i: nat, j: nat)
    requires IsRun(trace) && k < |trace| && (trace[k].ready || trace[k].guest.Some?)
    ensures i < k && ValidHello(trace, i, j) && (trace[k].guest.Some? ==> j == trace[k].guest.value)
  {
    RunTargets(trace, k);
    if trace[k].guest.Some? {
      j := trace[k].guest.value;
    } else {
      j :| j < |trace[k].conns| && trace[k].conns[j].ordinal.Some?;
    }
    assert ConnBegun(trace[k].conns[j]);
    i := PastHello(trace, k, j);
  }

  // --- delivery, when guest connections do not overlap ---

  /** The handler has stored its connection and not yet cleared it. */
  predicate Active(stage: Stage) {
    stage.Readying? || stage.Looking? || stage.Replaying? || stage.Writing? || stage.Serving? || stage.Clearing?
  }

  function NumActive(conns: seq<Conn>): nat {
    if conns == [] then 0 else NumActive(conns[..|conns| - 1]) + Bit(Active(conns[|conns| - 1].stage))
  }

  lemma {:induction false} ActiveOne(conns: seq<Conn>, i: nat)
    requires i < |conns| && Active(conns[i].stage)
    ensures NumActive(conns) >= 1
  {
    if i < |conns| - 1 { ActiveOne(conns[..|conns| - 1], i); }
  }

  lemma {:induction false} ActivePair(conns: seq<Conn>, i: nat, j: nat)
    requires i < j < |conns| && Active(conns[i].stage) && Active(conns[j].stage)
    ensures NumActive(conns) >= 2
  {
    if j < |conns| - 1 { ActivePair(conns[..|conns| - 1], i, j); } else { ActiveOne(conns[..|conns| - 1], i); }
  }

  /** guestConn is the one active connection, and a replay goes to the connection it is for. */
  predicate GuestConnOk(st: State, j: nat)
    requires j < |st.conns|
  {
    && (Active(st.conns[j].stage) <==> st.guest == Some(j))
    && (st.conns[j].stage.Writing? ==> st.conns[j].stage.to == j)
  }

  ghost predicate GuestOk(st: State) {
    && (st.guest.Some? ==> st.guest.value < |st.conns|)
    && (forall j :: 0 <= j < |st.conns| ==> GuestConnOk(st, j))
  }

  /** The newest size has reached connection j or is on its way there. */
  predicate Fed(c: Conn, j: nat, last: Resize, v: nat) {
    || c.stage.Readying? || c.stage.Looking?
    || c.stage == Replaying(v) || c.stage == Writing(v, j)
    || v in c.received
    || last.status == Reading || last.status == Sending(j)
  }

  ghost predicate FedOk(st: State) {
    st.guest.Some? && st.guest.value < |st.conns| && st.resizes != [] ==>
      Fed(st.conns[st.guest.value], st.guest.value, st.resizes[|st.resizes| - 1], |st.resizes| - 1)
  }

  /** A step of the handler of connection i, seen by connection j. */
  lemma GuestHandleStep(st: State, i: nat, j: nat)
    requires Enabled(st, Handle(i)) && j < |st.conns| && GuestConnOk(st, i) && GuestConnOk(st, j)
    requires st.conns[i].stage.Setting? && j != i ==> !Active(st.conns[j].stage)
    ensures GuestConnOk(Apply(st, Handle(i)), j)
  {
  }

  lemma GuestOtherStep(st: State, e: Event, j: nat)
    requires Enabled(st, e) && !e.Handle? && j < |Apply(st, e).conns| && GuestOk(st)
    ensures GuestConnOk(Apply(st, e), j)
  {
    if j < |st.conns| { assert GuestConnOk(st, j); }
  }

  lemma GuestConnStep(st: State, e: Event, j: nat)
    requires Enabled(st, e) && j < |Apply(st, e).conns| && NumActive(Apply(st, e).conns) <= 1
    requires GuestOk(st)
    ensures GuestConnOk(Apply(st, e), j)
  {
    if e.Handle? {
      var st' := Apply(st, e);
      assert GuestConnOk(st, j) && GuestConnOk(st, e.j);
      if st.conns[e.j].stage.Setting? && j != e.j && Active(st.conns[j].stage) {
        ActivePair(st'.conns, if j < e.j then j else e.j, if j < e.j then e.j else j);
      }
      GuestHandleStep(st, e.j, j);
    } else {
      GuestOtherStep(st, e, j);
    }
  }

  lemma FedStep(st: State, e: Event)
    requires Enabled(st, e)
    requires GuestOk(st)
    requires FedOk(st)
    ensures FedOk(Apply(st, e))
  {
  }

  lemma {:induction false} RunFeeds(trace: seq<State>, i: nat)
    requires IsRun(trace) && i < |trace|
    requires forall n :: 0 <= n <= i ==> NumActive(trace[n].conns) <= 1
    ensures GuestOk(trace[i]) && FedOk(trace[i])
  {
    if i > 0 {
      RunFeeds(trace, i - 1);
      assert FollowsAt(trace, i);
      var e :| Enabled(trace[i - 1], e) && trace[i] == Apply(trace[i - 1], e);
      forall j | 0 <= j < |trace[i].conns| ensures GuestConnOk(trace[i], j) { GuestConnStep(trace[i - 1], e, j); }
      FedStep(trace[i - 1], e);
    }
  }

  /** Nobody is between storing a size, or reading one for a replay, and writing it. */
  ghost predicate Settled(st: State) {
    && (forall v :: 0 <= v < |st.resizes| ==> !st.resizes[v].status.Reading? && !st.resizes[v].status.Sending?)
    && (forall j :: 0 <= j < |st.conns| ==> !st.conns[j].stage.Replaying? && !st.conns[j].stage.Writing?)
  }

  /** Every serving connection has received the newest size. */
  ghost predicate Delivered(st: State) {
    forall j :: 0 <= j < |st.conns| && st.conns[j].stage.Serving? && st.resizes != [] ==>
      |st.resizes| - 1 in st.conns[j].received
  }

  lemma DeliveredAlone(trace: seq<State>, i: nat)
    requires IsRun(trace) && i < |trace| && Settled(trace[i])
    requires forall n :: 0 <= n <= i ==> NumActive(trace[n].conns) <= 1
    ensures Delivered(trace[i])
  {
    RunFeeds(trace, i);
    forall j | 0 <= j < |trace[i].conns| && trace[i].conns[j].stage.Serving? && trace[i].resizes != []
      ensures |trace[i].resizes| - 1 in trace[i].conns[j].received
    {
      assert GuestConnOk(trace[i], j);
    }
  }

  /** What a replay read it has written, or is about to. */
  predicate Replayed(c: Conn, j: nat) {
    c.looked.Some? ==>
      c.stage == Replaying(c.looked.value) || c.stage == Writing(c.looked.value, j) || c.looked.value in c.received
  }

  lemma ReplayedStep(st: State, e: Event, j: nat)
    requires Enabled(st, e) && j < |Apply(st, e).conns| && GuestOk(st)
    requires j < |st.conns| ==> Replayed(st.conns[j], j)
    ensures Replayed(Apply(st, e).conns[j], j)
  {
    if j < |st.conns| { assert GuestConnOk(st, j); }
    if e.Handle? { assert GuestConnOk(st, e.j); }
  }

  lemma {:induction false} RunReplays(trace: seq<State>, i: nat, j: nat)
    requires IsRun(trace) && i < |trace| && j < |trace[i].conns|
    requires forall n :: 0 <= n <= i ==> NumActive(trace[n].conns) <= 1
    ensures Replayed(trace[i].conns[j], j)
  {
    if i > 0 {
      if j < |trace[i - 1].conns| { RunReplays(trace, i - 1, j); }
      RunFeeds(trace, i - 1);
      assert FollowsAt(trace, i);
      var e :| Enabled(trace[i - 1], e) && trace[i] == Apply(trace[i - 1], e);
      ReplayedStep(trace[i - 1], e, j);
    }
  }

  /**
   Delivered across boot. With one guest connection at a time, a Resize that found no guest is followed, at
   the next connection to complete its handshake, by a replay of that size or of one stored later.
   */
  lemma DeferredIsReplayed(trace: seq<State>, i: nat, v: nat, j: nat)
    requires IsRun(trace) && i < |trace| && v < |trace[i].resizes| && j < |trace[i].conns|
    requires forall n :: 0 <= n <= i ==> NumActive(trace[n].conns) <= 1
    requires trace[i].resizes[v].status.Deferred? && trace[i].conns[j].stage.Serving?
    requires trace[i].conns[j].ordinal == Some(trace[i].resizes[v].status.at)
    ensures exists w :: w in trace[i].conns[j].received && v <= w < |trace[i].resizes|
  {
    ReplayCoversDeferred(trace, i, v, j);
    RunReplays(trace, i, j);
  }

  // --- order, when senders do not overlap ---

  predicate Busy(status: Status) {
    status.Reading? || status.Sending?
  }

  predicate Replays(stage: Stage) {
    stage.Replaying? || stage.Writing?
  }

  function NumBusy(resizes: seq<Resize>): nat {
    if resizes == [] then 0 else NumBusy(resizes[..|resizes| - 1]) + Bit(Busy(resizes[|resizes| - 1].status))
  }

  function NumReplays(conns: seq<Conn>): nat {
    if conns == [] then 0 else NumReplays(conns[..|conns| - 1]) + Bit(Replays(conns[|conns| - 1].stage))
  }

  /** How many senders hold a size they have not written yet. */
  function Senders(st: State): nat {
    NumBusy(st.resizes) + NumReplays(st.conns)
  }

  lemma {:induction false} BusyOne(resizes: seq<Resize>, v: nat)
    requires v < |resizes| && Busy(resizes[v].status)
    ensures NumBusy(resizes) >= 1
  {
    if v < |resizes| - 1 { BusyOne(resizes[..|resizes| - 1], v); }
  }

  lemma {:induction false} BusyPair(resizes: seq<Resize>, v: nat, w: nat)
    requires v < w < |resizes| && Busy(resizes[v].status) && Busy(resizes[w].status)
    ensures NumBusy(resizes) >= 2
  {
    if w < |resizes| - 1 { BusyPair(resizes[..|resizes| - 1], v, w); } else { BusyOne(resizes[..|resizes| - 1], v); }
  }

  lemma {:induction false} ReplayOne(conns: seq<Conn>, i: nat)
    requires i < |conns| && Replays(conns[i].stage)
    ensures NumReplays(conns) >= 1
  {
    if i < |conns| - 1 { ReplayOne(conns[..|conns| - 1], i); }
  }

  lemma {:induction false} ReplayPair(conns: seq<Conn>, i: nat, j: nat)
    requires i < j < |conns| && Replays(conns[i].stage) && Replays(conns[j].stage)
    ensures NumReplays(conns) >= 2
  {
    if j < |conns| - 1 { ReplayPair(conns[..|conns| - 1], i, j); } else { ReplayOne(conns[..|conns| - 1], i); }
  }

  predicate Ascending(s: seq<nat>) {
    forall a, b :: 0 <= a < b < |s| ==> s[a] <= s[b]
  }

  predicate AtMost(s: seq<nat>, w: nat) {
    forall a :: 0 <= a < |s| ==> s[a] <= w
  }

  /** What connection c received is in order, and nothing still on its way is older. */
  ghost predicate OrderOk(st: State, c: Conn) {
    && Ascending(c.received)
    && (forall a :: 0 <= a < |c.received| ==> c.received[a] < |st.resizes|)
    && (forall v :: 0 <= v < |st.resizes| && Busy(st.resizes[v].status) ==> AtMost(c.received, v))
    && (forall j :: 0 <= j < |st.conns| && Replays(st.conns[j].stage) ==> AtMost(c.received, st.conns[j].stage.w))
  }

  /** With one sender at a time, whoever holds a size is the only one. */
  lemma Alone(st: State)
    requires Senders(st) <= 1
    ensures forall v, w :: 0 <= v < w < |st.resizes| ==> !(Busy(st.resizes[v].status) && Busy(st.resizes[w].status))
    ensures forall i, j :: 0 <= i < j < |st.conns| ==> !(Replays(st.conns[i].stage) && Replays(st.conns[j].stage))
    ensures forall v, j :: 0 <= v < |st.resizes| && 0 <= j < |st.conns| ==>
              !(Busy(st.resizes[v].status) && Replays(st.conns[j].stage))
  {
    forall v, w | 0 <= v < w < |st.resizes| && Busy(st.resizes[v].status) ensures !Busy(st.resizes[w].status) {
      if Busy(st.resizes[w].status) { BusyPair(st.resizes, v, w); }
    }
    forall i, j | 0 <= i < j < |st.conns| && Replays(st.conns[i].stage) ensures !Replays(st.conns[j].stage) {
      if Replays(st.conns[j].stage) { ReplayPair(st.conns, i, j); }
    }
    forall v, j | 0 <= v < |st.resizes| && 0 <= j < |st.conns| && Busy(st.resizes[v].status)
      ensures !Replays(st.conns[j].stage)
    {
      BusyOne(st.resizes, v);
      if Replays(st.conns[j].stage) { ReplayOne(st.conns, j); }
    }
  }

  ghost predicate OrdersOk(st: State) {
    && (forall j :: 0 <= j < |st.conns| && Replays(st.conns[j].stage) ==> st.conns[j].stage.w < |st.resizes|)
    && (forall j :: 0 <= j < |st.conns| ==> OrderOk(st, st.conns[j]))
  }

  lemma WriteOrder(st: State, e: Event, j: nat)
    requires OrdersOk(st) && Enabled(st, e) && e.WriteGuest? && Senders(st) <= 1 && j < |st.conns|
    ensures OrderOk(Apply(st, e), Apply(st, e).conns[j])
  {
    Alone(st);
    assert OrderOk(st, st.conns[j]);
  }

  /** After its write the one sender holds nothing, and nobody else did. */
  lemma ReplayEnds(st: State, e: Event)
    requires Enabled(st, e) && e.Handle? && st.conns[e.j].stage.Writing? && Senders(st) <= 1
    ensures forall v :: 0 <= v < |st.resizes| ==> !Busy(st.resizes[v].status)
    ensures forall i :: 0 <= i < |st.conns| ==> !Replays(Apply(st, e).conns[i].stage)
  {
    Alone(st);
  }

  lemma ReplayOrder(st: State, e: Event, j: nat)
    requires OrdersOk(st) && Enabled(st, e) && e.Handle? && st.conns[e.j].stage.Writing? && Senders(st) <= 1 && j < |st.conns|
    ensures OrderOk(Apply(st, e), Apply(st, e).conns[j])
  {
    ReplayEnds(st, e);
    assert OrderOk(st, st.conns[j]);
    assert AtMost(st.conns[j].received, st.conns[e.j].stage.w);
  }

  /** Any other event writes nothing, and a sender that starts holds the newest size. */
  ghost predicate QuietChange(st: State, st': State) {
    && |st'.resizes| >= |st.resizes| && |st'.conns| >= |st.conns|
    && (forall v :: 0 <= v < |st'.resizes| && Busy(st'.resizes[v].status) ==>
          (v < |st.resizes| && Busy(st.resizes[v].status)) || v == |st.resizes|)
    && (forall i :: 0 <= i < |st'.conns| && Replays(st'.conns[i].stage) ==>
          || (i < |st.conns| && Replays(st.conns[i].stage) && st'.conns[i].stage.w == st.conns[i].stage.w)
          || (st'.conns[i].stage.w + 1 == |st.resizes|))
    && (forall i :: 0 <= i < |st'.conns| ==>
          st'.conns[i].received == if i < |st.conns| then st.conns[i].received else [])
  }

  lemma QuietShape(st: State, e: Event)
    requires Enabled(st, e) && !e.WriteGuest? && !(e.Handle? && st.conns[e.j].stage.Writing?)
    ensures QuietChange(st, Apply(st, e))
  {
  }

  lemma QuietOrder(st: State, st': State, j: nat)
    requires OrdersOk(st) && QuietChange(st, st') && j < |st'.conns|
    ensures OrderOk(st', st'.conns[j])
  {
    if j < |st.conns| { assert OrderOk(st, st.conns[j]); }
  }

  /** An event that writes adds no connection. */
  lemma WriteKeepsConns(st: State, e: Event)
    requires Enabled(st, e) && (e.WriteGuest? || (e.Handle? && st.conns[e.j].stage.Writing?))
    ensures |Apply(st, e).conns| == |st.conns|
  {
  }

  lemma OrderOfOne(st: State, e: Event, st': State, j: nat)
    requires OrdersOk(st) && Enabled(st, e) && st' == Apply(st, e) && Senders(st) <= 1 && j < |st'.conns|
    ensures OrderOk(st', st'.conns[j])
  {
    if e.WriteGuest? {
      WriteKeepsConns(st, e);
      WriteOrder(st, e, j);
    } else if e.Handle? && st.conns[e.j].stage.Writing? {
      WriteKeepsConns(st, e);
      ReplayOrder(st, e, j);
    } else {
      QuietShape(st, e);
      QuietOrder(st, st', j);
    }
  }

  lemma ReplayInRange(st: State, e: Event, j: nat)
    requires Enabled(st, e) && j < |Apply(st, e).conns| && Replays(Apply(st, e).conns[j].stage)
    requires j < |st.conns| && Replays(st.conns[j].stage) ==> st.conns[j].stage.w < |st.resizes|
    ensures Apply(st, e).conns[j].stage.w < |Apply(st, e).resizes|
  {
  }

  lemma OrderStep(st: State, e: Event, st': State)
    requires OrdersOk(st) && Enabled(st, e) && st' == Apply(st, e) && Senders(st) <= 1
    ensures OrdersOk(st')
  {
    forall j | 0 <= j < |st'.conns| ensures OrderOk(st', st'.conns[j]) { OrderOfOne(st, e, st', j); }
    forall j | 0 <= j < |st'.conns| && Replays(st'.conns[j].stage) ensures st'.conns[j].stage.w < |st'.resizes| {
      ReplayInRange(st, e, j);
    }
  }

  lemma {:induction false} RunOrders(trace: seq<State>, i: nat)
    requires IsRun(trace) && i < |trace|
    requires forall n :: 0 <= n <= i ==> Senders(trace[n]) <= 1
    ensures OrdersOk(trace[i])
  {
    if i > 0 {
      RunOrders(trace, i - 1);
      assert FollowsAt(trace, i);
      var e :| Enabled(trace[i - 1], e) && trace[i] == Apply(trace[i - 1], e);
      OrderStep(trace[i - 1], e, trace[i]);
    }
  }

  /** The size every serving connection received last is the newest one. */
  ghost predicate Current(st: State) {
    forall j :: 0 <= j < |st.conns| && st.conns[j].stage.Serving? && st.resizes != [] ==>
      && st.conns[j].received != []
      && st.conns[j].received[|st.conns[j].received| - 1] == |st.resizes| - 1
  }

  lemma CurrentInOrder(trace: seq<State>, i: nat)
    requires IsRun(trace) && i < |trace| && Settled(trace[i])
    requires forall n :: 0 <= n <= i ==> NumActive(trace[n].conns) <= 1 && Senders(trace[n]) <= 1
    ensures Current(trace[i])
  {
    RunOrders(trace, i);
    DeliveredAlone(trace, i);
    var st := trace[i];
    forall j | 0 <= j < |st.conns| && st.conns[j].stage.Serving? && st.resizes != []
      ensures st.conns[j].received != []
      ensures st.conns[j].received[|st.conns[j].received| - 1] == |st.resizes| - 1
    {
      var r := st.conns[j].received;
      assert OrderOk(st, st.conns[j]);
      var a :| 0 <= a < |r| && r[a] == |st.resizes| - 1;
      assert r[a] <= r[|r| - 1] < |st.resizes|;
    }
  }

  // --- both conditions are needed ---

  /** Some run ends in `st` and never has more than `a` active handlers or `s` senders. */
  ghost predicate Reaches(a: nat, s: nat, st: State) {
    exists trace :: Ends(a, s, st, trace)
  }

  ghost predicate Ends(a: nat, s: nat, st: State, trace: seq<State>) {
    && IsRun(trace) && trace[|trace| - 1] == st
    && forall n :: 0 <= n < |trace| ==> NumActive(trace[n].conns) <= a && Senders(trace[n]) <= s
  }

  lemma ReachesStep(a: nat, s: nat, st: State, e: Event, st': State)
    requires Reaches(a, s, st) && Enabled(st, e) && st' == Apply(st, e)
    requires NumActive(st'.conns) <= a && Senders(st') <= s
    ensures Reaches(a, s, st')
  {
    var trace :| Ends(a, s, st, trace);
    var longer := trace + [st'];
    forall i | 0 < i < |longer| ensures FollowsAt(longer, i) {
      if i < |trace| { assert FollowsAt(trace, i); }
    }
    assert Ends(a, s, st', longer);
  }

  lemma ReachesStart(a: nat, s: nat)
    ensures Reaches(a, s, START)
  {
    assert Ends(a, s, START, [START]);
  }

  lemma {:induction false} FewActive(conns: seq<Conn>)
    ensures NumActive(conns) <= |conns|
  {
    if conns != [] { FewActive(conns[..|conns| - 1]); }
  }

  /** Senders, counted directly when there are at most two sizes and two connections. */
  function FewSenders(st: State): nat {
    (if |st.resizes| > 0 then Bit(Busy(st.resizes[0].status)) else 0)
    + (if |st.resizes| > 1 then Bit(Busy(st.resizes[1].status)) else 0)
    + (if |st.conns| > 0 then Bit(Replays(st.conns[0].stage)) else 0)
    + (if |st.conns| > 1 then Bit(Replays(st.conns[1].stage)) else 0)
  }

  lemma FewBusy(rs: seq<Resize>)
    requires |rs| <= 2
    ensures NumBusy(rs) == (if |rs| > 0 then Bit(Busy(rs[0].status)) else 0) + (if |rs| > 1 then Bit(Busy(rs[1].status)) else 0)
  {
    if |rs| > 0 {
      assert rs[..1][..0] == [];
      assert NumBusy(rs[..1]) == Bit(Busy(rs[0].status));
      assert |rs| == 1 ==> rs[..1] == rs;
    }
  }

  lemma FewReplays(cs: seq<Conn>)
    requires |cs| <= 2
    ensures NumReplays(cs) == (if |cs| > 0 then Bit(Replays(cs[0].stage)) else 0) + (if |cs| > 1 then Bit(Replays(cs[1].stage)) else 0)
  {
    if |cs| > 0 {
      assert cs[..1][..0] == [];
      assert NumReplays(cs[..1]) == Bit(Replays(cs[0].stage));
      assert |cs| == 1 ==> cs[..1] == cs;
    }
  }

  lemma SmallCounts(st: State)
    requires |st.resizes| <= 2 && |st.conns| <= 2
    ensures NumActive(st.conns) <= |st.conns| && Senders(st) == FewSenders(st)
  {
    FewActive(st.conns);
    FewBusy(st.resizes);
    FewReplays(st.conns);
  }

  lemma Advance(a: nat, s: nat, st: State, e: Event, st': State)
    requires Reaches(a, s, st) && Enabled(st, e) && st' == Apply(st, e)
    requires |st'.resizes| <= 2 && |st'.conns| <= 2 && |st'.conns| <= a && FewSenders(st') <= s
    ensures Reaches(a, s, st')
  {
    SmallCounts(st');
    ReachesStep(a, s, st, e, st');
  }

  /** Few enough sizes and connections to count senders directly, and none of them at work. */
  predicate Still(st: State) {
    && |st.resizes| <= 1 && |st.conns| <= 1 && GuestIn(st)
    && (forall v :: 0 <= v < |st.resizes| ==> !Busy(st.resizes[v].status))
    && (forall j :: 0 <= j < |st.conns| ==> !Replays(st.conns[j].stage))
  }

  lemma Begin(a: nat, s: nat) returns (st: State)
    ensures Reaches(a, s, st) && Still(st) && st.resizes == [] && st.conns == [] && st.guest == None
  {
    ReachesStart(a, s);
    st := START;
  }

  /** A guest connects and says hello. */
  lemma Connect(a: nat, s: nat, st: State) returns (st': State)
    requires Reaches(a, s, st) && Still(st) && |st.conns| < a
    ensures Reaches(a, s, st') && st'.resizes == st.resizes && st'.guest == st.guest && st'.sets == st.sets
    ensures |st'.conns| == |st.conns| + 1 && (forall j :: 0 <= j < |st.conns| ==> st'.conns[j] == st.conns[j])
    ensures st'.conns[|st.conns|] == Conn(Setting, None, None, [])
  {
    var j := |st.conns|;
    var s1 := Apply(st, Accept);
    assert s1.conns[j].stage == Accepted;
    Advance(a, s, st, Accept, s1);
    st' := Apply(s1, Hello(j, true));
    Advance(a, s, s1, Hello(j, true), st');
  }

  /** Its handler stores the connection and marks the session ready. */
  lemma Store(a: nat, s: nat, st: State, j: nat) returns (st': State)
    requires Reaches(a, s, st) && j < |st.conns| && st.conns[j] == Conn(Setting, None, None, [])
    requires |st.resizes| <= 1 && |st.conns| <= 2 && |st.conns| <= a && FewSenders(st) == 0
    ensures Reaches(a, s, st') && st'.resizes == st.resizes && st'.guest == Some(j) && |st'.conns| == |st.conns|
    ensures forall i :: 0 <= i < |st.conns| && i != j ==> st'.conns[i] == st.conns[i]
    ensures st'.conns[j] == Conn(Looking, Some(st.sets), None, []) && FewSenders(st') == 0
  {
    var s1 := Apply(st, Handle(j));
    assert s1.conns[j] == Conn(Readying, Some(st.sets), None, []);
    Advance(a, s, st, Handle(j), s1);
    st' := Apply(s1, Handle(j));
    Advance(a, s, s1, Handle(j), st');
  }

  /** With no size stored, a guest that connects is served at once. */
  lemma Serve(a: nat, s: nat, st: State) returns (st': State)
    requires Reaches(a, s, st) && Still(st) && |st.conns| < a && st.resizes == []
    ensures Reaches(a, s, st') && st'.resizes == [] && st'.guest == Some(|st.conns|)
    ensures |st'.conns| == |st.conns| + 1 && (forall j :: 0 <= j < |st.conns| ==> st'.conns[j] == st.conns[j])
    ensures st'.conns[|st.conns|].stage == Serving && st'.conns[|st.conns|].received == []
  {
    var j := |st.conns|;
    var s1 := Connect(a, s, st);
    var s2 := Store(a, s, s1, j);
    st' := Apply(s2, Handle(j));
    Advance(a, s, s2, Handle(j), st');
  }

  /** A Resize that finds no guest. */
  lemma Defer(a: nat, s: nat, st: State) returns (st': State)
    requires Reaches(a, s, st) && st.resizes == [] && |st.conns| <= 2 && |st.conns| <= a && st.guest == None && s >= 1
    requires forall j :: 0 <= j < |st.conns| ==> !Replays(st.conns[j].stage)
    ensures Reaches(a, s, st') && |st'.resizes| == 1 && st'.resizes[0].status.Deferred?
    ensures st'.conns == st.conns && st'.guest == None
  {
    var s1 := Apply(st, CallResize(80, 24));
    assert s1.resizes[0].status == Reading;
    Advance(a, s, st, CallResize(80, 24), s1);
    st' := Apply(s1, ReadGuest(0));
    Advance(a, s, s1, ReadGuest(0), st');
  }

  /** A guest boots after a size was stored and its handler has read that size for the replay. */
  lemma ReplayPending(s: nat) returns (st: State)
    requires s >= 1
    ensures Reaches(1, s, st) && |st.resizes| == 1 && |st.conns| == 1 && st.guest == Some(0)
    ensures st.resizes[0].status.Deferred? && st.conns[0].stage == Replaying(0) && st.conns[0].received == []
  {
    var s0 := Begin(1, s);
    var s1 := Defer(1, s, s0);
    var s2 := Connect(1, s, s1);
    var s3 := Store(1, s, s2, 0);
    st := Apply(s3, Handle(0));
    Advance(1, s, s3, Handle(0), st);
  }

  /** Meanwhile a second Resize stores a size and writes it. */
  lemma ResizeOvertakes(s: nat) returns (st: State)
    requires s >= 2
    ensures Reaches(1, s, st) && |st.resizes| == 2 && |st.conns| == 1 && st.guest == Some(0)
    ensures st.resizes[0].status.Deferred? && st.resizes[1].status.Sent?
    ensures st.conns[0].stage == Replaying(0) && st.conns[0].received == [1]
  {
    var s0 := ReplayPending(s);
    var s1 := Apply(s0, CallResize(100, 40));
    Advance(1, s, s0, CallResize(100, 40), s1);
    var s2 := Apply(s1, ReadGuest(1));
    Advance(1, s, s1, ReadGuest(1), s2);
    st := Apply(s2, WriteGuest(1));
    assert s2.conns[0].received + [1] == [1];
    Advance(1, s, s2, WriteGuest(1), st);
  }

  /** A replay that read the size before a concurrent Resize, and writes after it, leaves the guest stale. */
  lemma StaleReplay(s: nat) returns (st: State)
    requires s >= 2
    ensures Reaches(1, s, st) && Settled(st) && !Current(st)
  {
    var s0 := ResizeOvertakes(s);
    var s1 := Apply(s0, Handle(0));
    Advance(1, s, s0, Handle(0), s1);
    st := Apply(s1, Handle(0));
    Advance(1, s, s1, Handle(0), st);
    assert st.conns[0].stage.Serving? && st.conns[0].received == [1] + [0];
    assert st.conns[0].received[|st.conns[0].received| - 1] == 0;
  }

  /** The older of two connections hangs up, and its handler clears the newer one. */
  lemma Wipe(a: nat, s: nat) returns (st: State)
    requires a >= 2
    ensures Reaches(a, s, st) && st.resizes == [] && |st.conns| == 2 && st.guest == None
    ensures st.conns[0].stage == Closed && st.conns[1].stage == Serving && st.conns[1].received == []
  {
    var s0 := Begin(a, s);
    var s1 := Serve(a, s, s0);
    var s2 := Serve(a, s, s1);
    var s3 := Apply(s2, HangUp(0));
    Advance(a, s, s2, HangUp(0), s3);
    st := Apply(s3, Handle(0));
    Advance(a, s, s3, Handle(0), st);
  }

  /** An older connection's clear wipes a newer one: the next Resize finds no guest and is never replayed. */
  lemma WipedConnection(a: nat, s: nat) returns (st: State)
    requires a >= 2 && s >= 1
    ensures Reaches(a, s, st) && Settled(st) && !Delivered(st)
  {
    var s0 := Wipe(a, s);
    st := Defer(a, s, s0);
    assert st.conns[1].stage.Serving? && 0 !in st.conns[1].received;
  }

  /** The first size has a sender as soon as it is stored. */
  lemma FirstSizeSends(st: State, st': State)
    requires st.resizes == [] && Follows(st, st') && Senders(st') == 0
    ensures st'.resizes == []
  {
  }

  lemma {:induction false} NoSenderNoSize(trace: seq<State>, i: nat)
    requires IsRun(trace) && i < |trace| && forall n :: 0 <= n <= i ==> Senders(trace[n]) == 0
    ensures trace[i].resizes == []
  {
    if i > 0 {
      NoSenderNoSize(trace, i - 1);
      assert FollowsAt(trace, i);
      FirstSizeSends(trace[i - 1], trace[i]);
    }
  }

  /** Without a handler that holds a connection, or without a sender, there is nothing to deliver. */
  lemma NothingToDeliver(a: nat, s: nat, st: State)
    requires Reaches(a, s, st) && (a == 0 || s == 0)
    ensures Delivered(st) && Current(st)
  {
    var trace: seq<State> :| Ends(a, s, st, trace);
    var i := |trace| - 1;
    if s == 0 {
      NoSenderNoSize(trace, i);
    } else {
      assert NumActive(trace[i].conns) == 0;
      forall j | 0 <= j < |st.conns| ensures !st.conns[j].stage.Serving? {
        if st.conns[j].stage.Serving? { ActiveOne(st.conns, j); }
      }
    }
  }

  /**
   In all runs with at most `a` handlers between storing and clearing their connection and at most `s` senders holding
   a size at once: once nobody is sending, every serving guest connection has received the newest size, exactly when
   a <= 1 or nothing is ever sent.
   */
  lemma DeliveredIff(a: nat, s: nat)
    ensures (forall st :: Reaches(a, s, st) && Settled(st) ==> Delivered(st)) <==> a <= 1 || s == 0
  {
    if a <= 1 || s == 0 {
      forall st | Reaches(a, s, st) && Settled(st) ensures Delivered(st) {
        if s == 0 { NothingToDeliver(a, s, st); } else { DeliveredNarrow(a, s, st); }
      }
    } else {
      var st := WipedConnection(a, s);
    }
  }

  lemma DeliveredNarrow(a: nat, s: nat, st: State)
    requires Reaches(a, s, st) && Settled(st) && a <= 1
    ensures Delivered(st)
  {
    var trace :| Ends(a, s, st, trace);
    DeliveredAlone(trace, |trace| - 1);
  }

  lemma CurrentNarrow(a: nat, s: nat, st: State)
    requires Reaches(a, s, st) && Settled(st) && a <= 1 && s <= 1
    ensures Current(st)
  {
    var trace :| Ends(a, s, st, trace);
    CurrentInOrder(trace, |trace| - 1);
  }

  /**
   In the same runs the newest size is also the last one received exactly when a <= 1 and s <= 1, or no handler ever
   holds a connection, or nothing is ever sent.
   */
  lemma CurrentIff(a: nat, s: nat)
    ensures (forall st :: Reaches(a, s, st) && Settled(st) ==> Current(st)) <==> (a <= 1 && s <= 1) || a == 0 || s == 0
  {
    if a == 0 || s == 0 {
      forall st | Reaches(a, s, st) ensures Current(st) { NothingToDeliver(a, s, st); }
    } else if a <= 1 && s <= 1 {
      forall st | Reaches(a, s, st) && Settled(st) ensures Current(st) { CurrentNarrow(a, s, st); }
    } else if a >= 2 {
      var st := WipedConnection(a, s);
      NotCurrent(st);
    } else {
      var st := StaleReplay(s);
    }
  }

  lemma NotCurrent(st: State)
    requires !Delivered(st)
    ensures !Current(st)
  {
    var j :| 0 <= j < |st.conns| && st.conns[j].stage.Serving? && st.resizes != [] && |st.resizes| - 1 !in st.conns[j].received;
  }

  // --- one call at a time ---

  /** A Resize with nothing between its steps; a write that fails is never completed. */
  function ResizeAlone(st: State, cols: nat, rows: nat, writes: bool): State
    requires GuestIn(st)
  {
    if cols == 0 || rows == 0 then st else
      var v := |st.resizes|;
      var read := Apply(Apply(st, CallResize(cols, rows)), ReadGuest(v));
      if read.guest.Some? && writes then Apply(read, WriteGuest(v)) else read
  }

  /** The handler of connection j from a valid hello to the end of its replay, with nothing between its steps. */
  function HandshakeAlone(st: State, j: nat): State
    requires j < |st.conns| && st.conns[j].stage.Accepted?
  {
    var looked := Apply(Apply(Apply(Apply(st, Hello(j, true)), Handle(j)), Handle(j)), Handle(j));
    if st.resizes == [] then looked else Apply(Apply(looked, Handle(j)), Handle(j))
  }

  /** Alone, the handler stores its connection and the stored size goes to that connection, once. */
  lemma HandshakeDelivers(st: State, j: nat)
    requires j < |st.conns| && st.conns[j].stage.Accepted? && GuestIn(st)
    ensures var st' := HandshakeAlone(st, j);
      && st'.guest == Some(j) && st'.ready && st'.resizes == st.resizes && |st'.conns| == |st.conns|
      && st'.conns[j].stage.Serving?
      && st'.conns[j].received == st.conns[j].received + if st.resizes == [] then [] else [|st.resizes| - 1]
  {
    var hello := Apply(st, Hello(j, true));
    var stored := Apply(hello, Handle(j));
    var ready := Apply(stored, Handle(j));
    var looked := Apply(ready, Handle(j));
    assert looked.guest == Some(j) && looked.resizes == st.resizes;
    if st.resizes != [] {
      var to := Apply(looked, Handle(j));
      assert to.conns[j].stage == Writing(|st.resizes| - 1, j);
    }
  }
}
