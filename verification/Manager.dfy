/**
 The Manager (control-plane/internal/session/manager.go) and the launcher (cmd/microvm-terminal/main.go), one call at a
 time: what a session takes from the machine and what is given back. TAP devices are known by their lease numbers, VM
 directories and VM processes by session ids. Any command may fail; the errors of the commands that give something
 back are ignored by the source, so what they were to remove stays.
 */
module Manager {
  import opened Common
  import opened Sessions
  import Netalloc

  /** The commands of Create after Alloc, in order; CreateTAP is three of them. */
  datatype Step = TapAdd | TapMaster | TapUp | ReadRandom | MakeDir | ReadToken | PrepareRootfs | LaunchVm

  /** The commands that give back. */
  datatype Release = StopVm | DeleteTap | RemoveDir

  datatype Failure = Full | NoAddress | Command(step: Step) | BootTimeout

  datatype Created = Made(s: Session) | Failed(why: Failure)

  // --- what is taken from the machine ---

  datatype Holdings = Holdings(ips: set<nat>, taps: set<nat>, dirs: set<string>, procs: set<string>)

  const NOTHING: Holdings := Holdings({}, {}, {}, {})

  datatype Resource = Ip | Tap | Dir | Proc

  /** What the resources named are for the session with this id and lease. */
  function Items(rs: set<Resource>, id: string, l: Netalloc.Lease): Holdings {
    Holdings(if Ip in rs then {l.ip} else {}, if Tap in rs then {l.number} else {},
             if Dir in rs then {id} else {}, if Proc in rs then {id} else {})
  }

  function Plus(h: Holdings, g: Holdings): Holdings {
    Holdings(h.ips + g.ips, h.taps + g.taps, h.dirs + g.dirs, h.procs + g.procs)
  }

  function Minus(h: Holdings, g: Holdings): Holdings {
    Holdings(h.ips - g.ips, h.taps - g.taps, h.dirs - g.dirs, h.procs - g.procs)
  }

  predicate Disjoint(h: Holdings, id: string, l: Netalloc.Lease) {
    l.ip !in h.ips && l.number !in h.taps && id !in h.dirs && id !in h.procs
  }

  /** What Create has taken when the command of `step` fails. */
  function TakenBefore(step: Step): set<Resource> {
    match step
    case TapAdd => {Ip}
    case TapMaster => {Ip, Tap}
    case TapUp => {Ip, Tap}
    case ReadRandom => {Ip, Tap}
    case MakeDir => {Ip, Tap}
    case _ => {Ip, Tap, Dir}
  }

  /** What its exit for that failure gives back; the commands in `stuck` fail. */
  function GivenBack(step: Step, stuck: set<Release>): set<Resource> {
    var tap := if DeleteTap in stuck then {} else {Tap};
    var dir := if RemoveDir in stuck then {} else {Dir};
    match step
    case TapAdd => {Ip}
    case TapMaster => {Ip}
    case TapUp => {Ip}
    case ReadRandom => {Ip} + tap
    case MakeDir => {Ip} + tap
    case _ => {Ip} + tap + dir
  }

  /** What a failed Create leaves behind. */
  function LeftBehind(step: Step, stuck: set<Release>): set<Resource> {
    TakenBefore(step) - GivenBack(step, stuck)
  }

  /** What Destroy leaves behind. */
  function Unreleased(stuck: set<Release>): set<Resource> {
    (if DeleteTap in stuck then {Tap} else {}) + (if RemoveDir in stuck then {Dir} else {})
    + (if StopVm in stuck then {Proc} else {})
  }

  /** CreateTAP made the device and then failed. */
  predicate HalfMade(step: Step) {
    step == TapMaster || step == TapUp
  }

  /** A failed Create leaves something behind exactly when CreateTAP failed half way or a needed release failed. */
  lemma NothingLeftIff(step: Step, stuck: set<Release>)
    ensures LeftBehind(step, stuck) == {} <==>
      && !HalfMade(step)
      && (DeleteTap in stuck ==> step == TapAdd)
      && (RemoveDir in stuck ==> Dir !in TakenBefore(step))
    ensures stuck == {} ==> LeftBehind(step, stuck) == if HalfMade(step) then {Tap} else {}
    ensures LeftBehind(step, stuck) <= {Tap, Dir}
  {
    var left := LeftBehind(step, stuck);
    assert Tap in left <==> HalfMade(step) || (DeleteTap in stuck && step != TapAdd);
    assert Dir in left <==> Dir in TakenBefore(step) && RemoveDir in stuck;
    assert Ip !in left && Proc !in left;
  }

  /** The machine is as it was exactly when nothing is left behind. */
  lemma UnchangedIff(h: Holdings, rs: set<Resource>, id: string, l: Netalloc.Lease)
    requires Disjoint(h, id, l)
    ensures Plus(h, Items(rs, id, l)) == h <==> rs == {}
  {
    if Plus(h, Items(rs, id, l)) == h {
      assert l.ip !in h.ips + Items(rs, id, l).ips && l.number !in h.taps + Items(rs, id, l).taps;
      assert id !in h.dirs + Items(rs, id, l).dirs && id !in h.procs + Items(rs, id, l).procs;
      forall r: Resource ensures r !in rs { match r case Ip => case Tap => case Dir => case Proc => }
    }
  }

  /** Taking and giving back leaves what is left behind. */
  lemma NetEffect(h: Holdings, step: Step, stuck: set<Release>, id: string, l: Netalloc.Lease)
    requires Disjoint(h, id, l)
    ensures Minus(Plus(h, Items(TakenBefore(step), id, l)), Items(GivenBack(step, stuck), id, l))
         == Plus(h, Items(LeftBehind(step, stuck), id, l))
  {
  }

  /** A CreateTAP that fails half way, with every release working: the device stays, and only it. */
  lemma HalfMadeTapStays(h: Holdings, id: string, l: Netalloc.Lease)
    requires Disjoint(h, id, l)
    ensures var after := Plus(h, Items(LeftBehind(TapMaster, {}), id, l));
      after == h.(taps := h.taps + {l.number}) && after != h
  {
    NothingLeftIff(TapMaster, {});
    UnchangedIff(h, {Tap}, id, l);
  }

  // --- leases ---

  /** What the sessions with these leases need. */
  ghost function Needs(leases: map<string, Netalloc.Lease>): Holdings {
    Holdings(set id | id in leases :: leases[id].ip, set id | id in leases :: leases[id].number, leases.Keys, leases.Keys)
  }

  const ALL: set<Resource> := {Ip, Tap, Dir, Proc}

  /** Leases are numbered in order, no two sessions share one, and the address follows from the number. */
  ghost predicate Ordered(leases: map<string, Netalloc.Lease>, base: Netalloc.Block, issued: nat) {
    && (forall id :: id in leases ==>
          1 <= leases[id].number <= issued && leases[id].ip == base.network + 1 + leases[id].number)
    && (forall id, id' :: id in leases && id' in leases && leases[id].number == leases[id'].number ==> id == id')
  }

  lemma NewLease(leases: map<string, Netalloc.Lease>, base: Netalloc.Block, issued: nat, id: string)
    requires Ordered(leases, base, issued) && id !in leases
    ensures var l := Netalloc.Nth(base, issued);
      && Ordered(leases, base, issued + 1) && Ordered(leases[id := l], base, issued + 1)
      && Needs(leases[id := l]) == Plus(Needs(leases), Items(ALL, id, l))
  {
    var l := Netalloc.Nth(base, issued);
    var more := leases[id := l];
    assert forall x :: x in more ==> more[x] == if x == id then l else leases[x];
    assert Needs(more).ips == Needs(leases).ips + {l.ip} by {
      assert more[id] == l;
      forall x | x in leases ensures leases[x].ip in Needs(more).ips { assert more[x] == leases[x]; }
    }
    assert Needs(more).taps == Needs(leases).taps + {l.number} by {
      assert more[id] == l;
      forall x | x in leases ensures leases[x].number in Needs(more).taps { assert more[x] == leases[x]; }
    }
  }

  lemma LeaseEnds(leases: map<string, Netalloc.Lease>, base: Netalloc.Block, issued: nat, id: string)
    requires Ordered(leases, base, issued) && id in leases
    ensures Ordered(leases - {id}, base, issued)
    ensures Needs(leases - {id}) == Minus(Needs(leases), Items(ALL, id, leases[id]))
  {
    var less := leases - {id};
    forall x | x in less
      ensures less[x] == leases[x] && less[x].ip != leases[id].ip && less[x].number != leases[id].number
    {
    }
    assert Needs(less).ips == Needs(leases).ips - {leases[id].ip} by {
      forall x | x in leases && x != id ensures leases[x].ip in Needs(less).ips { assert less[x] == leases[x]; }
    }
    assert Needs(less).taps == Needs(leases).taps - {leases[id].number} by {
      forall x | x in leases && x != id ensures leases[x].number in Needs(less).taps { assert less[x] == leases[x]; }
    }
  }

  ghost function LeasesOf(sessions: map<string, Session>): map<string, Netalloc.Lease> {
    map id | id in sessions :: sessions[id].lease
  }

  // --- the books ---

  /**
   Addresses in use are exactly those of the sessions in the map; TAP devices, directories and processes may be more
   than the sessions need, by what failed commands left behind.
   */
  ghost predicate Books(h: Holdings, leases: map<string, Netalloc.Lease>, base: Netalloc.Block, issued: nat) {
    && Ordered(leases, base, issued)
    && h.ips == Needs(leases).ips && Needs(leases).taps <= h.taps
    && leases.Keys <= h.dirs && leases.Keys <= h.procs
    && forall n :: n in h.taps ==> n <= issued
  }

  /** What nobody in the map needs. */
  ghost function Excess(h: Holdings, leases: map<string, Netalloc.Lease>): Holdings {
    Minus(h, Needs(leases))
  }

  predicate Unheard(h: Holdings, id: string) {
    id !in h.dirs && id !in h.procs
  }

  lemma BooksAtFailure(h: Holdings, leases: map<string, Netalloc.Lease>, base: Netalloc.Block, issued: nat, id: string,
                       rs: set<Resource>)
    requires Books(h, leases, base, issued) && Unheard(h, id) && Ip !in rs
    ensures var l := Netalloc.Nth(base, issued);
      Disjoint(h, id, l) && Books(Plus(h, Items(rs, id, l)), leases, base, issued + 1)
  {
    NewLease(leases, base, issued, id);
  }

  lemma BooksAtCreate(h: Holdings, leases: map<string, Netalloc.Lease>, base: Netalloc.Block, issued: nat, id: string)
    requires Books(h, leases, base, issued) && Unheard(h, id)
    ensures var l := Netalloc.Nth(base, issued);
      Disjoint(h, id, l) && Books(Plus(h, Items(ALL, id, l)), leases[id := l], base, issued + 1)
  {
    NewLease(leases, base, issued, id);
  }

  lemma BooksAtEnd(h: Holdings, leases: map<string, Netalloc.Lease>, base: Netalloc.Block, issued: nat, id: string,
                   rs: set<Resource>)
    requires Books(h, leases, base, issued) && id in leases && Ip !in rs
    ensures Books(Minus(h, Items(ALL - rs, id, leases[id])), leases - {id}, base, issued)
    ensures Excess(Minus(h, Items(ALL - rs, id, leases[id])), leases - {id})
         == Plus(Excess(h, leases), Items(rs, id, leases[id]))
  {
    LeaseEnds(leases, base, issued, id);
    var l := leases[id];
    assert l.number in Needs(leases).taps && l.ip in Needs(leases).ips;
  }

  /** What a launch that fails leaves behind. */
  function LeftOver(why: Failure, stuck: set<Release>): set<Resource> {
    match why
    case Command(step) => LeftBehind(step, stuck)
    case BootTimeout => Unreleased(stuck)
    case _ => {}
  }

  /** The machine after a launch that failed; it is as before exactly when nothing is left behind. */
  ghost predicate FailedWith(why: Failure, h: Holdings, h': Holdings, sid: string, l: Netalloc.Lease, stuck: set<Release>) {
    if why.Full? || why.NoAddress? then h' == h else
      var rs := LeftOver(why, stuck);
      h' == Plus(h, Items(rs, sid, l)) && (h' == h <==> rs == {})
  }

  lemma FailureLeaves(h: Holdings, leases: map<string, Netalloc.Lease>, base: Netalloc.Block, issued: nat, id: string,
                      step: Step, stuck: set<Release>)
    requires Books(h, leases, base, issued) && Unheard(h, id)
    ensures var l := Netalloc.Nth(base, issued); var h' := Plus(h, Items(LeftBehind(step, stuck), id, l));
      Books(h', leases, base, issued + 1) && FailedWith(Command(step), h, h', id, l, stuck)
  {
    var rs := LeftBehind(step, stuck);
    NothingLeftIff(step, stuck);
    BooksAtFailure(h, leases, base, issued, id, rs);
    UnchangedIff(h, rs, id, Netalloc.Nth(base, issued));
  }

  /** With every release working a failed launch leaves nothing behind exactly when CreateTAP did not fail half way. */
  lemma CleanLaunchIff(why: Failure)
    ensures LeftOver(why, {}) == {} <==> !(why.Command? && HalfMade(why.step))
  {
    if why.Command? { NothingLeftIff(why.step, {}); }
  }

  /** A session made and then destroyed. */
  lemma TimeoutLeaves(h: Holdings, id: string, l: Netalloc.Lease, stuck: set<Release>)
    requires Disjoint(h, id, l)
    ensures FailedWith(BootTimeout, h, Minus(Plus(h, Items(ALL, id, l)), Items(ALL - Unreleased(stuck), id, l)), id, l, stuck)
  {
    var rs := Unreleased(stuck);
    assert Minus(Plus(h, Items(ALL, id, l)), Items(ALL - rs, id, l)) == Plus(h, Items(rs, id, l));
    UnchangedIff(h, rs, id, l);
  }

  /** What is left of the sessions in `ids` when the releases `stuck` names for each have failed. */
  function StuckSum(ids: seq<string>, leases: map<string, Netalloc.Lease>, stuck: string -> set<Release>): Holdings
  {
    if ids == [] then NOTHING else
      var id := ids[|ids| - 1];
      var rest := StuckSum(ids[..|ids| - 1], leases, stuck);
      if id in leases then Plus(rest, Items(Unreleased(stuck(id)), id, leases[id])) else rest
  }

  lemma {:induction false} NothingStuck(ids: seq<string>, leases: map<string, Netalloc.Lease>, stuck: string -> set<Release>)
    requires forall id :: id in ids ==> stuck(id) == {}
    ensures StuckSum(ids, leases, stuck) == NOTHING
  {
    if ids != [] {
      var n := |ids| - 1;
      assert ids[n] in ids;
      NothingStuck(ids[..n], leases, stuck);
    }
  }

  class Manager {
    const maxConcurrent: int
    const allocator: Netalloc.Allocator
    var sessions: map<string, Session>
    var taps: set<nat>
    var dirs: set<string>
    var procs: set<string>

    ghost function Held(): Holdings
      reads this, allocator
    {
      Holdings(allocator.inUse, taps, dirs, procs)
    }

    ghost function Leases(): map<string, Netalloc.Lease>
      reads this
    {
      LeasesOf(sessions)
    }

    /** What is taken from the machine and belongs to no session. */
    ghost function Leaked(): Holdings
      reads this, allocator
    {
      Excess(Held(), Leases())
    }

    /** The done channel of the session with this id. */
    ghost function Named(id: string): set<Latch>
      reads this
    {
      if id in sessions then {sessions[id].done} else {}
    }

    ghost predicate Valid()
      reads this, allocator
    {
      && Netalloc.Valid(allocator.View())
      && (forall id :: id in sessions ==> sessions[id].id == id)
      && Books(Held(), Leases(), allocator.base, allocator.tapIdx)
    }

    constructor (limit: int, p: Netalloc.Prefix)
      requires p.Valid()
      ensures Valid() && fresh(allocator) && maxConcurrent == limit && sessions == map[] && Held() == NOTHING
    {
      maxConcurrent := limit;
      allocator := new Netalloc.Allocator(p);
      sessions, taps, dirs, procs := map[], {}, {}, {};
    }

    /** Why Create fails, if it does; `fails` is the first command that would. */
    ghost function Refusal(fails: Option<Step>): Option<Failure>
      reads this, allocator
    {
      if |sessions| >= maxConcurrent then Some(Full)
      else if allocator.tapIdx >= allocator.base.Capacity() then Some(NoAddress)
      else if fails.Some? then Some(Command(fails.value)) else None
    }

    /** The lease the next Alloc gives. */
    ghost function Upcoming(): Netalloc.Lease
      reads allocator
    {
      Netalloc.Nth(allocator.base, allocator.tapIdx)
    }

    /** CreateTAP: the device is there once the first command has succeeded, whatever the other two do. */
    method MakeTap(n: nat, fails: Option<Step>) returns (ok: bool)
      modifies this`taps
      ensures taps == old(taps) + if fails == Some(TapAdd) then {} else {n}
      ensures ok == (fails.None? || !(fails.value == TapAdd || HalfMade(fails.value)))
    {
      if fails == Some(TapAdd) {
        return false;
      }
      taps := taps + {n};
      return fails != Some(TapMaster) && fails != Some(TapUp);
    }

    method RemoveTap(n: nat, stuck: set<Release>)
      modifies this`taps
      ensures taps == old(taps) - if DeleteTap in stuck then {} else {n}
    {
      if DeleteTap !in stuck {
        taps := taps - {n};
      }
    }

    method RemoveAll(sid: string, stuck: set<Release>)
      modifies this`dirs
      ensures dirs == old(dirs) - if RemoveDir in stuck then {} else {sid}
    {
      if RemoveDir !in stuck {
        dirs := dirs - {sid};
      }
    }

    /** cleanup. */
    method Cleanup(sid: string, l: Netalloc.Lease, stuck: set<Release>)
      requires Netalloc.Valid(allocator.View())
      modifies this`dirs, this`taps, allocator`inUse
      ensures Netalloc.Valid(allocator.View())
      ensures Held() == Minus(old(Held()), Items({Ip, Tap, Dir} - Unreleased(stuck), sid, l))
    {
      RemoveAll(sid, stuck);
      RemoveTap(l.number, stuck);
      allocator.Release(l.ip);
    }

    /** The commands of Create after Alloc: everything is taken, or what the exit leaves behind. */
    method Acquire(sid: string, l: Netalloc.Lease, fails: Option<Step>, stuck: set<Release>, ghost before: Holdings)
      requires Netalloc.Valid(allocator.View()) && Disjoint(before, sid, l)
      requires Held() == Plus(before, Items({Ip}, sid, l))
      modifies this`taps, this`dirs, this`procs, allocator`inUse
      ensures Netalloc.Valid(allocator.View())
      ensures Held() == Plus(before, Items(if fails.Some? then LeftBehind(fails.value, stuck) else ALL, sid, l))
    {
      if fails.Some? {
        NetEffect(before, fails.value, stuck, sid, l);
      }
      var ok := MakeTap(l.number, fails);
      if !ok {
        assert Held() == Plus(before, Items(TakenBefore(fails.value), sid, l));
        allocator.Release(l.ip);
        return;
      }
      if fails == Some(ReadRandom) || fails == Some(MakeDir) {
        assert Held() == Plus(before, Items(TakenBefore(fails.value), sid, l));
        RemoveTap(l.number, stuck);
        allocator.Release(l.ip);
        return;
      }
      dirs := dirs + {sid};
      if fails.Some? {
        assert Held() == Plus(before, Items(TakenBefore(fails.value), sid, l));
        assert GivenBack(fails.value, stuck) == {Ip, Tap, Dir} - Unreleased(stuck);
        Cleanup(sid, l, stuck);
        return;
      }
      procs := procs + {sid};
    }

    /** The call of Alloc. */
    method Lease(ghost sid: string) returns (lease: Option<Netalloc.Lease>)
      requires Valid()
      modifies allocator`next, allocator`inUse, allocator`tapIdx, allocator`cidIdx
      ensures Netalloc.Valid(allocator.View())
      ensures lease == if old(allocator.tapIdx) >= allocator.base.Capacity() then None else Some(old(Upcoming()))
      ensures lease.None? ==> Held() == old(Held()) && allocator.tapIdx == old(allocator.tapIdx)
      ensures lease.Some? ==>
        Held() == Plus(old(Held()), Items({Ip}, sid, lease.value)) && allocator.tapIdx == old(allocator.tapIdx) + 1
    {
      Netalloc.AllocStep(allocator.View());
      lease := allocator.Alloc();
    }

    method Insert(sid: string, l: Netalloc.Lease, now: Time) returns (s: Session)
      requires Netalloc.Valid(allocator.View()) && forall id :: id in sessions ==> sessions[id].id == id
      requires Books(Held(), Leases()[sid := l], allocator.base, allocator.tapIdx)
      modifies this`sessions
      ensures Valid() && fresh(s) && fresh(s.done) && !s.done.closed && s.id == sid && s.lease == l && sessions == old(sessions)[sid := s]
    {
      s := new Session(sid, l, now);
      sessions := sessions[sid := s];
      assert Leases() == old(Leases())[sid := l];
    }

    /**
     `sid` is the new UUID. A Create that fails leaves the map as it was and the machine as it was but for what the
     failing command and the releases that fail leave behind, which is nothing exactly as NothingLeftIff says.
     */
    method Create(sid: string, fails: Option<Step>, stuck: set<Release>, now: Time) returns (r: Created)
      requires Valid() && Unheard(Held(), sid)
      modifies this, allocator
      ensures Valid()
      ensures (if r.Failed? then Some(r.why) else None) == old(Refusal(fails))
      ensures r.Failed? ==> sessions == old(sessions)
      ensures r.Failed? ==> FailedWith(r.why, old(Held()), Held(), sid, old(Upcoming()), stuck)
      ensures r.Made? ==> fresh(r.s) && fresh(r.s.done) && !r.s.done.closed && r.s.id == sid && r.s.lease == old(Upcoming())
      ensures r.Made? ==> sessions == old(sessions)[sid := r.s] && Held() == Plus(old(Held()), Items(ALL, sid, r.s.lease))
    {
      if |sessions| >= maxConcurrent {
        return Failed(Full);
      }
      var lease, why := Prepare(sid, fails, stuck);
      if lease.None? {
        return Failed(why);
      }
      var s := Insert(sid, lease.value, now);
      return Made(s);
    }

    /** Everything a session needs is taken, or what a failing command leaves behind. */
    method Prepare(sid: string, fails: Option<Step>, stuck: set<Release>)
        returns (lease: Option<Netalloc.Lease>, why: Failure)
      requires Valid() && Unheard(Held(), sid)
      modifies this`taps, this`dirs, this`procs, allocator
      ensures Netalloc.Valid(allocator.View())
      ensures lease == if old(allocator.tapIdx) >= allocator.base.Capacity() || fails.Some? then None
                       else Some(old(Upcoming()))
      ensures lease.None? ==> Books(Held(), Leases(), allocator.base, allocator.tapIdx)
      ensures lease.None? ==> why == if old(allocator.tapIdx) >= allocator.base.Capacity() then NoAddress
                                     else Command(fails.value)
      ensures lease.None? ==> FailedWith(why, old(Held()), Held(), sid, old(Upcoming()), stuck)
      ensures lease.Some? ==> Held() == Plus(old(Held()), Items(ALL, sid, lease.value))
      ensures lease.Some? ==> Books(Held(), Leases()[sid := lease.value], allocator.base, allocator.tapIdx)
    {
      ghost var h, leases, issued := Held(), Leases(), allocator.tapIdx;
      why := NoAddress;
      lease := Lease(sid);
      if lease.None? {
        return;
      }
      BooksAtCreate(h, leases, allocator.base, issued, sid);
      Acquire(sid, lease.value, fails, stuck, h);
      if fails.Some? {
        FailureLeaves(h, leases, allocator.base, issued, sid, fails.value, stuck);
        return None, Command(fails.value);
      }
    }

    /** Gives back what the session held, but for what the commands in `stuck` were to remove. */
    method Destroy(id: string, stuck: set<Release>) returns (ok: bool)
      modifies this, allocator, Named(id)
      ensures sessions == old(sessions) - {id} && (old(Valid()) ==> Valid())
      ensures ok == (id in old(sessions)) && (ok ==> old(sessions)[id].done.closed)
      ensures Held() == if ok then Minus(old(Held()), Items(ALL - Unreleased(stuck), id, old(sessions)[id].lease))
                        else old(Held())
      ensures old(Valid()) ==>
        Leaked() == if ok then Plus(old(Leaked()), Items(Unreleased(stuck), id, old(sessions)[id].lease)) else old(Leaked())
    {
      ok := id in sessions;
      if ok {
        Remove(id, stuck);
      } else {
        assert sessions - {id} == sessions;
      }
    }

    method Remove(id: string, stuck: set<Release>)
      requires id in sessions
      modifies this, allocator, Named(id)
      ensures sessions == old(sessions) - {id} && old(sessions)[id].done.closed && (old(Valid()) ==> Valid())
      ensures Held() == Minus(old(Held()), Items(ALL - Unreleased(stuck), id, old(sessions)[id].lease))
      ensures old(Valid()) ==> Leaked() == Plus(old(Leaked()), Items(Unreleased(stuck), id, old(sessions)[id].lease))
    {
      var s := sessions[id];
      ghost var h, leases := Held(), Leases();
      sessions := sessions - {id};
      s.done.Close();
      GiveBack(id, s.lease, stuck);
      assert Leases() == leases - {id};
      if old(Valid()) {
        BooksAtEnd(h, leases, allocator.base, allocator.tapIdx, id, Unreleased(stuck));
      }
    }

    /** Stop, DeleteTAP, Release and RemoveAll of Destroy. */
    method GiveBack(id: string, l: Netalloc.Lease, stuck: set<Release>)
      modifies this`taps, this`dirs, this`procs, allocator`inUse
      ensures old(Netalloc.Valid(allocator.View())) ==> Netalloc.Valid(allocator.View())
      ensures Held() == Minus(old(Held()), Items(ALL - Unreleased(stuck), id, l))
    {
      if StopVm !in stuck {
        procs := procs - {id};
      }
      RemoveTap(l.number, stuck);
      allocator.Release(l.ip);
      RemoveAll(id, stuck);
    }

    /** managerLauncher.Launch. `ready`: the guest's handshake comes before the boot timeout. */
    method Launch(sid: string, fails: Option<Step>, stuck: set<Release>, now: Time, ready: bool) returns (r: Created)
      requires Valid() && Unheard(Held(), sid)
      modifies this, allocator
      ensures Valid()
      ensures (if r.Failed? then Some(r.why) else None)
           == if old(Refusal(fails)).Some? then old(Refusal(fails)) else if ready then None else Some(BootTimeout)
      ensures r.Failed? ==> sessions == old(sessions) && FailedWith(r.why, old(Held()), Held(), sid, old(Upcoming()), stuck)
      ensures r.Made? ==> fresh(r.s) && fresh(r.s.done) && !r.s.done.closed && r.s.id == sid && sessions == old(sessions)[sid := r.s]
      ensures r.Made? ==> Held() == Plus(old(Held()), Items(ALL, sid, old(Upcoming())))
    {
      BooksAtCreate(Held(), Leases(), allocator.base, allocator.tapIdx, sid);
      r := Create(sid, fails, stuck, now);
      if r.Made? && !ready {
        Abandon(sid, stuck, old(sessions), old(Held()));
        r := Failed(BootTimeout);
      }
    }

    /** Destroys the session just created, which leaves the others. */
    method Abandon(sid: string, stuck: set<Release>, ghost others: map<string, Session>, ghost h: Holdings)
      requires Valid() && sid in sessions && sessions == others[sid := sessions[sid]] && sid !in others
      requires Disjoint(h, sid, sessions[sid].lease) && Held() == Plus(h, Items(ALL, sid, sessions[sid].lease))
      modifies this, allocator, Named(sid)
      ensures Valid() && sessions == others
      ensures FailedWith(BootTimeout, h, Held(), sid, old(sessions[sid].lease), stuck)
    {
      TimeoutLeaves(h, sid, sessions[sid].lease, stuck);
      PutBack(others, sid, sessions[sid]);
      Remove(sid, stuck);
    }

    /** `ids` is the order in which the map is listed, `stuck` the releases that fail for each session. */
    method Shutdown(ids: seq<string>, stuck: string -> set<Release>)
      requires Valid() && Ids(ids) == sessions.Keys && |ids| == |sessions|
      modifies this, allocator, set s | s in sessions.Values :: s.done
      ensures Valid() && sessions == map[] && allocator.inUse == {}
      ensures Held() == Plus(old(Leaked()), StuckSum(ids, old(Leases()), stuck))
      ensures (forall id :: id in old(sessions) ==> stuck(id) == {}) ==> Held() == old(Leaked())
    {
      ghost var all, leaked, leases := sessions, Leaked(), Leases();
      DestroyAll(ids, stuck, all, Leaked());
      AllGone(ids, all, Leases(), Held());
      if forall id :: id in all ==> stuck(id) == {} {
        forall id | id in ids ensures stuck(id) == {} { assert id in Ids(ids); }
        NothingStuck(ids, leases, stuck);
        Nothing(leaked);
      }
    }

    /** The first `i` sessions listed are gone. */
    ghost predicate Halfway(ids: seq<string>, i: nat, stuck: string -> set<Release>, all: map<string, Session>, leaked: Holdings)
      reads this, allocator
    {
      && i <= |ids| && sessions == all - Ids(ids[..i])
      && Leaked() == Plus(leaked, StuckSum(ids[..i], LeasesOf(all), stuck))
    }

    lemma Begin(ids: seq<string>, stuck: string -> set<Release>, all: map<string, Session>, leaked: Holdings)
      requires sessions == all && Leaked() == leaked
      ensures Halfway(ids, 0, stuck, all, leaked)
    {
      Nothing(leaked);
      assert ids[..0] == [];
    }

    method DestroyAll(ids: seq<string>, stuck: string -> set<Release>,
                      ghost all: map<string, Session>, ghost leaked: Holdings)
      requires Valid() && Ids(ids) == all.Keys && |ids| == |all| && sessions == all && Leaked() == leaked
      modifies this, allocator, set s | s in all.Values :: s.done
      ensures Valid() && Halfway(ids, |ids|, stuck, all, leaked)
    {
      Begin(ids, stuck, all, leaked);
      for i := 0 to |ids|
        invariant Valid() && Halfway(ids, i, stuck, all, leaked)
      {
        ShutdownOne(ids, i, stuck, all, leaked);
      }
    }

    method ShutdownOne(ids: seq<string>, i: nat, stuck: string -> set<Release>,
                       ghost all: map<string, Session>, ghost leaked: Holdings)
      requires Valid() && i < |ids| && Ids(ids) == all.Keys && |ids| == |all| && Halfway(ids, i, stuck, all, leaked)
      modifies this, allocator, set s | s in all.Values :: s.done
      ensures Valid() && Halfway(ids, i + 1, stuck, all, leaked)
    {
      NotSeen(ids, i);
      assert ids[i] in sessions && sessions[ids[i]] == all[ids[i]];
      MoreStuck(ids, i, LeasesOf(all), stuck, leaked);
      LessLeft(all, ids, i);
      var _ := Destroy(ids[i], stuck(ids[i]));
    }
  }

  lemma PutBack<T>(m: map<string, T>, id: string, x: T)
    requires id !in m
    ensures m[id := x] - {id} == m
  {
  }

  lemma PlusAssociative(a: Holdings, b: Holdings, c: Holdings)
    ensures Plus(a, Plus(b, c)) == Plus(Plus(a, b), c)
  {
  }

  lemma Nothing(h: Holdings)
    ensures Plus(h, NOTHING) == h
  {
  }

  lemma MoreStuck(ids: seq<string>, i: nat, leases: map<string, Netalloc.Lease>, stuck: string -> set<Release>, leaked: Holdings)
    requires i < |ids| && ids[i] in leases
    ensures Plus(leaked, StuckSum(ids[..i + 1], leases, stuck))
         == Plus(Plus(leaked, StuckSum(ids[..i], leases, stuck)), Items(Unreleased(stuck(ids[i])), ids[i], leases[ids[i]]))
  {
    var some := ids[..i + 1];
    assert some[..i] == ids[..i] && some[i] == ids[i];
    PlusAssociative(leaked, StuckSum(ids[..i], leases, stuck), Items(Unreleased(stuck(ids[i])), ids[i], leases[ids[i]]));
  }

  lemma LessLeft<T>(all: map<string, T>, ids: seq<string>, i: nat)
    requires i < |ids|
    ensures all - Ids(ids[..i]) - {ids[i]} == all - Ids(ids[..i + 1])
  {
    IdsSnoc(ids, i);
  }

  lemma AllGone<T>(ids: seq<string>, all: map<string, T>, leases: map<string, Netalloc.Lease>, h: Holdings)
    requires Ids(ids) == all.Keys && leases.Keys == (all - Ids(ids[..|ids|])).Keys
    ensures all - Ids(ids[..|ids|]) == map[] && ids[..|ids|] == ids && Excess(h, leases) == h && Needs(leases) == NOTHING
  {
    assert ids[..|ids|] == ids;
    assert leases.Keys == {};
  }
}
