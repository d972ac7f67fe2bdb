/** The Host (control-plane/internal/session/host.go) over the Manager, one call at a time. */
module Host {
  import opened Common
  import opened Sessions
  import M = Manager
  import Reaper

  datatype Error = AtCapacity | NotFound | LaunchFailed(why: M.Failure)

  /** How the environment lets one launch go. */
  datatype Env = Env(sid: string, fails: Option<M.Step>, stuck: set<M.Release>, now: Time, ready: bool)

  /** A call of the onGone hook. */
  datatype Call = Call(id: string, hook: nat)

  /** `hook` is what OnGone registered last, `watched` the sessions with a watch goroutine, `told` the hook calls in order. */
  class Host {
    const maxLive: int
    const mgr: M.Manager
    var sessions: map<string, Session>
    var hook: Option<nat>
    var watched: set<Session>
    var told: seq<Call>

    /** With calls that do not overlap the limit is exact, and every session is watched. */
    ghost predicate Valid()
      reads this
    {
      && maxLive > 0 && |sessions| <= maxLive
      && forall id :: id in sessions ==> sessions[id].id == id && sessions[id] in watched
    }

    constructor (limit: int, m: M.Manager)
      ensures Valid() && mgr == m && maxLive == (if limit <= 0 then 3 else limit)
      ensures sessions == map[] && hook == None && told == []
    {
      maxLive, mgr := if limit <= 0 then 3 else limit, m;
      sessions, hook, watched, told := map[], None, {}, [];
    }

    /** The insert, and the start of the watch goroutine. */
    method Admit(s: Session)
      requires Valid() && |sessions| < maxLive && s.id !in sessions
      modifies this`sessions, this`watched
      ensures Valid() && sessions == old(sessions)[s.id := s] && watched == old(watched) + {s}
    {
      sessions := sessions[s.id := s];
      watched := watched + {s};
    }

    /** At capacity nothing is launched; a launch that fails leaves the Host as it was. */
    method Create(e: Env) returns (r: Result<Session, Error>)
      requires Valid() && mgr.Valid() && M.Unheard(mgr.Held(), e.sid) && e.sid !in sessions
      modifies this`sessions, this`watched, mgr, mgr.allocator
      ensures Valid() && mgr.Valid()
      ensures r == Err(AtCapacity) <==> |old(sessions)| >= maxLive
      ensures r == Err(AtCapacity) ==> mgr.sessions == old(mgr.sessions) && mgr.Held() == old(mgr.Held())
      ensures r.Err? ==> sessions == old(sessions) && mgr.sessions == old(mgr.sessions) && r.error != NotFound
      ensures r.Err? && r.error.LaunchFailed? ==>
        M.FailedWith(r.error.why, old(mgr.Held()), mgr.Held(), e.sid, old(mgr.Upcoming()), e.stuck)
      ensures r.Ok? ==> r.value.id == e.sid && fresh(r.value) && r.value in watched
      ensures r.Ok? ==> sessions == old(sessions)[e.sid := r.value] && mgr.sessions == old(mgr.sessions)[e.sid := r.value]
    {
      if |sessions| >= maxLive {
        return Err(AtCapacity);
      }
      var c := mgr.Launch(e.sid, e.fails, e.stuck, e.now, e.ready);
      if c.Failed? {
        return Err(LaunchFailed(c.why));
      }
      Admit(c.s);
      return Ok(c.s);
    }

    /** `popped` is what AcquireWarm gives. At capacity it is dropped: the Manager still runs it and the Host does not list it. */
    method CreateWarm(popped: Option<Session>, e: Env) returns (r: Result<Session, Error>)
      requires Valid() && mgr.Valid() && M.Unheard(mgr.Held(), e.sid) && e.sid !in sessions
      requires popped.Some? ==> popped.value.id !in sessions
      modifies this`sessions, this`watched, mgr, mgr.allocator
      ensures Valid() && mgr.Valid()
      ensures r == Err(AtCapacity) <==> |old(sessions)| >= maxLive
      ensures r.Err? ==> sessions == old(sessions) && mgr.sessions == old(mgr.sessions)
      ensures popped.Some? ==> mgr.sessions == old(mgr.sessions) && mgr.Held() == old(mgr.Held())
      ensures popped.Some? && r.Ok? ==> r.value == popped.value
      ensures r.Ok? ==> sessions == old(sessions)[r.value.id := r.value] && r.value in watched
    {
      if popped.Some? {
        if |sessions| >= maxLive {
          return Err(AtCapacity);
        }
        Admit(popped.value);
        return Ok(popped.value);
      }
      r := Create(e);
    }

    method Tell(id: string)
      modifies this`told
      ensures told == if hook.Some? then old(told) + [Call(id, hook.value)] else old(told)
    {
      if hook.Some? {
        told := told + [Call(id, hook.value)];
      }
    }

    /** The body of the watch goroutine, once the session's done channel is closed. */
    method Watch(s: Session)
      requires Valid() && s.done.closed
      modifies this`sessions, this`told
      ensures Valid()
      ensures var was := s.id in old(sessions) && old(sessions)[s.id] == s;
        && sessions == (if was then old(sessions) - {s.id} else old(sessions))
        && told == if was && hook.Some? then old(told) + [Call(s.id, hook.value)] else old(told)
    {
      if s.id in sessions && sessions[s.id] == s {
        Shrinks(sessions, s.id);
        sessions := sessions - {s.id};
        Tell(s.id);
      }
    }

    /** The done channel of the session with this id. */
    ghost function Named(id: string): set<Latch>
      reads this
    {
      if id in sessions then {sessions[id].done} else {}
    }

    /** The Manager's resources without those of session `id`, but for what the commands in `stuck` were to remove. */
    ghost function Freed(h: M.Holdings, vms: map<string, Session>, id: string, stuck: set<M.Release>): M.Holdings {
      if id in vms then M.Minus(h, M.Items(M.ALL - M.Unreleased(stuck), id, vms[id].lease)) else h
    }

    /** Host and Manager lose the session and no other, its done channel is closed, what it held is given back, the hook is called. */
    method Destroy(id: string, stuck: set<M.Release>) returns (r: Result<(), Error>)
      requires Valid()
      modifies this`sessions, this`told, mgr, mgr.allocator, Named(id), mgr.Named(id)
      ensures Valid() && sessions == old(sessions) - {id}
      ensures r == if id in old(sessions) then Ok(()) else Err(NotFound)
      ensures mgr.sessions == if r.Ok? then old(mgr.sessions) - {id} else old(mgr.sessions)
      ensures mgr.Held() == if r.Ok? then Freed(old(mgr.Held()), old(mgr.sessions), id, stuck) else old(mgr.Held())
      ensures told == if r.Ok? && hook.Some? then old(told) + [Call(id, hook.value)] else old(told)
      ensures r.Ok? ==> old(sessions)[id].done.closed
      ensures old(mgr.Valid()) ==> mgr.Valid()
    {
      if id !in sessions {
        assert sessions - {id} == sessions;
        return Err(NotFound);
      }
      Remove(id, stuck);
      return Ok(());
    }

    method Remove(id: string, stuck: set<M.Release>)
      requires Valid() && id in sessions
      modifies this`sessions, this`told, mgr, mgr.allocator, Named(id), mgr.Named(id)
      ensures Valid() && sessions == old(sessions) - {id} && mgr.sessions == old(mgr.sessions) - {id}
      ensures mgr.Held() == Freed(old(mgr.Held()), old(mgr.sessions), id, stuck)
      ensures told == if hook.Some? then old(told) + [Call(id, hook.value)] else old(told)
      ensures old(sessions)[id].done.closed && (old(mgr.Valid()) ==> mgr.Valid())
    {
      var s := Take(id);
      var _ := mgr.Destroy(id, stuck);
      s.done.Close();
      Tell(id);
    }

    /** The locked region of Destroy. */
    method Take(id: string) returns (s: Session)
      requires Valid() && id in sessions
      modifies this`sessions
      ensures Valid() && s == old(sessions)[id] && sessions == old(sessions) - {id}
    {
      s := sessions[id];
      Shrinks(sessions, id);
      sessions := sessions - {id};
    }

    /** The test of the reaper's loop. */
    method IsIdle(s: Session, now: Time, timeout: int) returns (idle: bool)
      ensures idle == Reaper.IdleLong(s.AsSeen(true), now, timeout)
    {
      var since := s.IdleSince();
      assert since == Reaper.IdleSince(s.AsSeen(true));
      idle := since.Some? && now - since.value >= timeout;
    }

    /** One round of the reaper's loop. */
    method ReapOne(id: string, now: Time, timeout: int, stuck: set<M.Release>) returns (hit: bool)
      requires Valid() && id in sessions
      modifies this`sessions, this`told, mgr, mgr.allocator, Named(id), mgr.Named(id)
      ensures Valid() && hit == Reaper.IdleLong(old(sessions[id].AsSeen(true)), now, timeout)
      ensures sessions == (if hit then old(sessions) - {id} else old(sessions))
      ensures mgr.sessions == (if hit then old(mgr.sessions) - {id} else old(mgr.sessions))
      ensures mgr.Held() == if hit then Freed(old(mgr.Held()), old(mgr.sessions), id, stuck) else old(mgr.Held())
    {
      hit := IsIdle(sessions[id], now, timeout);
      if hit {
        Remove(id, stuck);
      }
    }

    /** The ids of the sessions that have been idle for the timeout. */
    ghost function IdleIds(now: Time, timeout: int): set<string>
      reads this, sessions.Values
    {
      set id | id in sessions && Reaper.IdleLong(sessions[id].AsSeen(true), now, timeout)
    }

    /** The done channels of the sessions in a map. */
    static ghost function Latches(m: map<string, Session>): set<Latch> {
      set s | s in m.Values :: s.done
    }

    /**
     Destroys the sessions idle for the timeout and no others. `order` is the order in which List gives the sessions,
     `stuck` names the releases that fail for each.
     */
    method ReapIdle(now: Time, timeout: int, order: seq<string>, stuck: string -> set<M.Release>)
        returns (reaped: seq<string>)
      requires Valid() && Ids(order) == sessions.Keys && |order| == |sessions|
      modifies this`sessions, this`told, mgr, mgr.allocator, Latches(sessions), Latches(mgr.sessions)
      ensures Valid() && sessions == old(sessions) - Ids(reaped) && mgr.sessions == old(mgr.sessions) - Ids(reaped)
      ensures Ids(reaped) == if timeout <= 0 then {} else old(IdleIds(now, timeout))
    {
      reaped := [];
      ghost var idle, all, vms := IdleIds(now, timeout), sessions, mgr.sessions;
      if timeout <= 0 {
        return;
      }
      reaped := Sweep(now, timeout, order, stuck, idle, all, vms, Latches(all) + Latches(vms));
      SweepEnds(order, idle, all);
      SweepEnds(order, idle, vms);
    }

    method Sweep(now: Time, timeout: int, order: seq<string>, stuck: string -> set<M.Release>, ghost idle: set<string>,
                 ghost all: map<string, Session>, ghost vms: map<string, Session>, ghost latches: set<Latch>)
        returns (reaped: seq<string>)
      requires Valid() && Swept(order, 0, [], idle, all, vms) && Ids(order) == all.Keys && |order| == |all|
      requires (forall id :: id in all ==> ToldBy(idle, id, all[id], now, timeout)) && Cover(latches, all, vms)
      modifies this`sessions, this`told, mgr, mgr.allocator, latches
      ensures Valid() && Swept(order, |order|, reaped, idle, all, vms)
    {
      reaped := [];
      for i := 0 to |order|
        invariant Valid() && Swept(order, i, reaped, idle, all, vms)
      {
        assert order[i] in Ids(order);
        assert old(ToldBy(idle, order[i], all[order[i]], now, timeout));
        reaped := SweepOne(now, timeout, order, i, stuck(order[i]), reaped, idle, all, vms, latches);
      }
    }

    /** `idle` tells whether the session has been idle for the timeout. */
    static ghost predicate ToldBy(idle: set<string>, id: string, s: Session, now: Time, timeout: int)
      reads s
    {
      id in idle <==> Reaper.IdleLong(s.AsSeen(true), now, timeout)
    }

    static ghost predicate Cover(latches: set<Latch>, all: map<string, Session>, vms: map<string, Session>) {
      && (forall id :: id in all ==> all[id].done in latches)
      && (forall id :: id in vms ==> vms[id].done in latches)
    }

    /** The first `i` sessions of the snapshot are dealt with. */
    ghost predicate Swept(order: seq<string>, i: nat, reaped: seq<string>, idle: set<string>,
                          all: map<string, Session>, vms: map<string, Session>)
      reads this, mgr
    {
      && i <= |order| && reaped == Hits(order, i, idle)
      && sessions == Rest(order, i, idle, all) && mgr.sessions == Rest(order, i, idle, vms)
    }

    method SweepOne(now: Time, timeout: int, order: seq<string>, i: nat, stuck: set<M.Release>, before: seq<string>,
                    ghost idle: set<string>, ghost all: map<string, Session>, ghost vms: map<string, Session>,
                    ghost latches: set<Latch>)
        returns (reaped: seq<string>)
      requires Valid() && i < |order| && Swept(order, i, before, idle, all, vms)
      requires Ids(order) == all.Keys && |order| == |all| && Cover(latches, all, vms)
      requires order[i] in all && ToldBy(idle, order[i], all[order[i]], now, timeout)
      modifies this`sessions, this`told, mgr, mgr.allocator, latches
      ensures Valid() && Swept(order, i + 1, reaped, idle, all, vms)
    {
      StillThere(order, i, idle, all);
      if order[i] in mgr.sessions {
        FromAll(order, i, idle, vms, order[i]);
      }
      reaped := before;
      var hit := ReapOne(order[i], now, timeout, stuck);
      if hit {
        reaped := reaped + [order[i]];
      }
    }
  }

  /** The ids among the first `i` of `order` that are to go. */
  function Hits(order: seq<string>, i: nat, idle: set<string>): seq<string>
    requires i <= |order|
  {
    if i == 0 then []
    else if order[i - 1] in idle then Hits(order, i - 1, idle) + [order[i - 1]]
    else Hits(order, i - 1, idle)
  }

  /** The map without them. */
  function Rest<T>(order: seq<string>, i: nat, idle: set<string>, all: map<string, T>): map<string, T>
    requires i <= |order|
  {
    if i == 0 then all
    else if order[i - 1] in idle then Rest(order, i - 1, idle, all) - {order[i - 1]}
    else Rest(order, i - 1, idle, all)
  }

  lemma {:induction false} HitIds(order: seq<string>, i: nat, idle: set<string>)
    requires i <= |order|
    ensures Ids(Hits(order, i, idle)) == idle * Ids(order[..i])
  {
    if i > 0 {
      HitIds(order, i - 1, idle);
      IdsSnoc(order, i - 1);
      Push(Hits(order, i - 1, idle), order[i - 1]);
    }
  }

  lemma {:induction false} RestIs<T>(order: seq<string>, i: nat, idle: set<string>, all: map<string, T>)
    requires i <= |order|
    ensures Rest(order, i, idle, all) == all - Ids(Hits(order, i, idle))
  {
    if i > 0 {
      RestIs(order, i - 1, idle, all);
      Push(Hits(order, i - 1, idle), order[i - 1]);
    }
  }

  lemma SweepEnds<T>(order: seq<string>, idle: set<string>, all: map<string, T>)
    requires idle <= Ids(order)
    ensures Ids(Hits(order, |order|, idle)) == idle
    ensures Rest(order, |order|, idle, all) == all - Ids(Hits(order, |order|, idle))
  {
    HitIds(order, |order|, idle);
    RestIs(order, |order|, idle, all);
    assert order[..|order|] == order;
  }

  lemma FromAll<T>(order: seq<string>, i: nat, idle: set<string>, all: map<string, T>, id: string)
    requires i <= |order| && id in Rest(order, i, idle, all)
    ensures id in all && Rest(order, i, idle, all)[id] == all[id]
  {
    RestIs(order, i, idle, all);
  }

  lemma StillThere<T>(order: seq<string>, i: nat, idle: set<string>, all: map<string, T>)
    requires i < |order| && Ids(order) == all.Keys && |order| == |all|
    ensures var rest := Rest(order, i, idle, all); order[i] in rest && order[i] in all && rest[order[i]] == all[order[i]]
  {
    assert |all.Keys| == |all|;
    NotSeen(order, i);
    HitIds(order, i, idle);
    RestIs(order, i, idle, all);
  }

  lemma Shrinks<T>(m: map<string, T>, id: string)
    requires id in m
    ensures |m - {id}| == |m| - 1
  {
    assert (m - {id}).Keys == m.Keys - {id};
  }
}
