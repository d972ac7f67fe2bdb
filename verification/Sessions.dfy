/**
 The session object (control-plane/internal/session/session.go) and its guest connection handler (vsock_listener.go),
 one call at a time. Their interleavings are the subject of Lifecycle, Geometry and Reaper.
 */
module Sessions {
  import opened Common
  import Geometry
  import Netalloc
  import Reaper

  type Time = int

  /** A channel that is closed behind a sync.Once. */
  class Latch {
    var closed: bool
    var closes: nat                  // times the channel was closed

    constructor ()
      ensures !closed && closes == 0
    {
      closed, closes := false, 0;
    }

    /** CloseDone: only the first call closes. */
    method Close()
      modifies this
      ensures closed && closes == old(closes) + Bit(!old(closed))
    {
      if !closed {
        closed, closes := true, closes + 1;
      }
    }
  }

  /** A size written to a guest connection. */
  datatype Frame = Frame(conn: nat, cols: nat, rows: nat)

  datatype Outcome = Sent | NoGuest | WriteFailed

  /** `geo` is the session as the geometry protocol sees it; each locked region of the source moves it by one step. */
  class Session {
    const id: string
    const lease: Netalloc.Lease
    const createdAt: Time
    var readyAt: Option<Time>
    var readyCloses: nat             // times the ready channel was closed
    var clients: seq<bool>           // the once flags of the functions Attach returned
    var attached: int
    var lastDetach: Option<Time>
    var cols: nat
    var rows: nat
    var guest: Option<nat>           // the guest connection
    var wire: seq<Frame>             // what was written to guests, in order
    const done: Latch
    ghost var geo: Geometry.State

    constructor (id: string, lease: Netalloc.Lease, now: Time)
      ensures this.id == id && this.lease == lease && fresh(done) && !done.closed && done.closes == 0
      ensures AsSeen(true) == Reaper.Sess(true, now, None, [], 0, None)
      ensures Tied() && geo == Geometry.START && wire == []
    {
      this.id, this.lease, this.createdAt := id, lease, now;
      readyAt, readyCloses, clients, attached, lastDetach := None, 0, [], 0, None;
      cols, rows, guest, wire := 0, 0, None, [];
      done := new Latch();
      geo := Geometry.START;
    }

    /** The session as the idle reaper sees it. */
    ghost function AsSeen(live: bool): Reaper.Sess
      reads this
    {
      Reaper.Sess(live, createdAt, readyAt, clients, attached, lastDetach)
    }

    /** The fields say what the geometry protocol says: the connection, the ready channel, the newest size. */
    ghost predicate Tied()
      reads this
    {
      && geo.guest == guest && Geometry.GuestIn(geo)
      && geo.ready == readyAt.Some? && readyCloses == Bit(readyAt.Some?)
      && if geo.resizes == [] then cols == 0 && rows == 0 else
           var last := geo.resizes[|geo.resizes| - 1];
           cols == last.cols > 0 && rows == last.rows > 0
    }

    /** The first call fixes the ready time and closes the ready channel; later calls change nothing. */
    method MarkReady(now: Time)
      requires readyCloses == Bit(readyAt.Some?)
      modifies this`readyAt, this`readyCloses
      ensures readyAt == if old(readyAt).Some? then old(readyAt) else Some(now)
      ensures readyCloses == 1
    {
      if readyAt.None? {
        readyAt := Some(now);
        readyCloses := readyCloses + 1;
      }
    }

    /** `writes`: the connection takes the frame. */
    method SendToGuest(c: nat, r: nat, writes: bool) returns (o: Outcome)
      modifies this`wire
      ensures o == if guest.None? then NoGuest else if writes then Sent else WriteFailed
      ensures wire == if o.Sent? then old(wire) + [Frame(guest.value, c, r)] else old(wire)
    {
      if guest.None? {
        return NoGuest;
      }
      if !writes {
        return WriteFailed;
      }
      wire := wire + [Frame(guest.value, c, r)];
      return Sent;
    }

    /** A size without extent is refused. Any other is stored, and written to the guest if there is one; no guest is no error. */
    method Resize(c: nat, r: nat, writes: bool) returns (ok: bool)
      requires Tied()
      modifies this`cols, this`rows, this`wire, this`geo
      ensures Tied() && geo == Geometry.ResizeAlone(old(geo), c, r, writes)
      ensures ok == (c > 0 && r > 0 && (guest.None? || writes))
      ensures wire == old(wire) + if c > 0 && r > 0 && guest.Some? && writes then [Frame(guest.value, c, r)] else []
    {
      if c == 0 || r == 0 {
        return false;
      }
      cols, rows := c, r;
      geo := Geometry.Apply(geo, Geometry.CallResize(c, r));
      ghost var v := |geo.resizes| - 1;
      geo := Geometry.Apply(geo, Geometry.ReadGuest(v));
      var o := SendToGuest(c, r, writes);
      if o.Sent? {
        geo := Geometry.Apply(geo, Geometry.WriteGuest(v));
      }
      return !o.WriteFailed?;
    }

    /** A guest connects: connection j waits for its hello, and the connections before it are untouched. */
    method Accept() returns (ghost j: nat)
      requires Tied()
      modifies this`geo
      ensures Tied() && j == |old(geo).conns| && |geo.conns| == j + 1 && geo.conns[..j] == old(geo).conns
      ensures geo.conns[j].stage.Accepted? && geo.conns[j].received == [] && geo == old(geo).(conns := geo.conns)
    {
      j := |geo.conns|;
      geo := Geometry.Apply(geo, Geometry.Accept);
    }

    /**
     handleGuestConn up to its read loop, for connection j. The connection is stored before the size is read, so a size
     stored by a Resize that found no guest is written to this very connection.
     */
    method Handshake(j: nat, valid: bool, now: Time)
      requires Tied() && j < |geo.conns| && geo.conns[j].stage.Accepted?
      modifies this`guest, this`readyAt, this`readyCloses, this`wire, this`geo
      ensures Tied()
      ensures geo == if valid then Geometry.HandshakeAlone(old(geo), j) else Geometry.Apply(old(geo), Geometry.Hello(j, false))
      ensures valid ==> guest == Some(j) && readyAt.Some?
      ensures wire == old(wire) + if valid && cols > 0 && rows > 0 then [Frame(j, cols, rows)] else []
      ensures !valid ==> guest == old(guest) && readyAt == old(readyAt) && geo.conns[j].stage.Refused?
    {
      if !valid {
        geo := Geometry.Apply(geo, Geometry.Hello(j, false));
        return;
      }
      Geometry.HandshakeDelivers(geo, j);
      geo := Geometry.HandshakeAlone(geo, j);
      guest := Some(j);
      MarkReady(now);
      if cols > 0 && rows > 0 {
        var _ := SendToGuest(cols, rows, true);
      }
    }

    /** The deferred clear of connection j's handler takes whatever connection is stored, its own or a newer one. */
    method HangUp(j: nat)
      requires Tied() && j < |geo.conns| && geo.conns[j].stage.Serving?
      modifies this`guest, this`geo
      ensures Tied() && guest == None
      ensures geo == Geometry.Apply(Geometry.Apply(old(geo), Geometry.HangUp(j)), Geometry.Handle(j))
    {
      geo := Geometry.Apply(Geometry.Apply(geo, Geometry.HangUp(j)), Geometry.Handle(j));
      guest := None;
    }

    /** Returns the number of the client, which stands for the detach function. */
    method Attach() returns (c: nat)
      modifies this`clients, this`attached
      ensures c == |old(clients)| && AsSeen(true) == Reaper.Attached(old(AsSeen(true)))
    {
      c := |clients|;
      attached := attached + 1;
      clients := clients + [true];
    }

    method Detach(c: nat, now: Time)
      requires c < |clients|
      modifies this`clients, this`attached, this`lastDetach
      ensures AsSeen(true) == Reaper.Detached(old(AsSeen(true)), c, now)
    {
      if clients[c] {
        clients := clients[c := false];
        attached := attached - 1;
        if attached == 0 {
          lastDetach := Some(now);
        }
      }
    }

    method IdleSince() returns (t: Option<Time>)
      ensures forall live :: t == Reaper.IdleSince(AsSeen(live))
    {
      if attached > 0 {
        return None;
      }
      if lastDetach.Some? {
        return lastDetach;
      }
      if readyAt.Some? {
        return readyAt;
      }
      return Some(createdAt);
    }
  }

  function Ids(s: seq<string>): set<string> {
    set id | id in s
  }

  lemma IdsSnoc(s: seq<string>, i: nat)
    requires i < |s|
    ensures Ids(s[..i + 1]) == Ids(s[..i]) + {s[i]}
  {
    assert s[..i + 1] == s[..i] + [s[i]];
  }

  lemma Push(s: seq<string>, id: string)
    ensures Ids(s + [id]) == Ids(s) + {id}
  {
  }

  /** As many ids as the sequence is long: none is listed twice. */
  lemma NotSeen(s: seq<string>, i: nat)
    requires |Ids(s)| == |s| && i < |s|
    ensures s[i] !in Ids(s[..i]) && s[i] in Ids(s)
  {
    if s[i] in Ids(s[..i]) {
      var t := s[..i] + s[i + 1..];
      assert Ids(t) == Ids(s);
      AtMostLength(t);
    }
  }

  lemma {:induction false} AtMostLength(s: seq<string>)
    ensures |Ids(s)| <= |s|
  {
    if s != [] {
      var n := |s| - 1;
      AtMostLength(s[..n]);
      assert Ids(s) == Ids(s[..n]) + {s[n]};
    }
  }
}
