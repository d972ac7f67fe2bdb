/** The serial tee (control-plane/internal/session/serial.go): a bounded ring and one subscriber. */
module Serial {
  import opened Common

  /** The last `n` bytes of `s`, or all of it. */
  function Last(n: nat, s: Bytes): (r: Bytes)
    ensures |r| == Min(n, |s|)
  {
    if |s| <= n then s else s[|s| - n..]
  }

  /** Trimming early loses nothing: what is cut off would have been cut off anyway. */
  lemma LastOfLast(n: nat, s: Bytes, p: Bytes)
    ensures Last(n, Last(n, s) + p) == Last(n, s + p)
  {
  }

  method CopyIn(a: array<Byte>, at: nat, p: Bytes)
    requires at + |p| <= a.Length
    modifies a
    ensures a[..at] == old(a[..at]) && a[at..at + |p|] == p
  {
    for i := 0 to |p|
      invariant a[..at] == old(a[..at]) && a[at..at + i] == p[..i]
    {
      a[at + i] := p[i];
      assert a[at..at + i + 1] == a[at..at + i] + [p[i]];
    }
  }

  /** Moves a[over..len] to the front of the same array, low indices first. */
  method ShiftDown(a: array<Byte>, over: nat, len: nat)
    requires over <= len <= a.Length
    modifies a
    ensures a[..len - over] == old(a[over..len])
  {
    for i := 0 to len - over
      invariant forall k :: 0 <= k < i ==> a[k] == old(a[over + k])
      invariant forall k :: i <= k < a.Length ==> a[k] == old(a[k])
    {
      a[i] := a[i + over];
    }
  }

  /**
   The ring buffer, a bytes.Buffer whose backing array is rewritten in place.
   `Total` is everything ever drained.
   */
  class Ring {
    const limit: nat
    var buf: array<Byte>
    var len: nat
    ghost var Total: Bytes

    ghost predicate Valid()
      reads this, buf
    {
      len <= buf.Length && buf[..len] == Last(limit, Total)
    }

    constructor (limit: nat)
      ensures Valid() && fresh(buf) && this.limit == limit && Total == []
    {
      this.limit := limit;
      buf := new Byte[0];
      len := 0;
      Total := [];
    }

    /** bytes.Buffer.Write: append, in a larger array when the present one is full. */
    method Write(p: Bytes)
      requires len <= buf.Length
      modifies this`buf, this`len, buf
      ensures len <= buf.Length && (buf == old(buf) || fresh(buf))
      ensures buf[..len] == old(buf[..len]) + p
    {
      var a := buf;
      if len + |p| > a.Length {
        a := new Byte[2 * buf.Length + |p|];
        CopyIn(a, 0, buf[..len]);
        assert a[..len] == a[0..0 + len];
      }
      CopyIn(a, len, p);
      assert a[..len + |p|] == a[..len] + a[len..len + |p|];
      buf, len := a, len + |p|;
    }

    /** Reset, then Write of the buffer's own tail: the tail is copied down over its own array. */
    method KeepTail(over: nat)
      requires over <= len <= buf.Length
      modifies this`len, buf
      ensures len <= buf.Length && buf[..len] == old(buf[over..len])
    {
      ShiftDown(buf, over, len);
      len := len - over;
    }

    /** The locked region of drain, up to reading the subscriber. */
    method Append(chunk: Bytes)
      requires Valid()
      modifies this`buf, this`len, this`Total, buf
      ensures Valid() && (buf == old(buf) || fresh(buf))
      ensures Total == old(Total) + chunk && buf[..len] == Last(limit, Total)
    {
      Write(chunk);
      Total := Total + chunk;
      LastOfLast(limit, old(Total), chunk);
      if len > limit {
        KeepTail(len - limit);
      }
    }

    /** The replay that Attach copies out. */
    method Snapshot() returns (replay: Bytes)
      requires Valid()
      ensures replay == Last(limit, Total) && |replay| == Min(limit, |Total|)
    {
      replay := buf[..len];
    }
  }
}
