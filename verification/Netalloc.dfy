/**
 The per-VM network allocator (control-plane/internal/netalloc/netalloc.go).

 `State` is the allocator's whole state as a value. `Allocator` is the mutable object with the
 source's loop; each of its methods is proved to move `State` as the functions here say.
 */
module Netalloc {
  import opened Common
  import Text

  const ADDRESSES: nat := 0x1_0000_0000

  function Pow2(n: nat): (r: nat)
    ensures r >= 1
  {
    if n == 0 then 1 else 2 * Pow2(n - 1)
  }

  /** Conversion to uint32. */
  function U32(n: nat): nat {
    n % 0x1_0000_0000
  }

  function RoundDown(x: nat, size: nat): (r: nat)
    requires size >= 1
  {
    var q := x / size;
    q * size
  }

  /** netip.Addr restricted to IPv4; `None` is the zero Addr that Next yields past 255.255.255.255. */
  type Addr = Option<nat>

  datatype Prefix = Prefix(addr: nat, bits: nat) {
    predicate Valid() {
      addr < ADDRESSES && bits <= 32
    }

    /** Prefix.Masked: the block of addresses that share the leading `bits` bits. */
    function Masked(): (b: Block)
      requires Valid()
      ensures b.Valid()
    {
      var size := Pow2(32 - bits);
      MaskFits(this);
      Block(RoundDown(addr, size), size)
    }

    /** Prefix.Contains compares the leading `bits` bits; the zero Addr is never contained. */
    predicate Contains(a: Addr)
      requires Valid()
    {
      a.Some? && a.value / Pow2(32 - bits) == addr / Pow2(32 - bits)
    }
  }

  /** A masked prefix as an interval of addresses. */
  datatype Block = Block(network: nat, size: nat) {
    predicate Valid() {
      1 <= size && network + size <= ADDRESSES
    }

    predicate Contains(a: Addr) {
      a.Some? && network <= a.value < network + size
    }

    /** How many addresses can be handed out: all but the network address and the bridge's. */
    function Capacity(): nat {
      Max(0, size - 2)
    }
  }

  function Next(a: Addr): Addr {
    if a.Some? && a.value + 1 < ADDRESSES then Some(a.value + 1) else None
  }

  /** What Alloc returns; the MAC and the TAP name are texts of the address and of the lease number. */
  datatype Lease = Lease(ip: nat, number: nat, cid: nat) {
    function Mac(): string {
      MacFor(ip)
    }

    function Tap(): string {
      "tap-fc" + Text.FormatNat(number)
    }
  }

  datatype State = State(base: Block, host: Addr, next: Addr, inUse: set<nat>, tapIdx: nat, cidIdx: nat)

  function MacFor(ip: nat): string {
    "AA:BB:CC:00:" + Text.HexByte(ip / 256 % 256) + ":" + Text.HexByte(ip % 256)
  }

  function New(b: Block): State
    requires b.Valid()
  {
    var first := Next(Some(b.network));
    State(b, first, Next(first), {}, 0, 99)
  }

  /** What one Alloc does: the candidate is `next`, and `next` advances whether or not it is usable. */
  function Issue(st: State): (r: (State, Option<Lease>))
    requires st.base.Valid()
  {
    if st.base.Contains(st.next) then
      var cid := U32(st.cidIdx + 1);
      var moved := st.(next := Next(st.next), inUse := st.inUse + {st.next.value}, tapIdx := st.tapIdx + 1, cidIdx := cid);
      (moved, Some(Lease(st.next.value, st.tapIdx + 1, cid)))
    else
      (st.(next := Next(st.next)), None)
  }

  function Freed(st: State, ip: nat): State {
    st.(inUse := st.inUse - {ip})
  }

  /** Every allocator state: the addresses issued so far are exactly the `tapIdx` after the bridge's. */
  ghost predicate Valid(st: State) {
    && st.base.Valid()
    && st.host == Next(Some(st.base.network))
    && st.tapIdx <= st.base.Capacity()
    && st.cidIdx == U32(99 + st.tapIdx)
    && (st.next.Some? ==> st.next.value >= st.base.network + 2 + st.tapIdx)
    && (st.tapIdx < st.base.Capacity() ==> st.next == Some(st.base.network + 2 + st.tapIdx))
    && (forall ip :: ip in st.inUse ==> st.base.network + 2 <= ip < st.base.network + 2 + st.tapIdx)
  }

  lemma {:induction false} PowSum(a: nat, b: nat)
    ensures Pow2(a) * Pow2(b) == Pow2(a + b)
  {
    if a > 0 {
      PowSum(a - 1, b);
      assert 2 * Pow2(a - 1) * Pow2(b) == 2 * (Pow2(a - 1) * Pow2(b));
    }
  }

  lemma Powers()
    ensures Pow2(16) == 65536 && Pow2(17) == 131072 && Pow2(31) == 0x8000_0000 && Pow2(32) == ADDRESSES
  {
    assert Pow2(8) == 256;
    PowSum(8, 8);
    PowSum(16, 16);
  }

  lemma {:induction false} PowMonotone(a: nat, b: nat)
    requires a <= b
    ensures Pow2(a) <= Pow2(b)
  {
    if a < b { PowMonotone(a, b - 1); }
  }

  lemma DivRange(x: nat, size: nat, q: nat)
    requires size > 0
    ensures x / size == q <==> q * size <= x < q * size + size
  {
    var d, m := x / size, x % size;
    assert x == d * size + m;
    if d < q {
      assert (d + 1) * size <= q * size;
    } else if d > q {
      assert (q + 1) * size <= d * size;
    }
  }

  lemma QuotientBound(addr: nat, size: nat, n: nat)
    requires size >= 1 && addr < size * n
    ensures RoundDown(addr, size) + size <= size * n
  {
    var q := addr / size;
    DivRange(addr, size, q);
    if q >= n {
      Scaled(n, q, size);
    } else {
      Scaled(q + 1, n, size);
    }
  }

  lemma Scaled(a: nat, b: nat, size: nat)
    requires a <= b
    ensures a * size <= b * size
  {
  }

  lemma Membership(addr: nat, size: nat, x: nat)
    requires size >= 1
    ensures x / size == addr / size <==> RoundDown(addr, size) <= x < RoundDown(addr, size) + size
  {
    DivRange(x, size, addr / size);
  }

  lemma MaskFits(p: Prefix)
    requires p.Valid()
    ensures RoundDown(p.addr, Pow2(32 - p.bits)) + Pow2(32 - p.bits) <= ADDRESSES
  {
    Powers();
    PowSum(32 - p.bits, p.bits);
    QuotientBound(p.addr, Pow2(32 - p.bits), Pow2(p.bits));
  }

  /** Comparing leading bits is membership in the masked block. */
  lemma MaskedIsBlock(p: Prefix, a: Addr)
    requires p.Valid()
    ensures p.Contains(a) <==> p.Masked().Contains(a)
  {
    if a.Some? { Membership(p.addr, Pow2(32 - p.bits), a.value); }
  }

  /** New satisfies the invariant. */
  lemma NewValid(b: Block)
    requires b.Valid()
    ensures Valid(New(b))
  {
  }

  /**
   One Alloc step: it succeeds exactly while fewer than Capacity() addresses were issued, and then
   issues the next address in order, one that is in use by nobody and is not the bridge's.
   */
  lemma AllocStep(st: State)
    requires Valid(st)
    ensures var (st', lease) := Issue(st);
      && Valid(st') && st'.base == st.base
      && (lease.Some? <==> st.tapIdx < st.base.Capacity())
      && (lease.None? ==> st' == st.(next := st'.next))
      && (lease.Some? ==>
        && lease.value == Nth(st.base, st.tapIdx)
        && lease.value.ip !in st.inUse && Some(lease.value.ip) != st.host
        && st'.tapIdx == st.tapIdx + 1 && st'.inUse == st.inUse + {lease.value.ip})
  {
    assert U32(100 + st.tapIdx) == U32(U32(99 + st.tapIdx) + 1);
  }

  // --- whole lifetimes ---

  datatype Op = DoAlloc | DoRelease(ip: nat)

  function Step(st: State, op: Op): State
    requires st.base.Valid()
  {
    match op
    case DoAlloc => Issue(st).0
    case DoRelease(ip) => Freed(st, ip)
  }

  /** The allocator after a history of calls, latest call last. */
  function After(b: Block, ops: seq<Op>): (st: State)
    requires b.Valid()
    ensures st.base == b
  {
    if ops == [] then New(b) else Step(After(b, ops[..|ops| - 1]), ops[|ops| - 1])
  }

  /** The leases handed out over a history, in order. */
  function Leases(b: Block, ops: seq<Op>): seq<Lease>
    requires b.Valid()
  {
    if ops == [] then [] else
      var before := ops[..|ops| - 1];
      if ops[|ops| - 1].DoRelease? then Leases(b, before) else
        var lease := Issue(After(b, before)).1;
        if lease.Some? then Leases(b, before) + [lease.value] else Leases(b, before)
  }

  function Allocs(ops: seq<Op>): nat {
    if ops == [] then 0 else Allocs(ops[..|ops| - 1]) + Bit(ops[|ops| - 1].DoAlloc?)
  }

  /** The k-th lease any lifetime hands out. */
  function Nth(b: Block, k: nat): Lease {
    Lease(b.network + 2 + k, k + 1, U32(100 + k))
  }

  ghost predicate InOrder(b: Block, leases: seq<Lease>) {
    forall k :: 0 <= k < |leases| ==> leases[k] == Nth(b, k)
  }

  lemma {:induction false} AfterValid(b: Block, ops: seq<Op>)
    requires b.Valid()
    ensures Valid(After(b, ops))
  {
    if ops == [] {
      NewValid(b);
    } else {
      AfterValid(b, ops[..|ops| - 1]);
      AllocStep(After(b, ops[..|ops| - 1]));
    }
  }

  /**
   The lifetime theorem. Whatever the order of Alloc and Release, the k-th lease is the k-th address
   after the bridge's, so addresses are strictly increasing, are never reused after a Release, and are
   never the bridge's; and exactly min(calls, Capacity()) calls succeed.
   */
  lemma {:induction false} Lifetime(b: Block, ops: seq<Op>)
    requires b.Valid()
    ensures After(b, ops).tapIdx == |Leases(b, ops)| == Min(Allocs(ops), b.Capacity())
    ensures InOrder(b, Leases(b, ops))
  {
    if ops != [] {
      var before := ops[..|ops| - 1];
      Lifetime(b, before);
      AfterValid(b, before);
      if ops[|ops| - 1].DoAlloc? {
        AllocStep(After(b, before));
        var lease := Issue(After(b, before)).1;
        assert Leases(b, ops) == if lease.Some? then Leases(b, before) + [lease.value] else Leases(b, before);
      } else {
        assert Leases(b, ops) == Leases(b, before);
      }
    }
  }

  lemma LowHalf(a: nat, b: nat)
    ensures a / 256 % 256 == b / 256 % 256 && a % 256 == b % 256 <==> a % 65536 == b % 65536
  {
    assert a % 65536 == (a / 256 % 256) * 256 + a % 256;
    assert b % 65536 == (b / 256 % 256) * 256 + b % 256;
  }

  lemma SameMac(a: nat, b: nat)
    ensures MacFor(a) == MacFor(b) <==> a % 65536 == b % 65536
  {
    LowHalf(a, b);
    var a1, a0, b1, b0 := a / 256 % 256, a % 256, b / 256 % 256, b % 256;
    assert MacFor(a)[12..14] == Text.HexByte(a1) && MacFor(a)[15..17] == Text.HexByte(a0);
    assert MacFor(b)[12..14] == Text.HexByte(b1) && MacFor(b)[15..17] == Text.HexByte(b0);
    if MacFor(a) == MacFor(b) {
      Text.HexByteInjective(a1, b1);
      Text.HexByteInjective(a0, b0);
    }
  }

  /** The last two octets of the address are read back from their places in the MAC, high octet first. */
  lemma MacText(ip: nat)
    ensures var mac := MacFor(ip);
      && |mac| == 17 && mac[..12] == "AA:BB:CC:00:" && mac[14] == ':'
      && Text.HexDecode(mac[12..14]) == Some([ip / 256 % 256]) && Text.HexDecode(mac[15..]) == Some([ip % 256])
  {
    var mac, hi, lo := MacFor(ip), ip / 256 % 256, ip % 256;
    assert mac[12..14] == Text.HexByte(hi) && mac[15..] == Text.HexByte(lo);
    OneByte(hi);
    OneByte(lo);
  }

  lemma OneByte(b: Byte)
    ensures Text.HexDecode(Text.HexByte(b)) == Some([b])
  {
    Text.HexRoundTrip([b]);
    assert [b][1..] == [] && Text.HexEncode([b]) == Text.HexByte(b);
  }

  ghost predicate MacsDistinct(leases: seq<Lease>) {
    forall i, j :: 0 <= i < j < |leases| ==> leases[i].Mac() != leases[j].Mac()
  }

  function Calls(n: nat): (ops: seq<Op>)
    ensures |ops| == n
  {
    seq(n, _ => DoAlloc)
  }

  lemma {:induction false} CallsAllocs(n: nat)
    ensures Allocs(Calls(n)) == n
  {
    if n > 0 {
      CallsAllocs(n - 1);
      assert Calls(n)[..n - 1] == Calls(n - 1);
    }
  }

  lemma NearMacs(x: nat, y: nat)
    requires x < y < x + 65536
    ensures MacFor(x) != MacFor(y)
  {
    SameMac(x, y);
  }

  lemma SmallBlockMacs(b: Block, ops: seq<Op>)
    requires b.Valid() && b.size <= 65536
    ensures MacsDistinct(Leases(b, ops))
  {
    Lifetime(b, ops);
    var leases := Leases(b, ops);
    forall i, j | 0 <= i < j < |leases| ensures leases[i].Mac() != leases[j].Mac() {
      NearMacs(leases[i].ip, leases[j].ip);
    }
  }

  lemma SameRemainder(x: nat, q: nat, r: nat)
    requires r < 65536 && x == 65536 * q + r
    ensures x % 65536 == r
  {
  }

  lemma Period(ip: nat)
    ensures MacFor(ip) == MacFor(ip + 65536)
  {
    var q, r := ip / 65536, ip % 65536;
    assert ip + 65536 == 65536 * (q + 1) + r;
    SameRemainder(ip + 65536, q + 1, r);
    SameMac(ip, ip + 65536);
  }

  lemma LargeBlockMacs(b: Block)
    requires b.Valid() && b.size >= 131072
    ensures !MacsDistinct(Leases(b, Calls(65537)))
  {
    CallsAllocs(65537);
    var leases := Leases(b, Calls(65537));
    Lifetime(b, Calls(65537));
    Period(b.network + 2);
    assert leases[0].ip == b.network + 2 && leases[65536].ip == b.network + 2 + 65536;
  }

  /** MAC addresses never repeat in any lifetime exactly for prefixes of /16 or longer. */
  lemma MacsDistinctIff(p: Prefix)
    requires p.Valid()
    ensures (forall ops :: MacsDistinct(Leases(p.Masked(), ops))) <==> p.bits >= 16
  {
    var b := p.Masked();
    Powers();
    if p.bits >= 16 {
      PowMonotone(32 - p.bits, 16);
      forall ops ensures MacsDistinct(Leases(b, ops)) { SmallBlockMacs(b, ops); }
    } else {
      PowMonotone(17, 32 - p.bits);
      LargeBlockMacs(b);
    }
  }

  ghost predicate CidsInOrder(leases: seq<Lease>) {
    forall k :: 0 <= k < |leases| ==> leases[k].cid == 100 + k
  }

  lemma SmallBlockCids(b: Block, ops: seq<Op>)
    requires b.Valid() && b.size <= 0x8000_0000
    ensures CidsInOrder(Leases(b, ops))
  {
    Lifetime(b, ops);
  }

  lemma WholeBlockCids(b: Block)
    requires b.Valid() && b.size == ADDRESSES
    ensures !CidsInOrder(Leases(b, Calls(ADDRESSES - 99)))
  {
    CallsAllocs(ADDRESSES - 99);
    Lifetime(b, Calls(ADDRESSES - 99));
    assert Leases(b, Calls(ADDRESSES - 99))[ADDRESSES - 100].cid == 0;
  }

  /** The 32-bit vsock CID counts 100, 101, ... without wrapping in any lifetime exactly for /1 or longer. */
  lemma CidsNeverWrapIff(p: Prefix)
    requires p.Valid()
    ensures (forall ops :: CidsInOrder(Leases(p.Masked(), ops))) <==> p.bits >= 1
  {
    var b := p.Masked();
    Powers();
    if p.bits >= 1 {
      PowMonotone(32 - p.bits, 31);
      forall ops ensures CidsInOrder(Leases(b, ops)) { SmallBlockCids(b, ops); }
    } else {
      WholeBlockCids(b);
    }
  }

  /** TAP names are pairwise distinct in every lifetime, whatever the prefix. */
  lemma TapsDistinct(b: Block, ops: seq<Op>, i: nat, j: nat)
    requires b.Valid() && i < j < |Leases(b, ops)|
    ensures Leases(b, ops)[i].Tap() != Leases(b, ops)[j].Tap()
  {
    Lifetime(b, ops);
    var x, y := Leases(b, ops)[i].Tap(), Leases(b, ops)[j].Tap();
    if x == y {
      assert x[6..] == Text.FormatNat(i + 1) && y[6..] == Text.FormatNat(j + 1);
      Text.FormatNatInjective(i + 1, j + 1);
    }
  }

  // --- the pool of addresses ---

  /** The addresses that a caller may ask for and nobody uses. */
  function Free(st: State): set<nat> {
    set ip: nat | st.base.network + 2 <= ip < st.base.network + st.base.size && ip !in st.inUse
  }

  /** Alloc succeeds exactly while some address is free. */
  ghost predicate Serves(st: State)
    requires st.base.Valid()
  {
    Issue(st).1.Some? <==> Free(st) != {}
  }

  /** While addresses are left that were never issued, one is free and Alloc succeeds. */
  lemma ServesFirst(b: Block, ops: seq<Op>)
    requires b.Valid() && (Allocs(ops) < b.Capacity() || b.Capacity() == 0)
    ensures Serves(After(b, ops))
  {
    var st := After(b, ops);
    AfterValid(b, ops);
    Lifetime(b, ops);
    AllocStep(st);
    if b.Capacity() > 0 { assert Nth(b, st.tapIdx).ip in Free(st); }
  }

  /** Every address was issued once and one was released: it is free, and Alloc fails all the same. */
  lemma ReleasedIsLost(b: Block, ip: nat)
    requires b.Valid() && b.network + 2 <= ip < b.network + b.size
    ensures var st := After(b, Calls(b.Capacity()) + [DoRelease(ip)]); ip in Free(st) && Issue(st).1.None?
    ensures Allocs(Calls(b.Capacity()) + [DoRelease(ip)]) == b.Capacity()
  {
    var calls, ops := Calls(b.Capacity()), Calls(b.Capacity()) + [DoRelease(ip)];
    assert ops[..|ops| - 1] == calls;
    CallsAllocs(b.Capacity());
    AfterValid(b, ops);
    Lifetime(b, ops);
    AllocStep(After(b, ops));
  }

  /**
   A released address returns to the pool only as far as the pool is never exhausted: in all histories of at most `m`
   calls of Alloc, Alloc succeeds exactly while some address is free, if and only if `m` is less than the capacity of
   the block, or the block has nothing to hand out.
   */
  lemma ReturnsToPoolIff(b: Block, m: nat)
    requires b.Valid()
    ensures (forall ops :: Allocs(ops) <= m ==> Serves(After(b, ops))) <==> m < b.Capacity() || b.Capacity() == 0
  {
    if m < b.Capacity() || b.Capacity() == 0 {
      forall ops | Allocs(ops) <= m ensures Serves(After(b, ops)) { ServesFirst(b, ops); }
    } else {
      ReleasedIsLost(b, b.network + 2);
    }
  }

  /** The last address of the block, its broadcast address, is handed out exactly in the histories that exhaust the block. */
  lemma BroadcastIssuedIff(b: Block, ops: seq<Op>)
    requires b.Valid()
    ensures (exists k :: 0 <= k < |Leases(b, ops)| && Leases(b, ops)[k].ip == b.network + b.size - 1)
       <==> b.size >= 3 && Allocs(ops) >= b.Capacity()
  {
    Lifetime(b, ops);
    if b.size >= 3 && Allocs(ops) >= b.Capacity() {
      assert Leases(b, ops)[b.size - 3].ip == b.network + b.size - 1;
    }
  }

  /** The allocator object; mu is held for the whole of each method. */
  class Allocator {
    const base: Block
    const host: Addr
    var next: Addr
    var inUse: set<nat>
    var tapIdx: nat
    var cidIdx: nat

    ghost function View(): State
      reads this
    {
      State(base, host, next, inUse, tapIdx, cidIdx)
    }

    constructor (p: Prefix)
      requires p.Valid()
      ensures View() == New(p.Masked()) && Valid(View())
    {
      var b := p.Masked();
      var first := Next(Some(b.network));
      base, host, next := b, first, Next(first);
      inUse, tapIdx, cidIdx := {}, 0, 99;
      new;
      NewValid(b);
    }

    /** The bounded search of the source. Its two skip branches and its exhaustion exit are dead. */
    method Alloc() returns (lease: Option<Lease>)
      requires Valid(View())
      modifies this`next, this`inUse, this`tapIdx, this`cidIdx
      ensures Valid(View())
      ensures (View(), lease) == Issue(old(View()))
    {
      AllocStep(View());
      for i := 0 to 0x1_0000
        invariant i == 0 && View() == old(View())
      {
        var candidate := next;
        next := Next(next);
        if !base.Contains(candidate) {
          return None;
        }
        if candidate == host {
          assert false;
        }
        if candidate.value in inUse {
          assert false;
        }
        inUse := inUse + {candidate.value};
        tapIdx := tapIdx + 1;
        cidIdx := U32(cidIdx + 1);
        return Some(Lease(candidate.value, tapIdx, cidIdx));
      }
      assert false;
    }

    method Release(ip: nat)
      modifies this`inUse
      ensures View() == Freed(old(View()), ip) && (old(Valid(View())) ==> Valid(View()))
    {
      inUse := inUse - {ip};
    }
  }
}
