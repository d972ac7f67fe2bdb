/** The number formats that end up in device names, MAC addresses and cookies. */
module Text {
  import opened Common

  // --- decimal: strconv.FormatInt and strconv.ParseInt in base 10 ---

  function Digit(d: nat): (c: char)
    requires d < 10
    ensures IsDigit(c) && DigitValue(c) == d
  {
    '0' + d as char
  }

  predicate IsDigit(c: char) {
    '0' <= c <= '9'
  }

  function DigitValue(c: char): (d: nat)
    requires IsDigit(c)
    ensures d < 10
  {
    (c - '0') as nat
  }

  function FormatNat(n: nat): (s: string) {
    if n < 10 then [Digit(n)] else FormatNat(n / 10) + [Digit(n % 10)]
  }

  function FormatInt(n: int): (s: string) {
    if n < 0 then "-" + FormatNat(-n) else FormatNat(n)
  }

  predicate AllDigits(s: string) {
    forall i :: 0 <= i < |s| ==> IsDigit(s[i])
  }

  function DigitsValue(s: string): nat
    requires AllDigits(s)
  {
    if s == [] then 0 else DigitsValue(s[..|s| - 1]) * 10 + DigitValue(s[|s| - 1])
  }

  const INT64_MIN: int := -0x8000_0000_0000_0000
  const INT64_MAX: int := 0x7fff_ffff_ffff_ffff

  /** strconv.ParseInt(s, 10, 64): an optional sign, then at least one digit, in range. */
  function ParseInt64(s: string): (r: Option<int>)
    ensures r.Some? ==> INT64_MIN <= r.value <= INT64_MAX
  {
    var negative := s != [] && s[0] == '-';
    var digits := if s != [] && (s[0] == '-' || s[0] == '+') then s[1..] else s;
    if digits == [] || !AllDigits(digits) then None else
      var v: int := if negative then 0 - DigitsValue(digits) else DigitsValue(digits);
      if INT64_MIN <= v <= INT64_MAX then Some(v) else None
  }

  lemma {:induction false} NatRoundTrip(n: nat)
    ensures FormatNat(n) != [] && AllDigits(FormatNat(n))
    ensures DigitsValue(FormatNat(n)) == n
  {
    if n < 10 {
      assert FormatNat(n)[..0] == [];
    } else {
      NatRoundTrip(n / 10);
      var s := FormatNat(n);
      assert s[..|s| - 1] == FormatNat(n / 10);
    }
  }

  lemma ParseNegative(s: string, digits: string)
    requires s == "-" + digits && digits != [] && AllDigits(digits) && 0 - DigitsValue(digits) >= INT64_MIN
    ensures ParseInt64(s) == Some(0 - DigitsValue(digits))
  {
    assert s[0] == '-' && s[1..] == digits;
  }

  lemma ParsePositive(s: string)
    requires s != [] && AllDigits(s) && DigitsValue(s) <= INT64_MAX
    ensures ParseInt64(s) == Some(DigitsValue(s))
  {
    assert IsDigit(s[0]);
  }

  /** Formatting then parsing gives back every 64-bit integer. */
  lemma IntRoundTrip(n: int)
    requires INT64_MIN <= n <= INT64_MAX
    ensures ParseInt64(FormatInt(n)) == Some(n)
  {
    if n < 0 {
      NatRoundTrip(-n);
      ParseNegative(FormatInt(n), FormatNat(-n));
    } else {
      NatRoundTrip(n);
      ParsePositive(FormatNat(n));
    }
  }

  lemma FormatNatInjective(m: nat, n: nat)
    requires FormatNat(m) == FormatNat(n)
    ensures m == n
  {
    NatRoundTrip(m);
    NatRoundTrip(n);
  }

  // --- hexadecimal: encoding/hex and the %02x verb ---

  function HexDigit(d: nat): (c: char)
    requires d < 16
    ensures HexValue(c) == Some(d) && c != '|'
  {
    if d < 10 then '0' + d as char else 'a' + (d - 10) as char
  }

  /** encoding/hex accepts both cases when decoding. */
  function HexValue(c: char): (r: Option<nat>)
    ensures r.Some? ==> r.value < 16
  {
    if '0' <= c <= '9' then Some((c - '0') as nat)
    else if 'a' <= c <= 'f' then Some((c - 'a') as nat + 10)
    else if 'A' <= c <= 'F' then Some((c - 'A') as nat + 10)
    else None
  }

  function HexByte(b: Byte): (s: string)
    ensures |s| == 2
  {
    [HexDigit(b / 16), HexDigit(b % 16)]
  }

  lemma HexByteInjective(a: Byte, b: Byte)
    requires HexByte(a) == HexByte(b)
    ensures a == b
  {
    assert HexValue(HexByte(a)[0]) == Some(a / 16) && HexValue(HexByte(a)[1]) == Some(a % 16);
    assert HexValue(HexByte(b)[0]) == Some(b / 16) && HexValue(HexByte(b)[1]) == Some(b % 16);
  }

  function HexEncode(bytes: seq<Byte>): (s: string) {
    if bytes == [] then [] else HexByte(bytes[0]) + HexEncode(bytes[1..])
  }

  /** hex.DecodeString: an odd length or a non-hex character is an error. */
  function HexDecode(s: string): (r: Option<seq<Byte>>) {
    if s == [] then Some([])
    else if |s| == 1 then None
    else
      var hi, lo, rest := HexValue(s[0]), HexValue(s[1]), HexDecode(s[2..]);
      if hi.None? || lo.None? || rest.None? then None
      else Some([hi.value * 16 + lo.value] + rest.value)
  }

  lemma {:induction false} HexRoundTrip(bytes: seq<Byte>)
    ensures HexDecode(HexEncode(bytes)) == Some(bytes)
  {
    if bytes != [] {
      HexRoundTrip(bytes[1..]);
      var s := HexEncode(bytes);
      assert s[0] == HexDigit(bytes[0] / 16) && s[1] == HexDigit(bytes[0] % 16);
      assert s[2..] == HexEncode(bytes[1..]);
      assert [bytes[0]] + bytes[1..] == bytes;
    }
  }

  /** The lower-case form of a hex digit. */
  function LowerHex(c: char): char {
    if 'A' <= c <= 'F' then (c as int + 32) as char else c
  }

  function LowerHexAll(s: string): (r: string)
    ensures |r| == |s| && forall i :: 0 <= i < |s| ==> r[i] == LowerHex(s[i])
  {
    seq(|s|, i requires 0 <= i < |s| => LowerHex(s[i]))
  }

  /** Decoding accepts exactly the texts that encoding gives, in lower or upper case. */
  lemma {:induction false} HexDecodeIff(s: string, bytes: seq<Byte>)
    ensures HexDecode(s) == Some(bytes) <==> LowerHexAll(s) == HexEncode(bytes)
  {
    if |s| >= 2 && bytes != [] {
      HexDecodeIff(s[2..], bytes[1..]);
      assert LowerHexAll(s) == [LowerHex(s[0]), LowerHex(s[1])] + LowerHexAll(s[2..]);
      TwoDigits(s[0], s[1], bytes[0]);
      var low, enc := LowerHexAll(s), HexEncode(bytes);
      assert low[..2] == [LowerHex(s[0]), LowerHex(s[1])] && low[2..] == LowerHexAll(s[2..]);
      assert enc[..2] == HexByte(bytes[0]) && enc[2..] == HexEncode(bytes[1..]);
      assert bytes == [bytes[0]] + bytes[1..];
    } else if bytes != [] {
      assert |HexEncode(bytes)| >= 2;
    }
  }

  lemma TwoDigits(hi: char, lo: char, b: Byte)
    ensures HexValue(hi).Some? && HexValue(lo).Some? && HexValue(hi).value * 16 + HexValue(lo).value == b
       <==> [LowerHex(hi), LowerHex(lo)] == HexByte(b)
  {
    OneDigit(hi, b / 16);
    OneDigit(lo, b % 16);
    assert [LowerHex(hi), LowerHex(lo)][0] == LowerHex(hi) && [LowerHex(hi), LowerHex(lo)][1] == LowerHex(lo);
    assert HexByte(b)[0] == HexDigit(b / 16) && HexByte(b)[1] == HexDigit(b % 16);
  }

  lemma OneDigit(c: char, d: nat)
    requires d < 16
    ensures HexValue(c) == Some(d) <==> LowerHex(c) == HexDigit(d)
  {
  }

  /** A number is an optional sign and at least one digit; it denotes the value of its digits, negated after a minus sign. */
  ghost predicate Denotes(s: string, sign: string, digits: string, v: int) {
    && s == sign + digits && (sign == "" || sign == "+" || sign == "-")
    && digits != [] && AllDigits(digits) && v == if sign == "-" then 0 - DigitsValue(digits) else DigitsValue(digits)
  }

  /** ParseInt64 accepts exactly the numbers of 64 bits. */
  lemma ParseIff(s: string, v: int)
    ensures ParseInt64(s) == Some(v) <==> INT64_MIN <= v <= INT64_MAX && exists sign, digits :: Denotes(s, sign, digits, v)
  {
    var sign := if s != [] && (s[0] == '-' || s[0] == '+') then s[..1] else "";
    var digits := if s != [] && (s[0] == '-' || s[0] == '+') then s[1..] else s;
    assert s == sign + digits;
    if ParseInt64(s) == Some(v) {
      assert Denotes(s, sign, digits, v);
    }
    forall sign', digits' | Denotes(s, sign', digits', v) ensures sign' == sign && digits' == digits {
      assert IsDigit(digits'[0]);
      if sign' != "" { assert s[0] == sign'[0] && s[1..] == digits'; } else { assert s == digits'; }
    }
  }

  /** The most significant digit comes first. */
  lemma MostSignificantFirst()
    ensures FormatInt(-4070) == "-4070" && HexByte(0xa7) == "a7" && HexByte(0x0c) == "0c"
  {
    assert FormatNat(4) == "4";
    assert FormatNat(40) == "40";
    assert FormatNat(407) == "407";
    assert FormatNat(4070) == "4070";
  }
}
