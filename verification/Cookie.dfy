/**
 The login cookie (Gate.Cookie and Gate.Verify in control-plane/internal/auth/auth.go). The keyed HMAC is an arbitrary
 function `mac` of the payload; times are Unix seconds.
 */
module Cookie {
  import opened Common
  import opened Text
  import opened Slug

  /** 30 days. */
  const MAX_AGE: int := 2592000

  datatype Gate = Gate(mac: string -> seq<Byte>, lower: char -> char, space: char -> bool)

  function Payload(owner: string, expiry: string): string {
    owner + "|" + expiry
  }

  function Expiry(issued: int): int {
    issued + MAX_AGE
  }

  /** The value of the cookie issued to `owner` at time `issued`. */
  function Value(g: Gate, owner: string, issued: int): string {
    var payload := Payload(owner, FormatInt(Expiry(issued)));
    payload + "|" + HexEncode(g.mac(payload))
  }

  /** The position of the first bar, or the length when there is none. */
  function Bar(s: string): (n: nat)
    ensures n <= |s|
  {
    if s == [] || s[0] == '|' then 0 else 1 + Bar(s[1..])
  }

  /** The parts before and after the first bar. */
  function Cut(s: string): Option<(string, string)> {
    if Bar(s) == |s| then None else Some((s[..Bar(s)], s[Bar(s) + 1..]))
  }

  /** strings.SplitN(value, "|", 3) when it gives three parts; the third may hold further bars. */
  function Split(value: string): Option<(string, string, string)> {
    match Cut(value)
    case None => None
    case Some((a, rest)) =>
      match Cut(rest)
      case None => None
      case Some((b, c)) => Some((a, b, c))
  }

  function Verify(g: Gate, value: string, now: int): Option<string> {
    match Split(value)
    case None => None
    case Some((owner, expiry, sig)) =>
      if HexDecode(sig) != Some(g.mac(Payload(owner, expiry))) then None
      else
        var exp := ParseInt64(expiry);
        if exp.None? || now > exp.value then None
        else if owner == "" || Slugify(g.lower, g.space, owner) != owner then None
        else Some(owner)
  }

  // --- splitting ---

  ghost predicate NoBar(s: string) {
    forall i :: 0 <= i < |s| ==> s[i] != '|'
  }

  lemma {:induction false} BarAfter(a: string, b: string)
    requires NoBar(a)
    ensures Bar(a + "|" + b) == |a|
  {
    var s := a + "|" + b;
    if a != [] {
      BarAfter(a[1..], b);
      assert s[1..] == a[1..] + "|" + b;
    }
  }

  lemma {:induction false} BarIsFirst(s: string)
    ensures NoBar(s[..Bar(s)]) && (Bar(s) < |s| ==> s[Bar(s)] == '|')
  {
    if s != [] && s[0] != '|' {
      BarIsFirst(s[1..]);
      assert forall i :: 0 < i < Bar(s) ==> s[i] == s[1..][..Bar(s[1..])][i - 1];
    }
  }

  lemma CutJoined(a: string, b: string)
    requires NoBar(a)
    ensures Cut(a + "|" + b) == Some((a, b))
  {
    BarAfter(a, b);
    var s := a + "|" + b;
    assert s[..|a|] == a && s[|a| + 1..] == b;
  }

  lemma CutSplits(s: string)
    ensures Cut(s).Some? ==> s == Cut(s).value.0 + "|" + Cut(s).value.1 && NoBar(Cut(s).value.0)
  {
    BarIsFirst(s);
    if Bar(s) < |s| { assert s == s[..Bar(s)] + "|" + s[Bar(s) + 1..]; }
  }

  ghost predicate Parts(value: string, a: string, b: string, c: string) {
    value == a + "|" + b + "|" + c
  }

  lemma Rejoined(value: string, a: string, b: string, c: string)
    requires Parts(value, a, b, c)
    ensures value == a + "|" + (b + "|" + c)
  {
  }

  lemma CutTwice(value: string, a: string, rest: string, b: string, c: string)
    requires Cut(value) == Some((a, rest)) && Cut(rest) == Some((b, c))
    ensures Split(value) == Some((a, b, c))
  {
  }

  lemma SplitJoined(value: string, a: string, b: string, c: string)
    requires Parts(value, a, b, c) && NoBar(a) && NoBar(b)
    ensures Split(value) == Some((a, b, c))
  {
    var rest := b + "|" + c;
    Rejoined(value, a, b, c);
    CutJoined(a, rest);
    CutJoined(b, c);
    CutTwice(value, a, rest, b, c);
  }

  lemma SplitIsParts(value: string)
    ensures Split(value).Some? ==> var (a, b, c) := Split(value).value; Parts(value, a, b, c) && NoBar(a) && NoBar(b)
  {
    CutSplits(value);
    if Cut(value).Some? {
      var (a, rest) := Cut(value).value;
      CutSplits(rest);
      if Cut(rest).Some? {
        var (b, c) := Cut(rest).value;
        assert a + "|" + (b + "|" + c) == a + "|" + b + "|" + c;
      }
    }
  }

  // --- no bars where there must be none ---

  lemma SlugHasNoBar(s: string)
    requires IsSlug(s)
    ensures NoBar(s)
  {
  }

  lemma NumberHasNoBar(s: string)
    requires ParseInt64(s).Some?
    ensures NoBar(s)
  {
  }

  lemma {:induction false} HexHasNoBar(s: string)
    requires HexDecode(s).Some?
    ensures NoBar(s)
  {
    if |s| > 1 {
      HexHasNoBar(s[2..]);
      assert forall i :: 2 <= i < |s| ==> s[i] == s[2..][i - 2];
    }
  }

  // --- what Verify accepts ---

  /** A value of three parts: a non-empty slug, a number not before `now`, and the hex form of their signature. */
  ghost predicate Signed(g: Gate, value: string, now: int, owner: string, expiry: string, sig: string) {
    && Parts(value, owner, expiry, sig)
    && owner != [] && IsSlug(owner)
    && ParseInt64(expiry).Some? && now <= ParseInt64(expiry).value
    && HexDecode(sig) == Some(g.mac(Payload(owner, expiry)))
  }

  lemma VerifiedIsSigned(g: Gate, value: string, now: int, owner: string) returns (expiry: string, sig: string)
    requires IsUnicode(g.lower, g.space) && Verify(g, value, now) == Some(owner)
    ensures Signed(g, value, now, owner, expiry, sig)
  {
    SplitIsParts(value);
    FixedIffSlug(g.lower, g.space, owner);
    expiry, sig := Split(value).value.1, Split(value).value.2;
  }

  /** Verify names an owner exactly for the properly signed, unexpired values of that owner. */
  lemma VerifyIff(g: Gate, value: string, now: int, owner: string)
    requires IsUnicode(g.lower, g.space)
    ensures Verify(g, value, now) == Some(owner) <==> exists expiry, sig :: Signed(g, value, now, owner, expiry, sig)
  {
    if Verify(g, value, now) == Some(owner) {
      var _, _ := VerifiedIsSigned(g, value, now, owner);
    }
    forall expiry, sig | Signed(g, value, now, owner, expiry, sig) ensures Verify(g, value, now) == Some(owner) {
      SignedIsVerified(g, value, now, owner, expiry, sig);
    }
  }

  lemma SignedIsVerified(g: Gate, value: string, now: int, owner: string, expiry: string, sig: string)
    requires IsUnicode(g.lower, g.space) && Signed(g, value, now, owner, expiry, sig)
    ensures Verify(g, value, now) == Some(owner)
  {
    SlugHasNoBar(owner);
    NumberHasNoBar(expiry);
    SplitJoined(value, owner, expiry, sig);
    FixedIffSlug(g.lower, g.space, owner);
  }

  /** The cookie issued for a name is read back as that name's slug until it expires. */
  lemma RoundTrip(g: Gate, name: string, issued: int, now: int)
    requires IsUnicode(g.lower, g.space) && INT64_MIN <= Expiry(issued) <= INT64_MAX
    requires Slugify(g.lower, g.space, name) != [] && now <= issued + 30 * 24 * 60 * 60
    ensures Verify(g, Value(g, Slugify(g.lower, g.space, name), issued), now) == Some(Slugify(g.lower, g.space, name))
  {
    var owner := Slugify(g.lower, g.space, name);
    SlugifyGivesSlug(g.lower, g.space, name);
    IssuedIsSigned(g, owner, issued, now);
    SignedIsVerified(g, Value(g, owner, issued), now, owner, FormatInt(Expiry(issued)),
                     HexEncode(g.mac(Payload(owner, FormatInt(Expiry(issued))))));
  }

  lemma IssuedIsSigned(g: Gate, owner: string, issued: int, now: int)
    requires INT64_MIN <= Expiry(issued) <= INT64_MAX && now <= Expiry(issued)
    requires owner != [] && IsSlug(owner)
    ensures var expiry := FormatInt(Expiry(issued));
      Signed(g, Value(g, owner, issued), now, owner, expiry, HexEncode(g.mac(Payload(owner, expiry))))
  {
    IntRoundTrip(Expiry(issued));
    HexRoundTrip(g.mac(Payload(owner, FormatInt(Expiry(issued)))));
  }

  /** A cookie issued to any string is accepted exactly when the string is a non-empty slug and the time is not past expiry. */
  lemma IssuedIff(g: Gate, owner: string, issued: int, now: int)
    requires IsUnicode(g.lower, g.space) && INT64_MIN <= Expiry(issued) <= INT64_MAX
    ensures Verify(g, Value(g, owner, issued), now).Some? <==>
      owner != [] && IsSlug(owner) && now <= issued + 30 * 24 * 60 * 60
  {
    var value := Value(g, owner, issued);
    if owner != [] && IsSlug(owner) && now <= Expiry(issued) {
      IssuedIsSigned(g, owner, issued, now);
      SignedIsVerified(g, value, now, owner, FormatInt(Expiry(issued)),
                       HexEncode(g.mac(Payload(owner, FormatInt(Expiry(issued))))));
    } else if Verify(g, value, now).Some? {
      AcceptedIsIssued(g, owner, issued, now);
    }
  }

  lemma AcceptedIsIssued(g: Gate, owner: string, issued: int, now: int)
    requires IsUnicode(g.lower, g.space) && INT64_MIN <= Expiry(issued) <= INT64_MAX
    requires Verify(g, Value(g, owner, issued), now).Some?
    ensures owner != [] && IsSlug(owner) && now <= Expiry(issued)
  {
    var value := Value(g, owner, issued);
    var expiry := FormatInt(Expiry(issued));
    var hex := HexEncode(g.mac(Payload(owner, expiry)));
    IntRoundTrip(Expiry(issued));
    NumberHasNoBar(expiry);
    HexRoundTrip(g.mac(Payload(owner, expiry)));
    HexHasNoBar(hex);
    assert Parts(value, owner, expiry, hex);
    var parts := Split(value).value;
    SplitIsParts(value);
    HexHasNoBar(parts.2);
    SamePartsFromRight(value, owner, expiry, hex, parts.0, parts.1, parts.2);
    FixedIffSlug(g.lower, g.space, owner);
  }

  /** What is signed tells owner and expiry, so a signature is good for no other owner and for no later time. */
  lemma PayloadTells(owner: string, expiry: string, owner': string, expiry': string)
    requires NoBar(owner) && NoBar(owner') && Payload(owner, expiry) == Payload(owner', expiry')
    ensures owner == owner' && expiry == expiry'
  {
    CutJoined(owner, expiry);
    CutJoined(owner', expiry');
  }

  lemma NoBarAfter(s: string, a: string, b: string)
    requires s == a + "|" + b && NoBar(b)
    ensures s[|a|] == '|' && forall i :: |a| < i < |s| ==> s[i] != '|'
  {
    assert forall i :: |a| < i < |s| ==> s[i] == b[i - |a| - 1];
  }

  lemma LastBar(s: string, a: string, b: string, c: string, d: string)
    requires s == a + "|" + b && s == c + "|" + d && NoBar(b) && NoBar(d)
    ensures a == c && b == d
  {
    NoBarAfter(s, a, b);
    NoBarAfter(s, c, d);
    assert |a| == |c|;
    assert a == s[..|a|] && c == s[..|a|];
    assert b == s[|a| + 1..] && d == s[|a| + 1..];
  }

  lemma SamePartsFromRight(s: string, a: string, b: string, c: string, a': string, b': string, c': string)
    requires Parts(s, a, b, c) && Parts(s, a', b', c') && NoBar(b) && NoBar(c) && NoBar(b') && NoBar(c')
    ensures a == a' && b == b' && c == c'
  {
    LastBar(s, a + "|" + b, c, a' + "|" + b', c');
    LastBar(a + "|" + b, a, b, a', b');
  }
}
