/**
 Owner names (Slugify in control-plane/internal/auth/auth.go). A name is a sequence of Unicode characters; the
 library's case mapping and its notion of white space are parameters.
 */
module Slug {

  const MAX_NAME_LEN: nat := 32

  predicate Alnum(c: char) {
    'a' <= c <= 'z' || '0' <= c <= '9'
  }

  predicate Dash(c: char) {
    c == '-'
  }

  /** What is taken from package unicode: slug characters are lower case and not white space, and white space is no letter. */
  ghost predicate IsUnicode(lower: char -> char, space: char -> bool) {
    && (forall c: char :: Alnum(c) || Dash(c) ==> lower(c) == c && !space(c))
    && (forall c: char :: space(c) ==> !Alnum(lower(c)))
  }

  // --- strings.Trim ---

  function TrimLeft(p: char -> bool, s: string): (r: string)
    ensures |r| <= |s| && (r != [] ==> !p(r[0]))
  {
    if s != [] && p(s[0]) then TrimLeft(p, s[1..]) else s
  }

  function TrimRight(p: char -> bool, s: string): (r: string)
    ensures |r| <= |s| && (r != [] ==> !p(r[|r| - 1]))
  {
    if s != [] && p(s[|s| - 1]) then TrimRight(p, s[..|s| - 1]) else s
  }

  function Trim(p: char -> bool, s: string): string {
    TrimRight(p, TrimLeft(p, s))
  }

  lemma {:induction false} TrimLeftIsSuffix(p: char -> bool, s: string)
    ensures var r := TrimLeft(p, s); r == s[|s| - |r|..]
  {
    if s != [] && p(s[0]) { TrimLeftIsSuffix(p, s[1..]); }
  }

  lemma {:induction false} TrimRightIsPrefix(p: char -> bool, s: string)
    ensures var r := TrimRight(p, s); r == s[..|r|]
  {
    if s != [] && p(s[|s| - 1]) { TrimRightIsPrefix(p, s[..|s| - 1]); }
  }

  lemma TrimHasNoEdge(p: char -> bool, s: string)
    ensures var r := Trim(p, s); r != [] ==> !p(r[0]) && !p(r[|r| - 1])
  {
    TrimRightIsPrefix(p, TrimLeft(p, s));
  }

  lemma TrimKeepsTrimmed(p: char -> bool, s: string)
    requires s != [] ==> !p(s[0]) && !p(s[|s| - 1])
    ensures Trim(p, s) == s
  {
  }

  // --- Slugify ---

  function Map(f: char -> char, s: string): (r: string)
    ensures |r| == |s| && forall i :: 0 <= i < |s| ==> r[i] == f(s[i])
  {
    seq(|s|, i requires 0 <= i < |s| => f(s[i]))
  }

  /** Every run of characters outside [a-z0-9] becomes one dash. */
  function Collapse(s: string): string {
    if s == [] then [] else
      var r, c := Collapse(s[..|s| - 1]), s[|s| - 1];
      if Alnum(c) then r + [c]
      else if r != [] && r[|r| - 1] == '-' then r
      else r + ['-']
  }

  /** The name before it is cut to length. */
  function LongSlug(lower: char -> char, space: char -> bool, name: string): string {
    Trim(Dash, Collapse(Map(lower, Trim(space, name))))
  }

  function Slugify(lower: char -> char, space: char -> bool, name: string): string {
    var s := LongSlug(lower, space, name);
    if |s| > MAX_NAME_LEN then Trim(Dash, s[..MAX_NAME_LEN]) else s
  }

  // --- what a slug is ---

  /** Over [a-z0-9-] with no doubled dash. */
  predicate Plain(s: string) {
    && (forall i :: 0 <= i < |s| ==> Alnum(s[i]) || s[i] == '-')
    && (forall i :: 0 < i < |s| ==> !(s[i - 1] == '-' && s[i] == '-'))
  }

  predicate NoEdge(s: string) {
    s != [] ==> s[0] != '-' && s[|s| - 1] != '-'
  }

  predicate IsSlug(s: string) {
    Plain(s) && NoEdge(s) && |s| <= MAX_NAME_LEN
  }

  lemma {:induction false} CollapseIsPlain(s: string)
    ensures Plain(Collapse(s))
  {
    if s != [] { CollapseIsPlain(s[..|s| - 1]); }
  }

  lemma PlainSlice(s: string, i: nat, j: nat)
    requires Plain(s) && i <= j <= |s|
    ensures Plain(s[i..j])
  {
  }

  lemma TrimIsSlice(p: char -> bool, s: string) returns (i: nat, j: nat)
    ensures i <= j <= |s| && Trim(p, s) == s[i..j]
  {
    var l := TrimLeft(p, s);
    TrimLeftIsSuffix(p, s);
    TrimRightIsPrefix(p, l);
    i := |s| - |l|;
    j := i + |Trim(p, s)|;
  }

  lemma TrimIsPlain(s: string)
    requires Plain(s)
    ensures Plain(Trim(Dash, s)) && NoEdge(Trim(Dash, s)) && |Trim(Dash, s)| <= |s|
  {
    var i, j := TrimIsSlice(Dash, s);
    PlainSlice(s, i, j);
    TrimHasNoEdge(Dash, s);
  }

  /** Whatever the name, the result is a slug, possibly the empty one. */
  lemma SlugifyGivesSlug(lower: char -> char, space: char -> bool, name: string)
    ensures IsSlug(Slugify(lower, space, name))
  {
    var c := Collapse(Map(lower, Trim(space, name)));
    CollapseIsPlain(Map(lower, Trim(space, name)));
    TrimIsPlain(c);
    var s := Trim(Dash, c);
    if |s| > MAX_NAME_LEN {
      PlainSlice(s, 0, MAX_NAME_LEN);
      assert s[0..MAX_NAME_LEN] == s[..MAX_NAME_LEN];
      TrimIsPlain(s[..MAX_NAME_LEN]);
    }
  }

  lemma {:induction false} CollapseKeepsPlain(s: string)
    requires Plain(s)
    ensures Collapse(s) == s
  {
    if s != [] {
      var n := |s| - 1;
      PlainSlice(s, 0, n);
      assert s[0..n] == s[..n];
      CollapseKeepsPlain(s[..n]);
      assert s[..n] + [s[n]] == s;
    }
  }

  lemma SlugIsFixed(lower: char -> char, space: char -> bool, s: string)
    requires IsUnicode(lower, space) && IsSlug(s)
    ensures Slugify(lower, space, s) == s
  {
    TrimKeepsTrimmed(space, s);
    assert Map(lower, s) == s;
    CollapseKeepsPlain(s);
    TrimKeepsTrimmed(Dash, s);
  }

  /** The slugs are exactly the fixed points, so slugifying twice is slugifying once. */
  lemma FixedIffSlug(lower: char -> char, space: char -> bool, s: string)
    requires IsUnicode(lower, space)
    ensures Slugify(lower, space, s) == s <==> IsSlug(s)
    ensures Slugify(lower, space, Slugify(lower, space, s)) == Slugify(lower, space, s)
  {
    SlugifyGivesSlug(lower, space, s);
    SlugIsFixed(lower, space, Slugify(lower, space, s));
    if IsSlug(s) { SlugIsFixed(lower, space, s); }
  }

  // --- what a slug keeps of the name ---

  function Letters(s: string): string {
    if s == [] then [] else
      Letters(s[..|s| - 1]) + if Alnum(s[|s| - 1]) then [s[|s| - 1]] else []
  }

  lemma {:induction false} LettersOfPrefix(s: string, n: nat)
    requires n <= |s|
    ensures Letters(s[..n]) <= Letters(s)
  {
    if n < |s| {
      var m := |s| - 1;
      LettersOfPrefix(s[..m], n);
      assert s[..m][..n] == s[..n];
    } else {
      assert s[..n] == s;
    }
  }

  lemma {:induction false} CollapseLetters(s: string)
    ensures Letters(Collapse(s)) == Letters(s)
  {
    if s != [] {
      var n := |s| - 1;
      CollapseLetters(s[..n]);
      var r := Collapse(s[..n]);
      assert (r + [s[n]])[..|r|] == r && (r + ['-'])[..|r|] == r;
    }
  }

  /** Leading characters that are no letters do not show. */
  lemma {:induction false} LettersDropFirst(s: string)
    requires s != [] && !Alnum(s[0])
    ensures Letters(s[1..]) == Letters(s)
  {
    var n := |s| - 1;
    if n > 0 {
      LettersDropFirst(s[..n]);
      assert s[1..][..n - 1] == s[..n][1..];
    } else {
      assert s[..0] == [] && s[1..] == [];
    }
  }

  lemma {:induction false} TrimLeftLetters(p: char -> bool, s: string)
    requires forall i :: 0 <= i < |s| && p(s[i]) ==> !Alnum(s[i])
    ensures Letters(TrimLeft(p, s)) == Letters(s)
  {
    if s != [] && p(s[0]) {
      LettersDropFirst(s);
      TrimLeftLetters(p, s[1..]);
    }
  }

  lemma {:induction false} TrimRightLetters(p: char -> bool, s: string)
    requires forall i :: 0 <= i < |s| && p(s[i]) ==> !Alnum(s[i])
    ensures Letters(TrimRight(p, s)) == Letters(s)
  {
    if s != [] && p(s[|s| - 1]) { TrimRightLetters(p, s[..|s| - 1]); }
  }

  lemma TrimLetters(p: char -> bool, s: string)
    requires forall i :: 0 <= i < |s| && p(s[i]) ==> !Alnum(s[i])
    ensures Letters(Trim(p, s)) == Letters(s)
  {
    var l := TrimLeft(p, s);
    TrimLeftLetters(p, s);
    TrimLeftIsSuffix(p, s);
    TrimRightLetters(p, l);
  }

  lemma MapRest(f: char -> char, s: string)
    requires s != []
    ensures Map(f, s)[1..] == Map(f, s[1..]) && Map(f, s)[..|s| - 1] == Map(f, s[..|s| - 1])
  {
  }

  lemma LettersDropLast(s: string)
    requires s != [] && !Alnum(s[|s| - 1])
    ensures Letters(s[..|s| - 1]) == Letters(s)
  {
  }

  /** Trimming white space off a name takes no letters off its lower-case form. */
  lemma {:induction false} LowerTrimLeft(lower: char -> char, space: char -> bool, s: string)
    requires IsUnicode(lower, space)
    ensures Letters(Map(lower, TrimLeft(space, s))) == Letters(Map(lower, s))
  {
    if s != [] && space(s[0]) {
      LowerTrimLeft(lower, space, s[1..]);
      MapRest(lower, s);
      var m := Map(lower, s);
      assert m[0] == lower(s[0]);
      LettersDropFirst(m);
    }
  }

  lemma {:induction false} LowerTrimRight(lower: char -> char, space: char -> bool, s: string)
    requires IsUnicode(lower, space)
    ensures Letters(Map(lower, TrimRight(space, s))) == Letters(Map(lower, s))
  {
    if s != [] && space(s[|s| - 1]) {
      LowerTrimRight(lower, space, s[..|s| - 1]);
      MapRest(lower, s);
      var m := Map(lower, s);
      assert m[|m| - 1] == lower(s[|s| - 1]);
      LettersDropLast(m);
    }
  }

  /** The letters and digits of a slug are those of the lower-case name, in order; all of them unless the name is too long. */
  lemma SlugKeepsLetters(lower: char -> char, space: char -> bool, name: string)
    requires IsUnicode(lower, space)
    ensures Letters(Slugify(lower, space, name)) <= Letters(Map(lower, name))
    ensures |LongSlug(lower, space, name)| <= MAX_NAME_LEN
        ==> Letters(Slugify(lower, space, name)) == Letters(Map(lower, name))
  {
    LowerTrimLeft(lower, space, name);
    LowerTrimRight(lower, space, TrimLeft(space, name));
    var m := Map(lower, Trim(space, name));
    CollapseLetters(m);
    TrimLetters(Dash, Collapse(m));
    var s := LongSlug(lower, space, name);
    if |s| > MAX_NAME_LEN {
      LettersOfPrefix(s, MAX_NAME_LEN);
      TrimLetters(Dash, s[..MAX_NAME_LEN]);
    }
  }

  lemma {:induction false} LettersSeen(s: string, i: nat)
    requires i < |s| && Alnum(s[i])
    ensures Letters(s) != []
  {
    if i < |s| - 1 { LettersSeen(s[..|s| - 1], i); }
  }

  lemma SlugHasLetters(s: string)
    requires Plain(s) && NoEdge(s) && s != []
    ensures Letters(s) != []
  {
    LettersSeen(s, 0);
  }

  lemma LongStays(lower: char -> char, space: char -> bool, name: string)
    requires |LongSlug(lower, space, name)| > MAX_NAME_LEN
    ensures Slugify(lower, space, name) != []
  {
    var c := Collapse(Map(lower, Trim(space, name)));
    CollapseIsPlain(Map(lower, Trim(space, name)));
    TrimIsPlain(c);
    TrimKeepsFirst(Trim(Dash, c)[..MAX_NAME_LEN]);
  }

  /** The empty slug means that the name has no letter and no digit. */
  lemma EmptyIff(lower: char -> char, space: char -> bool, name: string)
    requires IsUnicode(lower, space)
    ensures Slugify(lower, space, name) == [] <==> Letters(Map(lower, name)) == []
  {
    var slug := Slugify(lower, space, name);
    SlugifyGivesSlug(lower, space, name);
    SlugKeepsLetters(lower, space, name);
    if slug != [] {
      SlugHasLetters(slug);
    } else if |LongSlug(lower, space, name)| > MAX_NAME_LEN {
      LongStays(lower, space, name);
    }
  }

  lemma {:induction false} TrimKeepsFirst(s: string)
    requires s != [] && s[0] != '-'
    ensures Trim(Dash, s) != []
  {
    if |s| > 1 && s[|s| - 1] == '-' {
      TrimKeepsFirst(s[..|s| - 1]);
    }
  }

  // --- where the dashes stand ---

  /** The words of a text: its longest runs of letters and digits, in order. */
  function Words(s: string): seq<string> {
    if s == [] then [] else
      var n := |s| - 1;
      var ws := Words(s[..n]);
      if !Alnum(s[n]) then ws
      else if ws != [] && Alnum(s[n - 1]) then ws[..|ws| - 1] + [ws[|ws| - 1] + [s[n]]]
      else ws + [[s[n]]]
  }

  /** The words with one dash between each two. */
  function Join(ws: seq<string>): string {
    if ws == [] then [] else if |ws| == 1 then ws[0] else Join(ws[..|ws| - 1]) + "-" + ws[|ws| - 1]
  }

  lemma JoinOneMore(ws: seq<string>, w: string, all: seq<string>)
    requires all == ws + [w]
    ensures Join(all) == if ws == [] then w else Join(ws) + "-" + w
  {
    assert all[..|ws|] == ws && all[|ws|] == w;
  }

  lemma JoinLonger(ws: seq<string>, c: char, all: seq<string>)
    requires ws != [] && all == ws[..|ws| - 1] + [ws[|ws| - 1] + [c]]
    ensures Join(all) == Join(ws) + [c]
  {
    var front, last := ws[..|ws| - 1], ws[|ws| - 1];
    JoinOneMore(front, last + [c], all);
    JoinOneMore(front, last, ws);
    if front != [] { assert Join(front) + "-" + (last + [c]) == (Join(front) + "-" + last) + [c]; }
  }

  predicate NoLetters(s: string) {
    forall i :: 0 <= i < |s| ==> !Alnum(s[i])
  }

  lemma {:induction false} NoWordsIff(s: string)
    ensures Words(s) == [] <==> NoLetters(s)
  {
    if s != [] { NoWordsIff(s[..|s| - 1]); }
  }

  /** What stands before the words and after them, when there are any. */
  function Before(s: string): string {
    if s != [] && !Alnum(s[0]) then "-" else ""
  }

  function Behind(s: string): string {
    if s != [] && !Alnum(s[|s| - 1]) then "-" else ""
  }

  lemma {:induction false} CollapseNoLetters(s: string)
    requires NoLetters(s)
    ensures Collapse(s) == Before(s)
  {
    if s != [] { CollapseNoLetters(s[..|s| - 1]); }
  }

  /** `j` has letters or digits at both ends. */
  predicate Edged(j: string) {
    j != [] && Alnum(j[0]) && Alnum(j[|j| - 1])
  }

  lemma AppendLetter(a: string, j: string, b: string, c: char)
    requires b == "" || b == "-"
    ensures (a + j + b) + [c] == a + (if b == "" then j + [c] else j + "-" + [c]) + ""
  {
    if b == "" {
      assert a + j + b == a + j;
      assert (a + j) + [c] == a + (j + [c]) + "";
    } else {
      assert (a + j + "-") + [c] == a + (j + "-" + [c]) + "";
    }
  }

  lemma EndsIn(a: string, j: string, b: string)
    requires Edged(j) && (b == "" || b == "-")
    ensures var r := a + j + b; r != [] && (r[|r| - 1] == '-' <==> b == "-") && (b == "" ==> r + ['-'] == a + j + "-")
  {
  }

  /** One more character, behind words that read `j`. */
  lemma CollapseOneMore(s: string, j: string)
    requires s != [] && Edged(j) && Collapse(s[..|s| - 1]) == Before(s) + j + Behind(s[..|s| - 1])
    ensures var n := |s| - 1;
      Collapse(s) == Before(s) + (if !Alnum(s[n]) then j else if Behind(s[..n]) == "" then j + [s[n]] else j + "-" + [s[n]]) + Behind(s)
  {
    var n := |s| - 1;
    EndsIn(Before(s), j, Behind(s[..n]));
    AppendLetter(Before(s), j, Behind(s[..n]), s[n]);
  }

  lemma {:induction false} CollapseIsWords(s: string)
    requires Words(s) != []
    ensures Edged(Join(Words(s))) && Collapse(s) == Before(s) + Join(Words(s)) + Behind(s)
  {
    var n := |s| - 1;
    var ws := Words(s[..n]);
    NoWordsIff(s[..n]);
    if ws == [] {
      CollapseNoLetters(s[..n]);
      FirstWord(s);
    } else {
      CollapseIsWords(s[..n]);
      assert n > 0 && s[..n][0] == s[0] && s[..n][n - 1] == s[n - 1];
      CollapseOneMore(s, Join(ws));
      if Alnum(s[n]) {
        if Alnum(s[n - 1]) { JoinLonger(ws, s[n], Words(s)); } else { JoinOneMore(ws, [s[n]], Words(s)); }
      }
    }
  }

  lemma FirstWord(s: string)
    requires s != [] && NoLetters(s[..|s| - 1]) && Words(s[..|s| - 1]) == [] && Words(s) != []
    requires Collapse(s[..|s| - 1]) == Before(s[..|s| - 1])
    ensures Edged(Join(Words(s))) && Collapse(s) == Before(s) + Join(Words(s)) + Behind(s)
  {
    var n := |s| - 1;
    JoinOneMore([], [s[n]], Words(s));
    if n > 0 { assert s[..n][0] == s[0]; }
  }

  lemma TrimLeftDash(s: string)
    requires s != [] && s[0] != '-'
    ensures TrimLeft(Dash, "-" + s) == s && TrimLeft(Dash, s) == s
  {
    assert ("-" + s)[1..] == s;
  }

  lemma TrimRightDash(s: string)
    requires s != [] && s[|s| - 1] != '-'
    ensures TrimRight(Dash, s + "-") == s && TrimRight(Dash, s) == s
  {
    assert (s + "-")[..|s|] == s;
  }

  lemma TrimAround(a: string, s: string, b: string)
    requires (a == "" || a == "-") && (b == "" || b == "-") && s != [] && s[0] != '-' && s[|s| - 1] != '-'
    ensures Trim(Dash, a + s + b) == s
  {
    assert a + s + b == a + (s + b);
    TrimLeftDash(s + b);
    if a == "" { assert a + (s + b) == s + b; }
    TrimRightDash(s);
    if b == "" { assert s + b == s; }
  }

  lemma TrimmedIsWords(s: string)
    ensures Trim(Dash, Collapse(s)) == Join(Words(s))
  {
    NoWordsIff(s);
    if Words(s) == [] {
      CollapseNoLetters(s);
      assert "-"[1..] == "";
    } else {
      CollapseIsWords(s);
      TrimAround(Before(s), Join(Words(s)), Behind(s));
    }
  }

  lemma WordsDropLast(s: string)
    requires s != [] && !Alnum(s[|s| - 1])
    ensures Words(s[..|s| - 1]) == Words(s)
  {
  }

  lemma {:induction false} WordsDropFirst(s: string)
    requires s != [] && !Alnum(s[0])
    ensures Words(s[1..]) == Words(s)
  {
    var n := |s| - 1;
    if n > 0 {
      WordsDropFirst(s[..n]);
      assert s[1..][..n - 1] == s[..n][1..] && s[1..][n - 1] == s[n];
      NoWordsIff(s[..n]);
      NoWordsIff(s[..n][1..]);
    } else {
      assert s[..0] == [] && s[1..] == [];
    }
  }

  lemma {:induction false} WordsTrimLeft(lower: char -> char, space: char -> bool, s: string)
    requires IsUnicode(lower, space)
    ensures Words(Map(lower, TrimLeft(space, s))) == Words(Map(lower, s))
  {
    if s != [] && space(s[0]) {
      WordsTrimLeft(lower, space, s[1..]);
      MapRest(lower, s);
      assert Map(lower, s)[0] == lower(s[0]);
      WordsDropFirst(Map(lower, s));
    }
  }

  lemma {:induction false} WordsTrimRight(lower: char -> char, space: char -> bool, s: string)
    requires IsUnicode(lower, space)
    ensures Words(Map(lower, TrimRight(space, s))) == Words(Map(lower, s))
  {
    if s != [] && space(s[|s| - 1]) {
      WordsTrimRight(lower, space, s[..|s| - 1]);
      MapRest(lower, s);
      assert Map(lower, s)[|s| - 1] == lower(s[|s| - 1]);
      WordsDropLast(Map(lower, s));
    }
  }

  /** A slug cut to length loses at most the dash it would end in. */
  lemma CutIs(s: string)
    requires Plain(s) && NoEdge(s) && |s| > MAX_NAME_LEN
    ensures Trim(Dash, s[..MAX_NAME_LEN]) == if s[MAX_NAME_LEN - 1] == '-' then s[..MAX_NAME_LEN - 1] else s[..MAX_NAME_LEN]
  {
    var n := MAX_NAME_LEN - 1;
    if s[n] == '-' {
      assert s[..n + 1] == s[..n] + "-" && s[n - 1] != '-';
      TrimAround("", s[..n], "-");
      assert "" + s[..n] + "-" == s[..n + 1];
    } else {
      TrimAround("", s[..n + 1], "");
      assert "" + s[..n + 1] + "" == s[..n + 1];
    }
  }

  /**
   A slug is the words of the lower-case name with one dash between each two; of a name that is too long for it, the
   first 32 characters of that, without a dash at the end.
   */
  lemma SlugIsWords(lower: char -> char, space: char -> bool, name: string)
    requires IsUnicode(lower, space)
    ensures var s := Join(Words(Map(lower, name)));
      Slugify(lower, space, name) == if |s| <= 32 then s else if s[31] == '-' then s[..31] else s[..32]
  {
    var s := Join(Words(Map(lower, name)));
    WordsTrimLeft(lower, space, name);
    WordsTrimRight(lower, space, TrimLeft(space, name));
    var m := Map(lower, Trim(space, name));
    TrimmedIsWords(m);
    if |s| > MAX_NAME_LEN {
      CollapseIsPlain(m);
      TrimIsPlain(Collapse(m));
      CutIs(s);
    }
  }
}
