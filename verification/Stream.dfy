/**
 Copying an upstream response to the client while reading the token usage out of it
 (proxy/internal/server/stream.go). The body arrives in any chunks and ends in EOF or in a read error; the client's
 connection takes `room` more bytes before its writes fail.
 */
module Stream {
  import opened Common

  const NEWLINE: Byte := 10
  const DATA: Bytes := [100, 97, 116, 97, 58]
  const CAPTURE_CAP: nat := 32768
  const TEE_CAP: nat := 1048576

  function Take(b: Bytes, n: nat): (r: Bytes)
    ensures |r| == Min(|b|, n) && r <= b
  {
    if |b| <= n then b else b[..n]
  }

  lemma TakeAppend(a: Bytes, b: Bytes, n: nat)
    ensures Take(a + b, n) == Take(a, n) + Take(b, n - |Take(a, n)|)
  {
  }

  function Flatten(chunks: seq<Bytes>): Bytes {
    if chunks == [] then [] else chunks[0] + Flatten(chunks[1..])
  }

  // --- usage ---

  datatype Usage = Usage(request: nat, response: nat)

  const NO_USAGE: Usage := Usage(0, 0)

  /** What json.Unmarshal finds at the three places a usage object may sit; any of the counts may be negative. */
  datatype Decoded = Decoded(request: seq<int>, response: seq<int>)

  type Decoder = Bytes -> Option<Decoded>

  /** max64: the largest argument, and 0 when none is positive. */
  method Max64(xs: seq<int>) returns (m: nat)
    ensures m == Largest(xs)
  {
    m := 0;
    for i := 0 to |xs|
      invariant m == Largest(xs[..i])
    {
      assert xs[..i + 1][..i] == xs[..i];
      if xs[i] > m {
        m := xs[i];
      }
    }
    assert xs[..|xs|] == xs;
  }

  function Largest(xs: seq<int>): (m: nat)
    ensures forall i :: 0 <= i < |xs| ==> xs[i] <= m
    ensures m == 0 || m in xs
  {
    if xs == [] then 0 else Max(Largest(xs[..|xs| - 1]), xs[|xs| - 1])
  }

  /** parseUsage; `decode` stands for trimming, the test for a leading brace and json.Unmarshal. */
  function Parse(decode: Decoder, b: Bytes): Usage {
    match decode(b)
    case None => NO_USAGE
    case Some(d) => Usage(Largest(d.request), Largest(d.response))
  }

  /** mergeUsage. */
  function Merge(a: Usage, b: Usage): Usage {
    Usage(Max(a.request, b.request), Max(a.response, b.response))
  }

  /** What one line of an event stream adds. */
  function LineUsage(decode: Decoder, line: Bytes): Usage {
    if DATA <= line then Parse(decode, line[5..]) else NO_USAGE
  }

  // --- lines ---

  /** One past the first newline, or the whole length when there is none. */
  function LineEnd(b: Bytes): (n: nat)
    ensures n <= |b| && (b != [] ==> n > 0)
  {
    if b == [] then 0 else if b[0] == NEWLINE then 1 else 1 + LineEnd(b[1..])
  }

  /** A line holds no newline but its last byte, and lacks that one only at the end of the body. */
  lemma {:induction false} LineEndIsFirst(b: Bytes)
    ensures forall i :: 0 <= i < LineEnd(b) - 1 ==> b[i] != NEWLINE
    ensures if NEWLINE in b then LineEnd(b) > 0 && b[LineEnd(b) - 1] == NEWLINE else LineEnd(b) == |b|
  {
    if b != [] && b[0] != NEWLINE {
      LineEndIsFirst(b[1..]);
      assert b == [b[0]] + b[1..];
    }
  }

  function Lines(b: Bytes): seq<Bytes> {
    if b == [] then [] else [b[..LineEnd(b)]] + Lines(b[LineEnd(b)..])
  }

  lemma {:induction false} LineEndOfPrefix(a: Bytes, b: Bytes)
    requires NEWLINE in a
    ensures LineEnd(a + b) == LineEnd(a)
  {
    if a[0] != NEWLINE {
      assert a == [a[0]] + a[1..];
      LineEndOfPrefix(a[1..], b);
      assert (a + b)[1..] == a[1..] + b;
    }
  }

  /** Splitting loses nothing. */
  lemma {:induction false} LinesJoin(b: Bytes)
    ensures Flatten(Lines(b)) == b
  {
    if b != [] {
      var n := LineEnd(b);
      LinesJoin(b[n..]);
      var ls := Lines(b);
      assert ls[0] == b[..n] && ls[1..] == Lines(b[n..]);
      calc {
        Flatten(ls);
        b[..n] + Flatten(Lines(b[n..]));
        b[..n] + b[n..];
        b;
      }
    }
  }

  function Best(decode: Decoder, lines: seq<Bytes>): Usage {
    if lines == [] then NO_USAGE else Merge(LineUsage(decode, lines[0]), Best(decode, lines[1..]))
  }

  /** The usage of a stream is the least one that covers every line: each count is an upper bound, and is attained. */
  lemma {:induction false} BestIsLeast(decode: Decoder, lines: seq<Bytes>, u: Usage)
    ensures Best(decode, lines).request <= u.request
       <==> forall i :: 0 <= i < |lines| ==> LineUsage(decode, lines[i]).request <= u.request
    ensures Best(decode, lines).response <= u.response
       <==> forall i :: 0 <= i < |lines| ==> LineUsage(decode, lines[i]).response <= u.response
  {
    if lines != [] {
      BestIsLeast(decode, lines[1..], u);
      assert forall i :: 0 <= i < |lines| ==> lines[i] == if i == 0 then lines[0] else lines[1..][i - 1];
      assert forall i :: 0 <= i < |lines| - 1 ==> lines[1..][i] == lines[i + 1];
    }
  }

  /** The order and the repetition of lines do not matter. */
  lemma BestOfSameLines(decode: Decoder, a: seq<Bytes>, b: seq<Bytes>)
    requires forall line :: line in a <==> line in b
    ensures Best(decode, a) == Best(decode, b)
  {
    Covers(decode, a, b);
    Covers(decode, b, a);
  }

  lemma Covers(decode: Decoder, a: seq<Bytes>, b: seq<Bytes>)
    requires forall line :: line in a ==> line in b
    ensures Best(decode, a).request <= Best(decode, b).request
    ensures Best(decode, a).response <= Best(decode, b).response
  {
    var u := Best(decode, b);
    BestIsLeast(decode, b, u);
    forall i | 0 <= i < |a|
      ensures LineUsage(decode, a[i]).request <= u.request && LineUsage(decode, a[i]).response <= u.response
    {
      assert a[i] in b;
      var j :| 0 <= j < |b| && b[j] == a[i];
    }
    BestIsLeast(decode, a, u);
  }

  // --- what is charged, in terms of what the decoder finds ---

  /** The payloads of the data lines. */
  function Payloads(lines: seq<Bytes>): seq<Bytes> {
    if lines == [] then [] else (if DATA <= lines[0] then [lines[0][5..]] else []) + Payloads(lines[1..])
  }

  predicate AtLeast(n: int, counts: seq<int>) {
    forall i :: 0 <= i < |counts| ==> counts[i] <= n
  }

  /** The counts found for requests, or for responses, in one payload. */
  function Found(decode: Decoder, data: Bytes, request: bool): seq<int> {
    match decode(data)
    case None => []
    case Some(d) => if request then d.request else d.response
  }

  /** `n` is at least every count found in the payloads, and is 0 or one of them. */
  ghost predicate IsHighest(decode: Decoder, datas: seq<Bytes>, request: bool, n: nat) {
    && (forall i :: 0 <= i < |datas| ==> AtLeast(n, Found(decode, datas[i], request)))
    && (n == 0 || exists i :: 0 <= i < |datas| && n in Found(decode, datas[i], request))
  }

  /** What a response is charged: the highest request count found in it and the highest response count. */
  ghost predicate Charges(decode: Decoder, datas: seq<Bytes>, u: Usage) {
    IsHighest(decode, datas, true, u.request) && IsHighest(decode, datas, false, u.response)
  }

  lemma ParseCharges(decode: Decoder, data: Bytes)
    ensures Charges(decode, [data], Parse(decode, data))
  {
    var u, one := Parse(decode, data), [data];
    assert one[0] == data;
    assert u.request == 0 || u.request in Found(decode, one[0], true);
    assert u.response == 0 || u.response in Found(decode, one[0], false);
  }

  lemma HighestOfTwo(decode: Decoder, data: Bytes, rest: seq<Bytes>, request: bool, m: nat, n: nat)
    requires IsHighest(decode, [data], request, m) && IsHighest(decode, rest, request, n)
    ensures IsHighest(decode, [data] + rest, request, Max(m, n))
  {
    var all := [data] + rest;
    assert [data][0] == data && all[0] == data && forall i :: 0 <= i < |rest| ==> all[i + 1] == rest[i];
    if m >= n {
      assert m == 0 || m in Found(decode, all[0], request);
    } else {
      var i :| 0 <= i < |rest| && n in Found(decode, rest[i], request);
      assert n in Found(decode, all[i + 1], request);
    }
  }

  /** A stream is charged the highest counts of its data lines. */
  lemma {:induction false} BestCharges(decode: Decoder, lines: seq<Bytes>)
    ensures Charges(decode, Payloads(lines), Best(decode, lines))
  {
    if lines != [] {
      BestCharges(decode, lines[1..]);
      var u, rest := Best(decode, lines[1..]), Payloads(lines[1..]);
      if DATA <= lines[0] {
        var data := lines[0][5..];
        ParseCharges(decode, data);
        HighestOfTwo(decode, data, rest, true, Parse(decode, data).request, u.request);
        HighestOfTwo(decode, data, rest, false, Parse(decode, data).response, u.response);
      } else {
        assert Payloads(lines) == rest;
      }
    }
  }

  lemma SentCharges(decode: Decoder, body: Bytes, room: nat)
    ensures Charges(decode, Payloads(Lines(body[..Whole(body, room)])), SentUsage(decode, body, room))
  {
    var sent := body[..Whole(body, room)];
    SentUsageIsPrefix(decode, body, room);
    UsageOfLines(decode, sent);
    BestCharges(decode, Lines(sent));
  }

  // --- the largest count against the sum ---

  /** The response tokens of all lines together. */
  function Sum(decode: Decoder, lines: seq<Bytes>): nat {
    if lines == [] then 0 else LineUsage(decode, lines[0]).response + Sum(decode, lines[1..])
  }

  /** How many lines report response tokens. */
  function Reports(decode: Decoder, lines: seq<Bytes>): nat {
    if lines == [] then 0 else Bit(LineUsage(decode, lines[0]).response > 0) + Reports(decode, lines[1..])
  }

  lemma {:induction false} BestAndSum(decode: Decoder, lines: seq<Bytes>)
    ensures Bit(Reports(decode, lines) > 0) <= Best(decode, lines).response <= Sum(decode, lines)
    ensures Reports(decode, lines) == 0 ==> Sum(decode, lines) == 0
  {
    if lines != [] { BestAndSum(decode, lines[1..]); }
  }

  /**
   mergeUsage is described as additive for response tokens and takes the larger count instead. The two agree on a
   stream exactly when at most one of its lines reports response tokens.
   */
  lemma {:induction false} BestIsSumIff(decode: Decoder, lines: seq<Bytes>)
    ensures Best(decode, lines).response == Sum(decode, lines) <==> Reports(decode, lines) <= 1
  {
    if lines != [] {
      BestIsSumIff(decode, lines[1..]);
      BestAndSum(decode, lines[1..]);
    }
  }

  /** Two lines that report one response token each are charged as one. */
  lemma SecondDeltaLost() returns (decode: Decoder, lines: seq<Bytes>)
    ensures |lines| == 2 && Best(decode, lines).response == 1 && Sum(decode, lines) == 2
  {
    decode := b => Some(Decoded([0], [1]));
    lines := [DATA, DATA];
    var one, none := lines[1..], lines[1..][1..];
    assert none == [];
    assert Largest([1]) == 1;
    assert LineUsage(decode, DATA).response == 1;
    assert Best(decode, none) == NO_USAGE && Sum(decode, none) == 0;
    assert Best(decode, one).response == 1 && Sum(decode, one) == 1;
  }

  /** The same usage, taken line by line. */
  function StreamUsage(decode: Decoder, b: Bytes): Usage {
    if b == [] then NO_USAGE
    else Merge(LineUsage(decode, b[..LineEnd(b)]), StreamUsage(decode, b[LineEnd(b)..]))
  }

  lemma {:induction false} UsageOfLines(decode: Decoder, b: Bytes)
    ensures StreamUsage(decode, b) == Best(decode, Lines(b))
  {
    if b != [] {
      UsageOfLines(decode, b[LineEnd(b)..]);
      var ls := Lines(b);
      assert ls[0] == b[..LineEnd(b)] && ls[1..] == Lines(b[LineEnd(b)..]);
    }
  }

  // --- what a client that stops reading has been sent ---

  /** The length of the whole lines that fit into `room`. */
  function Whole(b: Bytes, room: nat): (n: nat)
    ensures n <= Min(room, |b|)
    decreases |b|
  {
    if b == [] || LineEnd(b) > room then 0 else LineEnd(b) + Whole(b[LineEnd(b)..], room - LineEnd(b))
  }

  lemma {:induction false} WholeWhenRoom(b: Bytes, room: nat)
    requires |b| <= room
    ensures Whole(b, room) == |b|
    decreases |b|
  {
    if b != [] { WholeWhenRoom(b[LineEnd(b)..], room - LineEnd(b)); }
  }

  lemma {:induction false} LineEndStable(b: Bytes, n: nat)
    requires LineEnd(b) <= n <= |b|
    ensures LineEnd(b[..n]) == LineEnd(b)
  {
    if b != [] && b[0] != NEWLINE {
      LineEndStable(b[1..], n - 1);
      assert b[..n][1..] == b[1..][..n - 1];
    }
  }

  lemma FirstLine(decode: Decoder, p: Bytes, line: Bytes, rest: Bytes)
    requires p == line + rest && line != [] && LineEnd(p) == |line|
    ensures StreamUsage(decode, p) == Merge(LineUsage(decode, line), StreamUsage(decode, rest))
  {
    assert p[..|line|] == line && p[|line|..] == rest;
  }

  /** The usage read out of the lines that fit into `room`. */
  function SentUsage(decode: Decoder, b: Bytes, room: nat): Usage
    decreases |b|
  {
    if b == [] || LineEnd(b) > room then NO_USAGE
    else Merge(LineUsage(decode, b[..LineEnd(b)]), SentUsage(decode, b[LineEnd(b)..], room - LineEnd(b)))
  }

  /** A client that stops reading is charged for the whole lines it was sent. */
  lemma {:induction false} SentUsageIsPrefix(decode: Decoder, b: Bytes, room: nat)
    ensures SentUsage(decode, b, room) == StreamUsage(decode, b[..Whole(b, room)])
    decreases |b|
  {
    var e, n := LineEnd(b), Whole(b, room);
    if b == [] || e > room {
      assert b[..n] == [];
    } else {
      SentUsageIsPrefix(decode, b[e..], room - e);
      LineEndStable(b, n);
      SplitPrefix(b, e, n);
      FirstLine(decode, b[..n], b[..e], b[e..][..n - e]);
    }
  }

  lemma SplitPrefix(b: Bytes, e: nat, n: nat)
    requires e <= n <= |b|
    ensures b[..n] == b[..e] + b[e..][..n - e]
  {
  }

  /** A client that takes everything is charged for every line. */
  lemma SentAll(decode: Decoder, b: Bytes, room: nat)
    requires |b| <= room
    ensures SentUsage(decode, b, room) == Best(decode, Lines(b))
  {
    SentUsageIsPrefix(decode, b, room);
    WholeWhenRoom(b, room);
    assert b[..|b|] == b;
    UsageOfLines(decode, b);
  }

  // --- how much of the body is read ---

  /** The whole lines that fit into `room` and the first line that does not. */
  function LinesRead(b: Bytes, room: nat): (n: nat)
    ensures n <= |b|
    decreases |b|
  {
    if b == [] then 0
    else if LineEnd(b) > room then LineEnd(b)
    else LineEnd(b) + LinesRead(b[LineEnd(b)..], room - LineEnd(b))
  }

  lemma {:induction false} AllLinesRead(b: Bytes, room: nat)
    requires |b| <= room
    ensures LinesRead(b, room) == |b|
    decreases |b|
  {
    if b != [] { AllLinesRead(b[LineEnd(b)..], room - LineEnd(b)); }
  }

  /** The chunks that fit into `room` and the first chunk that does not. */
  function ChunksRead(chunks: seq<Bytes>, room: nat): (n: nat)
    ensures n <= |Flatten(chunks)|
  {
    if chunks == [] then 0
    else if |chunks[0]| > room then |chunks[0]|
    else |chunks[0]| + ChunksRead(chunks[1..], room - |chunks[0]|)
  }

  lemma {:induction false} AllChunksRead(chunks: seq<Bytes>, room: nat)
    requires |Flatten(chunks)| <= room
    ensures ChunksRead(chunks, room) == |Flatten(chunks)|
  {
    if chunks != [] { AllChunksRead(chunks[1..], room - |chunks[0]|); }
  }

  /** `total` bytes are read in all: those of `sent` and `more`. */
  ghost predicate ToRead(total: nat, sent: Bytes, more: nat) {
    total == |sent| + more
  }

  lemma ReadPrefix(body: Bytes, sent: Bytes, line: Bytes, rest: Bytes, total: nat)
    requires body == sent + (line + rest) && ToRead(total, sent, |line|)
    ensures total <= |body| && body[..total] == sent + line
  {
  }

  lemma LineRead(all: Bytes, line: Bytes, rest: Bytes, room: nat)
    requires Splits(all, line, rest) && line != []
    ensures LinesRead(all, room) == if |line| > room then |line| else |line| + LinesRead(rest, room - |line|)
  {
    assert all[|line|..] == rest;
  }

  /** `line` is the first line of `all`. */
  ghost predicate Splits(all: Bytes, line: Bytes, rest: Bytes) {
    all == line + rest && |line| == LineEnd(all)
  }

  lemma LineCharged(decode: Decoder, all: Bytes, line: Bytes, rest: Bytes, room: nat)
    requires Splits(all, line, rest) && line != []
    ensures SentUsage(decode, all, room)
         == if |line| > room then NO_USAGE else Merge(LineUsage(decode, line), SentUsage(decode, rest, room - |line|))
  {
    assert all[..|line|] == line && all[|line|..] == rest;
  }

  // --- the ends of the copy ---

  class Writer {
    var out: Bytes
    var room: nat
    var flushed: nat

    constructor (room: nat)
      ensures this.out == [] && this.room == room && this.flushed == 0
    {
      this.out, this.room, this.flushed := [], room, 0;
    }

    /** A failing write may have sent part of its bytes. */
    method Write(p: Bytes) returns (ok: bool)
      modifies this
      ensures ok == (|p| <= old(room))
      ensures out == old(out) + Take(p, old(room)) && room == old(room) - |Take(p, old(room))| && flushed == old(flushed)
    {
      ok := |p| <= room;
      var sent := Take(p, room);
      out, room := out + sent, room - |sent|;
    }

    method Flush()
      modifies this
      ensures flushed == |out| && out == old(out) && room == old(room)
    {
      flushed := |out|;
    }
  }

  /** bufio.Reader over the chunks of the upstream body. */
  class LineReader {
    var buf: Bytes
    var chunks: seq<Bytes>

    ghost function Pending(): Bytes
      reads this
    {
      buf + Flatten(chunks)
    }

    constructor (chunks: seq<Bytes>)
      ensures Pending() == Flatten(chunks)
    {
      this.buf, this.chunks := [], chunks;
    }

    /** ReadBytes('\n'): the next line with its newline, or what is left when the body ends first. */
    method ReadBytes() returns (line: Bytes, ended: bool)
      modifies this
      ensures Splits(old(Pending()), line, Pending())
      ensures ended == (NEWLINE !in old(Pending())) && (ended ==> Pending() == [])
    {
      ghost var all := Pending();
      while NEWLINE !in buf && chunks != []
        invariant Pending() == all
        decreases |chunks|
      {
        assert buf + (chunks[0] + Flatten(chunks[1..])) == (buf + chunks[0]) + Flatten(chunks[1..]);
        buf, chunks := buf + chunks[0], chunks[1..];
      }
      ended := NEWLINE !in buf;
      if ended {
        LineEndIsFirst(buf);
      } else {
        LineEndOfPrefix(buf, Flatten(chunks));
      }
      assert ended ==> all == buf;
      var n := LineEnd(buf);
      line, buf := buf[..n], buf[n..];
      assert all == (line + buf) + Flatten(chunks);
    }
  }

  datatype Err = NoErr | ReadErr | WriteErr

  /** streamSSE. `failed`: the body ends in a read error and not in EOF. */
  method StreamSSE(w: Writer, chunks: seq<Bytes>, failed: bool, flusher: bool, decode: Decoder)
      returns (usage: Usage, captured: Bytes, err: Err)
    modifies w
    ensures var body := Flatten(chunks);
      && w.out == old(w.out) + Take(body, old(w.room))
      && usage == SentUsage(decode, body, old(w.room)) && (err != WriteErr ==> usage == Best(decode, Lines(body)))
      && Charges(decode, Payloads(Lines(body[..Whole(body, old(w.room))])), usage)
      && err == (if |body| > old(w.room) then WriteErr else if failed then ReadErr else NoErr)
      && captured == Take(body[..LinesRead(body, old(w.room))], 32 * 1024)
      && (err != WriteErr ==> captured == Take(body, 32 * 1024))
      && (err == NoErr && flusher ==> w.flushed == |w.out|)
  {
    usage, captured, err := NO_USAGE, [], NoErr;
    var r := new LineReader(chunks);
    ghost var out0, room0, body, sent: Bytes := w.out, w.room, Flatten(chunks), [];
    CopyStart(decode, out0, body, sent, room0);
    var ended := false;
    while !ended
      invariant fresh(r) && (ended ==> r.Pending() == [])
      invariant Copied(out0, w.out, body, sent, r.Pending(), room0, w.room)
      invariant Due(decode, body, room0, usage, r.Pending(), w.room)
      invariant captured == Take(sent, CAPTURE_CAP) && ToRead(LinesRead(body, room0), sent, LinesRead(r.Pending(), w.room))
      decreases !ended, |r.Pending()|
    {
      ghost var left := r.Pending();
      var line: Bytes;
      line, ended := r.ReadBytes();
      if |line| > 0 {
        var ok: bool;
        ok, usage, captured := ForwardLine(w, line, flusher, decode, usage, captured,
                                           Progress(out0, room0, body), sent, left, r.Pending());
        if !ok {
          SentCharges(decode, body, room0);
          return usage, captured, WriteErr;
        }
        sent := sent + line;
      }
    }
    CopyEnd(out0, w.out, body, sent, r.Pending(), room0, w.room);
    DueEnd(decode, body, room0, usage, r.Pending(), w.room);
    SentAll(decode, body, room0);
    SentCharges(decode, body, room0);
    AllLinesRead(body, room0);
    assert body[..|body|] == body;
    if failed {
      err := ReadErr;
    } else if flusher {
      w.Flush();
    }
  }

  /** Forwards one line; a blank line ends an event and is flushed. */
  method SendLine(w: Writer, line: Bytes, flusher: bool) returns (ok: bool)
    modifies w
    ensures ok == (|line| <= old(w.room))
    ensures w.out == old(w.out) + Take(line, old(w.room)) && w.room == old(w.room) - |Take(line, old(w.room))|
    ensures ok && flusher && line == [NEWLINE] ==> w.flushed == |w.out|
  {
    ok := w.Write(line);
    if ok && flusher && line == [NEWLINE] {
      w.Flush();
    }
  }

  /** Where a copy started and what it is to copy. */
  datatype Progress = Progress(out0: Bytes, room0: nat, body: Bytes)

  /** One line: captured, sent and read for usage; or the connection breaks. */
  method ForwardLine(w: Writer, line: Bytes, flusher: bool, decode: Decoder, seen: Usage, kept: Bytes,
                     ghost p: Progress, ghost sent: Bytes, ghost left: Bytes, ghost rest: Bytes)
      returns (ok: bool, usage: Usage, captured: Bytes)
    requires Splits(left, line, rest) && line != [] && kept == Take(sent, CAPTURE_CAP)
    requires Copied(p.out0, w.out, p.body, sent, left, p.room0, w.room) && Due(decode, p.body, p.room0, seen, left, w.room)
    requires ToRead(LinesRead(p.body, p.room0), sent, LinesRead(left, w.room))
    modifies w
    ensures ok ==> Copied(p.out0, w.out, p.body, sent + line, rest, p.room0, w.room)
    ensures ok ==> Due(decode, p.body, p.room0, usage, rest, w.room) && captured == Take(sent + line, CAPTURE_CAP)
    ensures ok ==> ToRead(LinesRead(p.body, p.room0), sent + line, LinesRead(rest, w.room))
    ensures !ok ==> CutOff(p.out0, w.out, p.body, p.room0) && usage == SentUsage(decode, p.body, p.room0)
    ensures !ok ==> captured == Take(p.body[..LinesRead(p.body, p.room0)], CAPTURE_CAP)
  {
    LineRead(left, line, rest, w.room);
    if |line| > w.room { ReadPrefix(p.body, sent, line, rest, LinesRead(p.body, p.room0)); }
    captured := Capture(kept, line, sent);
    CopyStep(p.out0, w.out, p.body, sent, left, p.room0, w.room, line, rest);
    DueStep(decode, p.body, p.room0, seen, left, w.room, line, rest);
    ok := SendLine(w, line, flusher);
    usage := seen;
    if ok {
      usage := NoteUsage(decode, seen, line);
    }
  }

  /** Only a data line can raise the usage seen so far. */
  method NoteUsage(decode: Decoder, seen: Usage, line: Bytes) returns (usage: Usage)
    ensures usage == Merge(seen, LineUsage(decode, line))
    ensures !(DATA <= line) ==> usage == seen
  {
    usage := seen;
    if DATA <= line {
      usage := Merge(usage, Parse(decode, line[5..]));
    }
  }

  /** What `usage` still lacks is in the lines to come. */
  ghost predicate Due(decode: Decoder, body: Bytes, room0: nat, usage: Usage, left: Bytes, room: nat) {
    SentUsage(decode, body, room0) == Merge(usage, SentUsage(decode, left, room))
  }

  lemma DueStep(decode: Decoder, body: Bytes, room0: nat, usage: Usage, left: Bytes, room: nat, line: Bytes, rest: Bytes)
    requires Due(decode, body, room0, usage, left, room) && Splits(left, line, rest) && line != []
    ensures |line| > room ==> usage == SentUsage(decode, body, room0)
    ensures |line| <= room ==> Due(decode, body, room0, Merge(usage, LineUsage(decode, line)), rest, room - |line|)
  {
    LineCharged(decode, left, line, rest, room);
  }

  /** `sent` is out, `left` is to come. */
  ghost predicate Copied(out0: Bytes, out: Bytes, body: Bytes, sent: Bytes, left: Bytes, room0: nat, room: nat) {
    body == sent + left && out == out0 + sent && room0 == |sent| + room
  }

  /** The connection broke before the end of the body. */
  ghost predicate CutOff(out0: Bytes, out: Bytes, body: Bytes, room0: nat) {
    |body| > room0 && out == out0 + Take(body, room0)
  }

  lemma CopyStep(out0: Bytes, out: Bytes, body: Bytes, sent: Bytes, left: Bytes, room0: nat, room: nat, p: Bytes, rest: Bytes)
    requires Copied(out0, out, body, sent, left, room0, room) && left == p + rest
    ensures |p| <= room
        ==> Copied(out0, out + Take(p, room), body, sent + p, rest, room0, room - |Take(p, room)|)
    ensures |p| > room ==> CutOff(out0, out + Take(p, room), body, room0)
  {
    assert body == (sent + p) + rest;
    if |p| > room {
      assert Take(body, room0) == sent + Take(p, room);
      assert out0 + (sent + Take(p, room)) == out + Take(p, room);
    } else {
      assert out0 + (sent + p) == out + Take(p, room);
    }
  }

  lemma CopyStart(decode: Decoder, out: Bytes, body: Bytes, sent: Bytes, room: nat)
    requires sent == []
    ensures Copied(out, out, body, sent, body, room, room) && Due(decode, body, room, NO_USAGE, body, room)
    ensures Take(sent, CAPTURE_CAP) == []
  {
  }

  lemma DueEnd(decode: Decoder, body: Bytes, room0: nat, usage: Usage, left: Bytes, room: nat)
    requires Due(decode, body, room0, usage, left, room) && left == []
    ensures usage == SentUsage(decode, body, room0)
  {
  }

  lemma CopyEnd(out0: Bytes, out: Bytes, body: Bytes, sent: Bytes, left: Bytes, room0: nat, room: nat)
    requires Copied(out0, out, body, sent, left, room0, room) && left == []
    ensures |body| <= room0 && body == sent && out == out0 + Take(body, room0)
  {
  }

  /** The capture buffer keeps the first bytes of the stream. */
  method Capture(captured: Bytes, line: Bytes, ghost sent: Bytes) returns (r: Bytes)
    requires captured == Take(sent, CAPTURE_CAP)
    ensures r == Take(sent + line, CAPTURE_CAP)
  {
    TakeAppend(sent, line, CAPTURE_CAP);
    r := captured;
    if |r| < CAPTURE_CAP {
      var remain := CAPTURE_CAP - |r|;
      if |line| < remain {
        r := r + line;
      } else {
        r := r + line[..remain];
      }
    }
  }

  /** streamJSON's limitedWriter: keeps the first bytes and silently drops the rest. */
  class LimitedWriter {
    var buf: Bytes
    var n: int

    constructor (cap: nat)
      ensures buf == [] && n == cap
    {
      buf, n := [], cap;
    }

    method Write(p: Bytes) returns (written: nat)
      modifies this
      ensures written == |p|
      ensures buf == old(buf) + Take(p, Max(0, old(n)))
      ensures old(n) >= 0 ==> n == old(n) - |Take(p, old(n))|
    {
      if n <= 0 {
        return |p|;
      }
      if |p| > n {
        buf, n := buf + p[..n], 0;
        return |p|;
      }
      buf, n := buf + p, n - |p|;
      return |p|;
    }
  }

  /** The tee holds what was read. */
  ghost predicate Teed(lw: LimitedWriter, sent: Bytes)
    reads lw
  {
    lw.buf == Take(sent, TEE_CAP) && lw.n == TEE_CAP - |lw.buf|
  }

  /** One round of io.Copy: a chunk is read through the tee and sent. */
  method CopyChunk(w: Writer, lw: LimitedWriter, chunk: Bytes, ghost p: Progress, ghost sent: Bytes, ghost rest: Bytes)
      returns (ok: bool)
    requires Copied(p.out0, w.out, p.body, sent, chunk + rest, p.room0, w.room) && Teed(lw, sent)
    modifies w, lw
    ensures ok == (|chunk| <= old(w.room)) && Teed(lw, sent + chunk)
    ensures ok ==> Copied(p.out0, w.out, p.body, sent + chunk, rest, p.room0, w.room) && w.room == old(w.room) - |chunk|
    ensures !ok ==> CutOff(p.out0, w.out, p.body, p.room0)
  {
    TakeAppend(sent, chunk, TEE_CAP);
    CopyStep(p.out0, w.out, p.body, sent, chunk + rest, p.room0, w.room, chunk, rest);
    var _ := lw.Write(chunk);
    ok := w.Write(chunk);
  }

  /** streamJSON: io.Copy through the tee, chunk by chunk. */
  method StreamJSON(w: Writer, chunks: seq<Bytes>, failed: bool, flusher: bool, decode: Decoder)
      returns (usage: Usage, tee: Bytes, err: Err)
    modifies w
    ensures var body := Flatten(chunks);
      && w.out == old(w.out) + Take(body, old(w.room))
      && err == (if |body| > old(w.room) then WriteErr else if failed then ReadErr else NoErr)
      && tee == Take(body[..ChunksRead(chunks, old(w.room))], 1024 * 1024)
      && (err != WriteErr ==> tee == Take(body, 1024 * 1024))
      && (err == NoErr ==> Charges(decode, [Take(body, 1024 * 1024)], usage)) && (err != NoErr ==> usage == Usage(0, 0))
      && (flusher ==> w.flushed == |w.out|)
  {
    var lw := new LimitedWriter(TEE_CAP);
    ghost var p, sent, total := Progress(w.out, w.room, Flatten(chunks)), [], ChunksRead(chunks, w.room);
    var rest, ok := chunks, true;
    while rest != [] && ok
      invariant fresh(lw) && Teed(lw, sent)
      invariant ok ==> Copied(p.out0, w.out, p.body, sent, Flatten(rest), p.room0, w.room)
      invariant ok ==> ToRead(total, sent, ChunksRead(rest, w.room))
      invariant !ok ==> CutOff(p.out0, w.out, p.body, p.room0) && sent == p.body[..total]
      decreases |rest|
    {
      if |rest[0]| > w.room { ReadPrefix(p.body, sent, rest[0], Flatten(rest[1..]), total); }
      ok := CopyChunk(w, lw, rest[0], p, sent, Flatten(rest[1..]));
      sent := sent + rest[0];
      rest := rest[1..];
    }
    if ok {
      CopyEnd(p.out0, w.out, p.body, sent, Flatten(rest), p.room0, w.room);
      AllChunksRead(chunks, p.room0);
      assert p.body[..|p.body|] == p.body;
    }
    err := if !ok then WriteErr else if failed then ReadErr else NoErr;
    if flusher {
      w.Flush();
    }
    tee := lw.buf;
    usage := if err == NoErr then Parse(decode, tee) else NO_USAGE;
    ParseCharges(decode, tee);
  }
}
