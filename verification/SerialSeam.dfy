/**
 The seam between the replay and the live stream (control-plane/internal/session/serial.go).

 The drain goroutine appends a chunk and reads the subscriber under the lock, then sends outside it.
 Attach swaps the subscriber under the lock; its cleanup unsubscribes under the lock and closes the
 channel outside it. The three interleave freely, over any number of attaches.
 */
module SerialSeam {
  import opened Common
  import opened Serial

  const QUEUE: nat := 64

  /** One attach: its replay, its channel, and the fate of every chunk drained while it was subscribed. */
  datatype Chan = Chan(
    start: nat,             // chunks drained before the attach
    replay: Bytes,
    fates: seq<bool>,       // chunk start + n was queued, or dropped because the channel was full
    queued: seq<Bytes>,     // everything ever sent on the channel
    taken: nat,             // how many of them the client has received
    stop: Option<nat>,      // chunks drained when it stopped being the subscriber
    unhooked: bool,         // cleanup has passed its locked region
    closed: bool)

  datatype Drain = Idle | Holding(k: nat, to: Option<nat>)

  datatype State = State(
    limit: nat, chunks: seq<Bytes>, ring: Bytes, sub: Option<nat>, drain: Drain, chans: seq<Chan>, crashed: bool)

  function Init(limit: nat): State {
    State(limit, [], [], None, Idle, [], false)
  }

  datatype Event =
    | Drained(chunk: Bytes)   // drain: a read returned n > 0 bytes
    | Send                    // drain: the non-blocking send to the subscriber it read
    | Attach
    | Unhook(i: nat)          // cleanup of attach i, under the lock
    | Close(i: nat)           // cleanup of attach i, after the lock
    | Receive(i: nat)         // the client of attach i takes a chunk

  predicate Enabled(st: State, e: Event) {
    && !st.crashed
    && match e
       case Drained(chunk) => st.drain.Idle? && 0 < |chunk| <= 4096
       case Send => st.drain.Holding? && st.drain.k < |st.chunks| && (st.drain.to.Some? ==> st.drain.to.value < |st.chans|)
       case Attach => true
       case Unhook(i) => i < |st.chans| && !st.chans[i].unhooked
       case Close(i) => i < |st.chans| && st.chans[i].unhooked && !st.chans[i].closed
       case Receive(i) => i < |st.chans| && st.chans[i].taken < |st.chans[i].queued|
  }

  /** The subscriber, if any, stops receiving new chunks. */
  function Superseded(st: State): seq<Chan> {
    if st.sub.Some? && st.sub.value < |st.chans| then
      st.chans[st.sub.value := st.chans[st.sub.value].(stop := Some(|st.chunks|))]
    else st.chans
  }

  function SendTo(c: Chan, chunk: Bytes): Chan {
    if |c.queued| - c.taken < QUEUE then c.(fates := c.fates + [true], queued := c.queued + [chunk])
    else c.(fates := c.fates + [false])
  }

  function Apply(st: State, e: Event): State
    requires Enabled(st, e)
  {
    match e
    case Drained(chunk) =>
      st.(chunks := st.chunks + [chunk], ring := Last(st.limit, st.ring + chunk), drain := Holding(|st.chunks|, st.sub))
    case Send =>
      if st.drain.to.None? then st.(drain := Idle)
      else if st.chans[st.drain.to.value].closed then st.(crashed := true)  // send on closed channel
      else
        var i := st.drain.to.value;
        st.(drain := Idle, chans := st.chans[i := SendTo(st.chans[i], st.chunks[st.drain.k])])
    case Attach =>
      var c := Chan(|st.chunks|, st.ring, [], [], 0, None, false, false);
      st.(chans := Superseded(st) + [c], sub := Some(|st.chans|))
    case Unhook(i) =>
      if st.sub == Some(i) then
        st.(sub := None, chans := st.chans[i := st.chans[i].(stop := Some(|st.chunks|), unhooked := true)])
      else st.(chans := st.chans[i := st.chans[i].(unhooked := true)])
    case Close(i) => st.(chans := st.chans[i := st.chans[i].(closed := true)])
    case Receive(i) => st.(chans := st.chans[i := st.chans[i].(taken := st.chans[i].taken + 1)])
  }

  ghost predicate Follows(st: State, st': State) {
    exists e :: Enabled(st, e) && st' == Apply(st, e)
  }

  ghost predicate FollowsAt(trace: seq<State>, i: nat)
    requires 0 < i < |trace|
  {
    Follows(trace[i - 1], trace[i])
  }

  ghost predicate IsRun(limit: nat, trace: seq<State>) {
    && |trace| > 0 && trace[0] == Init(limit)
    && forall i :: 0 < i < |trace| ==> FollowsAt(trace, i)
  }

  // --- what a channel has been sent ---

  function Flat(cs: seq<Bytes>): Bytes {
    if cs == [] then [] else Flat(cs[..|cs| - 1]) + cs[|cs| - 1]
  }

  /** The chunks whose fate is to be queued, in order. */
  function Pick(cs: seq<Bytes>, fates: seq<bool>): seq<Bytes>
    requires |cs| == |fates|
  {
    if cs == [] then [] else
      var n := |cs| - 1;
      Pick(cs[..n], fates[..n]) + if fates[n] then [cs[n]] else []
  }

  function InFlight(st: State, i: nat): bool {
    st.drain.Holding? && st.drain.to == Some(i)
  }

  /** Chunks drained while attach i was the subscriber end here. */
  function End(st: State, c: Chan): nat {
    if c.stop.Some? then c.stop.value else |st.chunks|
  }

  /** Which chunks fall to attach i: those drained between its attach and its end, each decided once. */
  ghost predicate PlaceOk(st: State, i: nat, c: Chan) {
    && c.start <= End(st, c) <= |st.chunks|
    && (st.sub == Some(i) <==> c.stop.None?)
    && (c.unhooked ==> c.stop.Some?) && (c.closed ==> c.unhooked)
    && (!st.crashed ==> |c.fates| + Bit(InFlight(st, i)) == End(st, c) - c.start)
    && (InFlight(st, i) ==> st.drain.k == c.start + |c.fates| < |st.chunks|)
    && c.start + |c.fates| <= |st.chunks|
  }

  /** What attach i got: the end of what came before, then the chunks that were queued. */
  ghost predicate DataOk(limit: nat, chunks: seq<Bytes>, c: Chan) {
    && c.start + |c.fates| <= |chunks|
    && c.replay == Last(limit, Flat(chunks[..c.start]))
    && c.queued == Pick(chunks[c.start..c.start + |c.fates|], c.fates)
    && c.taken <= |c.queued|
  }

  ghost predicate ChanOk(st: State, i: nat, c: Chan) {
    PlaceOk(st, i, c) && DataOk(st.limit, st.chunks, c)
  }

  ghost predicate Inv(st: State) {
    && st.ring == Last(st.limit, Flat(st.chunks))
    && (st.sub.Some? ==> st.sub.value < |st.chans|)
    && (st.drain.Holding? ==> st.drain.k + 1 == |st.chunks| && (st.drain.to.Some? ==> st.drain.to.value < |st.chans|))
    && (forall i :: 0 <= i < |st.chans| ==> ChanOk(st, i, st.chans[i]))
  }

  lemma FlatAppend(cs: seq<Bytes>, c: Bytes)
    ensures Flat(cs + [c]) == Flat(cs) + c
  {
    assert (cs + [c])[..|cs|] == cs;
  }

  lemma PickAppend(cs: seq<Bytes>, fates: seq<bool>, c: Bytes, f: bool)
    requires |cs| == |fates|
    ensures Pick(cs + [c], fates + [f]) == Pick(cs, fates) + if f then [c] else []
  {
    assert (cs + [c])[..|cs|] == cs && (fates + [f])[..|fates|] == fates;
  }

  lemma DrainedChan(st: State, chunk: Bytes, i: nat)
    requires Inv(st) && Enabled(st, Drained(chunk)) && i < |st.chans|
    ensures ChanOk(Apply(st, Drained(chunk)), i, st.chans[i])
  {
    var c, chunks' := st.chans[i], st.chunks + [chunk];
    assert ChanOk(st, i, c);
    assert chunks'[..c.start] == st.chunks[..c.start];
    assert chunks'[c.start..c.start + |c.fates|] == st.chunks[c.start..c.start + |c.fates|];
  }

  lemma SendData(limit: nat, chunks: seq<Bytes>, c: Chan)
    requires DataOk(limit, chunks, c) && c.start + |c.fates| < |chunks|
    ensures DataOk(limit, chunks, SendTo(c, chunks[c.start + |c.fates|]))
  {
    var k := c.start + |c.fates|;
    assert chunks[c.start..k + 1] == chunks[c.start..k] + [chunks[k]];
    PickAppend(chunks[c.start..k], c.fates, chunks[k], true);
    PickAppend(chunks[c.start..k], c.fates, chunks[k], false);
  }

  lemma SendPlace(st: State, i: nat)
    requires Enabled(st, Send) && i < |st.chans| && PlaceOk(st, i, st.chans[i])
    requires st.drain.k + 1 == |st.chunks|
    ensures PlaceOk(Apply(st, Send), i, Apply(st, Send).chans[i])
  {
  }

  lemma SendKeepsData(st: State, i: nat)
    requires Enabled(st, Send) && i < |st.chans| && ChanOk(st, i, st.chans[i])
    ensures DataOk(st.limit, st.chunks, Apply(st, Send).chans[i])
  {
    if InFlight(st, i) && !st.chans[i].closed { SendData(st.limit, st.chunks, st.chans[i]); }
  }

  lemma SendChan(st: State, i: nat)
    requires Inv(st) && Enabled(st, Send) && i < |st.chans|
    ensures ChanOk(Apply(st, Send), i, Apply(st, Send).chans[i])
  {
    assert ChanOk(st, i, st.chans[i]);
    SendPlace(st, i);
    SendKeepsData(st, i);
  }

  lemma SwapPlace(st: State, e: Event, i: nat)
    requires Enabled(st, e) && (e.Attach? || e.Unhook? || e.Close? || e.Receive?) && i < |st.chans|
    requires PlaceOk(st, i, st.chans[i])
    ensures PlaceOk(Apply(st, e), i, Apply(st, e).chans[i])
  {
  }

  lemma SwapData(st: State, e: Event, i: nat)
    requires Enabled(st, e) && (e.Attach? || e.Unhook? || e.Close? || e.Receive?) && i < |st.chans|
    requires DataOk(st.limit, st.chunks, st.chans[i])
    ensures DataOk(st.limit, st.chunks, Apply(st, e).chans[i])
  {
  }

  lemma OldChan(st: State, e: Event, st': State, i: nat)
    requires Inv(st) && Enabled(st, e) && i < |st.chans| && (e.Attach? || e.Unhook? || e.Close? || e.Receive?)
    requires st' == Apply(st, e)
    ensures ChanOk(st', i, st'.chans[i])
  {
    assert ChanOk(st, i, st.chans[i]);
    SwapPlace(st, e, i);
    SwapData(st, e, i);
  }

  lemma NewChan(st: State, st': State)
    requires Inv(st) && Enabled(st, Attach) && st' == Apply(st, Attach)
    ensures |st'.chans| == |st.chans| + 1 && ChanOk(st', |st.chans|, st'.chans[|st.chans|])
  {
    assert st.chunks[..|st.chunks|] == st.chunks;
  }

  lemma SameNumber(st: State, e: Event)
    requires Enabled(st, e) && !e.Attach?
    ensures |Apply(st, e).chans| == |st.chans|
  {
  }

  lemma ChanStep(st: State, e: Event, st': State, i: nat)
    requires Inv(st) && Enabled(st, e) && st' == Apply(st, e) && i < |st'.chans|
    ensures ChanOk(st', i, st'.chans[i])
  {
    if e.Attach? && i >= |st.chans| {
      NewChan(st, st');
    } else {
      if !e.Attach? { SameNumber(st, e); }
      match e
      case Drained(chunk) => DrainedChan(st, chunk, i);
      case Send => SendChan(st, i);
      case _ => OldChan(st, e, st', i);
    }
  }

  lemma RingStep(st: State, e: Event, st': State)
    requires Inv(st) && Enabled(st, e) && st' == Apply(st, e)
    ensures st'.ring == Last(st'.limit, Flat(st'.chunks)) && st'.limit == st.limit
  {
    if e.Drained? {
      FlatAppend(st.chunks, e.chunk);
      LastOfLast(st.limit, Flat(st.chunks), e.chunk);
    }
  }

  lemma RefsStep(st: State, e: Event, st': State)
    requires Inv(st) && Enabled(st, e) && st' == Apply(st, e)
    ensures st'.sub.Some? ==> st'.sub.value < |st'.chans|
    ensures st'.drain.Holding? ==>
      st'.drain.k + 1 == |st'.chunks| && (st'.drain.to.Some? ==> st'.drain.to.value < |st'.chans|)
  {
  }

  lemma StepKeeps(st: State, e: Event, st': State)
    requires Inv(st) && Enabled(st, e) && st' == Apply(st, e)
    ensures Inv(st') && st'.limit == st.limit
  {
    RingStep(st, e, st');
    RefsStep(st, e, st');
    forall i | 0 <= i < |st'.chans| ensures ChanOk(st', i, st'.chans[i]) {
      ChanStep(st, e, st', i);
    }
  }

  lemma {:induction false} RunKeeps(limit: nat, trace: seq<State>, i: nat)
    requires IsRun(limit, trace) && i < |trace|
    ensures Inv(trace[i]) && trace[i].limit == limit
  {
    if i > 0 {
      RunKeeps(limit, trace, i - 1);
      assert FollowsAt(trace, i);
      var e :| Enabled(trace[i - 1], e) && trace[i] == Apply(trace[i - 1], e);
      StepKeeps(trace[i - 1], e, trace[i]);
    }
  }

  // --- the seam ---

  lemma {:induction false} FlatSplit(cs: seq<Bytes>, n: nat)
    requires n <= |cs|
    ensures Flat(cs) == Flat(cs[..n]) + Flat(cs[n..])
  {
    if n == |cs| {
      assert cs[..n] == cs;
    } else {
      var m := |cs| - 1;
      FlatSplit(cs[..m], n);
      assert cs[..m][..n] == cs[..n] && cs[..m][n..] == cs[n..][..m - n];
    }
  }

  lemma {:induction false} PickAll(cs: seq<Bytes>, fates: seq<bool>)
    requires |cs| == |fates| && false !in fates
    ensures Pick(cs, fates) == cs
  {
    if cs != [] {
      var n := |cs| - 1;
      PickAll(cs[..n], fates[..n]);
      assert cs == cs[..n] + [cs[n]];
    }
  }

  /** The ring always holds the last min(limit, total) bytes drained. */
  lemma RingIsTail(limit: nat, trace: seq<State>, i: nat)
    requires IsRun(limit, trace) && i < |trace|
    ensures trace[i].ring == Last(limit, Flat(trace[i].chunks))
  {
    RunKeeps(limit, trace, i);
  }

  /** The replay followed by everything sent on the channel is the source from `from` to chunk `upTo`. */
  ghost predicate IsStretch(chunks: seq<Bytes>, c: Chan, from: nat, upTo: nat) {
    && upTo <= |chunks| && from <= |Flat(chunks[..upTo])|
    && c.replay + Flat(c.queued) == Flat(chunks[..upTo])[from..]
  }

  lemma Stretch(limit: nat, chunks: seq<Bytes>, c: Chan)
    requires DataOk(limit, chunks, c) && false !in c.fates
    ensures |c.replay| == Min(limit, |Flat(chunks[..c.start])|)
    ensures IsStretch(chunks, c, |Flat(chunks[..c.start])| - |c.replay|, c.start + |c.fates|)
  {
    PickAll(chunks[c.start..c.start + |c.fates|], c.fates);
    SplitFlat(chunks, c.start, c.start + |c.fates|);
    TailThen(limit, Flat(chunks[..c.start]), Flat(c.queued), Flat(chunks[..c.start + |c.fates|]));
  }

  lemma SplitFlat(chunks: seq<Bytes>, a: nat, b: nat)
    requires a <= b <= |chunks|
    ensures Flat(chunks[..b]) == Flat(chunks[..a]) + Flat(chunks[a..b])
  {
    var seen := chunks[..b];
    assert seen[..a] == chunks[..a] && seen[a..] == chunks[a..b];
    FlatSplit(seen, a);
  }

  lemma TailThen(limit: nat, s: Bytes, p: Bytes, all: Bytes)
    requires all == s + p
    ensures |Last(limit, s)| == Min(limit, |s|) && Last(limit, s) + p == all[|s| - |Last(limit, s)|..]
  {
  }

  /**
   No gap and no repeat. For an attach at any point of any run, when no chunk of its was dropped, the
   replay followed by everything sent on the channel is one contiguous stretch of the source: it begins
   min(limit, total) bytes before the attach and ends with the last chunk decided, and while the attach is
   the subscriber and no send is under way that is the last chunk drained.
   */
  lemma SeamIsContiguous(limit: nat, trace: seq<State>, i: nat, a: nat)
    requires IsRun(limit, trace) && i < |trace| && a < |trace[i].chans| && false !in trace[i].chans[a].fates
    ensures var st := trace[i]; var c := st.chans[a]; var before := |Flat(st.chunks[..Min(c.start, |st.chunks|)])|;
      && |c.replay| == Min(limit, before)
      && IsStretch(st.chunks, c, before - |c.replay|, c.start + |c.fates|)
      && (st.sub == Some(a) && st.drain.Idle? && !st.crashed ==> c.start + |c.fates| == |st.chunks|)
  {
    RunKeeps(limit, trace, i);
    assert ChanOk(trace[i], a, trace[i].chans[a]);
    Stretch(limit, trace[i].chunks, trace[i].chans[a]);
  }

  /** The positions of the chunks that were queued. */
  function Positions(fates: seq<bool>): seq<nat> {
    if fates == [] then [] else
      var n := |fates| - 1;
      Positions(fates[..n]) + if fates[n] then [n] else []
  }

  ghost predicate InOrderFrom(sub: seq<Bytes>, full: seq<Bytes>, at: seq<nat>) {
    && |at| == |sub|
    && (forall m, n :: 0 <= m < n < |at| ==> at[m] < at[n])
    && (forall n :: 0 <= n < |at| ==> at[n] < |full| && full[at[n]] == sub[n])
  }

  lemma {:induction false} PickInOrder(cs: seq<Bytes>, fates: seq<bool>)
    requires |cs| == |fates|
    ensures InOrderFrom(Pick(cs, fates), cs, Positions(fates))
  {
    if cs != [] {
      var n := |cs| - 1;
      PickInOrder(cs[..n], fates[..n]);
    }
  }

  /** With drops, the channel still carries whole chunks of the source in their order, each at most once. */
  lemma QueueIsInOrder(limit: nat, trace: seq<State>, i: nat, a: nat)
    requires IsRun(limit, trace) && i < |trace| && a < |trace[i].chans|
    ensures var st := trace[i]; var c := st.chans[a];
      && c.start + |c.fates| <= |st.chunks|
      && InOrderFrom(c.queued, st.chunks[c.start..c.start + |c.fates|], Positions(c.fates))
  {
    RunKeeps(limit, trace, i);
    var st := trace[i];
    var c := st.chans[a];
    assert ChanOk(st, a, c);
    PickInOrder(st.chunks[c.start..c.start + |c.fates|], c.fates);
  }

  // --- drops ---

  function Pending(c: Chan): int {
    |c.queued| - c.taken
  }

  /** A step drops a chunk only for a channel that holds 64 chunks, and no channel holds more. */
  lemma FateStep(st: State, e: Event, a: nat)
    requires Enabled(st, e) && a < |st.chans| && Pending(st.chans[a]) <= 64 && false !in st.chans[a].fates
    ensures a < |Apply(st, e).chans| && Pending(Apply(st, e).chans[a]) <= 64
    ensures false in Apply(st, e).chans[a].fates ==> Pending(st.chans[a]) == 64
  {
    assert forall f :: f in st.chans[a].fates + [true] ==> f;
  }

  lemma PendingStep(st: State, e: Event, a: nat)
    requires Enabled(st, e) && a < |Apply(st, e).chans| && (a < |st.chans| ==> Pending(st.chans[a]) <= 64)
    ensures Pending(Apply(st, e).chans[a]) <= 64 && (a >= |st.chans| ==> Apply(st, e).chans[a].fates == [])
  {
  }

  lemma {:induction false} NeverOverfull(limit: nat, trace: seq<State>, i: nat, a: nat)
    requires IsRun(limit, trace) && i < |trace| && a < |trace[i].chans|
    ensures Pending(trace[i].chans[a]) <= 64
  {
    if i > 0 {
      assert FollowsAt(trace, i);
      var e :| Enabled(trace[i - 1], e) && trace[i] == Apply(trace[i - 1], e);
      if a < |trace[i - 1].chans| { NeverOverfull(limit, trace, i - 1, a); }
      PendingStep(trace[i - 1], e, a);
    }
  }

  /** A chunk is dropped only when the client has 64 chunks yet to take; one that keeps up loses nothing. */
  lemma {:induction false} DropNeedsBacklog(limit: nat, trace: seq<State>, i: nat, a: nat) returns (n: nat)
    requires IsRun(limit, trace) && i < |trace| && a < |trace[i].chans| && false in trace[i].chans[a].fates
    ensures n < i && a < |trace[n].chans| && Pending(trace[n].chans[a]) == 64
  {
    assert FollowsAt(trace, i);
    var e :| Enabled(trace[i - 1], e) && trace[i] == Apply(trace[i - 1], e);
    if a < |trace[i - 1].chans| {
      NeverOverfull(limit, trace, i - 1, a);
      if false in trace[i - 1].chans[a].fates {
        n := DropNeedsBacklog(limit, trace, i - 1, a);
      } else {
        FateStep(trace[i - 1], e, a);
        n := i - 1;
      }
    } else {
      PendingStep(trace[i - 1], e, a);
    }
  }

  // --- the close ---

  /** Nothing is under way to a closed channel. */
  ghost predicate Calm(st: State) {
    !st.crashed && forall a :: 0 <= a < |st.chans| && st.chans[a].closed ==> !InFlight(st, a)
  }

  lemma CalmStep(st: State, e: Event)
    requires Inv(st) && Calm(st) && Enabled(st, e) && (e.Close? ==> !InFlight(st, e.i))
    ensures Calm(Apply(st, e))
  {
    if st.sub.Some? { assert ChanOk(st, st.sub.value, st.chans[st.sub.value]); }
  }

  ghost predicate CarefulAt(trace: seq<State>, i: nat)
    requires 0 < i < |trace|
  {
    exists e :: Enabled(trace[i - 1], e) && trace[i] == Apply(trace[i - 1], e) && (e.Close? ==> !InFlight(trace[i - 1], e.i))
  }

  /** A run whose every close finds nothing under way to its channel never crashes. */
  lemma {:induction false} CarefulRunsNeverCrash(limit: nat, trace: seq<State>, i: nat)
    requires IsRun(limit, trace) && i < |trace|
    requires forall n :: 0 < n < |trace| ==> CarefulAt(trace, n)
    ensures Calm(trace[i])
  {
    if i > 0 {
      CarefulRunsNeverCrash(limit, trace, i - 1);
      RunKeeps(limit, trace, i - 1);
      assert CarefulAt(trace, i);
      var e :| Enabled(trace[i - 1], e) && trace[i] == Apply(trace[i - 1], e) && (e.Close? ==> !InFlight(trace[i - 1], e.i));
      CalmStep(trace[i - 1], e);
    }
  }

  ghost predicate Reached(limit: nat, st: State) {
    exists trace :: IsRun(limit, trace) && trace[|trace| - 1] == st
  }

  lemma ReachedStep(limit: nat, st: State, e: Event, st': State)
    requires Reached(limit, st) && Enabled(st, e) && st' == Apply(st, e)
    ensures Reached(limit, st')
  {
    var trace :| IsRun(limit, trace) && trace[|trace| - 1] == st;
    var longer := trace + [st'];
    forall i | 0 < i < |longer| ensures FollowsAt(longer, i) {
      if i < |trace| { assert FollowsAt(trace, i); }
    }
    assert IsRun(limit, longer);
  }

  lemma AttachThenDrain(limit: nat, b: Byte) returns (st: State)
    requires limit >= 1
    ensures Reached(limit, st) && st == State(limit, [[b]], [b], Some(0), Holding(0, Some(0)),
                                              [Chan(0, [], [], [], 0, None, false, false)], false)
  {
    var c := Chan(0, [], [], [], 0, None, false, false);
    var s0 := Init(limit);
    assert IsRun(limit, [s0]);
    var s1 := s0.(chans := [c], sub := Some(0));
    assert s0.chans + [c] == [c];
    ReachedStep(limit, s0, Attach, s1);
    st := State(limit, [[b]], [b], Some(0), Holding(0, Some(0)), [c], false);
    assert s1.chunks + [[b]] == [[b]] && s1.ring + [b] == [b];
    ReachedStep(limit, s1, Drained([b]), st);
  }

  /** A run that crashes: attach, drain a chunk, clean up before the send, send. */
  lemma CrashingRun(limit: nat, b: Byte) returns (st: State)
    requires limit >= 1
    ensures Reached(limit, st) && st.crashed
  {
    var s2 := AttachThenDrain(limit, b);
    var s3 := Apply(s2, Unhook(0));
    ReachedStep(limit, s2, Unhook(0), s3);
    var s4 := Apply(s3, Close(0));
    ReachedStep(limit, s3, Close(0), s4);
    st := Apply(s4, Send);
    ReachedStep(limit, s4, Send, st);
  }

  // --- the cleanup ---

  /** The states from `st` on. */
  ghost predicate Leads(st: State, trace: seq<State>) {
    && |trace| > 0 && trace[0] == st
    && forall i :: 0 < i < |trace| ==> FollowsAt(trace, i)
  }

  /** The drain goroutine sent to the closed channel of attach `a`. */
  predicate CrashedOn(st: State, a: nat) {
    st.crashed && InFlight(st, a)
  }

  ghost predicate CanCrash(st: State, a: nat) {
    exists trace :: Leads(st, trace) && CrashedOn(trace[|trace| - 1], a)
  }

  /** Attach `a` was cleaned up and nothing is under way to it. */
  predicate Left(st: State, a: nat) {
    a < |st.chans| && st.chans[a].unhooked && st.sub != Some(a) && !InFlight(st, a)
  }

  lemma LeftStep(st: State, st': State, a: nat)
    requires Left(st, a) && Follows(st, st')
    ensures Left(st', a)
  {
  }

  lemma {:induction false} StaysLeft(st: State, trace: seq<State>, i: nat, a: nat)
    requires Leads(st, trace) && i < |trace| && Left(st, a)
    ensures Left(trace[i], a)
  {
    if i > 0 {
      StaysLeft(st, trace, i - 1, a);
      assert FollowsAt(trace, i);
      LeftStep(trace[i - 1], trace[i], a);
    }
  }

  lemma LeftNeverCrashes(st: State, a: nat)
    requires Left(st, a)
    ensures !CanCrash(st, a)
  {
    forall trace | Leads(st, trace) ensures !CrashedOn(trace[|trace| - 1], a) {
      StaysLeft(st, trace, |trace| - 1, a);
    }
  }

  lemma CanCrashBefore(st: State, st': State, a: nat)
    requires Follows(st, st') && CanCrash(st', a)
    ensures CanCrash(st, a)
  {
    var trace :| Leads(st', trace) && CrashedOn(trace[|trace| - 1], a);
    var longer := [st] + trace;
    forall i | 0 < i < |longer| ensures FollowsAt(longer, i) {
      if i > 1 { assert FollowsAt(trace, i - 1); }
    }
    assert Leads(st, longer) && longer[|longer| - 1] == trace[|trace| - 1];
  }

  lemma SendCrashes(st: State, a: nat)
    requires Enabled(st, Send) && InFlight(st, a) && st.chans[a].closed
    ensures CanCrash(st, a)
  {
    var end := Apply(st, Send);
    assert Leads(end, [end]) && CrashedOn([end][0], a);
    CanCrashBefore(st, end, a);
  }

  /**
   Closing the channel of an attach lets the drain goroutine crash on it, in some continuation of the run, exactly when
   a chunk for it is still under way; the cleanup does not wait for it.
   */
  lemma CloseCrashesIff(limit: nat, trace: seq<State>, i: nat, a: nat)
    requires IsRun(limit, trace) && i < |trace| && Enabled(trace[i], Close(a))
    ensures CanCrash(Apply(trace[i], Close(a)), a) <==> InFlight(trace[i], a)
  {
    RunKeeps(limit, trace, i);
    assert ChanOk(trace[i], a, trace[i].chans[a]);
    var st := Apply(trace[i], Close(a));
    if InFlight(trace[i], a) {
      SendCrashes(st, a);
    } else {
      LeftNeverCrashes(st, a);
    }
  }

  /**
   The cleanup of an attach lets the drain goroutine crash on its channel, in some continuation of the run, exactly
   when a chunk for it is under way when the cleanup takes the lock.
   */
  lemma UnhookCrashIff(limit: nat, trace: seq<State>, i: nat, a: nat)
    requires IsRun(limit, trace) && i < |trace| && Enabled(trace[i], Unhook(a))
    ensures CanCrash(Apply(trace[i], Unhook(a)), a) <==> InFlight(trace[i], a)
  {
    RunKeeps(limit, trace, i);
    assert ChanOk(trace[i], a, trace[i].chans[a]);
    var st := Apply(trace[i], Unhook(a));
    if InFlight(trace[i], a) {
      SendCrashes(Apply(st, Close(a)), a);
      CanCrashBefore(st, Apply(st, Close(a)), a);
    } else {
      LeftNeverCrashes(st, a);
    }
  }
}
