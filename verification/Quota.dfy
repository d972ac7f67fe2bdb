/** Per-session quotas of the proxy (proxy/internal/quota/quota.go). Times are nanoseconds. */
module Quota {
  import opened Common

  type Time = int

  const SECOND: int := 1_000_000_000
  const MINUTE: int := 60_000_000_000

  datatype Limits = Limits(maxTokensIn: int, maxTokensOut: int, maxRequests: int, maxRequestsPerMinute: int)

  const DEFAULT_LIMITS: Limits := Limits(60000, 120000, 60, 12)

  datatype Usage = Usage(tokensIn: int, tokensOut: int, requests: int)

  datatype Bucket = Bucket(usage: Usage, windowStart: Time, windowCount: int)

  datatype Code = TokensIn | TokensOut | Requests | RateLimit

  datatype Verdict = Granted | Refused(code: Code, retryAfter: int)

  function NewBucket(now: Time): Bucket {
    Bucket(Usage(0, 0, 0), now, 0)
  }

  /** The window as Reserve sees it: a window a minute old or more is replaced by a fresh one. */
  function Rolled(b: Bucket, now: Time): Bucket {
    if now - b.windowStart >= MINUTE then b.(windowStart := now, windowCount := 0) else b
  }

  function Judge(l: Limits, b: Bucket, now: Time): Verdict {
    if b.windowCount >= l.maxRequestsPerMinute then Refused(RateLimit, Max(SECOND, MINUTE - (now - b.windowStart)))
    else if b.usage.requests >= l.maxRequests then Refused(Requests, 0)
    else if b.usage.tokensIn >= l.maxTokensIn then Refused(TokensIn, 0)
    else if b.usage.tokensOut >= l.maxTokensOut then Refused(TokensOut, 0)
    else Granted
  }

  function Reserve(l: Limits, b: Bucket, now: Time): (r: (Bucket, Verdict)) {
    var w := Rolled(b, now);
    var v := Judge(l, w, now);
    (if v.Granted? then w.(windowCount := w.windowCount + 1) else w, v)
  }

  function Commit(b: Bucket, tokensIn: int, tokensOut: int): Bucket {
    b.(usage := Usage(b.usage.tokensIn + tokensIn, b.usage.tokensOut + tokensOut, b.usage.requests + 1))
  }

  function Refund(b: Bucket): Bucket {
    if b.windowCount > 0 then b.(windowCount := b.windowCount - 1) else b
  }

  /** A refund right after a reservation leaves the bucket as Reserve found it, up to the roll of the window. */
  lemma RefundUndoesReserve(l: Limits, b: Bucket, now: Time)
    requires b.windowCount >= 0 && Reserve(l, b, now).1.Granted?
    ensures Refund(Reserve(l, b, now).0) == Rolled(b, now)
  {
  }

  /** Waiting out retryAfter is enough: the rate limit alone will not refuse the session again. */
  lemma RetryAfterSuffices(l: Limits, b: Bucket, now: Time, later: Time)
    requires l.maxRequestsPerMinute > 0
    requires Reserve(l, b, now).1.Refused? && Reserve(l, b, now).1.code == RateLimit
    requires later >= now + Reserve(l, b, now).1.retryAfter
    ensures var again := Reserve(l, Reserve(l, b, now).0, later).1; again.Refused? ==> again.code != RateLimit
    ensures b.windowStart <= now ==> SECOND <= Reserve(l, b, now).1.retryAfter <= MINUTE
  {
  }

  /** The cap that a code names is reached. */
  predicate Reached(l: Limits, b: Bucket, code: Code) {
    match code
    case RateLimit => b.windowCount >= l.maxRequestsPerMinute
    case Requests => b.usage.requests >= l.maxRequests
    case TokensIn => b.usage.tokensIn >= l.maxTokensIn
    case TokensOut => b.usage.tokensOut >= l.maxTokensOut
  }

  /** The order in which the caps are looked at. */
  const ORDER: seq<Code> := [RateLimit, Requests, TokensIn, TokensOut]

  /** A reservation is refused exactly when some cap is reached in the present window, and the code names the first one. */
  lemma RefusalNames(l: Limits, b: Bucket, now: Time)
    ensures var v, w := Reserve(l, b, now).1, Rolled(b, now);
      && (v.Granted? <==> forall i :: 0 <= i < 4 ==> !Reached(l, w, ORDER[i]))
      && (v.Refused? ==> exists i :: 0 <= i < 4 && ORDER[i] == v.code && Reached(l, w, v.code)
                                     && forall j :: 0 <= j < i ==> !Reached(l, w, ORDER[j]))
      && (v.Refused? && v.code != RateLimit ==> v.retryAfter == 0)
  {
    var v, w := Reserve(l, b, now).1, Rolled(b, now);
    if v.Refused? {
      var i := if v.code == RateLimit then 0 else if v.code == Requests then 1 else if v.code == TokensIn then 2 else 3;
      assert ORDER[i] == v.code && Reached(l, w, v.code) && forall j :: 0 <= j < i ==> !Reached(l, w, ORDER[j]);
    } else {
      assert forall i :: 0 <= i < 4 ==> !Reached(l, w, ORDER[i]);
    }
  }

  /** Among the waits of a second or more, retryAfter is the least after which the rate limit does not refuse again. */
  lemma RetryAfterIsLeast(l: Limits, b: Bucket, now: Time, wait: int)
    requires l.maxRequestsPerMinute > 0 && wait >= SECOND
    requires Reserve(l, b, now).1.Refused? && Reserve(l, b, now).1.code == RateLimit
    ensures var again := Reserve(l, Reserve(l, b, now).0, now + wait).1;
      wait >= Reserve(l, b, now).1.retryAfter <==> !(again.Refused? && again.code == RateLimit)
  {
  }

  // --- one session's history of calls ---

  datatype Op =
    | DoReserve(at: Time)
    | DoRefund(at: Time)
    | DoCommit(at: Time, tokensIn: int, tokensOut: int)
    | DoUsage(at: Time)

  /** get: the bucket is made by the first call of any kind. */
  function Got(b: Option<Bucket>, now: Time): Bucket {
    if b.Some? then b.value else NewBucket(now)
  }

  function Do(l: Limits, b: Bucket, op: Op): Bucket {
    match op
    case DoReserve(at) => Reserve(l, b, at).0
    case DoRefund(_) => Refund(b)
    case DoCommit(_, i, o) => Commit(b, i, o)
    case DoUsage(_) => b
  }

  function After(l: Limits, ops: seq<Op>): Option<Bucket> {
    if ops == [] then None else
      var op := ops[|ops| - 1];
      Some(Do(l, Got(After(l, ops[..|ops| - 1]), op.at), op))
  }

  ghost predicate ClockRuns(ops: seq<Op>) {
    forall i, j :: 0 <= i <= j < |ops| ==> ops[i].at <= ops[j].at
  }

  predicate InMinute(at: Time, a: Time) {
    a <= at < a + MINUTE
  }

  /** The call is a reservation that succeeds. */
  predicate Wins(l: Limits, b: Bucket, op: Op) {
    op.DoReserve? && Reserve(l, b, op.at).1.Granted?
  }

  /** The call is a refund that gives a slot back. */
  predicate Returns(b: Bucket, op: Op) {
    op.DoRefund? && b.windowCount > 0
  }

  /** Reservations granted in the minute from `a`. */
  function Won(l: Limits, ops: seq<Op>, a: Time): nat {
    if ops == [] then 0 else
      var before, op := ops[..|ops| - 1], ops[|ops| - 1];
      Won(l, before, a) + Bit(InMinute(op.at, a) && Wins(l, Got(After(l, before), op.at), op))
  }

  /** Slots given back in the minute from `a`. */
  function Returned(l: Limits, ops: seq<Op>, a: Time): nat {
    if ops == [] then 0 else
      var before, op := ops[..|ops| - 1], ops[|ops| - 1];
      Returned(l, before, a) + Bit(InMinute(op.at, a) && Returns(Got(After(l, before), op.at), op))
  }

  /**
   The counting argument. `s` is reservations less refunds so far in the minute from `a`. Before the window
   first starts in that minute they all sit in the window; after, at most one full window preceded them.
   */
  predicate Tally(r: nat, b: Bucket, s: int, a: Time) {
    && 0 <= b.windowCount <= r
    && (b.windowStart < a ==> s <= b.windowCount)
    && (b.windowStart >= a ==> s <= r + b.windowCount)
  }

  lemma TallyStep(l: Limits, b: Bucket, op: Op, s: int, a: Time)
    requires b.windowStart <= op.at < a + MINUTE
    requires Tally(Max(0, l.maxRequestsPerMinute), b, s, a)
    requires op.at < a ==> s <= 0
    ensures Tally(Max(0, l.maxRequestsPerMinute), Do(l, b, op),
                  s + Bit(InMinute(op.at, a) && Wins(l, b, op)) - Bit(InMinute(op.at, a) && Returns(b, op)), a)
    ensures Do(l, b, op).windowStart <= op.at
  {
  }

  lemma {:induction false} TallyRun(l: Limits, ops: seq<Op>, a: Time)
    requires ClockRuns(ops)
    ensures ops != [] ==> After(l, ops).value.windowStart <= ops[|ops| - 1].at
    ensures ops != [] && ops[|ops| - 1].at < a ==> Won(l, ops, a) == Returned(l, ops, a) == 0
    ensures ops != [] && ops[|ops| - 1].at < a + MINUTE ==>
      Tally(Max(0, l.maxRequestsPerMinute), After(l, ops).value, Won(l, ops, a) - Returned(l, ops, a), a)
    ensures Won(l, ops, a) <= 2 * Max(0, l.maxRequestsPerMinute) + Returned(l, ops, a)
  {
    if ops != [] {
      var before, op := ops[..|ops| - 1], ops[|ops| - 1];
      TallyRun(l, before, a);
      if op.at < a + MINUTE {
        TallyStep(l, Got(After(l, before), op.at), op, Won(l, before, a) - Returned(l, before, a), a);
      }
    }
  }

  /**
   The rate limit over any minute, aligned or not: at most twice MaxRequestsPerMinute reservations, plus the
   slots refunded in that minute.
   */
  lemma AnyMinute(l: Limits, ops: seq<Op>, a: Time)
    requires ClockRuns(ops)
    ensures Won(l, ops, a) <= 2 * Max(0, l.maxRequestsPerMinute) + Returned(l, ops, a)
  {
    TallyRun(l, ops, a);
  }

  // --- exactly how much a minute admits ---

  /** `more` is `ops` and then `n` reservations at `at`. */
  ghost predicate Burst(ops: seq<Op>, more: seq<Op>, n: nat, at: Time) {
    && |more| == |ops| + n && more[..|ops|] == ops
    && forall i :: |ops| <= i < |more| ==> more[i] == DoReserve(at)
  }

  /** The caps alone do not refuse the session. */
  predicate Below(l: Limits, u: Usage) {
    u.requests < l.maxRequests && u.tokensIn < l.maxTokensIn && u.tokensOut < l.maxTokensOut
  }

  /** One reservation in a window with room, by a session below its caps. */
  lemma OneGranted(l: Limits, ops: seq<Op>, more: seq<Op>, at: Time, a: Time, b: Bucket)
    requires InMinute(at, a) && After(l, ops) == Some(b) && Below(l, b.usage)
    requires Rolled(b, at).windowCount < l.maxRequestsPerMinute
    requires |more| == |ops| + 1 && more[..|ops|] == ops && more[|ops|] == DoReserve(at)
    ensures var w := Rolled(b, at); After(l, more) == Some(w.(windowCount := w.windowCount + 1))
    ensures Won(l, more, a) == Won(l, ops, a) + 1 && Returned(l, more, a) == Returned(l, ops, a)
  {
  }

  /** A burst from a session below its caps is granted as far as the window, rolled if due, has room. */
  lemma {:induction false} BurstGranted(l: Limits, ops: seq<Op>, n: nat, at: Time, a: Time, b: Bucket) returns (more: seq<Op>)
    requires InMinute(at, a) && After(l, ops) == Some(b) && Below(l, b.usage)
    requires Rolled(b, at).windowCount + n <= l.maxRequestsPerMinute
    ensures Burst(ops, more, n, at)
    ensures var w := Rolled(b, at); After(l, more) == Some(if n == 0 then b else w.(windowCount := w.windowCount + n))
    ensures Won(l, more, a) == Won(l, ops, a) + n && Returned(l, more, a) == Returned(l, ops, a)
    decreases n
  {
    if n == 0 {
      more := ops;
    } else {
      var before := BurstGranted(l, ops, n - 1, at, a, b);
      var w := Rolled(b, at);
      more := before + [DoReserve(at)];
      OneGranted(l, before, more, at, a, if n == 1 then b else w.(windowCount := w.windowCount + (n - 1)));
    }
  }

  /** Every call of `more` comes after the calls of `ops` and in the minute from `a`. */
  ghost predicate Continues(ops: seq<Op>, more: seq<Op>, a: Time) {
    ClockRuns(ops + more) && forall i :: 0 <= i < |more| ==> InMinute(more[i].at, a)
  }

  /** Refund-free calls that continue `ops` win at most MaxRequestsPerMinute reservations in the minute from `a`. */
  ghost predicate OnlyOneWindow(l: Limits, ops: seq<Op>, a: Time) {
    forall more :: Continues(ops, more, a) && Returned(l, ops + more, a) == 0 ==>
      Won(l, ops + more, a) <= Max(0, l.maxRequestsPerMinute)
  }

  /** At `a` the window is over, or full. */
  predicate WindowShut(l: Limits, b: Bucket, a: Time) {
    a - b.windowStart >= MINUTE || b.windowCount >= l.maxRequestsPerMinute
  }

  /** Nothing is won before the window starts again, and from then on the window counts what is won. */
  predicate Single(l: Limits, b: Bucket, s: nat, a: Time) {
    && s <= b.windowCount <= Max(0, l.maxRequestsPerMinute)
    && (b.windowStart < a ==> s == 0 && WindowShut(l, b, a))
  }

  lemma SingleStep(l: Limits, b: Bucket, op: Op, s: nat, a: Time)
    requires Single(l, b, s, a) && InMinute(op.at, a) && !Returns(b, op)
    ensures Single(l, Do(l, b, op), s + Bit(Wins(l, b, op)), a)
  {
  }

  lemma {:induction false} SingleRun(l: Limits, ops: seq<Op>, more: seq<Op>, a: Time)
    requires ops != [] && ClockRuns(ops) && ops[|ops| - 1].at < a && WindowShut(l, After(l, ops).value, a)
    requires Continues(ops, more, a) && Returned(l, ops + more, a) == 0
    ensures Single(l, After(l, ops + more).value, Won(l, ops + more, a), a)
  {
    TallyRun(l, ops, a);
    if more == [] {
      assert ops + more == ops;
    } else {
      var n := |more| - 1;
      assert (ops + more)[..|ops + more| - 1] == ops + more[..n];
      SingleRun(l, ops, more[..n], a);
      assert InMinute(more[n].at, a);
      SingleStep(l, After(l, ops + more[..n]).value, more[n], Won(l, ops + more[..n], a), a);
    }
  }

  /** What is left of the window at `a` is granted, and a full window as soon as the next one starts. */
  lemma TwoWindows(l: Limits, ops: seq<Op>, a: Time) returns (more: seq<Op>)
    requires ops != [] && ClockRuns(ops) && ops[|ops| - 1].at < a && Below(l, After(l, ops).value.usage)
    requires !WindowShut(l, After(l, ops).value, a)
    ensures Continues(ops, more, a) && Returned(l, ops + more, a) == 0
    ensures Won(l, ops + more, a) == 2 * l.maxRequestsPerMinute - After(l, ops).value.windowCount
    ensures forall i :: 0 <= i < |more| ==> more[i].DoReserve?
  {
    TallyRun(l, ops, a);
    var b, r := After(l, ops).value, l.maxRequestsPerMinute;
    var m, next := r - b.windowCount, b.windowStart + MINUTE;
    var mid := BurstGranted(l, ops, m, a, a, b);
    var all := BurstGranted(l, mid, r, next, a, b.(windowCount := r));
    more := all[|ops|..];
    TwoBursts(ops, mid, all, a, next, m, r);
  }

  lemma TwoBursts(ops: seq<Op>, mid: seq<Op>, all: seq<Op>, at: Time, next: Time, m: nat, n: nat)
    requires ops != [] && ClockRuns(ops) && ops[|ops| - 1].at < at <= next < at + MINUTE
    requires Burst(ops, mid, m, at) && Burst(mid, all, n, next)
    ensures ops + all[|ops|..] == all && Continues(ops, all[|ops|..], at)
    ensures forall i :: |ops| <= i < |all| ==> all[i].DoReserve?
  {
    assert forall i :: 0 <= i < |all| ==> all[i] == if i < |ops| then ops[i] else if i < |mid| then mid[i] else DoReserve(next);
    forall i, j | 0 <= i <= j < |all| ensures all[i].at <= all[j].at {
      if i < |ops| <= j { assert ops[i].at <= ops[|ops| - 1].at; }
    }
  }

  /**
   After calls that end before `a` and leave the session below its caps, the minute from `a` admits no more than
   MaxRequestsPerMinute reservations exactly when the window is over at `a` or full by then.
   */
  lemma OnlyOneWindowIff(l: Limits, ops: seq<Op>, a: Time)
    requires ops != [] && ClockRuns(ops) && ops[|ops| - 1].at < a && Below(l, After(l, ops).value.usage)
    ensures var b := After(l, ops).value;
      OnlyOneWindow(l, ops, a) <==> a - b.windowStart >= 60_000_000_000 || b.windowCount >= l.maxRequestsPerMinute
  {
    if WindowShut(l, After(l, ops).value, a) {
      forall more | Continues(ops, more, a) && Returned(l, ops + more, a) == 0
        ensures Won(l, ops + more, a) <= Max(0, l.maxRequestsPerMinute)
      {
        SingleRun(l, ops, more, a);
      }
    } else {
      TallyRun(l, ops, a);
      var more := TwoWindows(l, ops, a);
    }
  }

  /** A session that was never charged is below its caps. */
  predicate Admits(l: Limits) {
    l.maxRequests > 0 && l.maxTokensIn > 0 && l.maxTokensOut > 0
  }

  /** No response reports a negative count. */
  predicate Sensible(ops: seq<Op>) {
    forall i :: 0 <= i < |ops| && ops[i].DoCommit? ==> ops[i].tokensIn >= 0 && ops[i].tokensOut >= 0
  }

  lemma {:induction false} NothingAdmitted(l: Limits, ops: seq<Op>, a: Time)
    requires !Admits(l) && Sensible(ops)
    ensures Won(l, ops, a) == 0
    ensures ops != [] ==> var u := After(l, ops).value.usage; u.requests >= 0 && u.tokensIn >= 0 && u.tokensOut >= 0
  {
    if ops != [] { NothingAdmitted(l, ops[..|ops| - 1], a); }
  }

  /** No minute of any history admits more than `n` reservations unless a slot is refunded in it. */
  ghost predicate MinuteKept(l: Limits, n: nat) {
    forall ops, a :: ClockRuns(ops) && Sensible(ops) && Returned(l, ops, a) == 0 ==> Won(l, ops, a) <= n
  }

  /** MaxRequestsPerMinute late in one window and as many at the start of the next fall within one minute. */
  lemma TwiceIsAttained(l: Limits) returns (ops: seq<Op>, a: Time)
    requires Admits(l) && l.maxRequestsPerMinute > 0
    ensures ClockRuns(ops) && Sensible(ops) && Returned(l, ops, a) == 0 && Won(l, ops, a) == 2 * l.maxRequestsPerMinute
  {
    var one := [DoUsage(0)];
    assert one[..0] == [];
    a := 1;
    var more := TwoWindows(l, one, a);
    ops := one + more;
  }

  /**
   The rate limit as a bound on any minute: for all limits, at most `n` reservations are granted in every minute
   without refunds exactly when `n` is at least twice MaxRequestsPerMinute, or the caps admit nothing at all.
   */
  lemma AnyMinuteIff(l: Limits, n: nat)
    ensures MinuteKept(l, n) <==> !Admits(l) || 2 * l.maxRequestsPerMinute <= n
  {
    if !Admits(l) || 2 * l.maxRequestsPerMinute <= n {
      forall ops, a | ClockRuns(ops) && Sensible(ops) && Returned(l, ops, a) == 0 ensures Won(l, ops, a) <= n {
        if Admits(l) { AnyMinute(l, ops, a); } else { NothingAdmitted(l, ops, a); }
      }
    } else {
      var ops, a := TwiceIsAttained(l);
    }
  }

  /** The proxy's quota manager: one bucket for each session, made on first use. */
  class Manager {
    const limits: Limits
    var buckets: map<Id, Bucket>

    constructor (l: Limits)
      ensures limits == (if l.maxTokensIn <= 0 then Limits(60000, 120000, 60, 12) else l) && buckets == map[]
    {
      // without a positive input-token cap the defaults apply as a whole
      limits := if l.maxTokensIn <= 0 then DEFAULT_LIMITS else l;
      buckets := map[];
    }

    ghost function BucketAt(id: Id, now: Time): Bucket
      reads this
    {
      if id in buckets then buckets[id] else NewBucket(now)
    }

    method Get(id: Id, now: Time) returns (b: Bucket)
      modifies this
      ensures b == old(BucketAt(id, now)) && buckets == old(buckets)[id := b]
    {
      if id !in buckets {
        buckets := buckets[id := NewBucket(now)];
      }
      b := buckets[id];
    }

    method TryReserve(id: Id, now: Time) returns (v: Verdict)
      modifies this
      ensures v == Reserve(limits, old(BucketAt(id, now)), now).1
      ensures buckets == old(buckets)[id := Reserve(limits, old(BucketAt(id, now)), now).0]
    {
      var b := Get(id, now);
      if now - b.windowStart >= MINUTE {
        b := b.(windowStart := now, windowCount := 0);
      }
      if b.windowCount >= limits.maxRequestsPerMinute {
        var retry := MINUTE - (now - b.windowStart);
        if retry < SECOND {
          retry := SECOND;
        }
        v := Refused(RateLimit, retry);
      } else if b.usage.requests >= limits.maxRequests {
        v := Refused(Requests, 0);
      } else if b.usage.tokensIn >= limits.maxTokensIn {
        v := Refused(TokensIn, 0);
      } else if b.usage.tokensOut >= limits.maxTokensOut {
        v := Refused(TokensOut, 0);
      } else {
        b := b.(windowCount := b.windowCount + 1);
        v := Granted;
      }
      buckets := buckets[id := b];
    }

    method CommitUsage(id: Id, now: Time, tokensIn: int, tokensOut: int)
      modifies this
      ensures buckets == old(buckets)[id := Commit(old(BucketAt(id, now)), tokensIn, tokensOut)]
    {
      var b := Get(id, now);
      buckets := buckets[id := Commit(b, tokensIn, tokensOut)];
    }

    method RefundSlot(id: Id, now: Time)
      modifies this
      ensures buckets == old(buckets)[id := Refund(old(BucketAt(id, now)))]
    {
      var b := Get(id, now);
      if b.windowCount > 0 {
        buckets := buckets[id := b.(windowCount := b.windowCount - 1)];
      }
    }

    /** The session starts afresh whatever it was charged; every other session is answered as before. */
    method Reset(id: Id)
      modifies this`buckets
      ensures forall now :: Reserve(limits, BucketAt(id, now), now).1.Granted? <==> Admits(limits) && limits.maxRequestsPerMinute > 0
      ensures forall other, now :: other != id ==> BucketAt(other, now) == old(BucketAt(other, now))
      ensures buckets.Keys == old(buckets).Keys - {id}
    {
      buckets := buckets - {id};
    }
  }
}
