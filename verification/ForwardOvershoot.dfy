/** The caps of a session are overshot by exactly as much as overlapping requests allow. */
module ForwardOvershoot {
  import opened Common
  import opened Quota
  import opened Forward

  /** In every state at most `k` reservations of session `s` are open and its responses report at most `t` tokens of a kind. */
  ghost predicate IsNarrowRun(l: Limits, s: Id, k: nat, t: nat, trace: seq<State>) {
    IsRun(l, trace) && forall i :: 0 <= i < |trace| ==> Bounded(trace[i], s, k, t)
  }

  ghost predicate Reaches(l: Limits, s: Id, k: nat, t: nat, st: State) {
    exists trace :: IsNarrowRun(l, s, k, t, trace) && trace[|trace| - 1] == st
  }

  lemma ReachesStep(l: Limits, s: Id, k: nat, t: nat, st: State, e: Event, st': State)
    requires Reaches(l, s, k, t, st) && Enabled(st, e) && st' == Apply(l, st, e) && Bounded(st', s, k, t)
    ensures Reaches(l, s, k, t, st')
  {
    var trace :| IsNarrowRun(l, s, k, t, trace) && trace[|trace| - 1] == st;
    var longer := trace + [st'];
    forall i | 0 < i < |longer| ensures FollowsAt(l, longer, i) {
      if i < |trace| { assert FollowsAt(l, trace, i); }
    }
    assert IsNarrowRun(l, s, k, t, longer);
  }

  lemma ReachesBounded(l: Limits, s: Id, k: nat, t: nat, st: State)
    requires Reaches(l, s, k, t, st)
    ensures Bounded(st, s, k, t)
  {
    var trace :| IsNarrowRun(l, s, k, t, trace) && trace[|trace| - 1] == st;
    assert Bounded(trace[|trace| - 1], s, k, t);
  }

  // --- a run that overshoots ---

  /** The open requests of session `s` wait for their answers. */
  ghost predicate AllWait(reqs: seq<Req>, s: Id) {
    forall r :: 0 <= r < |reqs| && OpenFor(reqs[r], s) ==> reqs[r].pc.Reserved?
  }

  function Other(f: Field): Field {
    match f case In => Out case Out => In
  }

  /** `n` requests were charged with `z` tokens of kind `f` and none of the other kind. */
  predicate Spends(u: Usage, f: Field, n: int, z: int) {
    u.requests == n && Spent(u, f) == z && Spent(u, Other(f)) == 0
  }

  /** Session `s` has `open` open reservations besides. */
  ghost predicate Staged(st: State, s: Id, f: Field, n: int, z: int, open: nat) {
    Spends(UsageIn(st.buckets, s), f, n, z) && Opened(st.reqs, s) == open && AllWait(st.reqs, s)
  }

  function Cap(l: Limits, f: Field): int {
    match f case In => l.maxTokensIn case Out => l.maxTokensOut
  }

  lemma {:induction false} OpenWitness(reqs: seq<Req>, s: Id) returns (r: nat)
    requires Opened(reqs, s) > 0
    ensures r < |reqs| && OpenFor(reqs[r], s)
  {
    var n := |reqs| - 1;
    if OpenFor(reqs[n], s) { r := n; } else { r := OpenWitness(reqs[..n], s); }
  }

  lemma Begin(l: Limits, s: Id, k: nat, t: nat, f: Field) returns (st: State)
    ensures Reaches(l, s, k, t, st) && Staged(st, s, f, 0, 0, 0)
  {
    st := State(map[], [], [], 0);
    assert IsNarrowRun(l, s, k, t, [st]);
  }

  /** A request arrives. */
  lemma ArriveOne(l: Limits, s: Id, k: nat, t: nat, st: State) returns (st': State)
    requires Reaches(l, s, k, t, st) && AllWait(st.reqs, s)
    ensures Reaches(l, s, k, t, st') && st' == st.(reqs := st'.reqs)
    ensures |st'.reqs| == |st.reqs| + 1 && st'.reqs[..|st.reqs|] == st.reqs
    ensures st'.reqs[|st.reqs|].pc.Arrived? && st'.reqs[|st.reqs|].session == s
    ensures AllWait(st'.reqs, s) && Opened(st'.reqs, s) == Opened(st.reqs, s)
  {
    var q := Req(s, Arrived, false, 0, 0);
    st' := st.(reqs := st.reqs + [q]);
    ReachesBounded(l, s, k, t, st);
    OpenedAppend(st.reqs, q, s);
    ReachesStep(l, s, k, t, st, Arrive(s), st');
  }

  /** A minute after the window began a reservation is granted to a session below its caps. */
  lemma GrantedLater(l: Limits, b: Bucket, now: Time)
    requires now - b.windowStart >= MINUTE || b.windowCount == 0
    requires b.usage.requests < l.maxRequests && b.usage.tokensIn < l.maxTokensIn && b.usage.tokensOut < l.maxTokensOut
    requires l.maxRequestsPerMinute > 0
    ensures Reserve(l, b, now).1.Granted? && Reserve(l, b, now).0.usage == b.usage
  {
  }

  /** When the next reservation is made. */
  function Later(st: State, s: Id): Time {
    if s in st.buckets then Max(st.clock, st.buckets[s].windowStart + MINUTE) else st.clock
  }

  /** Request `r` has arrived and reserves. */
  lemma ReserveOne(l: Limits, s: Id, k: nat, t: nat, st: State, r: nat) returns (st': State)
    requires Positive(l) && Reaches(l, s, k, t, st) && AllWait(st.reqs, s) && Opened(st.reqs, s) < k
    requires r < |st.reqs| && st.reqs[r].pc.Arrived? && st.reqs[r].session == s
    requires var u := UsageIn(st.buckets, s);
      u.requests < l.maxRequests && u.tokensIn < l.maxTokensIn && u.tokensOut < l.maxTokensOut
    ensures Reaches(l, s, k, t, st') && UsageIn(st'.buckets, s) == UsageIn(st.buckets, s)
    ensures AllWait(st'.reqs, s) && Opened(st'.reqs, s) == Opened(st.reqs, s) + 1
  {
    var q := st.reqs[r];
    var now := Later(st, s);
    var b := BucketOf(st, s, now);
    GrantedLater(l, b, now);
    st' := Apply(l, st, Run(r, now, BodyError));
    var q' := q.(pc := Reserved, reserved := true);
    assert st'.reqs == st.reqs[r := q'];
    OpenedUpdate(st.reqs, r, q', s);
    ReachesBounded(l, s, k, t, st);
    ReachesStep(l, s, k, t, st, Run(r, now, BodyError), st');
  }

  /** A request arrives and reserves. */
  lemma OpenOne(l: Limits, s: Id, k: nat, t: nat, st: State, f: Field, n: int, z: int, open: nat) returns (st': State)
    requires Positive(l) && Reaches(l, s, k, t, st) && Staged(st, s, f, n, z, open) && open < k
    requires n < l.maxRequests && z < Cap(l, f)
    ensures Reaches(l, s, k, t, st') && Staged(st', s, f, n, z, open + 1)
  {
    var mid := ArriveOne(l, s, k, t, st);
    st' := ReserveOne(l, s, k, t, mid, |st.reqs|);
  }

  /** The answer to request `r` reports `z` tokens of kind `f`. */
  lemma AnswerOne(l: Limits, s: Id, k: nat, t: nat, st: State, r: nat, f: Field, z: nat) returns (st': State)
    requires Reaches(l, s, k, t, st) && AllWait(st.reqs, s) && r < |st.reqs| && OpenFor(st.reqs[r], s) && z <= t
    ensures Reaches(l, s, k, t, st') && |st'.reqs| == |st.reqs| && st' == st.(reqs := st.reqs[r := st'.reqs[r]])
    ensures OpenFor(st'.reqs[r], s)
    ensures st'.reqs[r].pc == if f.In? then Committing(z, 0, 200) else Committing(0, z, 200)
  {
    var fate := if f.In? then Answered(z, 0, 200) else Answered(0, z, 200);
    st' := Apply(l, st, Run(r, st.clock, fate));
    assert st.log + [] == st.log;
    OpenedUpdate(st.reqs, r, st'.reqs[r], s);
    ReachesBounded(l, s, k, t, st);
    ReachesStep(l, s, k, t, st, Run(r, st.clock, fate), st');
  }

  lemma CommitSpends(b: Bucket, f: Field, n: int, y: int, z: nat)
    requires Spends(b.usage, f, n, y)
    ensures Spends((if f.In? then Commit(b, z, 0) else Commit(b, 0, z)).usage, f, n + 1, y + z)
  {
  }

  /** ... and is committed. */
  lemma CommitOne(l: Limits, s: Id, k: nat, t: nat, st: State, r: nat, f: Field, n: int, y: int, z: nat) returns (st': State)
    requires Reaches(l, s, k, t, st) && r < |st.reqs| && OpenFor(st.reqs[r], s)
    requires st.reqs[r].pc == if f.In? then Committing(z, 0, 200) else Committing(0, z, 200)
    requires Spends(UsageIn(st.buckets, s), f, n, y)
    ensures Reaches(l, s, k, t, st') && Spends(UsageIn(st'.buckets, s), f, n + 1, y + z)
    ensures |st'.reqs| == |st.reqs| && st'.reqs == st.reqs[r := st'.reqs[r]] && !OpenFor(st'.reqs[r], s)
    ensures Opened(st'.reqs, s) == Opened(st.reqs, s) - 1
  {
    CommitSpends(BucketOf(st, s, st.clock), f, n, y, z);
    st' := Apply(l, st, Run(r, st.clock, BodyError));
    OpenedUpdate(st.reqs, r, st'.reqs[r], s);
    ReachesBounded(l, s, k, t, st);
    ReachesStep(l, s, k, t, st, Run(r, st.clock, BodyError), st');
  }

  /** One open request is answered and committed. */
  lemma CloseOne(l: Limits, s: Id, k: nat, t: nat, st: State, f: Field, n: int, y: int, open: nat, z: nat)
      returns (st': State)
    requires Reaches(l, s, k, t, st) && Staged(st, s, f, n, y, open) && open > 0 && z <= t
    ensures Reaches(l, s, k, t, st') && Staged(st', s, f, n + 1, y + z, open - 1)
  {
    var r := OpenWitness(st.reqs, s);
    var mid := AnswerOne(l, s, k, t, st, r, f, z);
    OpenedUpdate(st.reqs, r, mid.reqs[r], s);
    st' := CommitOne(l, s, k, t, mid, r, f, n, y, z);
  }

  lemma {:induction false} OpenMany(l: Limits, s: Id, k: nat, t: nat, st: State, f: Field, n: int, z: int, m: nat)
      returns (st': State)
    requires Positive(l) && Reaches(l, s, k, t, st) && Staged(st, s, f, n, z, 0) && m <= k
    requires n < l.maxRequests && z < Cap(l, f)
    ensures Reaches(l, s, k, t, st') && Staged(st', s, f, n, z, m)
  {
    if m == 0 {
      st' := st;
    } else {
      var before := OpenMany(l, s, k, t, st, f, n, z, m - 1);
      st' := OpenOne(l, s, k, t, before, f, n, z, m - 1);
    }
  }

  lemma {:induction false} CloseAll(l: Limits, s: Id, k: nat, t: nat, st: State, f: Field, n: int, y: int, open: nat)
      returns (st': State)
    requires Reaches(l, s, k, t, st) && Staged(st, s, f, n, y, open)
    ensures Reaches(l, s, k, t, st') && Staged(st', s, f, n + open, y + open * t, 0)
    decreases open
  {
    if open == 0 {
      st' := st;
    } else {
      var next := CloseOne(l, s, k, t, st, f, n, y, open, t);
      st' := CloseAll(l, s, k, t, next, f, n + 1, y + t, open - 1);
      assert open * t == t + (open - 1) * t;
    }
  }

  /** One request at a time, with as many tokens as fit below the cap. */
  lemma {:induction false} OneByOne(l: Limits, s: Id, k: nat, t: nat, f: Field, n: nat) returns (st: State)
    requires Positive(l) && k >= 1 && n < l.maxRequests
    ensures Reaches(l, s, k, t, st) && Staged(st, s, f, n, Min(n * t, Cap(l, f) - 1), 0)
  {
    if n == 0 {
      st := Begin(l, s, k, t, f);
    } else {
      var y, y' := Min((n - 1) * t, Cap(l, f) - 1), Min(n * t, Cap(l, f) - 1);
      assert n * t == (n - 1) * t + t;
      var before := OneByOne(l, s, k, t, f, n - 1);
      var open := OpenOne(l, s, k, t, before, f, n - 1, y, 0);
      st := CloseOne(l, s, k, t, open, f, n - 1, y, 1, y' - y);
    }
  }

  lemma Totals(n: nat, k: nat, t: nat, cap: int)
    ensures Min(n * t, cap) + k * t == Min((n + k) * t, cap + k * t)
  {
    assert (n + k) * t == n * t + k * t;
  }

  /**
   The bounds are attained, requests and tokens of either kind at once: `k` requests that reserve before any of them
   commits, each a minute after the one before, pass the request cap by k - 1, and the token cap by k * t - 1 unless
   all the requests together do not carry as many tokens.
   */
  lemma CapAttained(l: Limits, s: Id, k: nat, t: nat, f: Field) returns (st: State)
    requires Positive(l) && k >= 1
    ensures Reaches(l, s, k, t, st) && UsageIn(st.buckets, s).requests == l.maxRequests - 1 + k
    ensures Spent(UsageIn(st.buckets, s), f) == Min((l.maxRequests - 1 + k) * t, Cap(l, f) - 1 + k * t)
  {
    var n := l.maxRequests - 1;
    var z := Min(n * t, Cap(l, f) - 1);
    var full := OneByOne(l, s, k, t, f, n);
    var open := OpenMany(l, s, k, t, full, f, n, z, k);
    st := CloseAll(l, s, k, t, open, f, n, z, k);
    Totals(n, k, t, Cap(l, f) - 1);
  }

  // --- exactly when the caps are kept ---

  ghost predicate RequestsKept(l: Limits, k: nat, t: nat) {
    forall s, st :: Reaches(l, s, k, t, st) ==> UsageIn(st.buckets, s).requests <= l.maxRequests
  }

  ghost predicate TokensKept(l: Limits, k: nat, t: nat, f: Field) {
    forall s, st :: Reaches(l, s, k, t, st) ==> Spent(UsageIn(st.buckets, s), f) <= Cap(l, f)
  }

  lemma ReachesCapped(l: Limits, s: Id, k: nat, t: nat, st: State)
    requires Reaches(l, s, k, t, st)
    ensures var u := UsageIn(st.buckets, s);
      && u.requests <= Max(0, l.maxRequests - 1 + k)
      && forall f :: Spent(u, f) <= Min(u.requests * t, Max(0, Cap(l, f) - 1 + k * t))
  {
    var trace :| IsNarrowRun(l, s, k, t, trace) && trace[|trace| - 1] == st;
    CapOvershoot(l, trace, |trace| - 1, s, k, t);
  }

  lemma ReachesUnused(l: Limits, s: Id, k: nat, t: nat, st: State)
    requires Reaches(l, s, k, t, st) && !Positive(l)
    ensures var u := UsageIn(st.buckets, s); u.requests == 0 && forall f :: Spent(u, f) == 0
  {
    var trace :| IsNarrowRun(l, s, k, t, trace) && trace[|trace| - 1] == st;
    NeverCharged(l, trace, |trace| - 1);
  }

  /**
   For all limits: the request cap is kept in every run with at most k open reservations of a session exactly when
   k <= 1. With a limit that is not positive nothing is charged, and the cap is kept unless it is negative.
   */
  lemma RequestCapIff(l: Limits, k: nat, t: nat)
    ensures RequestsKept(l, k, t) <==> if Positive(l) then k <= 1 else l.maxRequests >= 0
  {
    if !Positive(l) {
      forall s, st | Reaches(l, s, k, t, st) ensures UsageIn(st.buckets, s).requests == 0 { ReachesUnused(l, s, k, t, st); }
      var st := Begin(l, 0, k, t, In);
    } else if k <= 1 {
      forall s, st | Reaches(l, s, k, t, st) ensures UsageIn(st.buckets, s).requests <= l.maxRequests {
        ReachesCapped(l, s, k, t, st);
      }
    } else {
      var st := CapAttained(l, 0, k, t, In);
    }
  }

  lemma TokensWithin(l: Limits, s: Id, k: nat, t: nat, st: State, f: Field)
    requires Positive(l) && Reaches(l, s, k, t, st) && (k * t <= 1 || (l.maxRequests - 1 + k) * t <= Cap(l, f))
    ensures Spent(UsageIn(st.buckets, s), f) <= Cap(l, f)
  {
    ReachesCapped(l, s, k, t, st);
    var u := UsageIn(st.buckets, s);
    if u.requests < 0 {
      assert u.requests * t <= 0;
    } else {
      Monotone(u.requests, l.maxRequests - 1 + k, t);
    }
  }

  /**
   For all limits: the cap on tokens of kind `f` is kept in every run with at most k open reservations of a session
   and at most t tokens of a kind in a response exactly when k * t <= 1 or all the requests that can be charged
   together carry no more tokens than the cap.
   */
  lemma TokenCapIff(l: Limits, k: nat, t: nat, f: Field)
    ensures TokensKept(l, k, t, f) <==>
      if Positive(l) then k * t <= 1 || (l.maxRequests - 1 + k) * t <= Cap(l, f) else Cap(l, f) >= 0
  {
    if !Positive(l) {
      forall s, st | Reaches(l, s, k, t, st) ensures Spent(UsageIn(st.buckets, s), f) == 0 { ReachesUnused(l, s, k, t, st); }
      var st := Begin(l, 0, k, t, f);
    } else if k * t <= 1 || (l.maxRequests - 1 + k) * t <= Cap(l, f) {
      forall s, st | Reaches(l, s, k, t, st) ensures Spent(UsageIn(st.buckets, s), f) <= Cap(l, f) {
        TokensWithin(l, s, k, t, st, f);
      }
    } else {
      var st := CapAttained(l, 0, k, t, f);
    }
  }
}
