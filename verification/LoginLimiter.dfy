/**
 The login rate limit (Gate.Allow in control-plane/internal/auth/auth.go): a token bucket for each client address.
 Times are seconds; the source's float64 arithmetic is over the reals here.
 */
module LoginLimiter {
  import opened Common

  datatype Bucket = Bucket(tokens: real, last: real)

  /** Tokens a bucket holds at `now`, before the attempt at `now` takes one. */
  function Level(b: Option<Bucket>, now: real): real {
    if b.None? then 5.0 else
      var t := b.value.tokens + (now - b.value.last) / 12.0;
      if t < 5.0 then t else 5.0
  }

  function Admits(b: Option<Bucket>, now: real): bool {
    Level(b, now) >= 1.0
  }

  function Next(b: Option<Bucket>, now: real): Bucket {
    Bucket(if Admits(b, now) then Level(b, now) - 1.0 else Level(b, now), now)
  }

  // --- the attempts of one address ---

  /** The clock never goes back. */
  ghost predicate Sorted(times: seq<real>) {
    forall i, j :: 0 <= i <= j < |times| ==> times[i] <= times[j]
  }

  function After(times: seq<real>): Option<Bucket> {
    if times == [] then None else Some(Next(After(times[..|times| - 1]), times[|times| - 1]))
  }

  /** Whether the last attempt of the sequence is let in. */
  predicate LastAdmitted(times: seq<real>)
    requires times != []
  {
    Admits(After(times[..|times| - 1]), times[|times| - 1])
  }

  lemma {:induction false} LevelInRange(times: seq<real>, now: real)
    requires Sorted(times) && (times != [] ==> times[|times| - 1] <= now)
    ensures 0.0 <= Level(After(times), now) <= 5.0
  {
    if times != [] { LevelInRange(times[..|times| - 1], times[|times| - 1]); }
  }

  /** Tokens stay in [0, 5]. */
  lemma TokensInRange(times: seq<real>)
    requires Sorted(times) && times != []
    ensures 0.0 <= After(times).value.tokens <= 5.0 && After(times).value.last == times[|times| - 1]
  {
    LevelInRange(times[..|times| - 1], times[|times| - 1]);
  }

  // --- at most 5 + (b - a) / 12 in any interval ---

  /** Attempts let in at a time in [a, b]. */
  function Count(times: seq<real>, a: real, b: real): nat {
    if times == [] then 0 else
      Count(times[..|times| - 1], a, b) + Bit(a <= times[|times| - 1] <= b && LastAdmitted(times))
  }

  function Later(x: real, y: real): real {
    if x >= y then x else y
  }

  /** Tokens left plus attempts let in since `a` never exceed what the bucket held at `a` and earned since. */
  lemma {:induction false} Spent(times: seq<real>, a: real, b: real)
    requires Sorted(times) && times != [] && times[|times| - 1] <= b
    ensures After(times).value.tokens + Count(times, a, b) as real <= 5.0 + (Later(times[|times| - 1], a) - a) / 12.0
  {
    var n := |times| - 1;
    var now, before := times[n], times[..n];
    TokensInRange(times);
    if before != [] {
      TokensInRange(before);
      Spent(before, a, b);
    }
    if now < a { NoneBefore(times, a, b); }
    if before != [] && before[n - 1] < a { NoneBefore(before, a, b); }
  }

  lemma {:induction false} NoneBefore(times: seq<real>, a: real, b: real)
    requires Sorted(times) && (times != [] ==> times[|times| - 1] < a)
    ensures Count(times, a, b) == 0
  {
    if times != [] {
      var before := times[..|times| - 1];
      NoneBefore(before, a, b);
    }
  }

  /** In every run and every closed interval at most 5 + (b - a) / 12 attempts of one address are let in. */
  lemma {:induction false} AnyInterval(times: seq<real>, a: real, b: real)
    requires Sorted(times) && a <= b
    ensures Count(times, a, b) as real <= 5.0 + (b - a) / 12.0
  {
    if times != [] {
      var n := |times| - 1;
      if times[n] > b {
        AnyInterval(times[..n], a, b);
      } else {
        Spent(times, a, b);
        TokensInRange(times);
      }
    }
  }

  // --- what "5 attempts per minute" amounts to ---

  /** Five attempts at once, then one every 12 seconds. */
  function Ramp(k: nat): (times: seq<real>)
    ensures |times| == k
  {
    if k == 0 then [] else Ramp(k - 1) + [RampTime(k - 1)]
  }

  function RampTime(i: nat): real {
    if i < 5 then 0.0 else 12.0 * (i - 4) as real
  }

  lemma {:induction false} RampAt(k: nat, i: nat)
    requires i < k
    ensures Ramp(k)[i] == RampTime(i)
  {
    if i < k - 1 { RampAt(k - 1, i); }
  }

  lemma RampSorted(k: nat)
    ensures Sorted(Ramp(k))
  {
    forall i, j | 0 <= i <= j < k ensures Ramp(k)[i] <= Ramp(k)[j] {
      RampAt(k, i);
      RampAt(k, j);
    }
  }

  function RampBucket(k: nat): Option<Bucket> {
    if k == 0 then None else Some(Bucket(if k < 5 then (5 - k) as real else 0.0, RampTime(k - 1)))
  }

  lemma RampNext(k: nat)
    ensures Admits(RampBucket(k), RampTime(k)) && Some(Next(RampBucket(k), RampTime(k))) == RampBucket(k + 1)
  {
    if k >= 5 { assert RampTime(k) - RampTime(k - 1) == 12.0; }
  }

  lemma {:induction false} RampAfter(k: nat)
    ensures After(Ramp(k)) == RampBucket(k)
  {
    if k > 0 {
      assert Ramp(k)[..k - 1] == Ramp(k - 1);
      RampAfter(k - 1);
      RampNext(k - 1);
    }
  }

  lemma RampLast(k: nat)
    requires k > 0
    ensures Ramp(k)[..k - 1] == Ramp(k - 1) && Ramp(k)[k - 1] == RampTime(k - 1) && LastAdmitted(Ramp(k))
  {
    assert Ramp(k)[..k - 1] == Ramp(k - 1);
    RampAfter(k - 1);
    RampNext(k - 1);
  }

  lemma RampOnward(i: nat)
    ensures 0.0 <= RampTime(i) <= RampTime(i + 1)
  {
  }

  /** Every attempt of the ramp is let in. */
  lemma {:induction false} RampAdmitted(k: nat, w: real)
    requires k > 0 ==> RampTime(k - 1) <= w
    ensures Count(Ramp(k), 0.0, w) == k
  {
    if k > 0 {
      RampLast(k);
      RampOnward(k - 1);
      if k > 1 { RampOnward(k - 2); }
      RampAdmitted(k - 1, w);
    }
  }

  /** At most n attempts in every closed interval of length w or less, whatever the run. */
  ghost predicate AtMost(n: nat, w: real) {
    forall times, a, b :: Sorted(times) && a <= b <= a + w ==> Count(times, a, b) <= n
  }

  /**
   At most n attempts in every closed interval of length w holds exactly when 5 + w / 12 < n + 1.
   So "at most 5" holds for intervals shorter than 12 seconds, and the most for a closed minute is 10.
   */
  lemma LimitIff(n: nat, w: real)
    requires w >= 0.0
    ensures AtMost(n, w) <==> 5.0 + w / 12.0 < (n + 1) as real
  {
    if 5.0 + w / 12.0 < (n + 1) as real {
      forall times, a, b | Sorted(times) && a <= b <= a + w ensures Count(times, a, b) <= n {
        AnyInterval(times, a, b);
      }
    } else {
      RampSorted(n + 1);
      RampAdmitted(n + 1, w);
      assert Count(Ramp(n + 1), 0.0, w) > n;
    }
  }

  lemma FivePerMinuteFails()
    ensures !AtMost(5, 60.0) && !AtMost(9, 60.0) && AtMost(10, 60.0)
  {
    LimitIff(5, 60.0);
    LimitIff(9, 60.0);
    LimitIff(10, 60.0);
  }

  // --- an address that waits ---

  /** `times`, and then k attempts at `now`. */
  function Then(times: seq<real>, k: nat, now: real): seq<real>
    decreases k
  {
    if k == 0 then times else Then(times + [now], k - 1, now)
  }

  /** One more attempt at `now`. */
  lemma OneMoreAdmitted(times: seq<real>, now: real, all: seq<real>)
    requires all == times + [now] && Admits(After(times), now)
    ensures Count(all, now, now) == Count(times, now, now) + 1
    ensures Level(After(all), now) == Level(After(times), now) - 1.0
  {
    assert all[..|times|] == times;
  }

  lemma {:induction false} ThenAdmitted(times: seq<real>, k: nat, now: real)
    requires Level(After(times), now) >= k as real
    ensures Count(Then(times, k, now), now, now) == Count(times, now, now) + k
    decreases k
  {
    if k > 0 {
      var next := times + [now];
      OneMoreAdmitted(times, now, next);
      ThenAdmitted(next, k - 1, now);
    }
  }

  /** Whatever an address tried before, after 12 * k seconds without an attempt k more at once are let in, up to five. */
  lemma WaitingRefills(times: seq<real>, k: nat, now: real)
    requires Sorted(times) && k <= 5 && (times != [] ==> times[|times| - 1] + 12.0 * k as real <= now)
    ensures Count(Then(times, k, now), now, now) >= k
  {
    if times != [] { TokensInRange(times); }
    ThenAdmitted(times, k, now);
  }

  // --- denied attempts leave no mark ---

  /** The attempts that were let in. */
  function Kept(times: seq<real>): seq<real> {
    if times == [] then [] else
      Kept(times[..|times| - 1]) + if LastAdmitted(times) then [times[|times| - 1]] else []
  }

  /** The kept attempts come no later than the whole sequence does. */
  lemma {:induction false} KeptSorted(times: seq<real>, now: real)
    requires Sorted(times) && (times != [] ==> times[|times| - 1] <= now)
    ensures Sorted(Kept(times)) && forall i :: 0 <= i < |Kept(times)| ==> Kept(times)[i] <= now
  {
    if times != [] {
      var n := |times| - 1;
      KeptSorted(times[..n], times[n]);
    }
  }

  lemma KeptOrNot(times: seq<real>)
    requires times != []
    ensures var n := |times| - 1;
      After(Kept(times)) == if LastAdmitted(times) then Some(Next(After(Kept(times[..n])), times[n])) else After(Kept(times[..n]))
  {
    var kept, before := Kept(times), Kept(times[..|times| - 1]);
    if LastAdmitted(times) {
      assert kept[..|kept| - 1] == before;
    } else {
      assert kept == before;
    }
  }

  /** A denied attempt only moves the time at which the tokens were counted. */
  lemma DeniedLevel(b: Option<Bucket>, at: real, now: real)
    requires !Admits(b, at)
    ensures Level(Some(Next(b, at)), now) == Level(b, now)
  {
  }

  /** With the denied attempts deleted the bucket stands as high at every later time, so it decides the same. */
  lemma {:induction false} DenialsDoNotMatter(times: seq<real>, now: real)
    requires Sorted(times) && (times != [] ==> times[|times| - 1] <= now)
    ensures Level(After(Kept(times)), now) == Level(After(times), now)
    ensures Admits(After(Kept(times)), now) == Admits(After(times), now)
  {
    if times != [] {
      var n := |times| - 1;
      var before, last := times[..n], times[n];
      DenialsDoNotMatter(before, last);
      KeptOrNot(times);
      if !LastAdmitted(times) {
        DenialsDoNotMatter(before, now);
        DeniedLevel(After(before), last, now);
      }
    }
  }

  /** Every attempt that is left is let in again. */
  lemma {:induction false} KeptAreAdmitted(times: seq<real>)
    requires Sorted(times)
    ensures Kept(Kept(times)) == Kept(times)
  {
    if times != [] {
      var n := |times| - 1;
      var before := times[..n];
      KeptAreAdmitted(before);
      DenialsDoNotMatter(before, times[n]);
      var kept := Kept(times);
      if LastAdmitted(times) {
        assert kept[..|kept| - 1] == Kept(before);
      } else {
        assert kept == Kept(before);
      }
    }
  }

  // --- the gate ---

  class Gate {
    var buckets: map<string, Bucket>

    constructor ()
      ensures buckets == map[]
    {
      buckets := map[];
    }

    ghost function BucketOf(ip: string): Option<Bucket>
      reads this
    {
      if ip in buckets then Some(buckets[ip]) else None
    }

    method Allow(ip: string, now: real) returns (ok: bool)
      modifies this
      ensures ok == Admits(old(BucketOf(ip)), now)
      ensures buckets == old(buckets)[ip := Next(old(BucketOf(ip)), now)]
    {
      if ip !in buckets {
        buckets := buckets[ip := Bucket(5.0, now)];
      }
      var st := buckets[ip];
      var elapsed := now - st.last;
      var tokens := st.tokens + elapsed * (5.0 / 60.0);
      if tokens > 5.0 {
        tokens := 5.0;
      }
      if tokens < 1.0 {
        buckets := buckets[ip := Bucket(tokens, now)];
        return false;
      }
      buckets := buckets[ip := Bucket(tokens - 1.0, now)];
      return true;
    }
  }
}
