/**
 Forwarding requests (proxy/internal/server/server.go, handleForward), with the quota and the audit log.

 Any number of requests of any sessions are in progress at once; each call into the quota manager and
 each write to the audit log is one step.
 */
module Forward {
  import opened Common
  import opened Quota
  import Keys

  /** audit.Record, less the timestamp and the endpoint. */
  datatype Record = Record(session: Id, tokensIn: int, tokensOut: int, costMicros: int, status: int)

  /** estimateCostMicros: 3 dollars for a million input tokens, 15 for a million output tokens. */
  function Cost(tokensIn: int, tokensOut: int): int {
    3 * tokensIn + 15 * tokensOut
  }

  /** What happens to a request after its reservation; token counts come from parseUsage, never negative. */
  datatype Fate =
    | BodyError                                            // 400, refunded, not audited
    | BuildError                                           // 500, refunded, not audited
    | Unreachable                                          // 502, refunded, audited
    | Answered(tokensIn: nat, tokensOut: nat, status: int) // committed and audited

  datatype Pc =
    | Arrived
    | Reserved
    | Refunding(audited: bool)
    | Committing(tokensIn: nat, tokensOut: nat, status: int)
    | Auditing(rec: Record)
    | Done

  /** One request, with a count of its calls that settle a reservation. */
  datatype Req = Req(session: Id, pc: Pc, reserved: bool, commits: nat, refunds: nat)

  /** `clock` is the time of the latest step. */
  datatype State = State(buckets: map<Id, Bucket>, reqs: seq<Req>, log: seq<Record>, clock: Time)

  ghost predicate IsStart(st: State) {
    st.buckets == map[] && st.reqs == [] && st.log == []
  }

  datatype Event = Arrive(session: Id) | Run(r: nat, now: Time, fate: Fate)

  predicate Enabled(st: State, e: Event) {
    e.Run? ==> e.r < |st.reqs| && !st.reqs[e.r].pc.Done? && e.now >= st.clock
  }

  function BucketOf(st: State, s: Id, now: Time): Bucket {
    if s in st.buckets then st.buckets[s] else NewBucket(now)
  }

  datatype Move = Move(bucket: Bucket, req: Req, written: seq<Record>)

  /** The next step of one request. */
  function Advance(l: Limits, b: Bucket, q: Req, now: Time, fate: Fate): Move {
    match q.pc
    case Arrived =>
      var (b', v) := Reserve(l, b, now);
      if v.Granted? then Move(b', q.(pc := Reserved, reserved := true), [])
      else Move(b', q.(pc := Auditing(Record(q.session, 0, 0, 0, 429))), [])
    case Reserved =>
      Move(b, q.(pc := match fate
                       case BodyError => Refunding(false)
                       case BuildError => Refunding(false)
                       case Unreachable => Refunding(true)
                       case Answered(i, o, status) => Committing(i, o, status)), [])
    case Refunding(audited) =>
      Move(Refund(b), q.(pc := if audited then Auditing(Record(q.session, 0, 0, 0, 502)) else Done,
                         refunds := q.refunds + 1), [])
    case Committing(i, o, status) =>
      Move(Commit(b, i, o), q.(pc := Auditing(Record(q.session, i, o, Cost(i, o), status)), commits := q.commits + 1), [])
    case Auditing(rec) => Move(b, q.(pc := Done), [rec])
    case Done => Move(b, q, [])
  }

  function Apply(l: Limits, st: State, e: Event): State
    requires Enabled(st, e)
  {
    match e
    case Arrive(s) => st.(reqs := st.reqs + [Req(s, Arrived, false, 0, 0)])
    case Run(r, now, fate) =>
      var q := st.reqs[r];
      var m := Advance(l, BucketOf(st, q.session, now), q, now, fate);
      var touched := q.pc.Arrived? || q.pc.Refunding? || q.pc.Committing?;
      State(if touched then st.buckets[q.session := m.bucket] else st.buckets, st.reqs[r := m.req], st.log + m.written, now)
  }

  ghost predicate Follows(l: Limits, st: State, st': State) {
    exists e :: Enabled(st, e) && st' == Apply(l, st, e)
  }

  ghost predicate FollowsAt(l: Limits, trace: seq<State>, i: nat)
    requires 0 < i < |trace|
  {
    Follows(l, trace[i - 1], trace[i])
  }

  ghost predicate IsRun(l: Limits, trace: seq<State>) {
    && |trace| > 0 && IsStart(trace[0])
    && forall i :: 0 < i < |trace| ==> FollowsAt(l, trace, i)
  }

  // --- every reservation is settled once ---

  predicate Open(pc: Pc) {
    pc.Reserved? || pc.Refunding? || pc.Committing?
  }

  /** While a reservation is open it is unsettled; afterwards it was settled by one Commit or one Refund. */
  predicate ReqOk(q: Req) {
    if q.pc.Arrived? then !q.reserved && q.commits == q.refunds == 0
    else if Open(q.pc) then q.reserved && q.commits == q.refunds == 0
    else q.commits + q.refunds == Bit(q.reserved)
  }

  lemma {:induction false} SettledOnce(l: Limits, trace: seq<State>, i: nat, r: nat)
    requires IsRun(l, trace) && i < |trace| && r < |trace[i].reqs|
    ensures ReqOk(trace[i].reqs[r])
  {
    if i > 0 {
      assert FollowsAt(l, trace, i);
      var e :| Enabled(trace[i - 1], e) && trace[i] == Apply(l, trace[i - 1], e);
      if r < |trace[i - 1].reqs| { SettledOnce(l, trace, i - 1, r); }
    }
  }

  // --- the audit log and the ledger agree ---

  /** What is added up. */
  datatype Field = In | Out

  function Entry(rec: Record, f: Field): int {
    match f case In => rec.tokensIn case Out => rec.tokensOut
  }

  function Spent(u: Usage, f: Field): int {
    match f case In => u.tokensIn case Out => u.tokensOut
  }

  function Of(rec: Record, s: Id, f: Field): int {
    if rec.session == s then Entry(rec, f) else 0
  }

  /** The sum a reader of the audit log computes for session `s`. */
  function Logged(log: seq<Record>, s: Id, f: Field): int {
    if log == [] then 0 else Logged(log[..|log| - 1], s, f) + Of(log[|log| - 1], s, f)
  }

  function Held(q: Req, s: Id, f: Field): int {
    if q.pc.Auditing? then Of(q.pc.rec, s, f) else 0
  }

  /** Records of session `s` emitted by requests but not yet written. */
  function Unwritten(reqs: seq<Req>, s: Id, f: Field): int {
    if reqs == [] then 0 else Unwritten(reqs[..|reqs| - 1], s, f) + Held(reqs[|reqs| - 1], s, f)
  }

  /** What the ledger says of session `s`. */
  function SpentBy(buckets: map<Id, Bucket>, s: Id, f: Field): int {
    if s in buckets then Spent(buckets[s].usage, f) else 0
  }

  function UsageIn(buckets: map<Id, Bucket>, s: Id): Usage {
    if s in buckets then buckets[s].usage else Usage(0, 0, 0)
  }

  lemma LoggedAppend(log: seq<Record>, more: seq<Record>, s: Id, f: Field)
    requires |more| <= 1
    ensures Logged(log + more, s, f) == Logged(log, s, f) + Logged(more, s, f)
  {
    if more == [] {
      assert log + more == log;
    } else {
      assert (log + more)[..|log|] == log;
      assert Logged(more[..0], s, f) == 0;
    }
  }

  lemma UnwrittenAppend(reqs: seq<Req>, q: Req, s: Id, f: Field)
    ensures Unwritten(reqs + [q], s, f) == Unwritten(reqs, s, f) + Held(q, s, f)
  {
    assert (reqs + [q])[..|reqs|] == reqs;
  }

  lemma {:induction false} UnwrittenUpdate(reqs: seq<Req>, r: nat, q: Req, s: Id, f: Field)
    requires r < |reqs|
    ensures Unwritten(reqs[r := q], s, f) + Held(reqs[r], s, f) == Unwritten(reqs, s, f) + Held(q, s, f)
  {
    var n := |reqs| - 1;
    if r == n {
      assert reqs[r := q][..n] == reqs[..n];
    } else {
      UnwrittenUpdate(reqs[..n], r, q, s, f);
      assert reqs[r := q][..n] == reqs[..n][r := q];
    }
  }

  predicate Priced(rec: Record) {
    rec.costMicros == Cost(rec.tokensIn, rec.tokensOut)
  }

  /** A request emits records of its own session only, with the cost of their tokens. */
  predicate RecordOk(q: Req) {
    OwnRecord(q) && (q.pc.Auditing? ==> Priced(q.pc.rec))
  }

  predicate OwnRecord(q: Req) {
    q.pc.Auditing? ==> q.pc.rec.session == q.session
  }

  ghost predicate AllPriced(log: seq<Record>) {
    forall i :: 0 <= i < |log| ==> Priced(log[i])
  }

  /** The cost a reader of the audit log adds up for session `s`. */
  function LoggedCost(log: seq<Record>, s: Id): int {
    if log == [] then 0 else
      LoggedCost(log[..|log| - 1], s) + if log[|log| - 1].session == s then log[|log| - 1].costMicros else 0
  }

  lemma {:induction false} CostOfTokens(log: seq<Record>, s: Id)
    requires AllPriced(log)
    ensures LoggedCost(log, s) == 3 * Logged(log, s, In) + 15 * Logged(log, s, Out)
  {
    if log != [] {
      CostOfTokens(log[..|log| - 1], s);
      assert Priced(log[|log| - 1]);
    }
  }

  ghost predicate AllRecordsOk(reqs: seq<Req>) {
    forall r :: 0 <= r < |reqs| ==> RecordOk(reqs[r])
  }

  /** One step of one request: what its session is charged is what the request then holds or writes. */
  lemma AdvanceCharges(l: Limits, b: Bucket, q: Req, now: Time, fate: Fate, s: Id, f: Field)
    requires OwnRecord(q)
    ensures var m := Advance(l, b, q, now, fate);
      && |m.written| <= 1
      && Held(m.req, s, f) + Logged(m.written, s, f) - Held(q, s, f)
         == if q.session == s then Spent(m.bucket.usage, f) - Spent(b.usage, f) else 0
  {
    if q.pc.Auditing? { assert Logged([q.pc.rec][..0], s, f) == 0; }
  }

  ghost predicate LedgerOk(st: State, s: Id, f: Field) {
    SpentBy(st.buckets, s, f) == Logged(st.log, s, f) + Unwritten(st.reqs, s, f)
  }

  /** The bucket a step leaves behind; an untouched session keeps its usage. */
  lemma BucketMove(l: Limits, st: State, r: nat, now: Time, fate: Fate, s: Id)
    requires Enabled(st, Run(r, now, fate))
    ensures var q := st.reqs[r]; var b := BucketOf(st, q.session, now);
      && b.usage == UsageIn(st.buckets, q.session)
      && UsageIn(Apply(l, st, Run(r, now, fate)).buckets, s)
         == if q.session == s then Advance(l, b, q, now, fate).bucket.usage else UsageIn(st.buckets, s)
  {
  }

  lemma SpentMove(l: Limits, st: State, r: nat, now: Time, fate: Fate, s: Id, f: Field)
    requires Enabled(st, Run(r, now, fate))
    ensures var q := st.reqs[r]; var b := BucketOf(st, q.session, now);
      SpentBy(Apply(l, st, Run(r, now, fate)).buckets, s, f) - SpentBy(st.buckets, s, f)
      == if q.session == s then Spent(Advance(l, b, q, now, fate).bucket.usage, f) - Spent(b.usage, f) else 0
  {
  }

  lemma RecordsStep(l: Limits, st: State, e: Event)
    requires Enabled(st, e) && AllRecordsOk(st.reqs) && AllPriced(st.log)
    ensures AllRecordsOk(Apply(l, st, e).reqs) && AllPriced(Apply(l, st, e).log)
  {
  }

  lemma LedgerSum(st: State, st': State, r: nat, q: Req, written: seq<Record>, s: Id, f: Field)
    requires LedgerOk(st, s, f) && r < |st.reqs| && |written| <= 1
    requires st'.reqs == st.reqs[r := q] && st'.log == st.log + written
    requires SpentBy(st'.buckets, s, f) - SpentBy(st.buckets, s, f)
          == Held(q, s, f) + Logged(written, s, f) - Held(st.reqs[r], s, f)
    ensures LedgerOk(st', s, f)
  {
    UnwrittenUpdate(st.reqs, r, q, s, f);
    LoggedAppend(st.log, written, s, f);
  }

  lemma RunShape(l: Limits, st: State, r: nat, now: Time, fate: Fate)
    requires Enabled(st, Run(r, now, fate))
    ensures var st', m := Apply(l, st, Run(r, now, fate)), Advance(l, BucketOf(st, st.reqs[r].session, now), st.reqs[r], now, fate);
      st'.reqs == st.reqs[r := m.req] && st'.log == st.log + m.written
  {
  }

  lemma LedgerRun(l: Limits, st: State, st': State, r: nat, now: Time, fate: Fate, s: Id, f: Field)
    requires Enabled(st, Run(r, now, fate)) && st' == Apply(l, st, Run(r, now, fate))
    requires RecordOk(st.reqs[r]) && LedgerOk(st, s, f)
    ensures LedgerOk(st', s, f)
  {
    var q := st.reqs[r];
    var b := BucketOf(st, q.session, now);
    var m := Advance(l, b, q, now, fate);
    AdvanceCharges(l, b, q, now, fate, s, f);
    SpentMove(l, st, r, now, fate, s, f);
    RunShape(l, st, r, now, fate);
    LedgerSum(st, st', r, m.req, m.written, s, f);
  }

  lemma LedgerArrive(l: Limits, st: State, st': State, t: Id, s: Id, f: Field)
    requires st' == Apply(l, st, Arrive(t)) && LedgerOk(st, s, f)
    ensures LedgerOk(st', s, f)
  {
    UnwrittenAppend(st.reqs, Req(t, Arrived, false, 0, 0), s, f);
  }

  lemma LedgerFollows(l: Limits, st: State, st': State, s: Id, f: Field)
    requires Follows(l, st, st') && AllRecordsOk(st.reqs) && LedgerOk(st, s, f)
    ensures LedgerOk(st', s, f)
  {
    var e :| Enabled(st, e) && st' == Apply(l, st, e);
    if e.Arrive? {
      LedgerArrive(l, st, st', e.session, s, f);
    } else {
      LedgerRun(l, st, st', e.r, e.now, e.fate, s, f);
    }
  }

  lemma {:induction false} RunRecords(l: Limits, trace: seq<State>, i: nat)
    requires IsRun(l, trace) && i < |trace|
    ensures AllRecordsOk(trace[i].reqs) && AllPriced(trace[i].log)
  {
    if i > 0 {
      RunRecords(l, trace, i - 1);
      assert FollowsAt(l, trace, i);
      var e :| Enabled(trace[i - 1], e) && trace[i] == Apply(l, trace[i - 1], e);
      RecordsStep(l, trace[i - 1], e);
    }
  }

  lemma {:induction false} RunLedger(l: Limits, trace: seq<State>, i: nat, s: Id, f: Field)
    requires IsRun(l, trace) && i < |trace|
    ensures LedgerOk(trace[i], s, f)
  {
    if i > 0 {
      RunLedger(l, trace, i - 1, s, f);
      RunRecords(l, trace, i - 1);
      assert FollowsAt(l, trace, i);
      LedgerFollows(l, trace[i - 1], trace[i], s, f);
    }
  }

  /** No request of session `s` holds a record it has not written. */
  ghost predicate AllWritten(reqs: seq<Req>, s: Id) {
    forall r :: 0 <= r < |reqs| && reqs[r].session == s ==> !reqs[r].pc.Auditing?
  }

  lemma {:induction false} NothingHeld(reqs: seq<Req>, s: Id, f: Field)
    requires AllRecordsOk(reqs) && AllWritten(reqs, s)
    ensures Unwritten(reqs, s, f) == 0
  {
    if reqs != [] {
      var n := |reqs| - 1;
      assert RecordOk(reqs[n]);
      NothingHeld(reqs[..n], s, f);
    }
  }

  /**
   The audit log and the quota ledger agree: in every state of every run in which the records of a session
   are all written, the tokens summed over its records are its committed usage, and the summed cost is the
   cost of that usage.
   */
  lemma LogMatchesLedger(l: Limits, trace: seq<State>, i: nat, s: Id)
    requires IsRun(l, trace) && i < |trace| && AllWritten(trace[i].reqs, s)
    ensures var u := UsageIn(trace[i].buckets, s);
      && Logged(trace[i].log, s, In) == u.tokensIn
      && Logged(trace[i].log, s, Out) == u.tokensOut
      && LoggedCost(trace[i].log, s) == 3 * u.tokensIn + 15 * u.tokensOut
  {
    RunRecords(l, trace, i);
    CostOfTokens(trace[i].log, s);
    forall f: Field ensures Logged(trace[i].log, s, f) == SpentBy(trace[i].buckets, s, f) {
      RunLedger(l, trace, i, s, f);
      RunRecords(l, trace, i);
      NothingHeld(trace[i].reqs, s, f);
    }
  }

  // --- how far the caps can be overshot ---

  predicate OpenFor(q: Req, s: Id) {
    q.session == s && Open(q.pc)
  }

  /** Open reservations of session `s`. */
  function Opened(reqs: seq<Req>, s: Id): nat {
    if reqs == [] then 0 else Opened(reqs[..|reqs| - 1], s) + Bit(OpenFor(reqs[|reqs| - 1], s))
  }

  lemma OpenedAppend(reqs: seq<Req>, q: Req, s: Id)
    ensures Opened(reqs + [q], s) == Opened(reqs, s) + Bit(OpenFor(q, s))
  {
    assert (reqs + [q])[..|reqs|] == reqs;
  }

  lemma {:induction false} OpenedUpdate(reqs: seq<Req>, r: nat, q: Req, s: Id)
    requires r < |reqs|
    ensures Opened(reqs[r := q], s) + Bit(OpenFor(reqs[r], s)) == Opened(reqs, s) + Bit(OpenFor(q, s))
  {
    var n := |reqs| - 1;
    if r == n {
      assert reqs[r := q][..n] == reqs[..n];
    } else {
      OpenedUpdate(reqs[..n], r, q, s);
      assert reqs[r := q][..n] == reqs[..n][r := q];
    }
  }

  /** A count `x` under the cap `max`, when each of `n` open reservations may still add `t` and at most `k` are open. */
  predicate Under(x: int, max: int, n: nat, k: nat, t: nat) {
    0 <= x && x + n * t <= Max(0, max - 1 + k * t)
  }

  lemma UnderGrant(x: int, max: int, n: nat, k: nat, t: nat)
    requires 0 <= x < max && n + 1 <= k
    ensures Under(x, max, n + 1, k, t)
  {
    Monotone(n + 1, k, t);
  }

  lemma Monotone(a: nat, b: nat, t: nat)
    requires a <= b
    ensures a * t <= b * t
  {
  }

  lemma UnderSettle(x: int, dx: nat, max: int, n: nat, k: nat, t: nat)
    requires Under(x, max, n, k, t) && n > 0 && dx <= t
    ensures Under(x + dx, max, n - 1, k, t)
  {
    assert n * t == (n - 1) * t + t;
  }

  predicate CapOk(l: Limits, u: Usage, n: nat, k: nat, t: nat) {
    && Under(u.requests, l.maxRequests, n, k, 1)
    && Under(u.tokensIn, l.maxTokensIn, n, k, t)
    && Under(u.tokensOut, l.maxTokensOut, n, k, t)
  }

  /** A response of at most `t` tokens of each kind. */
  predicate Small(q: Req, t: nat) {
    q.pc.Committing? ==> q.pc.tokensIn <= t && q.pc.tokensOut <= t
  }

  /** No more than `t` tokens of each kind for each request charged. */
  predicate PerRequest(u: Usage, t: nat) {
    u.requests >= 0 && u.tokensIn <= u.requests * t && u.tokensOut <= u.requests * t
  }

  lemma OneRequestMore(x: int, dx: nat, n: nat, t: nat)
    requires x <= n * t && dx <= t
    ensures x + dx <= (n + 1) * t
  {
    assert (n + 1) * t == n * t + t;
  }

  lemma AdvancePerRequest(l: Limits, b: Bucket, q: Req, now: Time, fate: Fate, t: nat)
    requires PerRequest(b.usage, t) && Small(q, t)
    ensures PerRequest(Advance(l, b, q, now, fate).bucket.usage, t)
  {
    if q.pc.Committing? {
      OneRequestMore(b.usage.tokensIn, q.pc.tokensIn, b.usage.requests, t);
      OneRequestMore(b.usage.tokensOut, q.pc.tokensOut, b.usage.requests, t);
    }
  }

  lemma AdvanceUnder(l: Limits, b: Bucket, q: Req, now: Time, fate: Fate, n: nat, k: nat, t: nat)
    requires CapOk(l, b.usage, n, k, t) && Small(q, t) && (Open(q.pc) ==> n > 0)
    requires var n' := n + Bit(Open(Advance(l, b, q, now, fate).req.pc)) - Bit(Open(q.pc)); 0 <= n' <= k
    ensures var m := Advance(l, b, q, now, fate);
      CapOk(l, m.bucket.usage, n + Bit(Open(m.req.pc)) - Bit(Open(q.pc)), k, t)
  {
    var u := b.usage;
    match q.pc
    case Arrived =>
      if Reserve(l, b, now).1.Granted? {
        UnderGrant(u.requests, l.maxRequests, n, k, 1);
        UnderGrant(u.tokensIn, l.maxTokensIn, n, k, t);
        UnderGrant(u.tokensOut, l.maxTokensOut, n, k, t);
      }
    case Refunding(_) =>
      UnderSettle(u.requests, 0, l.maxRequests, n, k, 1);
      UnderSettle(u.tokensIn, 0, l.maxTokensIn, n, k, t);
      UnderSettle(u.tokensOut, 0, l.maxTokensOut, n, k, t);
    case Committing(i, o, _) =>
      UnderSettle(u.requests, 1, l.maxRequests, n, k, 1);
      UnderSettle(u.tokensIn, i, l.maxTokensIn, n, k, t);
      UnderSettle(u.tokensOut, o, l.maxTokensOut, n, k, t);
    case _ =>
  }

  /** At most `k` open reservations of session `s`, and its responses of at most `t` tokens of each kind. */
  ghost predicate Bounded(st: State, s: Id, k: nat, t: nat) {
    && Opened(st.reqs, s) <= k
    && forall r :: 0 <= r < |st.reqs| && st.reqs[r].session == s ==> Small(st.reqs[r], t)
  }

  ghost predicate StateCapOk(l: Limits, st: State, s: Id, k: nat, t: nat) {
    CapOk(l, UsageIn(st.buckets, s), Opened(st.reqs, s), k, t) && PerRequest(UsageIn(st.buckets, s), t)
  }

  lemma OpenCounts(reqs: seq<Req>, r: nat, s: Id)
    requires r < |reqs| && OpenFor(reqs[r], s)
    ensures Opened(reqs, s) > 0
  {
    OpenedUpdate(reqs, r, reqs[r].(pc := Done), s);
  }

  lemma OpenedMove(l: Limits, st: State, r: nat, now: Time, fate: Fate, s: Id)
    requires Enabled(st, Run(r, now, fate))
    ensures var q := st.reqs[r]; var q' := Advance(l, BucketOf(st, q.session, now), q, now, fate).req;
      && q'.session == q.session
      && Opened(Apply(l, st, Run(r, now, fate)).reqs, s) + Bit(OpenFor(q, s)) == Opened(st.reqs, s) + Bit(OpenFor(q', s))
  {
    var q := st.reqs[r];
    OpenedUpdate(st.reqs, r, Advance(l, BucketOf(st, q.session, now), q, now, fate).req, s);
  }

  lemma CapArrive(l: Limits, st: State, st': State, a: Id, s: Id, k: nat, t: nat)
    requires StateCapOk(l, st, s, k, t) && st' == Apply(l, st, Arrive(a))
    ensures StateCapOk(l, st', s, k, t)
  {
    OpenedAppend(st.reqs, Req(a, Arrived, false, 0, 0), s);
  }

  lemma CapRun(l: Limits, st: State, st': State, r: nat, now: Time, fate: Fate, s: Id, k: nat, t: nat)
    requires Enabled(st, Run(r, now, fate)) && st' == Apply(l, st, Run(r, now, fate)) && StateCapOk(l, st, s, k, t)
    requires st.reqs[r].session == s ==> Small(st.reqs[r], t)
    requires Opened(st'.reqs, s) <= k
    ensures StateCapOk(l, st', s, k, t)
  {
    var q := st.reqs[r];
    var b := BucketOf(st, q.session, now);
    OpenedMove(l, st, r, now, fate, s);
    BucketMove(l, st, r, now, fate, s);
    if OpenFor(q, s) { OpenCounts(st.reqs, r, s); }
    if q.session == s {
      AdvanceUnder(l, b, q, now, fate, Opened(st.reqs, s), k, t);
      AdvancePerRequest(l, b, q, now, fate, t);
    }
  }

  lemma CapFollows(l: Limits, st: State, st': State, s: Id, k: nat, t: nat)
    requires Follows(l, st, st') && StateCapOk(l, st, s, k, t) && Bounded(st, s, k, t) && Bounded(st', s, k, t)
    ensures StateCapOk(l, st', s, k, t)
  {
    var e :| Enabled(st, e) && st' == Apply(l, st, e);
    if e.Arrive? {
      CapArrive(l, st, st', e.session, s, k, t);
    } else {
      CapRun(l, st, st', e.r, e.now, e.fate, s, k, t);
    }
  }

  lemma {:induction false} RunCap(l: Limits, trace: seq<State>, i: nat, s: Id, k: nat, t: nat)
    requires IsRun(l, trace) && i < |trace|
    requires forall j :: 0 <= j <= i ==> Bounded(trace[j], s, k, t)
    ensures StateCapOk(l, trace[i], s, k, t)
  {
    if i > 0 {
      RunCap(l, trace, i - 1, s, k, t);
      assert FollowsAt(l, trace, i);
      assert Bounded(trace[i - 1], s, k, t) && Bounded(trace[i], s, k, t);
      CapFollows(l, trace[i - 1], trace[i], s, k, t);
    }
  }

  /**
   The caps are checked before a request and charged after it, so they can be passed. With at most `k` open
   reservations of the session at any time and at most `t` tokens of each kind in its responses, they are passed by
   at most k - 1 requests and by less than k * t tokens, and no request is charged more than `t` tokens of a kind.
   */
  lemma CapOvershoot(l: Limits, trace: seq<State>, i: nat, s: Id, k: nat, t: nat)
    requires IsRun(l, trace) && i < |trace|
    requires forall j :: 0 <= j <= i ==> Bounded(trace[j], s, k, t)
    ensures var u := UsageIn(trace[i].buckets, s);
      && 0 <= u.requests <= Max(0, l.maxRequests - 1 + k)
      && 0 <= u.tokensIn <= Min(u.requests * t, Max(0, l.maxTokensIn - 1 + k * t))
      && 0 <= u.tokensOut <= Min(u.requests * t, Max(0, l.maxTokensOut - 1 + k * t))
  {
    RunCap(l, trace, i, s, k, t);
  }

  // --- limits that admit nothing ---

  predicate Positive(l: Limits) {
    Admits(l) && l.maxRequestsPerMinute > 0
  }

  predicate Unused(b: Bucket) {
    b.usage.tokensIn == b.usage.tokensOut == b.usage.requests == b.windowCount == 0
  }

  /** Nothing was ever reserved. */
  ghost predicate NothingReserved(st: State) {
    && (forall r :: 0 <= r < |st.reqs| ==> !Open(st.reqs[r].pc))
    && (forall s :: s in st.buckets ==> Unused(st.buckets[s]))
  }

  lemma AdvanceUnused(l: Limits, b: Bucket, q: Req, now: Time, fate: Fate)
    requires !Positive(l) && Unused(b) && !Open(q.pc)
    ensures var m := Advance(l, b, q, now, fate); Unused(m.bucket) && !Open(m.req.pc)
  {
  }

  lemma NothingFollows(l: Limits, st: State, st': State)
    requires !Positive(l) && NothingReserved(st) && Follows(l, st, st')
    ensures NothingReserved(st')
  {
    var e :| Enabled(st, e) && st' == Apply(l, st, e);
    if e.Run? { AdvanceUnused(l, BucketOf(st, st.reqs[e.r].session, e.now), st.reqs[e.r], e.now, e.fate); }
  }

  /** With a limit that is not positive nothing is ever granted, so nothing is ever charged. */
  lemma {:induction false} NeverCharged(l: Limits, trace: seq<State>, i: nat)
    requires !Positive(l) && IsRun(l, trace) && i < |trace|
    ensures NothingReserved(trace[i])
  {
    if i > 0 {
      NeverCharged(l, trace, i - 1);
      assert FollowsAt(l, trace, i);
      NothingFollows(l, trace[i - 1], trace[i]);
    }
  }

  // --- one request handled on its own ---

  /** audit.InMemorySink. */
  class Sink {
    var records: seq<Record>

    constructor ()
      ensures records == []
    {
      records := [];
    }

    method Write(rec: Record)
      modifies this
      ensures records == old(records) + [rec]
    {
      records := records + [rec];
    }
  }

  /** Every step of one request, with no other request between them. */
  function Alone(l: Limits, b: Bucket, q: Req, reserved: Time, settled: Time, fate: Fate): Move
    decreases Remaining(q.pc)
  {
    if q.pc.Done? then Move(b, q, []) else
      var m := Advance(l, b, q, if q.pc.Arrived? then reserved else settled, fate);
      var rest := Alone(l, m.bucket, m.req, reserved, settled, fate);
      Move(rest.bucket, rest.req, m.written + rest.written)
  }

  function Remaining(pc: Pc): nat {
    match pc
    case Arrived => 5
    case Reserved => 4
    case Refunding(_) => 3
    case Committing(_, _, _) => 3
    case Auditing(_) => 2
    case Done => 0
  }

  lemma AloneSettles(l: Limits, b: Bucket, session: Id, reserved: Time, settled: Time, fate: Fate)
    ensures var (b', v) := Reserve(l, b, reserved);
      var m := Alone(l, b, Req(session, Arrived, false, 0, 0), reserved, settled, fate);
      && m.req.pc.Done? && ReqOk(m.req) && m.req.reserved == v.Granted?
      && m.bucket == (if v.Refused? then b' else if fate.Answered? then Commit(b', fate.tokensIn, fate.tokensOut) else Refund(b'))
      && m.written == if v.Refused? then [Record(session, 0, 0, 0, 429)]
                      else match fate
                        case BodyError => []
                        case BuildError => []
                        case Unreachable => [Record(session, 0, 0, 0, 502)]
                        case Answered(i, o, status) => [Record(session, i, o, Cost(i, o), status)]
  {
    var m1 := Advance(l, b, Req(session, Arrived, false, 0, 0), reserved, fate);
    var m2 := Advance(l, m1.bucket, m1.req, settled, fate);
    var m3 := Advance(l, m2.bucket, m2.req, settled, fate);
    var m4 := Advance(l, m3.bucket, m3.req, settled, fate);
    assert Alone(l, m4.bucket, m4.req, reserved, settled, fate) == Move(m4.bucket, m4.req, []);
    var a3 := Alone(l, m3.bucket, m3.req, reserved, settled, fate);
    var a2 := Alone(l, m2.bucket, m2.req, reserved, settled, fate);
    var a1 := Alone(l, m1.bucket, m1.req, reserved, settled, fate);
    assert a3.bucket == m4.bucket && a3.req == m4.req && a3.written == m4.written;
    assert a2.bucket == m4.bucket && a2.req == m4.req && a2.written == m3.written + m4.written;
  }

  /** handleForward: without a token or a key nothing is reserved, charged or logged. */
  method HandleForward(pool: Keys.Pool, quota: Manager, sink: Sink, token: Option<Id>, reserved: Time, settled: Time,
                       fate: Fate)
      returns (status: int)
    modifies quota, sink
    ensures token.None? ==> status == 401
    ensures token.Some? && Keys.Resolve(pool.Abs(), token.value).Err? ==>
      status == if token.value in pool.Abs().tokens then 503 else 401
    ensures token.None? || Keys.Resolve(pool.Abs(), token.value).Err? ==> unchanged(quota) && unchanged(sink)
    ensures token.Some? && Keys.Resolve(pool.Abs(), token.value).Ok? ==>
      var m := Alone(quota.limits, old(quota.BucketAt(token.value, reserved)), Req(token.value, Arrived, false, 0, 0),
                     reserved, settled, fate);
      && m.req.pc.Done? && ReqOk(m.req)
      && quota.buckets == old(quota.buckets)[token.value := m.bucket]
      && sink.records == old(sink.records) + m.written
      && (!m.req.reserved ==> status == 429)
      && (m.req.reserved ==> match fate
                             case BodyError => status == 400
                             case BuildError => status == 500
                             case Unreachable => status == 502
                             case Answered(_, _, upstream) => status == upstream)
      && (m.written != [] ==> m.written[0].session == token.value && m.written[0].status == status)
  {
    if token.None? {
      return 401;
    }
    var session := token.value;
    var secret := pool.SecretForSession(session);
    if secret.Err? {
      return if secret.error == Keys.UnknownSession then 401 else if secret.error == Keys.KeyRevoked then 503 else 500;
    }
    AloneSettles(quota.limits, quota.BucketAt(session, reserved), session, reserved, settled, fate);
    var v := quota.TryReserve(session, reserved);
    if v.Refused? {
      sink.Write(Record(session, 0, 0, 0, 429));
      return 429;
    }
    match fate
    case BodyError =>
      quota.RefundSlot(session, settled);
      status := 400;
    case BuildError =>
      quota.RefundSlot(session, settled);
      status := 500;
    case Unreachable =>
      quota.RefundSlot(session, settled);
      sink.Write(Record(session, 0, 0, 0, 502));
      status := 502;
    case Answered(i, o, upstream) =>
      quota.CommitUsage(session, settled, i, o);
      sink.Write(Record(session, i, o, Cost(i, o), upstream));
      status := upstream;
  }
}
