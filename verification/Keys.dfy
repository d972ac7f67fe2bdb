/** The proxy's pool of upstream keys (proxy/internal/keys/keys.go). */
module Keys {
  import opened Common

  datatype Key = Key(id: string, secret: string)

  datatype Error = EmptyPool | NoRandomness | UnknownSession | KeyRevoked

  /** keys, sessionToKey, keyBySecret (which is keyed by id) and rr. */
  datatype State = State(keys: seq<Key>, tokens: map<Id, string>, byId: map<string, Key>, rr: nat)

  /** The index Replace builds: a repeated id belongs to its last entry. */
  function Index(keys: seq<Key>): map<string, Key> {
    if keys == [] then map[] else
      var k := keys[|keys| - 1];
      Index(keys[..|keys| - 1])[k.id := k]
  }

  predicate Valid(st: State) {
    st.byId == Index(st.keys)
  }

  function Replaced(st: State, next: seq<Key>): State {
    st.(keys := next, byId := Index(next))
  }

  /** The next slot in the round. */
  function Slot(st: State): nat
    requires st.keys != []
  {
    st.rr % |st.keys|
  }

  /** MintSessionToken and RegisterSessionToken: the token goes to the key in the next slot. */
  function Assigned(st: State, token: Id): State {
    if st.keys == [] then st
    else st.(rr := st.rr + 1, tokens := st.tokens[token := st.keys[Slot(st)].id])
  }

  function Revoked(st: State, token: Id): State {
    st.(tokens := st.tokens - {token})
  }

  /** SecretForSession: the secret and the key id. */
  function Resolve(st: State, token: Id): Result<(string, string), Error> {
    if token !in st.tokens then Err(UnknownSession)
    else if st.tokens[token] !in st.byId then Err(KeyRevoked)
    else Ok((st.byId[st.tokens[token]].secret, st.tokens[token]))
  }

  datatype Op = Replace(keys: seq<Key>) | Assign(token: Id) | Revoke(token: Id)

  function Do(st: State, op: Op): State {
    match op
    case Replace(keys) => Replaced(st, keys)
    case Assign(token) => Assigned(st, token)
    case Revoke(token) => Revoked(st, token)
  }

  function After(st: State, ops: seq<Op>): State {
    if ops == [] then st else Do(After(st, ops[..|ops| - 1]), ops[|ops| - 1])
  }

  // --- the index ---

  /** Entry i is the last with its id. */
  ghost predicate LastWithId(keys: seq<Key>, i: nat) {
    i < |keys| && forall j :: i < j < |keys| ==> keys[j].id != keys[i].id
  }

  lemma {:induction false} IndexHoldsLast(keys: seq<Key>, i: nat)
    requires LastWithId(keys, i)
    ensures keys[i].id in Index(keys) && Index(keys)[keys[i].id] == keys[i]
  {
    var n := |keys| - 1;
    if i < n {
      assert keys[n].id != keys[i].id;
      IndexHoldsLast(keys[..n], i);
    }
  }

  /** An indexed id has a last entry. */
  lemma {:induction false} IndexedHasLast(keys: seq<Key>, id: string) returns (i: nat)
    requires id in Index(keys)
    ensures LastWithId(keys, i) && keys[i].id == id
  {
    var n := |keys| - 1;
    if keys[n].id == id {
      i := n;
    } else {
      i := IndexedHasLast(keys[..n], id);
    }
  }

  lemma {:induction false} RunValid(st: State, ops: seq<Op>)
    requires Valid(st)
    ensures Valid(After(st, ops))
  {
    if ops != [] { RunValid(st, ops[..|ops| - 1]); }
  }

  // --- stability ---

  predicate Untouched(ops: seq<Op>, token: Id) {
    forall i :: 0 <= i < |ops| ==> ops[i] != Assign(token) && ops[i] != Revoke(token)
  }

  /** A token that is neither revoked nor assigned again keeps its key id through any rotations. */
  lemma {:induction false} TokenIsStable(st: State, ops: seq<Op>, token: Id)
    requires token in st.tokens && Untouched(ops, token)
    ensures token in After(st, ops).tokens && After(st, ops).tokens[token] == st.tokens[token]
  {
    if ops != [] {
      var n := |ops| - 1;
      TokenIsStable(st, ops[..n], token);
    }
  }

  /** The pool last put in place. */
  function Latest(st: State, ops: seq<Op>): seq<Key> {
    if ops == [] then st.keys
    else if ops[|ops| - 1].Replace? then ops[|ops| - 1].keys
    else Latest(st, ops[..|ops| - 1])
  }

  lemma {:induction false} LatestIsKeys(st: State, ops: seq<Op>)
    ensures After(st, ops).keys == Latest(st, ops)
  {
    if ops != [] { LatestIsKeys(st, ops[..|ops| - 1]); }
  }

  /**
   After any calls that leave the token alone it resolves exactly when the latest pool holds its key id, and then to
   the last entry with that id; otherwise the error says that the key is gone.
   */
  lemma ResolvesIff(st: State, ops: seq<Op>, token: Id)
    requires Valid(st) && token in st.tokens && Untouched(ops, token)
    ensures var id, pool, r := st.tokens[token], Latest(st, ops), Resolve(After(st, ops), token);
      && (r.Ok? <==> exists i :: 0 <= i < |pool| && pool[i].id == id)
      && (r.Err? ==> r.error == KeyRevoked)
      && (forall i: nat :: LastWithId(pool, i) && pool[i].id == id ==> r == Ok((pool[i].secret, id)))
  {
    RunValid(st, ops);
    TokenIsStable(st, ops, token);
    LatestIsKeys(st, ops);
    IndexMeans(Latest(st, ops), st.tokens[token]);
  }

  lemma IndexMeans(pool: seq<Key>, id: string)
    ensures id in Index(pool) <==> exists i :: 0 <= i < |pool| && pool[i].id == id
    ensures forall i: nat :: LastWithId(pool, i) && pool[i].id == id ==> id in Index(pool) && Index(pool)[id] == pool[i]
  {
    if id in Index(pool) {
      var i := IndexedHasLast(pool, id);
      assert pool[i].id == id;
    }
    forall i | 0 <= i < |pool| && pool[i].id == id ensures id in Index(pool) { Indexed(pool, i); }
    forall i: nat | LastWithId(pool, i) && pool[i].id == id ensures id in Index(pool) && Index(pool)[id] == pool[i] {
      IndexHoldsLast(pool, i);
    }
  }

  lemma {:induction false} Indexed(keys: seq<Key>, i: nat)
    requires i < |keys|
    ensures keys[i].id in Index(keys)
  {
    if i < |keys| - 1 { Indexed(keys[..|keys| - 1], i); }
  }

  // --- fairness ---

  /** How many of the m numbers from r on fall on slot j of n. */
  function Hits(r: nat, m: nat, n: nat, j: nat): nat
    requires n > 0
  {
    if m == 0 then 0 else Hits(r, m - 1, n, j) + Bit((r + m - 1) % n == j)
  }

  lemma {:induction false} HitsSplit(r: nat, a: nat, b: nat, n: nat, j: nat)
    requires n > 0
    ensures Hits(r, a + b, n, j) == Hits(r, a, n, j) + Hits(r + a, b, n, j)
  {
    if b > 0 { HitsSplit(r, a, b - 1, n, j); }
  }

  lemma NoMultipleBetween(n: int, d: int)
    requires n > 0
    ensures -n < n * d < n ==> d == 0
  {
    assert d >= 1 ==> n * d >= n;
    assert d <= -1 ==> n * d <= -n;
  }

  lemma SameSlot(x: nat, y: nat, n: nat)
    requires n > 0 && x <= y < x + n && x % n == y % n
    ensures x == y
  {
    var d := y / n - x / n;
    assert n * (y / n) - n * (x / n) == y - x;
    NoMultipleBetween(n, d);
  }

  /** Within one round a slot is hit at most once, and not at all once it was the number before. */
  lemma {:induction false} NoHit(r: nat, m: nat, n: nat, x: nat)
    requires n > 0 && x < r && r + m <= x + n
    ensures Hits(r, m, n, x % n) == 0
  {
    if m > 0 {
      NoHit(r, m - 1, n, x);
      if (r + m - 1) % n == x % n { SameSlot(x, r + m - 1, n); }
    }
  }

  lemma {:induction false} PartRound(r: nat, m: nat, n: nat, j: nat)
    requires n > 0 && m <= n
    ensures Hits(r, m, n, j) <= 1
    decreases m
  {
    if m > 0 {
      HitsSplit(r, 1, m - 1, n, j);
      assert Hits(r, 1, n, j) == Bit(r % n == j);
      if r % n == j {
        NoHit(r + 1, m - 1, n, r);
      } else {
        PartRound(r + 1, m - 1, n, j);
      }
    }
  }

  lemma FullRound(r: nat, n: nat, j: nat)
    requires j < n
    ensures Hits(r, n, n, j) == 1
  {
    PartRound(r, n, n, j);
    var d := (j + n - r % n) % n;
    ReachSlot(r, n, j, d);
    HitsSplit(r, d, n - d, n, j);
    HitsSplit(r + d, 1, n - d - 1, n, j);
    assert Hits(r + d, 1, n, j) == Bit((r + d) % n == j);
  }

  lemma ReachSlot(r: nat, n: nat, j: nat, d: nat)
    requires j < n && d == (j + n - r % n) % n
    ensures d < n && (r + d) % n == j
  {
    var p, q := r % n, r / n;
    assert r == n * q + p;
    if j >= p {
      assert j + n - p == (j - p) + n;
      ModUnique(j + n - p, 1, j - p, n);
      ModUnique(r + d, q, j, n);
    } else {
      ModUnique(j + n - p, 0, j + n - p, n);
      assert r + d == n * (q + 1) + j;
      ModUnique(r + d, q + 1, j, n);
    }
  }

  lemma ModUnique(x: int, q: int, p: int, n: int)
    requires n > 0 && 0 <= p < n && x == n * q + p
    ensures x % n == p
  {
    var d := x / n - q;
    assert n * (x / n) - n * q == p - x % n;
    NoMultipleBetween(n, d);
  }

  /** Floor(m / n) and Ceil(m / n), as loops of full rounds. */
  lemma {:induction false} HitsAreEven(r: nat, m: nat, n: nat, j: nat)
    requires j < n
    ensures m / n <= Hits(r, m, n, j) <= (m + n - 1) / n
    decreases m
  {
    if m < n {
      PartRound(r, m, n, j);
      ShortRound(m, n);
    } else {
      HitsSplit(r, n, m - n, n, j);
      FullRound(r, n, j);
      HitsAreEven(r + n, m - n, n, j);
      OneRoundMore(m - n, n);
      OneRoundMore(m - 1, n);
    }
  }

  lemma ShortRound(m: nat, n: nat)
    requires m < n
    ensures m / n == 0 && (m + n - 1) / n == if m == 0 then 0 else 1
  {
    if m > 0 { OneRoundMore(m - 1, n); }
  }

  lemma OneRoundMore(x: nat, n: nat)
    requires n > 0
    ensures (x + n) / n == x / n + 1
  {
    var d := (x + n) / n - x / n - 1;
    assert n * ((x + n) / n) - n * (x / n) == n + x % n - (x + n) % n;
    NoMultipleBetween(n, d);
  }

  // --- fairness of calls ---

  predicate NoRotation(ops: seq<Op>) {
    forall i :: 0 <= i < |ops| ==> !ops[i].Replace?
  }

  function Assigns(ops: seq<Op>): nat {
    if ops == [] then 0 else Assigns(ops[..|ops| - 1]) + Bit(ops[|ops| - 1].Assign?)
  }

  /** Assignments that go to slot j. */
  function ToSlot(st: State, ops: seq<Op>, j: nat): nat {
    if ops == [] then 0 else
      var before := After(st, ops[..|ops| - 1]);
      ToSlot(st, ops[..|ops| - 1], j) + Bit(ops[|ops| - 1].Assign? && before.keys != [] && Slot(before) == j)
  }

  lemma {:induction false} SlotsAreHits(st: State, ops: seq<Op>, j: nat)
    requires st.keys != [] && NoRotation(ops)
    ensures After(st, ops).keys == st.keys && After(st, ops).rr == st.rr + Assigns(ops)
    ensures ToSlot(st, ops, j) == Hits(st.rr, Assigns(ops), |st.keys|, j)
  {
    if ops != [] {
      var n := |ops| - 1;
      assert !ops[n].Replace?;
      SlotsAreHits(st, ops[..n], j);
    }
  }

  /** Between rotations the next token goes to the key whose turn it is. */
  lemma NextKey(st: State, ops: seq<Op>, token: Id)
    requires st.keys != [] && NoRotation(ops)
    ensures var tokens := After(st, ops + [Assign(token)]).tokens;
      token in tokens && tokens[token] == st.keys[(st.rr + Assigns(ops)) % |st.keys|].id
  {
    SlotsAreHits(st, ops, 0);
    OneMore(st, ops, Assign(token));
    AssignedTo(After(st, ops), token);
  }

  lemma AssignedTo(st: State, token: Id)
    requires st.keys != []
    ensures token in Assigned(st, token).tokens && Assigned(st, token).tokens[token] == st.keys[st.rr % |st.keys|].id
  {
  }

  lemma OneMore(st: State, ops: seq<Op>, op: Op)
    ensures After(st, ops + [op]) == Do(After(st, ops), op)
  {
    assert (ops + [op])[..|ops|] == ops;
  }

  /** The tokens assigned. */
  function Tokens(ops: seq<Op>): set<Id> {
    if ops == [] then {} else
      Tokens(ops[..|ops| - 1]) + if ops[|ops| - 1].Assign? then {ops[|ops| - 1].token} else {}
  }

  /** No token is assigned twice, and none is revoked once it was assigned. */
  predicate Lasting(ops: seq<Op>) {
    ops != [] ==>
      && Lasting(ops[..|ops| - 1])
      && (!ops[|ops| - 1].Replace? ==> ops[|ops| - 1].token !in Tokens(ops[..|ops| - 1]))
  }

  /** Those of the tokens `ts` that a state maps to this key. */
  function Holders(st: State, ts: set<Id>, id: string): set<Id> {
    set t | t in ts && t in st.tokens && st.tokens[t] == id
  }

  ghost predicate DistinctIds(keys: seq<Key>) {
    forall i, j :: 0 <= i < j < |keys| ==> keys[i].id != keys[j].id
  }

  lemma HoldersAssign(st: State, st': State, ts: set<Id>, token: Id, id: string)
    requires token in st'.tokens && st'.tokens == st.tokens[token := st'.tokens[token]] && token !in ts
    ensures |Holders(st', ts + {token}, id)| == |Holders(st, ts, id)| + Bit(st'.tokens[token] == id)
  {
    var h := Holders(st, ts, id);
    assert Holders(st', ts + {token}, id) == if st'.tokens[token] == id then h + {token} else h;
  }

  lemma HoldersRevoke(st: State, ts: set<Id>, token: Id, id: string)
    requires token !in ts
    ensures Holders(Revoked(st, token), ts, id) == Holders(st, ts, id)
  {
  }

  lemma {:induction false} HoldersAreHits(st: State, ops: seq<Op>, j: nat)
    requires NoRotation(ops) && Lasting(ops) && DistinctIds(st.keys) && j < |st.keys|
    ensures |Holders(After(st, ops), Tokens(ops), st.keys[j].id)| == ToSlot(st, ops, j)
  {
    if ops != [] {
      var n := |ops| - 1;
      var before, ts := After(st, ops[..n]), Tokens(ops[..n]);
      HoldersAreHits(st, ops[..n], j);
      SlotsAreHits(st, ops[..n], j);
      assert !ops[n].Replace?;
      if ops[n].Assign? {
        HoldersAssign(before, After(st, ops), ts, ops[n].token, st.keys[j].id);
      } else {
        HoldersRevoke(before, ts, ops[n].token, st.keys[j].id);
        assert Tokens(ops) == ts;
      }
    }
  }

  /**
   Between rotations every key receives the floor or the ceiling of its even share of the tokens: among tokens that are
   assigned once and not revoked, as many map to it.
   */
  lemma Fairness(st: State, ops: seq<Op>, j: nat)
    requires NoRotation(ops) && Lasting(ops) && DistinctIds(st.keys) && j < |st.keys|
    ensures var held := |Holders(After(st, ops), Tokens(ops), st.keys[j].id)|;
      Assigns(ops) / |st.keys| <= held <= (Assigns(ops) + |st.keys| - 1) / |st.keys|
  {
    HoldersAreHits(st, ops, j);
    SlotsAreHits(st, ops, j);
    HitsAreEven(st.rr, Assigns(ops), |st.keys|, j);
  }

  /** A revoked token stays unknown until it is assigned again. */
  lemma {:induction false} RevokedIsUnknown(st: State, ops: seq<Op>, i: nat, token: Id)
    requires i < |ops| && ops[i] == Revoke(token) && forall j :: i < j < |ops| ==> ops[j] != Assign(token)
    ensures Resolve(After(st, ops), token) == Err(UnknownSession)
  {
    if i < |ops| - 1 { RevokedIsUnknown(st, ops[..|ops| - 1], i, token); }
  }

  // --- the pool ---

  class Pool {
    var keys: seq<Key>
    var sessionToKey: map<Id, string>
    var keyById: map<string, Key>
    var rr: nat

    ghost function Abs(): State
      reads this
    {
      State(keys, sessionToKey, keyById, rr)
    }

    constructor (initial: seq<Key>)
      ensures Valid(Abs()) && Abs() == State(initial, map[], Index(initial), 0)
    {
      keys, sessionToKey, keyById, rr := [], map[], map[], 0;
      new;
      ReplaceAll(initial);
    }

    method ReplaceAll(next: seq<Key>)
      modifies this
      ensures Abs() == Replaced(old(Abs()), next)
    {
      keys := next;
      keyById := map[];
      for i := 0 to |next|
        invariant keyById == Index(next[..i])
        invariant keys == next && sessionToKey == old(sessionToKey) && rr == old(rr)
      {
        assert next[..i + 1][..i] == next[..i];
        keyById := keyById[next[i].id := next[i]];
      }
      assert next[..|next|] == next;
    }

    /** `random` is what the random source gives, if it does not fail. */
    method MintSessionToken(random: Option<Id>) returns (r: Result<Id, Error>)
      modifies this
      ensures r == (if old(keys) == [] then Err(EmptyPool) else if random.None? then Err(NoRandomness) else Ok(random.value))
      ensures Abs() == if r.Ok? then Assigned(old(Abs()), r.value) else old(Abs())
      ensures r.Ok? ==> sessionToKey == old(sessionToKey)[r.value := old(keys)[old(rr) % |old(keys)|].id]
    {
      if |keys| == 0 {
        return Err(EmptyPool);
      }
      if random.None? {
        return Err(NoRandomness);
      }
      var key := keys[rr % |keys|];
      rr := rr + 1;
      sessionToKey := sessionToKey[random.value := key.id];
      return Ok(random.value);
    }

    method RegisterSessionToken(token: Id) returns (r: Result<(), Error>)
      modifies this
      ensures r == (if old(keys) == [] then Err(EmptyPool) else Ok(()))
      ensures Abs() == Assigned(old(Abs()), token)
      ensures r.Ok? ==> sessionToKey == old(sessionToKey)[token := old(keys)[old(rr) % |old(keys)|].id]
    {
      if |keys| == 0 {
        return Err(EmptyPool);
      }
      var key := keys[rr % |keys|];
      rr := rr + 1;
      sessionToKey := sessionToKey[token := key.id];
      return Ok(());
    }

    method RevokeSessionToken(token: Id)
      modifies this
      ensures Abs() == Revoked(old(Abs()), token)
    {
      sessionToKey := sessionToKey - {token};
    }

    method SecretForSession(token: Id) returns (r: Result<(string, string), Error>)
      ensures r == Resolve(Abs(), token)
    {
      if token !in sessionToKey {
        return Err(UnknownSession);
      }
      var id := sessionToKey[token];
      if id !in keyById {
        return Err(KeyRevoked);
      }
      return Ok((keyById[id].secret, id));
    }
  }
}
