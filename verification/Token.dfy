// Tokens: a store, a cache rebuilt after each write, and throttled use stamps
// (crates/core/src/token.rs with crates/core/src/store/tokens.rs).

module Token {
  import opened Common
  import opened Text

  /** A row of the tokens table; last_used_at, an observation that nothing reads back, is left out. */
  datatype Row = Row(id: nat, name: string, hash: string, createdAt: nat, expiresAt: Option<nat>, revokedAt: Option<nat>)

  type Rows = map<nat, Row>

  type Cache = map<string, Row>

  datatype Touch = Touch(id: nat, at: nat)

  datatype TokenError = NotFound | Revoked | Expired | Duplicate | InvalidName | InvalidExpiry | StoreFailed

  datatype Outcome<T> = Done(value: T) | Failed(error: TokenError)

  datatype RevokeOutcome = JustRevoked | AlreadyRevoked | NoSuchToken

  /** Whether the write, and the full read that follows it, succeed. */
  datatype Io = Io(writes: bool, reloads: bool)

  const ADMIN_NAME: string := "__admin__"
  const TOKEN_PREFIX: string := "pony_"
  const MAX_EXPIRES_DAYS: nat := 3650
  const SECS_PER_DAY: nat := 86_400
  const THROTTLE: nat := 60
  const U64: nat := 0x1_0000_0000_0000_0000

  predicate NameChar(c: char) {
    '0' <= c <= '9' || 'a' <= c <= 'z' || 'A' <= c <= 'Z' || c == '.' || c == '_' || c == '-'
  }

  predicate ValidName(name: string) {
    1 <= |name| <= 64 && name != ADMIN_NAME && !StartsWith(name, TOKEN_PREFIX)
    && forall i :: 0 <= i < |name| ==> NameChar(name[i])
  }

  // ---- the store ----

  /** Primary key, unique hashes, and unique names among the unrevoked rows. */
  predicate Keyed(rows: Rows, nextId: nat) {
    forall id :: id in rows ==> rows[id].id == id && 1 <= id < nextId
  }

  predicate UniqueHashes(rows: Rows) {
    forall a, b {:trigger HashDiffers(rows, a, b)} :: a in rows && b in rows && a != b ==> HashDiffers(rows, a, b)
  }

  predicate HashDiffers(rows: Rows, a: nat, b: nat)
    requires a in rows && b in rows
  {
    rows[a].hash != rows[b].hash
  }

  predicate UniqueNames(rows: Rows) {
    forall a, b {:trigger NameDiffers(rows, a, b)} :: a in rows && b in rows && a != b ==> NameDiffers(rows, a, b)
  }

  predicate NameDiffers(rows: Rows, a: nat, b: nat)
    requires a in rows && b in rows
  {
    Live(rows[a]) && Live(rows[b]) ==> rows[a].name != rows[b].name
  }

  predicate Live(r: Row) { r.revokedAt.None? }

  predicate WellFormed(rows: Rows, nextId: nat) { Keyed(rows, nextId) && UniqueHashes(rows) && UniqueNames(rows) }

  /** An insert that would break a unique index. */
  predicate Violates(rows: Rows, name: string, hash: string) {
    exists id :: id in rows && (rows[id].hash == hash || (rows[id].name == name && Live(rows[id])))
  }

  /** The cache that a full read of the table gives; its hashes are always unique. */
  function Loaded(rows: Rows): Cache {
    if UniqueHashes(rows) then
      assert forall a, b :: a in rows && b in rows && a != b ==> HashDiffers(rows, a, b) ==> rows[a].hash != rows[b].hash;
      map id | id in rows :: rows[id].hash := rows[id]
    else map[]
  }

  function Stamped(rows: Rows, id: nat, now: nat): Rows
    requires id in rows
  {
    rows[id := rows[id].(revokedAt := Some(now))]
  }

  lemma InsertKeepsKeys(rows: Rows, nextId: nat, r: Row)
    requires WellFormed(rows, nextId) && 1 <= nextId && r.id == nextId && !Violates(rows, r.name, r.hash)
    ensures WellFormed(rows[nextId := r], nextId + 1)
  {
    var next := rows[nextId := r];
    forall a, b | a in next && b in next && a != b
      ensures HashDiffers(next, a, b) && NameDiffers(next, a, b)
    {
      if a in rows && b in rows {
        assert HashDiffers(rows, a, b) && NameDiffers(rows, a, b);
      }
    }
  }

  lemma RevokeKeepsKeys(rows: Rows, nextId: nat, id: nat, now: nat)
    requires WellFormed(rows, nextId) && id in rows
    ensures WellFormed(Stamped(rows, id, now), nextId)
  {
    var next := Stamped(rows, id, now);
    forall a, b | a in next && b in next && a != b
      ensures HashDiffers(next, a, b) && NameDiffers(next, a, b)
    {
      assert HashDiffers(rows, a, b) && NameDiffers(rows, a, b);
    }
  }

  class TokenStore {
    var rows: Rows
    var nextId: nat

    ghost predicate Valid()
      reads this
    {
      WellFormed(rows, nextId) && nextId >= 1
    }

    constructor ()
      ensures Valid() && rows == map[] && nextId == 1
    {
      rows, nextId := map[], 1;
    }

    /** None when a unique index refuses the row. */
    method InsertToken(name: string, hash: string, expiresAt: Option<nat>, now: nat) returns (id: Option<nat>)
      requires Valid()
      modifies this
      ensures Valid()
      ensures id.None? <==> Violates(old(rows), name, hash)
      ensures id.None? ==> rows == old(rows) && nextId == old(nextId)
      ensures id.Some? ==> id.value == old(nextId) && id.value !in old(rows) && nextId == old(nextId) + 1
      ensures id.Some? ==> rows == old(rows)[id.value := Row(id.value, name, hash, now, expiresAt, None)]
    {
      if Violates(rows, name, hash) {
        return None;
      }
      var r := Row(nextId, name, hash, now, expiresAt, None);
      InsertKeepsKeys(rows, nextId, r);
      id := Some(nextId);
      rows, nextId := rows[nextId := r], nextId + 1;
    }

    method RevokeToken(id: nat, now: nat) returns (r: RevokeOutcome)
      requires Valid()
      modifies this`rows
      ensures Valid()
      ensures r == JustRevoked <==> id in old(rows) && Live(old(rows)[id])
      ensures r == NoSuchToken <==> id !in old(rows)
      ensures rows == if r == JustRevoked then Stamped(old(rows), id, now) else old(rows)
    {
      if id in rows && Live(rows[id]) {
        RevokeKeepsKeys(rows, nextId, id, now);
        rows := Stamped(rows, id, now);
        return JustRevoked;
      }
      r := if id in rows then AlreadyRevoked else NoSuchToken;
    }

    /** All rows in the order of their ids. */
    method ListTokens() returns (list: seq<Row>)
      requires Valid()
      ensures forall i, j :: 0 <= i < j < |list| ==> list[i].id < list[j].id
      ensures forall r :: r in list <==> r.id in rows && rows[r.id] == r
    {
      list := [];
      for id := 1 to nextId
        invariant forall i, j :: 0 <= i < j < |list| ==> list[i].id < list[j].id
        invariant forall r :: r in list <==> r.id in rows && rows[r.id] == r && r.id < id
      {
        if id in rows {
          assert forall i :: 0 <= i < |list| ==> list[i] in list;
          list := list + [rows[id]];
        }
      }
    }
  }

  // ---- the service ----

  /** Everything the service reads or writes; touches lists the use stamps it issued. */
  datatype State = State(rows: Rows, nextId: nat, cache: Cache, lastUsed: map<nat, nat>, touches: seq<Touch>)

  function ExpiryOf(days: Option<nat>, now: nat): Outcome<Option<nat>> {
    if days.None? then Done(None)
    else if !(1 <= days.value <= MAX_EXPIRES_DAYS) || now + days.value * SECS_PER_DAY >= U64 then Failed(InvalidExpiry)
    else Done(Some(now + days.value * SECS_PER_DAY))
  }

  /** Creation: checks, insert, reload. A failed reload is an error that leaves the row in the store. */
  function Create(s: State, name: string, days: Option<nat>, hash: string, now: nat, io: Io): (State, Outcome<nat>) {
    if !ValidName(name) then (s, Failed(InvalidName))
    else
      var expiry := ExpiryOf(days, now);
      if expiry.Failed? then (s, Failed(expiry.error))
      else if !io.writes then (s, Failed(StoreFailed))
      else if Violates(s.rows, name, hash) then (s, Failed(Duplicate))
      else
        var r := Row(s.nextId, name, hash, now, expiry.value, None);
        var t := s.(rows := s.rows[s.nextId := r], nextId := s.nextId + 1);
        if io.reloads then (t.(cache := Loaded(t.rows)), Done(s.nextId)) else (t, Failed(StoreFailed))
  }

  /** Revocation: the cache is reloaded only when this very call revoked the row. */
  function Revoke(s: State, id: nat, now: nat, io: Io): (State, Outcome<RevokeOutcome>) {
    if !io.writes then (s, Failed(StoreFailed))
    else if id !in s.rows then (s, Done(NoSuchToken))
    else if !Live(s.rows[id]) then (s, Done(AlreadyRevoked))
    else
      var t := s.(rows := Stamped(s.rows, id, now));
      if io.reloads then (t.(cache := Loaded(t.rows)), Done(JustRevoked)) else (t, Failed(StoreFailed))
  }

  function LookupVerified(cache: Cache, hash: string, now: nat): Outcome<Row> {
    if hash !in cache then Failed(NotFound)
    else if !Live(cache[hash]) then Failed(Revoked)
    else if cache[hash].expiresAt.Some? && cache[hash].expiresAt.value < now then Failed(Expired)
    else Done(cache[hash])
  }

  /** Verification of a data token, or of an administrator's: each refuses the other kind as unknown. */
  function Verdict(cache: Cache, hash: string, now: nat, admin: bool): Outcome<Row> {
    var r := LookupVerified(cache, hash, now);
    if r.Done? && (r.value.name == ADMIN_NAME) != admin then Failed(NotFound) else r
  }

  predicate Due(lastUsed: map<nat, nat>, id: nat, now: nat) {
    !(id in lastUsed && (if now >= lastUsed[id] then now - lastUsed[id] else 0) < THROTTLE)
  }

  function Touched(s: State, id: nat, now: nat): State {
    if Due(s.lastUsed, id, now)
    then s.(lastUsed := s.lastUsed[id := now], touches := s.touches + [Touch(id, now)])
    else s
  }

  function Verify(s: State, hash: string, now: nat, admin: bool): (State, Outcome<Row>) {
    var r := Verdict(s.cache, hash, now, admin);
    (if r.Done? then Touched(s, r.value.id, now) else s, r)
  }

  class TokenService {
    const store: TokenStore
    const digest: string -> string
    var cache: Cache
    var lastUsed: map<nat, nat>
    var touches: seq<Touch>

    ghost function Now(): State
      reads this, store
    {
      State(store.rows, store.nextId, cache, lastUsed, touches)
    }

    constructor (s: TokenStore, digest: string -> string)
      requires s.Valid()
      ensures store == s && this.digest == digest && Fresh(Now())
    {
      var loaded := LoadAll(s);
      store, this.digest, cache, lastUsed, touches := s, digest, loaded, map[], [];
    }

    static method LoadAll(s: TokenStore) returns (m: Cache)
      requires s.Valid()
      ensures m == Loaded(s.rows)
    {
      var list := s.ListTokens();
      m := Index(list, s.rows);
    }

    method CreateToken(name: string, days: Option<nat>, plaintext: string, now: nat, io: Io) returns (r: Outcome<nat>)
      requires store.Valid()
      modifies this`cache, store
      ensures store.Valid() && (Now(), r) == Create(old(Now()), name, days, digest(plaintext), now, io)
    {
      if !ValidName(name) {
        return Failed(InvalidName);
      }
      var expiry := ExpiryOf(days, now);
      if expiry.Failed? {
        return Failed(expiry.error);
      }
      if !io.writes {
        return Failed(StoreFailed);
      }
      var id := store.InsertToken(name, digest(plaintext), expiry.value, now);
      if id.None? {
        return Failed(Duplicate);
      }
      var ok := ReloadCache(io);
      r := if ok then Done(id.value) else Failed(StoreFailed);
    }

    method RevokeToken(id: nat, now: nat, io: Io) returns (r: Outcome<RevokeOutcome>)
      requires store.Valid()
      modifies this`cache, store`rows
      ensures store.Valid() && (Now(), r) == Revoke(old(Now()), id, now, io)
    {
      if !io.writes {
        return Failed(StoreFailed);
      }
      var outcome := store.RevokeToken(id, now);
      if outcome == JustRevoked {
        var ok := ReloadCache(io);
        if !ok {
          return Failed(StoreFailed);
        }
      }
      r := Done(outcome);
    }

    method ReloadCache(io: Io) returns (ok: bool)
      requires store.Valid()
      modifies this`cache
      ensures ok == io.reloads && cache == if ok then Loaded(store.rows) else old(cache)
    {
      ok := io.reloads;
      if ok {
        cache := LoadAll(store);
      }
    }

    method VerifyToken(plaintext: string, now: nat, admin: bool) returns (r: Outcome<Row>)
      modifies this`lastUsed, this`touches
      ensures (Now(), r) == Verify(old(Now()), digest(plaintext), now, admin)
    {
      r := LookupVerified(cache, digest(plaintext), now);
      if r.Done? {
        if (r.value.name == ADMIN_NAME) != admin {
          return Failed(NotFound);
        }
        ThrottleTouch(r.value, now);
      }
    }

    method ThrottleTouch(row: Row, now: nat)
      modifies this`lastUsed, this`touches
      ensures Now() == Touched(old(Now()), row.id, now)
    {
      var prev := if row.id in lastUsed then Some(lastUsed[row.id]) else None;
      if prev.Some? && (if now >= prev.value then now - prev.value else 0) < THROTTLE {
        return;
      }
      lastUsed := lastUsed[row.id := now];
      touches := touches + [Touch(row.id, now)];
    }
  }

  /** The rows of a list by their hashes. */
  method Index(list: seq<Row>, ghost rows: Rows) returns (m: Cache)
    requires UniqueHashes(rows) && forall r :: r in list <==> r.id in rows && rows[r.id] == r
    requires forall id :: id in rows ==> rows[id].id == id
    ensures m == Loaded(rows)
  {
    m := map[];
    for i := 0 to |list|
      invariant forall j :: 0 <= j < i ==> list[j].hash in m
      invariant forall h :: h in m ==> m[h] in list && m[h].hash == h
    {
      assert list[i] in list;
      m := m[list[i].hash := list[i]];
    }
    forall id | id in rows
      ensures rows[id].hash in m && m[rows[id].hash] == rows[id]
    {
      assert rows[id] in list;
      var other := m[rows[id].hash];
      assert other in list;
      assert other.id != id ==> HashDiffers(rows, id, other.id);
    }
    assert m.Keys == Loaded(rows).Keys;
  }

  // ---- runs ----

  datatype Op =
    | CreateOp(name: string, days: Option<nat>, hash: string, now: nat, io: Io)
    | RevokeOp(id: nat, now: nat, io: Io)
    | VerifyOp(hash: string, now: nat, admin: bool)

  ghost predicate Good(s: State) { WellFormed(s.rows, s.nextId) && s.nextId >= 1 }

  function Next(s: State, op: Op): State {
    match op
    case CreateOp(name, days, hash, now, io) => Create(s, name, days, hash, now, io).0
    case RevokeOp(id, now, io) => Revoke(s, id, now, io).0
    case VerifyOp(hash, now, admin) => Verify(s, hash, now, admin).0
  }

  function Run(start: State, ops: seq<Op>): State {
    if ops == [] then start else Next(Run(start, ops[..|ops| - 1]), ops[|ops| - 1])
  }

  /** Every call keeps the table well-formed. */
  lemma StepGood(s: State, op: Op)
    requires Good(s)
    ensures Good(Next(s, op))
  {
    var t := Next(s, op);
    match op {
      case CreateOp(_, _, _, _, _) =>
        if t.nextId != s.nextId {
          InsertKeepsKeys(s.rows, s.nextId, t.rows[s.nextId]);
        }
      case RevokeOp(id, now, _) =>
        if id in s.rows {
          RevokeKeepsKeys(s.rows, s.nextId, id, now);
        }
      case VerifyOp(_, _, _) =>
    }
  }

  lemma {:induction false} RunGood(start: State, ops: seq<Op>)
    requires Good(start)
    ensures Good(Run(start, ops))
  {
    if ops != [] {
      RunGood(start, ops[..|ops| - 1]);
      StepGood(Run(start, ops[..|ops| - 1]), ops[|ops| - 1]);
    }
  }

  /** The service starts with a freshly loaded cache over any well-formed store. */
  ghost predicate Fresh(s: State) {
    Good(s) && s.cache == Loaded(s.rows) && s.lastUsed == map[] && s.touches == []
  }

  /** The call writes the store and reads it back. */
  predicate Reloads(s: State, op: Op) {
    match op
    case CreateOp(name, days, hash, now, io) => Create(s, name, days, hash, now, io).1.Done?
    case RevokeOp(id, now, io) => Revoke(s, id, now, io).1 == Done(JustRevoked)
    case VerifyOp(_, _, _) => false
  }

  predicate ReloadsAt(start: State, ops: seq<Op>, k: nat)
    requires k < |ops|
  {
    Reloads(Run(start, ops[..k]), ops[k])
  }

  function Flags(start: State, ops: seq<Op>): seq<bool> {
    seq(|ops|, k requires 0 <= k < |ops| => ReloadsAt(start, ops, k))
  }

  /** One past the last true entry. */
  function LastTrue(flags: seq<bool>): (k: nat)
    ensures k <= |flags| && forall i :: k <= i < |flags| ==> !flags[i]
  {
    if flags == [] then 0 else if flags[|flags| - 1] then |flags| else LastTrue(flags[..|flags| - 1])
  }

  /** How many calls the run had made when the cache was last loaded. */
  function LastReload(start: State, ops: seq<Op>): (k: nat)
    ensures k <= |ops|
  {
    LastTrue(Flags(start, ops))
  }

  lemma LastReloadStep(start: State, ops: seq<Op>)
    requires ops != []
    ensures var n := |ops| - 1;
      LastReload(start, ops) == if ReloadsAt(start, ops, n) then |ops| else LastReload(start, ops[..n])
  {
    var n := |ops| - 1;
    forall k: nat | k < n
      ensures ReloadsAt(start, ops[..n], k) == ReloadsAt(start, ops, k)
    {
      assert ops[..n][..k] == ops[..k];
    }
    assert Flags(start, ops)[..n] == Flags(start, ops[..n]);
  }

  /** What a call does to the cache, to the table, and to the use stamps. */
  lemma StepParts(s: State, op: Op)
    requires Good(s)
    ensures var t := Next(s, op);
      t.cache == (if Reloads(s, op) then Loaded(t.rows) else s.cache)
      && Extends(s.rows, t.rows)
      && (!op.VerifyOp? ==> t.touches == s.touches && t.lastUsed == s.lastUsed)
  {
    match op {
      case CreateOp(name, days, hash, now, io) => CreateParts(s, name, days, hash, now, io);
      case RevokeOp(id, now, io) => RevokeParts(s, id, now, io);
      case VerifyOp(_, _, _) => assert Next(s, op).rows == s.rows;
    }
  }

  lemma CreateParts(s: State, name: string, days: Option<nat>, hash: string, now: nat, io: Io)
    requires Good(s)
    ensures var (t, r) := Create(s, name, days, hash, now, io);
      t.cache == (if r.Done? then Loaded(t.rows) else s.cache)
      && Extends(s.rows, t.rows) && t.touches == s.touches && t.lastUsed == s.lastUsed
  {
    assert s.nextId !in s.rows;
  }

  lemma RevokeParts(s: State, id: nat, now: nat, io: Io)
    ensures var (t, r) := Revoke(s, id, now, io);
      t.cache == (if r == Done(JustRevoked) then Loaded(t.rows) else s.cache)
      && Extends(s.rows, t.rows) && t.touches == s.touches && t.lastUsed == s.lastUsed
  {
  }

  /** In every run the cache is the table as it was at the last reload. */
  lemma {:induction false} CacheIsLastReload(start: State, ops: seq<Op>)
    requires Fresh(start)
    ensures Run(start, ops).cache == Loaded(Run(start, ops[..LastReload(start, ops)]).rows)
  {
    if ops == [] {
      assert ops[..0] == [];
    } else {
      var n := |ops| - 1;
      RunGood(start, ops[..n]);
      CacheIsLastReload(start, ops[..n]);
      StepParts(Run(start, ops[..n]), ops[n]);
      LastReloadStep(start, ops);
      if ReloadsAt(start, ops, n) {
        assert ops[..|ops|] == ops;
      } else {
        var k := LastReload(start, ops[..n]);
        assert ops[..n][..k] == ops[..k];
      }
    }
  }

  /**
   * The cache equals the table exactly when no later call has changed the table: after a creation or
   * revocation that succeeds it does, and a write whose reload fails always leaves it behind.
   */
  lemma CoherentStep(s: State, op: Op)
    requires Good(s) && s.cache == Loaded(s.rows)
    ensures var t := Next(s, op); t.cache == Loaded(t.rows) <==> Reloads(s, op) || t.rows == s.rows
  {
    StepParts(s, op);
    StepGood(s, op);
    var t := Next(s, op);
    if t.rows != s.rows && !Reloads(s, op) {
      match op {
        case CreateOp(_, _, _, _, _) => LoadedAt(t.rows, s.nextId);
        case RevokeOp(id, _, _) =>
          LoadedAt(t.rows, id);
          LoadedAt(s.rows, id);
      }
    }
  }

  lemma LoadedAt(rows: Rows, id: nat)
    requires UniqueHashes(rows) && id in rows
    ensures rows[id].hash in Loaded(rows) && Loaded(rows)[rows[id].hash] == rows[id]
  {
    assert forall a :: a in rows && a != id ==> HashDiffers(rows, a, id);
  }

  /** In every run, a creation or revocation that reports success leaves the cache equal to the table. */
  lemma SuccessfulWriteIsCoherent(start: State, ops: seq<Op>, op: Op)
    requires Fresh(start) && Reloads(Run(start, ops), op)
    ensures Run(start, ops + [op]).cache == Loaded(Run(start, ops + [op]).rows)
  {
    RunGood(start, ops);
    RunLast(start, ops, op);
    StepParts(Run(start, ops), op);
  }

  lemma RunLast(start: State, ops: seq<Op>, op: Op)
    ensures Run(start, ops + [op]) == Next(Run(start, ops), op)
  {
    assert (ops + [op])[..|ops|] == ops;
  }

  lemma {:induction false} RunConcat(start: State, a: seq<Op>, b: seq<Op>)
    ensures Run(start, a + b) == Run(Run(start, a), b)
    decreases |b|
  {
    if b == [] {
      assert a + b == a;
    } else {
      var front, op := b[..|b| - 1], b[|b| - 1];
      RunConcat(start, a, front);
      RunLast(start, a + front, op);
      assert a + b == a + front + [op];
    }
  }

  /** Over a loaded table, verification accepts exactly the usable row with that hash. */
  lemma VerdictOfTable(rows: Rows, hash: string, now: nat, admin: bool, r: Row)
    requires UniqueHashes(rows) && forall id :: id in rows ==> rows[id].id == id
    ensures Verdict(Loaded(rows), hash, now, admin) == Done(r) <==>
      r.id in rows && rows[r.id] == r && r.hash == hash
      && r.revokedAt == None && (r.expiresAt.Some? ==> now <= r.expiresAt.value) && (r.name == "__admin__" <==> admin)
  {
    if r.id in rows && rows[r.id] == r && r.hash == hash {
      LoadedAt(rows, r.id);
    }
  }

  /** In every run, a token is accepted exactly if its row was usable, revocation as of the last reload. */
  lemma AcceptedIff(start: State, ops: seq<Op>, hash: string, now: nat, admin: bool, r: Row)
    requires Fresh(start)
    ensures var rows := Run(start, ops[..LastReload(start, ops)]).rows;
      Verify(Run(start, ops), hash, now, admin).1 == Done(r) <==>
      r.id in rows && rows[r.id] == r && r.hash == hash
      && r.revokedAt == None && (r.expiresAt.Some? ==> now <= r.expiresAt.value) && (r.name == "__admin__" <==> admin)
  {
    CacheIsLastReload(start, ops);
    RunGood(start, ops[..LastReload(start, ops)]);
    VerdictOfTable(Run(start, ops[..LastReload(start, ops)]).rows, hash, now, admin, r);
  }

  // ---- rows over time ----

  /** A row stays, with its name, hash and expiry; a revocation stays. */
  ghost predicate Extends(a: Rows, b: Rows) {
    forall id :: id in a ==> id in b && SameToken(a[id], b[id])
  }

  predicate SameToken(a: Row, b: Row) {
    b == a || (Live(a) && !Live(b) && b == a.(revokedAt := b.revokedAt))
  }

  lemma {:induction false} RowsExtend(start: State, ops: seq<Op>, k: nat)
    requires Good(start) && k <= |ops|
    ensures Extends(Run(start, ops[..k]).rows, Run(start, ops).rows)
  {
    if k == |ops| {
      assert ops[..k] == ops;
    } else {
      var n := |ops| - 1;
      RowsExtend(start, ops[..n], k);
      assert ops[..n][..k] == ops[..k];
      RunGood(start, ops[..n]);
      StepParts(Run(start, ops[..n]), ops[n]);
      var a, b, c := Run(start, ops[..k]).rows, Run(start, ops[..n]).rows, Run(start, ops).rows;
      forall id | id in a
        ensures id in c && SameToken(a[id], c[id])
      {
        assert SameToken(a[id], b[id]) && SameToken(b[id], c[id]);
      }
    }
  }

  /**
   * In a whole run the two kinds of verification never accept the same plaintext, not even at
   * different moments.
   */
  lemma NeverBothKinds(start: State, ops: seq<Op>, k: nat, hash: string, t: nat, u: nat, early: bool, late: bool)
    requires Fresh(start) && k <= |ops|
    requires Verify(Run(start, ops[..k]), hash, t, early).1.Done? && Verify(Run(start, ops), hash, u, late).1.Done?
    ensures early == late
  {
    var a, b := Verify(Run(start, ops[..k]), hash, t, early).1.value, Verify(Run(start, ops), hash, u, late).1.value;
    AcceptedIsStored(start, ops[..k], hash, t, early, a);
    AcceptedIsStored(start, ops, hash, u, late, b);
    RowsExtend(start, ops, k);
    var before, rows := Run(start, ops[..k]).rows, Run(start, ops).rows;
    assert SameToken(before[a.id], rows[a.id]);
    RunGood(start, ops);
    assert a.id != b.id ==> HashDiffers(rows, a.id, b.id);
  }

  /** An accepted row is in the store, under the same id, name and hash. */
  lemma AcceptedIsStored(start: State, ops: seq<Op>, hash: string, now: nat, admin: bool, r: Row)
    requires Fresh(start) && Verify(Run(start, ops), hash, now, admin).1 == Done(r)
    ensures var rows := Run(start, ops).rows;
      r.id in rows && SameToken(r, rows[r.id]) && r.hash == hash && (r.name == ADMIN_NAME) == admin
  {
    AcceptedIff(start, ops, hash, now, admin, r);
    RowsExtend(start, ops, LastReload(start, ops));
  }

  // ---- revocation ----

  /** The row is revoked, and the cache does not hold it as live. */
  ghost predicate KnownRevoked(s: State, id: nat, hash: string) {
    id in s.rows && s.rows[id].hash == hash && !Live(s.rows[id]) && (hash in s.cache ==> !Live(s.cache[hash]))
  }

  lemma StepKeepsRevoked(s: State, op: Op, id: nat, hash: string)
    requires Good(s) && KnownRevoked(s, id, hash)
    ensures KnownRevoked(Next(s, op), id, hash)
  {
    var t := Next(s, op);
    StepParts(s, op);
    StepGood(s, op);
    assert SameToken(s.rows[id], t.rows[id]);
    LoadedAt(t.rows, id);
  }

  lemma {:induction false} StaysRevoked(s: State, ops: seq<Op>, id: nat, hash: string)
    requires Good(s) && KnownRevoked(s, id, hash)
    ensures KnownRevoked(Run(s, ops), id, hash)
  {
    if ops != [] {
      var front := ops[..|ops| - 1];
      StaysRevoked(s, front, id, hash);
      RunGood(s, front);
      StepKeepsRevoked(Run(s, front), ops[|ops| - 1], id, hash);
    }
  }

  /** However the run goes on, at no time and in neither kind is the token accepted. */
  ghost predicate NeverAccepted(start: State, ops: seq<Op>, hash: string) {
    forall more: seq<Op>, now: nat, admin: bool :: Verify(Run(start, ops + more), hash, now, admin).1.Failed?
  }

  lemma RevokedIsNeverAccepted(start: State, ops: seq<Op>, id: nat, hash: string)
    requires Good(start) && KnownRevoked(Run(start, ops), id, hash)
    ensures NeverAccepted(start, ops, hash)
  {
    forall more: seq<Op>, now: nat, admin: bool
      ensures Verify(Run(start, ops + more), hash, now, admin).1.Failed?
    {
      RunGood(start, ops);
      RunConcat(start, ops, more);
      StaysRevoked(Run(start, ops), more, id, hash);
    }
  }

  /** A revocation that reports success is final: the token is never accepted again, in either kind. */
  lemma RevokeIsFinal(start: State, ops: seq<Op>, id: nat, at: nat, io: Io)
    requires Fresh(start) && Revoke(Run(start, ops), id, at, io).1 == Done(JustRevoked)
    ensures NeverAccepted(start, ops + [RevokeOp(id, at, io)], Run(start, ops).rows[id].hash)
  {
    var s, op := Run(start, ops), RevokeOp(id, at, io);
    RunGood(start, ops);
    RunLast(start, ops, op);
    StepGood(s, op);
    StepParts(s, op);
    LoadedAt(Next(s, op).rows, id);
    RevokedIsNeverAccepted(start, ops + [op], id, s.rows[id].hash);
  }

  /**
   * A revocation that finds the row already revoked does not reload. It is as final, for every
   * continuation, time and kind, if and only if the row was revoked, or not yet there, at the last reload.
   */
  lemma AlreadyRevokedFinalIff(start: State, ops: seq<Op>, id: nat, at: nat, io: Io)
    requires Fresh(start) && Revoke(Run(start, ops), id, at, io).1 == Done(AlreadyRevoked)
    ensures var loaded := Run(start, ops[..LastReload(start, ops)]).rows;
      NeverAccepted(start, ops + [RevokeOp(id, at, io)], Run(start, ops).rows[id].hash) <==>
      id !in loaded || !Live(loaded[id])
  {
    var s, op, k := Run(start, ops), RevokeOp(id, at, io), LastReload(start, ops);
    var row, loaded := s.rows[id], Run(start, ops[..k]).rows;
    RunLast(start, ops, op);
    RowsExtend(start, ops, k);
    CacheIsLastReload(start, ops);
    RunGood(start, ops);
    RunGood(start, ops[..k]);
    RefusedIffKnownRevoked(loaded, s.rows, id, 0);
    if id !in loaded || !Live(loaded[id]) {
      RevokedIsNeverAccepted(start, ops + [op], id, row.hash);
    } else {
      assert ops + [op] + [] == ops + [op];
      assert !Verify(Run(start, ops + [op] + []), row.hash, 0, row.name == ADMIN_NAME).1.Failed?;
    }
  }

  lemma RefusedIffKnownRevoked(loaded: Rows, rows: Rows, id: nat, now: nat)
    requires UniqueHashes(loaded) && UniqueHashes(rows) && Extends(loaded, rows) && id in rows && !Live(rows[id])
    requires rows[id].expiresAt.Some? ==> now <= rows[id].expiresAt.value
    ensures Verdict(Loaded(loaded), rows[id].hash, now, rows[id].name == ADMIN_NAME).Failed? <==>
      id !in loaded || !Live(loaded[id])
    ensures id !in loaded || !Live(loaded[id]) ==>
      rows[id].hash in Loaded(loaded) ==> !Live(Loaded(loaded)[rows[id].hash])
  {
    var cache, hash := Loaded(loaded), rows[id].hash;
    if id in loaded {
      LoadedAt(loaded, id);
      assert SameToken(loaded[id], rows[id]);
    } else {
      forall other | other in loaded
        ensures loaded[other].hash != hash
      {
        assert SameToken(loaded[other], rows[other]) && HashDiffers(rows, id, other);
      }
    }
  }

  /**
   * The stale case happens after every successful creation: a revocation whose reload fails, then one
   * that reports the row already revoked, and the token still works.
   */
  lemma RevokedTokenStillAccepted(start: State, create: Op, id: nat, now: nat)
    requires Good(start) && create.CreateOp? && create.days.None?
    requires Create(start, create.name, None, create.hash, create.now, create.io).1 == Done(id)
    ensures var ops := [create, RevokeOp(id, now, Io(true, false)), RevokeOp(id, now, Io(true, true))];
      Revoke(Run(start, ops[..2]), id, now, Io(true, true)).1 == Done(AlreadyRevoked)
      && Verify(Run(start, ops), create.hash, now, false).1.Done?
  {
    var s := Next(start, create);
    StepGood(start, create);
    LoadedAt(s.rows, id);
    StaleAfterFailedReload(s, id, now);
    ThreeSteps(start, create, RevokeOp(id, now, Io(true, false)), RevokeOp(id, now, Io(true, true)));
  }

  /** An empty store admits such a creation, under any valid name. */
  lemma FirstCreation(name: string, hash: string, at: nat)
    requires ValidName(name)
    ensures var start := State(map[], 1, map[], map[], []);
      Good(start) && Create(start, name, None, hash, at, Io(true, true)).1 == Done(1)
  {
  }

  lemma StaleAfterFailedReload(s: State, id: nat, now: nat)
    requires id in s.rows && s.rows[id].hash in s.cache && s.cache[s.rows[id].hash] == s.rows[id]
    requires Live(s.rows[id]) && s.rows[id].expiresAt.None? && s.rows[id].name != ADMIN_NAME
    ensures var t := Next(s, RevokeOp(id, now, Io(true, false)));
      Revoke(t, id, now, Io(true, true)).1 == Done(AlreadyRevoked)
      && Next(t, RevokeOp(id, now, Io(true, true))) == t
      && Verify(t, s.rows[id].hash, now, false).1.Done?
  {
  }

  lemma ThreeSteps(start: State, a: Op, b: Op, c: Op)
    ensures [a, b, c][..2] == [a, b] && Run(start, [a, b]) == Next(Next(start, a), b)
    ensures Run(start, [a, b, c]) == Next(Run(start, [a, b]), c)
  {
    assert [a, b, c][..2] == [a, b] && [a, b][..1] == [a] && [a][..0] == [];
    assert Run(start, [a]) == Next(Run(start, []), a);
  }

  /** Every outcome of a revocation, exactly when it is the case, and what becomes of table and cache. */
  lemma RevokeOutcomes(s: State, id: nat, now: nat, io: Io)
    ensures var (t, r) := Revoke(s, id, now, io);
      var live := id in s.rows && s.rows[id].revokedAt == None;
      && (r == Failed(StoreFailed) <==> !io.writes || (live && !io.reloads))
      && (r == Done(NoSuchToken) <==> io.writes && id !in s.rows)
      && (r == Done(AlreadyRevoked) <==> io.writes && id in s.rows && !live)
      && (r == Done(JustRevoked) <==> io.writes && live && io.reloads)
      && t.rows == (if io.writes && live then s.rows[id := s.rows[id].(revokedAt := Some(now))] else s.rows)
      && (r != Done(JustRevoked) ==> t.cache == s.cache)
  {
  }

  // ---- creation ----

  /** Names are 1 to 64 ASCII letters, digits, dots, underscores and hyphens, not the reserved name or prefix. */
  lemma NamesAllowed(name: string)
    ensures ValidName(name) <==>
      && 1 <= |name| <= 64 && name != "__admin__" && !("pony_" <= name)
      && forall i :: 0 <= i < |name| ==>
        'a' <= name[i] <= 'z' || 'A' <= name[i] <= 'Z' || '0' <= name[i] <= '9' || name[i] in {'.', '_', '-'}
  {
    assert "pony_" <= name <==> StartsWith(name, "pony_");
  }

  /** Every outcome of a creation, exactly when it is the case, and the row that is stored. */
  lemma CreateOutcome(s: State, name: string, days: Option<nat>, hash: string, now: nat, io: Io)
    ensures var (t, r) := Create(s, name, days, hash, now, io);
      var expiryOk := days.Some? ==> 1 <= days.value <= 3650 && now + days.value * 86_400 < 0x1_0000_0000_0000_0000;
      var clash := exists id :: id in s.rows && (s.rows[id].hash == hash || (s.rows[id].name == name && s.rows[id].revokedAt == None));
      && (r == Failed(InvalidName) <==> !ValidName(name))
      && (r == Failed(InvalidExpiry) <==> ValidName(name) && !expiryOk)
      && (r == Failed(Duplicate) <==> ValidName(name) && expiryOk && io.writes && clash)
      && (r == Failed(StoreFailed) <==> ValidName(name) && expiryOk && (!io.writes || (!clash && !io.reloads)))
      && (r == Done(s.nextId) <==> ValidName(name) && expiryOk && io.writes && !clash && io.reloads)
      && (t.rows == if ValidName(name) && expiryOk && io.writes && !clash
                    then s.rows[s.nextId := Row(s.nextId, name, hash, now, if days.None? then None else Some(now + days.value * 86_400), None)]
                    else s.rows)
  {
  }

  /** A created token is accepted as data, never as an administrator's, up to its expiry. */
  lemma CreatedWorks(s: State, name: string, days: Option<nat>, hash: string, at: nat, io: Io, now: nat)
    requires Good(s) && Create(s, name, days, hash, at, io).1.Done?
    ensures var t := Create(s, name, days, hash, at, io).0;
      (Verify(t, hash, now, false).1.Done? <==> days.None? || now <= at + days.value * 86_400)
      && Verify(t, hash, now, true).1.Failed?
  {
    var t := Create(s, name, days, hash, at, io).0;
    StepGood(s, CreateOp(name, days, hash, at, io));
    LoadedAt(t.rows, s.nextId);
  }

  // ---- use stamps ----

  /** The stamps of one id are a minute apart, and the last one is remembered. */
  ghost predicate Spaced(s: State) {
    && (forall i :: 0 <= i < |s.touches| ==> StampKnown(s, i))
    && (forall i, j :: 0 <= i < j < |s.touches| && s.touches[i].id == s.touches[j].id ==> s.touches[j].at >= s.touches[i].at + 60)
    && (forall id :: id in s.lastUsed ==> Touch(id, s.lastUsed[id]) in s.touches)
  }

  ghost predicate StampKnown(s: State, i: nat)
    requires i < |s.touches|
  {
    s.touches[i].id in s.lastUsed && s.touches[i].at <= s.lastUsed[s.touches[i].id]
  }

  lemma TouchSpaced(s: State, id: nat, now: nat)
    requires Spaced(s)
    ensures Spaced(Touched(s, id, now))
  {
    var t := Touched(s, id, now);
    forall i | 0 <= i < |s.touches|
      ensures StampKnown(t, i) && (t.touches[i].id == id && t != s ==> now >= t.touches[i].at + 60)
    {
      assert StampKnown(s, i);
    }
    assert t != s ==> t.touches[|s.touches|] == Touch(id, now);
  }

  /** In every run, whatever the clock does, two stamps of one token are at least a minute apart. */
  lemma {:induction false} StampsAreSpaced(start: State, ops: seq<Op>)
    requires Fresh(start)
    ensures Spaced(Run(start, ops))
  {
    if ops != [] {
      var n := |ops| - 1;
      StampsAreSpaced(start, ops[..n]);
      RunGood(start, ops[..n]);
      StepSpaced(Run(start, ops[..n]), ops[n]);
    }
  }

  /** In every run, an accepted verification is stamped exactly if it comes at least a minute after every stamp of that token. */
  lemma StampedIff(start: State, ops: seq<Op>, hash: string, now: nat, admin: bool)
    requires Fresh(start) && Verify(Run(start, ops), hash, now, admin).1.Done?
    ensures var s, (t, r) := Run(start, ops), Verify(Run(start, ops), hash, now, admin);
      t.touches == s.touches +
        if forall i :: 0 <= i < |s.touches| && s.touches[i].id == r.value.id ==> now >= s.touches[i].at + 60
        then [Touch(r.value.id, now)] else []
  {
    var s := Run(start, ops);
    var id := Verify(s, hash, now, admin).1.value.id;
    StampsAreSpaced(start, ops);
    DueIff(s, id, now);
  }

  lemma DueIff(s: State, id: nat, now: nat)
    requires Spaced(s)
    ensures Due(s.lastUsed, id, now) <==> forall i :: 0 <= i < |s.touches| && s.touches[i].id == id ==> now >= s.touches[i].at + 60
  {
    forall i | 0 <= i < |s.touches| && s.touches[i].id == id
      ensures id in s.lastUsed && s.touches[i].at <= s.lastUsed[id]
    {
      assert StampKnown(s, i);
    }
    if id in s.lastUsed {
      var k :| 0 <= k < |s.touches| && s.touches[k] == Touch(id, s.lastUsed[id]);
    }
  }

  lemma StepSpaced(s: State, op: Op)
    requires Good(s) && Spaced(s)
    ensures Spaced(Next(s, op))
  {
    StepParts(s, op);
    if op.VerifyOp? {
      var r := Verdict(s.cache, op.hash, op.now, op.admin);
      if r.Done? {
        TouchSpaced(s, r.value.id, op.now);
      }
    } else {
      SpacedAlike(s, Next(s, op));
    }
  }

  lemma SpacedAlike(s: State, t: State)
    requires Spaced(s) && t.touches == s.touches && t.lastUsed == s.lastUsed
    ensures Spaced(t)
  {
    forall i | 0 <= i < |t.touches|
      ensures StampKnown(t, i)
    {
      assert StampKnown(s, i);
    }
  }
}
