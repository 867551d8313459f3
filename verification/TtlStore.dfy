/** Key/value stores with expiry, as maps that lose a key the instant it expires.

    These are the specifications of the two concrete stores, which only drop an
    expired key when something next looks at it. */
module TtlStore {
  import Glob
  import opened Wrappers

  datatype Expiry = Never | At(time: int)

  /** When a key written now with this lifetime expires; no lifetime means never. */
  function ExpiryOf(ttl: int, now: int): Expiry {
    if ttl <= 0 then Never else At(now + ttl)
  }

  predicate Alive(e: Expiry, now: int) {
    e.Never? || now < e.time
  }

  const SECOND := 1_000_000_000

  /** TTL as reported: -2 s for a missing key, -1 s for one that never expires. */
  function Remaining(e: Option<Expiry>, now: int): int {
    match e
    case None => -2 * SECOND
    case Some(Never) => -1 * SECOND
    case Some(At(t)) => t - now
  }

  function ToSet(keys: seq<string>): set<string> {
    set k | k in keys
  }

  // ---- The interface both backends serve ----

  datatype Op =
    | Get(key: string)
    | Set(key: string, value: string, ttl: int)
    | SetNX(key: string, value: string, ttl: int)
    | Delete(keys: seq<string>)
    | Expire(key: string, ttl: int)
    | TTL(key: string)
    | CompareAndSwap(key: string, expected: string, value: string, ttl: int)
    | CompareAndDelete(key: string, expected: string)
    | CompareAndExpire(key: string, expected: string, ttl: int)
    | SAdd(key: string, members: seq<string>)
    | SRem(key: string, members: seq<string>)
    | SMembers(key: string)
    | Scan(prefix: string)

  datatype Answer =
    | Value(value: Option<string>)
    | Done
    | Flag(flag: bool)
    | Count(count: int)
    | Duration(ttl: int)
    | Names(names: set<string>)

  // ---- The memory backend: strings and sets in separate maps ----

  datatype Cell = Cell(value: string, expireAt: Expiry)

  type Cells = map<string, Cell>

  function Purge(kv: Cells, now: int): (r: Cells)
    ensures forall k :: k in r <==> k in kv && Alive(kv[k].expireAt, now)
    ensures forall k :: k in r ==> r[k] == kv[k]
  {
    map k | k in kv && Alive(kv[k].expireAt, now) :: kv[k]
  }

  /** Purging early does not show later. */
  lemma {:induction false} PurgeTwice(kv: Cells, t: int, later: int)
    requires t <= later
    ensures Purge(Purge(kv, t), later) == Purge(kv, later)
  {
  }

  datatype MemState = MemState(kv: Cells, sets: map<string, set<string>>)

  predicate Holds(kv: Cells, key: string, value: string) {
    key in kv && kv[key].value == value
  }

  function SetAt(sets: map<string, set<string>>, key: string): set<string> {
    if key in sets then sets[key] else {}
  }

  /** One operation at time `now` on a state that holds only live keys. */
  function MemStep(s: MemState, now: int, op: Op): (r: (MemState, Answer)) {
    match op
    case Get(k) => (s, Value(if k in s.kv then Some(s.kv[k].value) else None))
    case Set(k, v, ttl) => (s.(kv := s.kv[k := Cell(v, ExpiryOf(ttl, now))]), Done)
    case SetNX(k, v, ttl) =>
      if k in s.kv then (s, Flag(false))
      else (s.(kv := s.kv[k := Cell(v, ExpiryOf(ttl, now))]), Flag(true))
    case Delete(ks) => (s.(kv := s.kv - ToSet(ks)), Count(|ToSet(ks) * s.kv.Keys|))
    case Expire(k, ttl) =>
      if k in s.kv then (s.(kv := s.kv[k := s.kv[k].(expireAt := ExpiryOf(ttl, now))]), Flag(true))
      else (s, Flag(false))
    case TTL(k) => (s, Duration(Remaining(if k in s.kv then Some(s.kv[k].expireAt) else None, now)))
    case CompareAndSwap(k, expected, v, ttl) =>
      if (if k in s.kv then s.kv[k].value == expected else expected == "") then
        (s.(kv := s.kv[k := Cell(v, ExpiryOf(ttl, now))]), Flag(true))
      else (s, Flag(false))
    case CompareAndDelete(k, expected) =>
      if Holds(s.kv, k, expected) then (s.(kv := s.kv - {k}), Flag(true)) else (s, Flag(false))
    case CompareAndExpire(k, expected, ttl) =>
      if Holds(s.kv, k, expected) then
        (s.(kv := s.kv[k := s.kv[k].(expireAt := ExpiryOf(ttl, now))]), Flag(true))
      else (s, Flag(false))
    case SAdd(k, members) =>
      var cur := SetAt(s.sets, k);
      (s.(sets := s.sets[k := cur + ToSet(members)]), Count(|ToSet(members) - cur|))
    case SRem(k, members) =>
      if k !in s.sets then (s, Count(0))
      else
        var rest := s.sets[k] - ToSet(members);
        (s.(sets := if rest == {} then s.sets - {k} else s.sets[k := rest]), Count(|ToSet(members) * s.sets[k]|))
    case SMembers(k) => (s, Names(SetAt(s.sets, k)))
    case Scan(prefix) => (s, Names(set k | k in s.kv && prefix <= k))
  }

  function MemPurge(s: MemState, now: int): MemState {
    s.(kv := Purge(s.kv, now))
  }

  // ---- The Redis emulator: one keyspace, each key with its kind ----

  datatype Data = Str(str: string) | Members(members: set<string>)

  datatype Entry = Entry(data: Data, expireAt: Expiry)

  type Keyspace = map<string, Entry>

  const KEEP_TTL := -1

  function Evict(m: Keyspace, now: int): (r: Keyspace)
    ensures forall k :: k in r <==> k in m && Alive(m[k].expireAt, now)
    ensures forall k :: k in r ==> r[k] == m[k]
  {
    map k | k in m && Alive(m[k].expireAt, now) :: m[k]
  }

  lemma {:induction false} EvictTwice(m: Keyspace, t: int, later: int)
    requires t <= later
    ensures Evict(Evict(m, t), later) == Evict(m, later)
  {
  }

  predicate IsStr(m: Keyspace, key: string, value: string) {
    key in m && m[key].data == Str(value)
  }

  function MembersAt(m: Keyspace, key: string): set<string> {
    if key in m && m[key].data.Members? then m[key].data.members else {}
  }

  /** Set keeps the lifetime of the value it replaces when asked to. */
  function SetExpiry(m: Keyspace, key: string, ttl: int, now: int): Expiry {
    if ttl == KEEP_TTL then (if key in m then m[key].expireAt else Never) else ExpiryOf(ttl, now)
  }

  ghost function EmuStep(m: Keyspace, now: int, op: Op): (r: (Keyspace, Answer)) {
    match op
    case Get(k) => (m, Value(if k in m && m[k].data.Str? then Some(m[k].data.str) else None))
    case Set(k, v, ttl) => (m[k := Entry(Str(v), SetExpiry(m, k, ttl, now))], Done)
    case SetNX(k, v, ttl) =>
      if k in m then (m, Flag(false)) else (m[k := Entry(Str(v), ExpiryOf(ttl, now))], Flag(true))
    case Delete(ks) => (m - ToSet(ks), Count(|ToSet(ks) * m.Keys|))
    case Expire(k, ttl) =>
      if k in m then (m[k := m[k].(expireAt := ExpiryOf(ttl, now))], Flag(true)) else (m, Flag(false))
    case TTL(k) => (m, Duration(Remaining(if k in m then Some(m[k].expireAt) else None, now)))
    case CompareAndSwap(k, expected, v, ttl) =>
      if (if expected == "" then k !in m else IsStr(m, k, expected)) then
        (m[k := Entry(Str(v), ExpiryOf(ttl, now))], Flag(true))
      else (m, Flag(false))
    case CompareAndDelete(k, expected) =>
      if IsStr(m, k, expected) then (m - {k}, Flag(true)) else (m, Flag(false))
    case CompareAndExpire(k, expected, ttl) =>
      if IsStr(m, k, expected) then (m[k := m[k].(expireAt := ExpiryOf(ttl, now))], Flag(true)) else (m, Flag(false))
    case SAdd(k, members) =>
      var cur := MembersAt(m, k);
      var exp := if k in m && m[k].data.Members? then m[k].expireAt else Never;
      (m[k := Entry(Members(cur + ToSet(members)), exp)], Count(|ToSet(members) - cur|))
    case SRem(k, members) =>
      if k !in m || !m[k].data.Members? then (m, Count(0))
      else
        var rest := m[k].data.members - ToSet(members);
        (if rest == {} then m - {k} else m[k := m[k].(data := Members(rest))],
         Count(|ToSet(members) * m[k].data.members|))
    case SMembers(k) => (m, Names(MembersAt(m, k)))
    case Scan(prefix) => (m, Names(ScanNames(m, prefix + "*")))
  }

  /** The keys a scan pattern selects. */
  ghost predicate Selects(pattern: string, key: string) {
    pattern == "" || pattern == "*" || Glob.Matches(Glob.Tokens(pattern), key)
  }

  ghost function ScanNames(m: Keyspace, pattern: string): set<string> {
    set k | k in m && Selects(pattern, k)
  }
}
