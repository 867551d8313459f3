/** Concurrent updates of one stored session: each updater reads the stored bytes,
    applies its mutator and compares-and-sets against exactly the bytes it read. */
module Sessions {
  import opened TtlStore
  import opened Backends
  import opened Wrappers

  datatype Session = Session(id: string, userId: string, lastSeenAt: int, expiresAt: Option<int>, version: int,
                             data: map<string, string>)

  /** A session without an expiry never expires. */
  predicate Expired(s: Session, now: int) {
    s.expiresAt.Some? && now > s.expiresAt.value
  }

  /** How sessions are stored: an encoding that decodes back and is never empty. */
  datatype Codec = Codec(enc: Session -> string, dec: string -> Option<Session>)

  ghost predicate Faithful(c: Codec) {
    forall s :: c.dec(c.enc(s)) == Some(s) && c.enc(s) != ""
  }

  /** Mutator `k` applied to a session; None when it reports an error. */
  type Mutators = (nat, Session) -> Option<Session>

  /** Mutators leave the version to Update. */
  ghost predicate LeaveVersion(mutate: Mutators) {
    forall k, s :: mutate(k, s).Some? ==> mutate(k, s).value.version == s.version
  }

  /** The session's id and key, and the key of each user's set of sessions. */
  datatype Setup = Setup(id: string, key: string, indexKey: string -> string, codec: Codec, mutate: Mutators,
                         defaultTtl: int)

  const MAX_RETRY := 5

  /** An Update call under way.  `since` and `seen` record how many values had been
      stored when it started and when it last read. */
  datatype Updater = Updater(tries: nat, raw: Option<string>, since: nat, seen: nat)

  /** `stored` lists the values stored so far and `winners` the mutators that produced
      all but the first. */
  datatype State = State(now: int, kv: Keyspace, updaters: map<nat, Updater>, stored: seq<Session>, winners: seq<nat>)

  /** Invalidate also stands for the deletion that follows the read of an expired session. */
  datatype Step = Tick(elapsed: nat) | Start(u: nat) | Read(u: nat) | Cas(u: nat, k: nat) | Invalidate

  function Updated(m: Session): Session {
    m.(version := m.version + 1)
  }

  function TtlFor(c: Setup, s: Session, now: int): int {
    if s.expiresAt.None? || s.expiresAt.value - now <= 0 then c.defaultTtl else s.expiresAt.value - now
  }

  ghost function ReadNext(c: Setup, st: State, u: nat): State
    requires u in st.updaters
  {
    match EmuStep(Evict(st.kv, st.now), st.now, Get(c.key)).1
    case Value(Some(raw)) =>
      var s := c.codec.dec(raw);
      if s.None? || Expired(s.value, st.now) then st.(updaters := st.updaters - {u})
      else st.(updaters := st.updaters[u := st.updaters[u].(raw := Some(raw), seen := |st.stored|)])
    case _ => st.(updaters := st.updaters - {u})
  }

  ghost function CasNext(c: Setup, st: State, u: nat, k: nat, raw: string): State
    requires u in st.updaters
  {
    var s := c.codec.dec(raw);
    if s.None? then st.(updaters := st.updaters - {u})
    else
      match c.mutate(k, s.value)
      case None => st.(updaters := st.updaters - {u})
      case Some(m) =>
        var new_ := Updated(m);
        var (kv, a) := EmuStep(Evict(st.kv, st.now), st.now,
                               CompareAndSwap(c.key, raw, c.codec.enc(new_), TtlFor(c, new_, st.now)));
        if a == Flag(true) then
          st.(kv := kv, updaters := st.updaters - {u}, stored := st.stored + [new_], winners := st.winners + [k])
        else
          var up := st.updaters[u];
          if up.tries + 1 == MAX_RETRY then st.(kv := kv, updaters := st.updaters - {u})
          else st.(kv := kv, updaters := st.updaters[u := up.(tries := up.tries + 1, raw := None)])
  }

  ghost function Next(c: Setup, st: State, step: Step): State {
    match step
    case Tick(d) => st.(now := st.now + d)
    case Start(u) =>
      if u in st.updaters then st
      else st.(updaters := st.updaters[u := Updater(0, None, |st.stored|, |st.stored|)])
    case Read(u) => if u in st.updaters && st.updaters[u].raw.None? then ReadNext(c, st, u) else st
    case Cas(u, k) =>
      if u in st.updaters && st.updaters[u].raw.Some? then CasNext(c, st, u, k, st.updaters[u].raw.value) else st
    case Invalidate => st.(kv := EmuStep(Evict(st.kv, st.now), st.now, Delete([c.key])).0)
  }

  ghost function Run(c: Setup, st: State, steps: seq<Step>): State
    decreases |steps|
  {
    if steps == [] then st else Run(c, Next(c, st, steps[0]), steps[1..])
  }

  /** Just after Create. */
  ghost function Created(c: Setup, s: Session, ttl: int): State {
    State(0, map[c.key := Entry(Str(c.codec.enc(s)), ExpiryOf(ttl, 0))], map[], [s], [])
  }

  ghost predicate Live(c: Setup, st: State) {
    c.key in Evict(st.kv, st.now)
  }

  /** Applying the winning mutators one after another. */
  ghost function Sequentially(c: Setup, s: Session, winners: seq<nat>): Option<Session> {
    if winners == [] then Some(s)
    else
      match Sequentially(c, s, winners[..|winners| - 1])
      case None => None
      case Some(before) =>
        match c.mutate(winners[|winners| - 1], before)
        case None => None
        case Some(m) => Some(Updated(m))
  }

  ghost predicate Inv(c: Setup, s0: Session, st: State) {
    && |st.stored| == |st.winners| + 1 && st.stored[0] == s0
    && (forall i :: 0 <= i <= |st.winners| ==> Sequentially(c, s0, st.winners[..i]) == Some(st.stored[i]))
    && (Live(c, st) ==> st.kv[c.key].data == Str(c.codec.enc(st.stored[|st.stored| - 1])))
    && (forall u :: u in st.updaters ==> UpdaterInv(c, st.stored, Live(c, st), st.updaters[u]))
  }

  ghost predicate UpdaterInv(c: Setup, stored: seq<Session>, live: bool, up: Updater) {
    && up.tries < MAX_RETRY && up.since <= |stored|
    && (up.raw.Some? ==> 0 < up.seen <= |stored| && up.raw.value == c.codec.enc(stored[up.seen - 1]))
    && (up.raw.Some? && live ==> up.tries <= up.seen - up.since)
    && (up.raw.None? && live ==> up.tries <= |stored| - up.since)
  }

  lemma {:induction false} InvRead(c: Setup, s0: Session, st: State, u: nat)
    requires Faithful(c.codec) && Inv(c, s0, st)
    ensures Inv(c, s0, Next(c, st, Read(u)))
  {
  }

  lemma {:induction false} CasEffect(c: Setup, st: State, raw: string, new_: string, ttl: int)
    requires raw != ""
    ensures var (kv, a) := EmuStep(Evict(st.kv, st.now), st.now, CompareAndSwap(c.key, raw, new_, ttl));
            && (a == Flag(true) <==> Live(c, st) && st.kv[c.key].data == Str(raw))
            && (a == Flag(true) ==> c.key in Evict(kv, st.now) && kv[c.key].data == Str(new_))
            && (a != Flag(true) ==> kv == Evict(st.kv, st.now))
  {
  }

  /** A compare-and-set that succeeds appends one value and one winner. */
  lemma {:induction false} InvWin(c: Setup, s0: Session, st: State, u: nat, k: nat)
    requires Faithful(c.codec) && Inv(c, s0, st) && u in st.updaters && st.updaters[u].raw.Some?
    requires |Next(c, st, Cas(u, k)).stored| > |st.stored|
    ensures Inv(c, s0, Next(c, st, Cas(u, k)))
  {
    var up := st.updaters[u];
    var last := st.stored[|st.stored| - 1];
    var raw := up.raw.value;
    var s := c.codec.dec(raw).value;
    var m := c.mutate(k, s).value;
    CasEffect(c, st, raw, c.codec.enc(Updated(m)), TtlFor(c, Updated(m), st.now));
    assert c.codec.dec(c.codec.enc(last)) == Some(last);
    assert s == last;
    var st' := Next(c, st, Cas(u, k));
    assert st'.winners[..|st.winners|] == st.winners && st.winners[..|st.winners|] == st.winners;
    assert st'.winners[..|st'.winners|] == st'.winners;
    forall i | 0 <= i <= |st'.winners|
      ensures Sequentially(c, s0, st'.winners[..i]) == Some(st'.stored[i])
    {
      if i <= |st.winners| {
        assert st'.winners[..i] == st.winners[..i];
      }
    }
  }

  /** One that fails only counts the attempt, or ends the call; what was read is then
      no longer what is stored. */
  lemma {:induction false} LoseShape(c: Setup, st: State, u: nat, k: nat)
    requires Faithful(c.codec) && u in st.updaters && st.updaters[u].raw.Some? && st.updaters[u].raw.value != ""
    requires |Next(c, st, Cas(u, k)).stored| == |st.stored|
    ensures var st', up := Next(c, st, Cas(u, k)), st.updaters[u];
            && (st'.kv == st.kv || st'.kv == Evict(st.kv, st.now))
            && (st' == st.(kv := st'.kv, updaters := st.updaters - {u}) ||
                (up.tries + 1 != MAX_RETRY &&
                 st' == st.(kv := st'.kv, updaters := st.updaters[u := up.(tries := up.tries + 1, raw := None)]) &&
                 (Live(c, st) ==> st.kv[c.key].data != Str(up.raw.value))))
  {
    var up := st.updaters[u];
    var s := c.codec.dec(up.raw.value);
    if s.Some? && c.mutate(k, s.value).Some? {
      var new_ := Updated(c.mutate(k, s.value).value);
      CasEffect(c, st, up.raw.value, c.codec.enc(new_), TtlFor(c, new_, st.now));
    }
  }

  lemma {:induction false} InvLose(c: Setup, s0: Session, st: State, u: nat, k: nat)
    requires Faithful(c.codec) && Inv(c, s0, st) && u in st.updaters && st.updaters[u].raw.Some?
    requires |Next(c, st, Cas(u, k)).stored| == |st.stored|
    ensures Inv(c, s0, Next(c, st, Cas(u, k)))
  {
    LoseShape(c, st, u, k);
    SameKey(c, st, Next(c, st, Cas(u, k)));
    Kept(c, s0, st, u, Next(c, st, Cas(u, k)));
  }

  lemma {:induction false} SameKey(c: Setup, st: State, st': State)
    requires st'.now == st.now && (st'.kv == st.kv || st'.kv == Evict(st.kv, st.now))
    ensures Live(c, st') == Live(c, st) && (Live(c, st) ==> st'.kv[c.key] == st.kv[c.key])
  {
    EvictTwice(st.kv, st.now, st.now);
  }

  lemma {:induction false} Kept(c: Setup, s0: Session, st: State, u: nat, st': State)
    requires Inv(c, s0, st) && u in st.updaters && st.updaters[u].raw.Some?
    requires Live(c, st') == Live(c, st) && (Live(c, st) ==> st'.kv[c.key] == st.kv[c.key])
    requires var up := st.updaters[u];
             st' == st.(kv := st'.kv, updaters := st.updaters - {u}) ||
             (up.tries + 1 < MAX_RETRY &&
              st' == st.(kv := st'.kv, updaters := st.updaters[u := up.(tries := up.tries + 1, raw := None)]) &&
              (Live(c, st) ==> st.kv[c.key].data != Str(up.raw.value)))
    ensures Inv(c, s0, st')
  {
    assert UpdaterInv(c, st.stored, Live(c, st), st.updaters[u]);
    forall v | v in st'.updaters
      ensures UpdaterInv(c, st'.stored, Live(c, st'), st'.updaters[v])
    {
      assert UpdaterInv(c, st.stored, Live(c, st), st.updaters[v]);
    }
  }

  lemma {:induction false} InvNext(c: Setup, s0: Session, st: State, step: Step)
    requires Faithful(c.codec) && Inv(c, s0, st)
    ensures Inv(c, s0, Next(c, st, step))
  {
    match step
    case Tick(_) =>
    case Start(_) =>
    case Read(u) => InvRead(c, s0, st, u);
    case Cas(u, k) =>
      if u in st.updaters && st.updaters[u].raw.Some? {
        if |Next(c, st, step).stored| > |st.stored| {
          InvWin(c, s0, st, u, k);
        } else {
          InvLose(c, s0, st, u, k);
        }
      }
    case Invalidate =>
  }

  lemma {:induction false} InvRun(c: Setup, s0: Session, st: State, steps: seq<Step>)
    requires Faithful(c.codec) && Inv(c, s0, st)
    ensures Inv(c, s0, Run(c, st, steps))
    decreases |steps|
  {
    if steps != [] {
      InvNext(c, s0, st, steps[0]);
      InvRun(c, s0, Next(c, st, steps[0]), steps[1..]);
    }
  }

  /** No lost update: whatever the interleaving, the stored session is the winning
      mutators applied one after another in the order they won. */
  lemma {:induction false} Serialized(c: Setup, s0: Session, ttl: int, steps: seq<Step>)
    requires Faithful(c.codec)
    ensures var st := Run(c, Created(c, s0, ttl), steps);
            Live(c, st) ==>
              exists s :: Sequentially(c, s0, st.winners) == Some(s) && st.kv[c.key].data == Str(c.codec.enc(s))
  {
    InvRun(c, s0, Created(c, s0, ttl), steps);
    var st := Run(c, Created(c, s0, ttl), steps);
    assert st.winners[..|st.winners|] == st.winners;
  }

  lemma {:induction false} VersionsCount(c: Setup, s0: Session, winners: seq<nat>)
    requires LeaveVersion(c.mutate) && Sequentially(c, s0, winners).Some?
    ensures Sequentially(c, s0, winners).value.version == s0.version + |winners|
  {
    if winners != [] {
      VersionsCount(c, s0, winners[..|winners| - 1]);
    }
  }

  /** With mutators that leave the version alone, the version counts the wins and no
      value is ever stored twice. */
  lemma {:induction false} VersionsAdvance(c: Setup, s0: Session, ttl: int, steps: seq<Step>)
    requires Faithful(c.codec) && LeaveVersion(c.mutate) && s0.version == 1
    ensures var st := Run(c, Created(c, s0, ttl), steps);
            && |st.stored| == |st.winners| + 1
            && st.stored[|st.winners|].version == 1 + |st.winners|
            && forall i, j :: 0 <= i < j < |st.stored| ==> st.stored[i] != st.stored[j]
  {
    InvRun(c, s0, Created(c, s0, ttl), steps);
    var st := Run(c, Created(c, s0, ttl), steps);
    forall i | 0 <= i < |st.stored|
      ensures st.stored[i].version == 1 + i
    {
      VersionsCount(c, s0, st.winners[..i]);
    }
  }

  /** Once invalidated or expired, a session is never brought back by an update in flight. */
  lemma {:induction false} NeverResurrected(c: Setup, s0: Session, st: State, steps: seq<Step>)
    requires Faithful(c.codec) && Inv(c, s0, st) && !Live(c, st)
    ensures !Live(c, Run(c, st, steps)) && Run(c, st, steps).stored == st.stored
    decreases |steps|
  {
    if steps != [] {
      InvNext(c, s0, st, steps[0]);
      StaysDead(c, s0, st, steps[0]);
      NeverResurrected(c, s0, Next(c, st, steps[0]), steps[1..]);
    }
  }

  lemma {:induction false} StaysDead(c: Setup, s0: Session, st: State, step: Step)
    requires Faithful(c.codec) && Inv(c, s0, st) && !Live(c, st)
    ensures !Live(c, Next(c, st, step)) && Next(c, st, step).stored == st.stored
  {
    if step.Cas? && step.u in st.updaters && st.updaters[step.u].raw.Some? {
      var raw := st.updaters[step.u].raw.value;
      assert raw != "";
    }
  }

  /** A conflict is reported, for a session still there, only after five other
      updates won since the call started. */
  lemma {:induction false} ConflictNeedsFiveWins(c: Setup, s0: Session, ttl: int, steps: seq<Step>, u: nat, k: nat)
    requires Faithful(c.codec)
    requires var st := Run(c, Created(c, s0, ttl), steps);
             && u in st.updaters && st.updaters[u].raw.Some? && st.updaters[u].tries + 1 == MAX_RETRY && Live(c, st)
             && var s := c.codec.dec(st.updaters[u].raw.value);
             && s.Some? && c.mutate(k, s.value).Some?
             && |Next(c, st, Cas(u, k)).stored| == |st.stored|
    ensures var st := Run(c, Created(c, s0, ttl), steps);
            |st.stored| - st.updaters[u].since >= MAX_RETRY
  {
    InvRun(c, s0, Created(c, s0, ttl), steps);
    var st := Run(c, Created(c, s0, ttl), steps);
    var up := st.updaters[u];
    var new_ := Updated(c.mutate(k, c.codec.dec(up.raw.value).value).value);
    CasEffect(c, st, up.raw.value, c.codec.enc(new_), TtlFor(c, new_, st.now));
    assert up.seen != |st.stored|;
  }

  // ---- The retry loop itself ----

  datatype Outcome =
    | Saved(session: Session)
    | NotFound
    | Undecodable
    | SessionExpired
    | MutatorFailed
    | Conflict

  /** Anything the other clients may do to the store between two of our operations. */
  method Others(store: Emulator)
    modifies store`data
  {
    store.data := *;
  }

  /** What one attempt found: the live keys at its read and at its compare-and-set. */
  datatype Try = Try(atRead: Keyspace, readAt: int, atSwap: Keyspace, casAt: int)

  /** What an attempt decides, or None when it lost the race and another follows. */
  ghost function Verdict(c: Setup, k: nat, t: Try): Option<Outcome> {
    match EmuStep(t.atRead, t.readAt, Get(c.key)).1
    case Value(Some(raw)) =>
      (match c.codec.dec(raw)
       case None => Some(Undecodable)
       case Some(s) =>
         if Expired(s, t.readAt) then Some(SessionExpired)
         else
           match c.mutate(k, s)
           case None => Some(MutatorFailed)
           case Some(m) =>
             // An empty expectation stands for an absent key.
             if (if raw == "" then c.key !in t.atSwap else IsStr(t.atSwap, c.key, raw))
             then Some(Saved(Updated(m))) else None)
    case _ => Some(NotFound)
  }

  /** The user whose index lists the stored session, if it can be told. */
  function Owner(c: Setup, m: Keyspace): Option<string> {
    if c.key in m && m[c.key].data.Str? && c.codec.dec(m[c.key].data.str).Some?
       && c.codec.dec(m[c.key].data.str).value.userId != ""
    then Some(c.codec.dec(m[c.key].data.str).value.userId) else None
  }

  /** The session's own key and its user's index. */
  predicate Concerns(c: Setup, m: Keyspace, k: string) {
    k == c.key || (Owner(c, m).Some? && k == c.indexKey(Owner(c, m).value))
  }

  predicate SameAt(m: Keyspace, m': Keyspace, k: string) {
    (k in m <==> k in m') && (k in m ==> m[k] == m'[k])
  }

  lemma {:induction false} LeavesIndex(m: Keyspace, now: int, key: string, id: string, m': Keyspace)
    requires m' == EmuStep(m, now, SRem(key, [id])).0
    ensures id !in MembersAt(m', key)
    ensures forall k :: k != key ==> SameAt(m, m', k)
  {
    assert id in ToSet([id]) by { assert [id][0] == id; }
  }

  /** Takes the session off its user's index, when it can tell which, and deletes it. */
  method Invalidate(store: Emulator, c: Setup, now: int)
    requires forall u :: c.indexKey(u) != c.key
    modifies store`data
    ensures c.key !in store.Live(now)
    ensures Owner(c, old(store.Live(now))).Some? ==>
              c.id !in MembersAt(store.Live(now), c.indexKey(Owner(c, old(store.Live(now))).value))
    ensures forall k :: !Concerns(c, old(store.Live(now)), k) ==> SameAt(old(store.Live(now)), store.Live(now), k)
  {
    ghost var before := store.Live(now);
    var raw := store.Get(c.key, now);
    if raw.Some? {
      var s := c.codec.dec(raw.value);
      if s.Some? && s.value.userId != "" {
        var _ := store.SRem(c.indexKey(s.value.userId), [c.id], now);
        LeavesIndex(before, now, c.indexKey(s.value.userId), c.id, store.Live(now));
      }
    }
    var _ := store.DelOne(c.key, now);
  }

  /** One attempt: a read and a compare-and-set, with other clients before each. */
  method Attempt(store: Emulator, c: Setup, k: nat, readAt: int, casAt: int)
    returns (r: Option<Outcome>, ghost replaced: Session, ghost t: Try)
    requires Faithful(c.codec) && forall u :: c.indexKey(u) != c.key
    modifies store`data
    ensures r == Verdict(c, k, t) && r != Some(Conflict)
    ensures r.Some? && r.value.Saved? ==>
              Stores(c, k, replaced, r.value.session, store.data) && !Expired(replaced, readAt)
    ensures r == Some(SessionExpired) ==> c.key !in store.Live(casAt)
  {
    replaced := Session("", "", 0, None, 0, map[]);
    Others(store);
    ghost var atRead := store.Live(readAt);
    var raw := store.Get(c.key, readAt);
    Others(store);
    t := Try(atRead, readAt, store.Live(casAt), casAt);
    if raw.None? {
      return Some(NotFound), replaced, t;
    }
    var s := c.codec.dec(raw.value);
    if s.None? {
      return Some(Undecodable), replaced, t;
    }
    if Expired(s.value, readAt) {
      Invalidate(store, c, casAt);
      return Some(SessionExpired), replaced, t;
    }
    var m := c.mutate(k, s.value);
    if m.None? {
      return Some(MutatorFailed), replaced, t;
    }
    var next := Updated(m.value);
    var ok := store.CompareAndSet(c.key, raw.value, c.codec.enc(next), TtlFor(c, next, casAt), casAt);
    if !ok {
      return None, replaced, t;
    }
    assert c.key in store.Live(casAt);
    return Some(Saved(next)), s.value, t;
  }

  /** The store holds the mutation of `replaced`. */
  ghost predicate Stores(c: Setup, k: nat, replaced: Session, saved: Session, data: Keyspace) {
    && c.mutate(k, replaced).Some? && saved == Updated(c.mutate(k, replaced).value)
    && IsStr(data, c.key, c.codec.enc(saved))
  }

  /** Update: `clock` gives the time of each attempt's read and compare-and-set.  It tries
      again exactly while it loses the race, gives up after the last attempt, and on success
      the bytes replaced were exactly those of the session the mutator was given, whatever
      other clients did in between. */
  method Update(store: Emulator, c: Setup, k: nat, clock: seq<(int, int)>)
    returns (r: Outcome, attempts: nat, ghost replaced: Session, ghost tries: seq<Try>)
    requires Faithful(c.codec) && |clock| == MAX_RETRY && forall u :: c.indexKey(u) != c.key
    modifies store`data
    ensures 0 < attempts == |tries| <= MAX_RETRY
    ensures forall i :: 0 <= i < attempts - 1 ==> Verdict(c, k, tries[i]).None?
    ensures Verdict(c, k, tries[attempts - 1]) == if r == Conflict then None else Some(r)
    ensures r == Conflict ==> attempts == MAX_RETRY
    ensures r.Saved? ==> Stores(c, k, replaced, r.session, store.data) && !Expired(replaced, clock[attempts - 1].0)
    ensures r == SessionExpired ==> c.key !in store.Live(clock[attempts - 1].1)
  {
    attempts, tries := 0, [];
    while attempts < MAX_RETRY
      invariant attempts == |tries| <= MAX_RETRY
      invariant forall i :: 0 <= i < attempts ==> Verdict(c, k, tries[i]).None?
    {
      var (readAt, casAt) := clock[attempts];
      ghost var t;
      var verdict;
      verdict, replaced, t := Attempt(store, c, k, readAt, casAt);
      attempts, tries := attempts + 1, tries + [t];
      if verdict.Some? {
        return verdict.value, attempts, replaced, tries;
      }
    }
    r := Conflict;
    replaced := Session("", "", 0, None, 0, map[]);
  }
}
