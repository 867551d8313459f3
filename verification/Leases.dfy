/** Distributed locks over one backend: any number of managers whose atomic backend
    operations interleave.  Acquiring and renewing take two steps, the backend write
    and, later, the reading of the clock that the lock's validity counts from. */
module Leases {
  import opened TtlStore
  import opened Keys
  import opened Backends

  /** An extension written to the backend and not yet stamped. */
  datatype Renewal = Renewal(write: int, lease: int)

  /** `until` records when the key expires after the lock's last successful write. */
  datatype Lock = Lock(key: string, lease: int, acquiredAt: int, released: bool, lost: bool,
                       renewals: seq<Renewal>, until: int)

  datatype Acquisition = Acquisition(key: string, write: int, lease: int)

  datatype State = State(now: int, kv: Cells, acquiring: map<string, Acquisition>, locks: map<string, Lock>)

  /** One key prefix and cluster, and the share of a lease kept back for clock drift. */
  datatype Setup = Setup(builder: Builder, driftFactor: real)

  ghost predicate Sane(c: Setup) {
    0.0 <= c.driftFactor < 1.0
  }

  function Drift(c: Setup, lease: int): int {
    ((lease as real) * c.driftFactor).Floor
  }

  function ValidUntil(c: Setup, l: Lock): int {
    l.acquiredAt + (l.lease - Drift(c, l.lease))
  }

  datatype Step =
    | Tick(elapsed: nat)
    | AcquireWrite(token: string, resource: string, lease: int)
    | AcquireStamp(token: string)
    | RenewWrite(token: string, lease: int)
    | RenewStamp(token: string, index: nat)
    | ReleaseMark(token: string)
    | ReleaseDelete(token: string)
    | Foreign(kind: string, id: string, cell: Cell)

  /** The backend's map and answer after an operation at the current time. */
  function Backend(st: State, op: Op): (r: (Cells, bool))
    requires op.SetNX? || op.CompareAndExpire? || op.CompareAndDelete?
  {
    var (s, a) := MemStep(MemState(Purge(st.kv, st.now), map[]), st.now, op);
    (s.kv, a.flag)
  }

  function Next(c: Setup, st: State, step: Step): State {
    match step
    case Tick(d) => st.(now := st.now + d)
    case AcquireWrite(t, resource, lease) =>
      // Tokens are random; a lease is positive by configuration.
      if t in st.acquiring || t in st.locks || lease <= 0 then st
      else
        var key := LockKey(c.builder, resource);
        var (kv, ok) := Backend(st, SetNX(key, t, lease));
        if ok then st.(kv := kv, acquiring := st.acquiring[t := Acquisition(key, st.now, lease)])
        else st.(kv := kv)
    case AcquireStamp(t) =>
      if t !in st.acquiring then st
      else
        var a := st.acquiring[t];
        st.(acquiring := st.acquiring - {t},
            locks := st.locks[t := Lock(a.key, a.lease, st.now, false, false, [], a.write + a.lease)])
    case RenewWrite(t, asked) =>
      if t !in st.locks then st
      else
        var l := st.locks[t];
        var lease := LeaseFor(l, asked);
        var (kv, ok) := Backend(st, CompareAndExpire(l.key, t, lease));
        if ok then
          st.(kv := kv, locks := st.locks[t := l.(renewals := l.renewals + [Renewal(st.now, lease)],
                                                  until := st.now + lease)])
        else st.(kv := kv, locks := st.locks[t := l.(lost := true)])
    case RenewStamp(t, i) =>
      if t !in st.locks || i >= |st.locks[t].renewals| then st
      else
        var l := st.locks[t];
        st.(locks := st.locks[t := l.(lease := l.renewals[i].lease, acquiredAt := st.now,
                                      renewals := l.renewals[..i] + l.renewals[i + 1..])])
    case ReleaseMark(t) =>
      if t !in st.locks then st else st.(locks := st.locks[t := st.locks[t].(released := true)])
    case ReleaseDelete(t) =>
      if t !in st.locks || !st.locks[t].released then st
      else st.(kv := Backend(st, CompareAndDelete(st.locks[t].key, t)).0)
    case Foreign(kind, id, cell) =>
      // Another service writes a key of its own kind.
      if kind == "lock" || ':' in kind then st else st.(kv := st.kv[Root(c.builder, [kind, id]) := cell])
  }

  const INIT := State(0, map[], map[], map[])

  function Run(c: Setup, st: State, steps: seq<Step>): State
    decreases |steps|
  {
    if steps == [] then st else Run(c, Next(c, st, steps[0]), steps[1..])
  }

  /** What holders must respect: stamps follow their write within the drift allowance, a
      lock has at most one renewal under way, and no renewal ends before what the lock
      still claims. */
  datatype Rules = Rules(promptStamps: bool, oneRenewal: bool, noShortening: bool)

  const ALL_RULES := Rules(true, true, true)

  /** The lease a renewal writes: what was asked for, else the lock's own. */
  function LeaseFor(l: Lock, asked: int): int {
    if asked <= 0 then l.lease else asked
  }

  predicate Allowed(r: Rules, c: Setup, st: State, step: Step) {
    match step
    case AcquireStamp(t) =>
      r.promptStamps && t in st.acquiring ==> st.now - st.acquiring[t].write <= Drift(c, st.acquiring[t].lease)
    case RenewStamp(t, i) =>
      r.promptStamps && t in st.locks && i < |st.locks[t].renewals| ==>
        st.now - st.locks[t].renewals[i].write <= Drift(c, st.locks[t].renewals[i].lease)
    case RenewWrite(t, asked) =>
      t in st.locks ==>
        && (r.oneRenewal ==> st.locks[t].renewals == [])
        && (r.noShortening ==> ValidUntil(c, st.locks[t]) <= st.now + LeaseFor(st.locks[t], asked))
    case _ => true
  }

  predicate AllowedRun(r: Rules, c: Setup, st: State, steps: seq<Step>)
    decreases |steps|
  {
    steps == [] || (Allowed(r, c, st, steps[0]) && AllowedRun(r, c, Next(c, st, steps[0]), steps[1..]))
  }

  /** The holder may rely on the lock: it is unreleased and before its validity ends. */
  predicate Relied(c: Setup, st: State, t: string) {
    t in st.locks && !st.locks[t].released && st.now < ValidUntil(c, st.locks[t])
  }

  ghost predicate Exclusive(c: Setup, st: State) {
    forall t, u :: Relied(c, st, t) && Relied(c, st, u) && st.locks[t].key == st.locks[u].key ==> t == u
  }

  /** The backend names `t` as the holder of the key until then. */
  predicate Named(now: int, kv: Cells, t: string, key: string, until: int) {
    now < until ==> key in kv && kv[key] == Cell(t, At(until))
  }

  /** A lock claims no more than its last write gave it. */
  ghost predicate LockInv(c: Setup, l: Lock) {
    && l.lease > 0 && ValidUntil(c, l) <= l.until
    && |l.renewals| <= 1
    && (l.renewals != [] ==> l.renewals[0].lease > 0 && l.renewals[0].write + l.renewals[0].lease == l.until)
  }

  ghost predicate IsLockKey(c: Setup, key: string) {
    exists r :: key == LockKey(c.builder, r)
  }

  ghost predicate AcquiringInv(c: Setup, now: int, kv: Cells, t: string, a: Acquisition) {
    Named(now, kv, t, a.key, a.write + a.lease) && a.lease > 0 && IsLockKey(c, a.key)
  }

  ghost predicate HeldInv(c: Setup, now: int, kv: Cells, t: string, l: Lock) {
    (!l.released ==> Named(now, kv, t, l.key, l.until)) && LockInv(c, l) && IsLockKey(c, l.key)
  }

  ghost predicate Inv(c: Setup, st: State) {
    && (forall t :: t in st.acquiring ==> t !in st.locks && AcquiringInv(c, st.now, st.kv, t, st.acquiring[t]))
    && (forall t :: t in st.locks ==> HeldInv(c, st.now, st.kv, t, st.locks[t]))
  }

  lemma {:induction false} InvExclusive(c: Setup, st: State)
    requires Inv(c, st)
    ensures Exclusive(c, st)
    ensures forall t :: Relied(c, st, t) ==>
              st.locks[t].key in Purge(st.kv, st.now) && st.kv[st.locks[t].key].value == t
  {
    forall t | Relied(c, st, t)
      ensures st.now < st.locks[t].until
    {
      assert LockInv(c, st.locks[t]);
    }
  }

  /** A SetNX that succeeds disturbs nobody the backend still names. */
  lemma {:induction false} SetNXEffect(st: State, key: string, t: string, lease: int)
    requires lease > 0
    ensures var (kv, ok) := Backend(st, SetNX(key, t, lease));
            && (ok ==> Named(st.now, kv, t, key, st.now + lease))
            && forall u, k, until :: Named(st.now, st.kv, u, k, until) ==> Named(st.now, kv, u, k, until)
  {
  }

  lemma {:induction false} InvAcquireWrite(c: Setup, st: State, t: string, resource: string, lease: int)
    requires Inv(c, st)
    ensures Inv(c, Next(c, st, AcquireWrite(t, resource, lease)))
  {
    if t !in st.acquiring && t !in st.locks && lease > 0 {
      SetNXEffect(st, LockKey(c.builder, resource), t, lease);
    }
  }

  /** Extending or deleting by token touches only the key that holds the token. */
  lemma {:induction false} TokenEffect(st: State, key: string, t: string, op: Op)
    requires (op.CompareAndExpire? && op.key == key && op.expected == t && op.ttl > 0) || op == CompareAndDelete(key, t)
    ensures var (kv, ok) := Backend(st, op);
            && (ok && op.CompareAndExpire? ==> Named(st.now, kv, t, key, st.now + op.ttl))
            && forall u, k, until :: u != t && Named(st.now, st.kv, u, k, until) ==> Named(st.now, kv, u, k, until)
    ensures var (kv, ok) := Backend(st, op);
            !ok ==> forall k, until :: Named(st.now, st.kv, t, k, until) ==> Named(st.now, kv, t, k, until)
  {
  }

  lemma {:induction false} InvRenewWrite(c: Setup, st: State, t: string, asked: int)
    requires Inv(c, st) && Allowed(ALL_RULES, c, st, RenewWrite(t, asked))
    ensures Inv(c, Next(c, st, RenewWrite(t, asked)))
  {
    if t in st.locks {
      var l, st' := st.locks[t], Next(c, st, RenewWrite(t, asked));
      assert HeldInv(c, st.now, st.kv, t, l);
      TokenEffect(st, l.key, t, CompareAndExpire(l.key, t, LeaseFor(l, asked)));
      assert HeldInv(c, st'.now, st'.kv, t, st'.locks[t]);
      forall u | u in st'.locks
        ensures HeldInv(c, st'.now, st'.kv, u, st'.locks[u])
      {
        assert u != t ==> HeldInv(c, st.now, st.kv, u, st.locks[u]);
      }
      forall u | u in st'.acquiring
        ensures AcquiringInv(c, st'.now, st'.kv, u, st'.acquiring[u])
      {
        assert AcquiringInv(c, st.now, st.kv, u, st.acquiring[u]);
      }
    }
  }

  lemma {:induction false} InvStamp(c: Setup, st: State, step: Step)
    requires Inv(c, st) && Allowed(ALL_RULES, c, st, step)
    requires step.AcquireStamp? || step.RenewStamp?
    ensures Inv(c, Next(c, st, step))
  {
  }

  lemma {:induction false} InvRelease(c: Setup, st: State, step: Step)
    requires Inv(c, st)
    requires step.ReleaseMark? || step.ReleaseDelete?
    ensures Inv(c, Next(c, st, step))
  {
    if step.ReleaseDelete? && step.token in st.locks {
      TokenEffect(st, st.locks[step.token].key, step.token, CompareAndDelete(st.locks[step.token].key, step.token));
    }
  }

  lemma {:induction false} InvForeign(c: Setup, st: State, kind: string, id: string, cell: Cell)
    requires Inv(c, st)
    ensures Inv(c, Next(c, st, Foreign(kind, id, cell)))
  {
    if kind != "lock" && ':' !in kind {
      var key := Root(c.builder, [kind, id]);
      if IsLockKey(c, key) {
        var r :| key == LockKey(c.builder, r);
        KeysDisjoint(c.builder, "lock", r, kind, id);
      }
    }
  }

  lemma {:induction false} InvNext(c: Setup, st: State, step: Step)
    requires Inv(c, st) && Allowed(ALL_RULES, c, st, step)
    ensures Inv(c, Next(c, st, step))
  {
    match step
    case Tick(_) =>
    case AcquireWrite(t, resource, lease) => InvAcquireWrite(c, st, t, resource, lease);
    case AcquireStamp(_) => InvStamp(c, st, step);
    case RenewWrite(t, lease) => InvRenewWrite(c, st, t, lease);
    case RenewStamp(_, _) => InvStamp(c, st, step);
    case ReleaseMark(_) => InvRelease(c, st, step);
    case ReleaseDelete(_) => InvRelease(c, st, step);
    case Foreign(kind, id, cell) => InvForeign(c, st, kind, id, cell);
  }

  lemma {:induction false} InvRun(c: Setup, st: State, steps: seq<Step>)
    requires Inv(c, st) && AllowedRun(ALL_RULES, c, st, steps)
    ensures Inv(c, Run(c, st, steps))
    decreases |steps|
  {
    if steps != [] {
      InvNext(c, st, steps[0]);
      InvRun(c, Next(c, st, steps[0]), steps[1..]);
    }
  }

  /** Mutual exclusion over every allowed run: two different holders never both rely
      on a lock of the same resource. */
  lemma {:induction false} MutualExclusion(c: Setup, steps: seq<Step>)
    requires Sane(c) && AllowedRun(ALL_RULES, c, INIT, steps)
    ensures Exclusive(c, Run(c, INIT, steps))
  {
    InvRun(c, INIT, steps);
    InvExclusive(c, Run(c, INIT, steps));
  }

  /** Fencing, in any state at all: renewing or releasing with a token that the key
      no longer holds changes nothing that is live. */
  lemma {:induction false} Fenced(c: Setup, st: State, t: string, step: Step)
    requires t in st.locks && (step == ReleaseDelete(t) || (step.RenewWrite? && step.token == t))
    requires !Holds(Purge(st.kv, st.now), st.locks[t].key, t)
    ensures Purge(Next(c, st, step).kv, st.now) == Purge(st.kv, st.now)
  {
    PurgeTwice(st.kv, st.now, st.now);
  }

  // ---- No rule can be given up ----

  /** Some run the rules allow reaches `st`. */
  ghost predicate Reaches(r: Rules, c: Setup, st: State) {
    exists steps :: AllowedRun(r, c, INIT, steps) && Run(c, INIT, steps) == st
  }

  lemma {:induction false} RunSnoc(r: Rules, c: Setup, st: State, steps: seq<Step>, x: Step)
    ensures Run(c, st, steps + [x]) == Next(c, Run(c, st, steps), x)
    ensures AllowedRun(r, c, st, steps + [x]) <==> AllowedRun(r, c, st, steps) && Allowed(r, c, Run(c, st, steps), x)
    decreases |steps|
  {
    if steps == [] {
      assert [x][1..] == [] && steps + [x] == [x];
      assert Run(c, Next(c, st, x), []) == Next(c, st, x);
    } else {
      assert (steps + [x])[1..] == steps[1..] + [x];
      RunSnoc(r, c, Next(c, st, steps[0]), steps[1..], x);
    }
  }

  lemma {:induction false} Then(r: Rules, c: Setup, st: State, x: Step, st': State)
    requires Reaches(r, c, st) && Allowed(r, c, st, x) && Next(c, st, x) == st'
    ensures Reaches(r, c, st')
  {
    var steps :| AllowedRun(r, c, INIT, steps) && Run(c, INIT, steps) == st;
    RunSnoc(r, c, INIT, steps, x);
  }

  lemma {:induction false} Begin(r: Rules, c: Setup)
    ensures Reaches(r, c, INIT)
  {
    assert AllowedRun(r, c, INIT, []) && Run(c, INIT, []) == INIT;
  }

  /** Some lease keeps at least two units after the drift allowance. */
  lemma {:induction false} LongLease(c: Setup) returns (n: int)
    requires Sane(c)
    ensures n > 0 && n - Drift(c, n) >= 2 && Drift(c, n) >= 0 && Drift(c, 1) == 0
  {
    var f := c.driftFactor;
    var share := 1.0 - f;
    var q := 2.0 / share;
    n := q.Floor + 1;
    var x := n as real;
    assert x > q && q * share == 2.0;
    assert (x - q) * share > 0.0;
    assert x * share == q * share + (x - q) * share;
    assert x * f == x - x * share;
    assert x * f >= 0.0;
  }

  /** The key passes from `t` to `u` when `t`'s lease ends, whatever `t` believes. */
  lemma {:induction false} Handover(c: Setup, st: State, k: string, u: string, lease: int)
    requires lease > 0 && k !in Purge(st.kv, st.now)
    ensures Backend(st, SetNX(k, u, lease)) == (Purge(st.kv, st.now)[k := Cell(u, At(st.now + lease))], true)
  {
  }

  /** A stamp taken after the lease ran out revives a lock another holder has. */
  lemma {:induction false} LateStampBreaks(c: Setup)
    requires Sane(c)
    ensures exists st :: Reaches(Rules(false, true, true), c, st) && !Exclusive(c, st)
  {
    var r := Rules(false, true, true);
    var k := LockKey(c.builder, "r");
    Begin(r, c);
    var none: Cells := map[];
    assert Purge(none, 0) == none;
    var s1 := INIT.(kv := map[k := Cell("t", At(1))], acquiring := map["t" := Acquisition(k, 0, 1)]);
    Then(r, c, INIT, AcquireWrite("t", "r", 1), s1);
    var s2 := s1.(now := 1);
    Then(r, c, s1, Tick(1), s2);
    assert Purge(s2.kv, 1) == map[];
    Handover(c, s2, k, "u", 1);
    var s3 := s2.(kv := map[k := Cell("u", At(2))],
                  acquiring := map["t" := Acquisition(k, 0, 1), "u" := Acquisition(k, 1, 1)]);
    Then(r, c, s2, AcquireWrite("u", "r", 1), s3);
    var lu := Lock(k, 1, 1, false, false, [], 2);
    var s4 := s3.(acquiring := map["t" := Acquisition(k, 0, 1)], locks := map["u" := lu]);
    assert s3.acquiring - {"u"} == s4.acquiring;
    Then(r, c, s3, AcquireStamp("u"), s4);
    var lt := Lock(k, 1, 1, false, false, [], 1);
    var s5 := s4.(acquiring := map[], locks := map["u" := lu, "t" := lt]);
    assert s4.acquiring - {"t"} == map[];
    Then(r, c, s4, AcquireStamp("t"), s5);
    assert Drift(c, 1) == 0;
    assert Relied(c, s5, "t") && Relied(c, s5, "u");
  }

  /** A lock acquired for `n` units and stamped at once. */
  function Long(k: string, n: int): Lock {
    Lock(k, n, 0, false, false, [], n)
  }

  lemma {:induction false} LongReached(r: Rules, c: Setup, k: string, n: int)
    requires Sane(c) && n > 0 && Drift(c, n) >= 0 && k == LockKey(c.builder, "r")
    ensures Reaches(r, c, State(0, map[k := Cell("t", At(n))], map[], map["t" := Long(k, n)]))
  {
    Begin(r, c);
    var none: Cells := map[];
    assert Purge(none, 0) == none;
    var s1 := INIT.(kv := map[k := Cell("t", At(n))], acquiring := map["t" := Acquisition(k, 0, n)]);
    Then(r, c, INIT, AcquireWrite("t", "r", n), s1);
    var s2 := State(0, map[k := Cell("t", At(n))], map[], map["t" := Long(k, n)]);
    assert s1.acquiring - {"t"} == map[];
    Then(r, c, s1, AcquireStamp("t"), s2);
  }

  /** A lock that claims more than the backend gave it loses its key while it is relied on. */
  lemma {:induction false} Usurped(r: Rules, c: Setup, k: string, lt: Lock)
    requires Sane(c) && Drift(c, 1) == 0 && k == LockKey(c.builder, "r")
    requires lt.key == k && !lt.released && ValidUntil(c, lt) >= 2
    requires Reaches(r, c, State(0, map[k := Cell("t", At(1))], map[], map["t" := lt]))
    ensures exists st :: Reaches(r, c, st) && !Exclusive(c, st)
  {
    var s0 := State(0, map[k := Cell("t", At(1))], map[], map["t" := lt]);
    var s1 := s0.(now := 1);
    Then(r, c, s0, Tick(1), s1);
    assert Purge(s1.kv, 1) == map[];
    Handover(c, s1, k, "u", 1);
    var s2 := s1.(kv := map[k := Cell("u", At(2))], acquiring := map["u" := Acquisition(k, 1, 1)]);
    Then(r, c, s1, AcquireWrite("u", "r", 1), s2);
    var lu := Lock(k, 1, 1, false, false, [], 2);
    var s3 := s2.(acquiring := map[], locks := map["t" := lt, "u" := lu]);
    assert s2.acquiring - {"u"} == map[];
    Then(r, c, s2, AcquireStamp("u"), s3);
    assert Relied(c, s3, "t") && Relied(c, s3, "u");
  }

  const OVERLAPPING := Rules(true, false, true)

  /** Two renewals at once: the stamp of the longer one lands on the key the shorter
      one wrote. */
  lemma {:induction false} OverlapBreaks(c: Setup)
    requires Sane(c)
    ensures exists st :: Reaches(OVERLAPPING, c, st) && !Exclusive(c, st)
  {
    var k := LockKey(c.builder, "r");
    var n := LongLease(c);
    TwoRenewals(c, k, n);
    var l2 := Long(k, 1).(renewals := [Renewal(0, n), Renewal(0, 1)], until := 1);
    var s2 := State(0, map[k := Cell("t", At(1))], map[], map["t" := l2]);
    var l3 := l2.(lease := n, renewals := [Renewal(0, 1)]);
    var s3 := s2.(locks := map["t" := l3]);
    assert l2.renewals[..0] + l2.renewals[1..] == [Renewal(0, 1)];
    Then(OVERLAPPING, c, s2, RenewStamp("t", 0), s3);
    Usurped(OVERLAPPING, c, k, l3);
  }

  lemma {:induction false} TwoRenewals(c: Setup, k: string, n: int)
    requires Sane(c) && n > 0 && Drift(c, 1) == 0 && k == LockKey(c.builder, "r")
    ensures Reaches(OVERLAPPING, c, State(0, map[k := Cell("t", At(1))], map[],
                    map["t" := Long(k, 1).(renewals := [Renewal(0, n), Renewal(0, 1)], until := 1)]))
  {
    LongReached(OVERLAPPING, c, k, 1);
    var s0 := State(0, map[k := Cell("t", At(1))], map[], map["t" := Long(k, 1)]);
    assert Purge(s0.kv, 0) == s0.kv;
    var l1 := Long(k, 1).(renewals := [Renewal(0, n)], until := n);
    var s1 := State(0, map[k := Cell("t", At(n))], map[], map["t" := l1]);
    assert s0.kv[k := Cell("t", At(n))] == s1.kv && [] + [Renewal(0, n)] == [Renewal(0, n)];
    Then(OVERLAPPING, c, s0, RenewWrite("t", n), s1);
    var l2 := l1.(renewals := [Renewal(0, n), Renewal(0, 1)], until := 1);
    var s2 := s1.(kv := map[k := Cell("t", At(1))], locks := map["t" := l2]);
    assert Purge(s1.kv, 0) == s1.kv && [Renewal(0, n)] + [Renewal(0, 1)] == l2.renewals;
    Then(OVERLAPPING, c, s1, RenewWrite("t", 1), s2);
  }

  const SHORTENING := Rules(true, true, false)

  /** A shorter renewal, written and not yet stamped, leaves the longer claim standing. */
  lemma {:induction false} ShorteningBreaks(c: Setup)
    requires Sane(c)
    ensures exists st :: Reaches(SHORTENING, c, st) && !Exclusive(c, st)
  {
    var k := LockKey(c.builder, "r");
    var n := LongLease(c);
    LongReached(SHORTENING, c, k, n);
    var s0 := State(0, map[k := Cell("t", At(n))], map[], map["t" := Long(k, n)]);
    assert Purge(s0.kv, 0) == s0.kv;
    var l1 := Long(k, n).(renewals := [Renewal(0, 1)], until := 1);
    var s1 := State(0, map[k := Cell("t", At(1))], map[], map["t" := l1]);
    assert s0.kv[k := Cell("t", At(1))] == s1.kv && [] + [Renewal(0, 1)] == [Renewal(0, 1)];
    Then(SHORTENING, c, s0, RenewWrite("t", 1), s1);
    Usurped(SHORTENING, c, k, l1);
  }

  lemma {:induction false} Weaken(strict: Rules, r: Rules, c: Setup, st: State, steps: seq<Step>)
    requires (r.promptStamps ==> strict.promptStamps) && (r.oneRenewal ==> strict.oneRenewal)
    requires r.noShortening ==> strict.noShortening
    requires AllowedRun(strict, c, st, steps)
    ensures AllowedRun(r, c, st, steps)
    decreases |steps|
  {
    if steps != [] {
      Weaken(strict, r, c, Next(c, st, steps[0]), steps[1..]);
    }
  }

  /** Whatever the drift allowance, locks exclude each other in every reachable state
      exactly when all three rules are kept. */
  lemma {:induction false} RulesExact(r: Rules, c: Setup)
    requires Sane(c)
    ensures r == ALL_RULES <==> forall st :: Reaches(r, c, st) ==> Exclusive(c, st)
  {
    if r == ALL_RULES {
      forall st | Reaches(r, c, st)
        ensures Exclusive(c, st)
      {
        var steps :| AllowedRun(r, c, INIT, steps) && Run(c, INIT, steps) == st;
        MutualExclusion(c, steps);
      }
    } else {
      var strict := if !r.promptStamps then Rules(false, true, true)
                    else if !r.oneRenewal then OVERLAPPING else SHORTENING;
      LateStampBreaks(c);
      OverlapBreaks(c);
      ShorteningBreaks(c);
      var st :| Reaches(strict, c, st) && !Exclusive(c, st);
      var steps :| AllowedRun(strict, c, INIT, steps) && Run(c, INIT, steps) == st;
      Weaken(strict, r, c, INIT, steps);
      assert Reaches(r, c, st);
    }
  }

  // ---- The lock object ----

  /** A held lock; `backend` is shared with every other holder. */
  class HeldLock {
    const backend: Memory
    const key: string
    const token: string
    const setup: Setup
    var lease: int
    var acquiredAt: int
    var released: bool
    var lost: bool

    constructor (backend: Memory, key: string, token: string, setup: Setup, lease: int, stamp: int)
      ensures this.backend == backend && this.key == key && this.token == token && this.setup == setup
      ensures this.lease == lease && acquiredAt == stamp && !released && !lost
    {
      this.backend, this.key, this.token, this.setup := backend, key, token, setup;
      this.lease, acquiredAt, released, lost := lease, stamp, false, false;
    }

    /** The instant after which the holder must not rely on the lock. */
    function Until(): int
      reads this
    {
      acquiredAt + (lease - Drift(setup, lease))
    }

    /** Extends the lease if the key still holds the token.  `write` and `stamp` are
        the clock at the backend operation and after it. */
    method Renew(asked: int, write: int, stamp: int) returns (ok: bool)
      requires write <= stamp
      modifies this, backend`kv
      ensures released == old(released)
      ensures old(released) ==> !ok && backend.kv == old(backend.kv) && lost == old(lost)
      ensures !old(released) ==>
                var asked' := if asked <= 0 then old(lease) else asked;
                && (ok <==> Holds(old(backend.Live(write)).kv, key, token))
                && backend.Live(write)
                   == MemStep(old(backend.Live(write)), write, CompareAndExpire(key, token, asked')).0
                && (lost <==> old(lost) || !ok)
                && (ok ==> lease == asked' && acquiredAt == stamp)
      ensures !ok ==> lease == old(lease) && acquiredAt == old(acquiredAt)
      ensures ok && lease > 0 && stamp - write <= Drift(setup, lease) ==>
                key in backend.kv && backend.kv[key] == Cell(token, At(write + lease)) && Until() <= write + lease
    {
      if released {
        return false;
      }
      var l := if asked <= 0 then lease else asked;
      ok := backend.CompareAndExpire(key, token, l, write);
      if !ok {
        lost := true;
        return;
      }
      assert key in backend.Live(write).kv;
      lease, acquiredAt := l, stamp;
    }

    /** Gives the lock up, once; only a key that holds the token is deleted. */
    method Release(now: int) returns (ok: bool)
      modifies this`released, backend`kv
      ensures released
      ensures old(released) ==> ok && backend.kv == old(backend.kv)
      ensures !old(released) ==>
                && (ok <==> Holds(old(backend.Live(now)).kv, key, token))
                && backend.Live(now) == MemStep(old(backend.Live(now)), now, CompareAndDelete(key, token)).0
    {
      if released {
        return true;
      }
      released := true;
      ok := backend.CompareAndDelete(key, token, now);
    }
  }

  /** Anything other clients may do to the backend between two of our operations. */
  method Others(backend: Memory)
    modifies backend`kv
  {
    backend.kv := *;
  }

  /** What one attempt found in the backend and what it left there. */
  datatype Attempt = Attempt(found: Cells, left: Cells)

  /** Tries to acquire at each clock reading in turn, until one succeeds, the backend fails or
      the time to wait is over, with other clients at work before every attempt.  Success
      means the key was free at the last attempt and now holds the fresh token; giving up,
      that it was held at every attempt the backend answered; and an attempt that fails
      changes nothing. */
  method Acquire(backend: Memory, c: Setup, resource: string, token: string, lease: int, start: int, timeout: int,
                 attempts: seq<int>, errors: nat -> bool, stamp: int)
    returns (lock: HeldLock?, failed: bool, tried: nat, ghost trace: seq<Attempt>)
    requires lease > 0 && attempts != []
    modifies backend`kv
    ensures 0 < tried <= |attempts| && |trace| == tried && backend.kv == trace[tried - 1].left
    ensures lock != null ==>
              && lock.backend == backend && lock.token == token && !lock.released
              && lock.key == LockKey(c.builder, resource) && lock.lease == lease && lock.acquiredAt == stamp
              && lock.key in backend.kv && backend.kv[lock.key] == Cell(token, At(attempts[tried - 1] + lease))
    ensures forall i :: 0 <= i < tried ==> (errors(i) <==> failed && i == tried - 1)
    ensures failed ==> lock == null
    ensures lock == null && !failed ==>
              tried == |attempts| || timeout <= 0 || attempts[tried - 1] > start + timeout
    ensures forall i :: 0 <= i < tried && !errors(i) ==>
              (LockKey(c.builder, resource) in Purge(trace[i].found, attempts[i]) <==> lock == null || i < tried - 1)
    ensures forall i :: 0 <= i < tried && (lock == null || i < tried - 1) ==> trace[i].left == trace[i].found
  {
    var key := LockKey(c.builder, resource);
    failed, tried, trace := false, 0, [];
    while tried < |attempts|
      invariant tried == |trace| <= |attempts|
      invariant tried > 0 ==> backend.kv == trace[tried - 1].left
      invariant forall i :: 0 <= i < tried ==>
                  !errors(i) && key in Purge(trace[i].found, attempts[i]) && trace[i].left == trace[i].found
    {
      Others(backend);
      ghost var found := backend.kv;
      if errors(tried) {
        return null, true, tried + 1, trace + [Attempt(found, found)];
      }
      var now := attempts[tried];
      var ok := backend.SetNX(key, token, lease, now);
      tried, trace := tried + 1, trace + [Attempt(found, backend.kv)];
      if ok {
        assert key in backend.Live(now).kv;
        lock := new HeldLock(backend, key, token, c, lease, stamp);
        return;
      }
      if timeout <= 0 || now > start + timeout {
        return null, false, tried, trace;
      }
    }
    lock := null;
  }
}
