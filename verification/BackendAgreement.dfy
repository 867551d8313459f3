/** When the memory backend and the Redis emulator give the same answers. */
module BackendAgreement {
  import opened TtlStore
  import Glob

  /** An operation and the clock reading it sees. */
  datatype Timed = Timed(now: int, op: Op)

  /** Clock readings never go back. */
  ghost predicate Monotone(run: seq<Timed>) {
    forall i, j :: 0 <= i < j < |run| ==> run[i].now <= run[j].now
  }

  ghost function MemAnswers(s: MemState, run: seq<Timed>): (r: seq<Answer>)
    ensures |r| == |run|
    decreases |run|
  {
    if run == [] then []
    else
      var (s', a) := MemStep(MemPurge(s, run[0].now), run[0].now, run[0].op);
      [a] + MemAnswers(s', run[1..])
  }

  ghost function EmuAnswers(m: Keyspace, run: seq<Timed>): (r: seq<Answer>)
    ensures |r| == |run|
    decreases |run|
  {
    if run == [] then []
    else
      var (m', a) := EmuStep(Evict(m, run[0].now), run[0].now, run[0].op);
      [a] + EmuAnswers(m', run[1..])
  }

  // ---- Operations that keep the two in step ----

  /** How keys are used: for strings rather than sets, for values that may be empty, and
      for values that never expire. */
  datatype Uses = Uses(strings: string -> bool, blank: string -> bool, lasting: string -> bool)

  /** The key an operation treats as a string in a way that shows whether it is one. */
  predicate UsesString(op: Op, k: string) {
    match op
    case Set(key, _, _) => key == k
    case SetNX(key, _, _) => key == k
    case Delete(keys) => k in keys
    case Expire(key, _) => key == k
    case TTL(key) => key == k
    case CompareAndSwap(key, _, _, _) => key == k
    case _ => false
  }

  predicate UsesSet(op: Op, k: string) {
    op.SAdd? && op.key == k
  }

  predicate WritesEmpty(op: Op, k: string) {
    (op.Set? || op.SetNX? || op.CompareAndSwap?) && op.key == k && op.value == ""
  }

  predicate ExpectsEmpty(op: Op, k: string) {
    op.CompareAndSwap? && op.key == k && op.expected == ""
  }

  predicate KeepsLifetime(op: Op, k: string) {
    op.Set? && op.key == k && op.ttl == KEEP_TTL
  }

  predicate GivesLifetime(op: Op, k: string) {
    (op.Set? || op.SetNX? || op.Expire? || op.CompareAndSwap? || op.CompareAndExpire?) && op.key == k && op.ttl > 0
  }

  ghost predicate Portable(u: Uses, op: Op) {
    && (forall k :: UsesString(op, k) ==> u.strings(k))
    && (forall k :: UsesSet(op, k) ==> !u.strings(k))
    && (forall k :: WritesEmpty(op, k) ==> u.blank(k))
    && (forall k :: ExpectsEmpty(op, k) ==> !u.blank(k))
    && (forall k :: KeepsLifetime(op, k) ==> u.lasting(k))
    && (forall k :: GivesLifetime(op, k) ==> !u.lasting(k))
    && (op.Scan? ==> Glob.Plain(op.prefix) && forall k :: op.prefix <= k ==> u.strings(k))
  }

  /** The two stores hold the same things, used as they may be. */
  ghost predicate Agree(u: Uses, s: MemState, m: Keyspace) {
    && (forall k :: k in s.kv ==> u.strings(k) && Fits(u, k, s.kv[k]))
    && (forall k :: k in s.sets ==> !u.strings(k))
    && (forall k :: k in m ==> if u.strings(k) then k in s.kv else k in s.sets)
    && (forall k :: k in s.kv ==> k in m && m[k] == Entry(Str(s.kv[k].value), s.kv[k].expireAt))
    && (forall k :: k in s.sets ==> k in m && m[k] == Entry(Members(s.sets[k]), Never))
  }

  predicate Fits(u: Uses, k: string, cell: Cell) {
    (cell.value == "" ==> u.blank(k)) && (u.lasting(k) ==> cell.expireAt == Never)
  }

  lemma {:induction false} AgreePurge(u: Uses, s: MemState, m: Keyspace, now: int)
    requires Agree(u, s, m)
    ensures Agree(u, MemPurge(s, now), Evict(m, now))
  {
  }

  lemma {:induction false} AgreeDelete(u: Uses, s: MemState, m: Keyspace, ks: seq<string>)
    requires Agree(u, s, m) && forall k :: k in ks ==> u.strings(k)
    ensures Agree(u, s.(kv := s.kv - ToSet(ks)), m - ToSet(ks))
    ensures ToSet(ks) * s.kv.Keys == ToSet(ks) * m.Keys
  {
  }

  lemma {:induction false} SelectsPrefix(prefix: string, k: string)
    requires Glob.Plain(prefix)
    ensures Selects(prefix + "*", k) <==> prefix <= k
  {
    Glob.PrefixScan(prefix);
    assert Glob.Matches(Glob.Tokens(prefix + "*"), k) <==> prefix <= k;
    if prefix + "*" == "*" {
      assert |prefix| == 0;
      assert prefix == [] && prefix <= k;
    }
  }

  lemma {:induction false} AgreeScan(u: Uses, s: MemState, m: Keyspace, prefix: string)
    requires Agree(u, s, m) && Portable(u, Scan(prefix))
    ensures (set k | k in s.kv && prefix <= k) == ScanNames(m, prefix + "*")
  {
    forall k
      ensures Selects(prefix + "*", k) <==> prefix <= k
    {
      SelectsPrefix(prefix, k);
    }
  }

  /** The operations agree on an answer and leave agreeing stores. */
  ghost predicate InStep(u: Uses, s: MemState, m: Keyspace, now: int, op: Op) {
    && MemStep(s, now, op).1 == EmuStep(m, now, op).1
    && Agree(u, MemStep(s, now, op).0, EmuStep(m, now, op).0)
  }

  lemma {:induction false} AgreeString(u: Uses, s: MemState, m: Keyspace, now: int, op: Op)
    requires Agree(u, s, m) && Portable(u, op)
    requires op.Get? || op.Set? || op.SetNX? || op.Expire? || op.TTL?
    ensures InStep(u, s, m, now, op)
  {
    assert !op.Get? ==> UsesString(op, op.key);
    assert op.Set? || op.SetNX? ==> (op.value == "" ==> WritesEmpty(op, op.key));
    assert op.Set? && op.ttl == KEEP_TTL ==> KeepsLifetime(op, op.key);
    assert (op.Set? || op.SetNX? || op.Expire?) && op.ttl > 0 ==> GivesLifetime(op, op.key);
  }

  lemma {:induction false} AgreeSwap(u: Uses, s: MemState, m: Keyspace, now: int, op: Op)
    requires Agree(u, s, m) && Portable(u, op) && op.CompareAndSwap?
    ensures InStep(u, s, m, now, op)
  {
    assert UsesString(op, op.key);
    assert op.value == "" ==> WritesEmpty(op, op.key);
    assert op.expected == "" ==> ExpectsEmpty(op, op.key);
    assert op.ttl > 0 ==> GivesLifetime(op, op.key);
    assert op.key in s.kv ==> Fits(u, op.key, s.kv[op.key]);
  }

  lemma {:induction false} AgreeCompare(u: Uses, s: MemState, m: Keyspace, now: int, op: Op)
    requires Agree(u, s, m) && Portable(u, op)
    requires op.CompareAndDelete? || op.CompareAndExpire?
    ensures InStep(u, s, m, now, op)
  {
    assert Holds(s.kv, op.key, op.expected) <==> IsStr(m, op.key, op.expected);
    assert op.CompareAndExpire? && op.ttl > 0 ==> GivesLifetime(op, op.key);
  }

  lemma {:induction false} AgreeAdd(u: Uses, s: MemState, m: Keyspace, now: int, k: string, members: seq<string>)
    requires Agree(u, s, m) && !u.strings(k)
    ensures InStep(u, s, m, now, SAdd(k, members))
  {
    assert SetAt(s.sets, k) == MembersAt(m, k);
  }

  lemma {:induction false} AgreeRemove(u: Uses, s: MemState, m: Keyspace, now: int, k: string, members: seq<string>)
    requires Agree(u, s, m)
    ensures InStep(u, s, m, now, SRem(k, members))
  {
    assert k in s.sets <==> k in m && m[k].data.Members?;
    if k in s.sets {
      var rest := s.sets[k] - ToSet(members);
      assert MemStep(s, now, SRem(k, members)).0.sets == if rest == {} then s.sets - {k} else s.sets[k := rest];
    }
  }

  lemma {:induction false} AgreeStep(u: Uses, s: MemState, m: Keyspace, now: int, op: Op)
    requires Agree(u, s, m) && Portable(u, op)
    ensures InStep(u, s, m, now, op)
  {
    match op
    case Get(_) => AgreeString(u, s, m, now, op);
    case Set(_, _, _) => AgreeString(u, s, m, now, op);
    case SetNX(_, _, _) => AgreeString(u, s, m, now, op);
    case Delete(ks) =>
      assert forall k :: k in ks ==> UsesString(op, k);
      AgreeDelete(u, s, m, ks);
    case Expire(_, _) => AgreeString(u, s, m, now, op);
    case TTL(_) => AgreeString(u, s, m, now, op);
    case CompareAndSwap(_, _, _, _) => AgreeSwap(u, s, m, now, op);
    case CompareAndDelete(_, _) => AgreeCompare(u, s, m, now, op);
    case CompareAndExpire(_, _, _) => AgreeCompare(u, s, m, now, op);
    case SAdd(k, members) =>
      assert UsesSet(op, k);
      AgreeAdd(u, s, m, now, k, members);
    case SRem(k, members) => AgreeRemove(u, s, m, now, k, members);
    case SMembers(_) =>
    case Scan(prefix) => AgreeScan(u, s, m, prefix);
  }

  lemma {:induction false} AgreeRun(u: Uses, s: MemState, m: Keyspace, run: seq<Timed>)
    requires Agree(u, s, m)
    requires forall i :: 0 <= i < |run| ==> Portable(u, run[i].op)
    ensures MemAnswers(s, run) == EmuAnswers(m, run)
    decreases |run|
  {
    if run != [] {
      var t := run[0].now;
      AgreePurge(u, s, m, t);
      AgreeStep(u, MemPurge(s, t), Evict(m, t), t, run[0].op);
      AgreeRun(u, MemStep(MemPurge(s, t), t, run[0].op).0, EmuStep(Evict(m, t), t, run[0].op).0, run[1..]);
    }
  }

  // ---- What a run must avoid ----

  const NOTHING := MemState(map[], map[])

  ghost predicate NeverBoth(run: seq<Timed>, p: (Op, string) -> bool, q: (Op, string) -> bool) {
    forall k :: !(Somewhere(run, p, k) && Somewhere(run, q, k))
  }

  ghost predicate Somewhere(run: seq<Timed>, p: (Op, string) -> bool, k: string) {
    exists i :: 0 <= i < |run| && p(run[i].op, k)
  }

  ghost predicate PlainScans(run: seq<Timed>) {
    forall i :: 0 <= i < |run| && run[i].op.Scan? ==> Glob.Plain(run[i].op.prefix)
  }

  ghost predicate SetsUnscanned(run: seq<Timed>) {
    forall i, k :: 0 <= i < |run| && run[i].op.Scan? && Somewhere(run, UsesSet, k) ==> !(run[i].op.prefix <= k)
  }

  /** Which uses are excluded: a key that is added to as a set and used as a string; one
      that is given an empty value and swapped from an empty expectation; one that is given
      a lifetime and written with the request to keep it; a scan whose prefix has
      metacharacters; a scan whose prefix some set key has. */
  datatype Conditions = Conditions(oneKind: bool, noBlanks: bool, noKeep: bool, plainScans: bool, setsUnscanned: bool)

  const ALL_CONDITIONS := Conditions(true, true, true, true, true)

  /** A run, under a clock that never goes back, that meets the conditions. */
  ghost predicate Follows(c: Conditions, run: seq<Timed>) {
    && Monotone(run)
    && (c.oneKind ==> NeverBoth(run, UsesSet, UsesString))
    && (c.noBlanks ==> NeverBoth(run, WritesEmpty, ExpectsEmpty))
    && (c.noKeep ==> NeverBoth(run, KeepsLifetime, GivesLifetime))
    && (c.plainScans ==> PlainScans(run))
    && (c.setsUnscanned ==> SetsUnscanned(run))
  }

  ghost predicate Alike(run: seq<Timed>) {
    MemAnswers(NOTHING, run) == EmuAnswers(map[], run)
  }

  /** Started empty, the two backends answer alike every run that meets the conditions. */
  lemma {:induction false} SameAnswers(run: seq<Timed>)
    requires Follows(ALL_CONDITIONS, run)
    ensures Alike(run)
  {
    var u := Uses(k => !Somewhere(run, UsesSet, k), k => Somewhere(run, WritesEmpty, k),
                  k => Somewhere(run, KeepsLifetime, k));
    forall i | 0 <= i < |run|
      ensures Portable(u, run[i].op)
    {
      var op := run[i].op;
      assert forall k :: UsesString(op, k) ==> Somewhere(run, UsesString, k);
      assert forall k :: UsesSet(op, k) ==> Somewhere(run, UsesSet, k);
      assert forall k :: WritesEmpty(op, k) ==> Somewhere(run, WritesEmpty, k);
      assert forall k :: ExpectsEmpty(op, k) ==> Somewhere(run, ExpectsEmpty, k);
      assert forall k :: KeepsLifetime(op, k) ==> Somewhere(run, KeepsLifetime, k);
      assert forall k :: GivesLifetime(op, k) ==> Somewhere(run, GivesLifetime, k);
    }
    AgreeRun(u, NOTHING, map[], run);
  }

  // ---- Lazy eviction is invisible over whole runs ----

  /** A memory backend that purges nothing but what each operation happens to touch: at
      every step it may hold any map with the same live part. */
  ghost predicate LazyMemory(kvs: seq<Cells>, sets: seq<map<string, set<string>>>, run: seq<Timed>,
                             answers: seq<Answer>) {
    && |kvs| == |sets| == |run| + 1 && |answers| == |run|
    && forall i :: 0 <= i < |run| ==>
         (MemState(Purge(kvs[i + 1], run[i].now), sets[i + 1]), answers[i]) ==
         MemStep(MemState(Purge(kvs[i], run[i].now), sets[i]), run[i].now, run[i].op)
  }

  /** The same of an emulator. */
  ghost predicate LazyEmulator(ms: seq<Keyspace>, run: seq<Timed>, answers: seq<Answer>) {
    && |ms| == |run| + 1 && |answers| == |run|
    && forall i :: 0 <= i < |run| ==>
         (Evict(ms[i + 1], run[i].now), answers[i]) == EmuStep(Evict(ms[i], run[i].now), run[i].now, run[i].op)
  }

  /** With a monotone clock, a lazy memory backend's answers are the eager map's. */
  lemma {:induction false} LazyInvisible(kvs: seq<Cells>, sets: seq<map<string, set<string>>>, run: seq<Timed>,
                                         answers: seq<Answer>, eager: MemState)
    requires LazyMemory(kvs, sets, run, answers) && Monotone(run)
    requires sets[0] == eager.sets
    requires run != [] ==> Purge(kvs[0], run[0].now) == Purge(eager.kv, run[0].now)
    ensures answers == MemAnswers(eager, run)
    decreases |run|
  {
    if run != [] {
      var t := run[0].now;
      var s' := MemStep(MemPurge(eager, t), t, run[0].op).0;
      if |run| > 1 {
        var later := run[1].now;
        assert Purge(kvs[1], t) == s'.kv;
        PurgeTwice(kvs[1], t, later);
      }
      assert LazyMemory(kvs[1..], sets[1..], run[1..], answers[1..]);
      LazyInvisible(kvs[1..], sets[1..], run[1..], answers[1..], s');
      assert answers == [answers[0]] + answers[1..];
    }
  }

  /** And a lazy emulator's those of its eager map. */
  lemma {:induction false} LazyEmulatorInvisible(ms: seq<Keyspace>, run: seq<Timed>, answers: seq<Answer>,
                                                 eager: Keyspace)
    requires LazyEmulator(ms, run, answers) && Monotone(run)
    requires run != [] ==> Evict(ms[0], run[0].now) == Evict(eager, run[0].now)
    ensures answers == EmuAnswers(eager, run)
    decreases |run|
  {
    if run != [] {
      var t := run[0].now;
      var m' := EmuStep(Evict(eager, t), t, run[0].op).0;
      if |run| > 1 {
        var later := run[1].now;
        assert Evict(ms[1], t) == m';
        EvictTwice(ms[1], t, later);
      }
      assert LazyEmulator(ms[1..], run[1..], answers[1..]);
      LazyEmulatorInvisible(ms[1..], run[1..], answers[1..], m');
      assert answers == [answers[0]] + answers[1..];
    }
  }

  /** So the two stores as they are, both evicting lazily, answer alike every run that
      meets the conditions. */
  lemma {:induction false} LazyStoresAgree(kvs: seq<Cells>, sets: seq<map<string, set<string>>>, ms: seq<Keyspace>,
                                           run: seq<Timed>, memory: seq<Answer>, emulator: seq<Answer>)
    requires Follows(ALL_CONDITIONS, run)
    requires LazyMemory(kvs, sets, run, memory) && kvs[0] == map[] && sets[0] == map[]
    requires LazyEmulator(ms, run, emulator) && ms[0] == map[]
    ensures memory == emulator
  {
    LazyInvisible(kvs, sets, run, memory, NOTHING);
    LazyEmulatorInvisible(ms, run, emulator, map[]);
    SameAnswers(run);
  }

  // ---- Each condition is needed ----

  /** The answers to a run of two or three operations at time 0. */
  lemma {:induction false} Unfold(s: MemState, m: Keyspace, op: Op, rest: seq<Timed>)
    ensures MemAnswers(s, [Timed(0, op)] + rest)
         == [MemStep(MemPurge(s, 0), 0, op).1] + MemAnswers(MemStep(MemPurge(s, 0), 0, op).0, rest)
    ensures EmuAnswers(m, [Timed(0, op)] + rest)
         == [EmuStep(Evict(m, 0), 0, op).1] + EmuAnswers(EmuStep(Evict(m, 0), 0, op).0, rest)
  {
    assert ([Timed(0, op)] + rest)[1..] == rest;
  }

  /** A difference that shows later shows from before. */
  lemma {:induction false} DifferLater(s: MemState, m: Keyspace, op: Op, s': MemState, m': Keyspace, rest: seq<Timed>)
    requires s' == MemStep(MemPurge(s, 0), 0, op).0 && m' == EmuStep(Evict(m, 0), 0, op).0
    requires MemAnswers(s', rest) != EmuAnswers(m', rest)
    ensures MemAnswers(s, [Timed(0, op)] + rest) != EmuAnswers(m, [Timed(0, op)] + rest)
  {
    Unfold(s, m, op, rest);
    var x, y := MemAnswers(s, [Timed(0, op)] + rest), EmuAnswers(m, [Timed(0, op)] + rest);
    assert x[1..] == MemAnswers(s', rest) && y[1..] == EmuAnswers(m', rest);
  }

  lemma {:induction false} DifferNow(s: MemState, m: Keyspace, op: Op)
    requires MemStep(MemPurge(s, 0), 0, op).1 != EmuStep(Evict(m, 0), 0, op).1
    ensures MemAnswers(s, [Timed(0, op)]) != EmuAnswers(m, [Timed(0, op)])
  {
    Unfold(s, m, op, []);
    assert [Timed(0, op)] + [] == [Timed(0, op)];
    assert MemAnswers(s, [Timed(0, op)])[0] != EmuAnswers(m, [Timed(0, op)])[0];
  }

  /** Two operations whose second answer differs. */
  lemma {:induction false} DifferAtSecond(first: Op, second: Op, s: MemState, m: Keyspace)
    requires s == MemStep(NOTHING, 0, first).0 && m == EmuStep(map[], 0, first).0
    requires MemStep(MemPurge(s, 0), 0, second).1 != EmuStep(Evict(m, 0), 0, second).1
    ensures !Alike([Timed(0, first), Timed(0, second)])
  {
    EmptyStaysEmpty();
    DifferNow(s, m, second);
    DifferLater(NOTHING, map[], first, s, m, [Timed(0, second)]);
    assert [Timed(0, first)] + [Timed(0, second)] == [Timed(0, first), Timed(0, second)];
  }

  lemma {:induction false} EmptyStaysEmpty()
    ensures MemPurge(NOTHING, 0) == NOTHING && Evict(map[], 0) == map[]
  {
    var none: Cells := map[];
    assert Purge(none, 0) == none;
  }

  /** A key that is added to as a set has a lifetime only in the emulator. */
  lemma {:induction false} KindsDiffer() returns (run: seq<Timed>)
    ensures Follows(ALL_CONDITIONS.(oneKind := false), run) && !Alike(run)
  {
    var first, second := SAdd("k", []), TTL("k");
    DifferAtSecond(first, second, MemState(map[], map["k" := {}]), map["k" := Entry(Members({}), Never)]);
    run := [Timed(0, first), Timed(0, second)];
  }

  /** An empty stored value passes for an absent key in one backend only. */
  lemma {:induction false} BlanksDiffer() returns (run: seq<Timed>)
    ensures Follows(ALL_CONDITIONS.(noBlanks := false), run) && !Alike(run)
  {
    var first, second := Set("k", "", 0), CompareAndSwap("k", "", "v", 0);
    DifferAtSecond(first, second, MemState(map["k" := Cell("", Never)], map[]), map["k" := Entry(Str(""), Never)]);
    run := [Timed(0, first), Timed(0, second)];
  }

  /** The emulator keeps a lifetime that the memory backend drops. */
  lemma {:induction false} KeepingDiffers() returns (run: seq<Timed>)
    ensures Follows(ALL_CONDITIONS.(noKeep := false), run) && !Alike(run)
  {
    var first, keep, ask := Set("k", "v", 9), Set("k", "v", KEEP_TTL), TTL("k");
    EmptyStaysEmpty();
    var s1, m1 := MemState(map["k" := Cell("v", At(9))], map[]), map["k" := Entry(Str("v"), At(9))];
    assert Purge(s1.kv, 0) == s1.kv && Evict(m1, 0) == m1;
    var s2 := MemState(map["k" := Cell("v", Never)], map[]);
    assert Purge(s2.kv, 0) == s2.kv;
    DifferNow(s2, m1, ask);
    assert s1.kv["k" := Cell("v", Never)] == s2.kv && m1["k" := Entry(Str("v"), At(9))] == m1;
    DifferLater(s1, m1, keep, s2, m1, [Timed(0, ask)]);
    DifferLater(NOTHING, map[], first, s1, m1, [Timed(0, keep)] + [Timed(0, ask)]);
    run := [Timed(0, first)] + ([Timed(0, keep)] + [Timed(0, ask)]);
  }

  /** A metacharacter in a scanned prefix stands for itself in the memory backend only. */
  lemma {:induction false} PatternsDiffer() returns (run: seq<Timed>)
    ensures Follows(ALL_CONDITIONS.(plainScans := false), run) && !Alike(run)
  {
    var prefix := "?";
    assert !Glob.Plain(prefix) by {
      assert prefix + "*" == "?*";
    }
    Glob.PrefixScan(prefix);
    var k :| Glob.Matches(Glob.Tokens(prefix + "*"), k) != (prefix <= k);
    var first, second := Set(k, "v", 0), Scan(prefix);
    var m: Keyspace := map[k := Entry(Str("v"), Never)];
    EmptyStaysEmpty();
    assert Evict(m, 0) == m;
    assert k in ScanNames(m, prefix + "*") <==> Glob.Matches(Glob.Tokens(prefix + "*"), k);
    DifferAtSecond(first, second, MemState(map[k := Cell("v", Never)], map[]), m);
    run := [Timed(0, first), Timed(0, second)];
  }

  /** The emulator lists a set key among the keys with its prefix. */
  lemma {:induction false} SetScansDiffer() returns (run: seq<Timed>)
    ensures Follows(ALL_CONDITIONS.(setsUnscanned := false), run) && !Alike(run)
  {
    var first, second := SAdd("k", []), Scan("");
    var m: Keyspace := map["k" := Entry(Members({}), Never)];
    EmptyStaysEmpty();
    assert Evict(m, 0) == m;
    assert "" + "*" == "*" && "k" in ScanNames(m, "" + "*");
    DifferAtSecond(first, second, MemState(map[], map["k" := {}]), m);
    run := [Timed(0, first), Timed(0, second)];
  }

  lemma {:induction false} Weaken(strict: Conditions, c: Conditions, run: seq<Timed>)
    requires Follows(strict, run)
    requires (c.oneKind ==> strict.oneKind) && (c.noBlanks ==> strict.noBlanks) && (c.noKeep ==> strict.noKeep)
    requires (c.plainScans ==> strict.plainScans) && (c.setsUnscanned ==> strict.setsUnscanned)
    ensures Follows(c, run)
  {
  }

  /** The backends answer alike every run from empty that the conditions let through exactly
      when all five conditions are in force. */
  lemma {:induction false} ConditionsExact(c: Conditions)
    ensures (forall run :: Follows(c, run) ==> Alike(run)) <==> c == ALL_CONDITIONS
  {
    if c == ALL_CONDITIONS {
      forall run | Follows(c, run)
        ensures Alike(run)
      {
        SameAnswers(run);
      }
    } else {
      var kinds := KindsDiffer();
      var blanks := BlanksDiffer();
      var keeping := KeepingDiffers();
      var patterns := PatternsDiffer();
      var scans := SetScansDiffer();
      var strict := if !c.oneKind then ALL_CONDITIONS.(oneKind := false)
                    else if !c.noBlanks then ALL_CONDITIONS.(noBlanks := false)
                    else if !c.noKeep then ALL_CONDITIONS.(noKeep := false)
                    else if !c.plainScans then ALL_CONDITIONS.(plainScans := false)
                    else ALL_CONDITIONS.(setsUnscanned := false);
      var run :| Follows(strict, run) && !Alike(run);
      Weaken(strict, c, run);
    }
  }
}
