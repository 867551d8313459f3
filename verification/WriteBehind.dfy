/** The write-behind buffer in front of the system of record: pending writes are
    coalesced per key, flushes swap the buffer out and write it in any order, and an
    enqueue on a full buffer writes straight through. */
module WriteBehind {
  import opened Wrappers

  datatype Slot = Slot(cache: string, key: string)

  datatype Op = Op(slot: Slot, value: string)

  type Values = map<Slot, string>

  function Get(m: Values, s: Slot): Option<string> {
    if s in m then Some(m[s]) else None
  }

  // ---- Coalescing keys ----

  function CoalesceKey(s: Slot): string {
    s.cache + "\0" + s.key
  }

  /** Two caches can share a coalescing key exactly when one name continues the other with
      a NUL; in particular never when names hold no NUL. */
  lemma {:induction false} CachesCollide(c: string, d: string)
    requires c != d
    ensures (exists k, l :: CoalesceKey(Slot(c, k)) == CoalesceKey(Slot(d, l))) <==> c + "\0" <= d || d + "\0" <= c
  {
    if c + "\0" <= d {
      var k := d[|c| + 1..] + "\0";
      assert CoalesceKey(Slot(c, k)) == CoalesceKey(Slot(d, ""));
    }
    if d + "\0" <= c {
      var l := c[|d| + 1..] + "\0";
      assert CoalesceKey(Slot(c, "")) == CoalesceKey(Slot(d, l));
    }
    if k, l :| CoalesceKey(Slot(c, k)) == CoalesceKey(Slot(d, l)) {
      var x, y := CoalesceKey(Slot(c, k)), CoalesceKey(Slot(d, l));
      assert c == x[..|c|] && d == y[..|d|];
      assert c + "\0" == x[..|c| + 1] && d + "\0" == y[..|d| + 1];
    }
  }

  lemma {:induction false} Continued(c: string, d: string)
    ensures c + "\0" <= d ==> '\0' in d
  {
    if c + "\0" <= d {
      assert d[|c|] == '\0';
    }
  }

  lemma {:induction false} CoalesceInjective(a: Slot, b: Slot)
    requires '\0' !in a.cache && '\0' !in b.cache && CoalesceKey(a) == CoalesceKey(b)
    ensures a == b
  {
    Continued(a.cache, b.cache);
    Continued(b.cache, a.cache);
    if a.cache != b.cache {
      CachesCollide(a.cache, b.cache);
    }
    var x := CoalesceKey(a);
    assert a.key == x[|a.cache| + 1..] && b.key == x[|b.cache| + 1..];
  }

  /** Neither cache name continues the other with a NUL. */
  predicate Apart(c: string, d: string) {
    !(c + "\0" <= d) && !(d + "\0" <= c)
  }

  lemma {:induction false} ApartInjective(a: Slot, b: Slot)
    requires Apart(a.cache, b.cache) && CoalesceKey(a) == CoalesceKey(b)
    ensures a == b
  {
    if a.cache != b.cache {
      CachesCollide(a.cache, b.cache);
    }
    var x := CoalesceKey(a);
    assert a.key == x[|a.cache| + 1..] && b.key == x[|b.cache| + 1..];
  }

  // ---- The protocol ----

  /** Writes to be made, one per coalescing key. */
  type Pending = map<string, Op>

  /** `direct` are overflow writes under way, `batches` the unwritten rest of each flush in
      the order of their swaps, `last` the value most recently enqueued per slot, over what
      the record held to begin with, and `used` the cache names seen so far. */
  datatype State = State(record: Values, direct: seq<Op>, batches: seq<Pending>, pending: Pending, last: Values,
                         used: set<string>)

  datatype Step = Enqueue(op: Op) | Direct(i: nat, ok: bool) | Flush | Write(b: nat, key: string, ok: bool)

  function Written(record: Values, op: Op, ok: bool): Values {
    if ok then record[op.slot := op.value] else record
  }

  function Next(buffer: int, st: State, s: Step): State {
    match s
    case Enqueue(op) =>
      var st' := st.(last := st.last[op.slot := op.value], used := st.used + {op.slot.cache});
      if |st.pending| >= buffer then st'.(direct := st.direct + [op])
      else st'.(pending := st.pending[CoalesceKey(op.slot) := op])
    case Direct(i, ok) =>
      if i >= |st.direct| then st
      else st.(record := Written(st.record, st.direct[i], ok), direct := st.direct[..i] + st.direct[i + 1..])
    case Flush =>
      if st.pending == map[] then st else st.(batches := st.batches + [st.pending], pending := map[])
    case Write(b, key, ok) =>
      if b >= |st.batches| || key !in st.batches[b] then st
      else st.(record := Written(st.record, st.batches[b][key], ok), batches := st.batches[b := st.batches[b] - {key}])
  }

  function Run(buffer: int, st: State, steps: seq<Step>): State
    decreases steps
  {
    if steps == [] then st else Run(buffer, Next(buffer, st, steps[0]), steps[1..])
  }

  function Init(base: Values): State {
    State(base, [], [], map[], base, {})
  }

  predicate Settled(st: State) {
    st.direct == [] && st.pending == map[] && Flushed(st)
  }

  predicate Flushed(st: State) {
    forall b :: 0 <= b < |st.batches| ==> st.batches[b] == map[]
  }

  /** The write of this very slot is among them. */
  predicate Holds(m: Pending, s: Slot) {
    CoalesceKey(s) in m && m[CoalesceKey(s)].slot == s
  }

  predicate Idle(st: State, slot: Slot) {
    !Holds(st.pending, slot) && forall b :: 0 <= b < |st.batches| ==> !Holds(st.batches[b], slot)
  }

  predicate NoDirect(st: State, slot: Slot) {
    forall i :: 0 <= i < |st.direct| ==> st.direct[i].slot != slot
  }

  /** The side conditions: an overflow write touches no slot with a write pending or in
      flight; nothing is enqueued for a slot during its overflow write; flushes do not
      overlap; writers succeed; no cache name in use continues another with a NUL. */
  datatype Rules = Rules(idleOverflow: bool, quietDirect: bool, singleFlush: bool, writersSucceed: bool,
                         namesApart: bool)

  const ALL_RULES := Rules(true, true, true, true, true)

  predicate Allowed(r: Rules, buffer: int, st: State, s: Step) {
    match s
    case Enqueue(op) =>
      && (r.idleOverflow && |st.pending| >= buffer ==> Idle(st, op.slot))
      && (r.quietDirect ==> NoDirect(st, op.slot))
      && (r.namesApart ==> forall c :: c in st.used ==> Apart(c, op.slot.cache))
    case Direct(_, ok) => r.writersSucceed ==> ok
    case Flush => r.singleFlush ==> Flushed(st)
    case Write(_, _, ok) => r.writersSucceed ==> ok
  }

  predicate AllowedRun(r: Rules, buffer: int, st: State, steps: seq<Step>)
    decreases steps
  {
    steps == [] || (Allowed(r, buffer, st, steps[0]) && AllowedRun(r, buffer, Next(buffer, st, steps[0]), steps[1..]))
  }

  // ---- The buffer bound, in every run ----

  predicate Bounded(buffer: int, pending: Pending) {
    |pending| <= if buffer > 0 then buffer else 0
  }

  lemma {:induction false} BufferBounded(buffer: int, st: State, steps: seq<Step>)
    requires Bounded(buffer, st.pending)
    ensures Bounded(buffer, Run(buffer, st, steps).pending)
    decreases steps
  {
    if steps != [] {
      BoundedStep(buffer, st, steps[0]);
      BufferBounded(buffer, Next(buffer, st, steps[0]), steps[1..]);
    }
  }

  lemma {:induction false} BoundedStep(buffer: int, st: State, s: Step)
    requires Bounded(buffer, st.pending)
    ensures Bounded(buffer, Next(buffer, st, s).pending)
  {
    if s.Enqueue? {
      var k := CoalesceKey(s.op.slot);
      assert st.pending[k := s.op].Keys == st.pending.Keys + {k};
    }
  }

  // ---- Nothing is lost while every step is clean ----

  /** The enqueue displaces no other slot's pending write. */
  predicate NoClash(buffer: int, st: State, op: Op) {
    |st.pending| >= buffer || CoalesceKey(op.slot) !in st.pending || Holds(st.pending, op.slot)
  }

  /** What one step must avoid. */
  predicate Clean(buffer: int, st: State, s: Step) {
    match s
    case Enqueue(op) =>
      NoDirect(st, op.slot) && NoClash(buffer, st, op) && (|st.pending| >= buffer ==> Idle(st, op.slot))
    case Direct(_, ok) => ok
    case Flush => st.pending == map[] || Flushed(st)
    case Write(_, _, ok) => ok
  }

  predicate CleanRun(buffer: int, st: State, steps: seq<Step>)
    decreases steps
  {
    steps == [] || (Clean(buffer, st, steps[0]) && CleanRun(buffer, Next(buffer, st, steps[0]), steps[1..]))
  }

  /** The batch in flight, when there is at most one. */
  function Batch(st: State): Pending {
    if st.batches == [] then map[] else st.batches[|st.batches| - 1]
  }

  /** The record, overlaid with direct writes, the batch in flight and the pending map, is
      the last value enqueued for every slot. */
  ghost predicate Inv(st: State) {
    && WellKeyed(st.pending) && WellKeyed(Batch(st))
    && (forall b :: 0 <= b < |st.batches| - 1 ==> st.batches[b] == map[])
    && (forall i :: 0 <= i < |st.direct| ==> DirectIs(st, i))
    && (forall i, k :: 0 <= i < k < |st.direct| ==> st.direct[i].slot != st.direct[k].slot)
    && (forall s :: Last(st, s))
  }

  ghost predicate WellKeyed(m: Pending) {
    forall k :: k in m ==> k == CoalesceKey(m[k].slot)
  }

  predicate DirectIs(st: State, i: nat)
    requires i < |st.direct|
  {
    var op := st.direct[i];
    Get(st.last, op.slot) == Some(op.value) && !Holds(st.pending, op.slot) && !Holds(Batch(st), op.slot)
  }

  /** The value a slot has once everything buffered is written. */
  function Value(st: State, s: Slot): Option<string> {
    if Holds(st.pending, s) then Some(st.pending[CoalesceKey(s)].value)
    else if Holds(Batch(st), s) then Some(Batch(st)[CoalesceKey(s)].value)
    else Get(st.record, s)
  }

  predicate Last(st: State, s: Slot) {
    NoDirect(st, s) ==> Value(st, s) == Get(st.last, s)
  }

  lemma {:induction false} OverflowKeeps(buffer: int, st: State, op: Op)
    requires Inv(st) && Clean(buffer, st, Enqueue(op)) && |st.pending| >= buffer
    ensures Inv(Next(buffer, st, Enqueue(op)))
  {
    var st' := Next(buffer, st, Enqueue(op));
    assert st.batches != [] ==> !Holds(st.batches[|st.batches| - 1], op.slot);
    assert st'.direct[|st.direct|] == op;
    forall s
      ensures Last(st', s)
    {
      assert Last(st, s);
      assert NoDirect(st', s) ==> s != op.slot && NoDirect(st, s) by {
        assert forall i :: 0 <= i < |st.direct| ==> st.direct[i] == st'.direct[i];
      }
    }
    forall i | 0 <= i < |st'.direct|
      ensures DirectIs(st', i)
    {
      assert i < |st.direct| ==> DirectIs(st, i) && st.direct[i].slot != op.slot;
    }
  }

  /** Buffering a write without displacing another slot's changes that slot's alone. */
  lemma {:induction false} HoldsAfter(m: Pending, op: Op, s: Slot)
    requires CoalesceKey(op.slot) !in m || Holds(m, op.slot)
    ensures Holds(m[CoalesceKey(op.slot) := op], s) <==> s == op.slot || Holds(m, s)
    ensures s != op.slot && Holds(m, s) ==> m[CoalesceKey(op.slot) := op][CoalesceKey(s)] == m[CoalesceKey(s)]
  {
  }

  lemma {:induction false} BufferingKeeps(buffer: int, st: State, op: Op)
    requires Inv(st) && Clean(buffer, st, Enqueue(op)) && |st.pending| < buffer
    ensures Inv(Next(buffer, st, Enqueue(op)))
  {
    var st' := Next(buffer, st, Enqueue(op));
    forall s
      ensures Last(st', s)
    {
      assert Last(st, s);
      HoldsAfter(st.pending, op, s);
    }
    forall i | 0 <= i < |st'.direct|
      ensures DirectIs(st', i)
    {
      assert DirectIs(st, i) && st.direct[i].slot != op.slot;
      HoldsAfter(st.pending, op, st.direct[i].slot);
    }
  }

  lemma {:induction false} DirectKeeps(buffer: int, st: State, i: nat)
    requires Inv(st)
    ensures Inv(Next(buffer, st, Direct(i, true)))
  {
    var st' := Next(buffer, st, Direct(i, true));
    if i < |st.direct| {
      assert DirectIs(st, i);
      forall k | 0 <= k < |st'.direct|
        ensures DirectIs(st', k)
      {
        assert DirectIs(st, if k < i then k else k + 1);
      }
      forall s
        ensures Last(st', s)
      {
        assert Last(st, s);
        if NoDirect(st', s) && s != st.direct[i].slot {
          forall k | 0 <= k < |st.direct|
            ensures st.direct[k].slot != s
          {
            if k < i {
              assert st'.direct[k] == st.direct[k];
            } else if k > i {
              assert st'.direct[k - 1] == st.direct[k];
            }
          }
        }
      }
    }
  }

  lemma {:induction false} FlushKeeps(buffer: int, st: State)
    requires Inv(st) && (st.pending == map[] || Flushed(st))
    ensures Inv(Next(buffer, st, Flush))
  {
    var st' := Next(buffer, st, Flush);
    if st.pending != map[] {
      assert Batch(st) == map[] && Batch(st') == st.pending;
      forall i | 0 <= i < |st'.direct|
        ensures DirectIs(st', i)
      {
        assert DirectIs(st, i);
      }
      forall s
        ensures Last(st', s)
      {
        assert Last(st, s);
      }
    }
  }

  lemma {:induction false} WriteKeeps(buffer: int, st: State, b: nat, key: string)
    requires Inv(st)
    ensures Inv(Next(buffer, st, Write(b, key, true)))
  {
    var st' := Next(buffer, st, Write(b, key, true));
    if b < |st.batches| && key in st.batches[b] {
      assert b == |st.batches| - 1 && Batch(st') == Batch(st) - {key};
      var op := Batch(st)[key];
      assert Holds(Batch(st), op.slot);
      forall i | 0 <= i < |st'.direct|
        ensures DirectIs(st', i)
      {
        assert DirectIs(st, i);
      }
      forall s
        ensures Last(st', s)
      {
        assert Last(st, s);
        assert s != op.slot ==> (Holds(Batch(st'), s) <==> Holds(Batch(st), s));
      }
    }
  }

  lemma {:induction false} InvRun(buffer: int, st: State, steps: seq<Step>)
    requires Inv(st) && CleanRun(buffer, st, steps)
    ensures Inv(Run(buffer, st, steps))
    decreases steps
  {
    if steps != [] {
      match steps[0] {
        case Enqueue(op) =>
          if |st.pending| >= buffer {
            OverflowKeeps(buffer, st, op);
          } else {
            BufferingKeeps(buffer, st, op);
          }
        case Direct(i, _) => DirectKeeps(buffer, st, i);
        case Flush => FlushKeeps(buffer, st);
        case Write(b, key, _) => WriteKeeps(buffer, st, b, key);
      }
      InvRun(buffer, Next(buffer, st, steps[0]), steps[1..]);
    }
  }

  // ---- Which rules keep every step clean ----

  /** What the rules need for a buffer of this size: without room nothing is ever pending or
      in flight, and with room for one write nothing ever coalesces. */
  predicate Enough(r: Rules, buffer: int) {
    && r.quietDirect && r.writersSucceed
    && (buffer > 0 ==> r.idleOverflow && r.singleFlush)
    && (buffer > 1 ==> r.namesApart)
  }

  /** What the rules keep true beside the buffer's bound. */
  ghost predicate Kept(r: Rules, buffer: int, st: State) {
    && Bounded(buffer, st.pending) && WellKeyed(st.pending)
    && (buffer <= 0 ==> st.batches == [])
    && (r.namesApart ==> forall c, d :: c in st.used && d in st.used ==> Apart(c, d))
    && (forall k :: k in st.pending ==> st.pending[k].slot.cache in st.used)
  }

  lemma {:induction false} KeptStep(r: Rules, buffer: int, st: State, s: Step)
    requires Kept(r, buffer, st) && Allowed(r, buffer, st, s)
    ensures Kept(r, buffer, Next(buffer, st, s))
  {
    BoundedStep(buffer, st, s);
    if s.Enqueue? {
      var c := s.op.slot.cache;
      assert Apart(c, c);
    }
  }

  lemma {:induction false} KeptClean(r: Rules, buffer: int, st: State, s: Step)
    requires Enough(r, buffer) && Kept(r, buffer, st) && Allowed(r, buffer, st, s)
    ensures Clean(buffer, st, s)
  {
    if s.Enqueue? {
      var k := CoalesceKey(s.op.slot);
      if |st.pending| < buffer && k in st.pending {
        assert |st.pending.Keys| > 0;
        ApartInjective(st.pending[k].slot, s.op.slot);
      }
    }
  }

  lemma {:induction false} RulesClean(r: Rules, buffer: int, st: State, steps: seq<Step>)
    requires Enough(r, buffer) && Kept(r, buffer, st) && AllowedRun(r, buffer, st, steps)
    ensures CleanRun(buffer, st, steps)
    decreases steps
  {
    if steps != [] {
      KeptClean(r, buffer, st, steps[0]);
      KeptStep(r, buffer, st, steps[0]);
      RulesClean(r, buffer, Next(buffer, st, steps[0]), steps[1..]);
    }
  }

  /** At every moment of a run under enough rules, the record overlaid with the batch in
      flight and the pending map holds the last value of every slot without an overflow write
      under way. */
  lemma {:induction false} OverlayIsLast(r: Rules, buffer: int, base: Values, steps: seq<Step>, s: Slot)
    requires Enough(r, buffer) && AllowedRun(r, buffer, Init(base), steps)
    requires NoDirect(Run(buffer, Init(base), steps), s)
    ensures Value(Run(buffer, Init(base), steps), s) == Get(Run(buffer, Init(base), steps).last, s)
  {
    RulesClean(r, buffer, Init(base), steps);
    assert Inv(Init(base));
    InvRun(buffer, Init(base), steps);
    assert Last(Run(buffer, Init(base), steps), s);
  }

  // ---- The rules are needed ----

  /** Every settled state holds the last value of every slot. */
  ghost predicate Durable(r: Rules, buffer: int, base: Values) {
    forall steps :: AllowedRun(r, buffer, Init(base), steps) && Settled(Run(buffer, Init(base), steps))
      ==> Run(buffer, Init(base), steps).record == Run(buffer, Init(base), steps).last
  }

  ghost predicate Reaches(r: Rules, buffer: int, base: Values, st: State) {
    exists steps :: AllowedRun(r, buffer, Init(base), steps) && Run(buffer, Init(base), steps) == st
  }

  lemma {:induction false} RunSnoc(r: Rules, buffer: int, st: State, a: seq<Step>, s: Step)
    requires AllowedRun(r, buffer, st, a) && Allowed(r, buffer, Run(buffer, st, a), s)
    ensures AllowedRun(r, buffer, st, a + [s]) && Run(buffer, st, a + [s]) == Next(buffer, Run(buffer, st, a), s)
    decreases a
  {
    if a == [] {
      assert a + [s] == [s] && [s][1..] == [];
    } else {
      RunSnoc(r, buffer, Next(buffer, st, a[0]), a[1..], s);
      assert (a + [s])[1..] == a[1..] + [s];
    }
  }

  lemma {:induction false} Begin(r: Rules, buffer: int, base: Values)
    ensures Reaches(r, buffer, base, Init(base))
  {
    assert AllowedRun(r, buffer, Init(base), []) && Run(buffer, Init(base), []) == Init(base);
  }

  lemma {:induction false} Then(r: Rules, buffer: int, base: Values, st: State, s: Step, st': State)
    requires Reaches(r, buffer, base, st) && Allowed(r, buffer, st, s) && st' == Next(buffer, st, s)
    ensures Reaches(r, buffer, base, st')
  {
    var a :| AllowedRun(r, buffer, Init(base), a) && Run(buffer, Init(base), a) == st;
    RunSnoc(r, buffer, Init(base), a, s);
  }

  /** Enqueues where only one cache name is in use. */
  lemma {:induction false} ThenEnqueue(r: Rules, buffer: int, base: Values, st: State, op: Op, st': State)
    requires Reaches(r, buffer, base, st) && st' == Next(buffer, st, Enqueue(op))
    requires r.namesApart ==> st.used <= {op.slot.cache}
    requires r.quietDirect ==> NoDirect(st, op.slot)
    requires r.idleOverflow && |st.pending| >= buffer ==> Idle(st, op.slot)
    ensures Reaches(r, buffer, base, st')
  {
    assert Apart(op.slot.cache, op.slot.cache);
    Then(r, buffer, base, st, Enqueue(op), st');
  }

  /** Enqueues into a buffer that holds nothing. */
  lemma {:induction false} ThenBuffer(r: Rules, buffer: int, base: Values, st: State, op: Op, k: string)
    requires Reaches(r, buffer, base, st) && buffer > 0 && st.pending == map[] && k == CoalesceKey(op.slot)
    requires (r.namesApart ==> st.used <= {op.slot.cache}) && (r.quietDirect ==> NoDirect(st, op.slot))
    ensures Reaches(r, buffer, base, State(st.record, st.direct, st.batches, map[k := op], st.last[op.slot := op.value],
                                           st.used + {op.slot.cache}))
  {
    var m: Pending := map[];
    assert m[k := op] == map[k := op];
    ThenEnqueue(r, buffer, base, st, op, Next(buffer, st, Enqueue(op)));
  }

  lemma {:induction false} ThenFlush(r: Rules, buffer: int, base: Values, st: State)
    requires Reaches(r, buffer, base, st) && st.pending != map[] && (r.singleFlush ==> Flushed(st))
    ensures Reaches(r, buffer, base, State(st.record, st.direct, st.batches + [st.pending], map[], st.last, st.used))
  {
    Then(r, buffer, base, st, Flush, Next(buffer, st, Flush));
  }

  lemma {:induction false} ThenDirect(r: Rules, buffer: int, base: Values, st: State, i: nat, ok: bool, direct: seq<Op>)
    requires Reaches(r, buffer, base, st) && i < |st.direct| && (r.writersSucceed ==> ok)
    requires direct == st.direct[..i] + st.direct[i + 1..]
    ensures Reaches(r, buffer, base,
                    State(Written(st.record, st.direct[i], ok), direct, st.batches, st.pending, st.last, st.used))
  {
    Then(r, buffer, base, st, Direct(i, ok), Next(buffer, st, Direct(i, ok)));
  }

  lemma {:induction false} ThenWrite(r: Rules, buffer: int, base: Values, st: State, b: nat, k: string, ok: bool,
                                     batches: seq<Pending>)
    requires Reaches(r, buffer, base, st) && b < |st.batches| && k in st.batches[b] && (r.writersSucceed ==> ok)
    requires batches == st.batches[b := st.batches[b] - {k}]
    ensures Reaches(r, buffer, base,
                    State(Written(st.record, st.batches[b][k], ok), st.direct, batches, st.pending, st.last, st.used))
  {
    Then(r, buffer, base, st, Write(b, k, ok), Next(buffer, st, Write(b, k, ok)));
  }

  lemma {:induction false} Lost(r: Rules, buffer: int, base: Values, st: State, s: Slot)
    requires Reaches(r, buffer, base, st) && Settled(st) && Get(st.record, s) != Get(st.last, s)
    ensures !Durable(r, buffer, base)
  {
    var a :| AllowedRun(r, buffer, Init(base), a) && Run(buffer, Init(base), a) == st;
  }

  /** The slots that fill a buffer, and one that is not among them. */
  function Filler(n: nat): Slot {
    Slot("", seq(n, _ => 'x'))
  }

  const S := Slot("", "s")
  const KEY := CoalesceKey(S)

  function Full(n: nat): Pending {
    if n == 0 then map[] else Full(n - 1)[CoalesceKey(Filler(n - 1)) := Op(Filler(n - 1), "a")]
  }

  lemma {:induction false} FillerKey(n: nat)
    ensures |CoalesceKey(Filler(n))| == n + 1 && Filler(n) != S
  {
    assert n == 1 ==> Filler(n).key[0] == 'x' && S.key[0] == 's';
  }

  lemma {:induction false} FullFacts(n: nat)
    ensures |Full(n)| == n && WellKeyed(Full(n))
    ensures forall k :: k in Full(n) ==> |k| <= n && Full(n)[k].value == "a" && Full(n)[k].slot != S
    ensures n > 0 ==> Holds(Full(n), Filler(0))
  {
    if n > 0 {
      FullFacts(n - 1);
      FillerKey(n - 1);
      FillerKey(0);
      var k := CoalesceKey(Filler(n - 1));
      assert Full(n).Keys == Full(n - 1).Keys + {k};
    }
  }

  /** A full buffer over an untouched record. */
  ghost predicate Filled(r: Rules, buffer: int, base: Values, pending: Pending, st: State) {
    Reaches(r, buffer, base, st) && st.(last := base) == State(base, [], [], pending, base, st.used) && st.used <= {""}
  }

  lemma {:induction false} Fill(r: Rules, buffer: int, base: Values, n: nat) returns (st: State)
    requires n <= buffer
    ensures Filled(r, buffer, base, Full(n), st)
  {
    if n == 0 {
      Begin(r, buffer, base);
      st := Init(base);
    } else {
      var before := Fill(r, buffer, base, n - 1);
      FullFacts(n - 1);
      st := FillOne(r, buffer, base, Full(n - 1), before, Filler(n - 1));
    }
  }

  lemma {:induction false} FillOne(r: Rules, buffer: int, base: Values, pending: Pending, before: State, s: Slot)
    returns (st: State)
    requires Filled(r, buffer, base, pending, before) && |pending| < buffer && s.cache == ""
    ensures Filled(r, buffer, base, pending[CoalesceKey(s) := Op(s, "a")], st)
  {
    st := Next(buffer, before, Enqueue(Op(s, "a")));
    ThenEnqueue(r, buffer, base, before, Op(s, "a"), st);
  }

  lemma {:induction false} HoldsRest(batch: Pending, k: string)
    requires k in batch && WellKeyed(batch)
    ensures forall s :: Holds(batch, s) <==> s == batch[k].slot || Holds(batch - {k}, s)
  {
  }

  /** The writes of the last batch can all be carried out. */
  lemma {:induction false} WriteOut(r: Rules, buffer: int, base: Values, st: State, done: seq<Pending>, batch: Pending)
    returns (record: Values)
    requires Reaches(r, buffer, base, st) && st.batches == done + [batch] && WellKeyed(batch)
    ensures Reaches(r, buffer, base, st.(record := record, batches := done + [map[]]))
    ensures forall s :: Get(record, s) == if Holds(batch, s) then Some(batch[CoalesceKey(s)].value)
              else Get(st.record, s)
    decreases |batch|
  {
    if batch == map[] {
      record := st.record;
    } else {
      var k :| k in batch;
      var op := batch[k];
      var rest := batch - {k};
      assert rest.Keys == batch.Keys - {k};
      var st' := st.(record := st.record[op.slot := op.value], batches := done + [rest]);
      assert st.batches[|done| := rest] == done + [rest];
      ThenWrite(r, buffer, base, st, |done|, k, true, done + [rest]);
      record := WriteOut(r, buffer, base, st', done, rest);
      HoldsRest(batch, k);
    }
  }

  /** A full buffer: the newer value is written straight through, and the older one pending
      for the same slot overwrites it at the next flush. */
  lemma {:induction false} OverflowLoses(r: Rules, buffer: nat, base: Values)
    requires !r.idleOverflow && buffer > 0
    ensures !Durable(r, buffer, base)
  {
    var st := Fill(r, buffer, base, buffer);
    FullFacts(buffer);
    var full, t := Full(buffer), Filler(0);
    var st3 := PassedBy(r, buffer, base, st, full, t);
    var none: seq<Pending> := [];
    assert none + [full] == [full] && none + [map[]] == [map[]];
    var record := WriteOut(r, buffer, base, st3, none, full);
    Lost(r, buffer, base, st3.(record := record, batches := [map[]]), t);
  }

  /** An overflow write of "b" lands, and the buffer is swapped out. */
  lemma {:induction false} PassedBy(r: Rules, buffer: nat, base: Values, st: State, full: Pending,
                                    t: Slot) returns (st3: State)
    requires Filled(r, buffer, base, full, st) && |full| == buffer > 0 && t.cache == ""
    requires r.idleOverflow ==> !Holds(full, t)
    ensures Reaches(r, buffer, base, st3) && st3.record == base[t := "b"] && Get(st3.last, t) == Some("b")
    ensures st3.direct == [] && st3.pending == map[] && st3.batches == [full]
  {
    var op := Op(t, "b");
    var st1 := st.(direct := [op], last := st.last[t := "b"], used := st.used + {""});
    ThenEnqueue(r, buffer, base, st, op, st1);
    var st2 := st1.(direct := [], record := base[t := "b"]);
    ThenDirect(r, buffer, base, st1, 0, true, []);
    st3 := st2.(batches := [full], pending := map[]);
    assert st2.batches + [full] == [full];
    ThenFlush(r, buffer, base, st2);
  }

  /** Without room to buffer, two overflow writes of one slot may land in either order. */
  lemma {:induction false} OverflowsRace(r: Rules, buffer: int, base: Values)
    requires !r.quietDirect && buffer <= 0
    ensures !Durable(r, buffer, base)
  {
    var a, b, last := Op(S, "a"), Op(S, "b"), base[S := "b"];
    Begin(r, buffer, base);
    var st1 := State(base, [a], [], map[], base[S := "a"], {""});
    ThenEnqueue(r, buffer, base, Init(base), a, st1);
    var st2 := State(base, [a, b], [], map[], last, {""});
    assert base[S := "a"][S := "b"] == last;
    ThenEnqueue(r, buffer, base, st1, b, st2);
    ThenDirect(r, buffer, base, st2, 1, true, [a]);
    var st3 := State(last, [a], [], map[], last, {""});
    ThenDirect(r, buffer, base, st3, 0, true, []);
    Lost(r, buffer, base, State(last[S := "a"], [], [], map[], last, {""}), S);
  }

  /** With room, an overflow write may land after a newer value was buffered and flushed. */
  lemma {:induction false} LateOverflowLoses(r: Rules, buffer: nat, base: Values)
    requires !r.quietDirect && buffer > 0
    ensures !Durable(r, buffer, base)
  {
    var st := OverflowWaits(r, buffer, base);
    var b, last := Op(S, "b"), st.last[S := "b"];
    var m: Pending := map[KEY := b];
    assert st.used + {""} == {""};
    ThenBuffer(r, buffer, base, st, b, KEY);
    var st1 := State(st.record, st.direct, [map[]], m, last, {""});
    ThenFlush(r, buffer, base, st1);
    var st2 := State(st.record, st.direct, [map[]] + [m], map[], last, {""});
    var record := WriteOut(r, buffer, base, st2, [map[]], m);
    var st3 := State(record, st.direct, [map[]] + [map[]], map[], last, {""});
    assert st2.(record := record, batches := [map[]] + [map[]]) == st3;
    ThenDirect(r, buffer, base, st3, 0, true, []);
    Lost(r, buffer, base, State(record[S := "a"], [], [map[]] + [map[]], map[], last, {""}), S);
  }

  /** The overflow write of "a" waits while everything that was pending is written. */
  lemma {:induction false} OverflowWaits(r: Rules, buffer: nat, base: Values) returns (st: State)
    requires buffer > 0
    ensures Reaches(r, buffer, base, st) && st.direct == [Op(S, "a")] && st.batches == [map[]] && st.pending == map[]
    ensures st.used == {""}
  {
    var st0 := Fill(r, buffer, base, buffer);
    FullFacts(buffer);
    var full := Full(buffer);
    var st1 := st0.(direct := [Op(S, "a")], last := st0.last[S := "a"], used := {""});
    assert st0.used + {""} == {""};
    ThenEnqueue(r, buffer, base, st0, Op(S, "a"), st1);
    var st2 := st1.(batches := [full], pending := map[]);
    assert st1.batches + [full] == [full];
    ThenFlush(r, buffer, base, st1);
    var none: seq<Pending> := [];
    assert none + [full] == [full] && none + [map[]] == [map[]];
    var record := WriteOut(r, buffer, base, st2, none, full);
    st := st2.(record := record, batches := [map[]]);
  }

  /** One write enqueued and its flush under way. */
  lemma {:induction false} OneFlush(r: Rules, buffer: int, base: Values, op: Op, k: string)
    requires buffer > 0 && k == CoalesceKey(op.slot)
    ensures Reaches(r, buffer, base, State(base, [], [map[k := op]], map[], base[op.slot := op.value], {op.slot.cache}))
  {
    Begin(r, buffer, base);
    ThenBuffer(r, buffer, base, Init(base), op, k);
    assert {} + {op.slot.cache} == {op.slot.cache};
    var st := State(base, [], [], map[k := op], base[op.slot := op.value], {op.slot.cache});
    ThenFlush(r, buffer, base, st);
    assert st.batches + [st.pending] == [st.pending];
  }

  /** Two flushes under way, the second with the newer value. */
  lemma {:induction false} TwoFlushes(r: Rules, buffer: int, base: Values)
    requires !r.singleFlush && buffer > 0
    ensures Reaches(r, buffer, base,
                    State(base, [], [map[KEY := Op(S, "a")], map[KEY := Op(S, "b")]], map[], base[S := "b"], {""}))
  {
    var a: Pending, b: Pending := map[KEY := Op(S, "a")], map[KEY := Op(S, "b")];
    OneFlush(r, buffer, base, Op(S, "a"), KEY);
    assert {""} + {""} == {""};
    var st2 := State(base, [], [a], map[], base[S := "a"], {""});
    ThenBuffer(r, buffer, base, st2, Op(S, "b"), KEY);
    var st3 := State(base, [], [a], b, base[S := "b"], {""});
    assert base[S := "a"][S := "b"] == base[S := "b"];
    ThenFlush(r, buffer, base, st3);
    assert [a] + [b] == [a, b];
  }

  /** An explicit flush beside the ticker's may write the newer value first. */
  lemma {:induction false} OverlappingFlushesLose(r: Rules, buffer: int, base: Values)
    requires !r.singleFlush && buffer > 0
    ensures !Durable(r, buffer, base)
  {
    var a: Pending, b: Pending, last := map[KEY := Op(S, "a")], map[KEY := Op(S, "b")], base[S := "b"];
    TwoFlushes(r, buffer, base);
    assert b - {KEY} == map[] && a - {KEY} == map[];
    ThenWrite(r, buffer, base, State(base, [], [a, b], map[], last, {""}), 1, KEY, true, [a, map[]]);
    var st5 := State(last, [], [a, map[]], map[], last, {""});
    ThenWrite(r, buffer, base, st5, 0, KEY, true, [map[], map[]]);
    Lost(r, buffer, base, State(last[S := "a"], [], [map[], map[]], map[], last, {""}), S);
  }

  /** A value the record does not hold. */
  function Fresh(base: Values, s: Slot): (v: string)
    ensures Get(base, s) != Some(v)
  {
    if s in base then assert |base[s] + "a"| > |base[s]|; base[s] + "a" else "a"
  }

  lemma {:induction false} FailedWriteLoses(r: Rules, buffer: int, base: Values)
    requires !r.writersSucceed
    ensures !Durable(r, buffer, base)
  {
    var op := Op(S, Fresh(base, S));
    if buffer <= 0 {
      FailedDirect(r, buffer, base, op);
    } else {
      FailedFlush(r, buffer, base, op, KEY);
    }
  }

  lemma {:induction false} FailedDirect(r: Rules, buffer: int, base: Values, op: Op)
    requires !r.writersSucceed && buffer <= 0 && Get(base, op.slot) != Some(op.value)
    ensures !Durable(r, buffer, base)
  {
    var last, used := base[op.slot := op.value], {op.slot.cache};
    Begin(r, buffer, base);
    var st1 := State(base, [op], [], map[], last, used);
    assert {} + used == used;
    ThenEnqueue(r, buffer, base, Init(base), op, st1);
    ThenDirect(r, buffer, base, st1, 0, false, []);
    Lost(r, buffer, base, State(base, [], [], map[], last, used), op.slot);
  }

  lemma {:induction false} FailedFlush(r: Rules, buffer: int, base: Values, op: Op, k: string)
    requires !r.writersSucceed && buffer > 0 && Get(base, op.slot) != Some(op.value) && k == CoalesceKey(op.slot)
    ensures !Durable(r, buffer, base)
  {
    var m: Pending, last, used := map[k := op], base[op.slot := op.value], {op.slot.cache};
    OneFlush(r, buffer, base, op, k);
    var st2 := State(base, [], [m], map[], last, used);
    assert m - {k} == map[];
    ThenWrite(r, buffer, base, st2, 0, k, false, [map[]]);
    Lost(r, buffer, base, State(base, [], [map[]], map[], last, used), op.slot);
  }

  const P := Slot("c", "d\0k")
  const Q := Slot("c\0d", "k")

  /** With room for two, a write displaces that of another slot it coalesces with. */
  lemma {:induction false} CollidingNamesLose(r: Rules, buffer: int, base: Values)
    requires !r.namesApart && buffer > 1
    ensures !Durable(r, buffer, base)
  {
    var p, q := Op(P, Fresh(base, P)), Op(Q, "b");
    var k := CoalesceKey(P);
    assert CoalesceKey(Q) == k && P != Q;
    Displaced(r, buffer, base, p, q, k);
    var m: Pending, last, used := map[k := q], base[P := p.value][Q := q.value], {P.cache} + {Q.cache};
    var st3 := State(base, [], [m], map[], last, used);
    assert m - {k} == map[];
    ThenWrite(r, buffer, base, st3, 0, k, true, [map[]]);
    Lost(r, buffer, base, State(base[Q := q.value], [], [map[]], map[], last, used), P);
  }

  lemma {:induction false} Displaced(r: Rules, buffer: int, base: Values, p: Op, q: Op, k: string)
    requires !r.namesApart && buffer > 1 && p.slot != q.slot && CoalesceKey(p.slot) == k == CoalesceKey(q.slot)
    ensures Reaches(r, buffer, base, State(base, [], [map[k := q]], map[], base[p.slot := p.value][q.slot := q.value],
                                           {p.slot.cache} + {q.slot.cache}))
  {
    Begin(r, buffer, base);
    ThenBuffer(r, buffer, base, Init(base), p, k);
    assert {} + {p.slot.cache} == {p.slot.cache};
    var st1 := State(base, [], [], map[k := p], base[p.slot := p.value], {p.slot.cache});
    var st2 := State(base, [], [], map[k := q], st1.last[q.slot := q.value], {p.slot.cache} + {q.slot.cache});
    assert st1.pending[k := q] == map[k := q];
    ThenEnqueue(r, buffer, base, st1, q, st2);
    ThenFlush(r, buffer, base, st2);
    assert st2.batches + [st2.pending] == [map[k := q]];
  }

  lemma {:induction false} EnoughIsDurable(r: Rules, buffer: int, base: Values)
    requires Enough(r, buffer)
    ensures Durable(r, buffer, base)
  {
    forall steps | AllowedRun(r, buffer, Init(base), steps) && Settled(Run(buffer, Init(base), steps))
      ensures Run(buffer, Init(base), steps).record == Run(buffer, Init(base), steps).last
    {
      var st := Run(buffer, Init(base), steps);
      forall s
        ensures Get(st.record, s) == Get(st.last, s)
      {
        OverlayIsLast(r, buffer, base, steps, s);
      }
      SameEverywhere(st.record, st.last);
    }
  }

  lemma {:induction false} SameEverywhere(a: Values, b: Values)
    requires forall s :: Get(a, s) == Get(b, s)
    ensures a == b
  {
    assert forall s :: s in a ==> Get(a, s) == Get(b, s);
    assert forall s :: s in b ==> Get(a, s) == Get(b, s);
  }

  /** Every settled state holds the last values exactly when writers succeed and nothing is
      enqueued for a slot during its overflow write; if the buffer has room, also overflow
      writes touch only idle slots and flushes do not overlap; and if it has room for two, no
      cache name in use continues another with a NUL. */
  lemma {:induction false} RulesExact(r: Rules, buffer: int, base: Values)
    ensures Durable(r, buffer, base) <==> Enough(r, buffer)
  {
    if Enough(r, buffer) {
      EnoughIsDurable(r, buffer, base);
    } else if !r.writersSucceed {
      FailedWriteLoses(r, buffer, base);
    } else if !r.quietDirect {
      if buffer > 0 {
        LateOverflowLoses(r, buffer, base);
      } else {
        OverflowsRace(r, buffer, base);
      }
    } else if !r.idleOverflow && buffer > 0 {
      OverflowLoses(r, buffer, base);
    } else if !r.singleFlush && buffer > 0 {
      OverlappingFlushesLose(r, buffer, base);
    } else {
      CollidingNamesLose(r, buffer, base);
    }
  }

  // ---- The buffer itself ----

  class Buffer {
    const limit: int
    var pending: Pending
    var record: Values

    ghost predicate Valid()
      reads this
    {
      && WellKeyed(pending)
      && |pending| <= if limit > 0 then limit else 0
    }

    /** The value a final flush would leave in the record. */
    function Value(s: Slot): Option<string>
      reads this
    {
      if Holds(pending, s) then Some(pending[CoalesceKey(s)].value) else Get(record, s)
    }

    constructor (limit: int, record: Values)
      ensures Valid() && this.limit == limit && forall s :: Value(s) == Get(record, s)
    {
      this.limit, this.record, pending := limit, record, map[];
    }

    /** `ok` is whether the writer would succeed. The new value takes effect unless the buffer
        is full and either holds an older value of the slot or the writer fails.  A value
        pending for another slot that coalesces with it is dropped. */
    method Enqueue(op: Op, hasWriter: bool, ok: bool)
      requires Valid()
      modifies this
      ensures Valid()
      ensures !hasWriter ==> pending == old(pending) && record == old(record)
      ensures hasWriter ==>
                Value(op.slot) == if |old(pending)| >= limit && (old(Holds(pending, op.slot)) || !ok)
                                  then old(Value(op.slot))
                                  else Some(op.value)
      ensures forall s :: s != op.slot ==>
                Value(s) == if hasWriter && |old(pending)| < limit && CoalesceKey(s) == CoalesceKey(op.slot)
                            then Get(old(record), s) else old(Value(s))
    {
      if !hasWriter {
        return;
      }
      if |pending| >= limit {
        record := Written(record, op, ok);
        return;
      }
      pending := pending[CoalesceKey(op.slot) := op];
      assert pending.Keys == old(pending).Keys + {CoalesceKey(op.slot)};
    }

    /** Writes the swapped-out batch in any order; `fails` are the keys whose writer fails. */
    method FlushAll(fails: set<Slot>) returns (failed: bool)
      requires Valid()
      modifies this
      ensures Valid() && pending == map[]
      ensures forall s :: Get(record, s) == if s in fails then Get(old(record), s) else old(Value(s))
      ensures failed <==> exists s :: s in fails && old(Holds(pending, s))
    {
      failed := false;
      if |pending| == 0 {
        return;
      }
      var batch := pending;
      pending := map[];
      var todo := batch.Keys;
      while todo != {}
        invariant todo <= batch.Keys && pending == map[]
        invariant forall s :: Get(record, s) == if s in fails || CoalesceKey(s) in todo then Get(old(record), s)
                    else old(Value(s))
        invariant failed <==> exists s :: s in fails && old(Holds(pending, s)) && CoalesceKey(s) !in todo
        decreases todo
      {
        var k :| k in todo;
        var op := batch[k];
        assert old(Holds(pending, op.slot)) && CoalesceKey(op.slot) == k;
        record := Written(record, op, op.slot !in fails);
        failed := failed || op.slot in fails;
        todo := todo - {k};
      }
    }
  }
}
