/** What durability depends on, for every setting of the options: the window must be as wide
    as the full-snapshot period, and of the five exclusions only the one on captures can be
    given up, and only where no snapshot is incremental. */
module DurabilityLimits {
  import opened Documents
  import opened Durability
  import opened Wrappers

  // ---- Runs in pieces ----

  lemma {:induction false} RunConcat(r: Rules, o: Options, st: State, a: seq<Step>, b: seq<Step>)
    ensures Run(o, st, a + b) == Run(o, Run(o, st, a), b)
    ensures AllowedRun(r, o, st, a + b) <==> AllowedRun(r, o, st, a) && AllowedRun(r, o, Run(o, st, a), b)
    decreases |a|
  {
    if a == [] {
      assert a + b == b;
    } else {
      assert (a + b)[1..] == a[1..] + b;
      RunConcat(r, o, Next(o, st, a[0]), a[1..], b);
    }
  }

  lemma {:induction false} Run2(r: Rules, o: Options, st: State, x: Step, y: Step)
    ensures Run(o, st, [x, y]) == Next(o, Next(o, st, x), y)
    ensures AllowedRun(r, o, st, [x, y]) <==> Allowed(r, st, x) && Allowed(r, Next(o, st, x), y)
  {
    assert [x, y][1..] == [y] && [y][1..] == [];
    assert Run(o, Next(o, st, x), [y]) == Run(o, Next(o, Next(o, st, x), y), []);
    assert AllowedRun(r, o, Next(o, st, x), [y]) <==> Allowed(r, Next(o, st, x), y);
  }

  function OpenAll(k: nat): seq<Step> {
    OpenFirst(k) + ([Open(k, ReadTail), Open(k, Register)] + [Open(k, Activate)])
  }

  /** The part of an open call before it reads the log. */
  function OpenFirst(k: nat): seq<Step> {
    [Open(k, Look), Open(k, ReadMeta)] + [Open(k, SaveMeta), Open(k, ReadChain)]
  }

  /** What an open call does if nothing intervenes. */
  function Opened(st: State): State {
    if st.entry.Some? then st
    else if !st.disk.known then Load(st.(disk := st.disk.(known := true)), {}, 0, Initialized)
    else
      match Recover(st.disk.snaps, st.disk.log)
      case NotFound => st
      case Rebuilt(doc, version) => Load(st, doc, version, Active)
  }

  /** An open call of a document that is not loaded, before it reads the log. */
  function Begun(st: State, k: nat): State {
    if !st.disk.known then st.(disk := st.disk.(known := true), opens := st.opens[k := Fresh])
    else
      var snaps := st.disk.snaps;
      st.(opens := st.opens[k := ChainRead(Held(snaps), SnapVersion(snaps), snaps != [])])
  }

  lemma {:induction false} LookRuns(r: Rules, o: Options, st: State, k: nat)
    requires k !in st.opens && st.entry.None?
    ensures AllowedRun(r, o, st, [Open(k, Look), Open(k, ReadMeta)])
    ensures Run(o, st, [Open(k, Look), Open(k, ReadMeta)])
            == st.(opens := st.opens[k := if st.disk.known then Known else Unknown])
  {
    Run2(r, o, st, Open(k, Look), Open(k, ReadMeta));
    assert Next(o, st, Open(k, Look)) == st.(opens := st.opens[k := Looked]);
    assert st.opens[k := Looked][k := Known] == st.opens[k := Known];
  }

  lemma {:induction false} MetaRuns(r: Rules, o: Options, st: State, k: nat, opens: map<nat, Opening>)
    requires opens == st.opens[k := if st.disk.known then Known else Unknown]
    ensures AllowedRun(r, o, st.(opens := opens), [Open(k, SaveMeta), Open(k, ReadChain)])
    ensures Run(o, st.(opens := opens), [Open(k, SaveMeta), Open(k, ReadChain)]) == Begun(st, k)
  {
    var s1, s2 := st.(opens := opens), ReadNext(st.(opens := opens), k, SaveMeta);
    Run2(r, o, s1, Open(k, SaveMeta), Open(k, ReadChain));
    if st.disk.known {
      assert s2 == s1;
      assert ReadNext(s2, k, ReadChain).opens == Begun(st, k).opens;
    } else {
      assert s2.opens == Begun(st, k).opens;
      assert ReadNext(s2, k, ReadChain) == s2;
    }
  }

  lemma {:induction false} BeginRuns(r: Rules, o: Options, st: State, k: nat)
    requires k !in st.opens && st.entry.None?
    ensures AllowedRun(r, o, st, OpenFirst(k)) && Run(o, st, OpenFirst(k)) == Begun(st, k)
  {
    RunConcat(r, o, st, [Open(k, Look), Open(k, ReadMeta)], [Open(k, SaveMeta), Open(k, ReadChain)]);
    LookRuns(r, o, st, k);
    MetaRuns(r, o, st, k, st.opens[k := if st.disk.known then Known else Unknown]);
  }

  lemma {:induction false} SettleRuns(r: Rules, o: Options, st: State, k: nat, open: Opening, st': State)
    requires k !in st.opens && st.entry.None?
    requires || (open == Fresh && st' == Load(st, {}, 0, Initialized))
             || (open.Found? && st' == Load(st, open.doc, open.version, Active))
    ensures var s1 := Next(o, st.(opens := st.opens[k := open]), Open(k, Register));
            Next(o, s1, Open(k, Activate)) == st'
  {
    var s1 := Next(o, st.(opens := st.opens[k := open]), Open(k, Register));
    assert Without(s1.opens, k) == st.opens;
  }

  lemma {:induction false} TailRead(o: Options, st: State, k: nat)
    requires k !in st.opens && st.entry.None? && st.disk.known
    ensures var st' := Next(o, Begun(st, k), Open(k, ReadTail));
            match Recover(st.disk.snaps, st.disk.log)
            case NotFound => st' == st
            case Rebuilt(doc, version) => st' == st.(opens := st.opens[k := Found(doc, version)])
  {
    var begun := Begun(st, k);
    assert Next(o, begun, Open(k, ReadTail)) == ReadNext(begun, k, ReadTail);
    match Recover(st.disk.snaps, st.disk.log)
    case NotFound => assert Without(begun.opens, k) == st.opens;
    case Rebuilt(doc, version) => assert begun.opens[k := Found(doc, version)] == st.opens[k := Found(doc, version)];
  }

  lemma {:induction false} Run3(r: Rules, o: Options, st: State, a: Step, b: Step, c: Step)
    ensures Run(o, st, [a, b] + [c]) == Next(o, Next(o, Next(o, st, a), b), c)
    ensures AllowedRun(r, o, st, [a, b] + [c]) <==>
              Allowed(r, st, a) && Allowed(r, Next(o, st, a), b) && Allowed(r, Next(o, Next(o, st, a), b), c)
  {
    var mid := Next(o, Next(o, st, a), b);
    RunConcat(r, o, st, [a, b], [c]);
    Run2(r, o, st, a, b);
    assert [c][1..] == [];
    assert Run(o, mid, [c]) == Run(o, Next(o, mid, c), []);
    assert AllowedRun(r, o, mid, [c]) <==> Allowed(r, mid, c);
  }

  lemma {:induction false} EndRuns(r: Rules, o: Options, st: State, k: nat)
    requires k !in st.opens && st.entry.None?
    ensures AllowedRun(r, o, Begun(st, k), [Open(k, ReadTail), Open(k, Register)] + [Open(k, Activate)])
    ensures Run(o, Begun(st, k), [Open(k, ReadTail), Open(k, Register)] + [Open(k, Activate)]) == Opened(st)
  {
    Run3(r, o, Begun(st, k), Open(k, ReadTail), Open(k, Register), Open(k, Activate));
    if !st.disk.known {
      SettleRuns(r, o, st.(disk := st.disk.(known := true)), k, Fresh, Opened(st));
    } else {
      TailRead(o, st, k);
      if Recover(st.disk.snaps, st.disk.log).Rebuilt? {
        var Rebuilt(doc, version) := Recover(st.disk.snaps, st.disk.log);
        SettleRuns(r, o, st, k, Found(doc, version), Opened(st));
      }
    }
  }

  /** A loaded document makes an open call return at once. */
  lemma {:induction false} LoadedRuns(r: Rules, o: Options, st: State, k: nat, moves: seq<Step>)
    requires k !in st.opens && st.entry.Some? && forall i :: 0 <= i < |moves| ==> moves[i].Open? && moves[i].open == k
    ensures AllowedRun(r, o, st, moves) && Run(o, st, moves) == st
    decreases |moves|
  {
    if moves != [] {
      assert Next(o, st, moves[0]) == st by {
        assert moves[0].move.Abandon? ==> Without(st.opens, k) == st.opens;
      }
      LoadedRuns(r, o, st, k, moves[1..]);
    }
  }

  lemma {:induction false} OpenRuns(r: Rules, o: Options, st: State, k: nat)
    requires k !in st.opens
    ensures AllowedRun(r, o, st, OpenAll(k)) && Run(o, st, OpenAll(k)) == Opened(st)
  {
    if st.entry.Some? {
      LoadedRuns(r, o, st, k, OpenAll(k));
    } else {
      RunConcat(r, o, st, OpenFirst(k), [Open(k, ReadTail), Open(k, Register)] + [Open(k, Activate)]);
      BeginRuns(r, o, st, k);
      EndRuns(r, o, st, k);
    }
  }

  function Edit(data: Ops): seq<Step> {
    [Get(0, data), Apply(0)] + [Mark(0), Append(0)]
  }

  function Edited(st: State, data: Ops): State
    requires st.entry.Some? && st.entry.value.instance in st.docs
  {
    var e := st.entry.value;
    st.(docs := st.docs[e.instance := st.docs[e.instance] + data],
        entry := Some(e.(version := e.version + 1, editCount := e.editCount + 1, dirty := true,
                         pending := e.pending + 1, state := EditedState(e.state))),
        disk := st.disk.(log := st.disk.log + [Update(data, e.version + 1)]),
        acked := st.acked + data, applied := st.applied + data, logged := Max(st.logged, e.version + 1))
  }

  predicate NoCapture(st: State) {
    forall s :: s in st.savers ==> st.savers[s].phase != Captured
  }

  lemma {:induction false} EditRuns(r: Rules, o: Options, st: State, data: Ops)
    requires st.entry.Some? && st.entry.value.instance in st.docs && st.calls == map[]
    ensures Run(o, st, Edit(data)) == Edited(st, data)
    ensures !r.atomicCapture || NoCapture(st) ==> AllowedRun(r, o, st, Edit(data))
  {
    RunConcat(r, o, st, [Get(0, data), Apply(0)], [Mark(0), Append(0)]);
    Run2(r, o, st, Get(0, data), Apply(0));
    var mid := Run(o, st, [Get(0, data), Apply(0)]);
    Run2(r, o, mid, Mark(0), Append(0));
  }

  function Build(s: nat, id: string): seq<Step> {
    [Pend(s), Resolve(s)] + [TakePayload(s), TakeVector(s, id)]
  }

  /** Which storage operations of a snapshot call fail. */
  datatype Faults = Faults(save: bool, prune: bool, trim: bool)

  const NO_FAULTS := Faults(false, false, false)

  function Store(s: nat, f: Faults := NO_FAULTS): seq<Step> {
    [Save(s), Prune(s, f.prune)] + [Trim(s, f.trim), Record(s)]
  }

  /** The snapshot a planned saver builds if nothing intervenes. */
  function BuiltSnap(o: Options, st: State, v: Saver, id: string): Snapshot
    requires v.instance in st.docs
  {
    var plan := PlanNext(o.threshold, v.meta, st.disk.snaps);
    var doc := st.docs[v.instance];
    Snapshot(id, plan.kind, doc, doc - plan.base, plan.baseVersion, v.version)
  }

  function Kept(o: Options, snaps: seq<Snapshot>, pruneFails: bool): seq<Snapshot>
    requires o.retention >= 0
  {
    if pruneFails then snaps else Pruned(snaps, o.retention)
  }

  function Stored(o: Options, st: State, s: nat, snap: Snapshot, f: Faults := NO_FAULTS): State
    requires st.entry.Some? && o.retention >= 0
  {
    st.(disk := st.disk.(snaps := Kept(o, st.disk.snaps + [snap], f.prune),
                         log := if f.trim then st.disk.log else Since(st.disk.log, snap.version)),
        entry := Some(RecordIn(st.entry.value, snap).(state := Persisted)),
        savers := Without(st.savers, s))
  }

  function WithSnap(o: Options, st: State, s: nat, id: string): State
    requires st.entry.Some? && s in st.savers && st.savers[s].instance in st.docs
  {
    var v := st.savers[s];
    st.(entry := Some(st.entry.value.(state := SnapshotPending)),
        savers := st.savers[s := v.(phase := Built, plan := PlanNext(o.threshold, v.meta, st.disk.snaps),
                                    payload := BuiltSnap(o, st, v, id).data, snap := BuiltSnap(o, st, v, id))])
  }

  lemma {:induction false} BuildRuns(r: Rules, o: Options, st: State, s: nat, id: string)
    requires st.entry.Some? && InPhase(st, s, Planned) && st.savers[s].instance in st.docs
    requires CanTransition(st.entry.value.state, SnapshotPending)
    ensures AllowedRun(r, o, st, Build(s, id))
    ensures Run(o, st, Build(s, id)) == WithSnap(o, st, s, id)
  {
    RunConcat(r, o, st, [Pend(s), Resolve(s)], [TakePayload(s), TakeVector(s, id)]);
    Run2(r, o, st, Pend(s), Resolve(s));
    var mid := Run(o, st, [Pend(s), Resolve(s)]);
    Run2(r, o, mid, TakePayload(s), TakeVector(s, id));
  }

  lemma {:induction false} SavePruneRuns(r: Rules, o: Options, st: State, s: nat, fails: bool)
    requires InPhase(st, s, Built) && o.retention >= 0
    ensures AllowedRun(r, o, st, [Save(s), Prune(s, fails)])
    ensures Run(o, st, [Save(s), Prune(s, fails)]) ==
            st.(disk := st.disk.(snaps := Kept(o, st.disk.snaps + [st.savers[s].snap], fails)),
                savers := st.savers[s := st.savers[s].(phase := Retained)])
  {
    Run2(r, o, st, Save(s), Prune(s, fails));
    assert st.savers[s := st.savers[s].(phase := Saved)][s := st.savers[s].(phase := Retained)]
        == st.savers[s := st.savers[s].(phase := Retained)];
  }

  lemma {:induction false} TrimRecordRuns(r: Rules, o: Options, st: State, s: nat, fails: bool)
    requires st.entry.Some? && InPhase(st, s, Retained)
    ensures AllowedRun(r, o, st, [Trim(s, fails), Record(s)])
    ensures Run(o, st, [Trim(s, fails), Record(s)]) ==
            st.(disk := st.disk.(log := if fails then st.disk.log else Since(st.disk.log, st.savers[s].version)),
                entry := Some(RecordIn(st.entry.value, st.savers[s].snap)),
                savers := st.savers[s := st.savers[s].(phase := Recorded)])
  {
    Run2(r, o, st, Trim(s, fails), Record(s));
    assert st.savers[s := st.savers[s].(phase := Trimmed)][s := st.savers[s].(phase := Recorded)]
        == st.savers[s := st.savers[s].(phase := Recorded)];
  }

  lemma {:induction false} StoreOnlyRuns(r: Rules, o: Options, st: State, s: nat, f: Faults)
    requires st.entry.Some? && InPhase(st, s, Built) && o.retention >= 0
    ensures AllowedRun(r, o, st, Store(s, f))
    ensures var v := st.savers[s];
            Run(o, st, Store(s, f)) ==
            st.(disk := st.disk.(snaps := Kept(o, st.disk.snaps + [v.snap], f.prune),
                                 log := if f.trim then st.disk.log else Since(st.disk.log, v.version)),
                entry := Some(RecordIn(st.entry.value, v.snap)), savers := st.savers[s := v.(phase := Recorded)])
  {
    RunConcat(r, o, st, [Save(s), Prune(s, f.prune)], [Trim(s, f.trim), Record(s)]);
    SavePruneRuns(r, o, st, s, f.prune);
    TrimRecordRuns(r, o, Run(o, st, [Save(s), Prune(s, f.prune)]), s, f.trim);
    assert st.savers[s := st.savers[s].(phase := Retained)][s := st.savers[s].(phase := Recorded)]
        == st.savers[s := st.savers[s].(phase := Recorded)];
  }

  lemma {:induction false} StoreRuns(r: Rules, o: Options, st: State, s: nat, f: Faults := NO_FAULTS)
    requires st.entry.Some? && InPhase(st, s, Built) && o.retention >= 0
    requires st.entry.value.state == SnapshotPending && st.savers[s].snap.version == st.savers[s].version
    ensures AllowedRun(r, o, st, Store(s, f) + [Persist(s)])
    ensures Run(o, st, Store(s, f) + [Persist(s)]) == Stored(o, st, s, st.savers[s].snap, f)
  {
    RunConcat(r, o, st, Store(s, f), [Persist(s)]);
    StoreOnlyRuns(r, o, st, s, f);
    var end := Run(o, st, Store(s, f));
    assert [Persist(s)][1..] == [];
    assert Run(o, end, [Persist(s)]) == Next(o, end, Persist(s));
    assert Without(end.savers, s) == Without(st.savers, s);
  }

  function FinishSave(s: nat, id: string, f: Faults := NO_FAULTS): seq<Step> {
    Build(s, id) + (if f.save then [GiveUp(s)] else Store(s, f) + [Persist(s)])
  }

  /** A call that cannot save its snapshot leaves the document dirty. */
  function Finished(o: Options, st: State, s: nat, snap: Snapshot, f: Faults): State
    requires st.entry.Some? && o.retention >= 0
  {
    if f.save then st.(entry := Some(st.entry.value.(state := Dirty)), savers := Without(st.savers, s))
    else Stored(o, st, s, snap, f)
  }

  lemma {:induction false} GiveUpRuns(r: Rules, o: Options, st: State, s: nat)
    requires st.entry.Some? && InPhase(st, s, Built) && st.entry.value.state == SnapshotPending
    ensures AllowedRun(r, o, st, [GiveUp(s)])
    ensures Run(o, st, [GiveUp(s)])
            == st.(entry := Some(st.entry.value.(state := Dirty)), savers := Without(st.savers, s))
  {
    assert [GiveUp(s)][1..] == [];
    assert Run(o, st, [GiveUp(s)]) == Next(o, st, GiveUp(s));
  }

  /** Where the call ends does not depend on what it learned on the way. */
  lemma {:induction false} FinishedFrom(o: Options, st: State, s: nat, id: string, f: Faults)
    requires st.entry.Some? && s in st.savers && st.savers[s].instance in st.docs && o.retention >= 0
    ensures var snap := BuiltSnap(o, st, st.savers[s], id);
            Finished(o, WithSnap(o, st, s, id), s, snap, f) == Finished(o, st, s, snap, f)
  {
    assert Without(WithSnap(o, st, s, id).savers, s) == Without(st.savers, s);
  }

  /** A planned snapshot call that runs to its end. */
  lemma {:induction false} FinishRuns(r: Rules, o: Options, st: State, s: nat, id: string, f: Faults := NO_FAULTS)
    requires st.entry.Some? && InPhase(st, s, Planned) && st.savers[s].instance in st.docs && o.retention >= 0
    requires CanTransition(st.entry.value.state, SnapshotPending)
    ensures AllowedRun(r, o, st, FinishSave(s, id, f))
    ensures Run(o, st, FinishSave(s, id, f)) == Finished(o, st, s, BuiltSnap(o, st, st.savers[s], id), f)
  {
    RunConcat(r, o, st, Build(s, id), if f.save then [GiveUp(s)] else Store(s, f) + [Persist(s)]);
    BuildRuns(r, o, st, s, id);
    var built := WithSnap(o, st, s, id);
    if f.save {
      GiveUpRuns(r, o, built, s);
    } else {
      StoreRuns(r, o, built, s, f);
    }
    FinishedFrom(o, st, s, id, f);
  }

  function SaveAll(s: nat, id: string, f: Faults := NO_FAULTS): seq<Step> {
    [PlanSnapshot(s)] + FinishSave(s, id, f)
  }

  function PlannedBy(e: Entry): Saver {
    Saver(Planned, e.instance, e.version, e.meta, FULL_PLAN, {}, Snapshot("", Full, {}, {}, 0, 0))
  }

  lemma {:induction false} SaveRuns(r: Rules, o: Options, st: State, s: nat, id: string, f: Faults := NO_FAULTS)
    requires st.entry.Some? && s !in st.savers && st.entry.value.instance in st.docs && o.retention >= 0
    requires CanTransition(st.entry.value.state, SnapshotPending)
    ensures st.savers == map[] || !r.singleSaver ==> AllowedRun(r, o, st, SaveAll(s, id, f))
    ensures Run(o, st, SaveAll(s, id, f)) == Finished(o, st, s, BuiltSnap(o, st, PlannedBy(st.entry.value), id), f)
  {
    var st' := Next(o, st, PlanSnapshot(s));
    assert SaveAll(s, id, f)[1..] == FinishSave(s, id, f);
    FinishRuns(r, o, st', s, id, f);
    assert Without(st'.savers, s) == Without(st.savers, s);
  }

  /** An update that cannot be logged: it stays applied and is not acknowledged. */
  function Unlogged(data: Ops): seq<Step> {
    [Get(0, data), Apply(0)] + [Mark(0), Reject(0)]
  }

  lemma {:induction false} UnloggedRuns(r: Rules, o: Options, st: State, data: Ops)
    requires st.entry.Some? && st.entry.value.instance in st.docs && st.calls == map[]
    ensures Run(o, st, Unlogged(data)) == Edited(st, data).(disk := st.disk, acked := st.acked, logged := st.logged)
    ensures !r.atomicCapture || NoCapture(st) ==> AllowedRun(r, o, st, Unlogged(data))
  {
    RunConcat(r, o, st, [Get(0, data), Apply(0)], [Mark(0), Reject(0)]);
    Run2(r, o, st, Get(0, data), Apply(0));
    var mid := Run(o, st, [Get(0, data), Apply(0)]);
    Run2(r, o, mid, Mark(0), Reject(0));
  }

  // ---- Reachable states ----

  /** Some run the rules allow reaches `st`. */
  ghost predicate Reaches(o: Options, r: Rules, st: State) {
    exists steps :: AllowedRun(r, o, INIT, steps) && Run(o, INIT, steps) == st
  }

  /** Some run the rules allow ends in storage that does not rebuild what it should. */
  ghost predicate Loses(o: Options, r: Rules) {
    exists st :: Reaches(o, r, st) && !Safe(st)
  }

  lemma {:induction false} Begin(o: Options, r: Rules)
    ensures Reaches(o, r, INIT)
  {
    assert Run(o, INIT, []) == INIT && AllowedRun(r, o, INIT, []);
  }

  lemma {:induction false} Then(o: Options, r: Rules, st: State, more: seq<Step>)
    requires Reaches(o, r, st) && AllowedRun(r, o, st, more)
    ensures Reaches(o, r, Run(o, st, more))
  {
    var steps :| AllowedRun(r, o, INIT, steps) && Run(o, INIT, steps) == st;
    RunConcat(r, o, INIT, steps, more);
    assert Run(o, INIT, steps + more) == Run(o, st, more);
  }

  lemma {:induction false} ThenStep(o: Options, r: Rules, st: State, x: Step, st': State)
    requires Reaches(o, r, st) && Allowed(r, st, x) && Next(o, st, x) == st'
    ensures Reaches(o, r, st')
  {
    assert [x][1..] == [];
    assert Run(o, st', []) == st' && AllowedRun(r, o, st', []);
    assert Run(o, st, [x]) == st';
    Then(o, r, st, [x]);
  }

  lemma {:induction false} ThenOpen(o: Options, r: Rules, st: State, k: nat)
    requires Reaches(o, r, st) && k !in st.opens
    ensures Reaches(o, r, Opened(st))
  {
    OpenRuns(r, o, st, k);
    Then(o, r, st, OpenAll(k));
  }

  lemma {:induction false} ThenEdit(o: Options, r: Rules, st: State, data: Ops)
    requires Reaches(o, r, st) && st.entry.Some? && st.entry.value.instance in st.docs && st.calls == map[]
    requires !r.atomicCapture || NoCapture(st)
    ensures Reaches(o, r, Edited(st, data))
  {
    EditRuns(r, o, st, data);
    Then(o, r, st, Edit(data));
  }

  lemma {:induction false} ThenSave(o: Options, r: Rules, st: State, s: nat, id: string)
    requires Reaches(o, r, st) && st.entry.Some? && s !in st.savers && st.entry.value.instance in st.docs
    requires o.retention >= 0
    requires CanTransition(st.entry.value.state, SnapshotPending) && (st.savers == map[] || !r.singleSaver)
    ensures Reaches(o, r, Stored(o, st, s, BuiltSnap(o, st, PlannedBy(st.entry.value), id)))
  {
    SaveRuns(r, o, st, s, id);
    Then(o, r, st, SaveAll(s, id));
  }

  // ---- The window ----

  /** A state `k` rounds of one edit and one snapshot lead to. */
  ghost predicate AfterRounds(k: nat, st: State) {
    && st.calls == map[] && st.savers == map[] && st.entry.Some?
    && var e := st.entry.value;
    && e.instance in st.docs && e.version == k && e.meta.count == k
    && (k > 0 ==>
          && e.state == Persisted && e.meta.lastId == "snap"
          && 0 in st.acked && 0 in st.docs[e.instance] && 0 in Latest(st.disk.snaps)
          && |st.disk.snaps| == k)
    && (k == 0 ==> e.state == Initialized && st.disk.snaps == [])
    && st.disk.log == []
    && (forall i :: 0 < i < |st.disk.snaps| ==> 0 !in st.disk.snaps[i].data)
  }

  function Round(o: Options, k: nat, st: State): State
    requires st.entry.Some? && st.entry.value.instance in st.docs && o.retention >= 0
  {
    var ed := Edited(st, {k});
    Stored(o, ed, 0, BuiltSnap(o, ed, PlannedBy(ed.entry.value), "snap"))
  }

  /** One more round on top of `k` earlier ones: the last that fits the window keeps
      the full snapshot, the next one drops it. */
  lemma {:induction false} RoundEffect(o: Options, k: nat, st: State)
    requires AfterRounds(k, st) && 1 <= o.retention < o.threshold && k <= o.retention
    ensures var st' := Round(o, k, st);
            && (k < o.retention ==> AfterRounds(k + 1, st'))
            && (k == o.retention ==> 0 in st'.acked && st'.disk.log == [] &&
                                     forall i :: 0 <= i < |st'.disk.snaps| ==> 0 !in st'.disk.snaps[i].data)
  {
    var ed := Edited(st, {k});
    RoundPlan(o, k, st);
    var snap := BuiltSnap(o, ed, PlannedBy(ed.entry.value), "snap");
    assert Since(ed.disk.log, k + 1) == [] by {
      assert ed.disk.log[..0] == [];
    }
    PruneOne(st.disk.snaps, snap, o.retention);
  }

  lemma {:induction false} RoundPlan(o: Options, k: nat, st: State)
    requires AfterRounds(k, st) && 1 <= o.retention < o.threshold && k <= o.retention
    ensures var plan := PlanNext(o.threshold, Edited(st, {k}).entry.value.meta, st.disk.snaps);
            k > 0 ==> plan.kind == Incremental && 0 in plan.base
  {
    assert k > 0 ==> k % o.threshold == k;
  }

  lemma {:induction false} PruneOne(snaps: seq<Snapshot>, snap: Snapshot, keep: nat)
    requires |snaps| <= keep && keep >= 1
    ensures var kept := Pruned(snaps + [snap], keep);
            && kept == (if |snaps| < keep then snaps + [snap] else snaps[1..] + [snap])
            && Latest(kept) == snap.stateVector
  {
    assert |snaps| == keep ==> (snaps + [snap])[1..] == snaps[1..] + [snap];
  }

  lemma {:induction false} OpenReached(o: Options) returns (st: State)
    ensures Reaches(o, ALL_RULES, st) && AfterRounds(0, st)
  {
    Begin(o, ALL_RULES);
    st := Opened(INIT);
    ThenOpen(o, ALL_RULES, INIT, 0);
  }

  lemma {:induction false} RoundReached(o: Options, k: nat, st: State)
    requires AfterRounds(k, st) && o.retention >= 1 && Reaches(o, ALL_RULES, st)
    ensures Reaches(o, ALL_RULES, Round(o, k, st))
  {
    ThenEdit(o, ALL_RULES, st, {k});
    ThenSave(o, ALL_RULES, Edited(st, {k}), 0, "snap");
  }

  lemma {:induction false} RoundsReached(o: Options, k: nat) returns (st: State)
    requires 1 <= o.retention < o.threshold && k <= o.retention
    ensures Reaches(o, ALL_RULES, st) && AfterRounds(k, st)
  {
    if k == 0 {
      st := OpenReached(o);
    } else {
      var before := RoundsReached(o, k - 1);
      RoundReached(o, k - 1, before);
      RoundEffect(o, k - 1, before);
      st := Round(o, k - 1, before);
    }
  }

  lemma {:induction false} PayloadsLack(snaps: seq<Snapshot>, x: nat)
    requires forall i :: 0 <= i < |snaps| ==> x !in snaps[i].data
    ensures x !in Payloads(snaps)
  {
    if snaps != [] {
      PayloadsLack(snaps[..|snaps| - 1], x);
    }
  }

  lemma {:induction false} LostUnlessLogged(st: State, x: nat)
    requires x in st.acked && Since(st.disk.log, SnapVersion(st.disk.snaps)) == []
    requires forall i :: 0 <= i < |st.disk.snaps| ==> x !in st.disk.snaps[i].data
    ensures !Safe(st)
  {
    PayloadsLack(Chain(st.disk.snaps), x);
  }

  /** A window narrower than the full-snapshot period lets a run lose its first update. */
  lemma {:induction false} NarrowWindowLoses(o: Options)
    requires 1 <= o.retention < o.threshold
    ensures Loses(o, ALL_RULES)
  {
    var k := o.retention;
    var before := RoundsReached(o, k);
    RoundReached(o, k, before);
    RoundEffect(o, k, before);
    LostUnlessLogged(Round(o, k, before), 0);
  }

  /** Every reachable state is safe exactly for the options whose retention reaches
      the full-snapshot period, as the snapshot manager normalises them. */
  lemma {:induction false} WindowExact(given: Options)
    ensures var o := Normalize(given);
            o.retention >= Max(1, o.threshold) <==> forall st :: Reaches(o, ALL_RULES, st) ==> Safe(st)
  {
    var o := Normalize(given);
    if Wide(o) {
      forall st | Reaches(o, ALL_RULES, st)
        ensures Safe(st)
      {
        var steps :| AllowedRun(ALL_RULES, o, INIT, steps) && Run(o, INIT, steps) == st;
        Durable(ALL_RULES, o, steps);
      }
    } else {
      NarrowWindowLoses(o);
    }
  }

  /** The shipped defaults (five retained, ten to a full one) are too narrow. */
  lemma {:induction false} DefaultsLose()
    ensures Loses(Options(5, 10), ALL_RULES)
  {
    NarrowWindowLoses(Options(5, 10));
  }

  // ---- The exclusions ----

  /** Loaded, with one update applied and logged. */
  const ONE_EDIT := State(Disk(true, [Update({1}, 1)], []),
                          Some(Entry(0, Dirty, 1, 1, true, 1, NO_SNAPSHOTS)),
                          map[0 := {1}], 1, map[], map[], map[], {1}, {1}, 1)

  lemma {:induction false} OneEdit(o: Options, r: Rules)
    ensures Reaches(o, r, ONE_EDIT)
  {
    Begin(o, r);
    var atFirst := Opened(INIT);
    ThenOpen(o, r, INIT, 0);
    ThenEdit(o, r, atFirst, {1});
    assert {} + {1} == {1};
    assert atFirst.docs[0 := {1}] == map[0 := {1}];
    assert Edited(atFirst, {1}) == ONE_EDIT;
  }

  const FIRST_SNAP := Snapshot("a", Full, {1}, {1}, 0, 1)

  /** The same document after its first snapshot. */
  const ONE_SNAP := State(Disk(true, [], [FIRST_SNAP]),
                          Some(Entry(0, Persisted, 1, 0, false, 0, SnapshotMeta("a", Full, 1, 1))),
                          map[0 := {1}], 1, map[], map[], map[], {1}, {1}, 1)

  lemma {:induction false} OneSnap(o: Options, r: Rules)
    requires o.retention >= 1
    ensures Reaches(o, r, ONE_SNAP)
  {
    OneEdit(o, r);
    ThenSave(o, r, ONE_EDIT, 0, "a");
    assert {1} - {} == {1};
    assert BuiltSnap(o, ONE_EDIT, PlannedBy(ONE_EDIT.entry.value), "a") == FIRST_SNAP;
    assert Since([Update({1}, 1)], 1) == [];
    assert Stored(o, ONE_EDIT, 0, FIRST_SNAP) == ONE_SNAP;
  }

  const UNLOAD_UNDER_CALLS := Rules(false, true, true, true, true)

  /** The snapshot alone counts: an update at version 0 is never replayed. */
  lemma {:induction false} RecoverFirst()
    ensures Recover([FIRST_SNAP], [Update({2}, 0)]) == Rebuilt({1}, 1)
  {
    assert Since([Update({2}, 0)], 1) == [];
    assert [FIRST_SNAP][..0] == [];
    assert Chain([FIRST_SNAP]) == [FIRST_SNAP];
    assert Payloads([FIRST_SNAP]) == {1};
  }

  /** Archived and unregistered, after a call applied its update and before it marked it. */
  const UNLOADED := ONE_SNAP.(entry := None, docs := map[0 := {1, 2}], calls := map[0 := Applied({2})],
                              applied := {1, 2})

  lemma {:induction false} Applying(o: Options, r: Rules)
    requires o.retention >= 1
    ensures Reaches(o, r, UNLOADED.(entry := ONE_SNAP.entry))
  {
    OneSnap(o, r);
    var s1 := ONE_SNAP.(calls := map[0 := Got(0, {2})]);
    ThenStep(o, r, ONE_SNAP, Get(0, {2}), s1);
    assert {1} + {2} == {1, 2};
    var s2 := UNLOADED.(entry := ONE_SNAP.entry);
    assert s1.docs[0 := {1, 2}] == s2.docs;
    ThenStep(o, r, s1, Apply(0), s2);
  }

  lemma {:induction false} Unloaded(o: Options)
    requires o.retention >= 1
    ensures Reaches(o, UNLOAD_UNDER_CALLS, UNLOADED)
  {
    Applying(o, UNLOAD_UNDER_CALLS);
    var s2 := UNLOADED.(entry := ONE_SNAP.entry);
    var s3 := s2.(entry := Some(s2.entry.value.(state := Archived)));
    ThenStep(o, UNLOAD_UNDER_CALLS, s2, Archive, s3);
    ThenStep(o, UNLOAD_UNDER_CALLS, s3, Unload, UNLOADED);
  }

  const LATE_LOGGED := UNLOADED.(calls := map[], acked := {1, 2}, disk := Disk(true, [Update({2}, 0)], [FIRST_SNAP]))

  lemma {:induction false} LateLogged(o: Options)
    requires o.retention >= 1
    ensures Reaches(o, UNLOAD_UNDER_CALLS, LATE_LOGGED)
  {
    Unloaded(o);
    var s1 := UNLOADED.(calls := map[0 := Marked({2}, 0)]);
    ThenStep(o, UNLOAD_UNDER_CALLS, UNLOADED, Mark(0), s1);
    assert {1} + {2} == {1, 2};
    assert s1.disk.log + [Update({2}, 0)] == LATE_LOGGED.disk.log;
    ThenStep(o, UNLOAD_UNDER_CALLS, s1, Append(0), LATE_LOGGED);
  }

  /** An update applied before an unload and marked after it is logged under version 0, which
      recovery never replays: it is acknowledged and lost. */
  lemma {:induction false} UnloadUnderCallLoses(o: Options)
    requires o.retention >= 1
    ensures Loses(o, UNLOAD_UNDER_CALLS)
  {
    LateLogged(o);
    RecoverFirst();
    assert 2 in LATE_LOGGED.acked && 2 !in {1};
  }

  const UNLOAD_UNDER_SAVERS := Rules(true, false, true, true, true)

  /** A second update was applied and marked, and could not be logged. */
  const UNLOGGED_EDIT := ONE_EDIT.(entry := Some(Entry(0, Dirty, 2, 2, true, 2, NO_SNAPSHOTS)),
                                   docs := map[0 := {1, 2}], applied := {1, 2})

  const STALE := PlannedBy(UNLOGGED_EDIT.entry.value)

  /** Reloaded, one version behind, while a snapshot call has planned and not yet started. */
  const STALE_PLAN := UNLOGGED_EDIT.(entry := Some(Entry(1, Active, 1, 0, false, 0, NO_SNAPSHOTS)),
                                     docs := map[0 := {1, 2}, 1 := {1}], next := 2, savers := map[0 := STALE])

  lemma {:induction false} UnloggedEdit(o: Options, r: Rules)
    ensures Reaches(o, r, UNLOGGED_EDIT)
  {
    OneEdit(o, r);
    UnloggedRuns(r, o, ONE_EDIT, {2});
    Then(o, r, ONE_EDIT, Unlogged({2}));
    assert {1} + {2} == {1, 2};
    assert ONE_EDIT.docs[0 := {1, 2}] == UNLOGGED_EDIT.docs;
  }

  lemma {:induction false} RecoverLog()
    ensures Since([Update({1}, 1)], 0) == [Update({1}, 1)] && Content([Update({1}, 1)]) == {1}
    ensures Recover([], [Update({1}, 1)]) == Rebuilt({1}, 1)
  {
    assert [Update({1}, 1)][..0] == [];
    assert {} + {1} == {1};
  }

  lemma {:induction false} StalePlan(o: Options)
    ensures Reaches(o, UNLOAD_UNDER_SAVERS, STALE_PLAN)
  {
    UnloggedEdit(o, UNLOAD_UNDER_SAVERS);
    var s1 := UNLOGGED_EDIT.(savers := map[0 := STALE]);
    ThenStep(o, UNLOAD_UNDER_SAVERS, UNLOGGED_EDIT, PlanSnapshot(0), s1);
    var s2 := s1.(entry := Some(s1.entry.value.(state := Archived)));
    ThenStep(o, UNLOAD_UNDER_SAVERS, s1, Archive, s2);
    var s3 := s2.(entry := None);
    ThenStep(o, UNLOAD_UNDER_SAVERS, s2, Unload, s3);
    RecoverLog();
    assert UNLOGGED_EDIT.docs[1 := {1}] == STALE_PLAN.docs;
    ThenOpen(o, UNLOAD_UNDER_SAVERS, s3, 0);
  }

  /** What is left of the released document makes no difference: its snapshot, at version 2,
      takes the update that the reloaded one logged as version 2 off the log. */
  lemma {:induction false} StaleSaveLoses(o: Options, left: Ops)
    requires o.retention >= 1 && 3 !in left
    ensures var st := STALE_PLAN.(docs := map[0 := left, 1 := {1}]);
            && AllowedRun(UNLOAD_UNDER_SAVERS, o, st, Edit({3}) + FinishSave(0, "a"))
            && !Safe(Run(o, st, Edit({3}) + FinishSave(0, "a")))
  {
    var st := STALE_PLAN.(docs := map[0 := left, 1 := {1}]);
    RunConcat(UNLOAD_UNDER_SAVERS, o, st, Edit({3}), FinishSave(0, "a"));
    EditRuns(UNLOAD_UNDER_SAVERS, o, st, {3});
    var ed := Edited(st, {3});
    FinishRuns(UNLOAD_UNDER_SAVERS, o, ed, 0, "a");
    var snap := BuiltSnap(o, ed, STALE, "a");
    assert 3 !in snap.data;
    assert ed.disk.log == [Update({1}, 1)] + [Update({3}, 2)];
    SinceAppend([Update({1}, 1)], Update({3}, 2), 2);
    assert Since([Update({1}, 1)], 2) == [];
    LostUnlessLogged(Stored(o, ed, 0, snap), 3);
  }

  /** A snapshot planned before an unload and taken after it, of the document it still holds,
      claims a version that the reloaded document has given to another update, which its trim
      removes. */
  lemma {:induction false} UnloadUnderSaverLoses(o: Options)
    requires o.retention >= 1
    ensures Loses(o, UNLOAD_UNDER_SAVERS)
  {
    StalePlan(o);
    StaleSaveLoses(o, {1, 2});
    Then(o, UNLOAD_UNDER_SAVERS, STALE_PLAN, Edit({3}) + FinishSave(0, "a"));
  }

  const UNLOAD_UNDER_OPENS := Rules(true, true, false, true, true)

  /** Crashed after one update, and read by an open call that has yet to register. */
  const PAUSED := ONE_EDIT.(entry := None, docs := map[], opens := map[1 := Found({1}, 1)])

  lemma {:induction false} Paused(o: Options, r: Rules)
    ensures Reaches(o, r, PAUSED)
  {
    OneEdit(o, r);
    var s0 := PAUSED.(opens := map[]);
    ThenStep(o, r, ONE_EDIT, Crash, s0);
    BeginRuns(r, o, s0, 1);
    Then(o, r, s0, OpenFirst(1));
    RecoverLog();
    TailRead(o, s0, 1);
    ThenStep(o, r, Begun(s0, 1), Open(1, ReadTail), PAUSED);
  }

  /** Another open call went through. */
  const REOPENED := PAUSED.(entry := Some(Entry(1, Active, 1, 0, false, 0, NO_SNAPSHOTS)),
                            docs := map[1 := {1}], next := 2)

  lemma {:induction false} Reopened(o: Options, r: Rules)
    ensures Reaches(o, r, REOPENED)
  {
    Paused(o, r);
    ThenOpen(o, r, PAUSED, 0);
    RecoverLog();
  }

  lemma {:induction false} Resaved(o: Options, r: Rules) returns (st: State)
    requires o.retention >= 1
    ensures Reaches(o, r, st) && st.entry.Some? && st.entry.value.state == Persisted && st.opens == PAUSED.opens
    ensures st.calls == map[] && st.savers == map[] && st.disk.log == []
    ensures |st.disk.snaps| == 1 && st.disk.snaps[0].version == 2 && 3 !in st.disk.snaps[0].data
  {
    Reopened(o, r);
    ThenEdit(o, r, REOPENED, {2});
    var ed := Edited(REOPENED, {2});
    ThenSave(o, r, ed, 0, "a");
    var snap := BuiltSnap(o, ed, PlannedBy(ed.entry.value), "a");
    assert ed.disk.log == [Update({1}, 1)] + [Update({2}, 2)];
    SinceAppend([Update({1}, 1)], Update({2}, 2), 2);
    assert Since([Update({1}, 1)], 2) == [];
    st := Stored(o, ed, 0, snap);
    assert Without(ed.savers, 0) == map[];
  }

  /** The document was then edited, saved and unloaded. */
  lemma {:induction false} Overtaken(o: Options) returns (st: State)
    requires o.retention >= 1
    ensures Reaches(o, UNLOAD_UNDER_OPENS, st) && st.entry.None? && st.opens == PAUSED.opens
    ensures st.calls == map[] && st.savers == map[] && st.disk.log == []
    ensures |st.disk.snaps| == 1 && st.disk.snaps[0].version == 2 && 3 !in st.disk.snaps[0].data
  {
    var s1 := Resaved(o, UNLOAD_UNDER_OPENS);
    var s2 := s1.(entry := Some(s1.entry.value.(state := Archived)));
    ThenStep(o, UNLOAD_UNDER_OPENS, s1, Archive, s2);
    st := s2.(entry := None);
    ThenStep(o, UNLOAD_UNDER_OPENS, s2, Unload, st);
  }

  lemma {:induction false} RegisteredLate(o: Options) returns (st: State)
    requires o.retention >= 1
    ensures Reaches(o, UNLOAD_UNDER_OPENS, st) && st.calls == map[] && st.savers == map[]
    ensures st.entry.Some? && st.entry.value.instance in st.docs && st.entry.value.version == 1 && st.disk.log == []
    ensures |st.disk.snaps| == 1 && st.disk.snaps[0].version == 2 && 3 !in st.disk.snaps[0].data
  {
    var before := Overtaken(o);
    st := OpenNext(before, 1, Register);
    ThenStep(o, UNLOAD_UNDER_OPENS, before, Open(1, Register), st);
  }

  /** An update that is logged at a version a snapshot without it covers is lost. */
  lemma {:induction false} CoveredLost(st: State, x: nat, version: nat)
    requires x in st.acked && st.disk.log == [Update({x}, version)]
    requires |st.disk.snaps| == 1 && st.disk.snaps[0].version >= version && x !in st.disk.snaps[0].data
    ensures !Safe(st)
  {
    assert Since(st.disk.log, SnapVersion(st.disk.snaps)) == [];
    LostUnlessLogged(st, x);
  }

  /** A document read before an unload and registered after it gives its next update a
      version that a snapshot already covers: the update is acknowledged and never replayed. */
  lemma {:induction false} UnloadUnderOpenLoses(o: Options)
    requires o.retention >= 1
    ensures Loses(o, UNLOAD_UNDER_OPENS)
  {
    var st := RegisteredLate(o);
    ThenEdit(o, UNLOAD_UNDER_OPENS, st, {3});
    CoveredLost(Edited(st, {3}), 3, 2);
  }

  const CAPTURE_IN_HALVES := Rules(true, true, true, true, false)

  /** A full snapshot whose payload misses an edit that its state vector has. */
  const SHORT_SNAP := Snapshot("a", Full, {1, 2}, {1}, 0, 1)

  const SHORT := State(Disk(true, [Update({2}, 2)], [SHORT_SNAP]),
                       Some(Entry(0, Persisted, 2, 0, false, 0, SnapshotMeta("a", Full, 1, 1))),
                       map[0 := {1, 2}], 1, map[], map[], map[], {1, 2}, {1, 2}, 2)

  /** The saver of the first snapshot, its payload taken. */
  const HALFWAY := ONE_EDIT.(entry := Some(ONE_EDIT.entry.value.(state := SnapshotPending)),
                             savers := map[0 := PlannedBy(ONE_EDIT.entry.value).(phase := Captured, payload := {1})])

  lemma {:induction false} Halfway(o: Options)
    ensures Reaches(o, CAPTURE_IN_HALVES, HALFWAY)
  {
    OneEdit(o, CAPTURE_IN_HALVES);
    var v := PlannedBy(ONE_EDIT.entry.value);
    var s1 := ONE_EDIT.(savers := map[0 := v]);
    ThenStep(o, CAPTURE_IN_HALVES, ONE_EDIT, PlanSnapshot(0), s1);
    var s2 := s1.(entry := HALFWAY.entry, savers := map[0 := v.(phase := Pending)]);
    ThenStep(o, CAPTURE_IN_HALVES, s1, Pend(0), s2);
    var s3 := s2.(savers := map[0 := v.(phase := Resolved)]);
    ThenStep(o, CAPTURE_IN_HALVES, s2, Resolve(0), s3);
    assert {1} - {} == {1};
    ThenStep(o, CAPTURE_IN_HALVES, s3, TakePayload(0), HALFWAY);
  }

  const BUILT_SHORT := State(Disk(true, [Update({1}, 1), Update({2}, 2)], []),
                             Some(Entry(0, SnapshotPending, 2, 2, true, 2, NO_SNAPSHOTS)),
                             map[0 := {1, 2}], 1, map[],
                             map[0 := HALFWAY.savers[0].(phase := Built, snap := SHORT_SNAP)], map[],
                             {1, 2}, {1, 2}, 2)

  lemma {:induction false} BuiltShort(o: Options)
    ensures Reaches(o, CAPTURE_IN_HALVES, BUILT_SHORT)
  {
    Halfway(o);
    ThenEdit(o, CAPTURE_IN_HALVES, HALFWAY, {2});
    var ed := Edited(HALFWAY, {2});
    assert {1} + {2} == {1, 2};
    assert ed.docs == map[0 := {1, 2}];
    ThenStep(o, CAPTURE_IN_HALVES, ed, TakeVector(0, "a"), BUILT_SHORT);
  }

  lemma {:induction false} ShortSnapshot(o: Options)
    requires o.retention >= 1
    ensures Reaches(o, CAPTURE_IN_HALVES, SHORT)
  {
    BuiltShort(o);
    ThenStore(o, CAPTURE_IN_HALVES, BUILT_SHORT, 0);
    ShortLog();
    assert Stored(o, BUILT_SHORT, 0, SHORT_SNAP) == SHORT;
  }

  lemma {:induction false} ShortLog()
    ensures Since([Update({1}, 1), Update({2}, 2)], 1) == [Update({2}, 2)]
  {
    SinceAppend([Update({1}, 1)], Update({2}, 2), 1);
    assert Since([Update({1}, 1)], 1) == [];
    assert [Update({1}, 1)] + [Update({2}, 2)] == [Update({1}, 1), Update({2}, 2)];
  }

  lemma {:induction false} ThenStore(o: Options, r: Rules, st: State, s: nat)
    requires Reaches(o, r, st) && st.entry.Some? && InPhase(st, s, Built) && o.retention >= 0
    requires st.entry.value.state == SnapshotPending && st.savers[s].snap.version == st.savers[s].version
    ensures Reaches(o, r, Stored(o, st, s, st.savers[s].snap))
  {
    StoreRuns(r, o, st, s);
    Then(o, r, st, Store(s) + [Persist(s)]);
  }

  /** An edit between a snapshot's payload and its state vector is in neither that
      snapshot nor the next increment, whose trim then removes it from the log. */
  lemma {:induction false} SplitCaptureLoses(o: Options)
    requires o.retention >= 1 && o.threshold >= 2
    ensures Loses(o, CAPTURE_IN_HALVES)
  {
    ShortSnapshot(o);
    ThenEdit(o, CAPTURE_IN_HALVES, SHORT, {3});
    var ed := Edited(SHORT, {3});
    ThenSave(o, CAPTURE_IN_HALVES, ed, 0, "b");
    var snap := BuiltSnap(o, ed, PlannedBy(ed.entry.value), "b");
    assert 2 !in snap.data;
    var st := Stored(o, ed, 0, snap);
    SinceAppend([Update({2}, 2)], Update({3}, 3), 3);
    assert Since([Update({2}, 2)], 3) == [];
    PruneOne(SHORT.disk.snaps, snap, o.retention);
    assert forall x :: x in st.disk.snaps ==> x == SHORT_SNAP || x == snap;
    LostUnlessLogged(st, 2);
  }

  const TWO_SAVERS := Rules(true, true, true, false, true)

  /** A second saver has planned at version 1; the first one then saved version 2. */
  lemma {:induction false} SecondPlanned(o: Options) returns (st: State)
    requires o.retention >= 1
    ensures Reaches(o, TWO_SAVERS, st) && st.entry.Some? && st.calls == map[]
    ensures st.savers == map[1 := PlannedBy(ONE_EDIT.entry.value)]
    ensures st.entry.value == Entry(0, Persisted, 2, 0, false, 0, SnapshotMeta("a", Full, 2, 1))
    ensures 0 in st.docs && st.disk.log == [] && |st.disk.snaps| == 1 && st.logged == 2
  {
    OneEdit(o, TWO_SAVERS);
    var s1 := ONE_EDIT.(savers := map[1 := PlannedBy(ONE_EDIT.entry.value)]);
    ThenStep(o, TWO_SAVERS, ONE_EDIT, PlanSnapshot(1), s1);
    ThenEdit(o, TWO_SAVERS, s1, {2});
    var ed := Edited(s1, {2});
    ThenSave(o, TWO_SAVERS, ed, 0, "a");
    var snap := BuiltSnap(o, ed, PlannedBy(ed.entry.value), "a");
    assert ed.disk.log == [Update({1}, 1)] + [Update({2}, 2)];
    SinceAppend([Update({1}, 1)], Update({2}, 2), 2);
    assert Since([Update({1}, 1)], 2) == [];
    st := Stored(o, ed, 0, snap);
    assert Without(ed.savers, 0) == map[1 := PlannedBy(ONE_EDIT.entry.value)];
  }

  /** The stale saver, finishing second, takes the recovered version below versions
      that were logged and trimmed. */
  lemma {:induction false} SecondSaverRegresses(o: Options)
    requires o.retention >= 1
    ensures Loses(o, TWO_SAVERS)
  {
    var s3 := ThirdEdit(o);
    FinishRuns(TWO_SAVERS, o, s3, 1, "b");
    Then(o, TWO_SAVERS, s3, FinishSave(1, "b"));
    var end := Run(o, s3, FinishSave(1, "b"));
    PruneOne(s3.disk.snaps, BuiltSnap(o, s3, s3.savers[1], "b"), o.retention);
    assert SnapVersion(end.disk.snaps) == 1 && end.disk.log == [] && end.logged == 2;
  }

  /** A third edit has been applied and marked but not logged. */
  lemma {:induction false} ThirdEdit(o: Options) returns (s3: State)
    requires o.retention >= 1
    ensures Reaches(o, TWO_SAVERS, s3) && s3.entry.Some? && s3.entry.value.state == Dirty
    ensures s3.savers == map[1 := PlannedBy(ONE_EDIT.entry.value)] && 0 in s3.docs && s3.entry.value.instance == 0
    ensures s3.disk.log == [] && |s3.disk.snaps| == 1 && s3.logged == 2
  {
    var st := SecondPlanned(o);
    var s1 := Next(o, st, Get(0, {3}));
    ThenStep(o, TWO_SAVERS, st, Get(0, {3}), s1);
    var s2 := Next(o, s1, Apply(0));
    ThenStep(o, TWO_SAVERS, s1, Apply(0), s2);
    s3 := Next(o, s2, Mark(0));
    ThenStep(o, TWO_SAVERS, s2, Mark(0), s3);
  }

  // ---- All of it ----

  lemma {:induction false} Weaken(strict: Rules, r: Rules, o: Options, st: State, steps: seq<Step>)
    requires r.callsFirst ==> strict.callsFirst
    requires r.saversFirst ==> strict.saversFirst
    requires r.opensFirst ==> strict.opensFirst
    requires r.singleSaver ==> strict.singleSaver
    requires r.atomicCapture ==> strict.atomicCapture
    requires AllowedRun(strict, o, st, steps)
    ensures AllowedRun(r, o, st, steps)
    decreases |steps|
  {
    if steps != [] {
      Weaken(strict, r, o, Next(o, st, steps[0]), steps[1..]);
    }
  }

  /** The strictest rules under which a run still loses something. */
  lemma {:induction false} Loser(r: Rules, o: Options) returns (strict: Rules)
    requires o.retention >= 1 && o.threshold >= 0 && !Enough(r, o)
    ensures Loses(o, strict)
    ensures (r.callsFirst ==> strict.callsFirst) && (r.saversFirst ==> strict.saversFirst)
    ensures r.opensFirst ==> strict.opensFirst
    ensures (r.singleSaver ==> strict.singleSaver) && (r.atomicCapture ==> strict.atomicCapture)
  {
    if !Wide(o) {
      NarrowWindowLoses(o);
      strict := ALL_RULES;
    } else if !r.callsFirst {
      UnloadUnderCallLoses(o);
      strict := UNLOAD_UNDER_CALLS;
    } else if !r.saversFirst {
      UnloadUnderSaverLoses(o);
      strict := UNLOAD_UNDER_SAVERS;
    } else if !r.opensFirst {
      UnloadUnderOpenLoses(o);
      strict := UNLOAD_UNDER_OPENS;
    } else if !r.singleSaver {
      SecondSaverRegresses(o);
      strict := TWO_SAVERS;
    } else {
      SplitCaptureLoses(o);
      strict := CAPTURE_IN_HALVES;
    }
  }

  /** For all options, as the snapshot manager normalises them, and all rules, every reachable
      state is safe exactly when the window is wide, documents are not unloaded under a call,
      one snapshot call runs at a time and, if there are incremental snapshots, no edit
      divides a capture. */
  lemma {:induction false} RulesExact(r: Rules, given: Options)
    ensures var o := Normalize(given);
            (forall st :: Reaches(o, r, st) ==> Safe(st)) <==>
            && o.retention >= Max(1, o.threshold)
            && r.callsFirst && r.saversFirst && r.opensFirst && r.singleSaver
            && (o.threshold >= 2 ==> r.atomicCapture)
  {
    var o := Normalize(given);
    if Enough(r, o) {
      forall st | Reaches(o, r, st)
        ensures Safe(st)
      {
        var steps :| AllowedRun(r, o, INIT, steps) && Run(o, INIT, steps) == st;
        Durable(r, o, steps);
      }
    } else {
      var strict := Loser(r, o);
      var st :| Reaches(o, strict, st) && !Safe(st);
      var steps :| AllowedRun(strict, o, INIT, steps) && Run(o, INIT, steps) == st;
      Weaken(strict, r, o, INIT, steps);
      assert Reaches(o, r, st);
    }
  }

  /** Known by its metadata alone, not loaded, and not being created. */
  predicate Hollow(st: State) {
    && st.entry.None? && st.calls == map[] && st.savers == map[] && st.disk == Disk(true, [], [])
    && forall k :: k in st.opens ==> st.opens[k] in {Looked, Known, ChainRead({}, 0, false)}
  }

  /** A crash before the first update leaves a document so. */
  lemma {:induction false} HollowReached(o: Options, r: Rules)
    ensures exists st :: Reaches(o, r, st) && Hollow(st)
  {
    Begin(o, r);
    var loaded := Opened(INIT);
    ThenOpen(o, r, INIT, 0);
    var st := Next(o, loaded, Crash);
    ThenStep(o, r, loaded, Crash, st);
    assert Hollow(st);
  }

  lemma {:induction false} StaysHollow(o: Options, st: State, step: Step)
    requires Hollow(st)
    ensures Hollow(Next(o, st, step))
  {
    assert Since([], 0) == [];
    assert Without(st.calls, if step.Reject? then step.call else 0) == map[];
  }

  /** A document whose metadata is known but which has neither a snapshot nor an
      update can never be loaded again. */
  lemma {:induction false} EmptyStaysClosed(o: Options, st: State, steps: seq<Step>)
    requires Hollow(st)
    ensures Run(o, st, steps).entry.None? && Run(o, st, steps).disk == st.disk
    decreases |steps|
  {
    if steps != [] {
      StaysHollow(o, st, steps[0]);
      EmptyStaysClosed(o, Next(o, st, steps[0]), steps[1..]);
    }
  }
}
