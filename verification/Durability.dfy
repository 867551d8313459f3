/** Durability of one document as a protocol: concurrent open, update and snapshot
    calls, archiving and crashes, each cut into the atomic steps the engine takes
    on the registry, the live document and the repository. */
module Durability {
  import opened Documents
  import opened Wrappers

  datatype Disk = Disk(known: bool, log: seq<Update>, snaps: seq<Snapshot>)

  /** The registry entry; `instance` names the live document it points to. */
  datatype Entry = Entry(instance: nat, state: DocState, version: nat, editCount: nat, dirty: bool,
                         pending: nat, meta: SnapshotMeta)

  /** An ApplyIncrementalUpdate call under way. */
  datatype Call =
    | Got(instance: nat, data: Ops)
    | Applied(data: Ops)
    | Marked(data: Ops, version: nat)

  datatype Phase = Planned | Pending | Resolved | Captured | Built | Saved | Retained | Trimmed | Recorded

  /** A SaveSnapshot call under way, with what it has learned so far. */
  datatype Saver = Saver(phase: Phase, instance: nat, version: nat, meta: SnapshotMeta,
                         plan: Plan, payload: Ops, snap: Snapshot)

  /** A GetOrCreateDocument call under way that did not find the document loaded: it looked,
      read the metadata, saved new metadata or read the chain and then the log's tail, and
      registered what it has. */
  datatype Opening =
    | Looked
    | Unknown | Fresh
    | Known | ChainRead(held: Ops, version: nat, some: bool) | Found(doc: Ops, version: nat)
    | Registered(to: DocState)

  /** `acked`, `applied` and `logged` record history: the operations of updates that
      were acknowledged, of updates that were applied, and the highest version logged. */
  datatype State = State(disk: Disk, entry: Option<Entry>, docs: map<nat, Ops>, next: nat,
                         calls: map<nat, Call>, savers: map<nat, Saver>, opens: map<nat, Opening>,
                         acked: Ops, applied: Ops, logged: nat)

  const INIT := State(Disk(false, [], []), None, map[], 0, map[], map[], map[], {}, {}, 0)

  /** What an open call does next. */
  datatype Move = Look | ReadMeta | SaveMeta | ReadChain | ReadTail | Register | Activate | Abandon

  datatype Step =
    | Open(open: nat, move: Move)
    | Get(call: nat, data: Ops) | Apply(call: nat) | Mark(call: nat) | Append(call: nat) | Reject(call: nat)
    | PlanSnapshot(saver: nat) | Pend(saver: nat) | Resolve(saver: nat) | TakePayload(saver: nat)
    | TakeVector(saver: nat, id: string) | Save(saver: nat) | GiveUp(saver: nat)
    | Prune(saver: nat, fails: bool) | Trim(saver: nat, fails: bool) | Record(saver: nat) | Persist(saver: nat)
    | Archive | Unload | Crash

  // ---- The steps.  A step that is not enabled changes nothing. ----

  function Without<T>(m: map<nat, T>, k: nat): map<nat, T> {
    m - {k}
  }

  function Load(st: State, doc: Ops, version: nat, state: DocState): State {
    st.(entry := Some(Entry(st.next, state, version, 0, false, 0, NO_SNAPSHOTS)),
        docs := st.docs[st.next := doc], next := st.next + 1)
  }

  /** MarkEdited; for a document no longer registered it yields version 0. */
  function MarkNext(st: State, c: nat): State {
    if c !in st.calls || !st.calls[c].Applied? then st
    else
      var data := st.calls[c].data;
      match st.entry
      case None => st.(calls := st.calls[c := Marked(data, 0)])
      case Some(e) =>
        st.(calls := st.calls[c := Marked(data, e.version + 1)],
            entry := Some(e.(version := e.version + 1, editCount := e.editCount + 1, dirty := true,
                             pending := e.pending + 1, state := EditedState(e.state))))
  }

  function CallNext(st: State, step: Step): State {
    match step
    case Get(c, data) =>
      if c in st.calls || st.entry.None? then st
      else st.(calls := st.calls[c := Got(st.entry.value.instance, data)])
    case Apply(c) =>
      if c !in st.calls || !st.calls[c].Got? || st.calls[c].instance !in st.docs then st
      else
        var Got(i, data) := st.calls[c];
        st.(docs := st.docs[i := st.docs[i] + data], calls := st.calls[c := Applied(data)],
            applied := st.applied + data)
    case Mark(c) => MarkNext(st, c)
    case Append(c) =>
      if c !in st.calls || !st.calls[c].Marked? then st
      else
        var Marked(data, version) := st.calls[c];
        st.(disk := st.disk.(log := st.disk.log + [Update(data, version)]), calls := Without(st.calls, c),
            acked := st.acked + data, logged := Max(st.logged, version))
    case Reject(c) => st.(calls := Without(st.calls, c))
    case _ => st
  }

  predicate InPhase(st: State, s: nat, phase: Phase) {
    s in st.savers && st.savers[s].phase == phase
  }

  function Transition(entry: Option<Entry>, to: DocState): Option<Entry> {
    if entry.Some? && CanTransition(entry.value.state, to) then Some(entry.value.(state := to)) else entry
  }

  /** RecordSnapshot: it also clears the dirty flag. */
  function RecordIn(e: Entry, snap: Snapshot): Entry {
    e.(meta := SnapshotMeta(snap.id, snap.kind, snap.version, e.meta.count + 1),
       editCount := 0, dirty := false, pending := 0)
  }

  /** What an open call reads and stores before it registers the document. */
  function ReadNext(st: State, k: nat, move: Move): State {
    match move
    case Look =>
      if k in st.opens || st.entry.Some? then st else st.(opens := st.opens[k := Looked])
    case ReadMeta =>
      if k !in st.opens || !st.opens[k].Looked? then st
      else st.(opens := st.opens[k := if st.disk.known then Known else Unknown])
    case SaveMeta =>
      if k !in st.opens || !st.opens[k].Unknown? then st
      else st.(disk := st.disk.(known := true), opens := st.opens[k := Fresh])
    case ReadChain =>
      if k !in st.opens || !st.opens[k].Known? then st
      else
        var snaps := st.disk.snaps;
        st.(opens := st.opens[k := ChainRead(Held(snaps), SnapVersion(snaps), snaps != [])])
    case ReadTail =>
      if k !in st.opens || !st.opens[k].ChainRead? then st
      else
        var ChainRead(held, version, some) := st.opens[k];
        (match Replayed(held, version, some, st.disk.log)
         case NotFound => st.(opens := Without(st.opens, k))
         case Rebuilt(doc, v) => st.(opens := st.opens[k := Found(doc, v)]))
    case _ => st
  }

  /** The end of an open call; a document already registered refuses it. */
  function OpenNext(st: State, k: nat, move: Move): State {
    match move
    case Register =>
      if k !in st.opens || (!st.opens[k].Fresh? && !st.opens[k].Found?) then st
      else if st.entry.Some? then st.(opens := Without(st.opens, k))
      else if st.opens[k].Fresh? then Load(st.(opens := st.opens[k := Registered(Initialized)]), {}, 0, Created)
      else
        var Found(doc, version) := st.opens[k];
        Load(st.(opens := st.opens[k := Registered(Active)]), doc, version, Recovered)
    case Activate =>
      if k !in st.opens || !st.opens[k].Registered? then st
      else st.(entry := Transition(st.entry, st.opens[k].to), opens := Without(st.opens, k))
    case Abandon =>
      if k !in st.opens || st.opens[k].Registered? then st else st.(opens := Without(st.opens, k))
    case _ => ReadNext(st, k, move)
  }

  /** The part of SaveSnapshot before the snapshot is stored. */
  function BuildNext(o: Options, st: State, step: Step): State {
    match step
    case PlanSnapshot(s) =>
      if s in st.savers || st.entry.None? then st
      else
        var e := st.entry.value;
        st.(savers := st.savers[s := Saver(Planned, e.instance, e.version, e.meta, FULL_PLAN, {},
                                           Snapshot("", Full, {}, {}, 0, 0))])
    case Pend(s) =>
      if !InPhase(st, s, Planned) then st
      else if st.entry.Some? && CanTransition(st.entry.value.state, SnapshotPending) then
        st.(entry := Transition(st.entry, SnapshotPending),
            savers := st.savers[s := st.savers[s].(phase := Pending)])
      else st.(savers := Without(st.savers, s))
    case Resolve(s) =>
      if !InPhase(st, s, Pending) then st
      else
        var plan := PlanNext(o.threshold, st.savers[s].meta, st.disk.snaps);
        st.(savers := st.savers[s := st.savers[s].(phase := Resolved, plan := plan)])
    case TakePayload(s) =>
      if !InPhase(st, s, Resolved) || st.savers[s].instance !in st.docs then st
      else
        var v := st.savers[s];
        st.(savers := st.savers[s := v.(phase := Captured, payload := st.docs[v.instance] - v.plan.base)])
    case TakeVector(s, id) =>
      if !InPhase(st, s, Captured) || st.savers[s].instance !in st.docs then st
      else
        var v := st.savers[s];
        var snap := Snapshot(id, v.plan.kind, st.docs[v.instance], v.payload, v.plan.baseVersion, v.version);
        st.(savers := st.savers[s := v.(phase := Built, snap := snap)])
    case GiveUp(s) =>
      if !InPhase(st, s, Captured) && !InPhase(st, s, Built) then st
      else st.(savers := Without(st.savers, s), entry := Transition(st.entry, Dirty))
    case _ => st
  }

  /** The part of SaveSnapshot that changes storage, and its bookkeeping. */
  function StoreNext(o: Options, st: State, step: Step): State {
    match step
    case Save(s) =>
      if !InPhase(st, s, Built) then st
      else
        var v := st.savers[s];
        st.(disk := st.disk.(snaps := st.disk.snaps + [v.snap]), savers := st.savers[s := v.(phase := Saved)])
    case Prune(s, fails) =>
      if !InPhase(st, s, Saved) || o.retention < 0 then st
      else
        var snaps := if fails then st.disk.snaps else Pruned(st.disk.snaps, o.retention);
        st.(disk := st.disk.(snaps := snaps), savers := st.savers[s := st.savers[s].(phase := Retained)])
    case Trim(s, fails) =>
      if !InPhase(st, s, Retained) then st
      else
        var log := if fails then st.disk.log else Since(st.disk.log, st.savers[s].version);
        st.(disk := st.disk.(log := log), savers := st.savers[s := st.savers[s].(phase := Trimmed)])
    case Record(s) =>
      if !InPhase(st, s, Trimmed) then st
      else
        var v := st.savers[s];
        st.(entry := if st.entry.Some? then Some(RecordIn(st.entry.value, v.snap)) else None,
            savers := st.savers[s := v.(phase := Recorded)])
    case Persist(s) =>
      if !InPhase(st, s, Recorded) then st
      else st.(entry := Transition(st.entry, Persisted), savers := Without(st.savers, s))
    case _ => st
  }

  predicate CallStep(step: Step) {
    step.Get? || step.Apply? || step.Mark? || step.Append? || step.Reject?
  }

  function Next(o: Options, st: State, step: Step): State {
    match step
    case Open(k, move) => OpenNext(st, k, move)
    case Get(_, _) | Apply(_) | Mark(_) | Append(_) | Reject(_) => CallNext(st, step)
    case PlanSnapshot(_) | Pend(_) | Resolve(_) | TakePayload(_) | TakeVector(_, _) | GiveUp(_) =>
      BuildNext(o, st, step)
    case Save(_) | Prune(_, _) | Trim(_, _) | Record(_) | Persist(_) => StoreNext(o, st, step)
    case Archive => st.(entry := Transition(st.entry, Archived))
    case Unload =>
      // A call or saver that still holds the old document may go on using it.
      if st.entry.Some? && st.entry.value.state == Archived then st.(entry := None) else st
    case Crash => st.(entry := None, docs := map[], calls := map[], savers := map[], opens := map[])
  }

  function Run(o: Options, st: State, steps: seq<Step>): State
    decreases |steps|
  {
    if steps == [] then st else Run(o, Next(o, st, steps[0]), steps[1..])
  }

  // ---- What callers must rule out ----

  /** Which interleavings are excluded: unloading a document under an update call, under
      a snapshot call, or under an open call; two snapshot calls at once; an edit between the
      two halves of a capture. */
  datatype Rules = Rules(callsFirst: bool, saversFirst: bool, opensFirst: bool, singleSaver: bool,
                         atomicCapture: bool)

  const ALL_RULES := Rules(true, true, true, true, true)

  predicate Allowed(r: Rules, st: State, step: Step) {
    match step
    case Unload =>
      && (r.callsFirst ==> st.calls == map[])
      && (r.saversFirst ==> st.savers == map[])
      && (r.opensFirst ==> st.opens == map[])
    case PlanSnapshot(_) => r.singleSaver ==> st.savers == map[]
    case Apply(_) => r.atomicCapture ==> forall s :: s in st.savers ==> st.savers[s].phase != Captured
    case _ => true
  }

  predicate AllowedRun(r: Rules, o: Options, st: State, steps: seq<Step>)
    decreases |steps|
  {
    steps == [] || (Allowed(r, st, steps[0]) && AllowedRun(r, o, Next(o, st, steps[0]), steps[1..]))
  }

  // ---- Safety ----

  /** Whatever storage holds now rebuilds every acknowledged operation and nothing
      that was never applied, at a version no logged update exceeds. */
  predicate Safe(st: State) {
    match Recover(st.disk.snaps, st.disk.log)
    case NotFound => st.acked == {} && st.logged == 0
    case Rebuilt(doc, version) => st.acked <= doc <= st.applied && st.logged <= version
  }

  /** What durability needs; without incremental snapshots a state vector is never read back,
      so an edit may fall between the halves of a capture. */
  predicate Enough(r: Rules, o: Options) {
    && Wide(o)
    && r.callsFirst && r.saversFirst && r.opensFirst && r.singleSaver
    && (o.threshold >= 2 ==> r.atomicCapture)
  }

  predicate Wide(o: Options) {
    o.threshold >= 0 && o.retention >= Max(1, o.threshold)
  }

  // ---- The invariant ----

  /** How long a chain may be once `count` snapshots were recorded since loading. */
  function Bound(threshold: int, count: nat): int {
    if threshold <= 0 || count == 0 then Max(1, threshold) else (count - 1) % threshold + 1
  }

  /** Storage alone: the chain is whole and short, and with the log's tail it holds
      what was acknowledged. */
  ghost predicate DiskInv(r: Rules, o: Options, disk: Disk, acked: Ops, applied: Ops, logged: nat) {
    var snaps, log := disk.snaps, disk.log;
    && (snaps != [] ==> HasFull(snaps) && (r.atomicCapture ==> Held(snaps) == Latest(snaps)))
    && ChainLength(snaps) <= Max(1, o.threshold)
    && Held(snaps) <= applied
    && (forall u :: u in log ==> u.data <= applied && (u.version > SnapVersion(snaps) || u.data <= Held(snaps)))
    && (forall x :: x in acked ==> x in Held(snaps) || x in Content(Since(log, SnapVersion(snaps))))
    && (logged <= SnapVersion(snaps) || exists u :: u in log && u.version == logged)
  }

  /** The loaded document holds everything storage does. */
  ghost predicate DocInv(disk: Disk, e: Entry, doc: Ops, applied: Ops, logged: nat) {
    && Held(disk.snaps) <= doc <= applied
    && (forall u :: u in disk.log ==> u.data <= doc && u.version <= e.version)
    && SnapVersion(disk.snaps) <= e.version && logged <= e.version
  }

  ghost predicate CallInv(disk: Disk, e: Entry, doc: Ops, call: Call) {
    match call
    case Got(i, data) => i == e.instance
    case Applied(data) => data <= doc
    case Marked(data, v) =>
      && data <= doc && v <= e.version
      && (v > SnapVersion(disk.snaps) || data <= Held(disk.snaps))
  }

  /** Everything with a version the snapshot claims is in what it will hold. */
  ghost predicate Covers(disk: Disk, calls: map<nat, Call>, held: Ops, version: nat) {
    && Held(disk.snaps) <= held
    && (forall u :: u in disk.log && u.version <= version ==> u.data <= held)
    && (forall c :: c in calls && calls[c].Marked? && calls[c].version <= version ==> calls[c].data <= held)
  }

  ghost predicate CapturedInv(r: Rules, disk: Disk, calls: map<nat, Call>, doc: Ops, v: Saver) {
    && v.plan.base + v.payload <= doc
    && Covers(disk, calls, v.plan.base + v.payload, v.version)
    && (r.atomicCapture ==> v.plan.base + v.payload == doc)
  }

  ghost predicate BuiltInv(r: Rules, disk: Disk, calls: map<nat, Call>, doc: Ops, v: Saver) {
    && v.snap.kind == v.plan.kind && v.snap.version == v.version
    && v.plan.base + v.snap.data <= doc
    && Covers(disk, calls, v.plan.base + v.snap.data, v.version)
    && (r.atomicCapture ==> v.plan.base + v.snap.data == v.snap.stateVector)
  }

  ghost predicate StoredInv(o: Options, disk: Disk, v: Saver) {
    && disk.snaps != [] && disk.snaps[|disk.snaps| - 1] == v.snap && v.snap.version == v.version
    && ChainLength(disk.snaps) <= Bound(o.threshold, v.meta.count + 1)
  }

  predicate Early(phase: Phase) {
    phase.Planned? || phase.Pending? || phase.Resolved? || phase.Captured? || phase.Built?
  }

  predicate Stored(phase: Phase) {
    phase.Saved? || phase.Retained? || phase.Trimmed?
  }

  ghost predicate SaverInv(r: Rules, o: Options, disk: Disk, e: Entry, doc: Ops, calls: map<nat, Call>, v: Saver) {
    && v.instance == e.instance && v.version <= e.version
    && (v.phase != Recorded ==> v.meta == e.meta)
    && (Early(v.phase) ==>
          && SnapVersion(disk.snaps) <= v.version
          && ChainLength(disk.snaps) <= Bound(o.threshold, v.meta.count))
    && (v.phase.Resolved? || v.phase.Captured? || v.phase.Built? ==>
        v.plan == PlanNext(o.threshold, v.meta, disk.snaps))
    && (v.phase == Captured ==> CapturedInv(r, disk, calls, doc, v))
    && (v.phase == Built ==> BuiltInv(r, disk, calls, doc, v))
    && (Stored(v.phase) ==> StoredInv(o, disk, v))
    && (v.phase == Recorded ==> ChainLength(disk.snaps) <= Bound(o.threshold, e.meta.count))
  }

  ghost predicate LiveInv(r: Rules, o: Options, st: State, e: Entry) {
    && e.instance in st.docs
    && var doc := st.docs[e.instance];
    && DocInv(st.disk, e, doc, st.applied, st.logged)
    && (forall c :: c in st.calls ==> CallInv(st.disk, e, doc, st.calls[c]))
    && (forall s :: s in st.savers ==> SaverInv(r, o, st.disk, e, doc, st.calls, st.savers[s]))
    && (forall s, t :: s in st.savers && t in st.savers ==> s == t)
    && (st.savers == map[] ==> ChainLength(st.disk.snaps) <= Bound(o.threshold, e.meta.count))
  }

  /** While the document is not loaded, what an open call has read is what storage holds. */
  ghost predicate OpenInv(disk: Disk, open: Opening) {
    match open
    case Unknown => disk.snaps == [] && disk.log == []
    case Fresh => disk == Disk(true, [], [])
    case ChainRead(held, version, some) =>
      held == Held(disk.snaps) && version == SnapVersion(disk.snaps) && (some <==> disk.snaps != [])
    case Found(doc, version) => Recover(disk.snaps, disk.log) == Rebuilt(doc, version)
    case _ => true
  }

  ghost predicate Inv(r: Rules, o: Options, st: State) {
    && DiskInv(r, o, st.disk, st.acked, st.applied, st.logged)
    && (!st.disk.known ==> st.disk.snaps == [] && st.disk.log == [])
    && match st.entry
       case None =>
         && st.calls == map[] && st.savers == map[]
         && (forall k :: k in st.opens ==> OpenInv(st.disk, st.opens[k]))
       case Some(e) => st.disk.known && LiveInv(r, o, st, e)
  }

  lemma {:induction false} InvSafe(r: Rules, o: Options, st: State)
    requires Inv(r, o, st)
    ensures Safe(st)
  {
    var snaps, log := st.disk.snaps, st.disk.log;
    var tail := Since(log, SnapVersion(snaps));
    if st.logged > SnapVersion(snaps) {
      var u :| u in log && u.version == st.logged;
      assert u in tail;
    }
    assert forall x :: x in Content(tail) ==> x in st.applied;
  }

  /** What storage rebuilds lies between what was acknowledged and the loaded document. */
  lemma {:induction false} LiveRebuilds(r: Rules, o: Options, st: State)
    requires Inv(r, o, st) && st.entry.Some? && st.logged > 0
    ensures st.entry.value.instance in st.docs && Recover(st.disk.snaps, st.disk.log).Rebuilt?
    ensures st.acked <= Recover(st.disk.snaps, st.disk.log).doc <= st.docs[st.entry.value.instance] <= st.applied
  {
    InvSafe(r, o, st);
    var tail := Since(st.disk.log, SnapVersion(st.disk.snaps));
    assert forall x :: x in Content(tail) ==> x in st.docs[st.entry.value.instance];
  }

  /** Open calls move on, and metadata may become known. */
  lemma {:induction false} InvOpens(r: Rules, o: Options, st: State, st': State)
    requires Inv(r, o, st) && st' == st.(disk := st'.disk, opens := st'.opens)
    requires st'.disk == st.disk || st'.disk == st.disk.(known := true)
    requires st.entry.None? ==> forall k :: k in st'.opens ==> OpenInv(st'.disk, st'.opens[k])
    ensures Inv(r, o, st')
  {
    if st.entry.Some? {
      assert st'.disk == st.disk;
    }
  }

  predicate Reads(move: Move) {
    move.Look? || move.ReadMeta? || move.SaveMeta? || move.ReadChain? || move.ReadTail?
  }

  lemma {:induction false} OpenReads(r: Rules, o: Options, st: State, k: nat, move: Move, x: nat)
    requires Reads(move) && Inv(r, o, st) && st.entry.None? && x in ReadNext(st, k, move).opens
    ensures OpenInv(ReadNext(st, k, move).disk, ReadNext(st, k, move).opens[x])
  {
    assert x in st.opens ==> OpenInv(st.disk, st.opens[x]);
    if x != k {
      assert ReadNext(st, k, move).opens[x] == st.opens[x];
    }
  }

  lemma {:induction false} InvRead(r: Rules, o: Options, st: State, k: nat, move: Move)
    requires Reads(move) && Inv(r, o, st)
    ensures Inv(r, o, ReadNext(st, k, move))
  {
    var st' := ReadNext(st, k, move);
    forall x | st.entry.None? && x in st'.opens
      ensures OpenInv(st'.disk, st'.opens[x])
    {
      OpenReads(r, o, st, k, move, x);
    }
    InvOpens(r, o, st, st');
  }

  /** What recovery rebuilds is fit to be loaded. */
  lemma {:induction false} RebuiltFits(r: Rules, o: Options, st: State, e: Entry, doc: Ops)
    requires Inv(r, o, st) && Recover(st.disk.snaps, st.disk.log) == Rebuilt(doc, e.version)
    ensures DocInv(st.disk, e, doc, st.applied, st.logged)
  {
    InvSafe(r, o, st);
    var snaps, log := st.disk.snaps, st.disk.log;
    var tail := Since(log, SnapVersion(snaps));
    forall u | u in log
      ensures u.data <= doc && u.version <= e.version
    {
      assert u in tail || (u.version <= SnapVersion(snaps) && u.data <= Held(snaps));
    }
  }

  lemma {:induction false} InvRegister(r: Rules, o: Options, st: State, k: nat)
    requires Wide(o) && Inv(r, o, st)
    ensures Inv(r, o, OpenNext(st, k, Register))
  {
    if st.entry.None? && k in st.opens {
      assert OpenInv(st.disk, st.opens[k]);
      if st.opens[k].Fresh? {
        InvSafe(r, o, st);
      } else if st.opens[k].Found? {
        RebuiltFits(r, o, st, OpenNext(st, k, Register).entry.value, st.opens[k].doc);
      }
    }
  }

  lemma {:induction false} InvEndOpen(r: Rules, o: Options, st: State, k: nat, move: Move)
    requires (move.Activate? || move.Abandon?) && Inv(r, o, st)
    ensures Inv(r, o, OpenNext(st, k, move))
  {
  }

  lemma {:induction false} InvOpen(r: Rules, o: Options, st: State, k: nat, move: Move)
    requires Wide(o) && Inv(r, o, st)
    ensures Inv(r, o, OpenNext(st, k, move))
  {
    match move
    case Register => InvRegister(r, o, st, k);
    case Activate | Abandon => InvEndOpen(r, o, st, k, move);
    case _ => InvRead(r, o, st, k, move);
  }

  /** Calls come and go, and none is newly marked. */
  lemma {:induction false} LiveCalls(r: Rules, o: Options, st: State, calls: map<nat, Call>)
    requires st.entry.Some? && LiveInv(r, o, st, st.entry.value)
    requires forall c :: c in calls ==>
               || (c in st.calls && calls[c] == st.calls[c])
               || (calls[c].Got? && calls[c].instance == st.entry.value.instance)
    ensures LiveInv(r, o, st.(calls := calls), st.entry.value)
  {
    var e := st.entry.value;
    forall s | s in st.savers
      ensures SaverInv(r, o, st.disk, e, st.docs[e.instance], calls, st.savers[s])
    {
      assert SaverInv(r, o, st.disk, e, st.docs[e.instance], st.calls, st.savers[s]);
    }
  }

  lemma {:induction false} InvGet(r: Rules, o: Options, st: State, c: nat, data: Ops)
    requires Inv(r, o, st)
    ensures Inv(r, o, Next(o, st, Get(c, data)))
  {
    if c !in st.calls && st.entry.Some? {
      LiveCalls(r, o, st, st.calls[c := Got(st.entry.value.instance, data)]);
    }
  }

  lemma {:induction false} InvApply(r: Rules, o: Options, st: State, c: nat)
    requires Inv(r, o, st) && Allowed(r, st, Apply(c))
    ensures Inv(r, o, Next(o, st, Apply(c)))
  {
    if c in st.calls && st.calls[c].Got? {
      var e, st' := st.entry.value, Next(o, st, Apply(c));
      assert CallInv(st.disk, e, st.docs[e.instance], st.calls[c]);
      forall s | s in st.savers
        ensures SaverInv(r, o, st.disk, e, st'.docs[e.instance], st'.calls, st.savers[s])
      {
        assert SaverInv(r, o, st.disk, e, st.docs[e.instance], st.calls, st.savers[s]);
      }
    }
  }

  lemma {:induction false} InvMark(r: Rules, o: Options, st: State, c: nat)
    requires Inv(r, o, st)
    ensures Inv(r, o, Next(o, st, Mark(c)))
  {
    if c in st.calls && st.calls[c].Applied? {
      var e, st' := st.entry.value, Next(o, st, Mark(c));
      var e', doc := st'.entry.value, st.docs[e.instance];
      assert CallInv(st.disk, e, doc, st.calls[c]);
      forall s | s in st.savers
        ensures SaverInv(r, o, st.disk, e', doc, st'.calls, st.savers[s])
      {
        assert SaverInv(r, o, st.disk, e, doc, st.calls, st.savers[s]);
      }
      assert LiveInv(r, o, st', e');
    }
  }

  lemma {:induction false} LiveAppend(r: Rules, o: Options, st: State, c: nat, disk: Disk, logged: nat)
    requires st.entry.Some? && LiveInv(r, o, st, st.entry.value) && c in st.calls && st.calls[c].Marked?
    requires disk.snaps == st.disk.snaps
    requires forall u :: u in disk.log ==> u in st.disk.log || u == Update(st.calls[c].data, st.calls[c].version)
    requires logged == Max(st.logged, st.calls[c].version)
    ensures LiveInv(r, o, st.(disk := disk, calls := Without(st.calls, c), logged := logged), st.entry.value)
  {
    var e := st.entry.value;
    forall s | s in st.savers
      ensures SaverInv(r, o, disk, e, st.docs[e.instance], Without(st.calls, c), st.savers[s])
    {
      assert SaverInv(r, o, st.disk, e, st.docs[e.instance], st.calls, st.savers[s]);
    }
  }

  lemma {:induction false} DiskAppend(r: Rules, o: Options, disk: Disk, acked: Ops, applied: Ops, logged: nat,
                                      u: Update)
    requires DiskInv(r, o, disk, acked, applied, logged)
    requires u.data <= applied && (u.version > SnapVersion(disk.snaps) || u.data <= Held(disk.snaps))
    ensures DiskInv(r, o, disk.(log := disk.log + [u]), acked + u.data, applied, Max(logged, u.version))
  {
    var log' := disk.log + [u];
    AckedAppend(disk.snaps, disk.log, acked, u);
    assert forall w :: w in log' <==> w in disk.log || w == u;
    assert u in log';
  }

  lemma {:induction false} AckedAppend(snaps: seq<Snapshot>, log: seq<Update>, acked: Ops, u: Update)
    requires u.version > SnapVersion(snaps) || u.data <= Held(snaps)
    requires forall x :: x in acked ==> x in Held(snaps) || x in Content(Since(log, SnapVersion(snaps)))
    ensures forall x :: x in acked + u.data ==> x in Held(snaps) || x in Content(Since(log + [u], SnapVersion(snaps)))
  {
    ContentAppend(log, u, SnapVersion(snaps));
  }

  lemma {:induction false} ContentAppend(log: seq<Update>, u: Update, since: int)
    ensures Content(Since(log, since)) <= Content(Since(log + [u], since))
    ensures u.version > since ==> u.data <= Content(Since(log + [u], since))
  {
    SinceAppend(log, u, since);
    var rest := Since(log, since);
    assert (rest + [u])[..|rest|] == rest;
  }

  lemma {:induction false} InvAppend(r: Rules, o: Options, st: State, c: nat)
    requires Inv(r, o, st)
    ensures Inv(r, o, Next(o, st, Append(c)))
  {
    if c in st.calls && st.calls[c].Marked? {
      var Marked(data, version) := st.calls[c];
      var u := Update(data, version);
      DiskAppend(r, o, st.disk, st.acked, st.applied, st.logged, u);
      var disk := st.disk.(log := st.disk.log + [u]);
      LiveAppend(r, o, st, c, disk, Max(st.logged, version));
    }
  }

  lemma {:induction false} InvReject(r: Rules, o: Options, st: State, c: nat)
    requires Inv(r, o, st)
    ensures Inv(r, o, Next(o, st, Reject(c)))
  {
    if st.entry.Some? {
      LiveCalls(r, o, st, Without(st.calls, c));
    }
  }

  lemma {:induction false} InvPlan(r: Rules, o: Options, st: State, s: nat)
    requires Enough(r, o) && Inv(r, o, st) && Allowed(r, st, PlanSnapshot(s))
    ensures Inv(r, o, Next(o, st, PlanSnapshot(s)))
  {
  }

  /** The fields of a registry entry that storage depends on. */
  predicate SameCore(e: Entry, e': Entry) {
    e.instance == e'.instance && e.version == e'.version && e.meta == e'.meta
  }

  /** A saver moves on and nothing else changes. */
  lemma {:induction false} LiveMove(r: Rules, o: Options, st: State, s: nat, v: Saver, e: Entry, st': State)
    requires st.entry.Some? && LiveInv(r, o, st, st.entry.value) && SameCore(st.entry.value, e) && s in st.savers
    requires SaverInv(r, o, st.disk, e, st.docs[e.instance], st.calls, v)
    requires st' == st.(entry := Some(e), savers := st.savers[s := v])
    ensures LiveInv(r, o, st', e)
  {
    assert s in st'.savers;
  }

  lemma {:induction false} LiveLeave(r: Rules, o: Options, st: State, s: nat, e: Entry, st': State)
    requires st.entry.Some? && LiveInv(r, o, st, st.entry.value) && SameCore(st.entry.value, e) && s in st.savers
    requires ChainLength(st.disk.snaps) <= Bound(o.threshold, e.meta.count)
    requires st' == st.(entry := Some(e), savers := Without(st.savers, s))
    ensures LiveInv(r, o, st', e)
  {
    assert st'.savers == map[];
  }

  lemma {:induction false} InvPend(r: Rules, o: Options, st: State, s: nat)
    requires Inv(r, o, st)
    ensures Inv(r, o, Next(o, st, Pend(s)))
  {
    if InPhase(st, s, Planned) {
      var e, v, st' := st.entry.value, st.savers[s], Next(o, st, Pend(s));
      assert SaverInv(r, o, st.disk, e, st.docs[e.instance], st.calls, v);
      if CanTransition(e.state, SnapshotPending) {
        LiveMove(r, o, st, s, v.(phase := Pending), e.(state := SnapshotPending), st');
      } else {
        LiveLeave(r, o, st, s, e, st');
      }
    }
  }

  lemma {:induction false} InvResolve(r: Rules, o: Options, st: State, s: nat)
    requires Inv(r, o, st)
    ensures Inv(r, o, Next(o, st, Resolve(s)))
  {
    if InPhase(st, s, Pending) {
      var e, v, st' := st.entry.value, st.savers[s], Next(o, st, Resolve(s));
      assert SaverInv(r, o, st.disk, e, st.docs[e.instance], st.calls, v);
      LiveMove(r, o, st, s, st'.savers[s], e, st');
    }
  }

  /** An incremental plan builds on what the chain holds. */
  lemma {:induction false} PlanBase(r: Rules, o: Options, disk: Disk, meta: SnapshotMeta)
    requires Enough(r, o) && (disk.snaps != [] && r.atomicCapture ==> Held(disk.snaps) == Latest(disk.snaps))
    ensures var plan := PlanNext(o.threshold, meta, disk.snaps);
            plan.base == if plan.kind == Full then {} else Held(disk.snaps)
  {
    assert meta.count % 1 == 0;
  }

  lemma {:induction false} InvTakePayload(r: Rules, o: Options, st: State, s: nat)
    requires Enough(r, o) && Inv(r, o, st)
    ensures Inv(r, o, Next(o, st, TakePayload(s)))
  {
    if InPhase(st, s, Resolved) {
      var e, v, st' := st.entry.value, st.savers[s], Next(o, st, TakePayload(s));
      var doc := st.docs[e.instance];
      assert SaverInv(r, o, st.disk, e, doc, st.calls, v);
      PlanBase(r, o, st.disk, v.meta);
      assert v.plan.base + (doc - v.plan.base) == doc;
      assert Covers(st.disk, st.calls, doc, v.version) by {
        forall c | c in st.calls && st.calls[c].Marked?
          ensures st.calls[c].data <= doc
        {
          assert CallInv(st.disk, e, doc, st.calls[c]);
        }
      }
      LiveMove(r, o, st, s, st'.savers[s], e, st');
    }
  }

  lemma {:induction false} InvTakeVector(r: Rules, o: Options, st: State, s: nat, id: string)
    requires Inv(r, o, st)
    ensures Inv(r, o, Next(o, st, TakeVector(s, id)))
  {
    if InPhase(st, s, Captured) {
      var e, v, st' := st.entry.value, st.savers[s], Next(o, st, TakeVector(s, id));
      var doc := st.docs[e.instance];
      assert SaverInv(r, o, st.disk, e, doc, st.calls, v);
      LiveMove(r, o, st, s, st'.savers[s], e, st');
    }
  }

  lemma {:induction false} InvGiveUp(r: Rules, o: Options, st: State, s: nat)
    requires Inv(r, o, st)
    ensures Inv(r, o, Next(o, st, GiveUp(s)))
  {
    if InPhase(st, s, Captured) || InPhase(st, s, Built) {
      var e, st' := st.entry.value, Next(o, st, GiveUp(s));
      assert SaverInv(r, o, st.disk, e, st.docs[e.instance], st.calls, st.savers[s]);
      LiveLeave(r, o, st, s, st'.entry.value, st');
    }
  }

  lemma {:induction false} DivUnique(d: int, q: int, r: int, q': int, r': int)
    requires 0 <= r < d && 0 <= r' < d && d * q + r == d * q' + r'
    ensures r == r'
  {
    var k := q - q';
    assert d * k == r' - r;
    assert k >= 1 ==> d * k >= d;
    assert k <= -1 ==> d * k <= -d;
  }

  /** The chain stays within its bound as the count of snapshots goes up by one. */
  lemma {:induction false} BoundGrows(threshold: int, count: nat)
    requires threshold > 0 && count > 0 && count % threshold != 0
    ensures Bound(threshold, count) + 1 == Bound(threshold, count + 1) <= threshold
  {
    DivUnique(threshold, count / threshold, count % threshold - 1, (count - 1) / threshold, (count - 1) % threshold);
  }

  /** Storing a snapshot that covers its version loses nothing. */
  lemma {:induction false} DiskSave(r: Rules, o: Options, disk: Disk, acked: Ops, applied: Ops, logged: nat,
                                    e: Entry, doc: Ops, calls: map<nat, Call>, v: Saver)
    requires Enough(r, o) && DiskInv(r, o, disk, acked, applied, logged) && DocInv(disk, e, doc, applied, logged)
    requires v.phase == Built && SaverInv(r, o, disk, e, doc, calls, v)
    ensures DiskInv(r, o, disk.(snaps := disk.snaps + [v.snap]), acked, applied, logged)
    ensures StoredInv(o, disk.(snaps := disk.snaps + [v.snap]), v)
    ensures Held(disk.snaps + [v.snap]) == v.plan.base + v.snap.data
  {
    var snaps, held := disk.snaps, v.plan.base + v.snap.data;
    var snaps' := snaps + [v.snap];
    PlanBase(r, o, disk, v.meta);
    ChainExtend(snaps, v.snap, v.plan.base);
    if v.snap.kind == Incremental {
      BoundGrows(o.threshold, v.meta.count);
    }
    assert Latest(snaps') == v.snap.stateVector && SnapVersion(snaps') == v.version;
    forall x | x in acked
      ensures x in held || x in Content(Since(disk.log, v.version))
    {
      if x !in Held(snaps) {
        var u :| u in Since(disk.log, SnapVersion(snaps)) && x in u.data;
        assert u.version > v.version ==> u in Since(disk.log, v.version);
      }
    }
  }

  lemma {:induction false} LiveSave(r: Rules, o: Options, st: State, s: nat, disk: Disk)
    requires st.entry.Some? && LiveInv(r, o, st, st.entry.value) && InPhase(st, s, Built)
    requires disk.log == st.disk.log && StoredInv(o, disk, st.savers[s])
    requires Held(disk.snaps) == st.savers[s].plan.base + st.savers[s].snap.data
    ensures LiveInv(r, o, st.(disk := disk, savers := st.savers[s := st.savers[s].(phase := Saved)]), st.entry.value)
  {
    var e, v := st.entry.value, st.savers[s];
    assert SaverInv(r, o, st.disk, e, st.docs[e.instance], st.calls, v);
    assert DocInv(disk, e, st.docs[e.instance], st.applied, st.logged);
    assert SaverInv(r, o, disk, e, st.docs[e.instance], st.calls, v.(phase := Saved));
    forall c | c in st.calls
      ensures CallInv(disk, e, st.docs[e.instance], st.calls[c])
    {
      assert CallInv(st.disk, e, st.docs[e.instance], st.calls[c]);
    }
    var savers := st.savers[s := v.(phase := Saved)];
    assert s in savers;
  }

  lemma {:induction false} InvSave(r: Rules, o: Options, st: State, s: nat)
    requires Enough(r, o) && Inv(r, o, st)
    ensures Inv(r, o, Next(o, st, Save(s)))
  {
    if InPhase(st, s, Built) {
      var e, v := st.entry.value, st.savers[s];
      DiskSave(r, o, st.disk, st.acked, st.applied, st.logged, e, st.docs[e.instance], st.calls, v);
      LiveSave(r, o, st, s, st.disk.(snaps := st.disk.snaps + [v.snap]));
    }
  }

  /** Pruning and trimming may drop snapshots and log entries, not the newest snapshot. */
  lemma {:induction false} LiveDrop(r: Rules, o: Options, st: State, s: nat, disk: Disk, phase: Phase)
    requires st.entry.Some? && LiveInv(r, o, st, st.entry.value)
    requires s in st.savers && Stored(st.savers[s].phase) && Stored(phase)
    requires forall u :: u in disk.log ==> u in st.disk.log
    requires StoredInv(o, disk, st.savers[s]) && Held(disk.snaps) == Held(st.disk.snaps)
    ensures LiveInv(r, o, st.(disk := disk, savers := st.savers[s := st.savers[s].(phase := phase)]), st.entry.value)
  {
    var e, v := st.entry.value, st.savers[s];
    assert SaverInv(r, o, st.disk, e, st.docs[e.instance], st.calls, v);
    assert SnapVersion(disk.snaps) == SnapVersion(st.disk.snaps);
    forall c | c in st.calls
      ensures CallInv(disk, e, st.docs[e.instance], st.calls[c])
    {
      assert CallInv(st.disk, e, st.docs[e.instance], st.calls[c]);
    }
  }

  lemma {:induction false} DiskPrune(r: Rules, o: Options, disk: Disk, acked: Ops, applied: Ops, logged: nat, v: Saver)
    requires Enough(r, o) && DiskInv(r, o, disk, acked, applied, logged) && StoredInv(o, disk, v)
    ensures DiskInv(r, o, disk.(snaps := Pruned(disk.snaps, o.retention)), acked, applied, logged)
    ensures StoredInv(o, disk.(snaps := Pruned(disk.snaps, o.retention)), v)
    ensures Held(Pruned(disk.snaps, o.retention)) == Held(disk.snaps)
  {
    PruneKeepsChain(disk.snaps, o.retention);
    var kept := Pruned(disk.snaps, o.retention);
    assert Latest(kept) == Latest(disk.snaps) && SnapVersion(kept) == SnapVersion(disk.snaps);
  }

  lemma {:induction false} InvPrune(r: Rules, o: Options, st: State, s: nat, fails: bool)
    requires Enough(r, o) && Inv(r, o, st)
    ensures Inv(r, o, Next(o, st, Prune(s, fails)))
  {
    if InPhase(st, s, Saved) {
      var v := st.savers[s];
      if !fails {
        DiskPrune(r, o, st.disk, st.acked, st.applied, st.logged, v);
      }
      var snaps := if fails then st.disk.snaps else Pruned(st.disk.snaps, o.retention);
      LiveDrop(r, o, st, s, st.disk.(snaps := snaps), Retained);
    }
  }

  lemma {:induction false} DiskTrim(r: Rules, o: Options, disk: Disk, acked: Ops, applied: Ops, logged: nat)
    requires DiskInv(r, o, disk, acked, applied, logged)
    ensures DiskInv(r, o, disk.(log := Since(disk.log, SnapVersion(disk.snaps))), acked, applied, logged)
  {
    var log, since := disk.log, SnapVersion(disk.snaps);
    SinceSince(log, since, since);
    if u :| u in log && u.version == logged && logged > since {
      assert u in Since(log, since);
    }
  }

  lemma {:induction false} InvTrim(r: Rules, o: Options, st: State, s: nat, fails: bool)
    requires Inv(r, o, st)
    ensures Inv(r, o, Next(o, st, Trim(s, fails)))
  {
    if InPhase(st, s, Retained) {
      DiskTrim(r, o, st.disk, st.acked, st.applied, st.logged);
      var log := if fails then st.disk.log else Since(st.disk.log, st.savers[s].version);
      LiveDrop(r, o, st, s, st.disk.(log := log), Trimmed);
    }
  }

  lemma {:induction false} LiveRecord(r: Rules, o: Options, st: State, s: nat, e': Entry)
    requires st.entry.Some? && LiveInv(r, o, st, st.entry.value) && InPhase(st, s, Trimmed)
    requires e' == RecordIn(st.entry.value, st.savers[s].snap)
    ensures LiveInv(r, o, st.(entry := Some(e'), savers := st.savers[s := st.savers[s].(phase := Recorded)]), e')
  {
    var e, v := st.entry.value, st.savers[s];
    var doc, savers := st.docs[e.instance], st.savers[s := v.(phase := Recorded)];
    assert SaverInv(r, o, st.disk, e, doc, st.calls, v);
    assert SaverInv(r, o, st.disk, e', doc, st.calls, v.(phase := Recorded));
    forall c | c in st.calls
      ensures CallInv(st.disk, e', doc, st.calls[c])
    {
      assert CallInv(st.disk, e, doc, st.calls[c]);
    }
    assert s in savers;
  }

  lemma {:induction false} InvRecord(r: Rules, o: Options, st: State, s: nat)
    requires Inv(r, o, st)
    ensures Inv(r, o, Next(o, st, Record(s)))
  {
    if InPhase(st, s, Trimmed) {
      LiveRecord(r, o, st, s, RecordIn(st.entry.value, st.savers[s].snap));
    }
  }

  lemma {:induction false} InvPersist(r: Rules, o: Options, st: State, s: nat)
    requires Inv(r, o, st)
    ensures Inv(r, o, Next(o, st, Persist(s)))
  {
    if InPhase(st, s, Recorded) {
      var e, st' := st.entry.value, Next(o, st, Persist(s));
      assert SaverInv(r, o, st.disk, e, st.docs[e.instance], st.calls, st.savers[s]);
      LiveLeave(r, o, st, s, st'.entry.value, st');
    }
  }

  lemma {:induction false} InvCallStep(r: Rules, o: Options, st: State, step: Step)
    requires CallStep(step) && Inv(r, o, st) && Allowed(r, st, step)
    ensures Inv(r, o, Next(o, st, step))
  {
    match step
    case Get(c, data) => InvGet(r, o, st, c, data);
    case Apply(c) => InvApply(r, o, st, c);
    case Mark(c) => InvMark(r, o, st, c);
    case Append(c) => InvAppend(r, o, st, c);
    case Reject(c) => InvReject(r, o, st, c);
  }

  lemma {:induction false} InvNext(r: Rules, o: Options, st: State, step: Step)
    requires Enough(r, o) && Inv(r, o, st) && Allowed(r, st, step)
    ensures Inv(r, o, Next(o, st, step))
  {
    if CallStep(step) {
      InvCallStep(r, o, st, step);
    } else {
      match step
      case Open(k, move) => InvOpen(r, o, st, k, move);
      case PlanSnapshot(s) => InvPlan(r, o, st, s);
      case Pend(s) => InvPend(r, o, st, s);
      case Resolve(s) => InvResolve(r, o, st, s);
      case TakePayload(s) => InvTakePayload(r, o, st, s);
      case TakeVector(s, id) => InvTakeVector(r, o, st, s, id);
      case GiveUp(s) => InvGiveUp(r, o, st, s);
      case Save(s) => InvSave(r, o, st, s);
      case Prune(s, fails) => InvPrune(r, o, st, s, fails);
      case Trim(s, fails) => InvTrim(r, o, st, s, fails);
      case Record(s) => InvRecord(r, o, st, s);
      case Persist(s) => InvPersist(r, o, st, s);
      case Archive =>
      case Unload =>
      case Crash =>
    }
  }

  lemma {:induction false} InvRun(r: Rules, o: Options, st: State, steps: seq<Step>)
    requires Enough(r, o) && Inv(r, o, st) && AllowedRun(r, o, st, steps)
    ensures Inv(r, o, Run(o, st, steps))
    decreases |steps|
  {
    if steps != [] {
      InvNext(r, o, st, steps[0]);
      InvRun(r, o, Next(o, st, steps[0]), steps[1..]);
    }
  }

  /** Durability: with a wide enough window and enough exclusions, every allowed run, stopped
      anywhere, leaves storage that rebuilds what was acknowledged. */
  lemma {:induction false} Durable(r: Rules, o: Options, steps: seq<Step>)
    requires Enough(r, o) && AllowedRun(r, o, INIT, steps)
    ensures Safe(Run(o, INIT, steps))
  {
    InvRun(r, o, INIT, steps);
    InvSafe(r, o, Run(o, INIT, steps));
  }

  /** Over every allowed run the stretch from the newest full snapshot to the end of
      the list is at most one period long, pruning never drops its start, and, if captures
      are undivided, its payloads together are the state the newest snapshot captured. */
  lemma {:induction false} ChainSound(r: Rules, o: Options, steps: seq<Step>)
    requires Enough(r, o) && AllowedRun(r, o, INIT, steps)
    ensures var snaps := Run(o, INIT, steps).disk.snaps;
            && ChainLength(snaps) <= Max(1, o.threshold)
            && (snaps != [] ==> Chain(snaps)[0].kind == Full)
            && (snaps != [] && r.atomicCapture ==> Held(snaps) == Latest(snaps))
  {
    InvRun(r, o, INIT, steps);
    BaseFacts(Run(o, INIT, steps).disk.snaps);
  }
}
