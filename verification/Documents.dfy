/** What the collaboration engine stores about a document, and how a document is
    rebuilt from it.

    The state of a CRDT document, the content of an update and a state vector are
    all modelled as the set of operations they hold: applying an update is union,
    and encoding the state relative to a state vector is set difference. */
module Documents {

  type Ops = set<nat>

  datatype Update = Update(data: Ops, version: nat)

  datatype Kind = Full | Incremental

  datatype Snapshot = Snapshot(id: string, kind: Kind, stateVector: Ops, data: Ops, baseVersion: nat, version: nat)

  datatype SnapshotMeta = SnapshotMeta(lastId: string, lastKind: Kind, lastVersion: nat, count: nat)

  const NO_SNAPSHOTS := SnapshotMeta("", Full, 0, 0)

  // ---- Lifecycle ----

  datatype DocState =
    Created | Initialized | Active | Dirty | SnapshotPending | Persisted | Recovered | Archived | Destroyed

  predicate CanTransition(from: DocState, to: DocState) {
    match from
    case Created => to in {Initialized, Destroyed}
    case Initialized => to in {Active, Archived, Destroyed}
    case Active => to in {Dirty, Archived, SnapshotPending, Destroyed}
    case Dirty => to in {SnapshotPending, Persisted, Active, Archived, Destroyed}
    case SnapshotPending => to in {Persisted, Active, Dirty, Destroyed}
    case Persisted => to in {Active, Dirty, Archived, Destroyed}
    case Recovered => to in {Active, Initialized, Archived, Destroyed}
    case Archived => to in {Recovered, Destroyed}
    case Destroyed => false
  }

  /** The state after an edit: documents at rest pass through Active to Dirty. */
  function EditedState(s: DocState): (r: DocState)
    ensures r == s || r == Dirty
    ensures s in {Initialized, Active, Dirty, Persisted, Recovered} <==> r == Dirty
  {
    var t := if s in {Initialized, Persisted, Recovered} && CanTransition(s, Active) then Active else s;
    if t == Active && CanTransition(t, Dirty) then Dirty else t
  }

  // ---- Options ----

  /** Retention count and the number of snapshots per full one. */
  datatype Options = Options(retention: int, threshold: int)

  function Normalize(o: Options): (r: Options)
    ensures r.retention >= 1 && r.threshold >= 0
  {
    Options(if o.retention <= 0 then 5 else o.retention, if o.threshold < 0 then 0 else o.threshold)
  }

  function Max(a: int, b: int): int {
    if a < b then b else a
  }

  // ---- Snapshots ----

  datatype Plan = Plan(kind: Kind, base: Ops, baseVersion: nat)

  const FULL_PLAN := Plan(Full, {}, 0)

  /** Kind and base of the next snapshot. */
  function PlanNext(threshold: int, prev: SnapshotMeta, snaps: seq<Snapshot>): (p: Plan)
    ensures p.kind == Full ==> p.base == {}
    ensures p.kind == Incremental ==> snaps != [] && p.base == Latest(snaps)
  {
    if threshold <= 0 || prev.count == 0 || prev.lastId == "" then FULL_PLAN
    else if prev.count % threshold == 0 then FULL_PLAN
    else if snaps == [] then FULL_PLAN
    else Plan(Incremental, Latest(snaps), SnapVersion(snaps))
  }

  /** The state the newest snapshot captured. */
  function Latest(snaps: seq<Snapshot>): Ops {
    if snaps == [] then {} else snaps[|snaps| - 1].stateVector
  }

  function SnapVersion(snaps: seq<Snapshot>): nat {
    if snaps == [] then 0 else snaps[|snaps| - 1].version
  }

  predicate HasFull(snaps: seq<Snapshot>) {
    exists i :: 0 <= i < |snaps| && snaps[i].kind == Full
  }

  /** Where the chain starts: the newest full snapshot, or failing that the oldest one. */
  function Base(snaps: seq<Snapshot>): (b: nat)
    ensures snaps != [] ==> b < |snaps|
    ensures snaps == [] ==> b == 0
  {
    if snaps == [] then 0
    else if snaps[|snaps| - 1].kind == Full then |snaps| - 1
    else Base(snaps[..|snaps| - 1])
  }

  lemma {:induction false} BaseFacts(snaps: seq<Snapshot>)
    ensures forall i :: Base(snaps) < i < |snaps| ==> snaps[i].kind == Incremental
    ensures HasFull(snaps) ==> snaps[Base(snaps)].kind == Full
    ensures !HasFull(snaps) ==> Base(snaps) == 0
  {
    if snaps != [] && snaps[|snaps| - 1].kind != Full {
      var rest := snaps[..|snaps| - 1];
      BaseFacts(rest);
      assert HasFull(rest) <==> HasFull(snaps) by {
        assert forall i :: 0 <= i < |rest| ==> rest[i] == snaps[i];
      }
    }
  }

  function Chain(snaps: seq<Snapshot>): (c: seq<Snapshot>)
    ensures snaps != [] ==> c != []
  {
    snaps[Base(snaps)..]
  }

  /** Snapshots the chain holds. */
  function ChainLength(snaps: seq<Snapshot>): nat {
    |Chain(snaps)|
  }

  function Payloads(snaps: seq<Snapshot>): Ops {
    if snaps == [] then {} else Payloads(snaps[..|snaps| - 1]) + snaps[|snaps| - 1].data
  }

  /** What the chain rebuilds. */
  function Held(snaps: seq<Snapshot>): (h: Ops)
    ensures snaps == [] ==> h == {}
  {
    Payloads(Chain(snaps))
  }

  function Pruned(snaps: seq<Snapshot>, keep: nat): seq<Snapshot> {
    if |snaps| <= keep then snaps else snaps[|snaps| - keep..]
  }

  // ---- The update log ----

  /** The logged updates with a version above `since`. */
  function Since(log: seq<Update>, since: int): (r: seq<Update>)
    ensures forall u :: u in r <==> u in log && u.version > since
  {
    if log == [] then []
    else
      var u := log[|log| - 1];
      var rest := Since(log[..|log| - 1], since);
      if u.version > since then rest + [u] else rest
  }

  function Content(log: seq<Update>): (r: Ops)
    ensures forall u :: u in log ==> u.data <= r
    ensures forall x :: x in r ==> exists u :: u in log && x in u.data
  {
    if log == [] then {} else Content(log[..|log| - 1]) + log[|log| - 1].data
  }

  function Newest(log: seq<Update>, floor: nat): (v: nat)
    ensures v >= floor && forall u :: u in log ==> u.version <= v
    ensures v == floor || exists u :: u in log && u.version == v
  {
    if log == [] then floor else Max(Newest(log[..|log| - 1], floor), log[|log| - 1].version)
  }

  // ---- Recovery ----

  datatype Recovery = NotFound | Rebuilt(doc: Ops, version: nat)

  /** The log's tail on top of what a chain holds, if there is one. */
  function Replayed(held: Ops, version: nat, some: bool, log: seq<Update>): Recovery {
    var tail := Since(log, version);
    if !some && tail == [] then NotFound else Rebuilt(held + Content(tail), Newest(tail, version))
  }

  /** The document that the snapshots and the log rebuild. */
  function Recover(snaps: seq<Snapshot>, log: seq<Update>): Recovery {
    Replayed(Held(snaps), SnapVersion(snaps), snaps != [], log)
  }

  // ---- Facts about chains ----

  lemma {:induction false} BaseAppend(snaps: seq<Snapshot>, s: Snapshot)
    ensures s.kind == Full ==> Base(snaps + [s]) == |snaps| && Chain(snaps + [s]) == [s]
    ensures s.kind == Incremental && snaps != [] ==>
              Base(snaps + [s]) == Base(snaps) && Chain(snaps + [s]) == Chain(snaps) + [s]
  {
    var longer := snaps + [s];
    assert longer[..|longer| - 1] == snaps && longer[|longer| - 1] == s;
    if s.kind == Full {
      assert Base(longer) == |snaps|;
    } else {
      assert Base(longer) == Base(snaps);
      assert snaps != [] ==> longer[Base(snaps)..] == snaps[Base(snaps)..] + [s];
    }
  }

  /** A full snapshot starts the chain again; an incremental one adds to what it holds. */
  lemma {:induction false} ChainExtend(snaps: seq<Snapshot>, s: Snapshot, base: Ops)
    requires if s.kind == Full then base == {} else snaps != [] && base == Held(snaps) && HasFull(snaps)
    ensures HasFull(snaps + [s]) && Held(snaps + [s]) == base + s.data
    ensures ChainLength(snaps + [s]) == if s.kind == Full then 1 else ChainLength(snaps) + 1
  {
    BaseAppend(snaps, s);
    assert (snaps + [s])[|snaps|] == s;
    if s.kind == Full {
      assert [s][..0] == [];
      assert Payloads([s]) == s.data;
    } else {
      var i :| 0 <= i < |snaps| && snaps[i].kind == Full;
      assert (snaps + [s])[i] == snaps[i];
      assert (Chain(snaps) + [s])[..ChainLength(snaps)] == Chain(snaps);
    }
  }

  /** Appending to a sound chain keeps it sound: a full snapshot holds everything,
      an incremental one what its base lacked. */
  lemma {:induction false} ChainAppend(snaps: seq<Snapshot>, s: Snapshot, base: Ops)
    requires s.data == s.stateVector - base && base <= s.stateVector
    requires if s.kind == Full then base == {} else snaps != [] && base == Latest(snaps) && HasFull(snaps)
    requires s.kind == Incremental ==> Held(snaps) == Latest(snaps)
    ensures HasFull(snaps + [s]) && Held(snaps + [s]) == s.stateVector
    ensures ChainLength(snaps + [s]) == if s.kind == Full then 1 else ChainLength(snaps) + 1
  {
    ChainExtend(snaps, s, base);
  }

  /** A window at least as long as the chain keeps the whole chain. */
  lemma {:induction false} PruneKeepsChain(snaps: seq<Snapshot>, keep: nat)
    requires HasFull(snaps) && ChainLength(snaps) <= keep
    ensures HasFull(Pruned(snaps, keep)) && Chain(Pruned(snaps, keep)) == Chain(snaps)
    ensures Pruned(snaps, keep)[|Pruned(snaps, keep)| - 1] == snaps[|snaps| - 1]
  {
    var kept := Pruned(snaps, keep);
    var cut := |snaps| - |kept|;
    var b := Base(snaps);
    BaseFacts(snaps);
    BaseFacts(kept);
    assert kept == snaps[cut..] && cut <= b;
    assert kept[b - cut] == snaps[b];
    assert Base(kept) == b - cut;
  }

  lemma {:induction false} SinceAppend(log: seq<Update>, u: Update, since: int)
    ensures Since(log + [u], since) == if u.version > since then Since(log, since) + [u] else Since(log, since)
  {
    assert (log + [u])[..|log|] == log;
  }

  /** Trimming below the cut that readers use changes nothing they see. */
  lemma {:induction false} SinceSince(log: seq<Update>, a: int, b: int)
    requires a <= b
    ensures Since(Since(log, a), b) == Since(log, b)
  {
    if log != [] {
      var rest, u := log[..|log| - 1], log[|log| - 1];
      SinceSince(rest, a, b);
      if u.version > a {
        SinceAppend(Since(rest, a), u, b);
      }
    }
  }
}
