/** The in-memory repository, the snapshot manager over it, and recovery. */
module DocumentStore {
  import opened Documents
  import opened Wrappers

  datatype Metadata = Metadata(roomId: string, filePath: string)

  method KeepFrom(all: seq<Update>, before: nat) returns (kept: seq<Update>)
    ensures kept == Since(all, before - 1)
  {
    kept := [];
    for i := 0 to |all|
      invariant kept == Since(all[..i], before - 1)
    {
      assert all[..i + 1] == all[..i] + [all[i]];
      SinceAppend(all[..i], all[i], before - 1);
      if all[i].version >= before {
        kept := kept + [all[i]];
      }
    }
    assert all[..|all|] == all;
  }

  class Repository {
    var meta: map<string, Metadata>
    var updates: map<string, seq<Update>>
    var snapshots: map<string, seq<Snapshot>>

    function Log(doc: string): seq<Update>
      reads this
    {
      if doc in updates then updates[doc] else []
    }

    function Snaps(doc: string): seq<Snapshot>
      reads this
    {
      if doc in snapshots then snapshots[doc] else []
    }

    constructor ()
      ensures meta == map[] && updates == map[] && snapshots == map[]
    {
      meta, updates, snapshots := map[], map[], map[];
    }

    method SaveMetadata(doc: string, m: Metadata)
      modifies this`meta
      ensures meta == old(meta)[doc := m]
    {
      meta := meta[doc := m];
    }

    method SaveUpdate(doc: string, u: Update)
      modifies this`updates
      ensures Log(doc) == old(Log(doc)) + [u]
      ensures forall d :: d != doc ==> Log(d) == old(Log(d))
    {
      updates := updates[doc := (if doc in updates then updates[doc] else []) + [u]];
    }

    method GetUpdates(doc: string, since: nat) returns (r: seq<Update>)
      ensures r == Since(Log(doc), since)
    {
      var all := Log(doc);
      r := [];
      for i := 0 to |all|
        invariant r == Since(all[..i], since)
      {
        assert all[..i + 1] == all[..i] + [all[i]];
        SinceAppend(all[..i], all[i], since);
        if all[i].version > since {
          r := r + [all[i]];
        }
      }
      assert all[..|all|] == all;
    }

    method DeleteUpdates(doc: string, before: nat)
      modifies this`updates
      ensures Log(doc) == Since(old(Log(doc)), before - 1)
      ensures forall d :: d != doc ==> Log(d) == old(Log(d))
    {
      var kept := KeepFrom(Log(doc), before);
      updates := updates[doc := kept];
    }

    method SaveSnapshot(doc: string, s: Snapshot)
      modifies this`snapshots
      ensures Snaps(doc) == old(Snaps(doc)) + [s]
      ensures forall d :: d != doc ==> Snaps(d) == old(Snaps(d))
    {
      snapshots := snapshots[doc := (if doc in snapshots then snapshots[doc] else []) + [s]];
    }

    method GetLatestSnapshot(doc: string) returns (r: Option<Snapshot>)
      ensures r.None? <==> Snaps(doc) == []
      ensures r.Some? ==> r.value.stateVector == Latest(Snaps(doc)) && r.value.version == SnapVersion(Snaps(doc))
    {
      if doc !in snapshots || |snapshots[doc]| == 0 {
        return None;
      }
      var snaps := snapshots[doc];
      return Some(snaps[|snaps| - 1]);
    }

    method PruneSnapshots(doc: string, keep: nat)
      modifies this`snapshots
      ensures Snaps(doc) == Pruned(old(Snaps(doc)), keep)
      ensures forall d :: d != doc ==> Snaps(d) == old(Snaps(d))
    {
      if doc !in snapshots || |snapshots[doc]| <= keep {
        return;
      }
      var snaps := snapshots[doc];
      snapshots := snapshots[doc := snaps[|snaps| - keep..]];
    }
  }

  /** A chain that rebuilds the state its newest snapshot captured. */
  ghost predicate Sound(snaps: seq<Snapshot>) {
    snaps != [] ==> HasFull(snaps) && Held(snaps) == Latest(snaps)
  }

  lemma {:induction false} AppendKeepsSound(snaps: seq<Snapshot>, s: Snapshot, base: Ops, keep: nat)
    requires Sound(snaps) && ChainLength(snaps) < keep && s.data == s.stateVector - base && base <= s.stateVector
    requires if s.kind == Full then base == {} else snaps != [] && base == Latest(snaps)
    ensures Sound(snaps + [s]) && Held(snaps + [s]) == s.stateVector
    ensures Sound(Pruned(snaps + [s], keep)) && Held(Pruned(snaps + [s], keep)) == s.stateVector
  {
    ChainAppend(snaps, s, base);
    PruneKeepsChain(snaps + [s], keep);
  }

  class SnapshotManager {
    const repo: Repository
    const options: Options

    constructor (repo: Repository, given: Options)
      ensures this.repo == repo && options == Normalize(given)
      ensures options.retention >= 1 && options.threshold >= 0
    {
      this.repo := repo;
      options := Normalize(given);
    }

    method PlanFor(doc: string, prev: SnapshotMeta) returns (p: Plan)
      ensures p == PlanNext(options.threshold, prev, repo.Snaps(doc))
    {
      if options.threshold <= 0 || prev.count == 0 || prev.lastId == "" {
        return FULL_PLAN;
      }
      if prev.count % options.threshold == 0 {
        return FULL_PLAN;
      }
      var latest := repo.GetLatestSnapshot(doc);
      if latest.None? {
        return FULL_PLAN;
      }
      return Plan(Incremental, latest.value.stateVector, latest.value.version);
    }

    /** Captures `state` as a snapshot.  Storing it may fail; pruning may fail silently. */
    method Create(doc: string, state: Ops, version: nat, prev: SnapshotMeta, id: string, saveFails: bool,
                  pruneFails: bool)
      returns (r: Option<Snapshot>)
      requires options.retention >= 1
      modifies repo`snapshots
      ensures r.None? <==> saveFails
      ensures r.None? ==> repo.Snaps(doc) == old(repo.Snaps(doc))
      ensures r.Some? ==>
                var p := PlanNext(options.threshold, prev, old(repo.Snaps(doc)));
                var all := old(repo.Snaps(doc)) + [r.value];
                && r.value == Snapshot(id, p.kind, state, state - p.base, p.baseVersion, version)
                && repo.Snaps(doc) == if pruneFails then all else Pruned(all, options.retention)
      ensures forall d :: d != doc ==> repo.Snaps(d) == old(repo.Snaps(d))
      ensures r.Some? && old(Sound(repo.Snaps(doc)) && Latest(repo.Snaps(doc)) <= state &&
                             ChainLength(repo.Snaps(doc)) < options.retention) ==>
                Sound(repo.Snaps(doc)) && Held(repo.Snaps(doc)) == state
    {
      var p := PlanFor(doc, prev);
      var raw := state - p.base;
      var snap := Snapshot(id, p.kind, state, raw, p.baseVersion, version);
      if saveFails {
        return None;
      }
      ghost var before := repo.Snaps(doc);
      if Sound(before) && Latest(before) <= state && ChainLength(before) < options.retention {
        AppendKeepsSound(before, snap, p.base, options.retention);
      }
      repo.SaveSnapshot(doc, snap);
      if !pruneFails {
        repo.PruneSnapshots(doc, options.retention);
      }
      return Some(snap);
    }

    /** The payloads from the newest full snapshot on, oldest first. */
    method Reconstruct(doc: string) returns (payloads: seq<Ops>, version: nat, found: bool)
      ensures found <==> repo.Snaps(doc) != []
      ensures version == SnapVersion(repo.Snaps(doc))
      ensures |payloads| == ChainLength(repo.Snaps(doc))
      ensures forall i :: 0 <= i < |payloads| ==> payloads[i] == Chain(repo.Snaps(doc))[i].data
    {
      var snaps := repo.Snaps(doc);
      if |snaps| == 0 {
        return [], 0, false;
      }
      var base := 0;
      var i := |snaps| - 1;
      while i >= 0
        invariant -1 <= i < |snaps| && base == 0
        invariant forall j :: i < j < |snaps| ==> snaps[j].kind == Incremental
      {
        if snaps[i].kind == Full {
          base := i;
          break;
        }
        i := i - 1;
      }
      BaseFacts(snaps);
      assert base == Base(snaps);
      var chain := snaps[base..];
      payloads := [];
      for k := 0 to |chain|
        invariant |payloads| == k && forall j :: 0 <= j < k ==> payloads[j] == chain[j].data
      {
        payloads := payloads + [chain[k].data];
      }
      return payloads, chain[|chain| - 1].version, true;
    }
  }

  // ---- Recovery ----

  predicate ByVersion(log: seq<Update>) {
    forall i, j :: 0 <= i < j < |log| ==> log[i].version <= log[j].version
  }

  function Insert(u: Update, log: seq<Update>): (r: seq<Update>)
    ensures multiset(r) == multiset(log) + multiset{u}
  {
    if log == [] then [u]
    else
      var last := log[|log| - 1];
      assert log == log[..|log| - 1] + [last];
      if last.version <= u.version then log + [u] else Insert(u, log[..|log| - 1]) + [last]
  }

  lemma {:induction false} InsertSorts(u: Update, log: seq<Update>)
    requires ByVersion(log)
    ensures ByVersion(Insert(u, log))
  {
    if log != [] {
      var front, last := log[..|log| - 1], log[|log| - 1];
      assert log == front + [last];
      if last.version > u.version {
        InsertSorts(u, front);
        var r := Insert(u, front);
        forall i | 0 <= i < |r|
          ensures r[i].version <= last.version
        {
          assert r[i] in multiset(r);
          assert r[i] in multiset(front) || r[i] == u;
        }
      }
    }
  }

  /** The replayed updates in version order. */
  function Sorted(log: seq<Update>): (r: seq<Update>)
    ensures multiset(r) == multiset(log) && ByVersion(r)
  {
    if log == [] then []
    else
      assert log == log[..|log| - 1] + [log[|log| - 1]];
      InsertSorts(log[|log| - 1], Sorted(log[..|log| - 1]));
      Insert(log[|log| - 1], Sorted(log[..|log| - 1]))
  }

  /** Content and newest version do not depend on the order of the updates. */
  lemma {:induction false} OrderIrrelevant(a: seq<Update>, b: seq<Update>, floor: nat)
    requires multiset(a) == multiset(b)
    ensures Content(a) == Content(b) && Newest(a, floor) == Newest(b, floor) && |a| == |b|
  {
    assert forall u :: u in a <==> u in multiset(a);
    assert forall u :: u in b <==> u in multiset(b);
    assert forall x :: x in Content(a) <==> x in Content(b);
    assert |multiset(a)| == |a| && |multiset(b)| == |b|;
  }

  datatype RecoverError = DocumentNotFound | ConsistencyCheckFailed

  datatype RecoverResult =
    | Failed(error: RecoverError)
    | Done(doc: Ops, version: nat, snapshotPayloads: nat, updatesReplayed: nat)

  /** Applies the chain's payloads to a fresh document. */
  method ApplyPayloads(payloads: seq<Ops>, ghost chain: seq<Snapshot>) returns (d: Ops)
    requires |payloads| == |chain| && forall i :: 0 <= i < |chain| ==> payloads[i] == chain[i].data
    ensures d == Payloads(chain)
  {
    d := {};
    for i := 0 to |payloads|
      invariant d == Payloads(chain[..i])
    {
      assert chain[..i + 1][..i] == chain[..i];
      d := d + payloads[i];
    }
    assert chain[..|chain|] == chain;
  }

  /** Replays updates on top of a document, keeping the highest version seen. */
  method Replay(base: Ops, from: nat, updates: seq<Update>) returns (d: Ops, version: nat, replayed: nat)
    ensures d == base + Content(updates) && version == Newest(updates, from) && replayed == |updates|
  {
    d, version, replayed := base, from, 0;
    for i := 0 to |updates|
      invariant d == base + Content(updates[..i]) && replayed == i
      invariant version == Newest(updates[..i], from)
    {
      assert updates[..i + 1][..i] == updates[..i];
      d := d + updates[i].data;
      replayed := replayed + 1;
      if updates[i].version > version {
        version := updates[i].version;
      }
    }
    assert updates[..|updates|] == updates;
  }

  /** Rebuilds a document: the chain's payloads, then the log's tail in version
      order.  The closing consistency check never fails. */
  method RecoverDocument(snaps: SnapshotManager, doc: string) returns (r: RecoverResult)
    ensures match Recover(snaps.repo.Snaps(doc), snaps.repo.Log(doc))
            case NotFound => r == Failed(DocumentNotFound)
            case Rebuilt(d, v) =>
              r == Done(d, v, ChainLength(snaps.repo.Snaps(doc)),
                        |Since(snaps.repo.Log(doc), SnapVersion(snaps.repo.Snaps(doc)))|)
  {
    var d: Ops, applied := {}, 0;
    var payloads, snapVersion, found := snaps.Reconstruct(doc);
    if found {
      d := ApplyPayloads(payloads, Chain(snaps.repo.Snaps(doc)));
      applied := |payloads|;
    }
    var updates := snaps.repo.GetUpdates(doc, snapVersion);
    if applied == 0 && |updates| == 0 {
      return Failed(DocumentNotFound);
    }
    var sorted := Sorted(updates);
    OrderIrrelevant(sorted, updates, snapVersion);
    var version, replayed;
    d, version, replayed := Replay(d, snapVersion, sorted);
    if version < snapVersion {
      return Failed(ConsistencyCheckFailed);
    }
    return Done(d, version, applied, replayed);
  }
}
