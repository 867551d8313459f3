/** The collaboration manager for one document, called from one place at a time.
    Each operation is the uninterrupted run of the protocol's steps, so a manager
    never leaves the states the durability theorem covers. */
module Collaboration {
  import opened Documents
  import opened DocumentStore
  import Durability
  import DurabilityLimits
  import opened Wrappers

  /** An update as it arrives; `corrupt` when the CRDT engine cannot decode it. */
  datatype Frame = Frame(size: nat, ops: Ops, corrupt: bool)

  datatype Limits = Limits(maxUpdateSize: nat, maxDocumentSize: nat, maxPending: nat)

  datatype Error =
    | MalformedUpdate | UpdateSizeExceeded | NotLoaded | DocumentSizeExceeded | CorruptedUpdate
    | InvalidState | SnapshotFailure | NotPersisted

  type Faults = DurabilityLimits.Faults

  const UNLOAD := [Durability.Archive, Durability.Unload]

  class Manager {
    const doc: string
    const repo: Repository
    const snaps: SnapshotManager
    const limits: Limits
    const sizeOf: Ops -> nat
    var entry: Option<Durability.Entry>
    var docs: map<nat, Ops>
    var next: nat
    ghost var acked: Ops
    ghost var applied: Ops
    ghost var logged: nat

    /** The protocol state with no call under way. */
    ghost function Abs(): Durability.State
      reads this, repo
    {
      Durability.State(Durability.Disk(doc in repo.meta, repo.Log(doc), repo.Snaps(doc)), entry, docs, next,
                       map[], map[], map[], acked, applied, logged)
    }

    ghost predicate Valid()
      reads this, repo
    {
      && snaps.repo == repo && snaps.options.retention >= 1
      && DurabilityLimits.Reaches(snaps.options, Durability.ALL_RULES, Abs())
      && (entry.Some? ==> entry.value.instance in docs)
    }

    constructor (doc: string, given: Options, limits: Limits, sizeOf: Ops -> nat)
      ensures Valid() && Abs() == Durability.INIT && snaps.options == Normalize(given)
      ensures fresh(repo) && this.doc == doc && this.limits == limits && this.sizeOf == sizeOf
    {
      var r := new Repository();
      var s := new SnapshotManager(r, given);
      this.doc, this.repo, this.snaps, this.limits, this.sizeOf := doc, r, s, limits, sizeOf;
      entry, docs, next := None, map[], 0;
      acked, applied, logged := {}, {}, 0;
      new;
      DurabilityLimits.Begin(snaps.options, Durability.ALL_RULES);
    }

    lemma {:induction false} AlwaysInv()
      requires Valid() && Durability.Wide(snaps.options)
      ensures Durability.Inv(Durability.ALL_RULES, snaps.options, Abs())
    {
      var o := snaps.options;
      var steps :| Durability.AllowedRun(Durability.ALL_RULES, o, Durability.INIT, steps) &&
                   Durability.Run(o, Durability.INIT, steps) == Abs();
      Durability.InvRun(Durability.ALL_RULES, o, Durability.INIT, steps);
    }

    /** What the durability theorem says of a manager with a wide window, in any state it can
        be in. */
    lemma {:induction false} AlwaysSafe()
      requires Valid() && Durability.Wide(snaps.options)
      ensures Durability.Safe(Abs())
    {
      AlwaysInv();
      Durability.InvSafe(Durability.ALL_RULES, snaps.options, Abs());
    }

    /** Storage alone rebuilds the loaded document, once it was edited, but for updates that
        could not be logged. */
    lemma {:induction false} Reopens()
      requires Valid() && Durability.Wide(snaps.options) && entry.Some? && logged > 0
      ensures Recover(repo.Snaps(doc), repo.Log(doc)).Rebuilt?
      ensures acked <= Recover(repo.Snaps(doc), repo.Log(doc)).doc <= docs[entry.value.instance] <= applied
      ensures acked == applied ==> Recover(repo.Snaps(doc), repo.Log(doc)).doc == docs[entry.value.instance] == acked
    {
      AlwaysInv();
      Durability.LiveRebuilds(Durability.ALL_RULES, snaps.options, Abs());
    }

    /** GetOrCreateDocument. */
    method Open(m: Metadata) returns (ok: bool)
      requires Valid()
      modifies this, repo`meta
      ensures Valid() && Abs() == Durability.Run(snaps.options, old(Abs()), DurabilityLimits.OpenAll(0))
      ensures ok <==> entry.Some?
      ensures ok <==> old(entry.Some? || doc !in repo.meta || repo.Snaps(doc) != [] ||
                          exists u :: u in repo.Log(doc) && u.version > 0)
    {
      ghost var before := Abs();
      DurabilityLimits.OpenRuns(Durability.ALL_RULES, snaps.options, before, 0);
      DurabilityLimits.ThenOpen(snaps.options, Durability.ALL_RULES, before, 0);
      if entry.Some? {
        return true;
      }
      if doc in repo.meta {
        var r := RecoverDocument(snaps, doc);
        if r.Failed? {
          return false;
        }
        entry := Some(Durability.Entry(next, Active, r.version, 0, false, 0, NO_SNAPSHOTS));
        docs := docs[next := r.doc];
      } else {
        repo.SaveMetadata(doc, m);
        entry := Some(Durability.Entry(next, Initialized, 0, 0, false, 0, NO_SNAPSHOTS));
        docs := docs[next := {}];
      }
      next := next + 1;
      ok := true;
      assert Abs() == DurabilityLimits.Opened(before);
    }

    /** Why a snapshot is refused, if it is. */
    ghost function Unready(): Option<Error>
      reads this
    {
      if entry.None? then Some(NotLoaded)
      else if !CanTransition(entry.value.state, SnapshotPending) then Some(InvalidState)
      else None
    }

    method SaveSnapshot(id: string, f: Faults) returns (err: Option<Error>)
      requires Valid()
      modifies this, repo`updates, repo`snapshots
      ensures Valid()
      ensures err == if old(Unready()).Some? then old(Unready()) else if f.save then Some(SnapshotFailure) else None
      ensures Abs() == if old(Unready()).Some? then old(Abs())
                       else Durability.Run(snaps.options, old(Abs()), DurabilityLimits.SaveAll(0, id, f))
      ensures err.None? ==> entry.Some? && entry.value.state == Persisted && entry.value.pending == 0
      ensures acked == old(acked) && applied == old(applied) && logged == old(logged) && docs == old(docs)
      ensures entry.Some? <==> old(entry.Some?)
    {
      if entry.None? {
        return Some(NotLoaded);
      }
      if !CanTransition(entry.value.state, SnapshotPending) {
        return Some(InvalidState);
      }
      ghost var before := Abs();
      ghost var o := snaps.options;
      var e := entry.value;
      DurabilityLimits.SaveRuns(Durability.ALL_RULES, o, before, 0, id, f);
      DurabilityLimits.Then(o, Durability.ALL_RULES, before, DurabilityLimits.SaveAll(0, id, f));
      assert Durability.Without(before.savers, 0) == map[];
      ghost var snapshot := DurabilityLimits.BuiltSnap(o, before, DurabilityLimits.PlannedBy(e), id);
      var snap := snaps.Create(doc, docs[e.instance], e.version, e.meta, id, f.save, f.prune);
      if snap.None? {
        entry := Some(e.(state := Dirty));
        assert Abs() == DurabilityLimits.Finished(o, before, 0, snapshot, f);
        return Some(SnapshotFailure);
      }
      if !f.trim {
        repo.DeleteUpdates(doc, snap.value.version + 1);
      }
      entry := Some(Durability.RecordIn(e, snap.value).(state := Persisted));
      assert Abs() == DurabilityLimits.Stored(o, before, 0, snapshot, f);
      return None;
    }

    /** Why a frame is refused, if it is. */
    ghost function Refusal(f: Frame): Option<Error>
      reads this
    {
      if f.size == 0 then Some(MalformedUpdate)
      else if f.size > limits.maxUpdateSize then Some(UpdateSizeExceeded)
      else if entry.None? then Some(NotLoaded)
      else if entry.value.instance in docs && sizeOf(docs[entry.value.instance]) > limits.maxDocumentSize then
        Some(DocumentSizeExceeded)
      else if f.corrupt then Some(CorruptedUpdate)
      else None
    }

    /** The backlog is full and a snapshot may be taken. */
    predicate Backlogged(e: Durability.Entry) {
      e.pending >= limits.maxPending && CanTransition(e.state, SnapshotPending)
    }

    /** Applies, marks and logs one update, unless the log fails; a full backlog then forces a
        snapshot, whose own failure is not reported. */
    method ApplyIncrementalUpdate(frame: Frame, id: string, logFails: bool, f: Faults) returns (err: Option<Error>)
      requires Valid()
      modifies this, repo`updates, repo`snapshots
      ensures Valid()
      ensures err == if old(Refusal(frame)).Some? then old(Refusal(frame))
                else if logFails then Some(NotPersisted) else None
      ensures old(Refusal(frame)).Some? ==> Abs() == old(Abs())
      ensures err == Some(NotPersisted) ==>
                Abs() == Durability.Run(snaps.options, old(Abs()), DurabilityLimits.Unlogged(frame.ops)) &&
                acked == old(acked)
      ensures err.None? ==>
                var edited := Durability.Run(snaps.options, old(Abs()), DurabilityLimits.Edit(frame.ops));
                && edited.entry.Some?
                && Abs() == if Backlogged(edited.entry.value)
                            then Durability.Run(snaps.options, edited, DurabilityLimits.SaveAll(0, id, f)) else edited
      ensures err.None? ==> acked == old(acked) + frame.ops
    {
      if frame.size == 0 {
        return Some(MalformedUpdate);
      }
      if frame.size > limits.maxUpdateSize {
        return Some(UpdateSizeExceeded);
      }
      if entry.None? {
        return Some(NotLoaded);
      }
      var e := entry.value;
      if sizeOf(docs[e.instance]) > limits.maxDocumentSize {
        return Some(DocumentSizeExceeded);
      }
      if frame.corrupt {
        return Some(CorruptedUpdate);
      }
      ApplyAndLog(frame.ops, logFails);
      if logFails {
        return Some(NotPersisted);
      }
      if entry.value.pending >= limits.maxPending {
        var _ := SaveSnapshot(id, f);
      }
      return None;
    }

    method ApplyAndLog(ops: Ops, logFails: bool)
      requires Valid() && entry.Some?
      modifies this, repo`updates
      ensures Valid() && entry.Some?
      ensures Abs() == Durability.Run(snaps.options, old(Abs()),
                                      if logFails then DurabilityLimits.Unlogged(ops) else DurabilityLimits.Edit(ops))
      ensures acked == if logFails then old(acked) else old(acked) + ops
    {
      ghost var before := Abs();
      ghost var o := snaps.options;
      var e := entry.value;
      docs := docs[e.instance := docs[e.instance] + ops];
      entry := Some(e.(version := e.version + 1, editCount := e.editCount + 1, dirty := true,
                       pending := e.pending + 1, state := EditedState(e.state)));
      applied := applied + ops;
      if logFails {
        DurabilityLimits.UnloggedRuns(Durability.ALL_RULES, o, before, ops);
        DurabilityLimits.Then(o, Durability.ALL_RULES, before, DurabilityLimits.Unlogged(ops));
        assert Abs() == Durability.Run(o, before, DurabilityLimits.Unlogged(ops));
        return;
      }
      repo.SaveUpdate(doc, Update(ops, e.version + 1));
      acked, logged := acked + ops, Max(logged, e.version + 1);
      DurabilityLimits.EditRuns(Durability.ALL_RULES, o, before, ops);
      DurabilityLimits.Then(o, Durability.ALL_RULES, before, DurabilityLimits.Edit(ops));
      assert Abs() == DurabilityLimits.Edited(before, ops);
    }

    /** One frame of a burst: what it acknowledges and why it stops the burst. */
    method ApplyNext(frame: Frame, id: string, logFails: bool, f: Faults) returns (err: Option<Error>)
      requires Valid()
      modifies this, repo`updates, repo`snapshots
      ensures Valid()
      ensures err.Some? ==> acked == old(acked) && (err == Refusal(frame) || (err == Some(NotPersisted) && logFails))
      ensures err.None? ==> acked == old(acked) + frame.ops
    {
      err := ApplyIncrementalUpdate(frame, id, logFails, f);
    }

    /** Applies a burst of frames in order, skipping empty ones, up to the first
        refusal or failure.  Either way exactly the operations of the frames passed are
        acknowledged. */
    method BatchUpdates(frames: seq<Frame>, id: string, logFails: nat -> bool, f: Faults)
      returns (err: Option<Error>, done: nat)
      requires Valid()
      modifies this, repo`updates, repo`snapshots
      ensures Valid()
      ensures done <= |frames| && acked == old(acked) + FrameOps(frames[..done])
      ensures err.None? ==> done == |frames| && !AllEmpty(frames)
      ensures AllEmpty(frames) ==> err == Some(MalformedUpdate) && Abs() == old(Abs())
      ensures err.Some? && done < |frames| ==>
                frames[done].size > 0 && (err == Refusal(frames[done]) || (err == Some(NotPersisted) && logFails(done)))
      ensures err.Some? && done == |frames| ==> AllEmpty(frames)
    {
      done := 0;
      if |frames| == 0 {
        return Some(MalformedUpdate), 0;
      }
      var count: nat := 0;
      while done < |frames|
        invariant 0 <= done <= |frames| && Valid()
        invariant acked == old(acked) + FrameOps(frames[..done])
        invariant count == 0 <==> AllEmpty(frames[..done])
        invariant count == 0 ==> Abs() == old(Abs())
      {
        var frame := frames[done];
        FrameOpsNext(frames, done);
        AllEmptyNext(frames, done);
        if frame.size > 0 {
          var e := ApplyNext(frame, id, logFails(done), f);
          if e.Some? {
            return e, done;
          }
          count := count + 1;
        }
        done := done + 1;
      }
      assert frames[..done] == frames;
      if count == 0 {
        return Some(MalformedUpdate), done;
      }
      err := None;
    }

    /** Flushes a dirty document and unloads it. */
    method ArchiveDocument(id: string, f: Faults) returns (err: Option<Error>)
      requires Valid()
      modifies this, repo`updates, repo`snapshots
      ensures Valid()
      ensures old(entry.None?) ==> err == Some(NotLoaded) && Abs() == old(Abs())
      ensures old(entry.Some? && entry.value.dirty) ==>
                && err == (if old(Unready()).Some? then old(Unready())
                           else if f.save then Some(SnapshotFailure) else None)
                && var flushed := if old(Unready()).Some? then old(Abs())
                                  else Durability.Run(snaps.options, old(Abs()), DurabilityLimits.SaveAll(0, id, f));
                Abs() == if err.None? then Durability.Run(snaps.options, flushed, UNLOAD) else flushed
      ensures old(entry.Some? && !entry.value.dirty) ==>
                && err == (if CanTransition(old(entry).value.state, Archived) then None else Some(InvalidState))
                && Abs() == if err.None? then Durability.Run(snaps.options, old(Abs()), UNLOAD) else old(Abs())
      ensures err.None? ==> entry.None?
      ensures acked == old(acked) && logged == old(logged) && applied == old(applied)
    {
      if entry.None? {
        return Some(NotLoaded);
      }
      if entry.value.dirty {
        var e := SaveSnapshot(id, f);
        if e.Some? {
          return e;
        }
      }
      if !CanTransition(entry.value.state, Archived) {
        return Some(InvalidState);
      }
      Unregister();
      return None;
    }

    method Unregister()
      requires Valid() && entry.Some? && CanTransition(entry.value.state, Archived)
      modifies this`entry
      ensures Valid() && entry.None? && Abs() == Durability.Run(snaps.options, old(Abs()), UNLOAD)
    {
      ghost var before := Abs();
      ghost var marked := before.(entry := Some(entry.value.(state := Archived)));
      entry := None;
      DurabilityLimits.ThenStep(snaps.options, Durability.ALL_RULES, before, Durability.Archive, marked);
      DurabilityLimits.ThenStep(snaps.options, Durability.ALL_RULES, marked, Durability.Unload, Abs());
      assert UNLOAD[1..] == [Durability.Unload] && UNLOAD[1..][1..] == [];
    }

    /** The process dies: everything in memory goes. */
    method Restart()
      requires Valid()
      modifies this
      ensures Valid() && entry.None?
      ensures Abs() == Durability.Next(snaps.options, old(Abs()), Durability.Crash)
      ensures acked == old(acked) && logged == old(logged) && applied == old(applied)
    {
      ghost var before := Abs();
      entry, docs := None, map[];
      DurabilityLimits.ThenStep(snaps.options, Durability.ALL_RULES, before, Durability.Crash, Abs());
    }
  }

  function FrameOps(frames: seq<Frame>): Ops {
    if frames == [] then {}
    else
      var f := frames[|frames| - 1];
      FrameOps(frames[..|frames| - 1]) + (if f.size > 0 then f.ops else {})
  }

  predicate AllEmpty(frames: seq<Frame>) {
    forall i :: 0 <= i < |frames| ==> frames[i].size == 0
  }

  lemma {:induction false} AllEmptyNext(frames: seq<Frame>, k: nat)
    requires k < |frames|
    ensures AllEmpty(frames[..k + 1]) <==> AllEmpty(frames[..k]) && frames[k].size == 0
  {
    assert frames[..k + 1] == frames[..k] + [frames[k]];
  }

  lemma {:induction false} FrameOpsNext(frames: seq<Frame>, k: nat)
    requires k < |frames|
    ensures FrameOps(frames[..k + 1]) == FrameOps(frames[..k]) + if frames[k].size > 0 then frames[k].ops else {}
  {
    assert frames[..k + 1][..k] == frames[..k];
  }
}
