/** The execution orchestrator: it drives jobs through the registry and the scheduler.
    Each call is the protocol's uninterrupted run of its steps. */
module Orchestration {
  import opened Jobs
  import opened L = JobLifecycle
  import Schedules
  import opened Wrappers

  datatype Problem =
    | NotFound | Duplicate | Illegal | CancellationConflict | RetryConflict | RetriesExhausted | SchedulerUnavailable

  /** What holds of every registered job while calls do not overlap. */
  ghost predicate Healthy(jobs: Jobs) {
    forall id :: id in jobs ==> L.Sound(jobs[id]) && jobs[id].retryCount <= Ceiling(jobs[id])
  }

  lemma {:induction false} HealthyUpdate(jobs: Jobs, id: string, j: Job)
    requires Healthy(jobs) && L.Sound(j) && j.retryCount <= Ceiling(j)
    ensures Healthy(jobs[id := j])
  {
  }

  lemma {:induction false} Overwrite(jobs: Jobs, id: string, a: Job, b: Job)
    ensures jobs[id := a][id := b] == jobs[id := b]
  {
  }

  lemma {:induction false} SubtractTwice(jobs: Jobs, a: set<string>, b: set<string>)
    ensures jobs - a - b == jobs - (a + b)
  {
  }

  lemma {:induction false} SubmittedSound(j: Job, now: Time, accepted: bool)
    requires Created(j)
    ensures L.Sound(Submitted(j, now, accepted)) && Submitted(j, now, accepted).retryCount == 0
    ensures Submitted(j, now, accepted).state == if accepted then Queued else Failed
    ensures accepted ==> Submitted(j, now, accepted).scheduledAt == now
  {
  }

  lemma {:induction false} ReenteredSound(j: Job, now: Time, accepted: bool)
    requires L.Sound(j) && Retryable(j)
    ensures L.Sound(Reentered(j, now, accepted))
    ensures Reentered(j, now, accepted).retryCount <= Ceiling(Reentered(j, now, accepted))
  {
  }

  /** The job a fresh submission leaves behind. */
  function Submitted(j: Job, now: Time, accepted: bool): Job {
    var queued := Apply(Apply(j, Validate), Enqueue(now));
    if accepted then queued else Apply(queued, Fail(now))
  }

  /** Why a retry is refused, if it is. */
  function Refusal(jobs: Jobs, id: string): (r: Option<Problem>)
    ensures r.None? <==> id in jobs && Retryable(jobs[id])
  {
    if id !in jobs then Some(NotFound)
    else if Retryable(jobs[id]) then None
    else Some(if CanRetry(jobs[id].state) then RetriesExhausted else RetryConflict)
  }

  function Reentered(j: Job, now: Time, accepted: bool): Job {
    var queued := Apply(Apply(j, Reenter), Enqueue(now));
    if accepted then queued else Apply(queued, Fail(now))
  }

  class Orchestrator {
    const reg: Registry
    const sched: Schedules.Memory
    var archive: seq<Job>

    constructor (capacity: int)
      ensures Valid() && fresh(reg) && fresh(sched) && reg.byId == map[] && archive == []
    {
      reg := new Registry();
      sched := new Schedules.Memory(capacity);
      archive := [];
    }

    ghost predicate Valid()
      reads this, reg, sched
    {
      reg.Valid() && sched.Valid() && Healthy(reg.byId)
    }

    /** The shared helper of all lifecycle marks. */
    method Advance(id: string, m: Mark) returns (err: Option<Error>)
      requires reg.Valid()
      modifies reg
      ensures reg.Valid()
      ensures err == if id !in old(reg.byId) then Some(JobNotFound)
                     else if !CanTransition(old(reg.byId)[id].state, Target(m)) then Some(IllegalTransition) else None
      ensures reg.byId == if id in old(reg.byId) then old(reg.byId)[id := Apply(old(reg.byId)[id], m)]
                else old(reg.byId)
    {
      var from;
      from, err := reg.Transition(id, Target(m), j => Mutate(m, j));
    }

    /** The lifecycle marks of workers and runtimes: dispatched, started, streaming, completed,
        failed, timed out. */
    method Report(id: string, m: Mark) returns (err: Option<Error>)
      requires Valid() && (m.Dispatch? || m.Start? || m.Stream? || m.Complete? || m.Fail? || m.TimeOut?)
      modifies reg
      ensures Valid()
      ensures err == if id !in old(reg.byId) then Some(JobNotFound)
                     else if !CanTransition(old(reg.byId)[id].state, Target(m)) then Some(IllegalTransition) else None
      ensures reg.byId == if id in old(reg.byId) then old(reg.byId)[id := Apply(old(reg.byId)[id], m)]
                else old(reg.byId)
    {
      ghost var before := reg.byId;
      err := Advance(id, m);
      if id in before {
        ApplySound(before[id], m);
        HealthyUpdate(before, id, Apply(before[id], m));
      }
    }

    /** Hands a queued job to the scheduler; a refusal leaves the job failed. */
    method ScheduleOrFail(id: string, now: Time) returns (ok: bool)
      requires reg.Valid() && sched.Valid() && id in reg.byId
      modifies reg, sched
      ensures reg.Valid() && sched.Valid()
      ensures ok == Schedules.Accepts(sched.capacity, old(sched.View()), id)
      ensures sched.View()
                == Schedules.Next(sched.capacity, old(sched.View()), Schedules.Schedule(id, old(reg.byId)[id].priority))
      ensures reg.byId == if ok then old(reg.byId) else old(reg.byId)[id := Apply(old(reg.byId)[id], Fail(now))]
    {
      ok := sched.Schedule(reg.byId[id]);
      if !ok {
        var e := Advance(id, Fail(now));
      }
    }

    /** Registers a job and marks it validated and queued. */
    method Enlist(j: Job, now: Time) returns (isNew: bool)
      requires reg.Valid() && Created(j)
      modifies reg
      ensures reg.Valid() && isNew == (j.id !in old(reg.byId))
      ensures reg.byId == if isNew then old(reg.byId)[j.id := Submitted(j, now, true)] else old(reg.byId)
    {
      var e := reg.Add(j);
      isNew := e.None?;
      if isNew {
        e := Advance(j.id, Validate);
        e := Advance(j.id, Enqueue(now));
      }
    }

    /** Marks a job retrying and queued again. */
    method Reenlist(id: string, now: Time)
      requires reg.Valid() && id in reg.byId
      modifies reg
      ensures reg.Valid()
      ensures reg.byId == old(reg.byId)[id := Reentered(old(reg.byId)[id], now, true)]
    {
      var e := Advance(id, Reenter);
      e := Advance(id, Enqueue(now));
    }

    method Requeue(id: string, now: Time) returns (ok: bool)
      requires reg.Valid() && sched.Valid() && id in reg.byId
      modifies reg, sched
      ensures reg.Valid() && sched.Valid()
      ensures ok == Schedules.Accepts(sched.capacity, old(sched.View()), id)
      ensures sched.View()
                == Schedules.Next(sched.capacity, old(sched.View()), Schedules.Schedule(id, old(reg.byId)[id].priority))
      ensures reg.byId == old(reg.byId)[id := Reentered(old(reg.byId)[id], now, ok)]
    {
      ghost var before, snap := reg.byId, reg.byId[id];
      Reenlist(id, now);
      ok := ScheduleOrFail(id, now);
      Overwrite(before, id, Reentered(snap, now, true), Reentered(snap, now, false));
    }

    /** Registers a job, queues it and schedules it. */
    method SubmitExecution(j: Job, now: Time) returns (err: Option<Problem>)
      requires Valid() && Created(j)
      modifies reg, sched
      ensures Valid() && archive == old(archive)
      ensures err == if j.id in old(reg.byId) then Some(Duplicate)
                     else if Schedules.Accepts(sched.capacity, old(sched.View()), j.id) then None
                     else Some(SchedulerUnavailable)
      ensures err == Some(Duplicate) ==> reg.byId == old(reg.byId) && sched.View() == old(sched.View())
      ensures err != Some(Duplicate) ==>
                && reg.byId == old(reg.byId)[j.id := Submitted(j, now, err.None?)]
                && sched.View()
                   == Schedules.Next(sched.capacity, old(sched.View()), Schedules.Schedule(j.id, j.priority))
    {
      ghost var before := reg.byId;
      var isNew := Enlist(j, now);
      if !isNew {
        return Some(Duplicate);
      }
      var ok := ScheduleOrFail(j.id, now);
      err := if ok then None else Some(SchedulerUnavailable);
      Overwrite(before, j.id, Submitted(j, now, true), Submitted(j, now, false));
      SubmittedSound(j, now, ok);
      HealthyUpdate(before, j.id, Submitted(j, now, ok));
    }

    method Cancel(id: string, now: Time) returns (err: Option<Problem>)
      requires Valid()
      modifies reg, sched
      ensures Valid() && archive == old(archive)
      ensures err == if id !in old(reg.byId) then Some(NotFound)
                     else if IsFinished(old(reg.byId)[id].state) then Some(CancellationConflict) else None
      ensures err.Some? ==> reg.byId == old(reg.byId) && sched.View() == old(sched.View())
      ensures err.None? ==>
                && reg.byId == old(reg.byId)[id := Apply(old(reg.byId)[id], L.Cancel(now))]
                && sched.View() == Schedules.Next(sched.capacity, old(sched.View()), Schedules.Cancel(id))
                && reg.byId[id].state == Cancelled
    {
      ghost var before := reg.byId;
      var e := Advance(id, L.Cancel(now));
      if e.Some? {
        assert reg.byId == before;
        return Some(if e.value == IllegalTransition then CancellationConflict else NotFound);
      }
      ApplySound(before[id], L.Cancel(now));
      HealthyUpdate(before, id, Apply(before[id], L.Cancel(now)));
      sched.Cancel(id);
      return None;
    }

    /** The check a retry makes on a snapshot of the job. */
    method Vet(id: string) returns (err: Option<Problem>)
      ensures err == Refusal(reg.byId, id)
    {
      if id !in reg.byId {
        return Some(NotFound);
      }
      var snap := reg.byId[id];
      if !CanRetry(snap.state) {
        return Some(RetryConflict);
      }
      if snap.retryCount >= snap.maxRetries {
        return Some(RetriesExhausted);
      }
      return None;
    }

    /** Re-enters a failed or timed-out job that has retries left. */
    method Retry(id: string, now: Time) returns (err: Option<Problem>)
      requires Valid()
      modifies reg, sched
      ensures Valid() && archive == old(archive)
      ensures id !in old(reg.byId) || !Retryable(old(reg.byId)[id]) ==>
                && err == Refusal(old(reg.byId), id)
                && reg.byId == old(reg.byId) && sched.View() == old(sched.View())
      ensures id in old(reg.byId) && Retryable(old(reg.byId)[id]) ==>
                && err == (if Schedules.Accepts(sched.capacity, old(sched.View()), id) then None
                    else Some(SchedulerUnavailable))
                && reg.byId == old(reg.byId)[id := Reentered(old(reg.byId)[id], now, err.None?)]
                && sched.View()
                   == Schedules.Next(sched.capacity, old(sched.View()),
                                     Schedules.Schedule(id, old(reg.byId)[id].priority))
    {
      err := Vet(id);
      if err.Some? {
        return;
      }
      ghost var before, snap := reg.byId, reg.byId[id];
      var ok := Requeue(id, now);
      err := if ok then None else Some(SchedulerUnavailable);
      ReenteredSound(snap, now, ok);
      HealthyUpdate(before, id, Reentered(snap, now, ok));
    }

    /** Moves a finished job out of the registry into the archive. */
    method Archive(id: string) returns (err: Option<Error>)
      requires reg.Valid()
      modifies this, reg
      ensures reg.Valid() && (old(Healthy(reg.byId)) ==> Healthy(reg.byId))
      ensures err == if id !in old(reg.byId) then Some(JobNotFound)
                     else if IsFinished(old(reg.byId)[id].state) && old(reg.byId)[id].state != Archived then None
                     else Some(IllegalTransition)
      ensures err.Some? ==> reg.byId == old(reg.byId) && archive == old(archive)
      ensures err.None? ==>
                reg.byId == old(reg.byId) - {id} && archive == old(archive) + [Apply(old(reg.byId)[id], L.Archive)]
    {
      err := Advance(id, L.Archive);
      if err.Some? {
        assert reg.byId == old(reg.byId);
        return;
      }
      var snap := reg.Remove(id);
      archive := archive + [snap.value];
      assert reg.byId == old(reg.byId) - {id};
    }

    /** Sweeps exactly the jobs that finished at least `retention` ago into the archive. */
    method ArchiveFinished(now: int, retention: int) returns (n: nat)
      requires Valid()
      modifies this, reg
      ensures Valid()
      ensures reg.byId == old(reg.byId) - Due(old(reg.byId), now - retention)
      ensures n == |Due(old(reg.byId), now - retention)| && |archive| == |old(archive)| + n && old(archive) <= archive
      ensures forall j :: j in archive[|old(archive)|..]
                <==> exists id :: id in Due(old(reg.byId), now - retention) && j == Apply(old(reg.byId)[id], L.Archive)
    {
      var due := reg.FinishedBefore(now - retention);
      SweptAll(reg.byId, now - retention, due);
      n := Sweep(due);
    }

    method Sweep(due: seq<Job>) returns (n: nat)
      requires reg.Valid()
      requires forall i, k :: 0 <= i < k < |due| ==> due[i].id != due[k].id
      requires forall k :: 0 <= k < |due| ==> due[k].id in reg.byId && Archivable(reg.byId[due[k].id], due[k])
      modifies this, reg
      ensures reg.Valid() && n == |due|
      ensures reg.byId == old(reg.byId) - Ids(due) && archive == old(archive) + Swept(due)
    {
      n := 0;
      ghost var jobs, kept, gone, moved := reg.byId, archive, Ids([]), Swept([]);
      while n < |due|
        invariant n <= |due| && reg.Valid()
        invariant gone == Ids(due[..n]) && moved == Swept(due[..n])
        invariant reg.byId == jobs - gone && archive == kept + moved
      {
        ghost var id := due[n].id;
        assert id !in gone;
        IdsAppend(due, n);
        SubtractTwice(jobs, gone, {id});
        assert Archivable(jobs[id], due[n]);
        var err := Archive(due[n].id);
        gone, moved := gone + {id}, moved + [Apply(due[n], L.Archive)];
        n := n + 1;
      }
      assert due[..|due|] == due;
    }
  }

  predicate Archivable(j: Job, due: Job) {
    j == due && IsFinished(j.state) && j.state != Archived
  }

  lemma {:induction false} IdsAppend(js: seq<Job>, k: nat)
    requires k < |js|
    ensures Ids(js[..k + 1]) == Ids(js[..k]) + {js[k].id}
    ensures Swept(js[..k + 1]) == Swept(js[..k]) + [Apply(js[k], L.Archive)]
  {
    assert js[..k + 1] == js[..k] + [js[k]];
    assert forall i :: 0 <= i < k ==> js[..k + 1][i] == js[..k][i];
  }

  function Ids(js: seq<Job>): set<string> {
    set k | 0 <= k < |js| :: js[k].id
  }

  function Swept(js: seq<Job>): seq<Job> {
    seq(|js|, k requires 0 <= k < |js| => Apply(js[k], L.Archive))
  }

  lemma {:induction false} IdsSize(js: seq<Job>)
    requires forall i, k :: 0 <= i < k < |js| ==> js[i].id != js[k].id
    ensures |Ids(js)| == |js|
  {
    if js != [] {
      var n := |js| - 1;
      IdsSize(js[..n]);
      assert Ids(js) == Ids(js[..n]) + {js[n].id};
      assert js[n].id !in Ids(js[..n]);
    }
  }

  lemma {:induction false} SweptAll(jobs: Jobs, cutoff: int, due: seq<Job>)
    requires forall id :: id in jobs ==> jobs[id].id == id
    requires Lists(due, Due(jobs, cutoff), jobs)
    ensures Ids(due) == Due(jobs, cutoff) && |due| == |Due(jobs, cutoff)|
    ensures forall k :: 0 <= k < |due| ==> due[k].id in jobs && Archivable(jobs[due[k].id], due[k])
    ensures forall j :: j in Swept(due) <==> exists id :: id in Due(jobs, cutoff) && j == Apply(jobs[id], L.Archive)
  {
    forall id
      ensures id in Ids(due) <==> id in Due(jobs, cutoff)
    {
      if id in Due(jobs, cutoff) {
        assert jobs[id] in due;
      }
      if id in Ids(due) {
        var k :| 0 <= k < |due| && due[k].id == id;
        assert due[k] in due;
      }
    }
    IdsSize(due);
    assert forall k :: 0 <= k < |due| ==> due[k] in due;
    forall j
      ensures j in Swept(due) <==> exists id :: id in Due(jobs, cutoff) && j == Apply(jobs[id], L.Archive)
    {
      if j in Swept(due) {
        var k :| 0 <= k < |due| && j == Swept(due)[k];
        assert due[k] in due;
      }
      if id :| id in Due(jobs, cutoff) && j == Apply(jobs[id], L.Archive) {
        assert jobs[id] in due;
        var k :| 0 <= k < |due| && due[k] == jobs[id];
        assert Swept(due)[k] == j;
      }
    }
  }
}
