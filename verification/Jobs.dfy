/** Execution jobs: the lifecycle graph, the registry of live jobs with its secondary
    indexes, and the queries the orchestrator relies on. */
module Jobs {
  import opened Wrappers

  datatype State =
    | Pending | Validated | Queued | Dispatched | Running | Streaming
    | Completed | Failed | TimedOut | Cancelled | Retrying | Archived

  /** The edges of the lifecycle graph. */
  predicate CanTransition(from: State, to: State) {
    match from
    case Pending => to.Validated? || to.Failed? || to.Cancelled?
    case Validated => to.Queued? || to.Failed? || to.Cancelled?
    case Queued => to.Dispatched? || to.Failed? || to.TimedOut? || to.Cancelled?
    case Dispatched => to.Running? || to.Failed? || to.TimedOut? || to.Cancelled?
    case Running => to.Streaming? || to.Completed? || to.Failed? || to.TimedOut? || to.Cancelled?
    case Streaming => to.Completed? || to.Failed? || to.TimedOut? || to.Cancelled?
    case Completed => to.Archived?
    case Failed => to.Retrying? || to.Archived?
    case TimedOut => to.Retrying? || to.Archived?
    case Cancelled => to.Archived?
    case Retrying => to.Queued? || to.Failed? || to.Cancelled?
    case Archived => false
  }

  predicate IsFinished(s: State) {
    s.Completed? || s.Failed? || s.TimedOut? || s.Cancelled? || s.Archived?
  }

  predicate CanRetry(s: State) {
    s == Failed || s == TimedOut
  }

  datatype Outcome = NoOutcome | Success | Failure | Timeout | Cancellation

  function OutcomeFor(s: State): Outcome {
    match s
    case Completed => Success
    case Failed => Failure
    case TimedOut => Timeout
    case Cancelled => Cancellation
    case _ => NoOutcome
  }

  /** Times are readings of a clock that starts after 0; 0 is the unset time. */
  datatype Job = Job(id: string, userId: string, roomId: string, sessionId: string, language: string,
                     priority: int, state: State, outcome: Outcome, retryCount: nat, maxRetries: int,
                     createdAt: int, scheduledAt: int, startedAt: int, completedAt: int,
                     cancelRequested: bool, workerId: string, transitions: nat)

  /** The fields that never change after a job is added. */
  predicate SameIdentity(a: Job, b: Job) {
    a.id == b.id && a.userId == b.userId && a.roomId == b.roomId && a.sessionId == b.sessionId &&
        a.language == b.language
  }

  function Moved(j: Job, to: State): Job {
    j.(state := to, transitions := j.transitions + 1)
  }

  // ---- Secondary indexes ----

  type Index<!K> = map<K, set<string>>

  type Jobs = map<string, Job>

  function Bucket<K>(idx: Index<K>, k: K): set<string> {
    if k in idx then idx[k] else {}
  }

  function IndexAdd<K>(idx: Index<K>, k: K, id: string): Index<K> {
    idx[k := Bucket(idx, k) + {id}]
  }

  function IndexRemove<K>(idx: Index<K>, k: K, id: string): Index<K> {
    if k !in idx then idx else if idx[k] - {id} == {} then idx - {k} else idx[k := idx[k] - {id}]
  }

  /** The string indexes leave jobs with an empty key out. */
  function Place(idx: Index<string>, k: string, id: string): Index<string> {
    if k == "" then idx else IndexAdd(idx, k, id)
  }

  function Displace(idx: Index<string>, k: string, id: string): Index<string> {
    if k == "" then idx else IndexRemove(idx, k, id)
  }

  ghost function WithKey<K>(jobs: Jobs, f: Job -> K, k: K): set<string> {
    set id | id in jobs && f(jobs[id]) == k
  }

  ghost function KeysOf<K>(jobs: Jobs, f: Job -> K): set<K> {
    set id | id in jobs :: f(jobs[id])
  }

  /** The inverse image of the jobs under `f` over the indexed keys; no bucket is empty. */
  ghost function Inverse<K>(jobs: Jobs, f: Job -> K, indexed: K -> bool): Index<K> {
    map k | k in KeysOf(jobs, f) && indexed(k) :: WithKey(jobs, f, k)
  }

  lemma {:induction false} InverseBucket<K>(jobs: Jobs, f: Job -> K, indexed: K -> bool, k: K)
    ensures Bucket(Inverse(jobs, f, indexed), k) == if indexed(k) then WithKey(jobs, f, k) else {}
    ensures k in Inverse(jobs, f, indexed) ==> Bucket(Inverse(jobs, f, indexed), k) != {}
  {
    if k in Inverse(jobs, f, indexed) {
      var id :| id in jobs && f(jobs[id]) == k;
      assert id in WithKey(jobs, f, k);
    }
  }

  lemma {:induction false} InverseAdd<K>(jobs: Jobs, f: Job -> K, indexed: K -> bool, id: string, j: Job)
    requires id !in jobs
    ensures Inverse(jobs[id := j], f, indexed)
         == if indexed(f(j)) then IndexAdd(Inverse(jobs, f, indexed), f(j), id) else Inverse(jobs, f, indexed)
  {
    var k0, jobs' := f(j), jobs[id := j];
    forall k
      ensures WithKey(jobs', f, k) == if k == k0 then WithKey(jobs, f, k) + {id} else WithKey(jobs, f, k)
    {
    }
    assert KeysOf(jobs', f) == KeysOf(jobs, f) + {k0} by {
      assert jobs'[id] == j;
      assert forall x :: x in jobs ==> x in jobs' && jobs'[x] == jobs[x];
    }
    InverseBucket(jobs, f, indexed, k0);
    var idx, idx' := Inverse(jobs, f, indexed), Inverse(jobs', f, indexed);
    var want := if indexed(k0) then IndexAdd(idx, k0, id) else idx;
    assert idx'.Keys == want.Keys;
    assert forall k :: k in idx' ==> idx'[k] == want[k];
  }

  lemma {:induction false} InverseRemove<K>(jobs: Jobs, f: Job -> K, indexed: K -> bool, id: string)
    requires id in jobs
    ensures Inverse(jobs - {id}, f, indexed)
         == if indexed(f(jobs[id])) then IndexRemove(Inverse(jobs, f, indexed), f(jobs[id]), id)
             else Inverse(jobs, f, indexed)
  {
    var rest, j := jobs - {id}, jobs[id];
    InverseAdd(rest, f, indexed, id, j);
    assert rest[id := j] == jobs;
    InverseBucket(rest, f, indexed, f(j));
    var idx := Inverse(rest, f, indexed);
    assert Bucket(idx, f(j)) + {id} - {id} == Bucket(idx, f(j));
  }

  lemma {:induction false} InverseKeep<K>(jobs: Jobs, f: Job -> K, indexed: K -> bool, id: string, j: Job)
    requires id in jobs && f(j) == f(jobs[id])
    ensures Inverse(jobs[id := j], f, indexed) == Inverse(jobs, f, indexed)
  {
    InverseRemove(jobs, f, indexed, id);
    InverseRemove(jobs[id := j], f, indexed, id);
    InverseAdd(jobs - {id}, f, indexed, id, j);
    InverseAdd(jobs - {id}, f, indexed, id, jobs[id]);
    assert (jobs - {id})[id := j] == jobs[id := j] && (jobs - {id})[id := jobs[id]] == jobs;
  }

  lemma {:induction false} InversePlace(jobs: Jobs, f: Job -> string, id: string, j: Job)
    requires id !in jobs
    ensures Inverse(jobs[id := j], f, NonEmpty) == Place(Inverse(jobs, f, NonEmpty), f(j), id)
  {
    InverseAdd(jobs, f, NonEmpty, id, j);
  }

  lemma {:induction false} InverseDisplace(jobs: Jobs, f: Job -> string, id: string)
    requires id in jobs
    ensures Inverse(jobs - {id}, f, NonEmpty) == Displace(Inverse(jobs, f, NonEmpty), f(jobs[id]), id)
  {
    InverseRemove(jobs, f, NonEmpty, id);
  }

  lemma {:induction false} InverseMove<K>(jobs: Jobs, f: Job -> K, indexed: K -> bool, id: string, j: Job)
    requires id in jobs && indexed(f(jobs[id])) && indexed(f(j))
    ensures Inverse(jobs[id := j], f, indexed)
            == IndexAdd(IndexRemove(Inverse(jobs, f, indexed), f(jobs[id]), id), f(j), id)
  {
    InverseRemove(jobs, f, indexed, id);
    InverseAdd(jobs - {id}, f, indexed, id, j);
    assert (jobs - {id})[id := j] == jobs[id := j];
  }

  function UserOf(j: Job): string { j.userId }
  function RoomOf(j: Job): string { j.roomId }
  function SessionOf(j: Job): string { j.sessionId }
  function LanguageOf(j: Job): string { j.language }
  function StateOf(j: Job): State { j.state }
  function NonEmpty(k: string): bool { k != "" }
  function Always(s: State): bool { true }

  datatype Error = DuplicateJob | JobNotFound | IllegalTransition

  datatype Stats = Stats(total: nat, byState: map<State, nat>, active: nat, finished: nat)

  /** Filing a moved job under `to` is right exactly when it is in that state. */
  lemma {:induction false} StateIndexExact(jobs: Jobs, id: string, moved: Job, to: State)
    requires id in jobs
    ensures (Inverse(jobs[id := moved], StateOf, Always) ==
             IndexAdd(IndexRemove(Inverse(jobs, StateOf, Always), jobs[id].state, id), to, id)) <==> moved.state == to
  {
    var filed := moved.(state := to);
    InverseMove(jobs, StateOf, Always, id, filed);
    InverseBucket(jobs[id := filed], StateOf, Always, to);
    InverseBucket(jobs[id := moved], StateOf, Always, to);
    assert id in WithKey(jobs[id := filed], StateOf, to);
    assert id in WithKey(jobs[id := moved], StateOf, to) <==> moved.state == to;
    if moved.state == to {
      assert filed == moved;
    }
  }

  /** `r` holds the named jobs' records, each once. */
  ghost predicate Lists(r: seq<Job>, ids: set<string>, jobs: Jobs) {
    && (forall i, k :: 0 <= i < k < |r| ==> r[i].id != r[k].id)
    && (forall j :: j in r <==> j.id in ids && j.id in jobs && jobs[j.id] == j)
  }

  /** The time a finished job counts from: its completion, else its creation. */
  function Reference(j: Job): int {
    if j.completedAt == 0 then j.createdAt else j.completedAt
  }

  /** The jobs due for archival: finished, not archived, at or before the cutoff. */
  ghost function Due(jobs: Jobs, cutoff: int): set<string> {
    set id | id in jobs && IsFinished(jobs[id].state) && jobs[id].state != Archived && Reference(jobs[id]) <= cutoff
  }

  ghost function DueAmong(jobs: Jobs, cutoff: int, states: seq<State>): set<string> {
    set id | id in jobs && jobs[id].state in states && Reference(jobs[id]) <= cutoff
  }

  lemma {:induction false} DueAmongNext(jobs: Jobs, cutoff: int, states: seq<State>, n: nat)
    requires n < |states|
    ensures DueAmong(jobs, cutoff, states[..n + 1])
            == DueAmong(jobs, cutoff, states[..n]) + DueAmong(jobs, cutoff, [states[n]])
  {
    assert states[..n + 1] == states[..n] + [states[n]];
  }

  lemma {:induction false} DueAmongAll(jobs: Jobs, cutoff: int)
    ensures DueAmong(jobs, cutoff, [Completed, Failed, TimedOut, Cancelled]) == Due(jobs, cutoff)
  {
  }

  /** The jobs in the given states that are finished, or that are not. */
  ghost function Counted(jobs: Jobs, states: set<State>, finished: bool): set<string> {
    set id | id in jobs && jobs[id].state in states && IsFinished(jobs[id].state) == finished
  }

  lemma {:induction false} CountedGrows(jobs: Jobs, states: set<State>, k: State, finished: bool)
    requires k !in states
    ensures |Counted(jobs, states + {k}, finished)|
         == |Counted(jobs, states, finished)| + if IsFinished(k) == finished then |WithKey(jobs, StateOf, k)| else 0
  {
    if IsFinished(k) == finished {
      assert Counted(jobs, states + {k}, finished) == Counted(jobs, states, finished) + WithKey(jobs, StateOf, k);
      assert Counted(jobs, states, finished) !! WithKey(jobs, StateOf, k);
    } else {
      assert Counted(jobs, states + {k}, finished) == Counted(jobs, states, finished);
    }
  }

  lemma {:induction false} CountedAll(jobs: Jobs)
    ensures Inverse(jobs, StateOf, Always).Keys == KeysOf(jobs, StateOf)
    ensures Counted(jobs, KeysOf(jobs, StateOf), true) == set id | id in jobs && IsFinished(jobs[id].state)
    ensures |jobs| == |Counted(jobs, KeysOf(jobs, StateOf), true)| + |Counted(jobs, KeysOf(jobs, StateOf), false)|
  {
    var done := KeysOf(jobs, StateOf);
    assert forall id :: id in jobs ==> StateOf(jobs[id]) in done;
    var f, a := Counted(jobs, done, true), Counted(jobs, done, false);
    assert f + a == jobs.Keys && f !! a;
  }

  class Registry {
    var byId: Jobs
    var byUser: Index<string>
    var byRoom: Index<string>
    var bySession: Index<string>
    var byLang: Index<string>
    var byState: Index<State>

    ghost predicate Valid()
      reads this
    {
      && (forall id :: id in byId ==> byId[id].id == id)
      && byUser == Inverse(byId, UserOf, NonEmpty)
      && byRoom == Inverse(byId, RoomOf, NonEmpty)
      && bySession == Inverse(byId, SessionOf, NonEmpty)
      && byLang == Inverse(byId, LanguageOf, NonEmpty)
      && byState == Inverse(byId, StateOf, Always)
    }

    constructor ()
      ensures Valid() && byId == map[]
    {
      byId, byUser, byRoom, bySession, byLang, byState := map[], map[], map[], map[], map[], map[];
    }

    method Add(j: Job) returns (err: Option<Error>)
      requires Valid()
      modifies this
      ensures Valid()
      ensures err == if j.id in old(byId) then Some(DuplicateJob) else None
      ensures byId == if err.None? then old(byId)[j.id := j] else old(byId)
    {
      if j.id in byId {
        return Some(DuplicateJob);
      }
      ghost var before := byId;
      byId := byId[j.id := j];
      byUser := Place(byUser, j.userId, j.id);
      byRoom := Place(byRoom, j.roomId, j.id);
      bySession := Place(bySession, j.sessionId, j.id);
      byLang := Place(byLang, j.language, j.id);
      byState := IndexAdd(byState, j.state, j.id);
      assert byUser == Inverse(byId, UserOf, NonEmpty) by { InversePlace(before, UserOf, j.id, j); }
      assert byRoom == Inverse(byId, RoomOf, NonEmpty) by { InversePlace(before, RoomOf, j.id, j); }
      assert bySession == Inverse(byId, SessionOf, NonEmpty) by { InversePlace(before, SessionOf, j.id, j); }
      assert byLang == Inverse(byId, LanguageOf, NonEmpty) by { InversePlace(before, LanguageOf, j.id, j); }
      assert byState == Inverse(byId, StateOf, Always) by { InverseAdd(before, StateOf, Always, j.id, j); }
      return None;
    }

    /** Moves a job along the lifecycle graph and applies a mutation to it.  The mutation must
        keep the identity fields; if it also changes the state, the state index is off. */
    method Transition(id: string, to: State, mutate: Job -> Job) returns (from: State, err: Option<Error>)
      requires Valid()
      requires forall j :: SameIdentity(mutate(j), j)
      modifies this
      ensures err == if id !in old(byId) then Some(JobNotFound)
                     else if !CanTransition(old(byId)[id].state, to) then Some(IllegalTransition) else None
      ensures id in old(byId) ==> from == old(byId)[id].state
      ensures byId == if err.None?
                      then old(byId)[id := mutate(Moved(old(byId)[id], to))]
                      else old(byId)
      ensures Valid() <==> err.Some? || byId[id].state == to
    {
      if id !in byId {
        return Pending, Some(JobNotFound);
      }
      var j := byId[id];
      if !CanTransition(j.state, to) {
        return j.state, Some(IllegalTransition);
      }
      var moved := mutate(Moved(j, to));
      assert SameIdentity(moved, Moved(j, to));
      ghost var before := byId;
      byId := byId[id := moved];
      byState := IndexRemove(byState, j.state, id);
      byState := IndexAdd(byState, to, id);
      assert byUser == Inverse(byId, UserOf, NonEmpty) by { InverseKeep(before, UserOf, NonEmpty, id, moved); }
      assert byRoom == Inverse(byId, RoomOf, NonEmpty) by { InverseKeep(before, RoomOf, NonEmpty, id, moved); }
      assert bySession == Inverse(byId, SessionOf, NonEmpty) by { InverseKeep(before, SessionOf, NonEmpty, id, moved); }
      assert byLang == Inverse(byId, LanguageOf, NonEmpty) by { InverseKeep(before, LanguageOf, NonEmpty, id, moved); }
      assert byState == Inverse(byId, StateOf, Always) <==> moved.state == to by {
        StateIndexExact(before, id, moved, to);
      }
      return j.state, None;
    }

    /** Applies a mutation that may not change the state: a state it sets is put back. */
    method Update(id: string, mutate: Job -> Job) returns (err: Option<Error>)
      requires Valid()
      requires forall j :: SameIdentity(mutate(j), j)
      modifies this
      ensures Valid()
      ensures err == if id in old(byId) then None else Some(JobNotFound)
      ensures byId == if err.None? then old(byId)[id := mutate(old(byId)[id]).(state := old(byId)[id].state)]
                else old(byId)
    {
      if id !in byId {
        return Some(JobNotFound);
      }
      var j := byId[id];
      var changed := mutate(j);
      if changed.state != j.state {
        changed := changed.(state := j.state);
      }
      assert SameIdentity(mutate(j), j);
      ghost var before := byId;
      byId := byId[id := changed];
      assert byUser == Inverse(byId, UserOf, NonEmpty) by { InverseKeep(before, UserOf, NonEmpty, id, changed); }
      assert byRoom == Inverse(byId, RoomOf, NonEmpty) by { InverseKeep(before, RoomOf, NonEmpty, id, changed); }
      assert bySession == Inverse(byId, SessionOf, NonEmpty) by {
        InverseKeep(before, SessionOf, NonEmpty, id, changed);
      }
      assert byLang == Inverse(byId, LanguageOf, NonEmpty) by {
        InverseKeep(before, LanguageOf, NonEmpty, id, changed);
      }
      assert byState == Inverse(byId, StateOf, Always) by { InverseKeep(before, StateOf, Always, id, changed); }
      return None;
    }

    method Remove(id: string) returns (r: Option<Job>)
      requires Valid()
      modifies this
      ensures Valid()
      ensures r == if id in old(byId) then Some(old(byId)[id]) else None
      ensures byId == old(byId) - {id}
    {
      if id !in byId {
        assert byId - {id} == byId;
        return None;
      }
      var j := byId[id];
      ghost var before := byId;
      byId := byId - {id};
      byUser := Displace(byUser, j.userId, id);
      byRoom := Displace(byRoom, j.roomId, id);
      bySession := Displace(bySession, j.sessionId, id);
      byLang := Displace(byLang, j.language, id);
      byState := IndexRemove(byState, j.state, id);
      assert byUser == Inverse(byId, UserOf, NonEmpty) by { InverseDisplace(before, UserOf, id); }
      assert byRoom == Inverse(byId, RoomOf, NonEmpty) by { InverseDisplace(before, RoomOf, id); }
      assert bySession == Inverse(byId, SessionOf, NonEmpty) by { InverseDisplace(before, SessionOf, id); }
      assert byLang == Inverse(byId, LanguageOf, NonEmpty) by { InverseDisplace(before, LanguageOf, id); }
      assert byState == Inverse(byId, StateOf, Always) by { InverseRemove(before, StateOf, Always, id); }
      return Some(j);
    }

    /** Snapshots of the given jobs, in any order. */
    method Snapshots(ids: set<string>) returns (r: seq<Job>)
      requires ids <= byId.Keys
      requires forall id :: id in byId ==> byId[id].id == id
      ensures Lists(r, ids, byId)
    {
      r := [];
      var todo := ids;
      while todo != {}
        invariant todo <= ids && Lists(r, ids - todo, byId)
        decreases todo
      {
        var id :| id in todo;
        todo := todo - {id};
        r := r + [byId[id]];
      }
      assert ids - todo == ids;
    }

    /** The jobs filed under a key of one of the string indexes: exactly those whose
        field has that value, and none for the empty key. */
    method ByIndex(idx: Index<string>, ghost f: Job -> string, key: string) returns (r: seq<Job>)
      requires Valid() && idx == Inverse(byId, f, NonEmpty)
      ensures Lists(r, if key == "" then {} else WithKey(byId, f, key), byId)
    {
      InverseBucket(byId, f, NonEmpty, key);
      r := Snapshots(Bucket(idx, key));
    }

    method ByState(s: State) returns (r: seq<Job>)
      requires Valid()
      ensures Lists(r, WithKey(byId, StateOf, s), byId)
    {
      InverseBucket(byId, StateOf, Always, s);
      r := Snapshots(Bucket(byState, s));
    }

    /** The jobs of one bucket that are due for archival at the cutoff. */
    method DueIn(s: State, cutoff: int) returns (r: seq<Job>)
      requires Valid()
      ensures Lists(r, DueAmong(byId, cutoff, [s]), byId)
    {
      InverseBucket(byId, StateOf, Always, s);
      r := [];
      var bucket := Bucket(byState, s);
      var todo := bucket;
      while todo != {}
        invariant todo <= bucket
        invariant Lists(r, DueAmong(byId, cutoff, [s]) - todo, byId)
        decreases todo
      {
        var id :| id in todo;
        todo := todo - {id};
        if !(Reference(byId[id]) > cutoff) {
          r := r + [byId[id]];
        }
      }
    }

    method FinishedBefore(cutoff: int) returns (r: seq<Job>)
      requires Valid()
      ensures Lists(r, Due(byId, cutoff), byId)
    {
      r := [];
      var states := [Completed, Failed, TimedOut, Cancelled];
      for n := 0 to |states|
        invariant Lists(r, DueAmong(byId, cutoff, states[..n]), byId)
      {
        var more := DueIn(states[n], cutoff);
        DueAmongNext(byId, cutoff, states, n);
        r := r + more;
      }
      assert states[..|states|] == states;
      DueAmongAll(byId, cutoff);
    }

    /** Counts by state; the active and the finished jobs make up the whole registry. */
    method GetStats() returns (s: Stats)
      requires Valid()
      ensures s.total == |byId| == s.active + s.finished
      ensures s.finished == |set id | id in byId && IsFinished(byId[id].state)|
      ensures s.byState.Keys == KeysOf(byId, StateOf)
      ensures forall k :: k in s.byState ==> s.byState[k] == |WithKey(byId, StateOf, k)| > 0
    {
      forall k | k in byState
        ensures byState[k] == WithKey(byId, StateOf, k) != {}
      {
        InverseBucket(byId, StateOf, Always, k);
      }
      var counts, active, finished := CountStates(byState, byId);
      CountedAll(byId);
      s := Stats(|byId|, counts, active, finished);
    }
  }

  method CountStates(idx: Index<State>, ghost jobs: Jobs) returns (counts: map<State, nat>, active: nat, finished: nat)
    requires forall k :: k in idx ==> idx[k] == WithKey(jobs, StateOf, k)
    ensures counts.Keys == idx.Keys && forall k :: k in counts ==> counts[k] == |idx[k]|
    ensures finished == |Counted(jobs, idx.Keys, true)| && active == |Counted(jobs, idx.Keys, false)|
  {
    var todo := idx.Keys;
    counts, active, finished := map[], 0, 0;
    while todo != {}
      invariant todo <= idx.Keys && counts.Keys == idx.Keys - todo
      invariant forall k :: k in counts ==> counts[k] == |idx[k]|
      invariant finished == |Counted(jobs, idx.Keys - todo, true)| && active == |Counted(jobs, idx.Keys - todo, false)|
      decreases todo
    {
      var k :| k in todo;
      var n := |idx[k]|;
      CountedGrows(jobs, idx.Keys - todo, k, true);
      CountedGrows(jobs, idx.Keys - todo, k, false);
      assert idx.Keys - (todo - {k}) == idx.Keys - todo + {k};
      counts := counts[k := n];
      if IsFinished(k) {
        finished := finished + n;
      } else {
        active := active + n;
      }
      todo := todo - {k};
    }
    assert idx.Keys - todo == idx.Keys;
  }
}
