/** The life of one job under the orchestrator: every interleaving of lifecycle marks,
    cancellations, archivals and retries. A retry reads a snapshot and checks it first,
    and moves the job in a later step, so several may have passed the check at once. */
module JobLifecycle {
  import opened Jobs

  type Time = t: int | 0 < t witness 1

  /** One registry transition, as the orchestrator issues it. */
  datatype Mark =
    | Validate | Enqueue(now: Time) | Dispatch(worker: string) | Start(now: Time) | Stream
    | Complete(now: Time) | Fail(now: Time) | TimeOut(now: Time) | Cancel(now: Time) | Reenter | Archive

  function Target(m: Mark): State {
    match m
    case Validate => Validated
    case Enqueue(_) => Queued
    case Dispatch(_) => Dispatched
    case Start(_) => Running
    case Stream => Streaming
    case Complete(_) => Completed
    case Fail(_) => Failed
    case TimeOut(_) => TimedOut
    case Cancel(_) => Cancelled
    case Reenter => Retrying
    case Archive => Archived
  }

  /** The mutation that goes with a mark. */
  function Mutate(m: Mark, j: Job): Job {
    match m
    case Validate => j
    case Enqueue(now) => j.(scheduledAt := now)
    case Dispatch(worker) => j.(workerId := worker)
    case Start(now) => j.(startedAt := now)
    case Stream => j
    case Complete(now) => j.(outcome := Success, completedAt := now)
    case Fail(now) => j.(outcome := Failure, completedAt := now)
    case TimeOut(now) => j.(outcome := Timeout, completedAt := now)
    case Cancel(now) => j.(outcome := Cancellation, completedAt := now, cancelRequested := true)
    case Reenter => j.(retryCount := j.retryCount + 1, outcome := NoOutcome, startedAt := 0, completedAt := 0)
    case Archive => j
  }

  /** An illegal mark is refused and changes nothing. */
  function Apply(j: Job, m: Mark): Job {
    if CanTransition(j.state, Target(m)) then Mutate(m, Moved(j, Target(m))) else j
  }

  // ---- The protocol ----

  /** `cleared` are the retry calls that passed their check and have not moved the job yet. */
  datatype World = World(job: Job, cleared: set<nat>)

  datatype Step = Marked(mark: Mark) | Check(call: nat) | Move(call: nat)

  /** What Retry checks on its snapshot. */
  predicate Retryable(j: Job) {
    CanRetry(j.state) && j.retryCount < j.maxRetries
  }

  function Next(w: World, s: Step): World {
    match s
    case Marked(m) => w.(job := Apply(w.job, m))
    case Check(c) => if Retryable(w.job) then w.(cleared := w.cleared + {c}) else w
    case Move(c) => if c in w.cleared then World(Apply(w.job, Reenter), w.cleared - {c}) else w
  }

  function Run(w: World, steps: seq<Step>): World
    decreases steps
  {
    if steps == [] then w else Run(Next(w, steps[0]), steps[1..])
  }

  /** Only a retry re-enters a job, and at most `width` retries of it are under way at once. */
  predicate Allowed(width: nat, w: World, s: Step) {
    match s
    case Marked(m) => m != Reenter
    case Check(c) => c !in w.cleared && |w.cleared| < width
    case Move(c) => true
  }

  predicate AllowedRun(width: nat, w: World, steps: seq<Step>)
    decreases steps
  {
    steps == [] || (Allowed(width, w, steps[0]) && AllowedRun(width, Next(w, steps[0]), steps[1..]))
  }

  predicate Created(j: Job) {
    j.state == Pending && j.outcome == NoOutcome && j.retryCount == 0 && j.transitions == 0 && j.completedAt == 0
  }

  // ---- What every run keeps ----

  function Rank(s: State): nat {
    match s
    case Pending => 0
    case Validated | Retrying => 1
    case Queued => 2
    case Dispatched => 3
    case Running => 4
    case Streaming => 5
    case Completed | Failed | TimedOut | Cancelled => 6
    case Archived => 7
  }

  predicate Sound(j: Job) {
    && (j.state != Archived ==> j.outcome == OutcomeFor(j.state))
    && (IsFinished(j.state) <==> j.outcome != NoOutcome)
    && (IsFinished(j.state) <==> j.completedAt != 0)
    && j.transitions <= 6 * j.retryCount + Rank(j.state)
  }

  lemma {:induction false} ApplySound(j: Job, m: Mark)
    requires Sound(j)
    ensures Sound(Apply(j, m))
  {
  }

  /** Whatever interleaves, a job's outcome and completion time follow its state and its
      history is bounded by its retries. */
  lemma {:induction false} HistoryBounded(w: World, steps: seq<Step>)
    requires Sound(w.job)
    ensures Sound(Run(w, steps).job)
    ensures Run(w, steps).job.transitions <= 6 * (Run(w, steps).job.retryCount + 1) + 1
    decreases steps
  {
    if steps != [] {
      match steps[0] {
        case Marked(m) => ApplySound(w.job, m);
        case Check(_) =>
        case Move(_) => ApplySound(w.job, Reenter);
      }
      HistoryBounded(Next(w, steps[0]), steps[1..]);
    }
  }

  function Ceiling(j: Job): nat {
    if j.maxRetries > 0 then j.maxRetries else 0
  }

  /** Each retry under way may still add one to the count. */
  predicate Retries(width: nat, w: World) {
    && (w.cleared == {} || w.job.maxRetries > 0)
    && |w.cleared| <= width
    && w.job.retryCount + |w.cleared| <= Ceiling(w.job) + (if width > 0 && w.job.maxRetries > 0 then width - 1 else 0)
  }

  lemma {:induction false} RetriesStep(width: nat, w: World, s: Step)
    requires Retries(width, w) && Allowed(width, w, s)
    ensures Retries(width, Next(w, s)) && Next(w, s).job.maxRetries == w.job.maxRetries
  {
    match s {
      case Marked(m) => RetryCounts(w.job, m);
      case Check(c) =>
      case Move(c) => RetryCounts(w.job, Reenter);
    }
  }

  lemma {:induction false} RetryCounts(j: Job, m: Mark)
    ensures Apply(j, m).maxRetries == j.maxRetries
    ensures m != Reenter ==> Apply(j, m).retryCount == j.retryCount
    ensures Apply(j, m).retryCount <= j.retryCount + 1
  {
  }

  /** With at most `width` retries of a job under way at once, the count passes the limit
      by less than `width`. */
  lemma {:induction false} RetriesBounded(width: nat, w: World, steps: seq<Step>)
    requires Retries(width, w) && AllowedRun(width, w, steps)
    ensures Retries(width, Run(w, steps)) && Run(w, steps).job.maxRetries == w.job.maxRetries
    decreases steps
  {
    if steps != [] {
      RetriesStep(width, w, steps[0]);
      RetriesBounded(width, Next(w, steps[0]), steps[1..]);
    }
  }

  // ---- Both bounds are reached ----

  ghost predicate Reaches(width: nat, w: World, w': World) {
    exists steps: seq<Step> :: AllowedRun(width, w, steps) && Run(w, steps) == w'
  }

  lemma {:induction false} RunConcat(width: nat, w: World, a: seq<Step>, b: seq<Step>)
    requires AllowedRun(width, w, a) && AllowedRun(width, Run(w, a), b)
    ensures AllowedRun(width, w, a + b) && Run(w, a + b) == Run(Run(w, a), b)
    decreases a
  {
    if a == [] {
      assert a + b == b;
    } else {
      RunConcat(width, Next(w, a[0]), a[1..], b);
      assert (a + b)[1..] == a[1..] + b;
    }
  }

  lemma {:induction false} Stay(width: nat, w: World)
    ensures Reaches(width, w, w)
  {
    assert AllowedRun(width, w, []) && Run(w, []) == w;
  }

  lemma {:induction false} Then(width: nat, w: World, w1: World, s: Step)
    requires Reaches(width, w, w1) && Allowed(width, w1, s)
    ensures Reaches(width, w, Next(w1, s))
  {
    var a :| AllowedRun(width, w, a) && Run(w, a) == w1;
    assert Run(w1, [s]) == Next(w1, s) && AllowedRun(width, w1, [s]) by {
      assert [s][1..] == [];
    }
    RunConcat(width, w, a, [s]);
  }

  /** From Retrying or Validated, the longest way to a failure. */
  lemma {:induction false} Attempt(width: nat, w: World, w1: World)
    requires Reaches(width, w, w1) && w1.job.state in {Retrying, Validated}
    ensures Reaches(width, w, Failing(w1))
  {
    Then(width, w, w1, Marked(Enqueue(1)));
    var w2 := Next(w1, Marked(Enqueue(1)));
    Then(width, w, w2, Marked(Dispatch("")));
    var w3 := Next(w2, Marked(Dispatch("")));
    Then(width, w, w3, Marked(Start(1)));
    var w4 := Next(w3, Marked(Start(1)));
    Then(width, w, w4, Marked(Stream));
    var w5 := Next(w4, Marked(Stream));
    Then(width, w, w5, Marked(Fail(1)));
    assert Next(w5, Marked(Fail(1))) == Failing(w1);
  }

  function Failing(w: World): World {
    w.(job := w.job.(state := Failed, transitions := w.job.transitions + 5, scheduledAt := 1, workerId := "",
                     startedAt := 1, outcome := Failure, completedAt := 1))
  }

  /** A job that failed after `n` retries, by the longest way. */
  predicate FailedAfter(w0: World, n: nat, w: World) {
    w.job.state == Failed && w.job.retryCount == n && w.job.transitions == 6 * (n + 1)
    && w.job.maxRetries == w0.job.maxRetries
  }

  lemma {:induction false} Retried(width: nat, w0: World, w: World, n: nat, call: nat)
    requires Reaches(width, w0, w) && FailedAfter(w0, n, w) && call in w.cleared
    ensures exists w' :: Reaches(width, w0, w') && FailedAfter(w0, n + 1, w') && w'.cleared == w.cleared - {call}
  {
    Then(width, w0, w, Move(call));
    var w1 := Next(w, Move(call));
    Attempt(width, w0, w1);
    assert FailedAfter(w0, n + 1, Failing(w1)) && Failing(w1).cleared == w.cleared - {call};
  }

  /** Retries one after another use up the limit. */
  lemma {:induction false} Sequential(width: nat, w0: World, n: nat) returns (w: World)
    requires width > 0 && Created(w0.job) && w0.cleared == {} && n <= Ceiling(w0.job)
    ensures Reaches(width, w0, w) && FailedAfter(w0, n, w) && w.cleared == {}
  {
    if n == 0 {
      Stay(width, w0);
      Then(width, w0, w0, Marked(Validate));
      Attempt(width, w0, Next(w0, Marked(Validate)));
      w := Failing(Next(w0, Marked(Validate)));
    } else {
      var v := Sequential(width, w0, n - 1);
      Then(width, w0, v, Check(0));
      Retried(width, w0, Next(v, Check(0)), n - 1, 0);
      w :| Reaches(width, w0, w) && FailedAfter(w0, n, w) && w.cleared == {0} - {0};
    }
  }

  function Calls(k: nat): (s: set<nat>)
    ensures |s| == k && forall c: nat :: c in s <==> c < k
  {
    if k == 0 then {} else Calls(k - 1) + {k - 1}
  }

  lemma {:induction false} CheckMany(width: nat, w0: World, w: World, k: nat)
    requires Reaches(width, w0, w) && w.cleared == {} && Retryable(w.job) && k <= width
    ensures Reaches(width, w0, w.(cleared := Calls(k)))
  {
    if k == 0 {
      assert w.(cleared := Calls(0)) == w;
    } else {
      CheckMany(width, w0, w, k - 1);
      Then(width, w0, w.(cleared := Calls(k - 1)), Check(k - 1));
    }
  }

  lemma {:induction false} MoveMany(width: nat, w0: World, w: World, n: nat, k: nat)
    requires Reaches(width, w0, w) && FailedAfter(w0, n, w) && w.cleared == Calls(k)
    ensures exists w' :: Reaches(width, w0, w') && FailedAfter(w0, n + k, w')
    decreases k
  {
    if k > 0 {
      Retried(width, w0, w, n, k - 1);
      var v :| Reaches(width, w0, v) && FailedAfter(w0, n + 1, v) && v.cleared == Calls(k) - {k - 1};
      assert v.cleared == Calls(k - 1);
      MoveMany(width, w0, v, n + 1, k - 1);
    }
  }

  /** The history bound is tight: every number of retries within the limit has a run that
      ends archived with 6 * (n + 1) + 1 transitions, one retry at a time. */
  lemma {:induction false} HistoryTight(w0: World, n: nat) returns (w: World)
    requires Created(w0.job) && w0.cleared == {} && n <= Ceiling(w0.job)
    ensures Reaches(1, w0, w) && w.job.state == Archived && w.job.retryCount == n
    ensures w.job.transitions == 6 * (n + 1) + 1
  {
    var v := Sequential(1, w0, n);
    Then(1, w0, v, Marked(Archive));
    w := Next(v, Marked(Archive));
  }

  /** The retry bound is tight: `width` calls that read the same snapshot all go through. */
  lemma {:induction false} OverlappingRetries(width: nat, w0: World) returns (w: World)
    requires width > 0 && Created(w0.job) && w0.cleared == {} && w0.job.maxRetries > 0
    ensures Reaches(width, w0, w) && w.job.retryCount == w0.job.maxRetries + width - 1
  {
    var n := w0.job.maxRetries - 1;
    var v := Sequential(width, w0, n);
    CheckMany(width, w0, v, width);
    MoveMany(width, w0, v.(cleared := Calls(width)), n, width);
    w :| Reaches(width, w0, w) && FailedAfter(w0, n + width, w);
  }

  /** The limit holds in every run exactly when retries of a job do not overlap, or none
      is ever allowed. */
  lemma {:induction false} RetryLimitExact(width: nat, w0: World)
    requires Created(w0.job) && w0.cleared == {}
    ensures (forall w :: Reaches(width, w0, w) ==> w.job.retryCount <= Ceiling(w0.job))
       <==> (width <= 1 || w0.job.maxRetries <= 0)
  {
    if width <= 1 || w0.job.maxRetries <= 0 {
      forall w | Reaches(width, w0, w)
        ensures w.job.retryCount <= Ceiling(w0.job)
      {
        var steps :| AllowedRun(width, w0, steps) && Run(w0, steps) == w;
        RetriesBounded(width, w0, steps);
      }
    } else {
      var w := OverlappingRetries(width, w0);
      assert Reaches(width, w0, w) && w.job.retryCount > Ceiling(w0.job);
    }
  }
}
