/** The run's tables of jobs, dependencies and attempts, and what one event does to them. */
module RunTables {
  import opened Prelude
  import opened JobStates

  datatype JobRow = JobRow(
    kind: JobKind, state: JobState, terminal: bool, blocker: Option<string>, attemptCount: U32,
    executionRetries: nat, resourceRequeues: nat)

  datatype Attempt = Attempt(job: string, number: nat, state: JobState, open: bool)

  type Jobs = map<string, JobRow>
  type Dependencies = set<(string, string)>

  datatype Tables = Tables(jobs: Jobs, dependencies: Dependencies, attempts: seq<Attempt>)

  // ----- one event -----

  predicate IsFailure(
      e: JobEvent) { e.FailedExecution? || e.FailedVerification? || e.ExceededResources? || e.WasInterrupted? }

  /** The recorded blocker: set by blocking, cleared by a failure or by becoming ready. */
  function BlockerAfter(before: Option<string>, e: JobEvent): Option<string> {
    if e.DependencyBlocked? then Some(e.predecessor)
    else if IsFailure(e) || e.DependenciesSatisfied? then None
    else before
  }

  function MovedRow(r: JobRow, next: JobState, e: JobEvent, count: Option<U32>): JobRow {
    r.(state := next, blocker := BlockerAfter(r.blocker, e), attemptCount := if count.Some? then count.value
      else r.attemptCount)
  }

  /** A job that stops being active takes its open attempts with it. */
  function MovedAttempt(a: Attempt, job: string, attempt: Option<nat>, next: JobState): Attempt {
    if a.job != job then a
    else if !IsActive(next) then (if a.open then a.(state := next, open := false) else a)
    else if attempt == Some(a.number) then a.(state := next)
    else a
  }

  function MovedAttempts(attempts: seq<Attempt>, job: string, attempt: Option<nat>, next: JobState): (r: seq<Attempt>)
    ensures |r| == |attempts| && forall k :: 0 <= k < |r| ==> r[k] == MovedAttempt(attempts[k], job, attempt, next)
  {
    seq(|attempts|, k requires 0 <= k < |attempts| => MovedAttempt(attempts[k], job, attempt, next))
  }

  /** Moves one job; nothing when it is unknown or the event does not apply. */
  function ApplyEvent(t: Tables, job: string, attempt: Option<nat>, e: JobEvent, count: Option<U32>): Option<Tables> {
    if job !in t.jobs then None
    else
      match Transition(t.jobs[job].state, e)
      case None => None
      case Some(next) =>
        Some(t.(
          jobs := t.jobs[job := MovedRow(t.jobs[job], next, e, count)],
          attempts := MovedAttempts(t.attempts, job, attempt, next)))
  }

  // ----- what every run keeps -----

  ghost predicate WellFormed(t: Tables) {
    && (forall d :: d in t.dependencies ==> d.0 in t.jobs && d.1 in t.jobs && d.0 != d.1)
    && Numbered(t.jobs, t.attempts)
  }

  /** A job's attempts are numbered in the order they began, and its row holds the last number given. */
  ghost predicate Numbered(jobs: Jobs, attempts: seq<Attempt>) {
    && (forall i :: 0 <= i < |attempts| ==>
      attempts[i].job in jobs && attempts[i].number <= jobs[attempts[i].job].attemptCount)
    && (forall i, j :: 0 <= i < j < |attempts| && attempts[i].job == attempts[j].job ==>
      attempts[i].number < attempts[j].number)
  }

  /** A job has at most one open attempt, and has one exactly while it is active. */
  ghost predicate AttemptsMatch(jobs: Jobs, attempts: seq<Attempt>) {
    && (forall i, j :: 0 <= i < j < |attempts| && attempts[i].open && attempts[j].open ==>
      attempts[i].job != attempts[j].job)
    && (forall i :: 0 <= i < |attempts| && attempts[i].open ==>
      attempts[i].job in jobs && IsActive(jobs[attempts[i].job].state))
    && (forall job :: job in jobs && IsActive(jobs[job].state) ==> HasOpen(attempts, job))
  }

  ghost predicate HasOpen(attempts: seq<Attempt>, job: string) {
    exists i :: 0 <= i < |attempts| && attempts[i].open && attempts[i].job == job
  }

  /** Nothing will run this job again. */
  predicate Dead(r: JobRow) { r.terminal || r.state.VerificationFailed? || r.state.Blocked? }

  predicate RootFailure(r: JobRow) { Dead(r) && !r.state.Blocked? }

  /** Only jobs still waiting, or given up, have a predecessor that is not verified. */
  ghost predicate Gated(t: Tables) {
    forall d :: d in t.dependencies && d.0 in t.jobs && d.1 in t.jobs ==>
      IsWaiting(t.jobs[d.1].state) || t.jobs[d.1].state.Blocked? || t.jobs[d.0].state.Verified?
  }

  ghost predicate FailuresPropagated(t: Tables) {
    forall d :: d in t.dependencies && d.0 in t.jobs && d.1 in t.jobs ==> Dead(t.jobs[d.0]) ==>
      t.jobs[d.1].state.Blocked?
  }

  /** Consecutive entries depend on each other. */
  ghost predicate Chain(dependencies: Dependencies, path: seq<string>) {
    forall k, l :: 0 <= k < l < |path| && l == k + 1 ==> (path[k], path[l]) in dependencies
  }

  ghost predicate FailedAncestor(t: Tables, job: string) {
    exists path :: |path| > 1 && Chain(t.dependencies, path) && path[|path| - 1] == job && path[0] in t.jobs
      && RootFailure(t.jobs[path[0]])
  }

  /** Every blocked job names a dead direct predecessor and descends from a job that failed itself. */
  ghost predicate BlockedForReason(t: Tables) {
    forall job :: job in t.jobs && t.jobs[job].state.Blocked? ==> HasReason(t, job)
  }

  ghost predicate HasReason(t: Tables, job: string)
    requires job in t.jobs
  {
    var blocker := t.jobs[job].blocker;
    && blocker.Some? && (blocker.value, job) in t.dependencies && blocker.value in t.jobs && Dead(t.jobs[blocker.value])
    && FailedAncestor(t, job)
  }

  const EXECUTION_RETRY_LIMIT: nat := 2
  const RESOURCE_REQUEUE_LIMIT: nat := 3

  ghost predicate RowOk(r: JobRow) {
    && r.executionRetries <= EXECUTION_RETRY_LIMIT && r.resourceRequeues <= RESOURCE_REQUEUE_LIMIT
    && (r.terminal ==>
      r.state.ExecutionFailed? || r.state.ResourceExceeded? || r.state.VerificationFailed? || r.state.Blocked?)
  }

  ghost predicate RowsOk(jobs: Jobs) { forall job :: job in jobs ==> RowOk(jobs[job]) }

  ghost predicate Inv(t: Tables) {
    && WellFormed(t) && AttemptsMatch(t.jobs, t.attempts) && RowsOk(t.jobs)
    && Gated(t) && FailuresPropagated(t) && BlockedForReason(t)
  }

  // ----- what the invariant means -----

  /** A job is blocked exactly when some job it depends on, directly or not, failed for good. */
  lemma {:induction false} BlockedExactly(t: Tables, job: string)
    requires Inv(t) && job in t.jobs
    ensures t.jobs[job].state.Blocked? <==> FailedAncestor(t, job)
  {
    if t.jobs[job].state.Blocked? {
      assert HasReason(t, job);
    }
    if FailedAncestor(t, job) {
      var path :| |path| > 1 && Chain(t.dependencies, path) && path[|path| - 1] == job && path[0] in t.jobs
        && RootFailure(t.jobs[path[0]]);
      DeathSpreads(t, path, |path| - 1);
    }
  }

  lemma {:induction false} DeathSpreads(t: Tables, path: seq<string>, k: nat)
    requires WellFormed(t) && FailuresPropagated(t) && Chain(t.dependencies, path) && k < |path|
    requires path[0] in t.jobs && Dead(t.jobs[path[0]])
    ensures path[k] in t.jobs && Dead(t.jobs[path[k]]) && (k > 0 ==> t.jobs[path[k]].state.Blocked?)
  {
    if k > 0 {
      DeathSpreads(t, path, k - 1);
      assert (path[k - 1], path[k]) in t.dependencies;
    }
  }

  /** A job that is ready, active, or past that has only verified predecessors, however far back. */
  lemma {:induction false} AncestorsVerified(t: Tables, path: seq<string>, k: nat)
    requires Inv(t) && Chain(t.dependencies, path) && |path| > 0 && k < |path| - 1 && path[|path| - 1] in t.jobs
    requires var s := t.jobs[path[|path| - 1]].state; !IsWaiting(s) && !s.Blocked?
    ensures path[k] in t.jobs && t.jobs[path[k]].state.Verified?
    decreases |path| - k
  {
    assert (path[k], path[k + 1]) in t.dependencies;
    if k + 1 < |path| - 1 {
      AncestorsVerified(t, path, k + 1);
    }
  }
}
