/** Moving one job keeps what the run's tables promise. */
module RunSteps {
  import opened Prelude
  import opened JobStates
  import opened RunTables
  import opened FailurePropagation

  ghost predicate PredecessorsVerified(t: Tables, job: string) {
    forall d :: d in t.dependencies && d.1 == job && d.0 in t.jobs ==> t.jobs[d.0].state.Verified?
  }

  /** Only one job's row has changed, and the attempts with it. */
  ghost predicate OneRow(t: Tables, job: string, row: JobRow, after: Tables) {
    && job in t.jobs && after == Tables(t.jobs[job := row], t.dependencies, after.attempts)
    && Numbered(after.jobs, after.attempts) && AttemptsMatch(after.jobs, after.attempts)
  }

  /**
   * A job that has not failed and is not verified may move on, out of the waiting states only once its predecessors are
   * verified.
   */
  lemma {:induction false} MoveKeeps(t: Tables, job: string, row: JobRow, after: Tables)
    requires Inv(t) && OneRow(t, job, row, after) && RowOk(row)
    requires !Dead(t.jobs[job]) && !t.jobs[job].state.Verified? && !Dead(row)
    requires IsWaiting(row.state) || PredecessorsVerified(t, job)
    ensures Inv(after)
  {
    MoveExplains(t, job, row, after);
  }

  lemma {:induction false} MoveExplains(t: Tables, job: string, row: JobRow, after: Tables)
    requires Inv(t) && OneRow(t, job, row, after) && !Dead(t.jobs[job]) && !row.state.Blocked?
    ensures BlockedForReason(after)
  {
    forall other | other in after.jobs && after.jobs[other].state.Blocked? ensures HasReason(after, other) {
      assert HasReason(t, other);
      AncestorKept(t, after, other);
    }
  }

  /** A job that fails for good leaves everything in order but its successors. */
  lemma {:induction false} FailKeeps(t: Tables, job: string, row: JobRow, after: Tables)
    requires Inv(t) && OneRow(t, job, row, after) && RowOk(row)
    requires !Dead(t.jobs[job]) && !t.jobs[job].state.Verified? && !IsWaiting(t.jobs[job].state)
    requires RootFailure(row) && !IsWaiting(row.state) && !row.state.Verified?
    ensures InvExcept(after, job)
  {
    MoveExplains(t, job, row, after);
  }

  /** Past waiting means past the gate. */
  lemma {:induction false} StartedIsGated(t: Tables, job: string)
    requires Inv(t) && job in t.jobs && !IsWaiting(t.jobs[job].state) && !t.jobs[job].state.Blocked?
    ensures PredecessorsVerified(t, job)
  {
  }

  // ----- attempts -----

  lemma {:induction false} ClosingNumbers(
      jobs: Jobs, attempts: seq<Attempt>, job: string, row: JobRow, moved: seq<Attempt>)
    requires Numbered(jobs, attempts) && job in jobs && row.attemptCount == jobs[job].attemptCount
      && |moved| == |attempts|
    requires forall k :: 0 <= k < |moved| ==> moved[k].job == attempts[k].job && moved[k].number == attempts[k].number
    ensures Numbered(jobs[job := row], moved)
  {
  }

  lemma {:induction false} ClosingMatches(
      jobs: Jobs, attempts: seq<Attempt>, job: string, row: JobRow, attempt: Option<nat>)
    requires AttemptsMatch(jobs, attempts) && Numbered(jobs, attempts) && job in jobs && !IsActive(row.state)
    requires row.attemptCount == jobs[job].attemptCount
    ensures AttemptsMatch(jobs[job := row], MovedAttempts(attempts, job, attempt, row.state))
    ensures Numbered(jobs[job := row], MovedAttempts(attempts, job, attempt, row.state))
  {
    var moved, after := MovedAttempts(attempts, job, attempt, row.state), jobs[job := row];
    ClosingNumbers(jobs, attempts, job, row, moved);
    forall i | 0 <= i < |moved| && moved[i].open ensures moved[i] == attempts[i] && moved[i].job != job {}
    forall other | other in after && IsActive(after[other].state) ensures HasOpen(moved, other) {
      assert HasOpen(attempts, other);
      var i :| 0 <= i < |attempts| && attempts[i].open && attempts[i].job == other;
      assert moved[i] == attempts[i];
    }
  }

  lemma {:induction false} OpeningMatches(jobs: Jobs, attempts: seq<Attempt>, job: string, row: JobRow)
    requires AttemptsMatch(jobs, attempts) && Numbered(jobs, attempts) && job in jobs && !HasOpen(attempts, job)
      && IsActive(row.state)
    requires row.attemptCount == jobs[job].attemptCount + 1
    ensures AttemptsMatch(jobs[job := row], attempts + [Attempt(job, row.attemptCount, row.state, true)])
    ensures Numbered(jobs[job := row], attempts + [Attempt(job, row.attemptCount, row.state, true)])
  {
    var begun := attempts + [Attempt(job, row.attemptCount, row.state, true)];
    forall other | other in jobs[job := row] && IsActive(jobs[job := row][other].state) ensures HasOpen(begun, other) {
      if other == job {
        assert begun[|attempts|].open && begun[|attempts|].job == job;
      } else {
        assert HasOpen(attempts, other);
        var i :| 0 <= i < |attempts| && attempts[i].open && attempts[i].job == other;
        assert begun[i] == attempts[i];
      }
    }
  }

  /** An event that does not leave the job active, applied by itself. */
  lemma {:induction false} EventIsOneRow(t: Tables, job: string, attempt: Option<nat>, e: JobEvent)
    requires WellFormed(t) && AttemptsMatch(t.jobs, t.attempts) && ApplyEvent(t, job, attempt, e, None).Some?
      && !StartsAttempt(e)
    ensures var next := Transition(t.jobs[job].state, e).value;
      OneRow(t, job, MovedRow(t.jobs[job], next, e, None), ApplyEvent(t, job, attempt, e, None).value)
  {
    OnlyWays(t.jobs[job].state, e);
    var next := Transition(t.jobs[job].state, e).value;
    ClosingMatches(t.jobs, t.attempts, job, MovedRow(t.jobs[job], next, e, None), attempt);
  }

  /** Any event but blocking and a failed verification, applied to a job that may move, keeps the invariant. */
  lemma {:induction false} EventKeeps(t: Tables, job: string, attempt: Option<nat>, e: JobEvent)
    requires Inv(t) && ApplyEvent(t, job, attempt, e, None).Some? && !StartsAttempt(e) && !e.DependencyBlocked?
      && !e.FailedVerification?
    requires !t.jobs[job].terminal && (e.DependenciesSatisfied? ==> PredecessorsVerified(t, job))
    ensures Inv(ApplyEvent(t, job, attempt, e, None).value)
  {
    EventIsOneRow(t, job, attempt, e);
    OnlyWays(t.jobs[job].state, e);
    if !e.DependenciesSatisfied? { StartedIsGated(t, job); }
    assert RowOk(t.jobs[job]);
    MoveKeeps(t, job, MovedRow(t.jobs[job], Transition(t.jobs[job].state, e).value, e, None),
      ApplyEvent(t, job, attempt, e, None).value);
  }

  // ----- the operations -----

  /** The numbers of a job's open attempts. */
  function OpenNumbers(attempts: seq<Attempt>, job: string): seq<nat> {
    if |attempts| == 0 then []
    else
      var last := attempts[|attempts| - 1];
      OpenNumbers(attempts[..|attempts| - 1], job) + (if last.open && last.job == job then [last.number] else [])
  }

  function Latest(attempts: seq<Attempt>, job: string): Option<Attempt> {
    if |attempts| == 0 then None
    else if attempts[|attempts| - 1].job == job then Some(attempts[|attempts| - 1])
    else Latest(attempts[..|attempts| - 1], job)
  }

  lemma {:induction false} NoneOpen(attempts: seq<Attempt>, job: string)
    ensures OpenNumbers(attempts, job) == [] <==> !HasOpen(attempts, job)
    decreases |attempts|
  {
    if |attempts| > 0 {
      var n := |attempts| - 1;
      NoneOpen(attempts[..n], job);
      if HasOpen(attempts[..n], job) {
        var i :| 0 <= i < n && attempts[..n][i].open && attempts[..n][i].job == job;
        assert attempts[i].open && attempts[i].job == job;
      }
      if HasOpen(attempts, job) {
        var i :| 0 <= i < |attempts| && attempts[i].open && attempts[i].job == job;
        if i < n { assert attempts[..n][i].open && attempts[..n][i].job == job; }
      }
    }
  }

  lemma {:induction false} AtMostOneOpen(attempts: seq<Attempt>, job: string)
    requires forall i, j :: 0 <= i < j < |attempts| && attempts[i].open && attempts[j].open ==>
      attempts[i].job != attempts[j].job
    ensures |OpenNumbers(attempts, job)| <= 1
    decreases |attempts|
  {
    if |attempts| > 0 {
      var n := |attempts| - 1;
      AtMostOneOpen(attempts[..n], job);
      if attempts[n].open && attempts[n].job == job {
        NoneOpen(attempts[..n], job);
      }
    }
  }

  /** An attempt that is open means its job is active. */
  lemma {:induction false} OpenMeansActive(t: Tables, job: string, number: nat)
    requires Inv(t) && OpenNumbers(t.attempts, job) == [number]
    ensures job in t.jobs && IsActive(t.jobs[job].state)
  {
    NoneOpen(t.attempts, job);
    var i :| 0 <= i < |t.attempts| && t.attempts[i].open && t.attempts[i].job == job;
  }

  function BeginAttempt(t: Tables, job: string, e: JobEvent): Option<(Tables, nat)> {
    if !StartsAttempt(e) || job !in t.jobs || !StartMatchesKind(t.jobs[job].kind, e)
      || |OpenNumbers(t.attempts, job)| != 0 then None
    else if t.jobs[job].attemptCount == 0xffff_ffff then None
    else
      match Transition(t.jobs[job].state, e)
      case None => None
      case Some(next) =>
        var number := t.jobs[job].attemptCount + 1;
        match ApplyEvent(t.(attempts := t.attempts + [Attempt(job, number, next, true)]), job, Some(number), e,
          Some(number))
        case None => None
        case Some(after) => Some((after, number))
  }

  /** Beginning an attempt opens it and nothing else; only a job whose predecessors are verified can begin one. */
  lemma {:induction false} BeginKeeps(t: Tables, job: string, e: JobEvent)
    requires Inv(t) && BeginAttempt(t, job, e).Some?
    ensures Inv(BeginAttempt(t, job, e).value.0) && PredecessorsVerified(t, job)
    ensures BeginAttempt(t, job, e).value.0.attempts
      == t.attempts + [Attempt(job, t.jobs[job].attemptCount + 1, Transition(t.jobs[job].state, e).value, true)]
  {
    var after, number := BeginAttempt(t, job, e).value.0, BeginAttempt(t, job, e).value.1;
    var next := Transition(t.jobs[job].state, e).value;
    var row := MovedRow(t.jobs[job], next, e, Some(number));
    OnlyWays(t.jobs[job].state, e);
    NoneOpen(t.attempts, job);
    OpeningMatches(t.jobs, t.attempts, job, row);
    OpenedUntouched(t, job, number, next);
    assert RowOk(t.jobs[job]);
    StartedIsGated(t, job);
    MoveKeeps(t, job, row, after);
  }

  /** The event changes no attempt but the new one, which already has the new state. */
  lemma {:induction false} OpenedUntouched(t: Tables, job: string, number: nat, next: JobState)
    requires Numbered(t.jobs, t.attempts) && job in t.jobs && number == t.jobs[job].attemptCount + 1 && IsActive(next)
    ensures var begun := t.attempts + [Attempt(job, number, next, true)];
      MovedAttempts(begun, job, Some(number), next) == begun
  {
  }

  function AttemptEvent(t: Tables, job: string, number: nat, e: JobEvent): Option<Tables> {
    if !(e.WitnessCompleted? || e.PreparationCompleted? || e.ProofProduced? || e.WasInterrupted?) then None
    else if OpenNumbers(t.attempts, job) != [number] then None
    else ApplyEvent(t, job, Some(number), e, None)
  }

  lemma {:induction false} AttemptEventKeeps(t: Tables, job: string, number: nat, e: JobEvent)
    requires Inv(t) && AttemptEvent(t, job, number, e).Some?
    ensures Inv(AttemptEvent(t, job, number, e).value)
  {
    OpenMeansActive(t, job, number);
    assert RowOk(t.jobs[job]);
    EventKeeps(t, job, Some(number), e);
  }

  /**
   * A verification must name the open attempt of a verifying job, or the finished last attempt of one that awaits it.
   */
  predicate IsVerificationSource(t: Tables, job: string, number: nat) {
    && job in t.jobs
    && var row := t.jobs[job];
       if (row.kind.LeafVerification? || row.kind.NativeAggregate?) && row.state.Verifying?
         then OpenNumbers(t.attempts, job) == [number]
       else
         && ((row.kind.Witness? && row.state.WitnessReady?) || (row.kind.Prepare? && row.state.Prepared?)
           || (row.kind.LeafProof? && row.state.Proved?))
         && var latest := Latest(t.attempts, job);
            latest.Some? && !latest.value.open && latest.value.number == number && latest.value.state == row.state
  }

  /** Records the verification and moves the job to its final state. */
  function CompleteVerification(t: Tables, job: string, number: nat): Option<Tables> {
    if IsVerificationSource(t, job, number) then ApplyEvent(t, job, Some(number), VerificationSucceeded(true), None)
      else None
  }

  lemma {:induction false} CompleteKeeps(t: Tables, job: string, number: nat)
    requires Inv(t) && CompleteVerification(t, job, number).Some?
    ensures Inv(CompleteVerification(t, job, number).value)
      && CompleteVerification(t, job, number).value.jobs[job].state.Verified?
  {
    assert RowOk(t.jobs[job]);
    EventKeeps(t, job, Some(number), VerificationSucceeded(true));
  }

  // ----- failures -----

  function FailureEvent(kind: FailureKind): JobEvent {
    if kind.Resources? then ExceededResources(kind) else FailedExecution(kind)
  }

  function RetryEvent(kind: FailureKind): JobEvent { if kind.Resources? then RetryResourceExceeded else RetryExecution }

  function Retries(
      r: JobRow, kind: FailureKind): nat { if kind.Resources? then r.resourceRequeues else r.executionRetries }

  function RetryLimit(
      kind: FailureKind): nat { if kind.Resources? then RESOURCE_REQUEUE_LIMIT else EXECUTION_RETRY_LIMIT }

  function Counted(r: JobRow, kind: FailureKind): JobRow {
    if kind.Resources? then r.(resourceRequeues := r.resourceRequeues + 1)
      else r.(executionRetries := r.executionRetries + 1)
  }

  function Terminal(t: Tables, job: string): Tables
    requires job in t.jobs
  {
    t.(jobs := t.jobs[job := t.jobs[job].(terminal := true)])
  }

  /** The failed attempt's job, put back to wait with one more retry counted. */
  function Requeue(t: Tables, job: string, number: nat, kind: FailureKind): Option<Tables> {
    match ApplyEvent(t, job, Some(number), FailureEvent(kind), None)
    case None => None
    case Some(failed) =>
      ApplyEvent(failed.(jobs := failed.jobs[job := Counted(failed.jobs[job], kind)]), job, Some(number),
        RetryEvent(kind), None)
  }

  lemma {:induction false} CountKeeps(t: Tables, job: string, kind: FailureKind)
    requires Inv(t) && job in t.jobs && !Dead(t.jobs[job]) && !t.jobs[job].state.Verified?
      && !IsActive(t.jobs[job].state)
    requires !IsWaiting(t.jobs[job].state) && Retries(t.jobs[job], kind) < RetryLimit(kind)
    ensures Inv(t.(jobs := t.jobs[job := Counted(t.jobs[job], kind)]))
  {
    var after := t.(jobs := t.jobs[job := Counted(t.jobs[job], kind)]);
    StartedIsGated(t, job);
    assert RowOk(t.jobs[job]);
    assert AttemptsMatch(after.jobs, after.attempts) && Numbered(after.jobs, after.attempts);
    MoveKeeps(t, job, Counted(t.jobs[job], kind), after);
  }

  function FailedState(kind: FailureKind): JobState { if kind.Resources? then ResourceExceeded else ExecutionFailed }

  /** After a first event, one more retry counted and then the retry event. */
  lemma {:induction false} RetryKeeps(t: Tables, job: string, number: nat, kind: FailureKind)
    requires Inv(t) && (kind.Execution? || kind.Resources?) && job in t.jobs && t.jobs[job].state == FailedState(kind)
    requires !t.jobs[job].terminal && Retries(t.jobs[job], kind) < RetryLimit(kind)
    ensures var counted := t.(jobs := t.jobs[job := Counted(t.jobs[job], kind)]);
      var after := ApplyEvent(counted, job, Some(number), RetryEvent(kind), None); after.Some? && Inv(after.value)
  {
    CountKeeps(t, job, kind);
    EventKeeps(t.(jobs := t.jobs[job := Counted(t.jobs[job], kind)]), job, Some(number), RetryEvent(kind));
  }

  lemma {:induction false} FailureApplies(t: Tables, job: string, number: nat, kind: FailureKind)
    requires job in t.jobs && IsActive(t.jobs[job].state) && (kind.Execution? || kind.Resources?)
    ensures var failed := ApplyEvent(t, job, Some(number), FailureEvent(kind), None);
      failed.Some? && failed.value.jobs == t.jobs[job := t.jobs[job].(state := FailedState(kind), blocker := None)]
  {
  }

  lemma {:induction false} RequeueKeeps(t: Tables, job: string, number: nat, kind: FailureKind)
    requires Inv(t) && (kind.Execution? || kind.Resources?) && job in t.jobs && OpenNumbers(t.attempts, job) == [number]
    requires Retries(t.jobs[job], kind) < RetryLimit(kind)
    ensures Requeue(t, job, number, kind).Some? && Inv(Requeue(t, job, number, kind).value)
  {
    OpenMeansActive(t, job, number);
    assert RowOk(t.jobs[job]);
    EventKeeps(t, job, Some(number), FailureEvent(kind));
    FailureApplies(t, job, number, kind);
    RetryKeeps(ApplyEvent(t, job, Some(number), FailureEvent(kind), None).value, job, number, kind);
  }

  /** The row of a job put back to wait after a failure: one more retry of that kind, and of that kind only. */
  function RequeuedRow(r: JobRow, kind: FailureKind): JobRow {
    JobRow(r.kind, JobState.Requeued, r.terminal, None, r.attemptCount,
      if kind.Execution? then r.executionRetries + 1 else r.executionRetries,
      if kind.Resources? then r.resourceRequeues + 1 else r.resourceRequeues)
  }

  lemma {:induction false} RetryApplies(t: Tables, job: string, number: nat, kind: FailureKind)
    requires job in t.jobs && t.jobs[job].state == FailedState(kind) && (kind.Execution? || kind.Resources?)
    ensures var retried := ApplyEvent(t, job, Some(number), RetryEvent(kind), None);
      retried.Some? && retried.value.jobs == t.jobs[job := t.jobs[job].(state := JobState.Requeued)]
  {
  }

  /** Requeueing changes nothing but the failed attempt's job and attempts. */
  lemma {:induction false} RequeueExact(t: Tables, job: string, number: nat, kind: FailureKind)
    requires job in t.jobs && IsActive(t.jobs[job].state) && (kind.Execution? || kind.Resources?)
    ensures Requeue(t, job, number, kind).Some?
    ensures Requeue(t, job, number, kind).value.jobs == t.jobs[job := RequeuedRow(t.jobs[job], kind)]
  {
    FailureApplies(t, job, number, kind);
    var failed := ApplyEvent(t, job, Some(number), FailureEvent(kind), None).value;
    RetryApplies(failed.(jobs := failed.jobs[job := Counted(failed.jobs[job], kind)]), job, number, kind);
  }

  /** The failing job, marked terminal, before its descendants are blocked. */
  function FailForGood(t: Tables, job: string, number: nat, e: JobEvent): Option<Tables> {
    match ApplyEvent(t, job, Some(number), e, None)
    case None => None
    case Some(failed) => Some(Terminal(failed, job))
  }

  lemma {:induction false} FailForGoodKeeps(t: Tables, job: string, number: nat, e: JobEvent)
    requires Inv(t) && (e.FailedExecution? || e.ExceededResources? || e.FailedVerification?)
      && FailForGood(t, job, number, e).Some?
    ensures InvExcept(FailForGood(t, job, number, e).value, job)
  {
    assert RowOk(t.jobs[job]);
    EventIsOneRow(t, job, Some(number), e);
    var failed := ApplyEvent(t, job, Some(number), e, None).value;
    var after := Terminal(failed, job);
    assert after.jobs == t.jobs[job := after.jobs[job]];
    assert AttemptsMatch(after.jobs, after.attempts) && Numbered(after.jobs, after.attempts);
    FailKeeps(t, job, after.jobs[job], after);
  }
}
