/** Whole runs: what holds after any sequence of operations. */
module RunHistory {
  import opened Prelude
  import opened JobStates
  import opened RunTables
  import opened FailurePropagation
  import opened RunSteps
  import opened RunOperations

  datatype Operation =
    | Insert(id: string, jobKind: JobKind)
    | Depend(predecessor: string, successor: string)
    | Begin(job: string, event: JobEvent)
    | Report(job: string, number: nat, event: JobEvent)
    | Verify(job: string, number: nat)
    | Reject(job: string, number: nat, blocked: set<string>)
    | Retry(job: string, number: nat, kind: FailureKind)
    | GiveUp(job: string, number: nat, kind: FailureKind, blocked: set<string>)
    | Refresh
    | Recover

  /** A job fails for good and everything waiting on it is blocked. */
  ghost predicate FailsWith(t: Tables, job: string, number: nat, e: JobEvent, blocked: set<string>, after: Tables) {
    FailForGood(t, job, number, e).Some? && Propagated(FailForGood(t, job, number, e).value, job, blocked, after)
  }

  /** A successful operation, from the tables before it to the tables after. */
  ghost predicate Step(t: Tables, op: Operation, after: Tables) {
    match op
    case Insert(id, kind) => id !in t.jobs && after == t.(jobs := t.jobs[id := NewRow(kind)])
    case Depend(p, s) =>
      p != s && (p, s) !in t.dependencies && Addable(t, p, s) && after == t.(dependencies := t.dependencies + {(p, s)})
    case Begin(job, e) => BeginAttempt(t, job, e).Some? && after == BeginAttempt(t, job, e).value.0
    case Report(job, number, e) => AttemptEvent(t, job, number, e) == Some(after)
    case Verify(job, number) => CompleteVerification(t, job, number) == Some(after)
    case Reject(job, number, blocked) =>
      IsVerificationSource(t, job, number)
        && FailsWith(t, job, number, FailedVerification(Verification), blocked, after)
    case Retry(job, number, kind) =>
      && (kind.Execution? || kind.Resources?) && OpenNumbers(t.attempts, job) == [number]
      && job in t.jobs && Retries(t.jobs[job], kind) < RetryLimit(kind) && Requeue(t, job, number, kind) == Some(after)
    case GiveUp(job, number, kind, blocked) =>
      && (kind.Execution? || kind.Resources?) && OpenNumbers(t.attempts, job) == [number]
      && job in t.jobs && Retries(t.jobs[job], kind) >= RetryLimit(kind)
      && FailsWith(t, job, number, FailureEvent(kind), blocked, after)
    case Refresh => Refreshed(t, t.jobs.Keys, after)
    case Recover => Recovered(t, after)
  }

  lemma {:induction false} FailureKeeps(
      t: Tables, job: string, number: nat, e: JobEvent, blocked: set<string>, after: Tables)
    requires Inv(t) && FailsWith(t, job, number, e, blocked, after)
    requires e.FailedExecution? || e.ExceededResources? || e.FailedVerification?
    ensures Inv(after)
  {
    FailForGoodKeeps(t, job, number, e);
    PropagationRestores(FailForGood(t, job, number, e).value, job, blocked, after);
  }

  /** Refreshing is determined by its effect. */
  lemma {:induction false} RefreshedKeeps(t: Tables, after: Tables)
    requires Inv(t) && Refreshed(t, t.jobs.Keys, after)
    ensures Inv(after)
  {
    var waiting := ListSet(set job | job in t.jobs && IsWaiting(t.jobs[job].state));
    CandidatesWait(t, waiting);
    RefreshKeeps(t, waiting);
    EveryoneConsidered(t, waiting, RefreshAll(t, waiting));
    RefreshedOnce(t, t.jobs.Keys, after, RefreshAll(t, waiting));
  }

  /** Recovery is determined by its effect too. */
  lemma {:induction false} RecoveredKeeps(t: Tables, after: Tables)
    requires Inv(t) && Recovered(t, after)
    ensures Inv(after)
  {
    var reached := RecoverUpTo(t, |t.attempts|);
    RecoverUpToKeeps(t, |t.attempts|);
    AllRecovered(t, reached);
    assert after.jobs == reached.jobs && after.attempts == reached.attempts;
  }

  /** Every operation keeps the invariant. */
  lemma {:induction false} StepKeeps(t: Tables, op: Operation, after: Tables)
    requires Inv(t) && Step(t, op, after)
    ensures Inv(after)
  {
    match op
    case Insert(id, kind) => InsertKeeps(t, id, kind);
    case Depend(p, s) => AddKeepsExactly(t, p, s);
    case Begin(job, e) => BeginKeeps(t, job, e);
    case Report(job, number, e) => AttemptEventKeeps(t, job, number, e);
    case Verify(job, number) => CompleteKeeps(t, job, number);
    case Reject(job, number, blocked) => FailureKeeps(t, job, number, FailedVerification(Verification), blocked, after);
    case Retry(job, number, kind) => RequeueKeeps(t, job, number, kind);
    case GiveUp(job, number, kind, blocked) => FailureKeeps(t, job, number, FailureEvent(kind), blocked, after);
    case Refresh => RefreshedKeeps(t, after);
    case Recover => RecoveredKeeps(t, after);
  }

  /** The tables before the first operation and after each one. */
  ghost predicate Run(states: seq<Tables>, ops: seq<Operation>) {
    && |states| == |ops| + 1 && states[0] == Tables(map[], {}, [])
    && forall k {:trigger ops[k]} :: 0 <= k < |ops| ==> Step(states[k], ops[k], states[k + 1])
  }

  lemma {:induction false} RunKeeps(states: seq<Tables>, ops: seq<Operation>, k: nat)
    requires Run(states, ops) && k < |states|
    ensures Inv(states[k])
  {
    if k > 0 {
      RunKeeps(states, ops, k - 1);
      StepKeeps(states[k - 1], ops[k - 1], states[k]);
    }
  }

  /**
   * At every point of every run: a job is blocked exactly when a job it descends from failed for good; a job past
   * waiting has nothing but verified ancestors; and a job has one open attempt while it is active, and otherwise none.
   */
  lemma {:induction false} EveryRun(states: seq<Tables>, ops: seq<Operation>, k: nat, job: string)
    requires Run(states, ops) && k < |states| && job in states[k].jobs
    ensures var t := states[k];
      && (t.jobs[job].state.Blocked? <==> FailedAncestor(t, job))
      && |OpenNumbers(t.attempts, job)| == (if IsActive(t.jobs[job].state) then 1 else 0)
      && RowOk(t.jobs[job])
    ensures forall path {:trigger Chain(states[k].dependencies, path)} ::
      (Chain(states[k].dependencies, path) && |path| > 0 && path[|path| - 1] == job && Started(states[k].jobs[job])) ==>
      forall i :: 0 <= i < |path| - 1 ==> path[i] in states[k].jobs && states[k].jobs[path[i]].state.Verified?
  {
    var t := states[k];
    RunKeeps(states, ops, k);
    BlockedExactly(t, job);
    NoneOpen(t.attempts, job);
    AtMostOneOpen(t.attempts, job);
    forall path | Chain(t.dependencies, path) && |path| > 0 && path[|path| - 1] == job && Started(t.jobs[job])
      ensures forall i :: 0 <= i < |path| - 1 ==> path[i] in t.jobs && t.jobs[path[i]].state.Verified?
    {
      forall i: nat | i < |path| - 1 ensures path[i] in t.jobs && t.jobs[path[i]].state.Verified? {
        AncestorsVerified(t, path, i);
      }
    }
  }

  predicate Started(r: JobRow) { !IsWaiting(r.state) && !r.state.Blocked? }

  // ----- what is final stays -----

  /** Verified jobs stay verified and dead ones dead. */
  ghost predicate FinalKept(t: Tables, after: Tables) {
    forall job :: job in t.jobs ==>
      && job in after.jobs && (t.jobs[job].state.Verified? ==> after.jobs[job].state.Verified?)
      && (Dead(t.jobs[job]) ==> Dead(after.jobs[job]) && after.jobs[job].state == t.jobs[job].state)
  }

  /** An event never moves a verified or a dead job, unless it is the retry of one marked terminal. */
  lemma {:induction false} EventKeepsFinal(
      t: Tables, job: string, attempt: Option<nat>, e: JobEvent, count: Option<U32>)
    requires ApplyEvent(t, job, attempt, e, count).Some? && !t.jobs[job].terminal
    ensures FinalKept(t, ApplyEvent(t, job, attempt, e, count).value)
  {
  }

  /** Blocking touches waiting jobs only, and none of those is final. */
  lemma {:induction false} PropagatedKeepsFinal(t: Tables, failed: string, blocked: set<string>, after: Tables)
    requires Propagated(t, failed, blocked, after) && RowsOk(t.jobs)
    ensures FinalKept(t, after)
  {
    forall job | job in t.jobs && !IsWaiting(t.jobs[job].state)
      ensures job in after.jobs && after.jobs[job] == t.jobs[job]
    {
      OthersKept(t, failed, blocked, after, job);
    }
    forall job | job in t.jobs && Dead(t.jobs[job]) ensures !IsWaiting(t.jobs[job].state) { assert RowOk(t.jobs[job]); }
  }

  lemma {:induction false} FailForGoodKeepsFinal(t: Tables, job: string, number: nat, e: JobEvent)
    requires Inv(t) && FailForGood(t, job, number, e).Some?
    requires e.FailedExecution? || e.ExceededResources? || e.FailedVerification?
    ensures FinalKept(t, FailForGood(t, job, number, e).value)
  {
    assert RowOk(t.jobs[job]);
    OneRowKeepsFinal(t, job, FailForGood(t, job, number, e).value);
  }

  /** A change to one job that was not final. */
  lemma {:induction false} OneRowKeepsFinal(t: Tables, job: string, after: Tables)
    requires job in t.jobs && job in after.jobs && after.jobs == t.jobs[job := after.jobs[job]]
    requires !t.jobs[job].state.Verified? && !Dead(t.jobs[job])
    ensures FinalKept(t, after)
  {
  }

  lemma {:induction false} FailureKeepsFinal(
      t: Tables, job: string, number: nat, e: JobEvent, blocked: set<string>, after: Tables)
    requires Inv(t) && FailsWith(t, job, number, e, blocked, after)
    requires e.FailedExecution? || e.ExceededResources? || e.FailedVerification?
    ensures FinalKept(t, after)
  {
    var failed := FailForGood(t, job, number, e).value;
    FailForGoodKeeps(t, job, number, e);
    FailForGoodKeepsFinal(t, job, number, e);
    PropagatedKeepsFinal(failed, job, blocked, after);
    FinalThen(t, failed, after);
  }

  lemma {:induction false} RetryKeepsFinal(t: Tables, job: string, number: nat, kind: FailureKind)
    requires Inv(t) && job in t.jobs && OpenNumbers(t.attempts, job) == [number] && (kind.Execution? || kind.Resources?)
    requires Requeue(t, job, number, kind).Some?
    ensures FinalKept(t, Requeue(t, job, number, kind).value)
  {
    OpenMeansActive(t, job, number);
    FailureApplies(t, job, number, kind);
    assert RowOk(t.jobs[job]);
    OneRowKeepsFinal(t, job, Requeue(t, job, number, kind).value);
  }

  lemma {:induction false} BeginKeepsFinal(t: Tables, job: string, e: JobEvent)
    requires Inv(t) && BeginAttempt(t, job, e).Some?
    ensures FinalKept(t, BeginAttempt(t, job, e).value.0)
  {
    var number, next := t.jobs[job].attemptCount + 1, Transition(t.jobs[job].state, e).value;
    assert RowOk(t.jobs[job]);
    EventKeepsFinal(t.(attempts := t.attempts + [Attempt(job, number, next, true)]), job, Some(number), e,
      Some(number));
  }

  /** Refreshing moves waiting jobs and recovery active ones; neither kind is final. */
  lemma {:induction false} SweepsKeepFinal(t: Tables, after: Tables)
    requires Inv(t) && (Refreshed(t, t.jobs.Keys, after) || Recovered(t, after))
    ensures FinalKept(t, after)
  {
    forall job | job in t.jobs && Dead(t.jobs[job])
      ensures !IsWaiting(t.jobs[job].state) && !IsActive(t.jobs[job].state)
    {
      assert RowOk(t.jobs[job]);
    }
  }

  lemma {:induction false} ReportKeepsFinal(t: Tables, job: string, number: nat, e: JobEvent)
    requires Inv(t) && ApplyEvent(t, job, Some(number), e, None).Some?
      && (e.VerificationSucceeded? || AttemptEvent(t, job, number, e).Some?)
    ensures FinalKept(t, ApplyEvent(t, job, Some(number), e, None).value)
  {
    assert RowOk(t.jobs[job]);
    EventKeepsFinal(t, job, Some(number), e, None);
  }

  lemma {:induction false} StepKeepsFinal(t: Tables, op: Operation, after: Tables)
    requires Inv(t) && Step(t, op, after)
    ensures FinalKept(t, after)
  {
    match op
    case Insert(_, _) =>
    case Depend(_, _) =>
    case Begin(job, e) => BeginKeepsFinal(t, job, e);
    case Report(job, number, e) => ReportKeepsFinal(t, job, number, e);
    case Verify(job, number) => ReportKeepsFinal(t, job, number, VerificationSucceeded(true));
    case Reject(job, number, blocked) =>
      FailureKeepsFinal(t, job, number, FailedVerification(Verification), blocked, after);
    case Retry(job, number, kind) => RetryKeepsFinal(t, job, number, kind);
    case GiveUp(job, number, kind, blocked) => FailureKeepsFinal(t, job, number, FailureEvent(kind), blocked, after);
    case Refresh => SweepsKeepFinal(t, after);
    case Recover => SweepsKeepFinal(t, after);
  }

  lemma {:induction false} FinalThen(t: Tables, middle: Tables, after: Tables)
    requires FinalKept(t, middle) && FinalKept(middle, after)
    ensures FinalKept(t, after)
  {
  }

  /** A verdict on a job, once reached in a run, is never taken back later in it. */
  lemma {:induction false} VerdictsAreFinal(states: seq<Tables>, ops: seq<Operation>, i: nat, k: nat)
    requires Run(states, ops) && i <= k < |states|
    ensures FinalKept(states[i], states[k])
    decreases k
  {
    if i < k {
      VerdictsAreFinal(states, ops, i, k - 1);
      RunKeeps(states, ops, k - 1);
      StepKeepsFinal(states[k - 1], ops[k - 1], states[k]);
      FinalThen(states[i], states[k - 1], states[k]);
    }
  }
}
