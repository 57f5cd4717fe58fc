/** What each kind of job goes through in a run, and that every kind can be brought to its end. */
module JobLifecycle {
  import opened Prelude
  import opened JobStates
  import opened RunTables
  import opened FailurePropagation
  import opened RunSteps
  import opened RunOperations
  import opened RunHistory
  import opened RunLog

  // ----- states and kinds -----

  /** States any job can be in, and those of its own kind. */
  predicate HasState(kind: JobKind, s: JobState) {
    match s
    case Witnessing => kind.Witness?
    case WitnessReady => kind.Witness?
    case Preparing => kind.Prepare?
    case Prepared => kind.Prepare?
    case Proving => kind.LeafProof?
    case Proved => kind.LeafProof?
    case Verifying => kind.LeafVerification? || kind.NativeAggregate?
    case _ => true
  }

  ghost predicate KindsHold(t: Tables) {
    forall job :: job in t.jobs ==> HasState(t.jobs[job].kind, t.jobs[job].state)
  }

  ghost predicate KindsKept(t: Tables, after: Tables) {
    forall job :: job in t.jobs ==> job in after.jobs && after.jobs[job].kind == t.jobs[job].kind
  }

  lemma {:induction false} EventKeepsKinds(
      t: Tables, job: string, attempt: Option<nat>, e: JobEvent, count: Option<U32>)
    requires KindsHold(t) && ApplyEvent(t, job, attempt, e, count).Some?
    requires StartsAttempt(e) ==> StartMatchesKind(t.jobs[job].kind, e)
    ensures KindsHold(ApplyEvent(t, job, attempt, e, count).value)
      && KindsKept(t, ApplyEvent(t, job, attempt, e, count).value)
  {
  }

  lemma {:induction false} BeginKeepsKinds(t: Tables, job: string, e: JobEvent)
    requires KindsHold(t) && BeginAttempt(t, job, e).Some?
    ensures KindsHold(BeginAttempt(t, job, e).value.0) && KindsKept(t, BeginAttempt(t, job, e).value.0)
  {
    var number, next := t.jobs[job].attemptCount + 1, Transition(t.jobs[job].state, e).value;
    EventKeepsKinds(t.(attempts := t.attempts + [Attempt(job, number, next, true)]), job, Some(number), e,
      Some(number));
  }

  lemma {:induction false} BlockedKeepsKind(
      t: Tables, failed: string, blocked: set<string>, after: Tables, job: string)
    requires Rewritten(t, failed, blocked, after.jobs) && job in t.jobs
    ensures job in after.jobs && after.jobs[job].kind == t.jobs[job].kind
    ensures after.jobs[job].state == t.jobs[job].state || after.jobs[job].state.Blocked?
  {
    if job in blocked { assert NewlyBlocked(t, failed, blocked, job, after.jobs[job]); }
  }

  lemma {:induction false} PropagationKeepsKinds(t: Tables, failed: string, blocked: set<string>, after: Tables)
    requires KindsHold(t) && Rewritten(t, failed, blocked, after.jobs)
    ensures KindsHold(after) && KindsKept(t, after)
  {
    forall job | job in t.jobs
      ensures job in after.jobs && after.jobs[job].kind == t.jobs[job].kind
      ensures HasState(after.jobs[job].kind, after.jobs[job].state)
    {
      BlockedKeepsKind(t, failed, blocked, after, job);
    }
  }

  lemma {:induction false} FailureKeepsKinds(
      t: Tables, job: string, number: nat, e: JobEvent, blocked: set<string>, after: Tables)
    requires KindsHold(t) && FailsWith(t, job, number, e, blocked, after) && !StartsAttempt(e)
    ensures KindsHold(after) && KindsKept(t, after)
  {
    EventKeepsKinds(t, job, Some(number), e, None);
    PropagationKeepsKinds(FailForGood(t, job, number, e).value, job, blocked, after);
  }

  lemma {:induction false} SweepsKeepKinds(t: Tables, after: Tables)
    requires KindsHold(t) && (Refreshed(t, t.jobs.Keys, after) || Recovered(t, after))
    ensures KindsHold(after) && KindsKept(t, after)
  {
  }

  lemma {:induction false} ReportKeepsKinds(t: Tables, job: string, number: nat, e: JobEvent, after: Tables)
    requires KindsHold(t) && AttemptEvent(t, job, number, e) == Some(after)
    ensures KindsHold(after) && KindsKept(t, after)
  {
    EventKeepsKinds(t, job, Some(number), e, None);
  }

  lemma {:induction false} VerifyKeepsKinds(t: Tables, job: string, number: nat, after: Tables)
    requires KindsHold(t) && CompleteVerification(t, job, number) == Some(after)
    ensures KindsHold(after) && KindsKept(t, after)
  {
    EventKeepsKinds(t, job, Some(number), VerificationSucceeded(true), None);
  }

  lemma {:induction false} RetryKeepsKinds(t: Tables, job: string, number: nat, kind: FailureKind, after: Tables)
    requires Inv(t) && KindsHold(t) && Step(t, Retry(job, number, kind), after)
    ensures KindsHold(after) && KindsKept(t, after)
  {
    RetryStep(t, job, number, kind, after);
  }

  lemma {:induction false} StepKeepsKinds(t: Tables, op: Operation, after: Tables)
    requires Inv(t) && Step(t, op, after) && KindsHold(t)
    ensures KindsHold(after) && KindsKept(t, after)
  {
    match op
    case Insert(_, _) =>
    case Depend(_, _) =>
    case Begin(job, e) => BeginKeepsKinds(t, job, e);
    case Report(job, number, e) => ReportKeepsKinds(t, job, number, e, after);
    case Verify(job, number) => VerifyKeepsKinds(t, job, number, after);
    case Reject(job, number, blocked) =>
      FailureKeepsKinds(t, job, number, FailedVerification(Verification), blocked, after);
    case Retry(job, number, kind) => RetryKeepsKinds(t, job, number, kind, after);
    case GiveUp(job, number, kind, blocked) => FailureKeepsKinds(t, job, number, FailureEvent(kind), blocked, after);
    case Refresh => SweepsKeepKinds(t, after);
    case Recover => SweepsKeepKinds(t, after);
  }

  /** At every point of every run each job is in a state of its own kind, and never changes kind. */
  lemma {:induction false} StatesFitKinds(states: seq<Tables>, ops: seq<Operation>, k: nat)
    requires Run(states, ops) && k < |states|
    ensures KindsHold(states[k]) && (k > 0 ==> KindsKept(states[k - 1], states[k]))
  {
    if k > 0 {
      StatesFitKinds(states, ops, k - 1);
      RunKeeps(states, ops, k - 1);
      StepKeepsKinds(states[k - 1], ops[k - 1], states[k]);
    }
  }

  // ----- every kind of job can be finished -----

  function StartOf(kind: JobKind): JobEvent {
    match kind
    case Witness => StartWitnessing
    case Prepare => StartPreparing
    case LeafProof => StartProving
    case _ => StartVerification
  }

  function WorkingState(kind: JobKind): JobState {
    match kind
    case Witness => Witnessing
    case Prepare => Preparing
    case LeafProof => Proving
    case _ => Verifying
  }

  /** Kinds whose work ends before it is verified, with what ends it. */
  predicate IsReported(kind: JobKind) { kind.Witness? || kind.Prepare? || kind.LeafProof? }

  function DoneEvent(kind: JobKind): JobEvent {
    match kind
    case Witness => WitnessCompleted
    case Prepare => PreparationCompleted
    case _ => ProofProduced
  }

  function DoneState(kind: JobKind): JobState {
    match kind
    case Witness => WitnessReady
    case Prepare => Prepared
    case _ => Proved
  }

  /** Tables with a single job, in its first attempt at most. */
  function Alone(kind: JobKind, state: JobState, attempts: seq<Attempt>): Tables {
    Tables(map["a" := JobRow(kind, state, false, None, if attempts == [] then 0 else 1, 0, 0)], {}, attempts)
  }

  function Working(kind: JobKind): Tables {
    Alone(kind, WorkingState(kind), [Attempt("a", 1, WorkingState(kind), true)])
  }

  function Done(kind: JobKind): Tables {
    Alone(kind, DoneState(kind), [Attempt("a", 1, DoneState(kind), false)])
  }

  /** One event on tables with a single job and a single attempt. */
  lemma {:induction false} AloneMoves(kind: JobKind, state: JobState, attempt: Attempt, e: JobEvent, count: Option<U32>)
    requires Transition(state, e).Some? && attempt.job == "a" && attempt.number == 1
    requires !e.DependencyBlocked? && (count.None? || count == Some(1))
    ensures var next := Transition(state, e).value;
      ApplyEvent(Alone(kind, state, [attempt]), "a", Some(1), e, count)
        == Some(Alone(kind, next, [MovedAttempt(attempt, "a", Some(1), next)]))
  {
    var next := Transition(state, e).value;
    assert MovedAttempts([attempt], "a", Some(1), next) == [MovedAttempt(attempt, "a", Some(1), next)];
    var row := Alone(kind, state, [attempt]).jobs["a"];
    assert map["a" := row]["a" := MovedRow(row, next, e, count)] == map["a" := MovedRow(row, next, e, count)];
  }

  lemma {:induction false} AloneBegins(kind: JobKind)
    ensures Step(Tables(map[], {}, []), Insert("a", kind), Alone(kind, Pending, []))
    ensures Step(Alone(kind, Pending, []), Refresh, Alone(kind, Ready, []))
  {
    assert map[]["a" := NewRow(kind)] == Alone(kind, Pending, []).jobs;
  }

  lemma {:induction false} AloneWorks(kind: JobKind)
    ensures Step(Alone(kind, Ready, []), Operation.Begin("a", StartOf(kind)), Working(kind))
  {
    var e, ready := StartOf(kind), Alone(kind, Ready, []);
    var begun := ready.(attempts := ready.attempts + [Attempt("a", 1, WorkingState(kind), true)]);
    assert begun.attempts == [Attempt("a", 1, WorkingState(kind), true)];
    assert MovedAttempts(begun.attempts, "a", Some(1), WorkingState(kind)) == begun.attempts;
    assert ready.jobs["a" := MovedRow(ready.jobs["a"], WorkingState(kind), e, Some(1))] == Working(kind).jobs;
  }

  lemma {:induction false} OneOpen(state: JobState)
    ensures OpenNumbers([Attempt("a", 1, state, true)], "a") == [1]
  {
    assert [Attempt("a", 1, state, true)][..0] == [];
  }

  lemma {:induction false} AloneReports(kind: JobKind)
    requires IsReported(kind)
    ensures Step(Working(kind), Report("a", 1, DoneEvent(kind)), Done(kind))
  {
    OneOpen(WorkingState(kind));
    AloneMoves(kind, WorkingState(kind), Working(kind).attempts[0], DoneEvent(kind), None);
  }

  /** The tables a verified job leaves. */
  function Finished(kind: JobKind): Tables {
    Alone(kind, Verified, [Attempt("a", 1, if IsReported(kind) then DoneState(kind) else Verified, false)])
  }

  lemma {:induction false} AloneVerifies(kind: JobKind)
    ensures Step(if IsReported(kind) then Done(kind) else Working(kind), Verify("a", 1), Finished(kind))
  {
    if IsReported(kind) {
      assert Latest(Done(kind).attempts, "a") == Some(Done(kind).attempts[0]);
      AloneMoves(kind, DoneState(kind), Done(kind).attempts[0], VerificationSucceeded(true), None);
    } else {
      OneOpen(WorkingState(kind));
      AloneMoves(kind, WorkingState(kind), Working(kind).attempts[0], VerificationSucceeded(true), None);
    }
  }

  /** Whatever its kind, a job can be begun, its work reported if the kind has any, and verified. */
  lemma {:induction false} EveryKindFinishes(kind: JobKind) returns (states: seq<Tables>, ops: seq<Operation>)
    ensures Run(states, ops) && states[|ops|] == Finished(kind)
    ensures ops == [Insert("a", kind), Refresh, Operation.Begin("a", StartOf(kind))]
      + (if IsReported(kind) then [Report("a", 1, DoneEvent(kind))] else []) + [Verify("a", 1)]
  {
    AloneBegins(kind);
    AloneWorks(kind);
    AloneVerifies(kind);
    states := [Tables(map[], {}, []), Alone(kind, Pending, []), Alone(kind, Ready, []), Working(kind)];
    ops := [Insert("a", kind), Refresh, Operation.Begin("a", StartOf(kind))];
    assert Run(states, ops);
    if IsReported(kind) {
      AloneReports(kind);
      states, ops := RunFurther(states, ops, Report("a", 1, DoneEvent(kind)), Done(kind));
    }
    states, ops := RunFurther(states, ops, Verify("a", 1), Finished(kind));
  }

  lemma {:induction false} RunFurther(states: seq<Tables>, ops: seq<Operation>, op: Operation, after: Tables)
    returns (more: seq<Tables>, done: seq<Operation>)
    requires Run(states, ops) && Step(states[|ops|], op, after)
    ensures more == states + [after] && done == ops + [op] && Run(more, done)
  {
    more, done := states + [after], ops + [op];
    forall k | 0 <= k < |done| ensures Step(more[k], done[k], more[k + 1]) {
      if k < |ops| { assert Step(states[k], ops[k], states[k + 1]); }
    }
  }
}
