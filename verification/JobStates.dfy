/** A job's states and the events that move it between them. */
module JobStates {
  import opened Prelude

  datatype JobKind = Witness | Prepare | LeafProof | LeafVerification | NativeAggregate

  datatype JobState =
    | Pending | Ready | Witnessing | WitnessReady | Preparing | Prepared | Proving | Proved | Verifying | Verified
    | ExecutionFailed | VerificationFailed | ResourceExceeded | Interrupted | Requeued | Blocked

  datatype FailureKind = Execution | Verification | Resources | Dependency | Interruption

  datatype JobEvent =
    | DependenciesSatisfied
    | DependencyBlocked(predecessor: string)
    | StartWitnessing | WitnessCompleted | StartPreparing | PreparationCompleted | StartProving | ProofProduced
      | StartVerification
    | VerificationSucceeded(recorded: bool)
    | FailedExecution(kind: FailureKind)
    | FailedVerification(kind: FailureKind)
    | ExceededResources(kind: FailureKind)
    | WasInterrupted(kind: FailureKind)
    | RetryExecution | RetryResourceExceeded | RecoveryRequeue

  predicate IsActive(s: JobState) { s.Witnessing? || s.Preparing? || s.Proving? || s.Verifying? }

  predicate IsWaiting(s: JobState) { s.Pending? || s.Requeued? }

  predicate AwaitsVerification(s: JobState) { s.WitnessReady? || s.Prepared? || s.Proved? || s.Verifying? }

  function Transition(s: JobState, e: JobEvent): Option<JobState> {
    match e
    case DependenciesSatisfied => if IsWaiting(s) then Some(Ready) else None
    case DependencyBlocked(_) => if IsWaiting(s) then Some(Blocked) else None
    case StartWitnessing => if s.Ready? then Some(Witnessing) else None
    case WitnessCompleted => if s.Witnessing? then Some(WitnessReady) else None
    case StartPreparing => if s.Ready? || s.WitnessReady? then Some(Preparing) else None
    case PreparationCompleted => if s.Preparing? then Some(Prepared) else None
    case StartProving => if s.Ready? || s.Preparing? then Some(Proving) else None
    case ProofProduced => if s.Proving? then Some(Proved) else None
    case StartVerification => if s.Ready? || s.WitnessReady? || s.Preparing? || s.Proved? then Some(Verifying) else None
    case VerificationSucceeded(recorded) => if AwaitsVerification(s) && recorded then Some(Verified) else None
    case FailedExecution(kind) => if IsActive(s) && kind.Execution? then Some(ExecutionFailed) else None
    case FailedVerification(kind) => if AwaitsVerification(s) && kind.Verification? then Some(VerificationFailed)
      else None
    case ExceededResources(kind) => if IsActive(s) && kind.Resources? then Some(ResourceExceeded) else None
    case WasInterrupted(kind) => if IsActive(s) && kind.Interruption? then Some(Interrupted) else None
    case RetryExecution => if s.ExecutionFailed? then Some(Requeued) else None
    case RetryResourceExceeded => if s.ResourceExceeded? then Some(Requeued) else None
    case RecoveryRequeue => if s.Interrupted? then Some(Requeued) else None
  }

  predicate StartsAttempt(
      e: JobEvent) { e.StartWitnessing? || e.StartPreparing? || e.StartProving? || e.StartVerification? }

  predicate StartMatchesKind(kind: JobKind, e: JobEvent) {
    match kind
    case Witness => e.StartWitnessing?
    case Prepare => e.StartPreparing?
    case LeafProof => e.StartProving?
    case LeafVerification => e.StartVerification?
    case NativeAggregate => e.StartVerification?
  }

  /** Three states have no way out. */
  lemma {:induction false} FinalStates(s: JobState)
    ensures (forall e :: Transition(s, e).None?) <==> s.Verified? || s.VerificationFailed? || s.Blocked?
  {
    if s.Pending? || s.Requeued? { assert Transition(s, DependenciesSatisfied).Some?; }
    if s.Ready? { assert Transition(s, StartWitnessing).Some?; }
    if AwaitsVerification(s) { assert Transition(s, VerificationSucceeded(true)).Some?; }
    if IsActive(s) { assert Transition(s, WasInterrupted(Interruption)).Some?; }
    if s.ExecutionFailed? { assert Transition(s, RetryExecution).Some?; }
    if s.ResourceExceeded? { assert Transition(s, RetryResourceExceeded).Some?; }
    if s.Interrupted? { assert Transition(s, RecoveryRequeue).Some?; }
  }

  /**
   * A job leaves the waiting states only for ready or blocked, becomes active only by starting an attempt, and is
   * verified only by a recorded success of work that awaits it.
   */
  lemma {:induction false} OnlyWays(s: JobState, e: JobEvent)
    requires Transition(s, e).Some?
    ensures IsWaiting(s) ==> e.DependenciesSatisfied? || e.DependencyBlocked?
    ensures IsActive(Transition(s, e).value) <==> StartsAttempt(e)
    ensures Transition(s, e).value.Blocked? <==> e.DependencyBlocked?
    ensures Transition(s, e).value.Verified? <==> e == VerificationSucceeded(true)
    ensures Transition(s, e).value.Verified? || Transition(s, e).value.VerificationFailed? ==>
      s.WitnessReady? || s.Prepared? || s.Proved? || s.Verifying?
  {
  }
}
