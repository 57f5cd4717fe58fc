/** The tables record what the operations did, no more and no less. */
module RunLog {
  import opened Prelude
  import opened JobStates
  import opened RunTables
  import opened FailurePropagation
  import opened RunSteps
  import opened RunOperations
  import opened RunHistory

  /** What can be told of one job from a list of operations alone. */
  datatype Tally = Tally(attempts: nat, executionRetries: nat, resourceRetries: nat, verified: nat, givenUp: nat)

  const NOTHING: Tally := Tally(0, 0, 0, 0, 0)

  function Tallied(tally: Tally, op: Operation, job: string): Tally {
    match op
    case Begin(j, _) => if j == job then tally.(attempts := tally.attempts + 1) else tally
    case Retry(j, _, kind) =>
      if j != job then tally
      else if kind.Execution? then tally.(executionRetries := tally.executionRetries + 1)
      else tally.(resourceRetries := tally.resourceRetries + 1)
    case Verify(j, _) => if j == job then tally.(verified := tally.verified + 1) else tally
    case Reject(j, _, _) => if j == job then tally.(givenUp := tally.givenUp + 1) else tally
    case GiveUp(j, _, _, _) => if j == job then tally.(givenUp := tally.givenUp + 1) else tally
    case _ => tally
  }

  function TallyOf(ops: seq<Operation>, job: string): Tally {
    if |ops| == 0 then NOTHING else Tallied(TallyOf(ops[..|ops| - 1], job), ops[|ops| - 1], job)
  }

  /** The same, as a job's row has it. */
  function Recorded(row: JobRow): Tally {
    Tally(row.attemptCount, row.executionRetries, row.resourceRequeues, if row.state.Verified? then 1 else 0,
      if (row.terminal && !row.state.Blocked?) || row.state.VerificationFailed? then 1 else 0)
  }

  /** What a job's row records, or nothing for a job not in the tables. */
  function RecordedOf(t: Tables, job: string): Tally {
    if job in t.jobs then Recorded(t.jobs[job]) else NOTHING
  }

  // ----- one operation -----

  lemma {:induction false} BeginRecords(t: Tables, job: string, e: JobEvent, other: string)
    requires Inv(t) && BeginAttempt(t, job, e).Some?
    ensures RecordedOf(BeginAttempt(t, job, e).value.0, other)
      == Tallied(RecordedOf(t, other), Operation.Begin(job, e), other)
  {
    OnlyWays(t.jobs[job].state, e);
    assert RowOk(t.jobs[job]);
  }

  lemma {:induction false} ReportRecords(t: Tables, job: string, number: nat, e: JobEvent, other: string)
    requires Inv(t) && AttemptEvent(t, job, number, e).Some?
    ensures RecordedOf(AttemptEvent(t, job, number, e).value, other) == RecordedOf(t, other)
  {
    OpenMeansActive(t, job, number);
    assert RowOk(t.jobs[job]);
  }

  lemma {:induction false} VerifyRecords(t: Tables, job: string, number: nat, other: string)
    requires Inv(t) && CompleteVerification(t, job, number).Some?
    ensures RecordedOf(CompleteVerification(t, job, number).value, other)
      == Tallied(RecordedOf(t, other), Verify(job, number), other)
  {
    assert RowOk(t.jobs[job]);
  }

  lemma {:induction false} RequeuedRecords(row: JobRow, job: string, number: nat, kind: FailureKind)
    requires RowOk(row) && IsActive(row.state) && (kind.Execution? || kind.Resources?)
    ensures Recorded(RequeuedRow(row, kind)) == Tallied(Recorded(row), Retry(job, number, kind), job)
  {
  }

  lemma {:induction false} RetryRecords(t: Tables, job: string, number: nat, kind: FailureKind, other: string)
    requires Inv(t) && (kind.Execution? || kind.Resources?) && OpenNumbers(t.attempts, job) == [number]
    requires Requeue(t, job, number, kind).Some?
    ensures RecordedOf(Requeue(t, job, number, kind).value, other)
      == Tallied(RecordedOf(t, other), Retry(job, number, kind), other)
  {
    OpenMeansActive(t, job, number);
    assert RowOk(t.jobs[job]);
    RequeuedRecords(t.jobs[job], job, number, kind);
    RequeueExact(t, job, number, kind);
    var after := Requeue(t, job, number, kind).value;
    assert after.jobs == t.jobs[job := RequeuedRow(t.jobs[job], kind)];
  }

  /** Blocking a job that waits is no verdict on it. */
  lemma {:induction false} BlockingRecordsNothing(
      t: Tables, failed: string, blocked: set<string>, after: Tables, other: string)
    requires RowsOk(t.jobs) && Propagated(t, failed, blocked, after)
    ensures RecordedOf(after, other) == RecordedOf(t, other)
  {
    if other in blocked {
      NewlyBlockedWaited(t, failed, blocked, after, other);
      assert RowOk(t.jobs[other]) && NewlyBlocked(t, failed, blocked, other, after.jobs[other]);
    }
  }

  lemma {:induction false} FailureRecords(t: Tables, job: string, number: nat, e: JobEvent, other: string)
    requires Inv(t) && FailForGood(t, job, number, e).Some?
    requires e.FailedExecution? || e.ExceededResources? || e.FailedVerification?
    ensures var before, after := RecordedOf(t, other), RecordedOf(FailForGood(t, job, number, e).value, other);
      after == if other == job then before.(givenUp := before.givenUp + 1) else before
  {
    assert RowOk(t.jobs[job]);
  }

  lemma {:induction false} VerdictRecords(
      t: Tables, job: string, number: nat, e: JobEvent, blocked: set<string>, after: Tables, other: string)
    requires Inv(t) && FailsWith(t, job, number, e, blocked, after)
    requires e.FailedExecution? || e.ExceededResources? || e.FailedVerification?
    ensures var before := RecordedOf(t, other);
      RecordedOf(after, other) == if other == job then before.(givenUp := before.givenUp + 1) else before
  {
    FailForGoodKeeps(t, job, number, e);
    FailureRecords(t, job, number, e, other);
    BlockingRecordsNothing(FailForGood(t, job, number, e).value, job, blocked, after, other);
  }

  lemma {:induction false} SweepsRecordNothing(t: Tables, after: Tables, other: string)
    requires Inv(t) && (Refreshed(t, t.jobs.Keys, after) || Recovered(t, after))
    ensures RecordedOf(after, other) == RecordedOf(t, other)
  {
    if other in t.jobs { assert RowOk(t.jobs[other]); }
  }

  /** Every operation records itself, in the row of its own job. */
  lemma {:induction false} StepRecords(t: Tables, op: Operation, after: Tables, other: string)
    requires Inv(t) && Step(t, op, after)
    ensures RecordedOf(after, other) == Tallied(RecordedOf(t, other), op, other)
  {
    match op
    case Insert(_, _) =>
    case Depend(_, _) =>
    case Begin(job, e) => BeginRecords(t, job, e, other);
    case Report(job, number, e) => ReportRecords(t, job, number, e, other);
    case Verify(job, number) => VerifyRecords(t, job, number, other);
    case Reject(job, number, blocked) =>
      VerdictRecords(t, job, number, FailedVerification(Verification), blocked, after, other);
    case Retry(job, number, kind) => RetryRecords(t, job, number, kind, other);
    case GiveUp(job, number, kind, blocked) =>
      VerdictRecords(t, job, number, FailureEvent(kind), blocked, after, other);
    case Refresh => SweepsRecordNothing(t, after, other);
    case Recover => SweepsRecordNothing(t, after, other);
  }

  // ----- whole runs -----

  /** After any run, what a job's row records is what the operations so far did to it. */
  lemma {:induction false} RowsRecordTheRun(states: seq<Tables>, ops: seq<Operation>, k: nat, job: string)
    requires Run(states, ops) && k < |states|
    ensures RecordedOf(states[k], job) == TallyOf(ops[..k], job)
  {
    if k > 0 {
      RowsRecordTheRun(states, ops, k - 1, job);
      RunKeeps(states, ops, k - 1);
      StepRecords(states[k - 1], ops[k - 1], states[k], job);
      assert ops[..k][..k - 1] == ops[..k - 1];
    }
  }

  /**
   * No run retries a job more than twice after failed executions or three times after exceeded resources, or gives
   * two verdicts on it.
   */
  lemma {:induction false} RetriesAreBounded(states: seq<Tables>, ops: seq<Operation>, job: string)
    requires Run(states, ops)
    ensures var tally := TallyOf(ops, job);
      tally.executionRetries <= 2 && tally.resourceRetries <= 3 && tally.verified + tally.givenUp <= 1
  {
    RowsRecordTheRun(states, ops, |ops|, job);
    RunKeeps(states, ops, |ops|);
    assert ops[..|ops|] == ops;
    if job in states[|ops|].jobs { assert RowOk(states[|ops|].jobs[job]); }
  }

  /** A retry is counted once, under its own kind, and only below the limit of that kind. */
  lemma {:induction false} RetryStep(t: Tables, job: string, number: nat, kind: FailureKind, after: Tables)
    requires Inv(t) && Step(t, Retry(job, number, kind), after)
    ensures job in t.jobs && after.jobs == t.jobs[job := RequeuedRow(t.jobs[job], kind)]
    ensures if kind.Resources? then t.jobs[job].resourceRequeues < 3 else t.jobs[job].executionRetries < 2
  {
    OpenMeansActive(t, job, number);
    RequeueExact(t, job, number, kind);
  }

  // ----- attempts -----

  /** The numbers of a job's attempts, in the order they began. */
  function Numbers(attempts: seq<Attempt>, job: string): seq<nat> {
    if |attempts| == 0 then []
    else
      var last := attempts[|attempts| - 1];
      Numbers(attempts[..|attempts| - 1], job) + (if last.job == job then [last.number] else [])
  }

  /** 1, 2 and so on up to `n`. */
  function UpTo(n: nat): (r: seq<nat>)
    ensures |r| == n && forall k :: 0 <= k < n ==> r[k] == k + 1
  {
    seq(n, k => k + 1)
  }

  /** A job's attempts are numbered from one without gaps, and its row holds how many there are. */
  ghost predicate CountsUp(t: Tables, job: string) {
    Numbers(t.attempts, job) == UpTo(RecordedOf(t, job).attempts)
  }

  /** Attempts may move and close, but keep their jobs and numbers and are never reopened. */
  ghost predicate SameAttempts(before: seq<Attempt>, after: seq<Attempt>) {
    && |before| == |after|
    && forall k :: 0 <= k < |before| ==>
         before[k].job == after[k].job && before[k].number == after[k].number && (after[k].open ==> before[k].open)
  }

  /** No attempt is open that a later one of the same job has replaced. */
  ghost predicate ReplacedAreClosed(attempts: seq<Attempt>) {
    forall i, j :: 0 <= i < j < |attempts| && attempts[i].job == attempts[j].job ==> !attempts[i].open
  }

  lemma {:induction false} SameNumbers(before: seq<Attempt>, after: seq<Attempt>, job: string)
    requires SameAttempts(before, after)
    ensures Numbers(before, job) == Numbers(after, job)
    decreases |before|
  {
    if |before| > 0 {
      SameNumbers(before[..|before| - 1], after[..|after| - 1], job);
    }
  }

  lemma {:induction false} EventSameAttempts(
      t: Tables, job: string, attempt: Option<nat>, e: JobEvent, count: Option<U32>)
    requires ApplyEvent(t, job, attempt, e, count).Some?
    ensures SameAttempts(t.attempts, ApplyEvent(t, job, attempt, e, count).value.attempts)
  {
  }

  lemma {:induction false} RequeueSameAttempts(t: Tables, job: string, number: nat, kind: FailureKind)
    requires Requeue(t, job, number, kind).Some?
    ensures SameAttempts(t.attempts, Requeue(t, job, number, kind).value.attempts)
  {
    var failed := ApplyEvent(t, job, Some(number), FailureEvent(kind), None).value;
    EventSameAttempts(t, job, Some(number), FailureEvent(kind), None);
    EventSameAttempts(failed.(jobs := failed.jobs[job := Counted(failed.jobs[job], kind)]), job, Some(number),
      RetryEvent(kind), None);
  }

  lemma {:induction false} FailureSameAttempts(
      t: Tables, job: string, number: nat, e: JobEvent, blocked: set<string>, after: Tables)
    requires FailsWith(t, job, number, e, blocked, after)
    ensures SameAttempts(t.attempts, after.attempts)
  {
    EventSameAttempts(t, job, Some(number), e, None);
  }

  /** Only beginning adds an attempt. */
  lemma {:induction false} StepSameAttempts(t: Tables, op: Operation, after: Tables)
    requires Inv(t) && Step(t, op, after) && !op.Begin?
    ensures SameAttempts(t.attempts, after.attempts)
  {
    match op
    case Report(job, number, e) => EventSameAttempts(t, job, Some(number), e, None);
    case Verify(job, number) => EventSameAttempts(t, job, Some(number), VerificationSucceeded(true), None);
    case Reject(job, number, blocked) =>
      FailureSameAttempts(t, job, number, FailedVerification(Verification), blocked, after);
    case Retry(job, number, kind) => RequeueSameAttempts(t, job, number, kind);
    case GiveUp(job, number, kind, blocked) => FailureSameAttempts(t, job, number, FailureEvent(kind), blocked, after);
    case _ =>
  }

  lemma {:induction false} BeginCountsUp(t: Tables, job: string, e: JobEvent, other: string)
    requires Inv(t) && BeginAttempt(t, job, e).Some? && CountsUp(t, other)
    ensures CountsUp(BeginAttempt(t, job, e).value.0, other)
  {
    BeginKeeps(t, job, e);
    BeginRecords(t, job, e, other);
    var after, n := BeginAttempt(t, job, e).value.0, RecordedOf(t, other).attempts;
    assert after.attempts[..|t.attempts|] == t.attempts;
    assert UpTo(n + 1) == UpTo(n) + [n + 1];
  }

  lemma {:induction false} StepCountsUp(t: Tables, op: Operation, after: Tables, job: string)
    requires Inv(t) && Step(t, op, after) && CountsUp(t, job)
    ensures CountsUp(after, job)
  {
    if op.Begin? {
      BeginCountsUp(t, op.job, op.event, job);
    } else {
      StepSameAttempts(t, op, after);
      SameNumbers(t.attempts, after.attempts, job);
      StepRecords(t, op, after, job);
    }
  }

  /** In every run a job's attempts are numbered 1, 2, ... in the order they began. */
  lemma {:induction false} AttemptsCountUp(states: seq<Tables>, ops: seq<Operation>, k: nat, job: string)
    requires Run(states, ops) && k < |states|
    ensures Numbers(states[k].attempts, job) == UpTo(TallyOf(ops[..k], job).attempts)
  {
    CountsUpAt(states, ops, k, job);
    RowsRecordTheRun(states, ops, k, job);
  }

  lemma {:induction false} CountsUpAt(states: seq<Tables>, ops: seq<Operation>, k: nat, job: string)
    requires Run(states, ops) && k < |states|
    ensures CountsUp(states[k], job)
  {
    if k > 0 {
      CountsUpAt(states, ops, k - 1, job);
      RunKeeps(states, ops, k - 1);
      StepCountsUp(states[k - 1], ops[k - 1], states[k], job);
    }
  }

  lemma {:induction false} StepKeepsReplaced(t: Tables, op: Operation, after: Tables)
    requires Inv(t) && Step(t, op, after) && ReplacedAreClosed(t.attempts)
    ensures ReplacedAreClosed(after.attempts)
  {
    if op.Begin? {
      BeginKeeps(t, op.job, op.event);
      NoneOpen(t.attempts, op.job);
    } else {
      StepSameAttempts(t, op, after);
    }
  }

  lemma {:induction false} ReplacedClosedAt(states: seq<Tables>, ops: seq<Operation>, k: nat)
    requires Run(states, ops) && k < |states|
    ensures ReplacedAreClosed(states[k].attempts)
  {
    if k > 0 {
      ReplacedClosedAt(states, ops, k - 1);
      RunKeeps(states, ops, k - 1);
      StepKeepsReplaced(states[k - 1], ops[k - 1], states[k]);
    }
  }

  lemma {:induction false} NoEarlierOpen(attempts: seq<Attempt>, job: string)
    requires ReplacedAreClosed(attempts) && |attempts| > 0 && attempts[|attempts| - 1].job == job
    ensures OpenNumbers(attempts[..|attempts| - 1], job) == []
  {
    var before := attempts[..|attempts| - 1];
    forall i | 0 <= i < |before| ensures !(before[i].open && before[i].job == job) {
      assert before[i] == attempts[i];
    }
    NoneOpen(before, job);
  }

  /** An open attempt is its job's latest. */
  lemma {:induction false} OpenIsLatest(attempts: seq<Attempt>, job: string, number: nat)
    requires ReplacedAreClosed(attempts) && OpenNumbers(attempts, job) == [number]
    ensures Latest(attempts, job).Some? && Latest(attempts, job).value.number == number
    decreases |attempts|
  {
    var n := |attempts| - 1;
    if attempts[n].job == job {
      NoEarlierOpen(attempts, job);
      assert OpenNumbers(attempts, job)[0] == attempts[n].number;
    } else {
      OpenIsLatest(attempts[..n], job, number);
    }
  }

  lemma {:induction false} LatestIsLast(attempts: seq<Attempt>, job: string)
    requires Latest(attempts, job).Some?
    ensures var numbers := Numbers(attempts, job);
      |numbers| > 0 && Latest(attempts, job).value.number == numbers[|numbers| - 1]
    decreases |attempts|
  {
    var n := |attempts| - 1;
    if attempts[n].job != job { LatestIsLast(attempts[..n], job); }
  }

  /** The job and attempt a report, verdict or retry names. */
  predicate Names(op: Operation, job: string, number: nat) {
    match op
    case Report(j, n, _) => j == job && n == number
    case Verify(j, n) => j == job && n == number
    case Reject(j, n, _) => j == job && n == number
    case Retry(j, n, _) => j == job && n == number
    case GiveUp(j, n, _, _) => j == job && n == number
    case _ => false
  }

  /** Whatever names an attempt names its job's latest, by the number of times the job has begun. */
  lemma {:induction false} LatestIsNamed(
      states: seq<Tables>, ops: seq<Operation>, k: nat, job: string, number: nat)
    requires Run(states, ops) && k < |ops| && Names(ops[k], job, number)
    ensures number == TallyOf(ops[..k], job).attempts > 0
  {
    var t, numbers := states[k], Numbers(states[k].attempts, job);
    assert Step(t, ops[k], states[k + 1]);
    ReplacedClosedAt(states, ops, k);
    AttemptsCountUp(states, ops, k, job);
    if OpenNumbers(t.attempts, job) == [number] {
      OpenIsLatest(t.attempts, job, number);
    }
    assert Latest(t.attempts, job).Some? && Latest(t.attempts, job).value.number == number;
    LatestIsLast(t.attempts, job);
    assert numbers[|numbers| - 1] == |numbers|;
  }
}
