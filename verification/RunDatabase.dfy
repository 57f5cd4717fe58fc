/** The run database: every operation on a run's jobs, and the invariant each of them keeps. */
module RunDatabase {
  import opened Prelude
  import opened JobStates
  import opened RunTables
  import opened FailurePropagation
  import opened RunSteps
  import opened RunOperations
  import opened RunHistory

  // ----- the database -----

  class RunDb {
    var jobs: Jobs
    var dependencies: Dependencies
    var attempts: seq<Attempt>

    ghost function Snapshot(): Tables
      reads this
    {
      Tables(jobs, dependencies, attempts)
    }

    ghost predicate Valid()
      reads this
    {
      Inv(Snapshot())
    }

    constructor ()
      ensures Valid() && Snapshot() == Tables(map[], {}, [])
    {
      jobs, dependencies, attempts := map[], {}, [];
    }

    method InsertJob(id: string, kind: JobKind) returns (ok: bool)
      requires Valid()
      modifies this
      ensures Valid() && (ok <==> id !in old(jobs))
      ensures Snapshot() == if ok then old(Snapshot()).(jobs := old(jobs)[id := NewRow(kind)]) else old(Snapshot())
    {
      if id in jobs {
        return false;
      }
      InsertKeeps(Snapshot(), id, kind);
      jobs := jobs[id := NewRow(kind)];
      ok := true;
    }

    method AddDependency(p: string, s: string) returns (ok: bool)
      requires Valid()
      modifies this
      ensures ok <==> p in old(jobs) && s in old(jobs) && p != s && (p, s) !in old(dependencies)
      ensures Snapshot() == if ok then old(Snapshot()).(dependencies := old(dependencies) + {(p, s)})
        else old(Snapshot())
      ensures Valid() <==> !ok || Addable(old(Snapshot()), p, s)
    {
      if p !in jobs || s !in jobs || p == s || (p, s) in dependencies {
        return false;
      }
      AddKeepsExactly(Snapshot(), p, s);
      dependencies := dependencies + {(p, s)};
      ok := true;
    }

    /** One event, written to the job's row and to its attempts. */
    method ApplyEventTx(job: string, attempt: Option<nat>, e: JobEvent, count: Option<U32>) returns (ok: bool)
      modifies this`jobs, this`attempts
      ensures ok <==> ApplyEvent(old(Snapshot()), job, attempt, e, count).Some?
      ensures Snapshot() == if ok then ApplyEvent(old(Snapshot()), job, attempt, e, count).value else old(Snapshot())
    {
      if job !in jobs {
        return false;
      }
      var next := Transition(jobs[job].state, e);
      if next.None? {
        return false;
      }
      jobs := jobs[job := MovedRow(jobs[job], next.value, e, count)];
      attempts := MovedAttempts(attempts, job, attempt, next.value);
      ok := true;
    }

    method Begin(job: string, e: JobEvent) returns (r: Option<nat>)
      requires Valid()
      modifies this
      ensures Valid() && (r.Some? <==> BeginAttempt(old(Snapshot()), job, e).Some?)
      ensures if r.Some? then BeginAttempt(old(Snapshot()), job, e) == Some((Snapshot(), r.value))
        else Snapshot() == old(Snapshot())
    {
      if !StartsAttempt(e) || job !in jobs || !StartMatchesKind(jobs[job].kind, e)
        || |OpenNumbers(attempts, job)| != 0
      {
        return None;
      }
      var next := Transition(jobs[job].state, e);
      if jobs[job].attemptCount == 0xffff_ffff || next.None? {
        return None;
      }
      BeginKeeps(Snapshot(), job, e);
      var number := jobs[job].attemptCount + 1;
      attempts := attempts + [Attempt(job, number, next.value, true)];
      var applied := ApplyEventTx(job, Some(number), e, Some(number));
      r := Some(number);
    }

    method ApplyAttemptEvent(job: string, number: nat, e: JobEvent) returns (ok: bool)
      requires Valid()
      modifies this
      ensures Valid() && (ok <==> AttemptEvent(old(Snapshot()), job, number, e).Some?)
      ensures Snapshot() == if ok then AttemptEvent(old(Snapshot()), job, number, e).value else old(Snapshot())
    {
      if !(e.WitnessCompleted? || e.PreparationCompleted? || e.ProofProduced? || e.WasInterrupted?)
        || OpenNumbers(attempts, job) != [number]
      {
        return false;
      }
      ghost var before := Snapshot();
      ok := ApplyEventTx(job, Some(number), e, None);
      if ok { AttemptEventKeeps(before, job, number, e); }
    }

    method Complete(job: string, number: nat) returns (ok: bool)
      requires Valid()
      modifies this
      ensures Valid() && (ok <==> CompleteVerification(old(Snapshot()), job, number).Some?)
      ensures Snapshot() == if ok then CompleteVerification(old(Snapshot()), job, number).value else old(Snapshot())
    {
      var isSource := IsVerificationSource(Tables(jobs, dependencies, attempts), job, number);
      if !isSource {
        return false;
      }
      ghost var before := Snapshot();
      ok := ApplyEventTx(job, Some(number), VerificationSucceeded(true), None);
      if ok { CompleteKeeps(before, job, number); }
    }

    // ----- failures -----

    /** Blocks one successor if it is still waiting. */
    method BlockSuccessor(
        predecessor: string, successor: string, ghost t: Tables, ghost failed: string, ghost blocked: set<string>)
      returns (isNew: bool)
      requires AttemptsMatch(t.jobs, t.attempts) && Rewritten(t, failed, blocked, jobs) && attempts == t.attempts
        && successor in t.jobs
      requires (predecessor, successor) in t.dependencies && (predecessor == failed || predecessor in blocked)
      modifies this`jobs, this`attempts
      ensures attempts == t.attempts && (isNew <==> IsWaiting(t.jobs[successor].state) && successor !in blocked)
      ensures Rewritten(t, failed, if isNew then blocked + {successor} else blocked, jobs)
    {
      isNew := IsWaiting(jobs[successor].state);
      if isNew {
        NotYetBlocked(t, failed, blocked, jobs, successor);
        BlockOne(t, failed, blocked, jobs, predecessor, successor);
        NothingOpen(t.jobs, t.attempts, successor, None, Blocked);
        var applied := ApplyEventTx(successor, None, DependencyBlocked(predecessor), None);
        jobs := jobs[successor := jobs[successor].(terminal := true)];
      } else {
        SkippedIsSettled(t, failed, blocked, jobs, successor);
      }
    }

    /** Blocks the waiting jobs among one job's direct successors. */
    method BlockSuccessors(
        predecessor: string, successors: seq<string>, ghost t: Tables, ghost failed: string,
        ghost blocked: set<string>)
      returns (pushed: seq<string>, ghost reached: set<string>)
      requires AttemptsMatch(t.jobs, t.attempts) && Rewritten(t, failed, blocked, jobs) && attempts == t.attempts
      requires predecessor == failed || predecessor in blocked
      requires forall k :: 0 <= k < |successors| ==>
        successors[k] in t.jobs && (predecessor, successors[k]) in t.dependencies
      modifies this`jobs, this`attempts
      ensures attempts == t.attempts && Rewritten(t, failed, reached, jobs)
      ensures Pushed(t, predecessor, successors, blocked, pushed, reached)
    {
      pushed, reached := [], blocked;
      for k := 0 to |successors|
        invariant attempts == t.attempts && Rewritten(t, failed, reached, jobs)
        invariant Pushed(t, predecessor, successors[..k], blocked, pushed, reached)
      {
        var isNew := BlockSuccessor(predecessor, successors[k], t, failed, reached);
        PushOne(t, predecessor, successors, k, blocked, pushed, reached, isNew);
        if isNew {
          pushed := pushed + [successors[k]];
          reached := reached + {successors[k]};
        }
      }
      assert successors[..|successors|] == successors;
    }

    /** Blocks everything that waits on a failed job, directly or through waiting jobs. */
    method BlockDescendants(failed: string) returns (ghost blocked: set<string>)
      requires WellFormed(Snapshot()) && AttemptsMatch(jobs, attempts)
      modifies this`jobs, this`attempts
      ensures Propagated(old(Snapshot()), failed, blocked, Snapshot())
    {
      ghost var t, done: set<string> := Snapshot(), {};
      blocked := {};
      var frontier := [failed];
      while |frontier| > 0
        invariant attempts == t.attempts && Rewritten(t, failed, blocked, jobs)
          && Worklist(t, failed, blocked, done, frontier)
        decreases t.jobs.Keys - blocked, |frontier|
      {
        var predecessor := frontier[|frontier| - 1];
        var successors := SuccessorsOf(predecessor);
        ghost var before := blocked;
        assert predecessor in Elements(frontier) && predecessor in blocked + {failed};
        var pushed;
        pushed, blocked := BlockSuccessors(predecessor, successors, t, failed, blocked);
        WorklistStep(t, failed, before, done, frontier, successors, pushed, blocked);
        done := done + {predecessor};
        frontier := frontier[..|frontier| - 1] + pushed;
      }
      assert Elements(frontier) == {};
      WorklistDone(t, failed, blocked);
    }

    method SuccessorsOf(job: string) returns (successors: seq<string>)
      ensures Elements(successors) == set d | d in dependencies && d.0 == job :: d.1
      ensures forall k :: 0 <= k < |successors| ==> (job, successors[k]) in dependencies
    {
      TextOrder();
      successors := SortedVector(TextLe, set d | d in dependencies && d.0 == job :: d.1);
      assert forall k :: 0 <= k < |successors| ==> successors[k] in Elements(successors);
    }

    method FailVerification(job: string, number: nat, kind: FailureKind) returns (ok: bool, ghost blocked: set<string>)
      requires Valid()
      modifies this
      ensures Valid()
      ensures ok <==> IsVerificationSource(old(Snapshot()), job, number) && kind.Verification?
      ensures !ok ==> Snapshot() == old(Snapshot())
      ensures ok ==> Step(old(Snapshot()), Reject(job, number, blocked), Snapshot())
    {
      blocked := {};
      ghost var before := Snapshot();
      var isSource := IsVerificationSource(Tables(jobs, dependencies, attempts), job, number);
      if !isSource {
        return false, {};
      }
      ok := ApplyEventTx(job, Some(number), FailedVerification(kind), None);
      if !ok {
        return;
      }
      jobs := jobs[job := jobs[job].(terminal := true)];
      ghost var failed := Snapshot();
      FailForGoodKeeps(before, job, number, FailedVerification(kind));
      blocked := BlockDescendants(job);
      PropagationRestores(failed, job, blocked, Snapshot());
    }

    /** `observed` says whether the failure came with a measured peak of memory. */
    method HandleAttemptFailure(job: string, number: nat, kind: FailureKind, observed: bool)
      returns (r: Option<RetryDecision>, ghost blocked: set<string>)
      requires Valid()
      modifies this
      ensures Valid()
      ensures r.Some? <==>
        (kind.Execution? || kind.Resources?) && observed == kind.Resources?
        && OpenNumbers(old(attempts), job) == [number]
      ensures r.None? ==> Snapshot() == old(Snapshot())
      ensures r.Some? ==>
        job in old(jobs) && (r.value.WasRequeued? <==>
          if kind.Resources? then old(jobs)[job].resourceRequeues < 3 else old(jobs)[job].executionRetries < 2)
      ensures r == Some(WasRequeued) ==> job in old(jobs) && jobs == old(jobs)[job := RequeuedRow(old(jobs)[job], kind)]
      ensures r == Some(WasRequeued) ==> Step(old(Snapshot()), Retry(job, number, kind), Snapshot())
      ensures r == Some(WasTerminal) ==> Step(old(Snapshot()), GiveUp(job, number, kind, blocked), Snapshot())
    {
      blocked := {};
      if kind.Resources? != observed || !(kind.Execution? || kind.Resources?)
        || OpenNumbers(attempts, job) != [number]
      {
        return None, {};
      }
      ghost var before := Snapshot();
      OpenMeansActive(before, job, number);
      var retries := Retries(jobs[job], kind);
      if retries < RetryLimit(kind) {
        RequeueKeeps(before, job, number, kind);
        RequeueExact(before, job, number, kind);
        RequeueFailed(job, number, kind);
        return Some(WasRequeued), {};
      }
      FailureApplies(before, job, number, kind);
      FailForGoodKeeps(before, job, number, FailureEvent(kind));
      var applied := ApplyEventTx(job, Some(number), FailureEvent(kind), None);
      jobs := jobs[job := jobs[job].(terminal := true)];
      ghost var failed := Snapshot();
      blocked := BlockDescendants(job);
      PropagationRestores(failed, job, blocked, Snapshot());
      r := Some(WasTerminal);
    }

    method RequeueFailed(job: string, number: nat, kind: FailureKind)
      requires job in jobs && Requeue(Snapshot(), job, number, kind).Some?
      modifies this
      ensures Requeue(old(Snapshot()), job, number, kind) == Some(Snapshot())
    {
      var failed := ApplyEventTx(job, Some(number), FailureEvent(kind), None);
      jobs := jobs[job := Counted(jobs[job], kind)];
      var retried := ApplyEventTx(job, Some(number), RetryEvent(kind), None);
    }

    // ----- readiness and recovery -----

    /** Makes ready every waiting job whose predecessors are verified, and counts them. */
    method RefreshReadiness() returns (ready: nat)
      requires Valid()
      modifies this
      ensures Valid() && Step(old(Snapshot()), Refresh, Snapshot())
      ensures ready == |ReadySet(old(Snapshot()), old(jobs).Keys)|
    {
      ghost var t := Snapshot();
      TextOrder();
      var candidates := SortedVector(TextLe, set job | job in jobs && IsWaiting(jobs[job].state));
      CandidatesWait(t, candidates);
      ready := 0;
      for k := 0 to |candidates|
        invariant Snapshot() == RefreshAll(t, candidates[..k]) && ready == |ReadySet(t, Elements(candidates[..k]))|
      {
        RefreshCounts(t, candidates, k);
        var isReady := RefreshJob(candidates[k]);
        ready := ready + if isReady then 1 else 0;
      }
      assert candidates[..|candidates|] == candidates;
      RefreshKeeps(t, candidates);
      EveryoneConsidered(t, candidates, Snapshot());
      assert ReadySet(t, t.jobs.Keys) == ReadySet(t, Elements(candidates));
    }

    method RefreshJob(job: string) returns (ready: bool)
      modifies this
      ensures Snapshot() == RefreshOne(old(Snapshot()), job) && (ready <==> PredecessorsVerified(old(Snapshot()), job))
    {
      TextOrder();
      var predecessors := SortedVector(TextLe, PredecessorSet(Tables(jobs, dependencies, attempts), job));
      SortedSetUnique(TextLe, predecessors, Predecessors(Snapshot(), job));
      AllVerifiedExact(Snapshot(), job, predecessors);
      ready := forall k :: 0 <= k < |predecessors| ==> predecessors[k] in jobs && jobs[predecessors[k]].state.Verified?;
      if ready {
        var applied := ApplyEventTx(job, None, DependenciesSatisfied, None);
        return;
      }
      var dead := FirstDead(Tables(jobs, dependencies, attempts), predecessors);
      if dead.Some? {
        var applied := ApplyEventTx(job, None, DependencyBlocked(dead.value), None);
      }
    }

    /** Interrupts an open attempt and puts its job back to wait. */
    method RecoverAttempt(job: string, number: nat)
      requires RecoverOne(Snapshot(), job, number).Some?
      modifies this
      ensures RecoverOne(old(Snapshot()), job, number) == Some(Snapshot())
    {
      var interrupted := ApplyEventTx(job, Some(number), WasInterrupted(Interruption), None);
      var requeued := ApplyEventTx(job, Some(number), RecoveryRequeue, None);
    }

    /** Puts every active job back to wait, closing its attempt, and counts them. */
    method RecoverInterrupted() returns (recovered: nat)
      requires Valid()
      modifies this
      ensures Valid() && Step(old(Snapshot()), Recover, Snapshot()) && recovered == OpenCount(old(attempts))
      ensures Quiet(Snapshot())
    {
      ghost var t := Snapshot();
      var open := attempts;
      recovered := 0;
      for k := 0 to |open|
        invariant Snapshot() == RecoverUpTo(t, k) && recovered == OpenCount(open[..k])
      {
        assert open[..k + 1][..k] == open[..k];
        if open[k].open {
          NextRecovers(t, k);
          RecoverAttempt(open[k].job, open[k].number);
          recovered := recovered + 1;
        }
      }
      assert open[..|open|] == open;
      RecoverUpToKeeps(t, |open|);
      AllRecovered(t, Snapshot());
    }
  }

  // ----- steps of the loops -----

  lemma {:induction false} NotYetBlocked(t: Tables, failed: string, blocked: set<string>, jobs: Jobs, job: string)
    requires Rewritten(t, failed, blocked, jobs) && job in jobs && IsWaiting(jobs[job].state)
    ensures job !in blocked && jobs[job] == t.jobs[job]
  {
    assert job in blocked ==> NewlyBlocked(t, failed, blocked, job, jobs[job]);
  }

  lemma {:induction false} SkippedIsSettled(t: Tables, failed: string, blocked: set<string>, jobs: Jobs, job: string)
    requires Rewritten(t, failed, blocked, jobs) && job in jobs && !IsWaiting(jobs[job].state)
    ensures job in t.jobs && (IsWaiting(t.jobs[job].state) ==> job in blocked)
  {
  }

  lemma {:induction false} BlockOne(
      t: Tables, failed: string, blocked: set<string>, jobs: Jobs, predecessor: string, job: string)
    requires Rewritten(t, failed, blocked, jobs) && job in jobs && job !in blocked && IsWaiting(jobs[job].state)
    requires (predecessor, job) in t.dependencies && (predecessor == failed || predecessor in blocked)
    ensures Rewritten(t, failed, blocked + {job},
      jobs[job := MovedRow(jobs[job], Blocked, DependencyBlocked(predecessor), None).(terminal := true)])
  {
    var after := jobs[job := MovedRow(jobs[job], Blocked, DependencyBlocked(predecessor), None).(terminal := true)];
    forall other | other in blocked + {job} ensures NewlyBlocked(t, failed, blocked + {job}, other, after[other]) {
      if other != job { assert NewlyBlocked(t, failed, blocked, other, jobs[other]); }
    }
  }

  /** What blocking some successors adds: the new ones, each waiting on its predecessor, and no waiting one missed. */
  ghost predicate Pushed(
      t: Tables, predecessor: string, successors: seq<string>, blocked: set<string>, pushed: seq<string>,
      reached: set<string>)
  {
    && reached == blocked + Elements(pushed) && (forall k :: 0 <= k < |pushed| ==> pushed[k] !in blocked)
    && (forall k :: 0 <= k < |pushed| ==>
      (predecessor, pushed[k]) in t.dependencies && pushed[k] in t.jobs && IsWaiting(t.jobs[pushed[k]].state))
    && (forall k :: 0 <= k < |successors| && successors[k] in t.jobs && IsWaiting(t.jobs[successors[k]].state) ==>
      successors[k] in reached)
  }

  lemma {:induction false} PushOne(
      t: Tables, predecessor: string, successors: seq<string>, k: nat, blocked: set<string>, pushed: seq<string>,
      reached: set<string>, isNew: bool)
    requires k < |successors| && Pushed(t, predecessor, successors[..k], blocked, pushed, reached)
    requires successors[k] in t.jobs && (predecessor, successors[k]) in t.dependencies
    requires isNew <==> IsWaiting(t.jobs[successors[k]].state) && successors[k] !in reached
    ensures Pushed(t, predecessor, successors[..k + 1], blocked, if isNew then pushed + [successors[k]] else pushed,
                   if isNew then reached + {successors[k]} else reached)
  {
    assert successors[..k + 1] == successors[..k] + [successors[k]];
    assert Elements(pushed + [successors[k]]) == Elements(pushed) + {successors[k]};
  }

  /** The state of the worklist: what is blocked waits on the failed job, and all but the frontier has been expanded. */
  ghost predicate Worklist(t: Tables, failed: string, blocked: set<string>, done: set<string>, frontier: seq<string>) {
    AllWaitOn(t, failed, blocked) && Expanded(t, done, blocked) && blocked + {failed} == done + Elements(frontier)
  }

  lemma {:induction false} WorklistStep(
      t: Tables, failed: string, blocked: set<string>, done: set<string>, frontier: seq<string>,
      successors: seq<string>, pushed: seq<string>, reached: set<string>)
    requires Worklist(t, failed, blocked, done, frontier) && |frontier| > 0 && blocked <= t.jobs.Keys
    requires Elements(successors) == set d | d in t.dependencies && d.0 == frontier[|frontier| - 1] :: d.1
    requires Pushed(t, frontier[|frontier| - 1], successors, blocked, pushed, reached)
    ensures Worklist(t, failed, reached, done + {frontier[|frontier| - 1]}, frontier[..|frontier| - 1] + pushed)
    ensures |pushed| == 0 ==> reached == blocked
    ensures |pushed| > 0 ==> t.jobs.Keys - reached < t.jobs.Keys - blocked
  {
    var n := |frontier| - 1;
    var predecessor := frontier[n];
    assert frontier == frontier[..n] + [predecessor];
    assert Elements(frontier[..n] + pushed) == Elements(frontier[..n]) + Elements(pushed);
    assert Elements(frontier) == Elements(frontier[..n]) + {predecessor};
    assert predecessor in Elements(frontier);
    PushedWait(t, failed, blocked, predecessor, pushed);
    ExpandedMore(t, done, blocked, predecessor, successors, reached);
    if |pushed| > 0 { assert pushed[0] in reached && pushed[0] in t.jobs.Keys - blocked; }
  }

  lemma {:induction false} PushedWait(
      t: Tables, failed: string, blocked: set<string>, predecessor: string, pushed: seq<string>)
    requires AllWaitOn(t, failed, blocked) && (predecessor == failed || predecessor in blocked)
    requires forall k :: 0 <= k < |pushed| ==>
      (predecessor, pushed[k]) in t.dependencies && pushed[k] in t.jobs && IsWaiting(t.jobs[pushed[k]].state)
    ensures AllWaitOn(t, failed, blocked + Elements(pushed))
  {
    forall job | job in blocked + Elements(pushed) ensures WaitsOn(t, failed, job) {
      if job !in blocked {
        var k :| 0 <= k < |pushed| && pushed[k] == job;
        WaitsFurther(t, failed, predecessor, job);
      }
    }
  }

  lemma {:induction false} ExpandedMore(
      t: Tables, done: set<string>, blocked: set<string>, predecessor: string, successors: seq<string>,
      reached: set<string>)
    requires Expanded(t, done, blocked)
      && Elements(successors) == (set d | d in t.dependencies && d.0 == predecessor :: d.1) && blocked <= reached
    requires forall k :: 0 <= k < |successors| && successors[k] in t.jobs && IsWaiting(t.jobs[successors[k]].state) ==>
      successors[k] in reached
    ensures Expanded(t, done + {predecessor}, reached)
  {
    forall d | d in t.dependencies && d.0 in done + {predecessor} && d.1 in t.jobs && IsWaiting(t.jobs[d.1].state)
      ensures d.1 in reached
    {
      if d.0 == predecessor {
        assert d.1 in Elements(successors);
        var k :| 0 <= k < |successors| && successors[k] == d.1;
      }
    }
  }

  lemma {:induction false} AllVerifiedExact(t: Tables, job: string, predecessors: seq<string>)
    requires Elements(predecessors) == PredecessorSet(t, job)
    ensures PredecessorsVerified(t, job) <==>
      forall k :: 0 <= k < |predecessors| ==> predecessors[k] in t.jobs && t.jobs[predecessors[k]].state.Verified?
  {
    forall k | 0 <= k < |predecessors| ensures predecessors[k] in t.jobs && (predecessors[k], job) in t.dependencies {
      assert predecessors[k] in Elements(predecessors);
    }
    if forall k :: 0 <= k < |predecessors| ==> t.jobs[predecessors[k]].state.Verified? {
      forall d | d in t.dependencies && d.1 == job && d.0 in t.jobs ensures t.jobs[d.0].state.Verified? {
        assert d.0 in Elements(predecessors);
        var k :| 0 <= k < |predecessors| && predecessors[k] == d.0;
      }
    }
  }
}
