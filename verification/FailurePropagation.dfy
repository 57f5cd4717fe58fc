/** Blocking everything that waits, directly or not, on a job that failed for good. */
module FailurePropagation {
  import opened Prelude
  import opened JobStates
  import opened RunTables

  // ----- what ends up blocked -----

  /** A chain of dependencies from one job through waiting jobs only. */
  ghost predicate WaitingChain(t: Tables, from: string, path: seq<string>) {
    && |path| > 1 && Chain(t.dependencies, path) && path[0] == from
    && forall k :: 0 < k < |path| ==> path[k] in t.jobs && IsWaiting(t.jobs[path[k]].state)
  }

  ghost predicate WaitsOn(t: Tables, from: string, job: string) {
    exists path :: WaitingChain(t, from, path) && path[|path| - 1] == job
  }

  /** The row of a newly blocked job: it names a predecessor that is the failed job or newly blocked itself. */
  ghost predicate NewlyBlocked(t: Tables, failed: string, blocked: set<string>, job: string, row: JobRow)
    requires job in t.jobs
  {
    && row == t.jobs[job].(state := Blocked, terminal := true, blocker := row.blocker)
    && row.blocker.Some? && (row.blocker.value, job) in t.dependencies
    && (row.blocker.value == failed || row.blocker.value in blocked)
  }

  ghost predicate Rewritten(t: Tables, failed: string, blocked: set<string>, jobs: Jobs) {
    && jobs.Keys == t.jobs.Keys && blocked <= t.jobs.Keys
    && (forall job :: job in blocked ==> NewlyBlocked(t, failed, blocked, job, jobs[job]))
    && (forall job :: job in jobs && job !in blocked ==> jobs[job] == t.jobs[job])
  }

  /** Exactly the jobs waiting on the failed one are blocked, and nothing else changes. */
  ghost predicate Propagated(t: Tables, failed: string, blocked: set<string>, after: Tables) {
    && after == t.(jobs := after.jobs) && Rewritten(t, failed, blocked, after.jobs)
    && forall job :: job in blocked <==> WaitsOn(t, failed, job)
  }

  // ----- the worklist -----

  ghost predicate AllWaitOn(t: Tables, failed: string, blocked: set<string>) {
    forall job :: job in blocked ==> WaitsOn(t, failed, job)
  }

  /** Whatever waits directly on a finished job has been blocked. */
  ghost predicate Expanded(t: Tables, done: set<string>, blocked: set<string>) {
    forall d :: d in t.dependencies && d.0 in done && d.1 in t.jobs && IsWaiting(t.jobs[d.1].state) ==> d.1 in blocked
  }

  lemma {:induction false} ChainSnoc(dependencies: Dependencies, path: seq<string>, job: string)
    requires |path| > 0 && Chain(dependencies, path) && (path[|path| - 1], job) in dependencies
    ensures Chain(dependencies, path + [job])
  {
    var longer := path + [job];
    forall k, l | 0 <= k < l < |longer| && l == k + 1 ensures (longer[k], longer[l]) in dependencies {
      if l < |path| { assert longer[k] == path[k] && longer[l] == path[l]; }
    }
  }

  /** A waiting successor of the failed job, or of one that waits on it, waits on it too. */
  lemma {:induction false} WaitsFurther(t: Tables, failed: string, predecessor: string, job: string)
    requires predecessor == failed || WaitsOn(t, failed, predecessor)
    requires (predecessor, job) in t.dependencies && job in t.jobs && IsWaiting(t.jobs[job].state)
    ensures WaitsOn(t, failed, job)
  {
    if predecessor == failed {
      assert WaitingChain(t, failed, [failed, job]);
    } else {
      var path :| WaitingChain(t, failed, path) && path[|path| - 1] == predecessor;
      ChainSnoc(t.dependencies, path, job);
      assert WaitingChain(t, failed, path + [job]);
    }
  }

  /** Once everything reached has been expanded, everything reachable has been reached. */
  lemma {:induction false} ReachedAll(t: Tables, failed: string, blocked: set<string>, path: seq<string>, k: nat)
    requires Expanded(t, blocked + {failed}, blocked) && WaitingChain(t, failed, path) && 0 < k < |path|
    ensures path[k] in blocked
  {
    if k > 1 { ReachedAll(t, failed, blocked, path, k - 1); }
    assert (path[k - 1], path[k]) in t.dependencies;
  }

  lemma {:induction false} WorklistDone(t: Tables, failed: string, blocked: set<string>)
    requires AllWaitOn(t, failed, blocked) && Expanded(t, blocked + {failed}, blocked)
    ensures forall job :: job in blocked <==> WaitsOn(t, failed, job)
  {
    forall job | WaitsOn(t, failed, job) ensures job in blocked {
      var path :| WaitingChain(t, failed, path) && path[|path| - 1] == job;
      ReachedAll(t, failed, blocked, path, |path| - 1);
    }
  }

  /** Waiting jobs have no open attempt to close. */
  lemma {:induction false} NothingOpen(
      jobs: Jobs, attempts: seq<Attempt>, job: string, attempt: Option<nat>, next: JobState)
    requires AttemptsMatch(jobs, attempts) && job in jobs && !IsActive(jobs[job].state) && !IsActive(next)
    ensures MovedAttempts(attempts, job, attempt, next) == attempts
  {
  }

  // ----- why propagating restores the invariant -----

  /** The invariant, except that successors of the job that just failed may still be waiting. */
  ghost predicate InvExcept(t: Tables, failed: string) {
    && WellFormed(t) && AttemptsMatch(t.jobs, t.attempts) && RowsOk(t.jobs) && Gated(t) && BlockedForReason(t)
    && failed in t.jobs && RootFailure(t.jobs[failed]) && !IsWaiting(t.jobs[failed].state)
    && !t.jobs[failed].state.Verified?
    && (forall d :: d in t.dependencies && d.0 in t.jobs && d.1 in t.jobs && d.0 != failed ==>
          Dead(t.jobs[d.0]) ==> t.jobs[d.1].state.Blocked?)
  }

  lemma {:induction false} NewlyBlockedWaited(
      t: Tables, failed: string, blocked: set<string>, after: Tables, job: string)
    requires Propagated(t, failed, blocked, after) && job in blocked
    ensures job in t.jobs && IsWaiting(t.jobs[job].state) && after.jobs[job].state.Blocked?
  {
    assert WaitsOn(t, failed, job);
    var path :| WaitingChain(t, failed, path) && path[|path| - 1] == job;
  }

  /** Rows that were not waiting are as they were. */
  lemma {:induction false} OthersKept(t: Tables, failed: string, blocked: set<string>, after: Tables, job: string)
    requires Propagated(t, failed, blocked, after) && job in t.jobs && !IsWaiting(t.jobs[job].state)
    ensures job in after.jobs && after.jobs[job] == t.jobs[job]
  {
    if job in blocked { NewlyBlockedWaited(t, failed, blocked, after, job); }
  }

  lemma {:induction false} PropagationReaches(t: Tables, failed: string, blocked: set<string>, after: Tables)
    requires InvExcept(t, failed) && Propagated(t, failed, blocked, after)
    ensures FailuresPropagated(after)
  {
    forall d | d in after.dependencies && d.0 in after.jobs && d.1 in after.jobs && Dead(after.jobs[d.0])
      ensures after.jobs[d.1].state.Blocked?
    {
      var p, s := d.0, d.1;
      if p in blocked || p == failed {
        if p in blocked { NewlyBlockedWaited(t, failed, blocked, after, p); }
        assert !t.jobs[p].state.Verified?;
        if IsWaiting(t.jobs[s].state) {
          WaitsFurther(t, failed, p, s);
          NewlyBlockedWaited(t, failed, blocked, after, s);
        } else {
          OthersKept(t, failed, blocked, after, s);
        }
      } else {
        assert after.jobs[p] == t.jobs[p];
        OthersKept(t, failed, blocked, after, s);
      }
    }
  }

  lemma {:induction false} PropagationGates(t: Tables, failed: string, blocked: set<string>, after: Tables)
    requires InvExcept(t, failed) && Propagated(t, failed, blocked, after)
    ensures Gated(after) && RowsOk(after.jobs)
  {
    forall d | d in after.dependencies && d.0 in after.jobs && d.1 in after.jobs
      ensures IsWaiting(after.jobs[d.1].state) || after.jobs[d.1].state.Blocked? || after.jobs[d.0].state.Verified?
    {
      if d.1 in blocked {
        NewlyBlockedWaited(t, failed, blocked, after, d.1);
      } else if t.jobs[d.0].state.Verified? {
        OthersKept(t, failed, blocked, after, d.0);
      }
    }
    forall job | job in after.jobs ensures RowOk(after.jobs[job]) {
      assert RowOk(t.jobs[job]);
    }
  }

  lemma {:induction false} PropagationKeepsAttempts(t: Tables, failed: string, blocked: set<string>, after: Tables)
    requires InvExcept(t, failed) && Propagated(t, failed, blocked, after)
    ensures WellFormed(after) && AttemptsMatch(after.jobs, after.attempts)
  {
    forall job | job in t.jobs
      ensures job in after.jobs && (IsActive(after.jobs[job].state) <==> IsActive(t.jobs[job].state))
    {
      if job in blocked { NewlyBlockedWaited(t, failed, blocked, after, job); }
    }
  }

  /** A chain from the failed job makes it a failed ancestor. */
  lemma {:induction false} WaitsMeansAncestor(
      t: Tables, failed: string, blocked: set<string>, after: Tables, job: string)
    requires InvExcept(t, failed) && Propagated(t, failed, blocked, after) && WaitsOn(t, failed, job)
    ensures FailedAncestor(after, job)
  {
    var path :| WaitingChain(t, failed, path) && path[|path| - 1] == job;
    OthersKept(t, failed, blocked, after, failed);
    assert Chain(after.dependencies, path) && path[0] in after.jobs && RootFailure(after.jobs[path[0]]);
  }

  lemma {:induction false} AncestorKept(t: Tables, after: Tables, job: string)
    requires FailedAncestor(t, job) && t.dependencies <= after.dependencies
    requires forall p :: p in t.jobs && RootFailure(t.jobs[p]) ==> p in after.jobs && RootFailure(after.jobs[p])
    ensures FailedAncestor(after, job)
  {
    var path :| |path| > 1 && Chain(t.dependencies, path) && path[|path| - 1] == job && path[0] in t.jobs
      && RootFailure(t.jobs[path[0]]);
    assert Chain(after.dependencies, path);
  }

  lemma {:induction false} PropagationExplains(t: Tables, failed: string, blocked: set<string>, after: Tables)
    requires InvExcept(t, failed) && Propagated(t, failed, blocked, after)
    ensures BlockedForReason(after)
  {
    forall p | p in t.jobs && Dead(t.jobs[p]) ensures after.jobs[p] == t.jobs[p] {
      assert RowOk(t.jobs[p]);
      OthersKept(t, failed, blocked, after, p);
    }
    forall job | job in after.jobs && after.jobs[job].state.Blocked? ensures HasReason(after, job) {
      if job in blocked {
        WaitsMeansAncestor(t, failed, blocked, after, job);
        var b := after.jobs[job].blocker.value;
        if b in blocked { NewlyBlockedWaited(t, failed, blocked, after, b); }
      } else {
        assert HasReason(t, job);
        AncestorKept(t, after, job);
      }
    }
  }

  /** Propagating the failure restores the invariant. */
  lemma {:induction false} PropagationRestores(t: Tables, failed: string, blocked: set<string>, after: Tables)
    requires InvExcept(t, failed) && Propagated(t, failed, blocked, after)
    ensures Inv(after)
  {
    PropagationReaches(t, failed, blocked, after);
    PropagationGates(t, failed, blocked, after);
    PropagationKeepsAttempts(t, failed, blocked, after);
    PropagationExplains(t, failed, blocked, after);
  }
}
