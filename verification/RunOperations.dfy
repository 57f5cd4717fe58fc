/** The operations on a run that touch several jobs at once, or add to the run. */
module RunOperations {
  import opened Prelude
  import opened JobStates
  import opened RunTables
  import opened FailurePropagation
  import opened RunSteps

  datatype RetryDecision = WasRequeued | WasTerminal

  // ----- adding jobs and dependencies -----

  function NewRow(kind: JobKind): JobRow { JobRow(kind, Pending, false, None, 0, 0, 0) }

  lemma {:induction false} InsertKeeps(t: Tables, id: string, kind: JobKind)
    requires Inv(t) && id !in t.jobs
    ensures Inv(t.(jobs := t.jobs[id := NewRow(kind)]))
  {
    var after := t.(jobs := t.jobs[id := NewRow(kind)]);
    forall job | job in after.jobs && after.jobs[job].state.Blocked? ensures HasReason(after, job) {
      assert HasReason(t, job);
      AncestorKept(t, after, job);
    }
    forall job | job in after.jobs && IsActive(after.jobs[job].state) ensures HasOpen(after.attempts, job) {}
  }

  /**
   * A dependency a run can take on: its successor has not gone ahead, and has already been given up if the predecessor
   * has.
   */
  predicate Addable(t: Tables, p: string, s: string) {
    && p in t.jobs && s in t.jobs
    && (IsWaiting(t.jobs[s].state) || t.jobs[s].state.Blocked? || t.jobs[p].state.Verified?)
    && (Dead(t.jobs[p]) ==> t.jobs[s].state.Blocked?)
  }

  /** Adding a dependency, which nothing checks, keeps the invariant exactly when it is one the run can take on. */
  lemma {:induction false} AddKeepsExactly(t: Tables, p: string, s: string)
    requires Inv(t) && p in t.jobs && s in t.jobs && p != s
    ensures Inv(t.(dependencies := t.dependencies + {(p, s)})) <==> Addable(t, p, s)
  {
    var after := t.(dependencies := t.dependencies + {(p, s)});
    assert (p, s) in after.dependencies;
    if Addable(t, p, s) {
      forall job | job in after.jobs && after.jobs[job].state.Blocked? ensures HasReason(after, job) {
        assert HasReason(t, job);
        AncestorKept(t, after, job);
      }
    }
  }

  /** A job made ready before its first dependency is added: it is ready with an unverified predecessor. */
  lemma {:induction false} ReadyBeforeDependency(kind: JobKind)
    ensures var t := Tables(map["a" := NewRow(kind), "b" := NewRow(kind).(state := Ready)], {}, []);
      Inv(t) && !Addable(t, "a", "b") && !Inv(t.(dependencies := {("a", "b")}))
  {
    var t := Tables(map["a" := NewRow(kind), "b" := NewRow(kind).(state := Ready)], {}, []);
    assert "a" != "b";
    AddKeepsExactly(t, "a", "b");
    assert t.dependencies + {("a", "b")} == {("a", "b")};
  }

  // ----- readiness -----

  ghost function Predecessors(t: Tables, job: string): (r: seq<string>)
    ensures Elements(r) == PredecessorSet(t, job) && Distinct(r) && Sorted(TextLe, r)
  {
    TextOrder();
    Ascending(TextLe, PredecessorSet(t, job))
  }

  function PredecessorSet(t: Tables, job: string): set<string> {
    set d | d in t.dependencies && d.1 == job && d.0 in t.jobs :: d.0
  }

  function FirstDead(t: Tables, names: seq<string>): (r: Option<string>)
    ensures r.None? <==> forall k :: 0 <= k < |names| && names[k] in t.jobs ==> !Dead(t.jobs[names[k]])
    ensures r.Some? ==> r.value in names && r.value in t.jobs && Dead(t.jobs[r.value])
  {
    if |names| == 0 then None
    else if names[0] in t.jobs && Dead(t.jobs[names[0]]) then Some(names[0])
    else
      assert forall k :: 0 < k < |names| ==> names[k] == names[1..][k - 1];
      FirstDead(t, names[1..])
  }

  /** What refreshing decides for one waiting job. */
  ghost function ReadinessEvent(t: Tables, job: string): Option<JobEvent> {
    if PredecessorsVerified(t, job) then Some(DependenciesSatisfied)
    else
      match FirstDead(t, Predecessors(t, job))
      case None => None
      case Some(p) => Some(DependencyBlocked(p))
  }

  ghost function RefreshOne(t: Tables, job: string): Tables {
    match ReadinessEvent(t, job)
    case None => t
    case Some(e) =>
      match ApplyEvent(t, job, None, e, None)
      case None => t
      case Some(after) => after
  }

  ghost function RefreshAll(t: Tables, waiting: seq<string>): Tables {
    if |waiting| == 0 then t else RefreshOne(RefreshAll(t, waiting[..|waiting| - 1]), waiting[|waiting| - 1])
  }

  /** Every waiting job whose predecessors are all verified becomes ready; nothing else changes. */
  ghost predicate Refreshed(t: Tables, done: set<string>, after: Tables) {
    && after == t.(jobs := after.jobs) && after.jobs.Keys == t.jobs.Keys
    && forall job :: job in t.jobs ==>
         after.jobs[job] == if job in done && IsWaiting(t.jobs[job].state) && PredecessorsVerified(t, job)
                            then t.jobs[job].(state := Ready, blocker := None) else t.jobs[job]
  }

  ghost predicate AllWaiting(t: Tables, waiting: seq<string>) {
    Distinct(waiting) && forall k :: 0 <= k < |waiting| ==> waiting[k] in t.jobs && IsWaiting(t.jobs[waiting[k]].state)
  }

  /** Under the invariant no waiting job has a dead predecessor, so refreshing never blocks. */
  lemma {:induction false} WaitingIsNotDoomed(t: Tables, job: string)
    requires Inv(t) && job in t.jobs && IsWaiting(t.jobs[job].state)
    ensures ReadinessEvent(t, job) == if PredecessorsVerified(t, job) then Some(DependenciesSatisfied) else None
  {
    forall p | p in Predecessors(t, job) && p in t.jobs ensures !Dead(t.jobs[p]) {
      assert p in Elements(Predecessors(t, job));
      assert (p, job) in t.dependencies;
    }
  }

  lemma {:induction false} RefreshOneKeeps(t: Tables, job: string)
    requires Inv(t) && job in t.jobs && IsWaiting(t.jobs[job].state)
    ensures Inv(RefreshOne(t, job)) && Refreshed(t, {job}, RefreshOne(t, job))
  {
    WaitingIsNotDoomed(t, job);
    if PredecessorsVerified(t, job) {
      assert RowOk(t.jobs[job]);
      EventKeeps(t, job, None, DependenciesSatisfied);
      NothingOpen(t.jobs, t.attempts, job, None, Ready);
    }
  }

  /** Refreshing in any order of the waiting jobs makes ready exactly those whose predecessors are verified. */
  lemma {:induction false} RefreshKeeps(t: Tables, waiting: seq<string>)
    requires Inv(t) && AllWaiting(t, waiting)
    ensures Inv(RefreshAll(t, waiting)) && Refreshed(t, Elements(waiting), RefreshAll(t, waiting))
  {
    if |waiting| == 0 {
    } else {
      var n := |waiting| - 1;
      var before, job, done := RefreshAll(t, waiting[..n]), waiting[n], Elements(waiting[..n]);
      RefreshKeeps(t, waiting[..n]);
      LastIsNew(waiting);
      RefreshOneKeeps(before, job);
      RefreshedThen(t, done, before, job, RefreshOne(before, job));
    }
  }

  lemma {:induction false} LastIsNew(waiting: seq<string>)
    requires Distinct(waiting) && |waiting| > 0
    ensures var n := |waiting| - 1;
      waiting[n] !in Elements(waiting[..n]) && Elements(waiting) == Elements(waiting[..n]) + {waiting[n]}
  {
    var n := |waiting| - 1;
    assert waiting == waiting[..n] + [waiting[n]];
  }

  lemma {:induction false} RefreshedThen(t: Tables, done: set<string>, middle: Tables, job: string, after: Tables)
    requires Refreshed(t, done, middle) && Refreshed(middle, {job}, after) && job in t.jobs && job !in done
    ensures Refreshed(t, done + {job}, after)
  {
    SameVerified(t, done, middle, job);
  }

  lemma {:induction false} SameVerified(t: Tables, done: set<string>, after: Tables, job: string)
    requires Refreshed(t, done, after)
    ensures PredecessorsVerified(after, job) <==> PredecessorsVerified(t, job)
  {
    forall p | p in t.jobs ensures after.jobs[p].state.Verified? <==> t.jobs[p].state.Verified? {}
  }

  lemma {:induction false} CandidatesWait(t: Tables, candidates: seq<string>)
    requires Distinct(candidates) && Elements(candidates) == set job | job in t.jobs && IsWaiting(t.jobs[job].state)
    ensures AllWaiting(t, candidates)
  {
    forall k | 0 <= k < |candidates| ensures candidates[k] in t.jobs && IsWaiting(t.jobs[candidates[k]].state) {
      assert candidates[k] in Elements(candidates);
    }
  }

  lemma {:induction false} EveryoneConsidered(t: Tables, candidates: seq<string>, after: Tables)
    requires Elements(candidates) == set job | job in t.jobs && IsWaiting(t.jobs[job].state)
    requires Refreshed(t, Elements(candidates), after)
    ensures Refreshed(t, t.jobs.Keys, after)
  {
  }

  lemma {:induction false} RefreshedOnce(t: Tables, done: set<string>, after: Tables, after': Tables)
    requires Refreshed(t, done, after) && Refreshed(t, done, after')
    ensures after == after'
  {
    assert after.jobs == after'.jobs;
  }

  /** The waiting jobs among some whose predecessors are all verified. */
  ghost function ReadySet(t: Tables, jobs: set<string>): set<string> {
    set job | job in jobs && job in t.jobs && IsWaiting(t.jobs[job].state) && PredecessorsVerified(t, job)
  }

  /** One more candidate considered. */
  lemma {:induction false} RefreshCounts(t: Tables, waiting: seq<string>, k: nat)
    requires Inv(t) && AllWaiting(t, waiting) && k < |waiting|
    ensures RefreshAll(t, waiting[..k + 1]) == RefreshOne(RefreshAll(t, waiting[..k]), waiting[k])
    ensures PredecessorsVerified(RefreshAll(t, waiting[..k]), waiting[k]) <==> PredecessorsVerified(t, waiting[k])
    ensures |ReadySet(t, Elements(waiting[..k + 1]))|
      == |ReadySet(t, Elements(waiting[..k]))| + (if PredecessorsVerified(t, waiting[k]) then 1 else 0)
  {
    var job := waiting[k];
    assert waiting[..k + 1][..k] == waiting[..k];
    RefreshKeeps(t, waiting[..k]);
    SameVerified(t, Elements(waiting[..k]), RefreshAll(t, waiting[..k]), job);
    LastIsNew(waiting[..k + 1]);
    var before, after := ReadySet(t, Elements(waiting[..k])), ReadySet(t, Elements(waiting[..k + 1]));
    assert after == if PredecessorsVerified(t, job) then before + {job} else before;
  }

  // ----- recovery -----

  function OpenCount(attempts: seq<Attempt>): nat {
    if |attempts| == 0 then 0
      else OpenCount(attempts[..|attempts| - 1]) + (if attempts[|attempts| - 1].open then 1 else 0)
  }

  /** Every active job waits again and its open attempt is closed as interrupted. */
  ghost predicate Recovered(t: Tables, after: Tables) {
    && after.dependencies == t.dependencies && after.jobs.Keys == t.jobs.Keys && |after.attempts| == |t.attempts|
    && (forall job :: job in t.jobs ==>
          after.jobs[job] == if IsActive(t.jobs[job].state) then t.jobs[job].(state := Requeued, blocker := None)
            else t.jobs[job])
    && (forall k :: 0 <= k < |t.attempts| ==>
          after.attempts[k] == if t.attempts[k].open then t.attempts[k].(state := Interrupted, open := false)
            else t.attempts[k])
  }

  /** Recovery, down to the attempts before `k`. */
  ghost predicate RecoveredTo(t: Tables, k: nat, after: Tables) {
    && after.dependencies == t.dependencies && after.jobs.Keys == t.jobs.Keys && |after.attempts| == |t.attempts|
    && k <= |t.attempts|
    && (forall job :: job in t.jobs ==>
          after.jobs[job] == if OpenBelow(t, k, job) then t.jobs[job].(state := Requeued, blocker := None)
            else t.jobs[job])
    && (forall i :: 0 <= i < |t.attempts| ==>
          after.attempts[i] == if i < k && t.attempts[i].open then t.attempts[i].(state := Interrupted, open := false)
            else t.attempts[i])
  }

  ghost predicate OpenBelow(t: Tables, k: nat, job: string) {
    exists i :: 0 <= i < k && i < |t.attempts| && t.attempts[i].open && t.attempts[i].job == job
  }

  /** One interrupted attempt: its job is interrupted, then put back to wait. */
  ghost function RecoverOne(t: Tables, job: string, number: nat): Option<Tables> {
    match ApplyEvent(t, job, Some(number), WasInterrupted(Interruption), None)
    case None => None
    case Some(middle) => ApplyEvent(middle, job, Some(number), RecoveryRequeue, None)
  }

  /** One event that leaves its job inactive: what it does to every row and attempt. */
  ghost predicate ClosedBy(t: Tables, job: string, row: JobRow, after: Tables) {
    && after.jobs == t.jobs[job := row] && after.dependencies == t.dependencies && |after.attempts| == |t.attempts|
    && forall i :: 0 <= i < |t.attempts| ==>
         after.attempts[i] == if t.attempts[i].open && t.attempts[i].job == job
           then t.attempts[i].(state := Interrupted, open := false)
                              else t.attempts[i]
  }

  lemma {:induction false} InterruptApplies(t: Tables, job: string, number: nat)
    requires Inv(t) && job in t.jobs && IsActive(t.jobs[job].state)
    ensures var middle := ApplyEvent(t, job, Some(number), WasInterrupted(Interruption), None);
      middle.Some? && Inv(middle.value)
        && ClosedBy(t, job, t.jobs[job].(state := Interrupted, blocker := None), middle.value)
  {
    assert RowOk(t.jobs[job]);
    EventKeeps(t, job, Some(number), WasInterrupted(Interruption));
  }

  lemma {:induction false} RequeueApplies(t: Tables, job: string, number: nat)
    requires Inv(t) && job in t.jobs && t.jobs[job].state.Interrupted?
    ensures var after := ApplyEvent(t, job, Some(number), RecoveryRequeue, None);
      after.Some? && Inv(after.value) && after.value == t.(jobs := t.jobs[job := t.jobs[job].(state := Requeued)])
  {
    assert RowOk(t.jobs[job]);
    EventKeeps(t, job, Some(number), RecoveryRequeue);
    NothingOpen(t.jobs, t.attempts, job, Some(number), Requeued);
  }

  lemma {:induction false} RecoverOneKeeps(t: Tables, job: string, number: nat)
    requires Inv(t) && job in t.jobs && IsActive(t.jobs[job].state)
    ensures ApplyEvent(t, job, Some(number), WasInterrupted(Interruption), None).Some?
    ensures RecoverOne(t, job, number).Some? && Inv(RecoverOne(t, job, number).value)
    ensures ClosedBy(t, job, t.jobs[job].(state := Requeued, blocker := None), RecoverOne(t, job, number).value)
  {
    InterruptApplies(t, job, number);
    RequeueApplies(ApplyEvent(t, job, Some(number), WasInterrupted(Interruption), None).value, job, number);
  }

  ghost function RecoverIfOpen(t: Tables, a: Attempt): Tables {
    if a.open && RecoverOne(t, a.job, a.number).Some? then RecoverOne(t, a.job, a.number).value else t
  }

  lemma {:induction false} RecoverNext(t: Tables, k: nat, before: Tables)
    requires Inv(t) && Inv(before) && RecoveredTo(t, k, before) && k < |t.attempts|
    ensures t.attempts[k].open ==> RecoverOne(before, t.attempts[k].job, t.attempts[k].number).Some?
    ensures Inv(RecoverIfOpen(before, t.attempts[k])) && RecoveredTo(t, k + 1, RecoverIfOpen(before, t.attempts[k]))
  {
    var a := t.attempts[k];
    forall job ensures OpenBelow(t, k + 1, job) <==> OpenBelow(t, k, job) || (a.open && a.job == job) {
      if a.open && a.job == job { assert t.attempts[k].open; }
    }
    if a.open {
      assert !OpenBelow(t, k, a.job);
      RecoverOneKeeps(before, a.job, a.number);
    }
  }

  /** No job is active and no attempt open. */
  ghost predicate Quiet(t: Tables) {
    && (forall k :: 0 <= k < |t.attempts| ==> !t.attempts[k].open)
    && (forall job :: job in t.jobs ==> !IsActive(t.jobs[job].state))
  }

  /** The tables after recovering the attempts before `k`. */
  ghost function RecoverUpTo(t: Tables, k: nat): Tables
    requires k <= |t.attempts|
  {
    if k == 0 then t
    else
      RecoverIfOpen(RecoverUpTo(t, k - 1), t.attempts[k - 1])
  }

  lemma {:induction false} NoneRecovered(t: Tables)
    ensures RecoveredTo(t, 0, t)
  {
  }

  lemma {:induction false} RecoverUpToKeeps(t: Tables, k: nat)
    requires Inv(t) && k <= |t.attempts|
    ensures Inv(RecoverUpTo(t, k)) && RecoveredTo(t, k, RecoverUpTo(t, k))
  {
    if k == 0 {
      NoneRecovered(t);
    } else {
      var before, a := RecoverUpTo(t, k - 1), t.attempts[k - 1];
      assert RecoverUpTo(t, k) == RecoverIfOpen(before, a);
      RecoverUpToKeeps(t, k - 1);
      RecoverNext(t, k - 1, before);
    }
  }

  /** Each open attempt, when its turn comes, can be interrupted. */
  lemma {:induction false} NextRecovers(t: Tables, k: nat)
    requires Inv(t) && k < |t.attempts| && t.attempts[k].open
    ensures RecoverOne(RecoverUpTo(t, k), t.attempts[k].job, t.attempts[k].number).Some?
  {
    RecoverUpToKeeps(t, k);
    RecoverNext(t, k, RecoverUpTo(t, k));
  }

  lemma {:induction false} AllRecovered(t: Tables, after: Tables)
    requires Inv(t) && RecoveredTo(t, |t.attempts|, after)
    ensures Recovered(t, after) && Quiet(after)
  {
    forall job | job in t.jobs ensures OpenBelow(t, |t.attempts|, job) <==> IsActive(t.jobs[job].state) {
      if IsActive(t.jobs[job].state) { assert HasOpen(t.attempts, job); }
    }
  }
}
