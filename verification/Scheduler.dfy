/** Choosing which ready jobs to start: best fit, with a reservation for jobs that have waited too long. */
module Scheduler {
  import opened Prelude
  import opened Program
  import opened Resources

  datatype Job = Job(id: string, request: Request, readySince: I18)

  datatype Config = Config(capacity: Capacity, agingSeconds: I18)

  datatype Decision = Decision(selected: seq<string>, remaining: Capacity, reservedFor: Option<string>)

  datatype SchedulerError = DuplicateCandidate | Database

  /** Whether a job is ready with all predecessors verified; absent when the database fails on it. */
  type Readiness = string -> Option<bool>

  // ----- the order of candidates -----

  predicate OlderOrSame(a: Job, b: Job) {
    a.readySince < b.readySince || (a.readySince == b.readySince && TextLe(a.id, b.id))
  }

  lemma {:induction false} AgeOrder()
    ensures TotalPreorder(OlderOrSame)
  {
    TextOrder();
    forall a, b ensures OlderOrSame(a, b) || OlderOrSame(b, a) {}
    forall a, b, c | OlderOrSame(a, b) && OlderOrSame(b, c) ensures OlderOrSame(a, c) {}
  }

  ghost predicate DistinctIds(jobs: seq<Job>) {
    forall i, j :: 0 <= i < j < |jobs| ==> jobs[i].id != jobs[j].id
  }

  /** Candidates with distinct ids sort to the same sequence in whatever order they are given. */
  lemma {:induction false} SortedOnce(xs: seq<Job>, ys: seq<Job>)
    requires Sorted(OlderOrSame, xs) && Sorted(OlderOrSame, ys) && multiset(xs) == multiset(ys) && DistinctIds(xs)
    ensures xs == ys
  {
    if |xs| == 0 {
      assert |multiset(ys)| == 0;
    } else {
      assert |multiset(xs)| == |multiset(ys)|;
      SameHead(xs, ys);
      WithoutFirst(xs);
      WithoutFirst(ys);
      SortedOnce(xs[1..], ys[1..]);
    }
  }

  lemma {:induction false} SameHead(xs: seq<Job>, ys: seq<Job>)
    requires Sorted(OlderOrSame, xs) && Sorted(OlderOrSame, ys) && multiset(xs) == multiset(ys) && DistinctIds(xs)
    requires |xs| > 0 && |ys| > 0
    ensures xs[0] == ys[0]
  {
    AgeOrder();
    TextOrder();
    assert ys[0] in multiset(xs) && xs[0] in multiset(ys);
    var i :| 0 <= i < |xs| && xs[i] == ys[0];
    var j :| 0 <= j < |ys| && ys[j] == xs[0];
    assert OlderOrSame(xs[0], xs[i]) && OlderOrSame(ys[0], ys[j]);
  }

  // ----- how well a job fits -----

  const SCALE: nat := 1_000_000_000_000

  /** The share of a resource left over, in parts of the scale; intermediate values fit 128 bits. */
  function NormalizedLeftover(leftover: nat, capacity: nat): (r: nat)
    requires leftover <= capacity < U64_BOUND
    ensures r <= SCALE && leftover * SCALE < 0x1_0000_0000_0000_0000_0000_0000_0000_0000
  {
    if capacity == 0 then 0 else ShareBound(leftover, capacity); leftover * SCALE / capacity
  }

  lemma {:induction false} ShareBound(leftover: nat, capacity: nat)
    requires leftover <= capacity && capacity > 0
    ensures leftover * SCALE / capacity <= SCALE
  {
    assert leftover * SCALE <= SCALE * capacity;
  }

  /** No subtraction goes below zero for a job that fits, and the sum stays small. */
  function FitScore(request: Request, available: Capacity): (score: nat)
    requires Fits(available, request)
    ensures score <= 4 * SCALE
  {
    NormalizedLeftover(available.ramBytes - request.ramBytes, available.ramBytes)
    + NormalizedLeftover(available.cpuCores - request.cpuCores, available.cpuCores)
    + (if available.gpuCount == 0 then 0
       else NormalizedLeftover(available.gpuCount - request.gpuCount, available.gpuCount)
            + (if request.gpuCount == 0 then 0
               else NormalizedLeftover(available.vramPerDevice - request.vramPerDevice, available.vramPerDevice)))
  }

  /** Tighter fits first, then older jobs, then smaller ids. */
  predicate FitsBetter(a: Job, b: Job, available: Capacity)
    requires Fits(available, a.request) && Fits(available, b.request)
  {
    var x, y := FitScore(a.request, available), FitScore(b.request, available);
    x < y || (x == y && OlderOrSame(a, b))
  }

  /** The first of the best-fitting jobs. */
  function BestFit(jobs: seq<Job>, available: Capacity): (best: Option<nat>)
    ensures best.None? ==> forall k :: 0 <= k < |jobs| ==> !Fits(available, jobs[k].request)
    ensures best.Some? ==> best.value < |jobs| && Fits(available, jobs[best.value].request)
  {
    if |jobs| == 0 then None
    else
      var n := |jobs| - 1;
      var before := BestFit(jobs[..n], available);
      if !Fits(available, jobs[n].request) then
        assert forall k :: 0 <= k < n ==> jobs[..n][k] == jobs[k];
        before
      else if before.None? || !FitsBetter(jobs[before.value], jobs[n], available) then Some(n)
      else before
  }

  lemma {:induction false} BestFitsBetter(jobs: seq<Job>, available: Capacity, k: nat)
    requires k < |jobs| && Fits(available, jobs[k].request)
    ensures BestFit(jobs, available).Some? && FitsBetter(jobs[BestFit(jobs, available).value], jobs[k], available)
    decreases |jobs|
  {
    AgeOrder();
    var n := |jobs| - 1;
    var best, before := BestFit(jobs, available).value, BestFit(jobs[..n], available);
    if k < n {
      BestFitsBetter(jobs[..n], available, k);
      BetterTransitive(jobs[best], jobs[before.value], jobs[k], available);
    }
  }

  lemma {:induction false} BetterTransitive(a: Job, b: Job, c: Job, available: Capacity)
    requires Fits(available, a.request) && Fits(available, b.request) && Fits(available, c.request)
    requires FitsBetter(a, b, available) && FitsBetter(b, c, available)
    ensures FitsBetter(a, c, available)
  {
    AgeOrder();
  }

  method FindBestFit(jobs: seq<Job>, available: Capacity) returns (best: Option<nat>)
    ensures best == BestFit(jobs, available)
  {
    best := None;
    for k := 0 to |jobs|
      invariant best == BestFit(jobs[..k], available)
    {
      assert jobs[..k + 1][..k] == jobs[..k];
      if Fits(available, jobs[k].request) && (best.None? || !FitsBetter(jobs[best.value], jobs[k], available)) {
        best := Some(k);
      }
    }
    assert jobs[..|jobs|] == jobs;
  }

  // ----- filling the capacity -----

  /** The jobs started, what is left of the capacity, and the jobs left out. */
  datatype Filling = Filling(selected: seq<Job>, remaining: Capacity, left: seq<Job>)

  function Removed<T>(xs: seq<T>, i: nat): (r: seq<T>)
    requires i < |xs|
    ensures |r| == |xs| - 1
  {
    xs[..i] + xs[i + 1..]
  }

  function Fill(jobs: seq<Job>, remaining: Capacity): Filling
    decreases |jobs|
  {
    match BestFit(jobs, remaining)
    case None => Filling([], remaining, jobs)
    case Some(i) =>
      var rest := Fill(Removed(jobs, i), CheckedReserve(remaining, jobs[i].request).value);
      rest.(selected := [jobs[i]] + rest.selected)
  }

  /** What some jobs hold of one resource. */
  function Held(measure: Request -> nat, jobs: seq<Job>): nat {
    if |jobs| == 0 then 0 else measure(jobs[0].request) + Held(measure, jobs[1..])
  }

  function Cpu(r: Request): nat { r.cpuCores }
  function Ram(r: Request): nat { r.ramBytes }
  function Gpu(r: Request): nat { r.gpuCount }

  /** Nothing is lost and nothing is handed out twice. */
  ghost predicate Conserves(available: Capacity, jobs: seq<Job>, left: Capacity) {
    && Held(Cpu, jobs) + left.cpuCores == available.cpuCores
    && Held(Ram, jobs) + left.ramBytes == available.ramBytes
    && Held(Gpu, jobs) + left.gpuCount == available.gpuCount
    && left.vramPerDevice == (if left.gpuCount == 0 then 0 else available.vramPerDevice)
  }

  /** One more reservation, made first. */
  lemma {:induction false} ConservesMore(available: Capacity, job: Job, more: seq<Job>, left: Capacity)
    requires available.gpuCount == 0 ==> available.vramPerDevice == 0
    requires Fits(available, job.request) && Conserves(CheckedReserve(available, job.request).value, more, left)
    ensures Conserves(available, [job] + more, left)
  {
    assert ([job] + more)[1..] == more;
  }

  lemma {:induction false} FillConserves(jobs: seq<Job>, remaining: Capacity)
    requires remaining.gpuCount == 0 ==> remaining.vramPerDevice == 0
    ensures Conserves(remaining, Fill(jobs, remaining).selected, Fill(jobs, remaining).remaining)
    decreases |jobs|
  {
    var best := BestFit(jobs, remaining);
    if best.Some? {
      var job := jobs[best.value];
      var next, rest := CheckedReserve(remaining, job.request).value, Removed(jobs, best.value);
      FillConserves(rest, next);
      ConservesMore(remaining, job, Fill(rest, next).selected, Fill(rest, next).remaining);
    }
  }

  lemma {:induction false} RemovedMultiset<T>(xs: seq<T>, i: nat)
    requires i < |xs|
    ensures multiset(xs) == multiset{xs[i]} + multiset(Removed(xs, i))
  {
    assert xs == xs[..i] + [xs[i]] + xs[i + 1..];
  }

  /** Every job is either started, once, or left out, and no job left out would still fit. */
  lemma {:induction false} FillIsMaximal(jobs: seq<Job>, remaining: Capacity)
    ensures var f := Fill(jobs, remaining);
      && multiset(jobs) == multiset(f.selected) + multiset(f.left)
      && forall k :: 0 <= k < |f.left| ==> !Fits(f.remaining, f.left[k].request)
    decreases |jobs|
  {
    var best := BestFit(jobs, remaining);
    if best.Some? {
      var i := best.value;
      FillIsMaximal(Removed(jobs, i), CheckedReserve(remaining, jobs[i].request).value);
      RemovedMultiset(jobs, i);
    }
  }

  method FillCapacity(jobs: seq<Job>, available: Capacity) returns (selected: seq<Job>, remaining: Capacity)
    ensures selected == Fill(jobs, available).selected && remaining == Fill(jobs, available).remaining
  {
    var eligible := jobs;
    selected, remaining := [], available;
    while true
      invariant Fill(jobs, available).selected == selected + Fill(eligible, remaining).selected
      invariant Fill(jobs, available).remaining == Fill(eligible, remaining).remaining
      decreases |eligible|
    {
      var best := FindBestFit(eligible, remaining);
      if best.None? {
        break;
      }
      var job := eligible[best.value];
      ghost var rest := Fill(Removed(eligible, best.value), CheckedReserve(remaining, job.request).value).selected;
      assert selected + ([job] + rest) == selected + [job] + rest;
      eligible := Removed(eligible, best.value);
      remaining := CheckedReserve(remaining, job.request).value;
      selected := selected + [job];
    }
  }

  // ----- the decision -----

  function Least(x: nat, y: nat): nat { if y < x then y else x }

  function Clamped(available: Capacity, config: Config): Capacity {
    var gpuCount := Least(available.gpuCount, config.capacity.gpuCount);
    Capacity(Least(available.cpuCores, config.capacity.cpuCores), Least(available.ramBytes, config.capacity.ramBytes),
      gpuCount,
             if gpuCount == 0 then 0 else Least(available.vramPerDevice, config.capacity.vramPerDevice))
  }

  function SaturatingSub(x: int, y: int): I18 {
    if x - y < -0x8000_0000_0000_0000 then -0x8000_0000_0000_0000
    else if x - y >= 0x8000_0000_0000_0000 then 0x7fff_ffff_ffff_ffff
    else x - y
  }

  /** A job the machine could run that has waited at least the aging time. */
  predicate Aged(job: Job, config: Config, now: I18) {
    Fits(config.capacity, job.request) && SaturatingSub(now, job.readySince) >= config.agingSeconds
  }

  function FirstAged(jobs: seq<Job>, config: Config, now: I18): (r: Option<nat>)
    ensures r.None? ==> forall k :: 0 <= k < |jobs| ==> !Aged(jobs[k], config, now)
    ensures r.Some? ==> r.value < |jobs| && Aged(jobs[r.value], config, now) && forall k :: 0 <= k < r.value ==>
      !Aged(jobs[k], config, now)
  {
    if |jobs| == 0 then None
    else if Aged(jobs[0], config, now) then Some(0)
    else
      match FirstAged(jobs[1..], config, now)
      case None =>
        assert forall k :: 0 < k < |jobs| ==> jobs[k] == jobs[1..][k - 1];
        None
      case Some(k) =>
        assert forall j :: 0 < j < |jobs| ==> jobs[j] == jobs[1..][j - 1];
        Some(k + 1)
  }

  /** The ready candidates; nothing when the database fails on one. */
  function Eligible(candidates: seq<Job>, ready: Readiness): Option<seq<Job>> {
    if |candidates| == 0 then Some([])
    else
      match (Eligible(candidates[..|candidates| - 1], ready), ready(candidates[|candidates| - 1].id))
      case (Some(before), Some(yes)) => Some(if yes then before + [candidates[|candidates| - 1]] else before)
      case _ => None
  }

  function Ids(jobs: seq<Job>): (r: seq<string>)
    ensures |r| == |jobs| && forall k :: 0 <= k < |jobs| ==> r[k] == jobs[k].id
  {
    seq(|jobs|, k requires 0 <= k < |jobs| => jobs[k].id)
  }

  /** The decision over the eligible jobs, oldest first. */
  function DecideSorted(jobs: seq<Job>, config: Config, now: I18, available: Capacity): Decision {
    match FirstAged(jobs, config, now)
    case None => var f := Fill(jobs, available); Decision(Ids(f.selected), f.remaining, None)
    case Some(i) =>
      match CheckedReserve(available, jobs[i].request)
      case None => Decision([], available, Some(jobs[i].id))
      case Some(left) =>
        var f := Fill(Removed(jobs, i), left);
        Decision([jobs[i].id] + Ids(f.selected), f.remaining, None)
  }

  ghost function Decide(
      candidates: seq<Job>, ready: Readiness, config: Config, now: I18, available: Capacity)
    : Result<Decision, SchedulerError>
  {
    if !DistinctIds(candidates) then Err(DuplicateCandidate)
    else
      match Eligible(candidates, ready)
      case None => Err(Database)
      case Some(jobs) => Ok(DecideSorted(SortBy(OlderOrSame, jobs), config, now, Clamped(available, config)))
  }

  method HasDuplicate(candidates: seq<Job>) returns (duplicate: bool)
    ensures duplicate <==> !DistinctIds(candidates)
  {
    var ids: set<string> := {};
    for k := 0 to |candidates|
      invariant DistinctIds(candidates[..k]) && ids == set j | 0 <= j < k :: candidates[j].id
    {
      if candidates[k].id in ids {
        assert !DistinctIds(candidates);
        return true;
      }
      ids := ids + {candidates[k].id};
    }
    assert candidates[..|candidates|] == candidates;
    return false;
  }

  method CollectEligible(candidates: seq<Job>, ready: Readiness) returns (r: Option<seq<Job>>)
    ensures r == Eligible(candidates, ready)
  {
    var eligible: seq<Job> := [];
    for k := 0 to |candidates|
      invariant Eligible(candidates[..k], ready) == Some(eligible)
    {
      assert candidates[..k + 1][..k] == candidates[..k];
      var state := ready(candidates[k].id);
      if state.None? {
        EligibleFails(candidates, ready, k + 1);
        return None;
      }
      if state.value {
        eligible := eligible + [candidates[k]];
      }
    }
    assert candidates[..|candidates|] == candidates;
    r := Some(eligible);
  }

  lemma {:induction false} EligibleFails(candidates: seq<Job>, ready: Readiness, k: nat)
    requires k <= |candidates| && Eligible(candidates[..k], ready).None?
    ensures Eligible(candidates, ready).None?
    decreases |candidates| - k
  {
    if k < |candidates| {
      assert candidates[..k + 1][..k] == candidates[..k];
      EligibleFails(candidates, ready, k + 1);
    } else {
      assert candidates[..k] == candidates;
    }
  }

  method Schedule(candidates: seq<Job>, ready: Readiness, config: Config, now: I18, offered: Capacity)
    returns (r: Result<Decision, SchedulerError>)
    ensures r == Decide(candidates, ready, config, now, offered)
  {
    var duplicate := HasDuplicate(candidates);
    if duplicate {
      return Err(DuplicateCandidate);
    }
    var available := Clamped(offered, config);
    var collected := CollectEligible(candidates, ready);
    if collected.None? {
      return Err(Database);
    }
    var eligible := SortBy(OlderOrSame, collected.value);
    var aged := FirstAged(eligible, config, now);
    var remaining, first := available, [];
    if aged.Some? {
      var job := eligible[aged.value];
      var left := CheckedReserve(available, job.request);
      if left.None? {
        return Ok(Decision([], available, Some(job.id)));
      }
      remaining, first := left.value, [job.id];
      eligible := Removed(eligible, aged.value);
    }
    var selected;
    selected, remaining := FillCapacity(eligible, remaining);
    assert [] + Ids(selected) == Ids(selected);
    r := Ok(Decision(first + Ids(selected), remaining, None));
  }

  // ----- what a decision guarantees -----

  /** The jobs of a decision over sorted jobs, aged job first. */
  ghost function Started(jobs: seq<Job>, config: Config, now: I18, available: Capacity): seq<Job> {
    match FirstAged(jobs, config, now)
    case None => Fill(jobs, available).selected
    case Some(i) =>
      match CheckedReserve(available, jobs[i].request)
      case None => []
      case Some(left) => [jobs[i]] + Fill(Removed(jobs, i), left).selected
  }

  /** What started jobs hold plus what remains is what was available. */
  lemma {:induction false} DecisionConserves(jobs: seq<Job>, config: Config, now: I18, available: Capacity)
    requires available.gpuCount == 0 ==> available.vramPerDevice == 0
    ensures Conserves(available, Started(jobs, config, now, available),
      DecideSorted(jobs, config, now, available).remaining)
  {
    var aged := FirstAged(jobs, config, now);
    if aged.None? {
      FillConserves(jobs, available);
    } else if Fits(available, jobs[aged.value].request) {
      var left := CheckedReserve(available, jobs[aged.value].request).value;
      var f := Fill(Removed(jobs, aged.value), left);
      FillConserves(Removed(jobs, aged.value), left);
      ConservesMore(available, jobs[aged.value], f.selected, f.remaining);
    }
  }

  lemma {:induction false} DecisionNamesStarted(jobs: seq<Job>, config: Config, now: I18, available: Capacity)
    ensures DecideSorted(jobs, config, now, available).selected == Ids(Started(jobs, config, now, available))
  {
    var d, started := DecideSorted(jobs, config, now, available).selected, Started(jobs, config, now, available);
    assert |d| == |started| && forall k :: 0 <= k < |d| ==> d[k] == started[k].id;
  }

  /** Every job started fits the capacity there was, device memory included. */
  lemma {:induction false} StartedFit(jobs: seq<Job>, available: Capacity, k: nat)
    requires k < |Fill(jobs, available).selected|
    ensures Fits(available, Fill(jobs, available).selected[k].request)
    decreases |jobs|
  {
    var i := BestFit(jobs, available).value;
    if k > 0 { StartedFit(Removed(jobs, i), CheckedReserve(available, jobs[i].request).value, k - 1); }
  }

  /** Unless the capacity is held back for an aged job, no job left out would fit what remains. */
  lemma {:induction false} DecisionIsMaximal(jobs: seq<Job>, config: Config, now: I18, available: Capacity, job: Job)
    requires DistinctIds(jobs) && job in jobs
    ensures var d := DecideSorted(jobs, config, now, available);
      d.reservedFor.Some? || job.id in d.selected || !Fits(d.remaining, job.request)
  {
    var aged := FirstAged(jobs, config, now);
    if aged.None? {
      NotLeftOut(jobs, available, job);
    } else if Fits(available, jobs[aged.value].request) && job != jobs[aged.value] {
      var i, left := aged.value, CheckedReserve(available, jobs[aged.value].request).value;
      var k :| 0 <= k < |jobs| && jobs[k] == job;
      assert job == (if k < i then Removed(jobs, i)[k] else Removed(jobs, i)[k - 1]);
      NotLeftOut(Removed(jobs, i), left, job);
    }
  }

  lemma {:induction false} NotLeftOut(jobs: seq<Job>, available: Capacity, job: Job)
    requires job in jobs
    ensures var f := Fill(jobs, available); job.id in Ids(f.selected) || !Fits(f.remaining, job.request)
  {
    var f := Fill(jobs, available);
    FillIsMaximal(jobs, available);
    assert job in multiset(jobs);
    if job in multiset(f.selected) {
      var k :| 0 <= k < |f.selected| && f.selected[k] == job;
      assert Ids(f.selected)[k] == job.id;
    } else {
      assert job in multiset(f.left);
      var k :| 0 <= k < |f.left| && f.left[k] == job;
    }
  }

  /** The oldest aged job either starts first or holds back everything else. */
  lemma {:induction false} OldestAgedFirst(jobs: seq<Job>, config: Config, now: I18, available: Capacity, job: Job)
    requires Sorted(OlderOrSame, jobs) && DistinctIds(jobs) && job in jobs && Aged(job, config, now)
    requires forall other :: other in jobs && Aged(other, config, now) ==> OlderOrSame(job, other)
    ensures var d := DecideSorted(jobs, config, now, available);
      if Fits(available, job.request) then d.reservedFor.None? && |d.selected| > 0 && d.selected[0] == job.id
      else d == Decision([], available, Some(job.id))
  {
    var k :| 0 <= k < |jobs| && jobs[k] == job;
    var i := FirstAged(jobs, config, now).value;
    if i < k {
      assert OlderOrSame(jobs[i], jobs[k]) && OlderOrSame(job, jobs[i]);
      TextOrder();
    }
  }

  /** Started jobs are among the eligible ones, none twice. */
  lemma {:induction false} StartedOnce(jobs: seq<Job>, config: Config, now: I18, available: Capacity)
    ensures multiset(Started(jobs, config, now, available)) <= multiset(jobs)
  {
    var aged := FirstAged(jobs, config, now);
    if aged.None? {
      FillIsMaximal(jobs, available);
    } else if Fits(available, jobs[aged.value].request) {
      FillIsMaximal(Removed(jobs, aged.value), CheckedReserve(available, jobs[aged.value].request).value);
      RemovedMultiset(jobs, aged.value);
    }
  }

  lemma {:induction false} AllStartedFit(jobs: seq<Job>, config: Config, now: I18, available: Capacity, job: Job)
    requires job in Started(jobs, config, now, available)
    ensures Fits(available, job.request)
  {
    var aged, started := FirstAged(jobs, config, now), Started(jobs, config, now, available);
    var k :| 0 <= k < |started| && started[k] == job;
    if aged.None? {
      StartedFit(jobs, available, k);
    } else if k > 0 {
      StartedFit(Removed(jobs, aged.value), CheckedReserve(available, jobs[aged.value].request).value, k - 1);
    }
  }

  /** A reservation is for an aged job that does not fit. */
  lemma {:induction false} ReservedIsAged(jobs: seq<Job>, config: Config, now: I18, available: Capacity)
    requires DecideSorted(jobs, config, now, available).reservedFor.Some?
    ensures exists job ::
      job in jobs && Aged(job, config, now) && !Fits(available, job.request)
      && DecideSorted(jobs, config, now, available) == Decision([], available, Some(job.id))
  {
    assert jobs[FirstAged(jobs, config, now).value] in jobs;
  }

  // ----- the decision over the candidates as given -----

  predicate Ready(candidates: seq<Job>, ready: Readiness, job: Job) {
    job in candidates && ready(job.id) == Some(true)
  }

  ghost predicate OldestAged(candidates: seq<Job>, ready: Readiness, config: Config, now: I18, job: Job) {
    && Ready(candidates, ready, job) && Aged(job, config, now)
    && forall other :: Ready(candidates, ready, other) && Aged(other, config, now) ==> OlderOrSame(job, other)
  }

  /** The jobs started are ready, fit, none twice, and with what remains use up what there was. */
  ghost predicate StartsSoundly(
      candidates: seq<Job>, ready: Readiness, available: Capacity, d: Decision, started: seq<Job>)
  {
    && d.selected == Ids(started) && multiset(started) <= multiset(candidates)
    && (forall job :: job in started ==> ready(job.id) == Some(true) && Fits(available, job.request))
    && Conserves(available, started, d.remaining)
  }

  /** Nothing ready that is left waiting would fit, unless everything waits for one aged job. */
  ghost predicate LeavesNothing(candidates: seq<Job>, ready: Readiness, d: Decision) {
    forall job :: Ready(candidates, ready, job) ==>
      d.reservedFor.Some? || job.id in d.selected || !Fits(d.remaining, job.request)
  }

  /** The oldest aged job starts first or reserves everything, and nothing else is ever reserved. */
  ghost predicate ServesAged(
      candidates: seq<Job>, ready: Readiness, config: Config, now: I18, available: Capacity, d: Decision)
  {
    && (forall job :: OldestAged(candidates, ready, config, now, job) ==>
          if Fits(available, job.request) then d.reservedFor.None? && |d.selected| > 0 && d.selected[0] == job.id
          else d == Decision([], available, Some(job.id)))
    && (d.reservedFor.Some? ==>
          exists job :: Ready(candidates, ready, job) && Aged(job, config, now) && !Fits(available, job.request)
            && d == Decision([], available, Some(job.id)))
  }

  /** The eligible jobs in the order they are considered. */
  lemma {:induction false} Considered(candidates: seq<Job>, ready: Readiness) returns (jobs: seq<Job>)
    requires DistinctIds(candidates) && Eligible(candidates, ready).Some?
    ensures jobs == SortBy(OlderOrSame, Eligible(candidates, ready).value)
    ensures Sorted(OlderOrSame, jobs) && DistinctIds(jobs) && multiset(jobs) <= multiset(candidates)
    ensures forall job :: job in jobs <==> Ready(candidates, ready, job)
  {
    var eligible := Eligible(candidates, ready).value;
    jobs := SortBy(OlderOrSame, eligible);
    AgeOrder();
    SortBySorted(OlderOrSame, eligible);
    EligibleDistinct(candidates, ready);
    DistinctUnderOrder(eligible, jobs);
    forall job ensures multiset(jobs)[job] == if ready(job.id) == Some(true) then multiset(candidates)[job] else 0 {
      EligibleCounts(candidates, ready, job);
    }
    forall job ensures job in jobs <==> Ready(candidates, ready, job) {
      assert job in jobs <==> multiset(jobs)[job] > 0;
      assert job in candidates <==> multiset(candidates)[job] > 0;
    }
  }

  /**
   * A decision is made exactly when no candidate is listed twice and readiness is known for all; it then starts only
   * ready jobs that fit together, leaves none waiting that would still fit, and serves the oldest aged job first.
   */
  lemma {:induction false} DecisionIsRight(
      candidates: seq<Job>, ready: Readiness, config: Config, now: I18, offered: Capacity)
    ensures var r := Decide(candidates, ready, config, now, offered);
      && (r.Ok? <==> DistinctIds(candidates) && forall job :: job in candidates ==> ready(job.id).Some?)
      && (r == Err(DuplicateCandidate) <==> !DistinctIds(candidates))
    ensures var r, available := Decide(candidates, ready, config, now, offered), Clamped(offered, config);
      r.Ok? ==>
      && (exists started :: StartsSoundly(candidates, ready, available, r.value, started))
      && LeavesNothing(candidates, ready, r.value) && ServesAged(candidates, ready, config, now, available, r.value)
  {
    EligibleReady(candidates, ready);
    var r, available := Decide(candidates, ready, config, now, offered), Clamped(offered, config);
    if r.Ok? {
      var jobs := Considered(candidates, ready);
      DecisionStarts(candidates, ready, jobs, config, now, available);
      DecisionLeaves(candidates, ready, jobs, config, now, available);
      DecisionServes(candidates, ready, jobs, config, now, available);
    }
  }

  lemma {:induction false} DecisionStarts(
      candidates: seq<Job>, ready: Readiness, jobs: seq<Job>, config: Config, now: I18, available: Capacity)
    requires available.gpuCount == 0 ==> available.vramPerDevice == 0
    requires multiset(jobs) <= multiset(candidates) && forall job :: job in jobs <==> Ready(candidates, ready, job)
    ensures StartsSoundly(candidates, ready, available, DecideSorted(jobs, config, now, available),
      Started(jobs, config, now, available))
  {
    var started := Started(jobs, config, now, available);
    DecisionConserves(jobs, config, now, available);
    DecisionNamesStarted(jobs, config, now, available);
    StartedOnce(jobs, config, now, available);
    forall job | job in started ensures job in jobs && Fits(available, job.request) {
      assert job in multiset(started) && job in multiset(jobs);
      AllStartedFit(jobs, config, now, available, job);
    }
  }

  lemma {:induction false} DecisionLeaves(
      candidates: seq<Job>, ready: Readiness, jobs: seq<Job>, config: Config, now: I18, available: Capacity)
    requires DistinctIds(jobs) && forall job :: job in jobs <==> Ready(candidates, ready, job)
    ensures LeavesNothing(candidates, ready, DecideSorted(jobs, config, now, available))
  {
    forall job | Ready(candidates, ready, job)
      ensures var d := DecideSorted(jobs, config, now, available);
        d.reservedFor.Some? || job.id in d.selected || !Fits(d.remaining, job.request)
    {
      DecisionIsMaximal(jobs, config, now, available, job);
    }
  }

  lemma {:induction false} DecisionServes(
      candidates: seq<Job>, ready: Readiness, jobs: seq<Job>, config: Config, now: I18, available: Capacity)
    requires Sorted(OlderOrSame, jobs) && DistinctIds(jobs)
    requires forall job :: job in jobs <==> Ready(candidates, ready, job)
    ensures ServesAged(candidates, ready, config, now, available, DecideSorted(jobs, config, now, available))
  {
    var d := DecideSorted(jobs, config, now, available);
    forall job | OldestAged(candidates, ready, config, now, job)
      ensures if Fits(available, job.request) then d.reservedFor.None? && |d.selected| > 0 && d.selected[0] == job.id
        else d == Decision([], available, Some(job.id))
    {
      OldestAgedFirst(jobs, config, now, available, job);
    }
    if d.reservedFor.Some? { ReservedIsAged(jobs, config, now, available); }
  }

  /** Only readiness decides who is eligible, so neither does the order of the candidates. */
  lemma {:induction false} EligibleCounts(candidates: seq<Job>, ready: Readiness, job: Job)
    ensures Eligible(candidates, ready).Some? <==> forall k :: 0 <= k < |candidates| ==> ready(candidates[k].id).Some?
    ensures Eligible(candidates, ready).Some? ==>
      multiset(Eligible(candidates, ready).value)[job] == if ready(job.id) == Some(true) then multiset(candidates)[job]
        else 0
    decreases |candidates|
  {
    if |candidates| > 0 {
      var n := |candidates| - 1;
      EligibleCounts(candidates[..n], ready, job);
      assert candidates == candidates[..n] + [candidates[n]];
      assert forall k :: 0 <= k < n ==> candidates[k] == candidates[..n][k];
    }
  }

  lemma {:induction false} EligibleDistinct(candidates: seq<Job>, ready: Readiness)
    requires DistinctIds(candidates) && Eligible(candidates, ready).Some?
    ensures DistinctIds(Eligible(candidates, ready).value)
    ensures forall job :: job in Eligible(candidates, ready).value ==> job in candidates
    decreases |candidates|
  {
    if |candidates| > 0 {
      var n := |candidates| - 1;
      EligibleDistinct(candidates[..n], ready);
      var before := Eligible(candidates[..n], ready).value;
      forall job | job in before ensures job.id != candidates[n].id {
        assert job in candidates[..n];
        var k :| 0 <= k < n && candidates[k] == job;
      }
      assert forall k :: 0 <= k < |before| ==> before[k] in before;
    }
  }

  lemma {:induction false} DistinctUnderOrder(xs: seq<Job>, ys: seq<Job>)
    requires multiset(xs) == multiset(ys) && DistinctIds(xs)
    ensures DistinctIds(ys)
  {
    DistinctIdsDistinct(xs);
    MultisetDistinct(xs, ys);
    forall i, j | 0 <= i < j < |ys| ensures ys[i].id != ys[j].id {
      assert ys[i] in multiset(xs) && ys[j] in multiset(xs);
      var a :| 0 <= a < |xs| && xs[a] == ys[i];
      var b :| 0 <= b < |xs| && xs[b] == ys[j];
    }
  }

  lemma {:induction false} DistinctIdsDistinct(xs: seq<Job>)
    requires DistinctIds(xs)
    ensures Distinct(xs)
  {
  }

  /** The whole decision does not depend on the order in which candidates are listed. */
  lemma {:induction false} OrderIsIrrelevant(
      candidates: seq<Job>, shuffled: seq<Job>, ready: Readiness, config: Config, now: I18, available: Capacity)
    requires multiset(candidates) == multiset(shuffled)
    ensures Decide(candidates, ready, config, now, available) == Decide(shuffled, ready, config, now, available)
  {
    if DistinctIds(candidates) { DistinctUnderOrder(candidates, shuffled); }
    if DistinctIds(shuffled) { DistinctUnderOrder(shuffled, candidates); }
    if DistinctIds(candidates) {
      SameEligible(candidates, shuffled, ready);
    }
  }

  lemma {:induction false} SameEligible(candidates: seq<Job>, shuffled: seq<Job>, ready: Readiness)
    requires multiset(candidates) == multiset(shuffled) && DistinctIds(candidates)
    ensures Eligible(candidates, ready).Some? <==> Eligible(shuffled, ready).Some?
    ensures Eligible(candidates, ready).Some? ==>
      SortBy(OlderOrSame, Eligible(candidates, ready).value) == SortBy(OlderOrSame, Eligible(shuffled, ready).value)
  {
    forall job
      ensures job in candidates <==> job in shuffled
    {
      assert job in multiset(candidates) <==> job in multiset(shuffled);
    }
    EligibleReady(candidates, ready);
    EligibleReady(shuffled, ready);
    if Eligible(candidates, ready).Some? {
      var xs, ys := Eligible(candidates, ready).value, Eligible(shuffled, ready).value;
      forall job ensures multiset(xs)[job] == multiset(ys)[job] {
        EligibleCounts(candidates, ready, job);
        EligibleCounts(shuffled, ready, job);
      }
      assert multiset(xs) == multiset(ys);
      EligibleDistinct(candidates, ready);
      AgeOrder();
      SortBySorted(OlderOrSame, xs);
      SortBySorted(OlderOrSame, ys);
      DistinctUnderOrder(xs, SortBy(OlderOrSame, xs));
      SortedOnce(SortBy(OlderOrSame, xs), SortBy(OlderOrSame, ys));
    }
  }

  lemma {:induction false} EligibleReady(candidates: seq<Job>, ready: Readiness)
    ensures Eligible(candidates, ready).Some? <==> forall job :: job in candidates ==> ready(job.id).Some?
  {
    if Eligible(candidates, ready).Some? {
      forall job | job in candidates ensures ready(job.id).Some? { EligibleCounts(candidates, ready, job); }
    } else if |candidates| > 0 {
      EligibleCounts(candidates, ready, candidates[0]);
      assert forall k :: 0 <= k < |candidates| ==> candidates[k] in candidates;
    }
  }
}
