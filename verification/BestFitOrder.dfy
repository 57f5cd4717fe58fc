/** In what order jobs are started: the tightest fit first, and what makes a fit tight. */
module BestFitOrder {
  import opened Prelude
  import opened Program
  import opened Resources
  import opened Scheduler

  // ----- the score -----

  /**
   * `share` is what is left of a resource in parts of a million million, rounded down; nothing of nothing is nothing.
   */
  ghost predicate IsShare(share: nat, left: nat, capacity: nat) {
    if capacity == 0 then share == 0
    else 0 <= left * 1_000_000_000_000 - share * capacity < capacity
  }

  lemma {:induction false} LeftoverIsShare(left: nat, capacity: nat)
    requires left <= capacity < U64_BOUND
    ensures IsShare(NormalizedLeftover(left, capacity), left, capacity)
  {
  }

  /**
   * The score of a job adds up the shares its reservation would leave: of memory and cores, of devices if there are
   * any, and of their memory if the job uses one.
   */
  lemma {:induction false} FitScoreExact(request: Request, available: Capacity)
    returns (ram: nat, cores: nat, devices: nat, vram: nat)
    requires Fits(available, request)
    ensures FitScore(request, available) == ram + cores + devices + vram
    ensures var left := CheckedReserve(available, request).value;
      && IsShare(ram, left.ramBytes, available.ramBytes) && IsShare(cores, left.cpuCores, available.cpuCores)
      && IsShare(devices, left.gpuCount, available.gpuCount)
    ensures if available.gpuCount == 0 || request.gpuCount == 0 then vram == 0
      else IsShare(vram, available.vramPerDevice - request.vramPerDevice, available.vramPerDevice)
  {
    ram := NormalizedLeftover(available.ramBytes - request.ramBytes, available.ramBytes);
    cores := NormalizedLeftover(available.cpuCores - request.cpuCores, available.cpuCores);
    devices := NormalizedLeftover(available.gpuCount - request.gpuCount, available.gpuCount);
    vram := if available.gpuCount == 0 || request.gpuCount == 0 then 0
      else NormalizedLeftover(available.vramPerDevice - request.vramPerDevice, available.vramPerDevice);
    LeftoverIsShare(available.ramBytes - request.ramBytes, available.ramBytes);
    LeftoverIsShare(available.cpuCores - request.cpuCores, available.cpuCores);
    LeftoverIsShare(available.gpuCount - request.gpuCount, available.gpuCount);
    if available.gpuCount != 0 && request.gpuCount != 0 {
      LeftoverIsShare(available.vramPerDevice - request.vramPerDevice, available.vramPerDevice);
    }
  }

  // ----- larger jobs -----

  /** `b` asks for at least as much of everything as `a`. */
  predicate AsksMore(a: Request, b: Request) {
    a.cpuCores <= b.cpuCores && a.ramBytes <= b.ramBytes && a.gpuCount <= b.gpuCount
      && a.vramPerDevice <= b.vramPerDevice
  }

  lemma {:induction false} TimesMore(x: nat, y: nat, capacity: nat)
    requires x > y
    ensures x * capacity >= y * capacity + capacity
  {
    assert x * capacity == y * capacity + capacity + (x - y - 1) * capacity;
  }

  lemma {:induction false} NotAbove(x: nat, y: nat, capacity: nat)
    requires x * capacity < y * capacity + capacity
    ensures x <= y
  {
    if x > y { TimesMore(x, y, capacity); }
  }

  lemma {:induction false} LessLeft(left: nat, left': nat, capacity: nat)
    requires left <= left' <= capacity < U64_BOUND
    ensures NormalizedLeftover(left, capacity) <= NormalizedLeftover(left', capacity)
  {
    LeftoverIsShare(left, capacity);
    LeftoverIsShare(left', capacity);
    if capacity > 0 {
      NotAbove(NormalizedLeftover(left, capacity), NormalizedLeftover(left', capacity), capacity);
    }
  }

  /** Of two jobs that both use devices, or both use none, the one asking for more fits at least as tightly. */
  lemma {:induction false} LargerIsTighter(a: Request, b: Request, available: Capacity)
    requires Fits(available, a) && Fits(available, b) && AsksMore(a, b) && (a.gpuCount == 0 <==> b.gpuCount == 0)
    ensures FitScore(b, available) <= FitScore(a, available)
  {
    LessLeft(available.ramBytes - b.ramBytes, available.ramBytes - a.ramBytes, available.ramBytes);
    LessLeft(available.cpuCores - b.cpuCores, available.cpuCores - a.cpuCores, available.cpuCores);
    LessLeft(available.gpuCount - b.gpuCount, available.gpuCount - a.gpuCount, available.gpuCount);
    LessLeft(available.vramPerDevice - b.vramPerDevice, available.vramPerDevice - a.vramPerDevice,
      available.vramPerDevice);
  }

  predicate Consistent(r: Request) { r.cpuCores > 0 && ConsistentGpu(r.gpuCount, r.vramPerDevice) }

  /** Whatever two jobs ask, the one asking for more fits at least as tightly. */
  ghost predicate ScoresFollowSize(available: Capacity) {
    forall a, b :: Consistent(a) && Consistent(b) && Fits(available, a) && Fits(available, b) && AsksMore(a, b) ==>
      FitScore(b, available) <= FitScore(a, available)
  }

  /** At most one device, or at most one byte on each, or two of two. */
  predicate NearlyNoDevices(available: Capacity) {
    (available.gpuCount - 1) * (available.vramPerDevice - 1) <= 1
  }

  /** With at most one device, or one byte on each, or two of two, using a device leaves no more than using none. */
  lemma {:induction false} DeviceUseIsTighter(a: Request, b: Request, available: Capacity)
    requires Fits(available, a) && Fits(available, b) && AsksMore(a, b) && a.gpuCount == 0 < b.gpuCount
    requires b.vramPerDevice > 0 && NearlyNoDevices(available)
    ensures FitScore(b, available) <= FitScore(a, available)
  {
    LessLeft(available.ramBytes - b.ramBytes, available.ramBytes - a.ramBytes, available.ramBytes);
    LessLeft(available.cpuCores - b.cpuCores, available.cpuCores - a.cpuCores, available.cpuCores);
    LessLeft(available.gpuCount - b.gpuCount, available.gpuCount - 1, available.gpuCount);
    LessLeft(available.vramPerDevice - b.vramPerDevice, available.vramPerDevice - 1, available.vramPerDevice);
    FewDevices(available.gpuCount, available.vramPerDevice);
  }

  lemma {:induction false} Twice(x: nat, y: nat)
    requires x > 1 && y > 0
    ensures x * y >= 2
  {
    TimesMore(x, 1, y);
  }

  lemma {:induction false} Small(x: nat, y: nat)
    requires x * y <= 1
    ensures x == 0 || y == 0 || (x == 1 && y == 1)
  {
    if x > 1 && y > 0 { Twice(x, y); }
    if y > 1 && x > 0 { Twice(y, x); }
  }

  lemma {:induction false} AllLeft(capacity: nat)
    requires 0 < capacity < U64_BOUND
    ensures NormalizedLeftover(capacity, capacity) == 1_000_000_000_000 && NormalizedLeftover(0, capacity) == 0
  {
    var all, none := NormalizedLeftover(capacity, capacity), NormalizedLeftover(0, capacity);
    LeftoverIsShare(capacity, capacity);
    LeftoverIsShare(0, capacity);
    NotAbove(all, 1_000_000_000_000, capacity);
    NotAbove(1_000_000_000_000, all, capacity);
    NotAbove(none, 0, capacity);
  }

  lemma {:induction false} FewDevices(devices: nat, vram: nat)
    requires 0 < devices < U64_BOUND && 0 < vram < U64_BOUND && (devices - 1) * (vram - 1) <= 1
    ensures NormalizedLeftover(devices - 1, devices) + NormalizedLeftover(vram - 1, vram)
      <= NormalizedLeftover(devices, devices)
  {
    Small(devices - 1, vram - 1);
    AllLeft(devices);
    AllLeft(vram);
    LessLeft(devices - 1, devices, devices);
    LessLeft(vram - 1, vram, vram);
    if devices == 2 && vram == 2 {
      NotAbove(NormalizedLeftover(1, 2), 500_000_000_000, 2);
    }
  }

  /** Otherwise the smallest job that uses a device leaves more than the same job without one. */
  lemma {:induction false} ManyDevices(devices: nat, vram: nat)
    requires 1 < devices < U64_BOUND && 1 < vram < U64_BOUND && (devices > 2 || vram > 2)
    ensures NormalizedLeftover(devices - 1, devices) + NormalizedLeftover(vram - 1, vram)
      > NormalizedLeftover(devices, devices)
  {
    MostLeft(devices);
    MostLeft(vram);
  }

  lemma {:induction false} MostLeft(capacity: nat)
    requires 1 < capacity < U64_BOUND
    ensures NormalizedLeftover(capacity - 1, capacity) >= if capacity > 2 then 600_000_000_000 else 500_000_000_000
  {
    var share := NormalizedLeftover(capacity - 1, capacity);
    LeftoverIsShare(capacity - 1, capacity);
    NotAbove(if capacity > 2 then 600_000_000_000 else 500_000_000_000, share, capacity);
  }

  /**
   * Scores follow size exactly on machines with next to no devices: otherwise a job that uses one can score higher,
   * so fit worse, than one that asks for less and uses none.
   */
  lemma {:induction false} ScoresFollowSizeExactly(available: Capacity)
    requires available.cpuCores > 0 && ConsistentGpu(available.gpuCount, available.vramPerDevice)
    ensures ScoresFollowSize(available) <==> NearlyNoDevices(available)
  {
    if NearlyNoDevices(available) {
      forall a, b | Consistent(a) && Consistent(b) && Fits(available, a) && Fits(available, b) && AsksMore(a, b)
        ensures FitScore(b, available) <= FitScore(a, available)
      {
        if a.gpuCount == 0 && b.gpuCount > 0 {
          DeviceUseIsTighter(a, b, available);
        } else {
          LargerIsTighter(a, b, available);
        }
      }
    } else {
      var n, v := available.gpuCount, available.vramPerDevice;
      var a, b := Request(1, 0, 0, 0), Request(1, 0, 1, 1);
      assert n > 1 && v > 1 && (n > 2 || v > 2);
      ManyDevices(n, v);
      assert Consistent(a) && Consistent(b) && Fits(available, a) && Fits(available, b) && AsksMore(a, b);
      assert FitScore(b, available) > FitScore(a, available);
    }
  }

  /** Three devices of two bytes: the job that uses a byte of one scores higher than the same job without. */
  lemma {:induction false} DeviceUserScoresHigher()
    ensures var available, a, b := Capacity(1, 0, 3, 2), Request(1, 0, 0, 0), Request(1, 0, 1, 1);
      && AsksMore(a, b) && Fits(available, a) && Fits(available, b)
      && FitScore(b, available) > FitScore(a, available)
  {
    ManyDevices(3, 2);
  }

  // ----- the order of a decision -----

  /** `a` leaves less than `b`, or as little and is older, or as old with the smaller identifier. */
  ghost predicate Tightest(a: Job, b: Job, available: Capacity)
    requires Fits(available, a.request) && Fits(available, b.request)
  {
    && FitScore(a.request, available) <= FitScore(b.request, available)
    && (FitScore(a.request, available) == FitScore(b.request, available) ==>
          a.readySince < b.readySince || (a.readySince == b.readySince && TextLe(a.id, b.id)))
  }

  /** Each job in turn is the tightest fit, for what is left, of all the jobs not started before it. */
  ghost predicate TightestFirst(waiting: multiset<Job>, available: Capacity, started: seq<Job>)
    decreases |started|
  {
    |started| > 0 ==>
      && started[0] in waiting && Fits(available, started[0].request)
      && (forall job :: job in waiting && Fits(available, job.request) ==> Tightest(started[0], job, available))
      && TightestFirst(waiting - multiset{started[0]}, CheckedReserve(available, started[0].request).value,
        started[1..])
  }

  lemma {:induction false} FillIsTightestFirst(jobs: seq<Job>, available: Capacity)
    ensures TightestFirst(multiset(jobs), available, Fill(jobs, available).selected)
    decreases |jobs|
  {
    var best := BestFit(jobs, available);
    if best.Some? {
      var job := jobs[best.value];
      var rest, left := Removed(jobs, best.value), CheckedReserve(available, job.request).value;
      forall other | other in multiset(jobs) && Fits(available, other.request) ensures Tightest(job, other, available) {
        var k :| 0 <= k < |jobs| && jobs[k] == other;
        BestFitsBetter(jobs, available, k);
      }
      FillIsTightestFirst(rest, left);
      RemovedMultiset(jobs, best.value);
      assert multiset(jobs) - multiset{job} == multiset(rest);
      assert ([job] + Fill(rest, left).selected)[1..] == Fill(rest, left).selected;
    }
  }

  /** The ready candidates, each as often as it is listed. */
  ghost predicate AreReady(candidates: seq<Job>, ready: Readiness, waiting: multiset<Job>) {
    forall job :: waiting[job] == if ready(job.id) == Some(true) then multiset(candidates)[job] else 0
  }

  /** With no job aged, a decision starts ready jobs tightest first. */
  lemma {:induction false} DecidesTightestFirst(
      candidates: seq<Job>, ready: Readiness, config: Config, now: I18, offered: Capacity)
    returns (waiting: multiset<Job>, started: seq<Job>)
    requires Decide(candidates, ready, config, now, offered).Ok?
    requires forall job :: Ready(candidates, ready, job) ==> !Aged(job, config, now)
    ensures Decide(candidates, ready, config, now, offered).value.selected == Ids(started)
    ensures AreReady(candidates, ready, waiting) && TightestFirst(waiting, Clamped(offered, config), started)
  {
    var jobs := Considered(candidates, ready);
    waiting, started := multiset(jobs), Fill(jobs, Clamped(offered, config)).selected;
    forall job: Job
      ensures multiset(jobs)[job] == if ready(job.id) == Some(true) then multiset(candidates)[job] else 0
    {
      EligibleCounts(candidates, ready, job);
    }
    assert FirstAged(jobs, config, now).None?;
    FillIsTightestFirst(jobs, Clamped(offered, config));
  }

  // ----- what the machine allows -----

  /** A job fits the clamped capacity exactly when it fits both what is offered and the machine. */
  lemma {:induction false} ClampedExact(request: Request, offered: Capacity, config: Config)
    requires Consistent(request)
    ensures Fits(Clamped(offered, config), request) <==> Fits(offered, request) && Fits(config.capacity, request)
  {
  }

  /** Saturating at 64 bits never changes who is aged, unless the aging time is the least number there is. */
  lemma {:induction false} AgedExactly(job: Job, config: Config, now: I18)
    ensures Aged(job, config, now) <==>
      && Fits(config.capacity, job.request)
      && (config.agingSeconds == -0x8000_0000_0000_0000
          || now as int - job.readySince as int >= config.agingSeconds as int)
  {
  }
}
