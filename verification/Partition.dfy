/** Greedy partition planning under a memory and a circuit-size budget. */
module Partition {
  import opened Prelude
  import opened Program
  import opened DagModel
  import opened DagBuilder
  import opened BoundaryLayouts

  /** Digests stand for what they digest: equal exactly when their preimages are. */
  type Digest = nat

  datatype InstructionEstimate = InstructionEstimate(ramBytes: U64, requiredK: U32)
  datatype ShardEstimate = ShardEstimate(ramBytes: U64, requiredK: U32)

  datatype CostModel = CostModel(
    identity: string,
    estimateInstruction: CompiledInstruction -> Result<InstructionEstimate, PartitionError>,
    estimateShard: seq<CompiledInstruction> -> Result<ShardEstimate, PartitionError>)

  datatype BoundaryHint = BoundaryHint(boundary: nat, priority: U32, text: string)

  datatype PartitionRequest = PartitionRequest(
    targetShardRamBytes: U64,
    maxK: U32,
    modelDigest: Digest,
    costModel: CostModel,
    boundaryHints: seq<BoundaryHint>,
    boundaryLayout: Option<BoundaryLayout>)

  datatype PlannedShard = PlannedShard(
    id: nat, name: string, start: nat, end: nat, estimate: ShardEstimate,
    instructionEstimates: seq<InstructionEstimate>)

  datatype PartitionPlan = PartitionPlan(
    shards: seq<PlannedShard>,
    dag: Dag,
    modelDigest: Digest,
    boundaryLayout: Option<BoundaryLayout>,
    programSnapshot: CompiledProgram)

  datatype PartitionError =
    | EmptyProgram
    | EmptyPartition
    | InvalidRequest
    | InvalidHint
    | EstimateOverflow
    | UnsplittableInstruction(instruction: nat, estimate: InstructionEstimate)
    | InvalidVirtualReference(consumerInstruction: nat, register: Register)
    | DagRejected
    | InconsistentDag
    | CostModelFailed

  // ----- budgets -----

  function MaxK(estimates: seq<InstructionEstimate>): (k: nat)
    ensures forall i :: 0 <= i < |estimates| ==> estimates[i].requiredK <= k
    ensures k == 0 || exists i :: 0 <= i < |estimates| && estimates[i].requiredK == k
  {
    if |estimates| == 0 then 0
    else
      var rest := MaxK(estimates[..|estimates| - 1]);
      if rest < estimates[|estimates| - 1].requiredK then estimates[|estimates| - 1].requiredK else rest
  }

  function RamBytes(estimate: InstructionEstimate): nat { estimate.ramBytes }

  /** What staying within budget means for one shard: its instructions, summed and one by one, and the shard itself. */
  ghost predicate MeetsLimits(
      request: PartitionRequest, instructions: seq<InstructionEstimate>, shard: ShardEstimate)
  {
    && SumSeq(RamBytes, instructions) <= request.targetShardRamBytes
    && (forall i :: 0 <= i < |instructions| ==> instructions[i].requiredK <= request.maxK)
    && shard.ramBytes <= request.targetShardRamBytes && shard.requiredK <= request.maxK
  }

  /** Fails when the summed memory leaves 64 bits; otherwise says whether some budget is exceeded. */
  function RangeExceeds(
      instructions: seq<InstructionEstimate>, shard: ShardEstimate, request: PartitionRequest)
    : (r: Result<bool, PartitionError>)
    ensures r.Err? ==> r.error == EstimateOverflow && SumSeq(RamBytes, instructions) >= U64_BOUND
    ensures r.Ok? ==> SumSeq(RamBytes, instructions) < U64_BOUND
    ensures r.Ok? ==> (r.value <==> !MeetsLimits(request, instructions, shard))
  {
    if SumSeq(RamBytes, instructions) >= U64_BOUND then Err(EstimateOverflow)
    else
      Ok(|| SumSeq(RamBytes, instructions) > request.targetShardRamBytes
         || MaxK(instructions) > request.maxK
         || shard.ramBytes > request.targetShardRamBytes
         || shard.requiredK > request.maxK)
  }

  function EstimateInstructions(
      program: CompiledProgram, costs: CostModel): Result<seq<InstructionEstimate>, PartitionError>
  {
    EstimateFrom(program.instructions, costs)
  }

  function EstimateFrom(
      instrs: seq<CompiledInstruction>, costs: CostModel): (r: Result<seq<InstructionEstimate>, PartitionError>)
    ensures r.Ok? ==> |r.value| == |instrs|
    ensures r.Ok? <==> forall k :: 0 <= k < |instrs| ==> costs.estimateInstruction(instrs[k]).Ok?
    ensures r.Ok? ==> forall k :: 0 <= k < |instrs| ==> costs.estimateInstruction(instrs[k]) == Ok(r.value[k])
    ensures r.Err? ==> exists k :: 0 <= k < |instrs| && costs.estimateInstruction(instrs[k]) == Err(r.error)
  {
    if |instrs| == 0 then Ok([])
    else
      match costs.estimateInstruction(instrs[0])
      case Err(e) => Err(e)
      case Ok(first) =>
        match EstimateFrom(instrs[1..], costs)
        case Err(e) =>
          assert exists k :: 0 <= k < |instrs[1..]| && costs.estimateInstruction(instrs[1..][k]) == Err(e);
          Err(e)
        case Ok(rest) => Ok([first] + rest)
  }

  /** The outcome of checking instructions `s..e` as one shard. */
  function CheckRange(
      program: CompiledProgram, request: PartitionRequest, estimates: seq<InstructionEstimate>, s: nat, e: nat)
    : Result<(bool, ShardEstimate), PartitionError>
    requires s <= e <= |program.instructions| && |estimates| == |program.instructions|
  {
    match request.costModel.estimateShard(program.instructions[s..e])
    case Err(error) => Err(error)
    case Ok(shard) =>
      match RangeExceeds(estimates[s..e], shard, request)
      case Err(error) => Err(error)
      case Ok(exceeds) => Ok((exceeds, shard))
  }

  /** The shard can be estimated and its instructions' memory summed. */
  ghost predicate Estimable(
      program: CompiledProgram, request: PartitionRequest, estimates: seq<InstructionEstimate>, s: nat, e: nat)
  {
    && s < e <= |program.instructions| && |estimates| == |program.instructions|
    && request.costModel.estimateShard(program.instructions[s..e]).Ok?
    && SumSeq(RamBytes, estimates[s..e]) < U64_BOUND
  }

  ghost predicate Feasible(
      program: CompiledProgram, request: PartitionRequest, estimates: seq<InstructionEstimate>, s: nat, e: nat)
  {
    && s < e <= |program.instructions| && |estimates| == |program.instructions|
    && request.costModel.estimateShard(program.instructions[s..e]).Ok?
    && MeetsLimits(request, estimates[s..e], request.costModel.estimateShard(program.instructions[s..e]).value)
  }

  ghost predicate RangeFails(
      program: CompiledProgram, request: PartitionRequest, estimates: seq<InstructionEstimate>, s: nat, e: nat,
      error: PartitionError)
  {
    && s < e <= |program.instructions| == |estimates|
    && match request.costModel.estimateShard(program.instructions[s..e])
       case Err(failure) => error == failure
       case Ok(_) => error == EstimateOverflow && SumSeq(RamBytes, estimates[s..e]) >= U64_BOUND
  }

  /** Checking a range gives the shard's estimate and whether some limit is exceeded, or says why it cannot. */
  lemma {:induction false} CheckRangeExact(
      program: CompiledProgram, request: PartitionRequest, estimates: seq<InstructionEstimate>, s: nat, e: nat)
    requires s < e <= |program.instructions| && |estimates| == |program.instructions|
    ensures var checked := CheckRange(program, request, estimates, s, e);
      && (checked.Ok? <==> Estimable(program, request, estimates, s, e))
      && (checked.Ok? ==>
            request.costModel.estimateShard(program.instructions[s..e]) == Ok(checked.value.1)
            && (checked.value.0 <==> !Feasible(program, request, estimates, s, e)))
      && (checked.Err? ==> RangeFails(program, request, estimates, s, e, checked.error))
  {
  }

  // ----- hints -----

  predicate Eligible(h: BoundaryHint, start: nat, end: nat) {
    start < h.boundary <= end
  }

  /** `a` loses to `b`: by priority, then later boundary, then smaller text. */
  predicate NotPreferred(a: BoundaryHint, b: BoundaryHint) {
    || a.priority < b.priority
    || (a.priority == b.priority && a.boundary < b.boundary)
    || (a.priority == b.priority && a.boundary == b.boundary && TextLe(b.text, a.text))
  }

  function BestHint(hints: seq<BoundaryHint>, start: nat, end: nat): (r: Option<BoundaryHint>)
    ensures r.None? <==> forall h :: h in hints ==> !Eligible(h, start, end)
    ensures r.Some? ==> r.value in hints && Eligible(r.value, start, end)
    ensures r.Some? ==> forall h :: h in hints && Eligible(h, start, end) ==> NotPreferred(h, r.value)
  {
    if |hints| == 0 then None
    else
      TextOrder();
      var last := hints[|hints| - 1];
      var best := BestHint(hints[..|hints| - 1], start, end);
      assert hints == hints[..|hints| - 1] + [last];
      if !Eligible(last, start, end) then best
      else if best.None? || NotPreferred(best.value, last) then Some(last)
      else best
  }

  // ----- what a plan is -----

  datatype Range = Range(start: nat, end: nat)

  /** Nonempty ranges, each starting where the previous one ends, from 0 to `n`. */
  ghost predicate Partitions(ranges: seq<Range>, n: nat) {
    && (forall k :: 0 <= k < |ranges| ==> ranges[k].start < ranges[k].end <= n)
    && (forall k :: 0 < k < |ranges| ==> ranges[k].start == ranges[k - 1].end)
    && (if |ranges| == 0 then n == 0 else ranges[0].start == 0 && ranges[|ranges| - 1].end == n)
  }

  function RangesOf(shards: seq<PlannedShard>): (r: seq<Range>)
    ensures |r| == |shards| && forall k :: 0 <= k < |r| ==> r[k] == Range(shards[k].start, shards[k].end)
  {
    seq(|shards|, k requires 0 <= k < |shards| => Range(shards[k].start, shards[k].end))
  }

  function SpecsOf(shards: seq<PlannedShard>): (r: seq<ShardSpec>)
    ensures |r| == |shards| && forall k :: 0 <= k < |r| ==>
      r[k] == ShardSpec(shards[k].name, shards[k].start, shards[k].end)
  {
    seq(|shards|, k requires 0 <= k < |shards| => ShardSpec(shards[k].name, shards[k].start, shards[k].end))
  }

  /** What every plan the planner makes satisfies, and what binding a shard relies on. */
  ghost predicate ValidPlan(plan: PartitionPlan) {
    && plan.programSnapshot.instructions != []
    && |plan.programSnapshot.instructions| < U64_BOUND
    && Partitions(RangesOf(plan.shards), |plan.programSnapshot.instructions|)
    && (forall k :: 0 <= k < |plan.shards| ==> plan.shards[k].id == k)
    && BuildsDag(plan.programSnapshot, SpecsOf(plan.shards))
    && plan.dag == DagOf(plan.programSnapshot, SpecsOf(plan.shards))
  }

  /** Whether instructions `s..e` fit one shard, as a function of the range alone. */
  type Fit = (nat, nat) -> bool

  ghost function Budget(program: CompiledProgram, request: PartitionRequest, estimates: seq<InstructionEstimate>): Fit {
    (s: nat, e: nat) => Feasible(program, request, estimates, s, e)
  }

  ghost predicate WithinBudget(fits: Fit, ranges: seq<Range>) {
    forall k :: 0 <= k < |ranges| ==> fits(ranges[k].start, ranges[k].end)
  }

  /** No range could have been extended by one instruction. */
  ghost predicate Maximal(fits: Fit, n: nat, ranges: seq<Range>) {
    forall k :: 0 <= k < |ranges| ==> ranges[k].end >= n || !fits(ranges[k].start, ranges[k].end + 1)
  }

  // ----- optimality -----

  /** Every part of a range that fits also fits. */
  ghost predicate Hereditary(fits: Fit) {
    forall a: nat, b: nat, c: nat, d: nat :: a <= b < c <= d && fits(a, d) ==> fits(b, c)
  }

  /** Greedy ranges reach at least as far as any other feasible ranges, one by one. */
  lemma {:induction false} GreedyStaysAhead(fits: Fit, n: nat, greedy: seq<Range>, other: seq<Range>, k: nat)
    requires Hereditary(fits)
    requires Partitions(greedy, n) && Maximal(fits, n, greedy)
    requires Partitions(other, n) && WithinBudget(fits, other)
    requires k < |greedy| && k < |other|
    ensures other[k].end <= greedy[k].end
  {
    if k > 0 {
      GreedyStaysAhead(fits, n, greedy, other, k - 1);
    }
    var g, o := greedy[k], other[k];
    assert g.start < g.end && o.start <= g.start;
    FitsInside(fits, o, g.start, g.end + 1);
  }

  lemma {:induction false} FitsInside(fits: Fit, outer: Range, s: nat, e: nat)
    requires Hereditary(fits) && fits(outer.start, outer.end)
    ensures outer.start <= s < e <= outer.end ==> fits(s, e)
  {
  }

  lemma {:induction false} EndsBefore(ranges: seq<Range>, n: nat, k: nat)
    requires Partitions(ranges, n) && k + 1 < |ranges|
    ensures ranges[k].end < n
  {
    assert ranges[k + 1].start == ranges[k].end;
  }

  /** With no hints and sub-ranges of feasible ranges feasible, no feasible partition has fewer shards. */
  lemma {:induction false} GreedyOptimal(fits: Fit, n: nat, greedy: seq<Range>, other: seq<Range>)
    requires Hereditary(fits)
    requires Partitions(greedy, n) && Maximal(fits, n, greedy)
    requires Partitions(other, n) && WithinBudget(fits, other)
    ensures |greedy| <= |other|
  {
    if 0 < |other| < |greedy| {
      GreedyStaysAhead(fits, n, greedy, other, |other| - 1);
      EndsBefore(greedy, n, |other| - 1);
    }
  }

  // ----- the planner -----

  /** Growing from `start`, the budgets allow `full` and not one instruction more. */
  ghost predicate GrowsTo(
      program: CompiledProgram, request: PartitionRequest, estimates: seq<InstructionEstimate>, start: nat, full: nat)
  {
    && (forall e :: start < e <= full ==> Feasible(program, request, estimates, start, e))
    && start < full <= |program.instructions|
    && (full == |program.instructions| || !Feasible(program, request, estimates, start, full + 1))
  }

  /** Where a shard that could grow to `full` is cut: at the best hint, unless it reaches the program's end. */
  function CutAt(program: CompiledProgram, request: PartitionRequest, start: nat, full: nat): nat {
    var hint := BestHint(request.boundaryHints, start, full);
    if full < |program.instructions| && hint.Some? then hint.value.boundary else full
  }

  /** An end a shard can grow to, with the shard's estimate. */
  ghost predicate Accepted(
      program: CompiledProgram, request: PartitionRequest, estimates: seq<InstructionEstimate>, start: nat,
      candidate: (nat, ShardEstimate))
  {
    && Feasible(program, request, estimates, start, candidate.0)
    && request.costModel.estimateShard(program.instructions[start..candidate.0]) == Ok(candidate.1)
  }

  /** Grows a shard from `start` one instruction at a time, then cuts it at the best hint. */
  method ChooseEnd(program: CompiledProgram, request: PartitionRequest, estimates: seq<InstructionEstimate>, start: nat)
    returns (r: Result<(nat, ShardEstimate), PartitionError>)
    requires start < |program.instructions| == |estimates|
    ensures r.Ok? ==> var (end, estimate) := r.value;
      && start < end && Feasible(program, request, estimates, start, end)
      && request.costModel.estimateShard(program.instructions[start..end]) == Ok(estimate)
    ensures r.Ok? ==> exists full ::
      GrowsTo(program, request, estimates, start, full) && r.value.0 == CutAt(program, request, start, full)
    ensures r.Err? ==> RangeError(program, request, estimates, r.error)
  {
    var single := CheckRange(program, request, estimates, start, start + 1);
    CheckRangeExact(program, request, estimates, start, start + 1);
    if single.Err? {
      assert RangeFails(program, request, estimates, start, start + 1, single.error);
      return Err(single.error);
    }
    if single.value.0 {
      return Err(UnsplittableInstruction(start, estimates[start]));
    }
    var accepted := [(start + 1, single.value.1)];
    var end := start + 1;
    var full := false;
    while end < |program.instructions| && !full
      invariant start < end <= |program.instructions|
      invariant |accepted| == end - start
      invariant forall i :: 0 <= i < |accepted| ==>
        accepted[i].0 == start + 1 + i && Accepted(program, request, estimates, start, accepted[i])
      invariant full ==> end < |program.instructions| && !Feasible(program, request, estimates, start, end + 1)
      decreases |program.instructions| - end, !full
    {
      var candidate := CheckRange(program, request, estimates, start, end + 1);
      CheckRangeExact(program, request, estimates, start, end + 1);
      if candidate.Err? {
        assert RangeFails(program, request, estimates, start, end + 1, candidate.error);
        return Err(candidate.error);
      }
      if candidate.value.0 {
        full := true;
      } else {
        accepted := accepted + [(end + 1, candidate.value.1)];
        end := end + 1;
      }
    }
    ghost var grown := end;
    assert GrowsTo(program, request, estimates, start, grown) by {
      forall e | start < e <= grown ensures Feasible(program, request, estimates, start, e) {
        assert accepted[e - start - 1].0 == e;
      }
    }
    if end < |program.instructions| {
      var hint := BestHint(request.boundaryHints, start, end);
      if hint.Some? {
        end := hint.value.boundary;
      }
    }
    assert accepted[end - start - 1].0 == end;
    r := Ok((end, accepted[end - start - 1].1));
  }

  ghost predicate FitsAlone(
      program: CompiledProgram, request: PartitionRequest, estimates: seq<InstructionEstimate>, i: nat)
  {
    Feasible(program, request, estimates, i, i + 1)
  }

  /** An instruction too big on its own, or an estimate that failed or overflowed. */
  ghost predicate RangeError(
      program: CompiledProgram, request: PartitionRequest, estimates: seq<InstructionEstimate>, error: PartitionError)
  {
    || (&& error.UnsplittableInstruction? && error.instruction < |program.instructions| == |estimates|
        && error.estimate == estimates[error.instruction]
        && Estimable(program, request, estimates, error.instruction, error.instruction + 1)
        && !FitsAlone(program, request, estimates, error.instruction))
    || (exists s, e :: RangeFails(program, request, estimates, s, e, error))
  }

  /** Shards planned so far: a partition of the first `m` instructions, within budget and, if asked, cut greedily. */
  ghost predicate Planned(fits: Fit, greedy: bool, n: nat, ranges: seq<Range>, m: nat) {
    && Partitions(ranges, m)
    && WithinBudget(fits, ranges)
    && (greedy ==> Maximal(fits, n, ranges))
  }

  /** One planned shard: numbered, estimated, within budget, and cut where growing it and the hints say. */
  ghost predicate PlannedAt(
      program: CompiledProgram, request: PartitionRequest, estimates: seq<InstructionEstimate>, shard: PlannedShard,
      k: nat)
  {
    && shard.id == k && shard.name == "shard-" + Decimal(k)
    && shard.start <= shard.end <= |program.instructions| == |estimates|
    && shard.instructionEstimates == estimates[shard.start..shard.end]
    && request.costModel.estimateShard(program.instructions[shard.start..shard.end]) == Ok(shard.estimate)
    && Feasible(program, request, estimates, shard.start, shard.end)
    && (exists full ::
          GrowsTo(program, request, estimates, shard.start, full)
          && shard.end == CutAt(program, request, shard.start, full))
  }

  method NextShard(
      program: CompiledProgram, request: PartitionRequest, estimates: seq<InstructionEstimate>, id: nat, start: nat)
    returns (r: Result<PlannedShard, PartitionError>)
    requires start < |program.instructions| == |estimates|
    ensures r.Ok? ==> PlannedAt(program, request, estimates, r.value, id)
    ensures r.Ok? ==> r.value.start == start < r.value.end <= |program.instructions|
    ensures r.Err? ==> RangeError(program, request, estimates, r.error)
  {
    var chosen := ChooseEnd(program, request, estimates, start);
    if chosen.Err? {
      return Err(chosen.error);
    }
    var (end, estimate) := chosen.value;
    r := Ok(PlannedShard(id, "shard-" + Decimal(id), start, end, estimate, estimates[start..end]));
  }

  ghost predicate AllPlanned(
      program: CompiledProgram, request: PartitionRequest, estimates: seq<InstructionEstimate>,
      shards: seq<PlannedShard>)
  {
    forall k :: 0 <= k < |shards| ==> PlannedAt(program, request, estimates, shards[k], k)
  }

  lemma {:induction false} AllPlannedMeans(
      program: CompiledProgram, request: PartitionRequest, estimates: seq<InstructionEstimate>,
      shards: seq<PlannedShard>, n: nat)
    requires AllPlanned(program, request, estimates, shards) && Partitions(RangesOf(shards), n)
    ensures Planned(Budget(program, request, estimates), request.boundaryHints == [], |program.instructions|,
      RangesOf(shards), n)
  {
    var fits, greedy := Budget(program, request, estimates), request.boundaryHints == [];
    forall k | 0 <= k < |shards| ensures RangeGood(fits, greedy, |program.instructions|, RangesOf(shards)[k]) {
      PlannedAtMeans(program, request, estimates, shards[k], k);
    }
    GoodRanges(fits, greedy, |program.instructions|, RangesOf(shards));
  }

  ghost predicate RangeGood(fits: Fit, greedy: bool, n: nat, range: Range) {
    fits(range.start, range.end) && (greedy ==> range.end >= n || !fits(range.start, range.end + 1))
  }

  lemma {:induction false} PlannedAtMeans(
      program: CompiledProgram, request: PartitionRequest, estimates: seq<InstructionEstimate>, shard: PlannedShard,
      k: nat)
    requires PlannedAt(program, request, estimates, shard, k)
    ensures RangeGood(Budget(program, request, estimates), request.boundaryHints == [], |program.instructions|,
      Range(shard.start, shard.end))
  {
  }

  lemma {:induction false} GoodRanges(fits: Fit, greedy: bool, n: nat, ranges: seq<Range>)
    requires forall k :: 0 <= k < |ranges| ==> RangeGood(fits, greedy, n, ranges[k])
    ensures WithinBudget(fits, ranges) && (greedy ==> Maximal(fits, n, ranges))
  {
  }

  lemma {:induction false} AllPlannedSnoc(
      program: CompiledProgram, request: PartitionRequest, estimates: seq<InstructionEstimate>,
      shards: seq<PlannedShard>, shard: PlannedShard)
    requires AllPlanned(program, request, estimates, shards)
    requires PlannedAt(program, request, estimates, shard, |shards|)
    ensures AllPlanned(program, request, estimates, shards + [shard])
  {
  }

  method ChooseRanges(program: CompiledProgram, request: PartitionRequest, estimates: seq<InstructionEstimate>)
    returns (r: Result<seq<PlannedShard>, PartitionError>)
    requires program.instructions != [] && |estimates| == |program.instructions|
    ensures r.Ok? ==>
      Partitions(RangesOf(r.value), |program.instructions|) && AllPlanned(program, request, estimates, r.value)
    ensures r.Err? ==> RangeError(program, request, estimates, r.error)
  {
    var shards: seq<PlannedShard> := [];
    var start := 0;
    while start < |program.instructions|
      invariant start <= |program.instructions|
      invariant Partitions(RangesOf(shards), start)
      invariant AllPlanned(program, request, estimates, shards)
    {
      var next := NextShard(program, request, estimates, |shards|, start);
      if next.Err? {
        return Err(next.error);
      }
      PartitionsSnoc(shards, next.value);
      AllPlannedSnoc(program, request, estimates, shards, next.value);
      shards := shards + [next.value];
      start := next.value.end;
    }
    r := Ok(shards);
  }

  lemma {:induction false} PartitionsSnoc(shards: seq<PlannedShard>, next: PlannedShard)
    requires Partitions(RangesOf(shards), next.start) && next.start < next.end
    ensures Partitions(RangesOf(shards + [next]), next.end)
  {
    assert RangesOf(shards + [next]) == RangesOf(shards) + [Range(next.start, next.end)];
  }

  lemma {:induction false} PartitionsAreContiguous(shards: seq<PlannedShard>, n: nat)
    requires n > 0 && Partitions(RangesOf(shards), n)
    ensures Contiguous(SpecsOf(shards), n) && |shards| <= n
  {
    var ranges, specs := RangesOf(shards), SpecsOf(shards);
    forall s | 0 < s < |specs| ensures specs[s].start == specs[s - 1].end {
      assert ranges[s].start == ranges[s - 1].end;
    }
    assert ranges[0].start == 0 && ranges[|ranges| - 1].end == n;
    RangesNonempty(ranges, n, |ranges| - 1);
  }

  lemma {:induction false} RangesNonempty(ranges: seq<Range>, n: nat, k: nat)
    requires Partitions(ranges, n) && k < |ranges|
    ensures k < ranges[k].end
  {
    if k > 0 { RangesNonempty(ranges, n, k - 1); }
  }

  /** The first instruction that reads an instruction not before it, and its first such register. */
  ghost predicate FirstForwardRead(program: CompiledProgram, e: PartitionError) {
    && e.InvalidVirtualReference? && e.consumerInstruction < |program.instructions|
    && ReadsBackward(0, program.instructions[..e.consumerInstruction])
    && var inputs := program.instructions[e.consumerInstruction].inputs;
       exists k :: 0 <= k < |inputs| && inputs[k] == e.register && e.register.Virtual?
         && e.register.index >= e.consumerInstruction
         && forall t :: 0 <= t < k ==> (inputs[t].Virtual? ==> inputs[t].index < e.consumerInstruction)
  }

  method ValidateVirtualReferences(program: CompiledProgram) returns (e: Option<PartitionError>)
    ensures e.None? <==> WellOrdered(program)
    ensures e.Some? ==> FirstForwardRead(program, e.value)
  {
    for j := 0 to |program.instructions|
      invariant ReadsBackward(0, program.instructions[..j])
    {
      var inputs := program.instructions[j].inputs;
      for k := 0 to |inputs|
        invariant forall t :: 0 <= t < k ==> (inputs[t].Virtual? ==> inputs[t].index < j)
      {
        if inputs[k].Virtual? && inputs[k].index >= j {
          return Some(InvalidVirtualReference(j, inputs[k]));
        }
      }
      assert program.instructions[..j + 1] == program.instructions[..j] + [program.instructions[j]];
    }
    assert program.instructions[..|program.instructions|] == program.instructions;
    e := None;
  }

  predicate HintOutside(program: CompiledProgram, request: PartitionRequest) {
    exists h :: h in request.boundaryHints && h.boundary >= |program.instructions|
  }

  lemma {:induction false} PlannedKeepsLimits(
      program: CompiledProgram, request: PartitionRequest, estimates: seq<InstructionEstimate>,
      shards: seq<PlannedShard>)
    requires AllPlanned(program, request, estimates, shards)
    ensures forall k :: 0 <= k < |shards| ==>
      MeetsLimits(request, shards[k].instructionEstimates, shards[k].estimate)
  {
    forall k | 0 <= k < |shards| ensures MeetsLimits(request, shards[k].instructionEstimates, shards[k].estimate) {
      assert PlannedAt(program, request, estimates, shards[k], k);
    }
  }

  /** What is checked before any range is chosen. */
  ghost predicate WellPosed(program: CompiledProgram, request: PartitionRequest) {
    && program.instructions != [] && WellOrdered(program) && request.costModel.identity != ""
    && (forall h :: h in request.boundaryHints ==> h.boundary < |program.instructions|)
    && EstimateInstructions(program, request.costModel).Ok?
  }

  /** Every refusal names the first check that fails. */
  ghost predicate Refusal(program: CompiledProgram, request: PartitionRequest, error: PartitionError) {
    if program.instructions == [] then error == EmptyProgram
    else if !WellOrdered(program) then FirstForwardRead(program, error)
    else if request.costModel.identity == "" then error == InvalidRequest
    else if exists h :: h in request.boundaryHints && h.boundary >= |program.instructions| then error == InvalidHint
    else
      match EstimateInstructions(program, request.costModel)
      case Err(e) => error == e
      case Ok(estimates) => RangeError(program, request, estimates, error)
  }

  /** Requests on which planning cannot fail. */
  ghost predicate Plannable(program: CompiledProgram, request: PartitionRequest) {
    && WellPosed(program, request)
    && var estimates := EstimateInstructions(program, request.costModel).value;
       && (forall s, e :: 0 <= s < e <= |program.instructions| ==> Estimable(program, request, estimates, s, e))
       && (forall i :: 0 <= i < |program.instructions| ==> FitsAlone(program, request, estimates, i))
  }

  /** When every range can be estimated and every instruction fits alone, no range is refused. */
  lemma {:induction false} PlannableNeverFails(
      program: CompiledProgram, request: PartitionRequest, estimates: seq<InstructionEstimate>, error: PartitionError)
    requires Plannable(program, request) && estimates == EstimateInstructions(program, request.costModel).value
    ensures !RangeError(program, request, estimates, error)
  {
    forall s: nat, e: nat | s < e <= |program.instructions|
      ensures !RangeFails(program, request, estimates, s, e, error)
    {
      assert Estimable(program, request, estimates, s, e);
    }
  }

  method Plan(program: CompiledProgram, request: PartitionRequest) returns (r: Result<PartitionPlan, PartitionError>)
    requires |program.instructions| < U64_BOUND
    ensures r.Ok? ==> ValidPlan(r.value) && r.value.programSnapshot == program
    ensures r.Ok? ==> r.value.modelDigest == request.modelDigest && r.value.boundaryLayout == request.boundaryLayout
    ensures r.Ok? ==> WellPosed(program, request)
    ensures r.Ok? ==> Planned(
      Budget(program, request, EstimateInstructions(program, request.costModel).value), request.boundaryHints == [],
      |program.instructions|, RangesOf(r.value.shards), |program.instructions|)
    ensures r.Ok? ==>
      AllPlanned(program, request, EstimateInstructions(program, request.costModel).value, r.value.shards)
    ensures r.Ok? ==> forall k :: 0 <= k < |r.value.shards| ==>
      MeetsLimits(request, r.value.shards[k].instructionEstimates, r.value.shards[k].estimate)
    ensures Plannable(program, request) ==> r.Ok?
    ensures r.Err? ==> Refusal(program, request, r.error)
  {
    if program.instructions == [] {
      return Err(EmptyProgram);
    }
    var bad := ValidateVirtualReferences(program);
    if bad.Some? {
      return Err(bad.value);
    }
    if request.costModel.identity == "" {
      return Err(InvalidRequest);
    }
    if HintOutside(program, request) {
      return Err(InvalidHint);
    }
    var estimates := EstimateInstructions(program, request.costModel);
    if estimates.Err? {
      return Err(estimates.error);
    }
    var shards := ChooseRanges(program, request, estimates.value);
    if shards.Err? {
      if Plannable(program, request) { PlannableNeverFails(program, request, estimates.value, shards.error); }
      return Err(shards.error);
    }
    var specs := SpecsOf(shards.value);
    AllPlannedMeans(program, request, estimates.value, shards.value, |program.instructions|);
    PartitionsAreContiguous(shards.value, |program.instructions|);
    PlannedKeepsLimits(program, request, estimates.value, shards.value);
    var dag := BuildDag(program, specs);
    var consistent := ValidateDag(dag.value, |program.instructions|, program, specs);
    if !consistent {
      return Err(InconsistentDag);
    }
    r := Ok(PartitionPlan(shards.value, dag.value, request.modelDigest, request.boundaryLayout, program));
  }

  function CoveredCount(shards: seq<Shard>): nat {
    if |shards| == 0 then 0
    else CoveredCount(shards[..|shards| - 1]) +
         (if shards[|shards| - 1].start < shards[|shards| - 1].end
           then shards[|shards| - 1].end - shards[|shards| - 1].start else 0)
  }

  /** The defensive check on the derived DAG; it always passes. */
  method ValidateDag(
      dag: Dag, count: nat, ghost program: CompiledProgram, ghost specs: seq<ShardSpec>) returns (ok: bool)
    requires BuildsDag(program, specs) && count == |program.instructions| && dag == DagOf(program, specs)
    requires forall s :: 0 <= s < |specs| ==> specs[s].start < specs[s].end
    ensures ok
  {
    ok := CoveredCount(dag.shards) == count &&
      !(exists e :: e in dag.edges && (e.producer >= e.consumer || e.consumer >= |dag.shards|));
    CoveredIsEnd(specs, dag.shards, |specs|);
    assert dag.shards[..|specs|] == dag.shards;
    forall e | e in dag.edges ensures e.producer < e.consumer < |dag.shards| {
      var t :| 0 <= t < |dag.edges| && dag.edges[t] == e;
      assert KeyList(program, specs)[t] in Elements(KeyList(program, specs));
      KeysForward(program, specs, KeyList(program, specs)[t]);
    }
  }

  lemma {:induction false} CoveredIsEnd(specs: seq<ShardSpec>, shards: seq<Shard>, k: nat)
    requires |shards| == |specs| && k <= |specs|
    requires specs != [] ==> specs[0].start == 0
    requires forall s :: 0 < s < |specs| ==> specs[s].start == specs[s - 1].end
    requires forall s :: 0 <= s < |specs| ==>
      specs[s].start < specs[s].end && shards[s].start == specs[s].start && shards[s].end == specs[s].end
    ensures CoveredCount(shards[..k]) == if k == 0 then 0 else specs[k - 1].end
  {
    if k > 0 {
      CoveredIsEnd(specs, shards, k - 1);
      assert shards[..k][..k - 1] == shards[..k - 1];
    }
  }
}
