/** Binding one planned shard to local assembler indices. */
module ShardBinding {
  import opened Prelude
  import opened Program
  import opened Assembler
  import opened Lowering
  import opened BoundaryLayouts
  import opened DagModel
  import opened Partition
  import opened ShardSemantics

  datatype BoundaryDescriptor =
    BoundaryDescriptor(register: Register, elementCount: nat, edgeIds: seq<string>, graphOutputNames: seq<string>)

  datatype BoundShardProgram = BoundShardProgram(
    assemblerProgram: AssemblerProgram,
    inputBoundaries: seq<BoundaryDescriptor>,
    outputBoundaries: seq<BoundaryDescriptor>,
    globalToLocal: map<nat, nat>,
    weightNames: seq<string>,
    shardId: nat,
    shardName: string,
    range: Range)

  datatype ShardBindingError =
    | UnknownShard(shardId: nat)
    | PlanProgramMismatch
    | BoundaryLayoutMismatch
    | MissingBoundaryShape(register: Register)
    | MissingBoundary(register: Register)
    | ExtraBoundary(register: Register)
    | MissingGraphInput(name: string)
    | BoundaryLengthMismatch(register: Register, expected: nat, actual: nat)
    | LaterOrOutsideReference(instruction: nat, register: Register)
    | OutputOutsideProgram(register: Register)
    | WeightUnavailable(name: string)

  // ----- descriptors -----

  /** The identifiers of the edges that carry a register out of, or into, a shard. */
  function EdgeIdsFor(edges: seq<Edge>, shard: nat, r: Register, producerSide: bool): (ids: seq<string>)
    ensures forall id :: id in ids <==>
      exists e :: e in edges && e.register == r && e.id == id
        && (if producerSide then e.producer else e.consumer) == shard
  {
    if |edges| == 0 then []
    else
      var e := edges[|edges| - 1];
      assert edges == edges[..|edges| - 1] + [e];
      EdgeIdsFor(edges[..|edges| - 1], shard, r, producerSide) +
      (if e.register == r && (if producerSide then e.producer else e.consumer) == shard then [e.id] else [])
  }

  /** The graph outputs a register is published under. */
  function OutputNames(graphOutputs: seq<(string, Register)>, r: Register): seq<string> {
    if |graphOutputs| == 0 then []
    else
      var (name, register) := graphOutputs[|graphOutputs| - 1];
      OutputNames(graphOutputs[..|graphOutputs| - 1], r) + (if register == r then [name] else [])
  }

  function Descriptor(
      plan: PartitionPlan, shard: nat, r: Register, elementCount: nat, producerSide: bool): BoundaryDescriptor
  {
    BoundaryDescriptor(r, elementCount, SortBy(TextLe, EdgeIdsFor(plan.dag.edges, shard, r, producerSide)), [])
  }

  // ----- specification -----

  ghost function InputOrder(start: nat, instrs: seq<CompiledInstruction>): (r: seq<Register>)
    ensures Sorted(RegisterLe, r) && Distinct(r) && Elements(r) == ExternalSet(start, instrs)
  {
    RegisterOrder();
    Ascending(RegisterLe, ExternalSet(start, instrs))
  }

  function LocalEnv(program: CompiledProgram, graphInputs: map<string, Tensor>, incoming: map<Register, Tensor>): Env {
    Env(graphInputs, program.weights, incoming)
  }

  /** Values other shards read, and graph outputs, made by this shard. */
  ghost function OutputSet(program: CompiledProgram, dagOutputs: seq<Register>, range: Range): set<Register> {
    Elements(dagOutputs)
    + (set k | 0 <= k < |program.graphOutputs| && program.graphOutputs[k].1.Virtual?
               && Within(range, program.graphOutputs[k].1.index) :: program.graphOutputs[k].1)
  }

  ghost function OutputOrder(program: CompiledProgram, dagOutputs: seq<Register>, range: Range): (r: seq<Register>)
    ensures Sorted(RegisterLe, r) && Distinct(r) && Elements(r) == OutputSet(program, dagOutputs, range)
  {
    RegisterOrder();
    Ascending(RegisterLe, OutputSet(program, dagOutputs, range))
  }

  ghost predicate DescribesInputs(
      plan: PartitionPlan, layout: BoundaryLayout, s: nat, order: seq<Register>, out: seq<BoundaryDescriptor>)
  {
    |out| == |order| && forall k :: 0 <= k < |order| ==>
      ElementCount(layout, order[k]).Some?
        && out[k] == Descriptor(plan, s, order[k], ElementCount(layout, order[k]).value, false)
  }

  ghost predicate DescribesOutputs(
      plan: PartitionPlan, layout: BoundaryLayout, s: nat, order: seq<Register>, out: seq<BoundaryDescriptor>)
  {
    |out| == |order| && forall k :: 0 <= k < |order| ==> DescribesOutput(plan, layout, s, order[k], out[k])
  }

  /** The declared length, the edges out of the shard and the published names of one register. */
  ghost predicate DescribesOutput(
      plan: PartitionPlan, layout: BoundaryLayout, s: nat, r: Register, d: BoundaryDescriptor)
  {
    && ElementCount(layout, r).Some?
    && d == Descriptor(plan, s, r, ElementCount(layout, r).value, true).(
         graphOutputNames := SortBy(TextLe, OutputNames(plan.programSnapshot.graphOutputs, r)))
  }

  ghost predicate InPlan(plan: PartitionPlan, s: nat) {
    && s < |plan.shards| == |plan.dag.shards|
    && plan.shards[s].start <= plan.shards[s].end <= |plan.programSnapshot.instructions|
  }

  ghost function InstructionsOf(plan: PartitionPlan, s: nat): seq<CompiledInstruction>
    requires InPlan(plan, s)
  {
    Slice(plan.programSnapshot, Range(plan.shards[s].start, plan.shards[s].end))
  }

  ghost predicate LocalTable(range: Range, globalToLocal: map<nat, nat>) {
    && (forall g: nat :: g in globalToLocal <==> Within(range, g))
    && (forall g: nat :: g in globalToLocal ==> globalToLocal[g] == g - range.start)
  }

  /** `out` is shard `s` of the plan bound to these graph inputs and incoming values. */
  ghost predicate IsBound(
      plan: PartitionPlan, s: nat, layout: BoundaryLayout, graphInputs: map<string, Tensor>,
      incoming: map<Register, Tensor>,
      out: BoundShardProgram)
    requires InPlan(plan, s)
  {
    var program, range, instrs :=
      plan.programSnapshot, Range(plan.shards[s].start, plan.shards[s].end), InstructionsOf(plan, s);
    && LoweredRange(out.assemblerProgram, LocalEnv(program, graphInputs, incoming), range.start, instrs,
      InputOrder(range.start, instrs))
    && DescribesInputs(plan, layout, s, InputOrder(range.start, instrs), out.inputBoundaries)
    && DescribesOutputs(plan, layout, s, OutputOrder(program, plan.dag.shards[s].outputs, range), out.outputBoundaries)
    && out.weightNames == WeightOrder(Reads(instrs))
    && LocalTable(range, out.globalToLocal)
    && out.shardId == s && out.shardName == plan.shards[s].name && out.range == range
  }

  /** A boundary register whose declared length matches the supplied value. */
  predicate Supplied(layout: BoundaryLayout, env: Env, r: Register) {
    && ElementCount(layout, r).Some?
    && ExternalValue(env, r).Some?
    && |ExternalValue(env, r).value| == ElementCount(layout, r).value
  }

  ghost predicate AllSupplied(layout: BoundaryLayout, env: Env, rs: set<Register>) {
    forall r :: r in rs ==> Supplied(layout, env, r)
  }

  ghost predicate AllDeclared(layout: BoundaryLayout, rs: set<Register>) {
    forall r :: r in rs ==> ElementCount(layout, r).Some?
  }

  ghost predicate WeightsConvert(program: CompiledProgram, rs: seq<Register>) {
    forall k :: 0 <= k < |rs| && rs[k].Weight? ==> WeightValue(program, rs[k].name).Some?
  }

  ghost predicate OutputsInside(program: CompiledProgram) {
    forall k :: 0 <= k < |program.graphOutputs| ==>
      program.graphOutputs[k].1.Virtual? && program.graphOutputs[k].1.index < |program.instructions|
  }

  /** The plan was made for this program, model and layout, and has this shard. */
  ghost predicate Addresses(
      program: CompiledProgram, plan: PartitionPlan, s: nat, modelDigest: Digest, layout: BoundaryLayout)
  {
    && plan.programSnapshot == program && plan.modelDigest == modelDigest && plan.boundaryLayout == Some(layout)
    && s < |plan.shards|
  }

  /** Exactly when binding succeeds. */
  ghost predicate CanBind(
      plan: PartitionPlan, s: nat, layout: BoundaryLayout, graphInputs: map<string, Tensor>,
      incoming: map<Register, Tensor>)
    requires InPlan(plan, s)
  {
    var program, range, instrs :=
      plan.programSnapshot, Range(plan.shards[s].start, plan.shards[s].end), InstructionsOf(plan, s);
    && incoming.Keys == Elements(plan.dag.shards[s].inputs)
    && AllSupplied(layout, LocalEnv(program, graphInputs, incoming), ExternalSet(range.start, instrs))
    && WeightsConvert(program, Reads(instrs))
    && OutputsInside(program)
    && AllDeclared(layout, OutputSet(program, plan.dag.shards[s].outputs, range))
  }

  /** A bound shard, run by local index, computes its range register by register. */
  lemma {:induction false} BoundMeaning(
      sem: Semantics, plan: PartitionPlan, s: nat, layout: BoundaryLayout, graphInputs: map<string, Tensor>,
      incoming: map<Register, Tensor>, out: BoundShardProgram)
    requires InPlan(plan, s) && IsBound(plan, s, layout, graphInputs, incoming, out)
    ensures Run(sem, out.assemblerProgram)
         == Eval(sem, LocalEnv(plan.programSnapshot, graphInputs, incoming), plan.shards[s].start,
           InstructionsOf(plan, s))
  {
    LoweredRangeMeaning(sem, out.assemblerProgram, LocalEnv(plan.programSnapshot, graphInputs, incoming),
      plan.shards[s].start,
      InstructionsOf(plan, s), InputOrder(plan.shards[s].start, InstructionsOf(plan, s)));
  }

  // ----- facts about valid plans -----

  lemma {:induction false} ValidPlanShard(plan: PartitionPlan, s: nat)
    requires ValidPlan(plan) && s < |plan.shards|
    ensures InPlan(plan, s) && plan.shards[s].start < plan.shards[s].end
    ensures RangesOf(plan.shards)[s] == Range(plan.shards[s].start, plan.shards[s].end)
  {
  }

  ghost predicate Ranges(specs: seq<ShardSpec>, ranges: seq<Range>, n: nat) {
    && Partitions(ranges, n) && Contiguous(specs, n) && |specs| == |ranges|
    && forall k :: 0 <= k < |ranges| ==> specs[k].start == ranges[k].start && specs[k].end == ranges[k].end
  }

  lemma {:induction false} OwnerOf(specs: seq<ShardSpec>, ranges: seq<Range>, n: nat, s: nat, i: nat)
    requires Ranges(specs, ranges, n) && s < |ranges| && i < n
    ensures ShardOf(specs, i) == s <==> Within(ranges[s], i)
  {
    ShardOfTotal(specs, n, i);
    assert Within(ranges[ShardOf(specs, i)], i);
    if Within(ranges[s], i) { OneRange(ranges, n, s, ShardOf(specs, i), i); }
  }

  lemma {:induction false} ExternalCrosses(
      program: CompiledProgram, specs: seq<ShardSpec>, ranges: seq<Range>, s: nat, k: nat, j: nat)
    requires Ranges(specs, ranges, |program.instructions|) && s < |ranges|
    requires k < |Slice(program, ranges[s])| && j < |Slice(program, ranges[s])[k].inputs|
    requires Slice(program, ranges[s])[k].inputs[j].Virtual?
      && Slice(program, ranges[s])[k].inputs[j].index < ranges[s].start
    ensures var i := Slice(program, ranges[s])[k].inputs[j].index;
      ShardOf(specs, i) != s && ReadIn(program, specs, s, i)
  {
    var at := ranges[s].start + k;
    var i := program.instructions[at].inputs[j].index;
    OwnerOf(specs, ranges, |program.instructions|, s, at);
    OwnerOf(specs, ranges, |program.instructions|, s, i);
  }

  lemma {:induction false} CrossingIsExternal(
      program: CompiledProgram, specs: seq<ShardSpec>, ranges: seq<Range>, s: nat, at: nat, j: nat)
    requires Ranges(specs, ranges, |program.instructions|) && s < |ranges|
    requires at < |program.instructions| && j < |program.instructions[at].inputs|
      && program.instructions[at].inputs[j].Virtual?
    requires program.instructions[at].inputs[j].index < at
    requires ShardOf(specs, at) == s && ShardOf(specs, program.instructions[at].inputs[j].index) != s
    ensures program.instructions[at].inputs[j] in ExternalSet(ranges[s].start, Slice(program, ranges[s]))
  {
    OwnerOf(specs, ranges, |program.instructions|, s, at);
    OwnerOf(specs, ranges, |program.instructions|, s, program.instructions[at].inputs[j].index);
    assert Slice(program, ranges[s])[at - ranges[s].start] == program.instructions[at];
  }

  /** The earlier values a range reads are exactly the crossing reads of its shard. */
  lemma {:induction false} ExternalReads(
      program: CompiledProgram, specs: seq<ShardSpec>, ranges: seq<Range>, s: nat, i: nat)
    requires Ranges(specs, ranges, |program.instructions|) && WellOrdered(program) && s < |ranges|
    ensures Register.Virtual(i) in ExternalSet(ranges[s].start, Slice(program, ranges[s]))
      <==> ShardOf(specs, i) != s && ReadIn(program, specs, s, i)
  {
    var instrs := Slice(program, ranges[s]);
    if Register.Virtual(i) in ExternalSet(ranges[s].start, instrs) {
      var k, j :| 0 <= k < |instrs| && 0 <= j < |instrs[k].inputs| && instrs[k].inputs[j] == Register.Virtual(i)
        && i < ranges[s].start;
      ExternalCrosses(program, specs, ranges, s, k, j);
    }
    if ShardOf(specs, i) != s && ReadIn(program, specs, s, i) {
      var at, j :| 0 <= at < |program.instructions| && 0 <= j < |program.instructions[at].inputs|
        && program.instructions[at].inputs[j] == Register.Virtual(i) && ShardOf(specs, at) == s;
      CrossingIsExternal(program, specs, ranges, s, at, j);
    }
  }

  lemma {:induction false} ExternalVirtualsAreInputs(plan: PartitionPlan, s: nat, i: nat)
    requires ValidPlan(plan) && s < |plan.shards|
    ensures InPlan(plan, s)
    ensures Register.Virtual(i) in ExternalSet(plan.shards[s].start, InstructionsOf(plan, s))
      <==> Register.Virtual(i) in plan.dag.shards[s].inputs
  {
    ValidPlanShard(plan, s);
    ExternalReads(plan.programSnapshot, SpecsOf(plan.shards), RangesOf(plan.shards), s, i);
    ShardInputsExact(plan.programSnapshot, SpecsOf(plan.shards), s, i);
  }

  lemma {:induction false} BoundaryRegisters(plan: PartitionPlan, s: nat)
    requires ValidPlan(plan) && s < |plan.dag.shards|
    ensures forall r :: r in plan.dag.shards[s].outputs ==> r.Virtual?
    ensures forall r :: r in plan.dag.shards[s].inputs ==> r.Virtual?
  {
    RegisterOrder();
    var keys := EdgeKeys(plan.programSnapshot, SpecsOf(plan.shards));
    assert Elements(plan.dag.shards[s].outputs) == OutputsOf(keys, s);
    assert Elements(plan.dag.shards[s].inputs) == InputsOf(keys, s);
    forall r | r in plan.dag.shards[s].outputs ensures r.Virtual? { assert r in Elements(plan.dag.shards[s].outputs); }
    forall r | r in plan.dag.shards[s].inputs ensures r.Virtual? { assert r in Elements(plan.dag.shards[s].inputs); }
  }

  /** A value some other shard reads lies in its producer's range. */
  lemma {:induction false} OutputIsOwn(
      program: CompiledProgram, specs: seq<ShardSpec>, ranges: seq<Range>, s: nat, i: nat)
    requires Ranges(specs, ranges, |program.instructions|) && WellOrdered(program) && s < |ranges|
    requires Register.Virtual(i) in DagOf(program, specs).shards[s].outputs
    ensures Within(ranges[s], i)
  {
    ShardOutputsExact(program, specs, s, i);
    var c: nat :| c != s && ReadIn(program, specs, c, i);
    EdgesExact(program, specs, s, c, i);
    OwnerOf(specs, ranges, |program.instructions|, s, i);
  }
}
