/** The statement a leaf prover makes from a loaded witness, and when it speaks of the run it proves. */
module LeafProver {
  import opened Prelude
  import opened Program
  import opened Assembler
  import opened Lowering
  import opened BoundaryLayouts
  import opened Partition
  import opened ShardSemantics
  import opened ShardBinding
  import opened ShardRuns
  import opened WitnessCpu
  import opened WitnessTemplate
  import opened GlobalSoundness
  import PB = PublicBoundary
  import LA = LeafAdmission
  import LS = LeafStatements
  import SE = ShardedExecution
  import HR = HonestRuns

  datatype StatementError = InputLayout | ValueLayout | InputLength(position: nat) | TooManyClaims | TooManyWeights

  // ----- the statement, as a function of what is loaded -----

  function Declared(boundaries: seq<BoundaryDescriptor>): nat {
    if |boundaries| == 0 then 0
    else Declared(boundaries[..|boundaries| - 1]) + boundaries[|boundaries| - 1].elementCount
  }

  /** The values of boundary `k` when values are cut up by the declared counts. */
  function Portion(boundaries: seq<BoundaryDescriptor>, values: seq<I18>, k: nat): Tensor
    requires k < |boundaries| && |values| == Declared(boundaries)
  {
    DeclaredGrows(boundaries, k + 1);
    assert boundaries[..k + 1][..k] == boundaries[..k];
    values[Declared(boundaries[..k])..Declared(boundaries[..k + 1])]
  }

  lemma {:induction false} DeclaredGrows(boundaries: seq<BoundaryDescriptor>, k: nat)
    requires k <= |boundaries|
    ensures Declared(boundaries[..k]) <= Declared(boundaries)
    decreases |boundaries| - k
  {
    if k < |boundaries| {
      DeclaredGrows(boundaries, k + 1);
      assert boundaries[..k + 1][..k] == boundaries[..k];
    } else {
      assert boundaries[..k] == boundaries;
    }
  }

  function InputClaim(commit: Commit, d: BoundaryDescriptor, values: Tensor): PB.Binding {
    PB.Binding(Described(d, PB.Input), commit(d.register, values))
  }

  function OutputClaim(commit: Commit, d: BoundaryDescriptor, values: Tensor): PB.Binding {
    PB.Binding(Described(d, PB.Output), commit(d.register, values))
  }

  /** Inputs and outputs claimed for the declared boundaries, position by position. */
  ghost predicate Claims(
      commit: Commit, inputs: seq<BoundaryDescriptor>, outputs: seq<BoundaryDescriptor>, inputValues: seq<Tensor>,
      outputValues: seq<I18>, statement: LA.Statement)
    requires |inputs| == |inputValues| && |outputValues| == Declared(outputs)
  {
    && |statement.inputClaims| == |inputs| && |statement.outputClaims| == |outputs|
    && (forall k :: 0 <= k < |inputs| ==> statement.inputClaims[k] == InputClaim(commit, inputs[k], inputValues[k]))
    && (forall k :: 0 <= k < |outputs| ==>
      statement.outputClaims[k] == OutputClaim(commit, outputs[k], Portion(outputs, outputValues, k)))
  }

  predicate LengthsFit(inputs: seq<BoundaryDescriptor>, values: seq<Tensor>) {
    |inputs| == |values| && forall k :: 0 <= k < |inputs| ==> inputs[k].elementCount == |values[k]|
  }

  /** Where the output values begin among the public values. */
  function OutputStart(program: AssemblerProgram): nat {
    |Concat(program.inputValues)| + |Concat(program.weightValues)|
  }

  predicate WithinLimits(inputs: seq<BoundaryDescriptor>, outputs: seq<BoundaryDescriptor>, program: AssemblerProgram)
  {
    |inputs| + |outputs| <= LS.MAX_CLAIMS && |Concat(program.weightValues)| <= LS.MAX_PUBLIC_WEIGHTS
  }

  /** Exactly when a statement is made. */
  predicate Statable(
      inputs: seq<BoundaryDescriptor>, outputs: seq<BoundaryDescriptor>, program: AssemblerProgram,
      publicValues: seq<I18>)
  {
    && LengthsFit(inputs, program.inputValues)
    && |publicValues| == OutputStart(program) + Declared(outputs)
    && WithinLimits(inputs, outputs, program)
  }

  method ClaimInputs(commit: Commit, inputs: seq<BoundaryDescriptor>, values: seq<Tensor>)
    returns (r: Result<seq<PB.Binding>, StatementError>)
    requires |inputs| == |values|
    ensures r.Ok? <==> LengthsFit(inputs, values)
    ensures r.Ok? ==> |r.value| == |inputs| && forall k :: 0 <= k < |inputs| ==>
      r.value[k] == InputClaim(commit, inputs[k], values[k])
    ensures r.Err? ==>
      && r.error.InputLength? && r.error.position < |inputs|
      && inputs[r.error.position].elementCount != |values[r.error.position]|
  {
    var claims: seq<PB.Binding> := [];
    for k := 0 to |inputs|
      invariant |claims| == k
      invariant forall j :: 0 <= j < k ==> inputs[j].elementCount == |values[j]|
      invariant forall j :: 0 <= j < k ==> claims[j] == InputClaim(commit, inputs[j], values[j])
    {
      if inputs[k].elementCount != |values[k]| {
        return Err(InputLength(k));
      }
      claims := claims + [InputClaim(commit, inputs[k], values[k])];
    }
    r := Ok(claims);
  }

  ghost predicate ClaimedUpTo(
      commit: Commit, outputs: seq<BoundaryDescriptor>, values: seq<I18>, k: nat, claims: seq<PB.Binding>)
    requires |values| == Declared(outputs)
  {
    && k <= |outputs| && |claims| == k
    && forall j :: 0 <= j < k ==> claims[j] == OutputClaim(commit, outputs[j], Portion(outputs, values, j))
  }

  lemma {:induction false} NextPortion(outputs: seq<BoundaryDescriptor>, values: seq<I18>, k: nat)
    requires |values| == Declared(outputs) && k < |outputs|
    ensures Declared(outputs[..k + 1]) == Declared(outputs[..k]) + outputs[k].elementCount <= |values|
    ensures Portion(outputs, values, k) == values[Declared(outputs[..k])..Declared(outputs[..k + 1])]
  {
    DeclaredGrows(outputs, k + 1);
    assert outputs[..k + 1][..k] == outputs[..k];
  }

  /** Cuts the values up from the front, one declared count after the other. */
  method ClaimOutputs(commit: Commit, outputs: seq<BoundaryDescriptor>, values: seq<I18>)
    returns (claims: seq<PB.Binding>)
    requires |values| == Declared(outputs)
    ensures |claims| == |outputs|
    ensures forall k :: 0 <= k < |outputs| ==>
      claims[k] == OutputClaim(commit, outputs[k], Portion(outputs, values, k))
  {
    claims := [];
    var offset := 0;
    for k := 0 to |outputs|
      invariant offset == Declared(outputs[..k]) && ClaimedUpTo(commit, outputs, values, k, claims)
    {
      NextPortion(outputs, values, k);
      var end := offset + outputs[k].elementCount;
      claims := claims + [OutputClaim(commit, outputs[k], values[offset..end])];
      offset := end;
    }
  }

  /** Pairs the declared boundaries with the loaded tensors, and the output values with the declared counts. */
  method MakeStatement(
      commit: Commit, flavor: string, inputs: seq<BoundaryDescriptor>, outputs: seq<BoundaryDescriptor>,
      program: AssemblerProgram, publicValues: seq<I18>)
    returns (r: Result<LA.Statement, StatementError>)
    ensures r.Ok? <==> Statable(inputs, outputs, program, publicValues)
    ensures r.Ok? ==>
      && r.value.flavor == flavor
      && Claims(commit, inputs, outputs, program.inputValues, publicValues[OutputStart(program)..], r.value)
  {
    if |inputs| != |program.inputValues| {
      return Err(InputLayout);
    }
    if |publicValues| != OutputStart(program) + Declared(outputs) {
      return Err(ValueLayout);
    }
    var inputClaims := ClaimInputs(commit, inputs, program.inputValues);
    if inputClaims.Err? {
      return Err(inputClaims.error);
    }
    var outputClaims := ClaimOutputs(commit, outputs, publicValues[OutputStart(program)..]);
    if |inputs| + |outputs| > LS.MAX_CLAIMS {
      return Err(TooManyClaims);
    }
    if |Concat(program.weightValues)| > LS.MAX_PUBLIC_WEIGHTS {
      return Err(TooManyWeights);
    }
    r := Ok(LA.Statement(flavor, inputClaims.value, outputClaims));
  }

  // ----- the input side: whose value is paired with a boundary -----

  /** Pairing the boundaries in key order with values in first-seen order gives each its own register's value. */
  ghost predicate PairsOwn(value: Register -> Tensor, start: nat, instrs: seq<CompiledInstruction>) {
    var keyed, seen := InputOrder(start, instrs), FirstSeenOrder(start, Reads(instrs));
    |keyed| == |seen| && forall k :: 0 <= k < |keyed| ==> value(seen[k]) == value(keyed[k])
  }

  lemma {:induction false} OrdersAlikeLong(start: nat, instrs: seq<CompiledInstruction>)
    ensures |InputOrder(start, instrs)| == |FirstSeenOrder(start, Reads(instrs))|
  {
    FirstSeenOrderExact(start, instrs);
    DistinctSize(InputOrder(start, instrs));
    DistinctSize(FirstSeenOrder(start, Reads(instrs)));
  }

  /** The pairing is right whatever the values exactly when the range first reads its registers in key order. */
  lemma {:induction false} PairingRightIff(start: nat, instrs: seq<CompiledInstruction>)
    ensures (forall value: Register -> Tensor :: PairsOwn(value, start, instrs)) <==> ReadsInKeyOrder(start, instrs)
  {
    OrdersEqualIff(start, instrs);
    OrdersAlikeLong(start, instrs);
    var keyed, seen := InputOrder(start, instrs), FirstSeenOrder(start, Reads(instrs));
    if seen != keyed {
      var k :| 0 <= k < |keyed| && seen[k] != keyed[k];
      var apart: Register -> Tensor := r => if r == keyed[k] then [1] else [0];
      assert apart(seen[k]) != apart(keyed[k]);
      assert !PairsOwn(apart, start, instrs);
    }
  }

  // ----- the output side: cutting the values up again -----

  /** Cutting joined tensors up by declared counts gives them back exactly when each has its declared length. */
  lemma {:induction false} PortionsExact(boundaries: seq<BoundaryDescriptor>, tensors: seq<Tensor>)
    requires |boundaries| == |tensors| && |Concat(tensors)| == Declared(boundaries)
    ensures (forall k :: 0 <= k < |boundaries| ==> Portion(boundaries, Concat(tensors), k) == tensors[k]) <==>
      LengthsFit(boundaries, tensors)
  {
    if LengthsFit(boundaries, tensors) {
      forall k | 0 <= k < |boundaries| ensures Portion(boundaries, Concat(tensors), k) == tensors[k] {
        PortionIsTensor(boundaries, tensors, k);
      }
    }
    forall k | 0 <= k < |boundaries| ensures |Portion(boundaries, Concat(tensors), k)| == boundaries[k].elementCount {
      DeclaredGrows(boundaries, k + 1);
      assert boundaries[..k + 1][..k] == boundaries[..k];
    }
  }

  lemma {:induction false} JoinedPrefix(boundaries: seq<BoundaryDescriptor>, tensors: seq<Tensor>, k: nat)
    requires LengthsFit(boundaries, tensors) && k <= |tensors|
    ensures |Concat(tensors[..k])| == Declared(boundaries[..k])
    decreases k
  {
    if k > 0 {
      JoinedPrefix(boundaries, tensors, k - 1);
      assert tensors[..k][..k - 1] == tensors[..k - 1] && boundaries[..k][..k - 1] == boundaries[..k - 1];
    }
  }

  lemma {:induction false} JoinedAt(tensors: seq<Tensor>, k: nat)
    requires k < |tensors|
    ensures |Concat(tensors[..k])| + |tensors[k]| <= |Concat(tensors)|
    ensures Concat(tensors)[|Concat(tensors[..k])|..|Concat(tensors[..k])| + |tensors[k]|] == tensors[k]
    decreases |tensors|
  {
    var n := |tensors| - 1;
    if k < n {
      JoinedAt(tensors[..n], k);
      assert tensors[..n][..k] == tensors[..k];
    } else {
      assert Concat(tensors) == Concat(tensors[..n]) + tensors[n];
    }
  }

  lemma {:induction false} PortionIsTensor(boundaries: seq<BoundaryDescriptor>, tensors: seq<Tensor>, k: nat)
    requires LengthsFit(boundaries, tensors) && k < |tensors| && |Concat(tensors)| == Declared(boundaries)
    ensures Portion(boundaries, Concat(tensors), k) == tensors[k]
  {
    JoinedPrefix(boundaries, tensors, k);
    JoinedPrefix(boundaries, tensors, k + 1);
    assert boundaries[..k + 1][..k] == boundaries[..k];
    JoinedAt(tensors, k);
  }

  // ----- the values a witness publishes -----

  predicate IndexLe(a: nat, b: nat) { a <= b }

  /** The instructions whose values a witness publishes, ascending. */
  ghost function PublicIndices(plan: PartitionPlan, s: nat): seq<nat>
    requires InPlan(plan, s)
  {
    Ascending(IndexLe, set r | r in SE.PublishedBy(plan, s) && r.Virtual? :: r.index)
  }

  /** They are the output boundaries' registers, in the same order. */
  lemma {:induction false} PublicIsBoundary(plan: PartitionPlan, s: nat)
    requires ValidPlan(plan) && s < |plan.shards|
    ensures InPlan(plan, s)
    ensures var range := Range(plan.shards[s].start, plan.shards[s].end);
      var indices, order :=
        PublicIndices(plan, s), OutputOrder(plan.programSnapshot, plan.dag.shards[s].outputs, range);
      |indices| == |order| && forall k :: 0 <= k < |indices| ==>
        order[k] == Register.Virtual(indices[k]) && Within(range, indices[k])
  {
    SE.PublishesOwn(plan, s);
    var range := Range(plan.shards[s].start, plan.shards[s].end);
    var indices := PublicIndices(plan, s);
    var registers := seq(|indices|, k requires 0 <= k < |indices| => Register.Virtual(indices[k]));
    forall r ensures r in registers <==> r in SE.PublishedBy(plan, s) {
      if r in SE.PublishedBy(plan, s) {
        assert r.index in Elements(indices);
        var k :| 0 <= k < |indices| && indices[k] == r.index;
        assert registers[k] == r;
      }
      if r in registers {
        var k :| 0 <= k < |registers| && registers[k] == r;
        assert indices[k] in Elements(indices);
      }
    }
    assert Elements(registers) == SE.PublishedBy(plan, s);
    RegisterOrder();
    SortedSetUnique(RegisterLe, registers, OutputOrder(plan.programSnapshot, plan.dag.shards[s].outputs, range));
    forall k | 0 <= k < |indices| ensures Within(range, indices[k]) {
      assert registers[k] in registers;
    }
  }

  /** The tensors the run publishes, in that order. */
  ghost function PublishedTensors(plan: PartitionPlan, s: nat, run: ShardRun): (tensors: seq<Tensor>)
    requires ValidPlan(plan) && InPlan(plan, s) && plan.shards[s].start + |run.virtuals| == plan.shards[s].end
    ensures |tensors| == |PublicIndices(plan, s)|
    ensures forall k :: 0 <= k < |tensors| ==>
      ComputedAt(plan.shards[s].start, run.virtuals, PublicIndices(plan, s)[k], tensors[k])
  {
    PublicIsBoundary(plan, s);
    var indices := PublicIndices(plan, s);
    seq(|indices|, k requires 0 <= k < |indices| => run.virtuals[indices[k] - plan.shards[s].start])
  }

  /** The tensor is what the run computed for an instruction. */
  ghost predicate ComputedAt(start: nat, virtuals: seq<Tensor>, index: nat, tensor: Tensor) {
    start <= index < start + |virtuals| && tensor == virtuals[index - start]
  }

  /** What a witness hands over: inputs, weights, and the published tensors, end to end. */
  ghost function PublicValues(program: AssemblerProgram, published: seq<Tensor>): seq<I18> {
    Concat(program.inputValues) + Concat(program.weightValues) + Concat(published)
  }

  // ----- the statement speaks of the run -----

  /**
   * The prover was set up for this shard: bound to some values, which passed the template check, on the layout the
   * shard is run with.
   */
  ghost predicate SetUp(
      plan: PartitionPlan, s: nat, layout: BoundaryLayout, weights: map<string, Tensor>, shapes: map<Register, nat>,
      example: ShardRun)
  {
    && InPlan(plan, s) && CanBind(plan, s, layout, example.graphInputs, example.incoming)
    && IsBound(plan, s, layout, example.graphInputs, example.incoming, example.bound)
    && SameShapes(layout, shapes, ExternalSet(plan.shards[s].start, InstructionsOf(plan, s)))
    && SameWeights(plan.programSnapshot, weights, Reads(InstructionsOf(plan, s)))
    && IsTemplate(example.bound.assemblerProgram, weights, shapes, plan.shards[s].start, InstructionsOf(plan, s))
  }

  /** What the prover pairs: the boundaries it was set up with, and the witness reloaded in first-seen order. */
  ghost predicate Stated(
      commit: Commit, plan: PartitionPlan, s: nat, example: ShardRun, run: ShardRun, program: AssemblerProgram,
      statement: LA.Statement)
    requires ValidPlan(plan) && InPlan(plan, s) && plan.shards[s].start + |run.virtuals| == plan.shards[s].end
  {
    var published := PublishedTensors(plan, s, run);
    var inputs, outputs := example.bound.inputBoundaries, example.bound.outputBoundaries;
    && LoweredRange(program, EnvOf(plan, run), plan.shards[s].start, InstructionsOf(plan, s),
         FirstSeenOrder(plan.shards[s].start, Reads(InstructionsOf(plan, s))))
    && Statable(inputs, outputs, program, PublicValues(program, published))
    && Claims(commit, inputs, outputs, program.inputValues,
         PublicValues(program, published)[OutputStart(program)..], statement)
  }

  /** Every output the run publishes has the length its boundary declares. */
  ghost predicate OutputsFit(plan: PartitionPlan, s: nat, run: ShardRun)
    requires ValidPlan(plan) && InPlan(plan, s) && plan.shards[s].start + |run.virtuals| == plan.shards[s].end
  {
    LengthsFit(run.bound.outputBoundaries, PublishedTensors(plan, s, run))
  }

  lemma {:induction false} SameBoundaries(
      plan: PartitionPlan, s: nat, layout: BoundaryLayout, a: ShardRun, b: ShardRun)
    requires InPlan(plan, s) && IsBound(plan, s, layout, a.graphInputs, a.incoming, a.bound)
      && IsBound(plan, s, layout, b.graphInputs, b.incoming, b.bound)
    ensures a.bound.inputBoundaries == b.bound.inputBoundaries
    ensures a.bound.outputBoundaries == b.bound.outputBoundaries
  {
  }

  /** The template check makes the pairing right: every input claim commits to its own register's value. */
  lemma {:induction false} InputsStated(
      commit: Commit, plan: PartitionPlan, layout: BoundaryLayout, s: nat, run: ShardRun, program: AssemblerProgram,
      statement: LA.Statement)
    requires InPlan(plan, s) && ReadsInKeyOrder(plan.shards[s].start, InstructionsOf(plan, s))
    requires DescribesInputs(plan, layout, s, InputOrder(plan.shards[s].start, InstructionsOf(plan, s)),
      run.bound.inputBoundaries)
    requires LoweredRange(program, EnvOf(plan, run), plan.shards[s].start, InstructionsOf(plan, s),
      FirstSeenOrder(plan.shards[s].start, Reads(InstructionsOf(plan, s))))
    requires |statement.inputClaims| == |run.bound.inputBoundaries| == |program.inputValues|
    requires forall k :: 0 <= k < |statement.inputClaims| ==>
      statement.inputClaims[k] == InputClaim(commit, run.bound.inputBoundaries[k], program.inputValues[k])
    ensures forall k :: 0 <= k < |statement.inputClaims| ==>
      StatesInput(commit, EnvOf(plan, run), run.bound.inputBoundaries[k], statement.inputClaims[k])
  {
    OrdersEqualIff(plan.shards[s].start, InstructionsOf(plan, s));
  }

  lemma {:induction false} BoundaryIsPublic(
      plan: PartitionPlan, layout: BoundaryLayout, s: nat, out: seq<BoundaryDescriptor>, k: nat)
    requires ValidPlan(plan) && InPlan(plan, s) && k < |out|
    requires DescribesOutputs(plan, layout, s, OutputOrder(plan.programSnapshot, plan.dag.shards[s].outputs,
      Range(plan.shards[s].start, plan.shards[s].end)), out)
    ensures |out| == |PublicIndices(plan, s)| && out[k].register == Register.Virtual(PublicIndices(plan, s)[k])
  {
    PublicIsBoundary(plan, s);
  }

  /** The boundary is for this tensor of the run. */
  ghost predicate BoundaryOf(d: BoundaryDescriptor, start: nat, virtuals: seq<Tensor>, tensor: Tensor) {
    d.register.Virtual? && ComputedAt(start, virtuals, d.register.index, tensor)
  }

  lemma {:induction false} OutputStatedIff(
      commit: Commit, start: nat, virtuals: seq<Tensor>, d: BoundaryDescriptor, tensor: Tensor, values: Tensor)
    requires Binding(commit) && BoundaryOf(d, start, virtuals, tensor)
    ensures StatesOutput(commit, start, virtuals, d, OutputClaim(commit, d, values)) <==> values == tensor
  {
  }

  lemma {:induction false} OutputClaimsIff(
      commit: Commit, start: nat, virtuals: seq<Tensor>, boundaries: seq<BoundaryDescriptor>, tensors: seq<Tensor>,
      claims: seq<PB.Binding>)
    requires Binding(commit) && |boundaries| == |tensors| == |claims|
    requires |Concat(tensors)| == Declared(boundaries)
    requires forall k :: 0 <= k < |boundaries| ==> BoundaryOf(boundaries[k], start, virtuals, tensors[k])
    requires forall k :: 0 <= k < |boundaries| ==>
      claims[k] == OutputClaim(commit, boundaries[k], Portion(boundaries, Concat(tensors), k))
    ensures LengthsFit(boundaries, tensors) <==>
      forall k :: 0 <= k < |claims| ==> StatesOutput(commit, start, virtuals, boundaries[k], claims[k])
  {
    PortionsExact(boundaries, tensors);
    forall k | 0 <= k < |boundaries|
      ensures StatesOutput(commit, start, virtuals, boundaries[k], claims[k]) <==>
        Portion(boundaries, Concat(tensors), k) == tensors[k]
    {
      OutputStatedIff(commit, start, virtuals, boundaries[k], tensors[k], Portion(boundaries, Concat(tensors), k));
    }
  }

  lemma {:induction false} OutputsStatedIff(
      commit: Commit, plan: PartitionPlan, layout: BoundaryLayout, s: nat, run: ShardRun, statement: LA.Statement,
      outputValues: seq<I18>)
    requires ValidPlan(plan) && InPlan(plan, s) && plan.shards[s].start + |run.virtuals| == plan.shards[s].end
    requires Binding(commit)
    requires DescribesOutputs(plan, layout, s, OutputOrder(plan.programSnapshot, plan.dag.shards[s].outputs,
      Range(plan.shards[s].start, plan.shards[s].end)), run.bound.outputBoundaries)
    requires outputValues == Concat(PublishedTensors(plan, s, run))
    requires |outputValues| == Declared(run.bound.outputBoundaries)
    requires |statement.outputClaims| == |run.bound.outputBoundaries|
    requires forall k :: 0 <= k < |statement.outputClaims| ==>
      statement.outputClaims[k] == OutputClaim(commit, run.bound.outputBoundaries[k],
        Portion(run.bound.outputBoundaries, outputValues, k))
    ensures OutputsFit(plan, s, run) <==> forall k :: 0 <= k < |statement.outputClaims| ==>
      StatesOutput(commit, plan.shards[s].start, run.virtuals, run.bound.outputBoundaries[k],
        statement.outputClaims[k])
  {
    var boundaries, tensors := run.bound.outputBoundaries, PublishedTensors(plan, s, run);
    assert |boundaries| == |tensors| by { PublicIsBoundary(plan, s); }
    forall k | 0 <= k < |boundaries| ensures BoundaryOf(boundaries[k], plan.shards[s].start, run.virtuals, tensors[k]) {
      BoundaryIsPublic(plan, layout, s, boundaries, k);
    }
    OutputClaimsIff(commit, plan.shards[s].start, run.virtuals, boundaries, tensors, statement.outputClaims);
  }

  /**
   * A prover that passed the template check states, for any run of its shard, exactly that run, as long as every
   * output has its declared length.
   */
  lemma {:induction false} StatementStatesRun(
      sem: Semantics, commit: Commit, plan: PartitionPlan, layout: BoundaryLayout, s: nat,
      weights: map<string, Tensor>, shapes: map<Register, nat>, example: ShardRun, run: ShardRun,
      program: AssemblerProgram, statement: LA.Statement)
    requires ValidPlan(plan) && Binding(commit) && SetUp(plan, s, layout, weights, shapes, example)
    requires RanAlone(sem, plan, layout, s, run)
    ensures plan.shards[s].start + |run.virtuals| == plan.shards[s].end
    ensures Stated(commit, plan, s, example, run, program, statement) ==>
      (StatesRun(commit, plan, s, run, statement) <==> OutputsFit(plan, s, run))
  {
    RunMeaning(sem, plan, layout, s, run);
    if Stated(commit, plan, s, example, run, program, statement) {
      SameBoundaries(plan, s, layout, example, run);
      PassesInKeyOrder(plan, s, layout, weights, shapes, example);
      StatedIsRun(commit, plan, layout, s, run, program, statement);
    }
  }

  lemma {:induction false} PassesInKeyOrder(
      plan: PartitionPlan, s: nat, layout: BoundaryLayout, weights: map<string, Tensor>, shapes: map<Register, nat>,
      example: ShardRun)
    requires SetUp(plan, s, layout, weights, shapes, example)
    ensures ReadsInKeyOrder(plan.shards[s].start, InstructionsOf(plan, s))
  {
    BoundPassesTemplateIff(plan, s, layout, example.graphInputs, example.incoming, example.bound, weights, shapes);
  }

  lemma {:induction false} StatedIsRun(
      commit: Commit, plan: PartitionPlan, layout: BoundaryLayout, s: nat, run: ShardRun, program: AssemblerProgram,
      statement: LA.Statement)
    requires ValidPlan(plan) && InPlan(plan, s) && plan.shards[s].start + |run.virtuals| == plan.shards[s].end
    requires Binding(commit) && ReadsInKeyOrder(plan.shards[s].start, InstructionsOf(plan, s))
    requires IsBound(plan, s, layout, run.graphInputs, run.incoming, run.bound)
    requires Stated(commit, plan, s, run, run, program, statement)
    ensures StatesRun(commit, plan, s, run, statement) <==> OutputsFit(plan, s, run)
  {
    var published := PublishedTensors(plan, s, run);
    InputsStated(commit, plan, layout, s, run, program, statement);
    assert PublicValues(program, published)[OutputStart(program)..] == Concat(published);
    OutputsStatedIff(commit, plan, layout, s, run, statement, Concat(published));
  }

  // ----- all provers together -----

  /** What a prover was set up with, and what it loaded for one run. */
  datatype Prover = Prover(
    example: ShardRun, weights: map<string, Tensor>, shapes: map<Register, nat>, program: AssemblerProgram)

  /** The proof's statement is the one its prover makes of the run. */
  ghost predicate ProvedBy(
      sem: Semantics, commit: Commit, plan: PartitionPlan, layout: BoundaryLayout, s: nat, prover: Prover,
      run: ShardRun, proof: LA.VerifiedProof)
  {
    && ValidPlan(plan) && RanAlone(sem, plan, layout, s, run) && proof.statement.Some?
    && SetUp(plan, s, layout, prover.weights, prover.shapes, prover.example)
    && plan.shards[s].start + |run.virtuals| == plan.shards[s].end
    && Stated(commit, plan, s, prover.example, run, prover.program, proof.statement.value)
  }

  /** The run has filled its range with outputs of the declared lengths. */
  ghost predicate FitsDeclared(plan: PartitionPlan, s: nat, run: ShardRun) {
    && ValidPlan(plan) && InPlan(plan, s) && plan.shards[s].start + |run.virtuals| == plan.shards[s].end
    && OutputsFit(plan, s, run)
  }

  /** Shards run in order and proved each by its own prover, on tensors of the declared lengths, are an honest run. */
  lemma {:induction false} ProversAreHonest(
      sem: Semantics, commit: Commit, plan: PartitionPlan, layout: BoundaryLayout, graphInputs: map<string, Tensor>,
      provers: seq<Prover>, runs: seq<ShardRun>, proofs: seq<LA.VerifiedProof>)
    requires ValidPlan(plan) && Binding(commit)
    requires |provers| == |runs| == |proofs| == |plan.shards| == |plan.dag.shards|
    requires forall s :: 0 <= s < |runs| ==> SE.Executed(sem, plan, layout, graphInputs, runs, s)
    requires forall s :: 0 <= s < |runs| ==>
      ProvedBy(sem, commit, plan, layout, s, provers[s], runs[s], proofs[s])
    ensures HR.Honest(sem, commit, plan, layout, graphInputs, runs, proofs) <==>
      forall s :: 0 <= s < |runs| ==> FitsDeclared(plan, s, runs[s])
  {
    forall s | 0 <= s < |runs|
      ensures HR.Commits(commit, plan, s, runs[s], proofs[s]) <==> FitsDeclared(plan, s, runs[s])
    {
      ProvedStatesRun(sem, commit, plan, layout, s, provers[s], runs[s], proofs[s]);
    }
  }

  lemma {:induction false} ProvedStatesRun(
      sem: Semantics, commit: Commit, plan: PartitionPlan, layout: BoundaryLayout, s: nat, prover: Prover,
      run: ShardRun, proof: LA.VerifiedProof)
    requires Binding(commit) && ProvedBy(sem, commit, plan, layout, s, prover, run, proof)
    ensures HR.Commits(commit, plan, s, run, proof) <==> FitsDeclared(plan, s, run)
  {
    StatementStatesRun(sem, commit, plan, layout, s, prover.weights, prover.shapes, prover.example, run,
      prover.program, proof.statement.value);
  }
}
