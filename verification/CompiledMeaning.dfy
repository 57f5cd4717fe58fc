/** The compiled program computes what the graph means, tensor name by tensor name. */
module CompiledMeaning {
  import opened Prelude
  import opened Program
  import opened OnnxGraph
  import opened RmsNormFusion
  import opened GraphCompiler
  import opened FusedMeaning

  // ----- what a graph means -----

  predicate IsSource(g: Graph, name: string) {
    name in g.inputs || name in g.initializers
  }

  /** Initializers take precedence over graph inputs of the same name; a name nothing defines has no value. */
  ghost predicate SourcesHold(g: Graph, env: Env, v: Valuation) {
    && (forall name :: !IsSource(g, name) && ProducerOf(g, name).None? ==> v(name) == None)
    && (forall name :: name in g.initializers ==> v(name) == ExternalValue(env, Register.Weight(name)))
    && (forall name :: name in g.inputs && name !in g.initializers ==>
      v(name) == ExternalValue(env, Register.GraphInput(name)))
  }

  /** The valuation solves every node's equation. */
  ghost predicate Solves(g: Graph, env: Env, ops: NodeMeaning, v: Valuation) {
    SourcesHold(g, env, v) && forall i :: 0 <= i < |g.nodes| ==> NodeHolds(ops, v, g.nodes[i])
  }

  /**
   * The operator table emits an instruction that means the node, and renames only nodes that pass their first input on.
   */
  ghost predicate RespectsMapper(ops: NodeMeaning, sem: Semantics, mapper: Mapper) {
    forall node, args ::
      && (mapper(node).Emit? ==> ops(node, args) == Computed(sem, mapper(node).instruction, args))
      && (mapper(node).Alias? && |args| > 0 ==> ops(node, args) == args[0])
  }

  ghost predicate ActionHolds(sem: Semantics, v: Valuation, action: Action) {
    match action
    case Skip => true
    case Reject => true
    case Produce(instruction, inputs, outputs) =>
      forall o :: o in outputs ==> v(o) == Computed(sem, instruction, Arguments(v, inputs))
    case Rename(inputs, outputs) => |inputs| > 0 ==> forall o :: o in outputs ==> v(o) == v(inputs[0])
  }

  lemma {:induction false} ActionsHold(
      g: Graph, weights: map<string, WeightTensor>, env: Env, ops: NodeMeaning, sem: Semantics, mapper: Mapper,
      plan: Plan,
      fusions: seq<Fusion>, v: Valuation, i: nat)
    requires Solves(g, env, ops, v) && RespectsMapper(ops, sem, mapper) && FusedHold(g, weights, sem, v)
    requires AllFusions(g, weights, fusions) && PlanFor(fusions, plan)
    ensures ActionHolds(sem, v, ActionOf(g, mapper, plan, i))
  {
    if i in plan.byPow {
      FusedActionHolds(g, weights, sem, v, plan.byPow[i]);
    } else if i !in plan.consumed && i < |g.nodes| {
      var node := g.nodes[i];
      assert NodeHolds(ops, v, node);
      PlainActionHolds(ops, sem, mapper, v, node);
    }
  }

  /** The instruction emitted for a match reads and writes what the match does. */
  lemma {:induction false} FusedActionHolds(
      g: Graph, weights: map<string, WeightTensor>, sem: Semantics, v: Valuation, f: Fusion)
    requires FusedHold(g, weights, sem, v) && IsFusion(g, weights, f)
    ensures ActionHolds(sem, v, FusedAction(f))
  {
    assert MatchHolds(g, weights, sem, v, f.chain, f.weightName, f.epsilonMilli);
    assert Arguments(v, [f.inputName, f.weightName]) == [v(f.inputName), v(f.weightName)];
  }

  lemma {:induction false} PlainActionHolds(
      ops: NodeMeaning, sem: Semantics, mapper: Mapper, v: Valuation, node: GraphNode)
    requires NodeHolds(ops, v, node) && RespectsMapper(ops, sem, mapper)
    ensures ActionHolds(sem, v, NodeAction(mapper, node))
  {
    var args := Arguments(v, node.inputs);
    assert mapper(node).Emit? ==> ops(node, args) == Computed(sem, mapper(node).instruction, args);
    assert mapper(node).Alias? && |args| > 0 ==> ops(node, args) == args[0];
  }

  // ----- what registers mean -----

  function Denoted(env: Env, v: Valuation, instrs: seq<CompiledInstruction>, r: Register): Option<Tensor> {
    if !r.Virtual? then ExternalValue(env, r)
    else if r.index < |instrs| then v(instrs[r.index].outputName)
    else None
  }

  predicate Known(instrs: seq<CompiledInstruction>, r: Register) {
    r.Virtual? ==> r.index < |instrs|
  }

  function DenotedAll(
      env: Env, v: Valuation, instrs: seq<CompiledInstruction>, rs: seq<Register>): (r: seq<Option<Tensor>>)
    ensures |r| == |rs| && forall j :: 0 <= j < |rs| ==> r[j] == Denoted(env, v, instrs, rs[j])
  {
    seq(|rs|, j requires 0 <= j < |rs| => Denoted(env, v, instrs, rs[j]))
  }

  /** The last of some instructions reads earlier values only and computes the value of the name it writes. */
  ghost predicate LastHolds(
      sem: Semantics, env: Env, v: Valuation, before: seq<CompiledInstruction>, instr: CompiledInstruction)
  {
    && (forall j :: 0 <= j < |instr.inputs| ==> Known(before, instr.inputs[j]))
    && v(instr.outputName) == Computed(sem, instr.instruction, DenotedAll(env, v, before, instr.inputs))
  }

  ghost predicate InstructionsHold(sem: Semantics, env: Env, v: Valuation, instrs: seq<CompiledInstruction>) {
    |instrs| > 0 ==>
      && InstructionsHold(sem, env, v, instrs[..|instrs| - 1])
      && LastHolds(sem, env, v, instrs[..|instrs| - 1], instrs[|instrs| - 1])
  }

  ghost predicate RegistersHold(env: Env, v: Valuation, st: State) {
    forall name :: name in st.registers ==>
      Known(st.instructions, st.registers[name]) && Denoted(env, v, st.instructions, st.registers[name]) == v(name)
  }

  ghost predicate StateHolds(sem: Semantics, env: Env, v: Valuation, st: State) {
    InstructionsHold(sem, env, v, st.instructions) && RegistersHold(env, v, st)
  }

  lemma {:induction false} InitialHolds(g: Graph, sem: Semantics, env: Env, v: Valuation)
    requires SourcesHold(g, env, v)
    ensures StateHolds(sem, env, v, State(InitialRegisters(g), []))
  {
    var inputs := Bound(map[], g.inputs, name => Register.GraphInput(name));
    forall name | name in InitialRegisters(g)
      ensures Known([], InitialRegisters(g)[name]) && Denoted(env, v, [], InitialRegisters(g)[name]) == v(name)
    {
      BoundLookup(map[], g.inputs, name => Register.GraphInput(name), name);
      BoundLookup(inputs, g.initializers, name => Register.Weight(name), name);
    }
  }

  lemma {:induction false} ProduceHolds(sem: Semantics, env: Env, v: Valuation, action: Action, st: State)
    requires action.Produce? && ActionHolds(sem, v, action) && StateHolds(sem, env, v, st) && Apply(action, st).Ok?
    ensures StateHolds(sem, env, v, Apply(action, st).value)
  {
    var after := Apply(action, st).value;
    var n := |st.instructions|;
    var instr := after.instructions[n];
    assert after.instructions[..n] == st.instructions;
    assert DenotedAll(env, v, st.instructions, instr.inputs) == Arguments(v, action.inputs);
    assert instr.outputName in action.outputs;
    assert LastHolds(sem, env, v, st.instructions, instr);
    forall name | name in after.registers
      ensures Known(after.instructions, after.registers[name])
      ensures Denoted(env, v, after.instructions, after.registers[name]) == v(name)
    {
      if name != instr.outputName { assert Known(st.instructions, st.registers[name]); }
    }
  }

  lemma {:induction false} RenameHolds(sem: Semantics, env: Env, v: Valuation, action: Action, st: State)
    requires action.Rename? && ActionHolds(sem, v, action) && StateHolds(sem, env, v, st) && Apply(action, st).Ok?
    ensures StateHolds(sem, env, v, Apply(action, st).value)
  {
    var after := Apply(action, st).value;
    var r := st.registers[action.inputs[0]];
    forall name | name in after.registers
      ensures Known(st.instructions, after.registers[name])
        && Denoted(env, v, st.instructions, after.registers[name]) == v(name)
    {
      BoundLookup(st.registers, action.outputs, _ => st.registers[action.inputs[0]], name);
    }
  }

  lemma {:induction false} ApplyHolds(sem: Semantics, env: Env, v: Valuation, action: Action, st: State)
    requires ActionHolds(sem, v, action) && StateHolds(sem, env, v, st) && Apply(action, st).Ok?
    ensures StateHolds(sem, env, v, Apply(action, st).value)
  {
    if action.Produce? { ProduceHolds(sem, env, v, action, st); }
    if action.Rename? { RenameHolds(sem, env, v, action, st); }
  }

  lemma {:induction false} RunHolds(
      g: Graph, sem: Semantics, env: Env, mapper: Mapper, plan: Plan, v: Valuation, order: seq<nat>)
    requires SourcesHold(g, env, v) && forall i :: ActionHolds(sem, v, ActionOf(g, mapper, plan, i))
    requires RunActions(g, mapper, plan, order).Ok?
    ensures StateHolds(sem, env, v, RunActions(g, mapper, plan, order).value)
    decreases |order|
  {
    if |order| == 0 {
      InitialHolds(g, sem, env, v);
    } else {
      var n := |order| - 1;
      RunHolds(g, sem, env, mapper, plan, v, order[..n]);
      var st := RunActions(g, mapper, plan, order[..n]).value;
      ApplyHolds(sem, env, v, ActionOf(g, mapper, plan, order[n]), st);
    }
  }

  // ----- running by register -----

  /** The outcome of a run agrees with the values of the names written. */
  ghost predicate Agrees(v: Valuation, instrs: seq<CompiledInstruction>, run: Option<seq<Tensor>>) {
    && (run.Some? <==> forall k :: 0 <= k < |instrs| ==> v(instrs[k].outputName).Some?)
    && (run.Some? ==> |run.value| == |instrs| && forall k :: 0 <= k < |instrs| ==>
      v(instrs[k].outputName) == Some(run.value[k]))
  }

  lemma {:induction false} RunAgrees(sem: Semantics, env: Env, v: Valuation, instrs: seq<CompiledInstruction>)
    requires InstructionsHold(sem, env, v, instrs)
    ensures Agrees(v, instrs, Eval(sem, env, 0, instrs)) && ReadsBackward(0, instrs)
    decreases |instrs|
  {
    if |instrs| > 0 {
      var n := |instrs| - 1;
      var before, instr := instrs[..n], instrs[n];
      RunAgrees(sem, env, v, before);
      var done := Eval(sem, env, 0, before);
      if done.Some? {
        assert RegisterValues(env, 0, done.value, instr.inputs) == DenotedAll(env, v, before, instr.inputs) by {
          forall j | 0 <= j < |instr.inputs|
            ensures RegisterValue(env, 0, done.value, instr.inputs[j]) == Denoted(env, v, before, instr.inputs[j])
          {
            assert Known(before, instr.inputs[j]);
          }
        }
      }
      AgreesMore(sem, env, v, instrs);
      BackwardMore(sem, env, v, instrs);
    }
  }

  lemma {:induction false} AgreesMore(sem: Semantics, env: Env, v: Valuation, instrs: seq<CompiledInstruction>)
    requires |instrs| > 0 && LastHolds(sem, env, v, instrs[..|instrs| - 1], instrs[|instrs| - 1])
    requires var before, instr := instrs[..|instrs| - 1], instrs[|instrs| - 1]; var done := Eval(sem, env, 0, before);
      Agrees(v, before, done)
      && (done.Some? ==> RegisterValues(env, 0, done.value, instr.inputs) == DenotedAll(env, v, before, instr.inputs))
    ensures Agrees(v, instrs, Eval(sem, env, 0, instrs))
  {
    var n := |instrs| - 1;
    var before := instrs[..n];
    assert forall k :: 0 <= k < n ==> instrs[k] == before[k];
  }

  lemma {:induction false} BackwardMore(sem: Semantics, env: Env, v: Valuation, instrs: seq<CompiledInstruction>)
    requires |instrs| > 0 && LastHolds(sem, env, v, instrs[..|instrs| - 1], instrs[|instrs| - 1])
    requires ReadsBackward(0, instrs[..|instrs| - 1])
    ensures ReadsBackward(0, instrs)
  {
    var n := |instrs| - 1;
    forall k, j | 0 <= k < |instrs| && 0 <= j < |instrs[k].inputs|
      ensures instrs[k].inputs[j].Virtual? ==> instrs[k].inputs[j].index < k
    {
      if k < n {
        assert instrs[..n][k] == instrs[k];
      } else {
        assert Known(instrs[..n], instrs[n].inputs[j]);
      }
    }
  }

  /** The values of the graph's outputs, as the registers the program names for them give them. */
  ghost predicate OutputsAgree(env: Env, v: Valuation, values: seq<Tensor>, outputs: seq<(string, Register)>) {
    forall k :: 0 <= k < |outputs| ==> RegisterValue(env, 0, values, outputs[k].1) == v(outputs[k].0)
  }

  /**
   * Compilation preserves meaning: however the graph's equations are solved, the compiled program runs exactly when
   * every value it computes exists, computes those values, and gives the graph's outputs their values.
   */
  lemma {:induction false} CompilationPreservesMeaning(
      g: Graph, weights: map<string, WeightTensor>, values: map<string, Option<Tensor>>, mapper: Mapper, plan: Plan,
      order: seq<nat>,
      program: CompiledProgram, graphInputs: map<string, Tensor>, ops: NodeMeaning, sem: Semantics, v: Valuation)
    requires Arranged(g, weights, plan, order) && Compiled(g, mapper, plan, values, order) == Ok(program)
    requires Solves(g, WholeEnv(program, graphInputs), ops, v)
    requires RespectsMapper(ops, sem, mapper) && FusedHold(g, weights, sem, v)
    ensures WellOrdered(program)
    ensures var run := EvalProgram(sem, program, graphInputs);
      && Agrees(v, program.instructions, run)
      && (run.Some? ==> OutputsAgree(WholeEnv(program, graphInputs), v, run.value, program.graphOutputs))
    ensures |program.graphOutputs| == |g.outputs| && forall k :: 0 <= k < |g.outputs| ==>
      program.graphOutputs[k].0 == g.outputs[k]
  {
    var env := WholeEnv(program, graphInputs);
    var fusions :| AllFusions(g, weights, fusions) && PlanFor(fusions, plan);
    forall i ensures ActionHolds(sem, v, ActionOf(g, mapper, plan, i)) {
      ActionsHold(g, weights, env, ops, sem, mapper, plan, fusions, v, i);
    }
    RunHolds(g, sem, env, mapper, plan, v, order);
    var st := RunActions(g, mapper, plan, order).value;
    RunAgrees(sem, env, v, st.instructions);
    var run := EvalProgram(sem, program, graphInputs);
    if run.Some? {
      forall k | 0 <= k < |program.graphOutputs|
        ensures RegisterValue(env, 0, run.value, program.graphOutputs[k].1) == v(program.graphOutputs[k].0)
      {
        assert g.outputs[k] in st.registers;
      }
    }
  }

  lemma {:induction false} WeightsAreValues(
      g: Graph, weights: map<string, WeightTensor>, convert: WeightTensor -> Option<Tensor>, program: CompiledProgram,
      graphInputs: map<string, Tensor>, v: Valuation)
    requires WeightsAreInitializers(g, weights) && program.weights == Converted(weights, convert)
    requires SourcesHold(g, WholeEnv(program, graphInputs), v)
    ensures WeightsHold(weights, convert, v)
  {
    forall name | name in weights ensures v(name) == convert(weights[name]) {
      assert name in g.initializers && name in program.weights;
    }
  }

  /**
   * The same with nothing assumed of any match: it is enough that the fused instruction and the graph's six operators
   * are about the same arithmetic, and that fusing keeps the constants of every match.
   */
  lemma {:induction false} FusionPreservesMeaning(
      g: Graph, weights: map<string, WeightTensor>, convert: WeightTensor -> Option<Tensor>, mapper: Mapper,
      plan: Plan, order: seq<nat>, program: CompiledProgram, graphInputs: map<string, Tensor>, ops: NodeMeaning,
      o: Operators, sem: Semantics, v: Valuation)
    requires WeightsAreInitializers(g, weights) && Arranged(g, weights, plan, order)
    requires Compiled(g, mapper, plan, Converted(weights, convert), order) == Ok(program)
    requires Solves(g, WholeEnv(program, graphInputs), ops, v)
    requires RespectsMapper(ops, sem, mapper) && SameArithmetic(ops, o, sem, convert)
    requires AllKeepConstants(g, weights, v)
    ensures var run := EvalProgram(sem, program, graphInputs);
      && Agrees(v, program.instructions, run)
      && (run.Some? ==> OutputsAgree(WholeEnv(program, graphInputs), v, run.value, program.graphOutputs))
  {
    WeightsAreValues(g, weights, convert, program, graphInputs, v);
    FusedHolds(g, weights, convert, ops, o, sem, v);
    CompilationPreservesMeaning(g, weights, Converted(weights, convert), mapper, plan, order, program, graphInputs,
      ops, sem, v);
  }
}
