/** Name resolution: turning ordered graph nodes into instructions over registers. */
module GraphCompiler {
  import opened Prelude
  import opened Program
  import opened OnnxGraph
  import opened RmsNormFusion
  import opened TopologicalSort

  /** What the operator table says of a node; its instruction reads and writes the node's own names. */
  datatype Mapped = Emit(instruction: Instruction) | Alias | NoMapping
  type Mapper = GraphNode -> Mapped

  datatype CompileError =
    | UnsupportedOp
    | UnresolvedInput(name: string)
    | UnexpectedOutputCount(count: nat)
    | UnresolvedGraphOutput(name: string)
    | CyclicGraph

  /** What compiling one node does: nothing, one instruction, a second name for a register, or a failure. */
  datatype Action =
    | Skip
    | Produce(instruction: Instruction, inputs: seq<string>, outputs: seq<string>)
    | Rename(inputs: seq<string>, outputs: seq<string>)
    | Reject

  type Registers = map<string, Register>
  datatype State = State(registers: Registers, instructions: seq<CompiledInstruction>)

  /** The fused matches by their first node, and the nodes they absorb. */
  datatype Plan = Plan(byPow: map<nat, Fusion>, consumed: set<nat>)

  ghost predicate Starts(fusions: seq<Fusion>, byPow: map<nat, Fusion>) {
    && (forall p :: p in byPow ==> byPow[p] in fusions && byPow[p].chain.pow == p)
    && (forall f :: f in fusions ==> f.chain.pow in byPow && byPow[f.chain.pow] == f)
  }

  ghost predicate Absorbs(fusions: seq<Fusion>, consumed: set<nat>) {
    && (forall f, i :: f in fusions && i in Dropped(f.chain) ==> i in consumed)
    && (forall i :: i in consumed ==> exists f :: f in fusions && i in Dropped(f.chain))
  }

  ghost predicate PlanFor(fusions: seq<Fusion>, plan: Plan) {
    Starts(fusions, plan.byPow) && Absorbs(fusions, plan.consumed)
  }

  ghost predicate PowsAscend(fusions: seq<Fusion>) {
    forall i, j :: 0 <= i < j < |fusions| ==> fusions[i].chain.pow < fusions[j].chain.pow
  }

  method PlanFusions(fusions: seq<Fusion>) returns (plan: Plan)
    requires PowsAscend(fusions)
    ensures PlanFor(fusions, plan)
  {
    plan := Plan(map[], {});
    for k := 0 to |fusions|
      invariant PlanFor(fusions[..k], plan)
    {
      assert fusions[..k + 1] == fusions[..k] + [fusions[k]];
      StartsMore(fusions[..k], fusions[k], plan.byPow);
      AbsorbsMore(fusions[..k], fusions[k], plan.consumed);
      plan := Plan(plan.byPow[fusions[k].chain.pow := fusions[k]], plan.consumed + Dropped(fusions[k].chain));
    }
    assert fusions[..|fusions|] == fusions;
  }

  lemma {:induction false} StartsMore(before: seq<Fusion>, f: Fusion, byPow: map<nat, Fusion>)
    requires Starts(before, byPow) && forall e :: e in before ==> e.chain.pow < f.chain.pow
    ensures Starts(before + [f], byPow[f.chain.pow := f])
  {
  }

  lemma {:induction false} AbsorbsMore(before: seq<Fusion>, f: Fusion, consumed: set<nat>)
    requires Absorbs(before, consumed)
    ensures Absorbs(before + [f], consumed + Dropped(f.chain))
  {
    forall i | i in consumed + Dropped(f.chain) ensures exists e :: e in before + [f] && i in Dropped(e.chain) {
      if i in Dropped(f.chain) {
        assert f in before + [f];
      } else {
        var e :| e in before && i in Dropped(e.chain);
        assert e in before + [f];
      }
    }
  }

  function ActionOf(g: Graph, mapper: Mapper, plan: Plan, i: nat): Action {
    if i in plan.byPow then FusedAction(plan.byPow[i])
    else if i in plan.consumed || i >= |g.nodes| then Skip
    else NodeAction(mapper, g.nodes[i])
  }

  function FusedAction(f: Fusion): Action {
    Produce(Instruction.RmsNorm(f.dim, f.epsilonMilli), [f.inputName, f.weightName], [f.outputName])
  }

  function NodeAction(mapper: Mapper, node: GraphNode): Action {
    match mapper(node)
    case Emit(instruction) => Produce(instruction, node.inputs, node.outputs)
    case Alias => Rename(node.inputs, node.outputs)
    case NoMapping => Reject
  }

  /** The registers of a list of names, or the first name without one. */
  function ResolveAll(registers: Registers, names: seq<string>): (r: Result<seq<Register>, string>)
    ensures r.Ok? <==> forall k :: 0 <= k < |names| ==> names[k] in registers
    ensures r.Ok? ==> |r.value| == |names| && forall k :: 0 <= k < |names| ==> r.value[k] == registers[names[k]]
    ensures r.Err? ==> r.error in names && r.error !in registers
  {
    if |names| == 0 then Ok([])
    else
      match ResolveAll(registers, names[..|names| - 1])
      case Err(name) => Err(name)
      case Ok(before) =>
        if names[|names| - 1] in registers then Ok(before + [registers[names[|names| - 1]]])
          else Err(names[|names| - 1])
  }

  /** The registers after binding each name in turn. */
  function Bound(registers: Registers, names: seq<string>, to: string -> Register): Registers {
    if |names| == 0 then registers
    else Bound(registers, names[..|names| - 1], to)[names[|names| - 1] := to(names[|names| - 1])]
  }

  lemma {:induction false} BoundLookup(registers: Registers, names: seq<string>, to: string -> Register, name: string)
    ensures name in Bound(registers, names, to) <==> name in registers || name in names
    ensures name in names ==> Bound(registers, names, to)[name] == to(name)
    ensures name in registers && name !in names ==> Bound(registers, names, to)[name] == registers[name]
    decreases |names|
  {
    if |names| > 0 {
      BoundLookup(registers, names[..|names| - 1], to, name);
      assert names == names[..|names| - 1] + [names[|names| - 1]];
    }
  }

  function Apply(action: Action, st: State): Result<State, CompileError> {
    match action
    case Skip => Ok(st)
    case Reject => Err(UnsupportedOp)
    case Produce(instruction, inputs, outputs) =>
      (match ResolveAll(st.registers, inputs)
       case Err(name) => Err(UnresolvedInput(name))
       case Ok(registers) =>
         if |outputs| != 1 then Err(UnexpectedOutputCount(|outputs|))
         else
           Ok(State(st.registers[outputs[0] := Register.Virtual(|st.instructions|)],
                    st.instructions + [CompiledInstruction(instruction, registers, outputs[0])])))
    case Rename(inputs, outputs) =>
      if |inputs| == 0 then Err(UnresolvedInput(""))
      else if inputs[0] !in st.registers then Err(UnresolvedInput(inputs[0]))
      else Ok(State(Bound(st.registers, outputs, _ => st.registers[inputs[0]]), st.instructions))
  }

  function InitialRegisters(g: Graph): Registers {
    Bound(Bound(map[], g.inputs, name => Register.GraphInput(name)), g.initializers, name => Register.Weight(name))
  }

  /** The state after the nodes of an order, one after the other. */
  function RunActions(g: Graph, mapper: Mapper, plan: Plan, order: seq<nat>): Result<State, CompileError> {
    if |order| == 0 then Ok(State(InitialRegisters(g), []))
    else
      match RunActions(g, mapper, plan, order[..|order| - 1])
      case Err(e) => Err(e)
      case Ok(st) => Apply(ActionOf(g, mapper, plan, order[|order| - 1]), st)
  }

  lemma {:induction false} RunMore(g: Graph, mapper: Mapper, plan: Plan, order: seq<nat>, k: nat)
    requires k < |order|
    ensures RunActions(g, mapper, plan, order[..k + 1]) ==
      match RunActions(g, mapper, plan, order[..k])
      case Err(e) => Err(e)
      case Ok(st) => Apply(ActionOf(g, mapper, plan, order[k]), st)
  {
    assert order[..k + 1][..k] == order[..k];
  }

  lemma {:induction false} RunFails(g: Graph, mapper: Mapper, plan: Plan, order: seq<nat>, k: nat)
    requires k <= |order| && RunActions(g, mapper, plan, order[..k]).Err?
    ensures RunActions(g, mapper, plan, order) == RunActions(g, mapper, plan, order[..k])
    decreases |order| - k
  {
    if k < |order| {
      RunMore(g, mapper, plan, order, k);
      RunFails(g, mapper, plan, order, k + 1);
    } else {
      assert order[..k] == order;
    }
  }

  function GraphOutputs(registers: Registers, names: seq<string>): (r: Result<seq<(string, Register)>, CompileError>)
    ensures r.Ok? <==> forall k :: 0 <= k < |names| ==> names[k] in registers
    ensures r.Ok? ==> |r.value| == |names| && forall k :: 0 <= k < |names| ==>
      r.value[k] == (names[k], registers[names[k]])
  {
    match ResolveAll(registers, names)
    case Err(name) => Err(UnresolvedGraphOutput(name))
    case Ok(found) => Ok(seq(|names|, k requires 0 <= k < |names| && |found| == |names| => (names[k], found[k])))
  }

  /** The program compiled from a given order. */
  function Compiled(g: Graph, mapper: Mapper, plan: Plan, weights: map<string, Option<Tensor>>, order: seq<nat>)
    : Result<CompiledProgram, CompileError>
  {
    match RunActions(g, mapper, plan, order)
    case Err(e) => Err(e)
    case Ok(st) =>
      match GraphOutputs(st.registers, g.outputs)
      case Err(e) => Err(e)
      case Ok(outputs) => Ok(CompiledProgram(st.instructions, weights, g.inputs, outputs))
  }

  /** A plan that fuses every match, and an order with producers first. */
  ghost predicate Arranged(g: Graph, weights: map<string, WeightTensor>, plan: Plan, order: seq<nat>) {
    && (exists fusions :: AllFusions(g, weights, fusions) && PlanFor(fusions, plan))
    && IsPermutation(|g.nodes|, order) && ProducersFirst(g, order)
  }

  method Bind(registers: Registers, names: seq<string>, to: string -> Register) returns (bound: Registers)
    ensures bound == Bound(registers, names, to)
  {
    bound := registers;
    for k := 0 to |names|
      invariant bound == Bound(registers, names[..k], to)
    {
      assert names[..k + 1][..k] == names[..k];
      bound := bound[names[k] := to(names[k])];
    }
    assert names[..|names|] == names;
  }

  method InitializeRegisters(g: Graph) returns (registers: Registers)
    ensures registers == InitialRegisters(g)
  {
    registers := Bind(map[], g.inputs, name => Register.GraphInput(name));
    registers := Bind(registers, g.initializers, name => Register.Weight(name));
  }

  method CompileNode(action: Action, st: State) returns (r: Result<State, CompileError>)
    ensures r == Apply(action, st)
  {
    match action
    case Skip => r := Ok(st);
    case Reject => r := Err(UnsupportedOp);
    case Produce(instruction, inputs, outputs) => {
      match ResolveAll(st.registers, inputs)
      case Err(name) => r := Err(UnresolvedInput(name));
      case Ok(registers) => {
        if |outputs| != 1 {
          return Err(UnexpectedOutputCount(|outputs|));
        }
        var programIndex := |st.instructions|;
        var instructions := st.instructions + [CompiledInstruction(instruction, registers, outputs[0])];
        r := Ok(State(st.registers[outputs[0] := Register.Virtual(programIndex)], instructions));
      }
    }
    case Rename(inputs, outputs) => {
      if |inputs| == 0 {
        return Err(UnresolvedInput(""));
      }
      if inputs[0] !in st.registers {
        return Err(UnresolvedInput(inputs[0]));
      }
      var bound := Bind(st.registers, outputs, _ => st.registers[inputs[0]]);
      r := Ok(State(bound, st.instructions));
    }
  }

  method CompileGraph(
      g: Graph, weights: map<string, WeightTensor>, convert: WeightTensor -> Option<Tensor>, mapper: Mapper)
    returns (r: Result<CompiledProgram, CompileError>)
    ensures Cyclic(g) ==> r == Err(CyclicGraph)
    ensures !Cyclic(g) ==>
      exists plan, order :: Arranged(g, weights, plan, order)
        && r == Compiled(g, mapper, plan, Converted(weights, convert), order)
  {
    var registers := InitializeRegisters(g);
    var fusions := DetectRmsNormFusions(g, weights);
    var plan := PlanFusions(fusions);
    var sorted := TopologicalOrder(g);
    if sorted.None? {
      return Err(CyclicGraph);
    }
    var order := sorted.value;
    var st := State(registers, []);
    for k := 0 to |order|
      invariant RunActions(g, mapper, plan, order[..k]) == Ok(st)
    {
      RunMore(g, mapper, plan, order, k);
      var next := CompileNode(ActionOf(g, mapper, plan, order[k]), st);
      if next.Err? {
        RunFails(g, mapper, plan, order, k + 1);
        r := Err(next.error);
        assert Arranged(g, weights, plan, order) && r == Compiled(g, mapper, plan, Converted(weights, convert), order);
        return;
      }
      st := next.value;
    }
    assert order[..|order|] == order;
    var outputs := GraphOutputs(st.registers, g.outputs);
    r := if outputs.Err? then Err(outputs.error)
         else Ok(CompiledProgram(st.instructions, Converted(weights, convert), g.inputs, outputs.value));
    assert Arranged(g, weights, plan, order) && r == Compiled(g, mapper, plan, Converted(weights, convert), order);
  }

  function Converted(
      weights: map<string, WeightTensor>, convert: WeightTensor -> Option<Tensor>): map<string, Option<Tensor>>
  {
    map name | name in weights :: convert(weights[name])
  }
}
