/** The compiled program: registers, instructions, and what running it by register means. */
module Program {
  import opened Prelude

  /** Raw signed 64-bit fixed-point value at scale 10^18. */
  type I18 = x: int | -0x8000_0000_0000_0000 <= x < 0x8000_0000_0000_0000
  type Tensor = seq<I18>

  datatype EltwiseOp = Add | Mul | Relu
  datatype ReduceOp = Sum | Mean

  datatype Instruction =
    | DotGeneral(m: nat, n: nat, k: nat, batchDims: seq<nat>, transA: bool, transB: bool)
    | Softmax(axisDim: nat)
    | Gelu
    | LayerNorm(dim: nat, epsilonMilli: nat)
    | RmsNorm(dim: nat, epsilonMilli: nat)
    | Eltwise(op: EltwiseOp)
    | Reduce(reduceOp: ReduceOp, axis: nat)
    | EmbedLookup(tableSize: nat, embedDim: nat)
    | PatchEmbed(patchLen: nat, embedDim: nat)

  /** Where a tensor's value comes from. */
  datatype Register = GraphInput(name: string) | Weight(name: string) | Virtual(index: nat)

  /** Boundary order: graph inputs by name, then virtuals by index, then weights by name. */
  predicate RegisterLe(a: Register, b: Register) {
    match (a, b)
    case (GraphInput(x), GraphInput(y)) => TextLe(x, y)
    case (GraphInput(_), _) => true
    case (Virtual(_), GraphInput(_)) => false
    case (Virtual(i), Virtual(j)) => i <= j
    case (Virtual(_), Weight(_)) => true
    case (Weight(x), Weight(y)) => TextLe(x, y)
    case (Weight(_), _) => false
  }

  lemma {:induction false} RegisterOrder()
    ensures TotalOrder(RegisterLe)
  {
    TextOrder();
    forall a, b ensures RegisterLe(a, b) || RegisterLe(b, a) {}
    forall a, b | RegisterLe(a, b) && RegisterLe(b, a) ensures a == b {}
    forall a, b, c | RegisterLe(a, b) && RegisterLe(b, c) ensures RegisterLe(a, c) {}
  }

  datatype CompiledInstruction =
    CompiledInstruction(instruction: Instruction, inputs: seq<Register>, outputName: string)

  /** `weights[name]` holds the outcome of converting that weight to fixed point on demand. */
  datatype CompiledProgram = CompiledProgram(
    instructions: seq<CompiledInstruction>,
    weights: map<string, Option<Tensor>>,
    graphInputs: seq<string>,
    graphOutputs: seq<(string, Register)>)

  /** What one instruction computes from its operands; absent when it is rejected. */
  type Semantics = (Instruction, seq<Tensor>) -> Option<Tensor>

  /** Where the registers not produced inside an instruction range get their values. */
  datatype Env = Env(
    graphInputs: map<string, Tensor>,
    weights: map<string, Option<Tensor>>,
    incoming: map<Register, Tensor>)

  function Lookup<K, V>(m: map<K, V>, k: K): Option<V> {
    if k in m then Some(m[k]) else None
  }

  function ExternalValue(env: Env, r: Register): Option<Tensor> {
    match r
    case GraphInput(name) => Lookup(env.graphInputs, name)
    case Weight(name) => if name in env.weights then env.weights[name] else None
    case Virtual(_) => Lookup(env.incoming, r)
  }

  /** `r` is produced outside the instruction range that begins at `start`. */
  predicate External(start: nat, r: Register) {
    r.Virtual? ==> r.index < start
  }

  /** The graph inputs and earlier values a range reads. */
  ghost function ExternalSet(start: nat, instrs: seq<CompiledInstruction>): set<Register> {
    set k, j | 0 <= k < |instrs| && 0 <= j < |instrs[k].inputs|
               && !instrs[k].inputs[j].Weight? && External(start, instrs[k].inputs[j]) :: instrs[k].inputs[j]
  }

  function RegisterValue(env: Env, start: nat, done: seq<Tensor>, r: Register): Option<Tensor> {
    if External(start, r) then ExternalValue(env, r)
    else if r.index - start < |done| then Some(done[r.index - start])
    else None
  }

  function RegisterValues(env: Env, start: nat, done: seq<Tensor>, inputs: seq<Register>): seq<Option<Tensor>> {
    seq(|inputs|, i requires 0 <= i < |inputs| => RegisterValue(env, start, done, inputs[i]))
  }

  function Operands(env: Env, start: nat, done: seq<Tensor>, inputs: seq<Register>): Option<seq<Tensor>> {
    Collect(RegisterValues(env, start, done, inputs))
  }

  function Step(sem: Semantics, env: Env, start: nat, done: seq<Tensor>, instr: CompiledInstruction): Option<Tensor> {
    match Operands(env, start, done, instr.inputs)
    case None => None
    case Some(operands) => sem(instr.instruction, operands)
  }

  /** The values of the instructions of one range, evaluated register by register. */
  function Eval(sem: Semantics, env: Env, start: nat, instrs: seq<CompiledInstruction>): (r: Option<seq<Tensor>>)
    ensures r.Some? ==> |r.value| == |instrs|
  {
    if |instrs| == 0 then Some([])
    else
      match Eval(sem, env, start, instrs[..|instrs| - 1])
      case None => None
      case Some(done) =>
        match Step(sem, env, start, done, instrs[|instrs| - 1])
        case None => None
        case Some(v) => Some(done + [v])
  }

  /** One run of the whole program. */
  function WholeEnv(program: CompiledProgram, graphInputs: map<string, Tensor>): Env {
    Env(graphInputs, program.weights, map[])
  }

  function EvalProgram(sem: Semantics, program: CompiledProgram, graphInputs: map<string, Tensor>): Option<seq<Tensor>>
  {
    Eval(sem, WholeEnv(program, graphInputs), 0, program.instructions)
  }

  /** Instruction number `base + k` reads only values of earlier instructions. */
  predicate ReadsBackward(base: nat, instrs: seq<CompiledInstruction>) {
    forall k, j :: 0 <= k < |instrs| && 0 <= j < |instrs[k].inputs| ==>
      (instrs[k].inputs[j].Virtual? ==> instrs[k].inputs[j].index < base + k)
  }

  predicate WellOrdered(program: CompiledProgram) {
    ReadsBackward(0, program.instructions)
  }

  /** What a range's environment must supply to behave as inside a longer run with values `earlier`. */
  ghost predicate SuppliesTo(local: Env, whole: Env, earlier: seq<Tensor>, rs: seq<Register>) {
    forall j :: 0 <= j < |rs| && External(|earlier|, rs[j]) ==>
      ExternalValue(local, rs[j]) == RegisterValue(whole, 0, earlier, rs[j])
  }

  ghost predicate Supplies(local: Env, whole: Env, earlier: seq<Tensor>, instrs: seq<CompiledInstruction>) {
    forall k :: 0 <= k < |instrs| ==> SuppliesTo(local, whole, earlier, instrs[k].inputs)
  }

  lemma {:induction false} StepContinues(
      sem: Semantics, whole: Env, local: Env, earlier: seq<Tensor>, done: seq<Tensor>, instr: CompiledInstruction)
    requires SuppliesTo(local, whole, earlier, instr.inputs)
    ensures Step(sem, local, |earlier|, done, instr) == Step(sem, whole, 0, earlier + done, instr)
  {
    assert RegisterValues(local, |earlier|, done, instr.inputs)
      == RegisterValues(whole, 0, earlier + done, instr.inputs);
  }

  /** Cutting a program: running a suffix with the right incoming values continues the run. */
  lemma {:induction false} EvalContinues(
      sem: Semantics, whole: Env, local: Env, before: seq<CompiledInstruction>, earlier: seq<Tensor>,
      instrs: seq<CompiledInstruction>)
    requires Eval(sem, whole, 0, before) == Some(earlier)
    requires Supplies(local, whole, earlier, instrs)
    ensures var rest := Eval(sem, local, |before|, instrs);
            Eval(sem, whole, 0, before + instrs) == if rest.Some? then Some(earlier + rest.value) else None
  {
    if instrs == [] {
      assert before + instrs == before;
      assert earlier + [] == earlier;
    } else {
      var n := |instrs| - 1;
      EvalContinues(sem, whole, local, before, earlier, instrs[..n]);
      assert (before + instrs)[..|before + instrs| - 1] == before + instrs[..n];
      var prefix := Eval(sem, local, |before|, instrs[..n]);
      if prefix.Some? {
        StepContinues(sem, whole, local, earlier, prefix.value, instrs[n]);
        var v := Step(sem, local, |before|, prefix.value, instrs[n]);
        if v.Some? {
          assert earlier + prefix.value + [v.value] == earlier + (prefix.value + [v.value]);
        }
      }
    }
  }
}
