/** Assembler programs: instructions wired by local indices, and the loop that runs them. */
module Assembler {
  import opened Prelude
  import opened Program

  datatype RegisterRef = Input(index: nat) | Weight(index: nat) | Virtual(index: nat)

  datatype AssemblerInstruction = AssemblerInstruction(instruction: Instruction, inputs: seq<RegisterRef>)

  datatype AssemblerProgram = AssemblerProgram(
    instructions: seq<AssemblerInstruction>,
    inputValues: seq<Tensor>,
    weightValues: seq<Tensor>)

  function At<T>(xs: seq<T>, i: nat): Option<T> {
    if i < |xs| then Some(xs[i]) else None
  }

  /** Only instructions already run are in `virtuals`, so a forward reference is out of range. */
  function Resolve(r: RegisterRef, inputs: seq<Tensor>, weights: seq<Tensor>, virtuals: seq<Tensor>): Option<Tensor> {
    match r
    case Input(i) => At(inputs, i)
    case Weight(i) => At(weights, i)
    case Virtual(i) => At(virtuals, i)
  }

  function ResolveEach(
      refs: seq<RegisterRef>, inputs: seq<Tensor>, weights: seq<Tensor>, virtuals: seq<Tensor>): seq<Option<Tensor>>
  {
    seq(|refs|, i requires 0 <= i < |refs| => Resolve(refs[i], inputs, weights, virtuals))
  }

  function Dispatch(
      sem: Semantics, instr: AssemblerInstruction, inputs: seq<Tensor>, weights: seq<Tensor>,
      virtuals: seq<Tensor>): Option<Tensor>
  {
    match Collect(ResolveEach(instr.inputs, inputs, weights, virtuals))
    case None => None
    case Some(operands) => sem(instr.instruction, operands)
  }

  /** The outputs of the given instructions run in order, or nothing once one is rejected. */
  function RunInstructions(
      sem: Semantics, inputs: seq<Tensor>, weights: seq<Tensor>,
      instrs: seq<AssemblerInstruction>): (r: Option<seq<Tensor>>)
    ensures r.Some? ==> |r.value| == |instrs|
  {
    if |instrs| == 0 then Some([])
    else
      match RunInstructions(sem, inputs, weights, instrs[..|instrs| - 1])
      case None => None
      case Some(virtuals) =>
        match Dispatch(sem, instrs[|instrs| - 1], inputs, weights, virtuals)
        case None => None
        case Some(v) => Some(virtuals + [v])
  }

  function Run(sem: Semantics, program: AssemblerProgram): Option<seq<Tensor>> {
    RunInstructions(sem, program.inputValues, program.weightValues, program.instructions)
  }

  lemma {:induction false} FailurePersists(
      sem: Semantics, inputs: seq<Tensor>, weights: seq<Tensor>, instrs: seq<AssemblerInstruction>, n: nat)
    requires n <= |instrs|
    requires RunInstructions(sem, inputs, weights, instrs[..n]).None?
    ensures RunInstructions(sem, inputs, weights, instrs).None?
    decreases |instrs| - n
  {
    if n < |instrs| {
      assert instrs[..n + 1][..n] == instrs[..n];
      FailurePersists(sem, inputs, weights, instrs, n + 1);
    } else {
      assert instrs[..n] == instrs;
    }
  }

  /** The instruction loop: dispatch each instruction and push its output register. */
  method Assign(sem: Semantics, program: AssemblerProgram) returns (r: Option<seq<Tensor>>)
    ensures r == Run(sem, program)
  {
    var virtuals: seq<Tensor> := [];
    for idx := 0 to |program.instructions|
      invariant RunInstructions(sem, program.inputValues, program.weightValues, program.instructions[..idx])
        == Some(virtuals)
    {
      var out := Dispatch(sem, program.instructions[idx], program.inputValues, program.weightValues, virtuals);
      assert program.instructions[..idx + 1][..idx] == program.instructions[..idx];
      if out.None? {
        FailurePersists(sem, program.inputValues, program.weightValues, program.instructions, idx + 1);
        return None;
      }
      virtuals := virtuals + [out.value];
    }
    assert program.instructions[..|program.instructions|] == program.instructions;
    return Some(virtuals);
  }
}
