/** The unsharded lowering of a compiled program: the reference every sharded run is compared with. */
module CircuitBinding {
  import opened Prelude
  import opened Program
  import opened Assembler
  import opened Lowering

  datatype CircuitBindingError = MissingGraphInput(name: string) | WeightUnavailable(name: string)

  function GraphInputRegisters(names: seq<string>): (r: seq<Register>)
    ensures |r| == |names| && forall k :: 0 <= k < |r| ==> r[k] == GraphInput(names[k])
  {
    seq(|names|, k requires 0 <= k < |names| => GraphInput(names[k]))
  }

  /** A register that can be lowered: a declared graph input, a convertible weight, or a virtual. */
  predicate Bindable(program: CompiledProgram, r: Register) {
    match r
    case GraphInput(name) => name in program.graphInputs
    case Weight(name) => WeightValue(program, name).Some?
    case Virtual(_) => true
  }

  ghost predicate Accepts(program: CompiledProgram, graphInputs: map<string, Tensor>) {
    && (forall k :: 0 <= k < |program.graphInputs| ==> program.graphInputs[k] in graphInputs)
    && (forall k :: 0 <= k < |program.instructions| ==> AllBindable(program, program.instructions[k].inputs))
  }

  /** `out` is the program lowered with graph inputs in declaration order and weights in order of first use. */
  ghost predicate IsAssemblerProgram(program: CompiledProgram, graphInputs: map<string, Tensor>, out: AssemblerProgram)
  {
    LoweredRange(out, WholeEnv(program, graphInputs), 0, program.instructions, GraphInputRegisters(program.graphInputs))
  }

  /** The unsharded lowering means what the program means. */
  lemma {:induction false} AssemblerProgramMeaning(
      sem: Semantics, program: CompiledProgram, graphInputs: map<string, Tensor>, out: AssemblerProgram)
    requires IsAssemblerProgram(program, graphInputs, out)
    ensures Run(sem, out) == EvalProgram(sem, program, graphInputs)
  {
    LoweredRangeMeaning(sem, out, WholeEnv(program, graphInputs), 0, program.instructions,
      GraphInputRegisters(program.graphInputs));
  }

  ghost predicate InputTable(declared: seq<string>, index: map<string, nat>) {
    && (forall name :: name in index <==> name in declared)
    && (forall name :: name in index ==> index[name] < |declared| && declared[index[name]] == name)
  }

  ghost predicate AllBindable(program: CompiledProgram, rs: seq<Register>) {
    forall j :: 0 <= j < |rs| ==> Bindable(program, rs[j])
  }

  /** The register an error names. */
  function Blamed(e: CircuitBindingError): Register {
    match e
    case MissingGraphInput(name) => GraphInput(name)
    case WeightUnavailable(name) => Register.Weight(name)
  }

  /** An error names a declared input without a value, or a register that cannot be lowered. */
  ghost predicate Justified(program: CompiledProgram, graphInputs: map<string, Tensor>, e: CircuitBindingError) {
    || (e.MissingGraphInput? && e.name in program.graphInputs && e.name !in graphInputs)
    || !Bindable(program, Blamed(e))
  }

  method BindInputs(declared: seq<string>, graphInputs: map<string, Tensor>)
    returns (missing: Option<string>, values: seq<Tensor>, index: map<string, nat>)
    ensures missing.None? <==> forall k :: 0 <= k < |declared| ==> declared[k] in graphInputs
    ensures missing.Some? ==> missing.value in declared && missing.value !in graphInputs
    ensures missing.None? ==> |values| == |declared| && InputTable(declared, index)
    ensures missing.None? ==> forall k :: 0 <= k < |declared| ==> Lookup(graphInputs, declared[k]) == Some(values[k])
  {
    values, index := [], map[];
    for idx := 0 to |declared|
      invariant |values| == idx
      invariant InputTable(declared[..idx], index)
      invariant forall k :: 0 <= k < idx ==> Lookup(graphInputs, declared[k]) == Some(values[k])
    {
      var name := declared[idx];
      if name !in graphInputs {
        return Some(name), values, index;
      }
      index := index[name := idx];
      values := values + [graphInputs[name]];
      assert declared[..idx + 1] == declared[..idx] + [name];
    }
    assert declared[..|declared|] == declared;
    missing := None;
  }

  method ToAssemblerProgram(program: CompiledProgram, graphInputs: map<string, Tensor>)
    returns (r: Result<AssemblerProgram, CircuitBindingError>)
    ensures r.Ok? <==> Accepts(program, graphInputs)
    ensures r.Ok? ==> IsAssemblerProgram(program, graphInputs, r.value)
    ensures r.Err? ==> Justified(program, graphInputs, r.error)
  {
    var missing, inputValues, inputIndex := BindInputs(program.graphInputs, graphInputs);
    if missing.Some? {
      return Err(MissingGraphInput(missing.value));
    }
    var lowered, weightValues := LowerInstructions(program, inputIndex);
    if lowered.Err? {
      return Err(lowered.error);
    }
    SameWeightValues(program, graphInputs);
    return Ok(AssemblerProgram(lowered.value, inputValues, weightValues));
  }

  /** The first `k` instructions, lowered, with the weights they meet in order. */
  ghost predicate LoweredUpTo(
      program: CompiledProgram, k: nat, inputOrder: seq<Register>, out: seq<AssemblerInstruction>, names: seq<string>)
  {
    && k <= |program.instructions|
    && names == WeightOrder(Reads(program.instructions[..k]))
    && Lowers(out, program.instructions[..k], 0, inputOrder, names)
    && (forall i :: 0 <= i < k ==> AllBindable(program, program.instructions[i].inputs))
  }

  lemma {:induction false} LoweredUpToSnoc(
      program: CompiledProgram, k: nat, inputOrder: seq<Register>, out: seq<AssemblerInstruction>, names: seq<string>,
      refs: seq<RegisterRef>, longer: seq<string>)
    requires k < |program.instructions| && LoweredUpTo(program, k, inputOrder, out, names) && names <= longer
    requires Resolved(
      program, program.instructions[k].inputs, Reads(program.instructions[..k]), inputOrder, refs, longer)
    ensures LoweredUpTo(
      program, k + 1, inputOrder, out + [AssemblerInstruction(program.instructions[k].instruction, refs)], longer)
  {
    ReadsSnoc(program.instructions, k);
    LowersSnoc(out, program.instructions, refs, 0, inputOrder, names, longer);
  }

  method LowerInstructions(program: CompiledProgram, inputIndex: map<string, nat>)
    returns (r: Result<seq<AssemblerInstruction>, CircuitBindingError>, weightValues: seq<Tensor>)
    requires InputTable(program.graphInputs, inputIndex)
    ensures r.Ok? <==>
      forall k :: 0 <= k < |program.instructions| ==> AllBindable(program, program.instructions[k].inputs)
    ensures r.Ok? ==> Converted(program, WeightOrder(Reads(program.instructions)), weightValues)
    ensures r.Ok? ==> Lowers(
      r.value, program.instructions, 0, GraphInputRegisters(program.graphInputs),
      WeightOrder(Reads(program.instructions)))
    ensures r.Err? ==> !Bindable(program, Blamed(r.error))
  {
    var names: seq<string>, index: map<string, nat> := [], map[];
    weightValues := [];
    var out: seq<AssemblerInstruction> := [];
    ghost var inputOrder := GraphInputRegisters(program.graphInputs);
    for idx := 0 to |program.instructions|
      invariant WeightTable(program, names, index, weightValues)
      invariant LoweredUpTo(program, idx, inputOrder, out, names)
    {
      ghost var shorter := names;
      var refs;
      refs, names, index, weightValues := ResolveRegisters(
        program, program.instructions[idx].inputs, Reads(program.instructions[..idx]), inputIndex, names, index,
        weightValues);
      if refs.Err? {
        return Err(refs.error), weightValues;
      }
      LoweredUpToSnoc(program, idx, inputOrder, out, shorter, refs.value, names);
      out := out + [AssemblerInstruction(program.instructions[idx].instruction, refs.value)];
    }
    assert program.instructions[..|program.instructions|] == program.instructions;
    r := Ok(out);
  }

  lemma {:induction false} SameWeightValues(program: CompiledProgram, graphInputs: map<string, Tensor>)
    ensures forall name ::
      WeightValue(program, name) == ExternalValue(WholeEnv(program, graphInputs), Register.Weight(name))
  {
  }

  /** Resolves one register, converting and caching a weight the first time it is referenced. */
  method ResolveRegister(
      program: CompiledProgram, register: Register, ghost before: seq<Register>, inputIndex: map<string, nat>,
      names: seq<string>, index: map<string, nat>, values: seq<Tensor>)
    returns (ref: Result<RegisterRef, CircuitBindingError>, names': seq<string>, index': map<string, nat>,
      values': seq<Tensor>)
    requires InputTable(program.graphInputs, inputIndex)
    requires WeightTable(program, names, index, values) && names == WeightOrder(before)
    ensures ref.Ok? <==> Bindable(program, register)
    ensures WeightTable(program, names', index', values') && names <= names'
    ensures ref.Ok? ==> names' == WeightOrder(before + [register])
    ensures ref.Ok? ==> Denotes(ref.value, register, 0, GraphInputRegisters(program.graphInputs), names')
    ensures ref.Err? ==> Blamed(ref.error) == register
  {
    names', index', values' := names, index, values;
    WeightOrderSnoc(before, register);
    match register {
      case GraphInput(name) =>
        if name in inputIndex {
          ref := Ok(RegisterRef.Input(inputIndex[name]));
        } else {
          ref := Err(MissingGraphInput(name));
        }
      case Weight(name) =>
        var slot;
        slot, names', index', values' := WeightSlot(program, name, names, index, values);
        ref := if slot.Some? then Ok(RegisterRef.Weight(slot.value)) else Err(WeightUnavailable(name));
      case Virtual(i) =>
        ref := Ok(RegisterRef.Virtual(i));
    }
  }

  /** The references made for `rs`, and the weights met while making them after those of `before`. */
  ghost predicate Resolved(
      program: CompiledProgram, rs: seq<Register>, before: seq<Register>, inputOrder: seq<Register>,
      refs: seq<RegisterRef>, names: seq<string>)
  {
    && names == WeightOrder(before + rs)
    && AllBindable(program, rs)
    && DenoteAll(refs, rs, 0, inputOrder, names)
  }

  lemma {:induction false} ResolvedSnoc(
      program: CompiledProgram, rs: seq<Register>, j: nat, before: seq<Register>, inputOrder: seq<Register>,
      refs: seq<RegisterRef>, ref: RegisterRef, names: seq<string>, longer: seq<string>)
    requires j < |rs| && Resolved(program, rs[..j], before, inputOrder, refs, names) && names <= longer
    requires longer == WeightOrder(before + rs[..j] + [rs[j]]) && Denotes(ref, rs[j], 0, inputOrder, longer)
    requires Bindable(program, rs[j])
    ensures Resolved(program, rs[..j + 1], before, inputOrder, refs + [ref], longer)
  {
    assert rs[..j + 1] == rs[..j] + [rs[j]];
    assert before + rs[..j] + [rs[j]] == before + rs[..j + 1];
    DenoteAllSnoc(refs, ref, rs[..j], rs[j], 0, inputOrder, names, longer);
  }

  method ResolveRegisters(
      program: CompiledProgram, inputs: seq<Register>, ghost before: seq<Register>, inputIndex: map<string, nat>,
      names: seq<string>, index: map<string, nat>, values: seq<Tensor>)
    returns (
      refs: Result<seq<RegisterRef>, CircuitBindingError>, names': seq<string>, index': map<string, nat>,
      values': seq<Tensor>)
    requires InputTable(program.graphInputs, inputIndex)
    requires WeightTable(program, names, index, values) && names == WeightOrder(before)
    ensures refs.Ok? <==> AllBindable(program, inputs)
    ensures refs.Ok? ==> WeightTable(program, names', index', values') && names <= names'
    ensures refs.Ok? ==>
      Resolved(program, inputs, before, GraphInputRegisters(program.graphInputs), refs.value, names')
    ensures refs.Err? ==> !Bindable(program, Blamed(refs.error))
  {
    names', index', values' := names, index, values;
    var out: seq<RegisterRef> := [];
    ghost var inputOrder := GraphInputRegisters(program.graphInputs);
    assert before + inputs[..0] == before;
    for j := 0 to |inputs|
      invariant WeightTable(program, names', index', values') && names <= names'
      invariant Resolved(program, inputs[..j], before, inputOrder, out, names')
    {
      ghost var shorter := names';
      var ref;
      ref, names', index', values' :=
        ResolveRegister(program, inputs[j], before + inputs[..j], inputIndex, names', index', values');
      if ref.Err? {
        return Err(ref.error), names', index', values';
      }
      ResolvedSnoc(program, inputs, j, before, inputOrder, out, ref.value, shorter, names');
      out := out + [ref.value];
    }
    assert inputs[..|inputs|] == inputs;
    refs := Ok(out);
  }
}
