/** What every lowering from registers to local indices has in common, and what it preserves. */
module Lowering {
  import opened Prelude
  import opened Program
  import opened Assembler

  /** `ref` is a correct local index for `r`, given the tensors bound to each input and weight slot. */
  ghost predicate Denotes(
      ref: RegisterRef, r: Register, start: nat, inputOrder: seq<Register>, weightOrder: seq<string>)
  {
    match r
    case Weight(name) => ref.Weight? && ref.index < |weightOrder| && weightOrder[ref.index] == name
    case GraphInput(_) => ref.Input? && ref.index < |inputOrder| && inputOrder[ref.index] == r
    case Virtual(i) =>
      if i < start then ref.Input? && ref.index < |inputOrder| && inputOrder[ref.index] == r
      else ref == RegisterRef.Virtual(i - start)
  }

  ghost predicate DenoteAll(
      refs: seq<RegisterRef>, rs: seq<Register>, start: nat, inputOrder: seq<Register>, weightOrder: seq<string>)
  {
    && |refs| == |rs|
    && forall j :: 0 <= j < |rs| ==> Denotes(refs[j], rs[j], start, inputOrder, weightOrder)
  }

  lemma {:induction false} DenoteAllSnoc(
      refs: seq<RegisterRef>, ref: RegisterRef, rs: seq<Register>, r: Register, start: nat, inputOrder: seq<Register>,
      weightOrder: seq<string>, longer: seq<string>)
    requires DenoteAll(refs, rs, start, inputOrder, weightOrder) && weightOrder <= longer
    requires Denotes(ref, r, start, inputOrder, longer)
    ensures DenoteAll(refs + [ref], rs + [r], start, inputOrder, longer)
  {
    forall j | 0 <= j < |rs| + 1
      ensures Denotes((refs + [ref])[j], (rs + [r])[j], start, inputOrder, longer)
    {
      if j < |rs| {
        assert Denotes(refs[j], rs[j], start, inputOrder, weightOrder);
      }
    }
  }

  ghost predicate LowersInstruction(
      out: AssemblerInstruction, instr: CompiledInstruction, start: nat, inputOrder: seq<Register>,
      weightOrder: seq<string>)
  {
    && out.instruction == instr.instruction
    && DenoteAll(out.inputs, instr.inputs, start, inputOrder, weightOrder)
  }

  ghost predicate Lowers(
      out: seq<AssemblerInstruction>, instrs: seq<CompiledInstruction>, start: nat,
      inputOrder: seq<Register>, weightOrder: seq<string>)
  {
    && |out| == |instrs|
    && forall k :: 0 <= k < |instrs| ==> LowersInstruction(out[k], instrs[k], start, inputOrder, weightOrder)
  }

  /** The slots hold exactly what the environment gives for the registers they stand for. */
  ghost predicate Holds(
      env: Env, inputOrder: seq<Register>, inputs: seq<Tensor>, weightOrder: seq<string>, weights: seq<Tensor>)
  {
    && |inputs| == |inputOrder|
    && |weights| == |weightOrder|
    && (forall k :: 0 <= k < |inputs| ==> ExternalValue(env, inputOrder[k]) == Some(inputs[k]))
    && (forall k :: 0 <= k < |weights| ==> ExternalValue(env, Register.Weight(weightOrder[k])) == Some(weights[k]))
  }

  /** A lowered range, run by index, computes what the range means register by register. */
  lemma {:induction false} LoweredRunIsEval(
      sem: Semantics, env: Env, start: nat, instrs: seq<CompiledInstruction>, out: seq<AssemblerInstruction>,
      inputOrder: seq<Register>, inputs: seq<Tensor>, weightOrder: seq<string>, weights: seq<Tensor>)
    requires Lowers(out, instrs, start, inputOrder, weightOrder)
    requires Holds(env, inputOrder, inputs, weightOrder, weights)
    ensures RunInstructions(sem, inputs, weights, out) == Eval(sem, env, start, instrs)
  {
    if instrs != [] {
      var n := |instrs| - 1;
      LoweredRunIsEval(sem, env, start, instrs[..n], out[..n], inputOrder, inputs, weightOrder, weights);
      var prefix := Eval(sem, env, start, instrs[..n]);
      if prefix.Some? {
        assert LowersInstruction(out[n], instrs[n], start, inputOrder, weightOrder);
        assert ResolveEach(out[n].inputs, inputs, weights, prefix.value)
            == RegisterValues(env, start, prefix.value, instrs[n].inputs);
      }
    }
  }

  /**
   * A lowered range: inputs in the given order, weights in order of first use, each slot holding its register's value.
   */
  ghost predicate LoweredRange(
      out: AssemblerProgram, env: Env, start: nat, instrs: seq<CompiledInstruction>, inputOrder: seq<Register>)
  {
    && Holds(env, inputOrder, out.inputValues, WeightOrder(Reads(instrs)), out.weightValues)
    && Lowers(out.instructions, instrs, start, inputOrder, WeightOrder(Reads(instrs)))
  }

  lemma {:induction false} LoweredRangeMeaning(
      sem: Semantics, out: AssemblerProgram, env: Env, start: nat, instrs: seq<CompiledInstruction>,
      inputOrder: seq<Register>)
    requires LoweredRange(out, env, start, instrs, inputOrder)
    ensures Run(sem, out) == Eval(sem, env, start, instrs)
  {
    LoweredRunIsEval(sem, env, start, instrs, out.instructions, inputOrder, out.inputValues,
      WeightOrder(Reads(instrs)), out.weightValues);
  }

  /** Two lowerings with the same duplicate-free slot orders are the same program. */
  lemma {:induction false} LoweringUnique(
      a: seq<AssemblerInstruction>, b: seq<AssemblerInstruction>, instrs: seq<CompiledInstruction>, start: nat,
      inputOrder: seq<Register>, weightOrder: seq<string>)
    requires Distinct(inputOrder) && Distinct(weightOrder)
    requires Lowers(a, instrs, start, inputOrder, weightOrder)
    requires Lowers(b, instrs, start, inputOrder, weightOrder)
    ensures a == b
  {
    forall k | 0 <= k < |instrs|
      ensures a[k] == b[k]
    {
      assert LowersInstruction(a[k], instrs[k], start, inputOrder, weightOrder);
      assert LowersInstruction(b[k], instrs[k], start, inputOrder, weightOrder);
      assert a[k].inputs == b[k].inputs;
    }
  }

  // ----- first-seen orders -----

  /** Registers flattened in reading order. */
  function Reads(instrs: seq<CompiledInstruction>): seq<Register> {
    if |instrs| == 0 then []
    else Reads(instrs[..|instrs| - 1]) + instrs[|instrs| - 1].inputs
  }

  /** Keeps the first occurrence of every element. */
  function FirstSeen<T(==)>(xs: seq<T>): (r: seq<T>) {
    if |xs| == 0 then []
    else
      var init := FirstSeen(xs[..|xs| - 1]);
      if xs[|xs| - 1] in init then init else init + [xs[|xs| - 1]]
  }

  lemma {:induction false} FirstSeenExact<T>(xs: seq<T>)
    ensures Distinct(FirstSeen(xs)) && Elements(FirstSeen(xs)) == Elements(xs)
  {
    if xs != [] {
      var n := |xs| - 1;
      FirstSeenExact(xs[..n]);
      assert xs == xs[..n] + [xs[n]];
      var init := FirstSeen(xs[..n]);
      assert Elements(xs) == Elements(xs[..n]) + {xs[n]};
      assert xs[n] in init <==> xs[n] in Elements(init);
      assert Elements(init + [xs[n]]) == Elements(init) + {xs[n]};
    }
  }

  lemma {:induction false} FirstSeenMonotone<T>(xs: seq<T>, ys: seq<T>)
    ensures FirstSeen(xs) <= FirstSeen(xs + ys)
  {
    if ys == [] {
      assert xs + ys == xs;
    } else {
      var n := |ys| - 1;
      FirstSeenMonotone(xs, ys[..n]);
      assert (xs + ys)[..|xs + ys| - 1] == xs + ys[..n];
    }
  }

  /** The weight names read by a list of registers, with repeats. */
  function WeightNames(rs: seq<Register>): seq<string> {
    if |rs| == 0 then []
    else WeightNames(rs[..|rs| - 1]) + (if rs[|rs| - 1].Weight? then [rs[|rs| - 1].name] else [])
  }

  /** The weights of a range in order of first use. */
  function WeightOrder(rs: seq<Register>): seq<string> {
    FirstSeen(WeightNames(rs))
  }

  /** Reading one more register appends its weight name if it is a new one. */
  lemma {:induction false} WeightOrderSnoc(rs: seq<Register>, r: Register)
    ensures WeightOrder(rs + [r]) ==
            if r.Weight? && r.name !in WeightOrder(rs) then WeightOrder(rs) + [r.name] else WeightOrder(rs)
  {
    assert (rs + [r])[..|rs + [r]| - 1] == rs;
    if r.Weight? {
      assert (WeightNames(rs) + [r.name])[..|WeightNames(rs)|] == WeightNames(rs);
    } else {
      assert WeightNames(rs) + [] == WeightNames(rs);
    }
  }

  lemma {:induction false} ReadsSnoc(instrs: seq<CompiledInstruction>, k: nat)
    requires k < |instrs|
    ensures Reads(instrs[..k + 1]) == Reads(instrs[..k]) + instrs[k].inputs
  {
    assert instrs[..k + 1][..k] == instrs[..k];
  }

  /** One more lowered instruction; growing the weight order keeps every index already handed out. */
  lemma {:induction false} LowersSnoc(
      out: seq<AssemblerInstruction>, instrs: seq<CompiledInstruction>, refs: seq<RegisterRef>, start: nat,
      inputOrder: seq<Register>, weightOrder: seq<string>, longer: seq<string>)
    requires |out| < |instrs|
    requires Lowers(out, instrs[..|out|], start, inputOrder, weightOrder) && weightOrder <= longer
    requires DenoteAll(refs, instrs[|out|].inputs, start, inputOrder, longer)
    ensures Lowers(out + [AssemblerInstruction(instrs[|out|].instruction, refs)], instrs[..|out| + 1], start,
      inputOrder, longer)
  {
    var n := |out|;
    forall k | 0 <= k < n + 1
      ensures LowersInstruction((out + [AssemblerInstruction(instrs[n].instruction, refs)])[k], instrs[..n + 1][k],
        start, inputOrder, longer)
    {
      if k < n {
        assert LowersInstruction(out[k], instrs[..n][k], start, inputOrder, weightOrder);
        forall j | 0 <= j < |instrs[k].inputs|
          ensures Denotes(out[k].inputs[j], instrs[k].inputs[j], start, inputOrder, longer)
        {
          assert Denotes(out[k].inputs[j], instrs[k].inputs[j], start, inputOrder, weightOrder);
        }
      }
    }
  }

  function WeightValue(program: CompiledProgram, name: string): Option<Tensor> {
    ExternalValue(WholeEnv(program, map[]), Register.Weight(name))
  }

  ghost predicate Converted(program: CompiledProgram, names: seq<string>, values: seq<Tensor>) {
    && |values| == |names|
    && forall k :: 0 <= k < |names| ==> WeightValue(program, names[k]) == Some(values[k])
  }

  /** The weights met so far: their names in order, the slot of each, and the converted values. */
  ghost predicate WeightTable(
      program: CompiledProgram, names: seq<string>, index: map<string, nat>, values: seq<Tensor>)
  {
    && Converted(program, names, values)
    && (forall name :: name in index <==> name in names)
    && (forall name :: name in index ==> index[name] < |names| && names[index[name]] == name)
  }

  /** Gives a weight its slot, converting it the first time it is met. */
  method WeightSlot(
      program: CompiledProgram, name: string, names: seq<string>, index: map<string, nat>, values: seq<Tensor>)
    returns (slot: Option<nat>, names': seq<string>, index': map<string, nat>, values': seq<Tensor>)
    requires WeightTable(program, names, index, values)
    ensures slot.None? <==> WeightValue(program, name).None?
    ensures WeightTable(program, names', index', values') && names <= names'
    ensures slot.Some? ==> slot.value < |names'| && names'[slot.value] == name
    ensures slot.Some? ==> names' == if name in names then names else names + [name]
  {
    names', index', values' := names, index, values;
    if name in index {
      return Some(index[name]), names, index, values;
    }
    var converted := WeightValue(program, name);
    if converted.None? {
      return None, names, index, values;
    }
    slot := Some(|values|);
    names', index', values' := names + [name], index[name := |values|], values + [converted.value];
  }
}
