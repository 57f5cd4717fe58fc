/** Checking an assembler template against a configured witness shard, and when a bound shard passes. */
module WitnessTemplate {
  import opened Prelude
  import opened Program
  import opened Assembler
  import opened Lowering
  import opened BoundaryLayouts
  import opened Partition
  import opened ShardBinding
  import opened WitnessCpu

  /** Weights come from the configuration; boundary tensors from the template itself, if of the configured length. */
  function FromTemplate(template: AssemblerProgram, weights: map<string, Tensor>, shapes: map<Register, nat>): Fetch {
    (position: nat, r: Register) =>
      if r.Weight? then Lookup(weights, r.name)
      else if position < |template.inputValues| && Lookup(shapes, r) == Some(|template.inputValues[position]|) then
        Some(template.inputValues[position])
      else None
  }

  ghost predicate Shaped(inputs: seq<Tensor>, shapes: map<Register, nat>, order: seq<Register>) {
    |inputs| == |order| && forall k :: 0 <= k < |order| ==> Lookup(shapes, order[k]) == Some(|inputs[k]|)
  }

  ghost predicate Configured(values: seq<Tensor>, weights: map<string, Tensor>, names: seq<string>) {
    |values| == |names| && forall k :: 0 <= k < |names| ==> Lookup(weights, names[k]) == Some(values[k])
  }

  /**
   * The shard's instructions lowered in first-seen order, on tensors of the configured lengths and the configured
   * weights.
   */
  ghost predicate IsTemplate(
      template: AssemblerProgram, weights: map<string, Tensor>, shapes: map<Register, nat>, start: nat,
      instrs: seq<CompiledInstruction>)
  {
    var order, names := FirstSeenOrder(start, Reads(instrs)), WeightOrder(Reads(instrs));
    && Lowers(template.instructions, instrs, start, order, names)
    && Shaped(template.inputValues, shapes, order)
    && Configured(template.weightValues, weights, names)
  }

  lemma {:induction false} FetchedIsTemplate(
      template: AssemblerProgram, weights: map<string, Tensor>, shapes: map<Register, nat>, start: nat,
      instrs: seq<CompiledInstruction>,
      out: AssemblerProgram)
    requires IsFirstSeen(FromTemplate(template, weights, shapes), start, instrs, out)
    ensures out == template <==> IsTemplate(template, weights, shapes, start, instrs)
  {
    var fetch, order, names :=
      FromTemplate(template, weights, shapes), FirstSeenOrder(start, Reads(instrs)), WeightOrder(Reads(instrs));
    FirstSeenOrderExact(start, instrs);
    WeightOrderExact(Reads(instrs));
    FirstSeenIsBoundary(start, Reads(instrs));
    forall k | 0 <= k < |order| ensures fetch(k, order[k]) == Some(out.inputValues[k]) && !order[k].Weight? {}
    forall k | 0 <= k < |names| ensures fetch(k, Register.Weight(names[k])) == Some(out.weightValues[k]) {}
    if IsTemplate(template, weights, shapes, start, instrs) {
      LoweringUnique(out.instructions, template.instructions, instrs, start, order, names);
      assert out.inputValues == template.inputValues;
      assert out.weightValues == template.weightValues;
    }
  }

  lemma {:induction false} FirstSeenIsBoundary(start: nat, rs: seq<Register>)
    ensures forall r :: r in FirstSeenOrder(start, rs) ==> IsBoundary(start, r) && r in rs
  {
    BoundaryReadsExact(start, rs);
    FirstSeenExact(BoundaryReads(start, rs));
    forall r | r in FirstSeenOrder(start, rs) ensures r in BoundaryReads(start, rs) {
      assert r in Elements(FirstSeenOrder(start, rs));
    }
  }

  lemma {:induction false} TemplateIsFetchable(
      template: AssemblerProgram, weights: map<string, Tensor>, shapes: map<Register, nat>, start: nat,
      instrs: seq<CompiledInstruction>)
    requires IsTemplate(template, weights, shapes, start, instrs)
    ensures Fetchable(FromTemplate(template, weights, shapes), FirstSeenOrder(start, Reads(instrs)),
      WeightOrder(Reads(instrs)))
  {
    FirstSeenIsBoundary(start, Reads(instrs));
    var fetch, order := FromTemplate(template, weights, shapes), FirstSeenOrder(start, Reads(instrs));
    forall k | 0 <= k < |order| ensures fetch(k, order[k]).Some? {
      assert order[k] in order;
    }
  }

  /** Rebuilds the expected program around the template's own boundary tensors and compares. */
  method CompareTemplate(
      template: AssemblerProgram, weights: map<string, Tensor>, shapes: map<Register, nat>, start: nat,
      instrs: seq<CompiledInstruction>)
    returns (ok: bool)
    ensures ok <==> IsTemplate(template, weights, shapes, start, instrs)
  {
    var expected := LowerFirstSeen(FromTemplate(template, weights, shapes), start, instrs);
    if expected.Err? {
      if IsTemplate(template, weights, shapes, start,
        instrs) { TemplateIsFetchable(template, weights, shapes, start, instrs); }
      return false;
    }
    FetchedIsTemplate(template, weights, shapes, start, instrs, expected.value);
    ok := template == expected.value;
  }

  // ----- bound shards as templates -----

  /** The witness configuration and the layout give every external register of the range the same length. */
  ghost predicate SameShapes(layout: BoundaryLayout, shapes: map<Register, nat>, registers: set<Register>) {
    forall r :: r in registers ==> Lookup(shapes, r) == ElementCount(layout, r)
  }

  ghost predicate SameWeights(program: CompiledProgram, weights: map<string, Tensor>, rs: seq<Register>) {
    forall name :: Register.Weight(name) in rs ==> Lookup(weights, name) == WeightValue(program, name)
  }

  lemma {:induction false} BoundValues(
      program: CompiledProgram, layout: BoundaryLayout, env: Env, weights: map<string, Tensor>,
      shapes: map<Register, nat>, start: nat,
      instrs: seq<CompiledInstruction>, order: seq<Register>, bound: AssemblerProgram)
    requires LoweredRange(bound, env, start, instrs, order) && env.weights == program.weights
    requires Elements(order) == ExternalSet(start, instrs) && AllSupplied(layout, env, ExternalSet(start, instrs))
    requires SameShapes(layout, shapes, ExternalSet(start, instrs)) && SameWeights(program, weights, Reads(instrs))
    ensures Shaped(bound.inputValues, shapes, order)
    ensures Configured(bound.weightValues, weights, WeightOrder(Reads(instrs)))
  {
    var names := WeightOrder(Reads(instrs));
    WeightOrderExact(Reads(instrs));
    forall k | 0 <= k < |order| ensures Lookup(shapes, order[k]) == Some(|bound.inputValues[k]|) {
      assert order[k] in Elements(order);
      assert Supplied(layout, env, order[k]);
    }
    forall k | 0 <= k < |names| ensures Lookup(weights, names[k]) == Some(bound.weightValues[k]) {
      assert names[k] in names;
      assert ExternalValue(env, Register.Weight(names[k])) == Some(bound.weightValues[k]);
    }
  }

  lemma {:induction false} TemplateIffOrders(
      bound: AssemblerProgram, weights: map<string, Tensor>, shapes: map<Register, nat>, start: nat,
      instrs: seq<CompiledInstruction>,
      order: seq<Register>)
    requires Lowers(bound.instructions, instrs, start, order, WeightOrder(Reads(instrs)))
    requires Distinct(order) && Elements(order) == ExternalSet(start, instrs)
    requires Shaped(bound.inputValues, shapes, order)
      && Configured(bound.weightValues, weights, WeightOrder(Reads(instrs)))
    ensures IsTemplate(bound, weights, shapes, start, instrs) <==> FirstSeenOrder(start, Reads(instrs)) == order
  {
    if IsTemplate(bound, weights, shapes, start, instrs) {
      FirstSeenOrderExact(start, instrs);
      SameInstructionsSameOrder(
        bound.instructions, instrs, start, FirstSeenOrder(start, Reads(instrs)), order, WeightOrder(Reads(instrs)));
    }
  }

  /** The range first reads its external registers in boundary order. */
  ghost predicate ReadsInKeyOrder(start: nat, instrs: seq<CompiledInstruction>) {
    Sorted(RegisterLe, FirstSeenOrder(start, Reads(instrs)))
  }

  lemma {:induction false} OrdersEqualIff(start: nat, instrs: seq<CompiledInstruction>)
    ensures FirstSeenOrder(start, Reads(instrs)) == InputOrder(start, instrs) <==> ReadsInKeyOrder(start, instrs)
  {
    RegisterOrder();
    FirstSeenOrderExact(start, instrs);
    if ReadsInKeyOrder(start, instrs) {
      SortedSetUnique(RegisterLe, FirstSeenOrder(start, Reads(instrs)), InputOrder(start, instrs));
    }
  }

  /** A bound shard passes the template check exactly when its range first reads its external registers in key order. */
  lemma {:induction false} BoundPassesTemplateIff(
      plan: PartitionPlan, s: nat, layout: BoundaryLayout, graphInputs: map<string, Tensor>,
      incoming: map<Register, Tensor>,
      out: BoundShardProgram, weights: map<string, Tensor>, shapes: map<Register, nat>)
    requires InPlan(plan, s) && CanBind(plan, s, layout, graphInputs, incoming)
      && IsBound(plan, s, layout, graphInputs, incoming, out)
    requires SameShapes(layout, shapes, ExternalSet(plan.shards[s].start, InstructionsOf(plan, s)))
    requires SameWeights(plan.programSnapshot, weights, Reads(InstructionsOf(plan, s)))
    ensures IsTemplate(out.assemblerProgram, weights, shapes, plan.shards[s].start, InstructionsOf(plan, s))
      <==> ReadsInKeyOrder(plan.shards[s].start, InstructionsOf(plan, s))
  {
    var start, instrs := plan.shards[s].start, InstructionsOf(plan, s);
    BoundValues(plan.programSnapshot, layout, LocalEnv(plan.programSnapshot, graphInputs, incoming), weights, shapes,
      start, instrs,
      InputOrder(start, instrs), out.assemblerProgram);
    TemplateIffOrders(out.assemblerProgram, weights, shapes, start, instrs, InputOrder(start, instrs));
    OrdersEqualIff(start, instrs);
  }

  lemma {:induction false} OneInstruction(instr: CompiledInstruction, instrs: seq<CompiledInstruction>)
    requires instrs == [instr]
    ensures Reads(instrs) == instr.inputs
  {
    assert instrs[..|instrs| - 1] == [];
    assert Reads(instrs) == Reads([]) + instr.inputs;
  }

  lemma {:induction false} TwoReads(start: nat, a: Register, b: Register, none: seq<Register>)
    requires IsBoundary(start, a) && IsBoundary(start, b) && a != b && |none| == 0
    ensures FirstSeenOrder(start, none + [a] + [b]) == [a, b]
  {
    FirstSeenSnoc(start, none, a);
    FirstSeenSnoc(start, none + [a], b);
  }

  /** A range that reads an earlier value before a graph input is rejected as a template, bound or not. */
  lemma {:induction false} VirtualBeforeGraphInput(start: nat, i: nat, name: string, instr: CompiledInstruction)
    requires i < start && instr.inputs == [Register.Virtual(i), GraphInput(name)]
    ensures !ReadsInKeyOrder(start, [instr])
  {
    OneInstruction(instr, [instr]);
    TwoReads(start, Register.Virtual(i), GraphInput(name), []);
    assert [] + [Register.Virtual(i)] + [GraphInput(name)] == instr.inputs;
    var order := FirstSeenOrder(start, Reads([instr]));
    assert !RegisterLe(order[0], order[1]);
  }
}
