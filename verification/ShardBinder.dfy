/** The binding procedure: checks the plan, gathers the boundaries, lowers the instructions. */
module ShardBinder {
  import opened Prelude
  import opened Program
  import opened Assembler
  import opened Lowering
  import opened BoundaryLayouts
  import opened DagBuilder
  import opened Partition
  import opened ShardSemantics
  import opened ShardBinding

  // ----- gathering the external registers -----

  predicate ReadAllowed(start: nat, global: nat, expected: set<Register>, r: Register) {
    r.Virtual? ==> if r.index < start then r in expected else r.index < global
  }

  ghost predicate AllReadsAllowed(start: nat, global: nat, expected: set<Register>, rs: seq<Register>) {
    forall j :: 0 <= j < |rs| ==> ReadAllowed(start, global, expected, rs[j])
  }

  ghost function ExternalAt(start: nat, rs: seq<Register>): set<Register> {
    set j | 0 <= j < |rs| && !rs[j].Weight? && External(start, rs[j]) :: rs[j]
  }

  lemma {:induction false} ExternalSetSnoc(start: nat, instrs: seq<CompiledInstruction>, k: nat)
    requires k < |instrs|
    ensures ExternalSet(start, instrs[..k + 1]) == ExternalSet(start, instrs[..k]) + ExternalAt(start, instrs[k].inputs)
  {
    var longer, shorter := instrs[..k + 1], instrs[..k];
    forall r | r in ExternalSet(start, shorter) ensures r in ExternalSet(start, longer) {
      var a, j :| 0 <= a < |shorter| && 0 <= j < |shorter[a].inputs| && !shorter[a].inputs[j].Weight?
        && External(start, shorter[a].inputs[j]) && shorter[a].inputs[j] == r;
      assert longer[a] == shorter[a];
    }
    forall r | r in ExternalAt(start, instrs[k].inputs) ensures r in ExternalSet(start, longer) {
      assert longer[k] == instrs[k];
    }
    forall r | r in ExternalSet(start, longer)
      ensures r in ExternalSet(start, shorter) || r in ExternalAt(start, instrs[k].inputs)
    {
      var a, j :| 0 <= a < |longer| && 0 <= j < |longer[a].inputs| && !longer[a].inputs[j].Weight?
        && External(start, longer[a].inputs[j]) && longer[a].inputs[j] == r;
      if a < k { assert longer[a] == shorter[a]; }
    }
  }

  lemma {:induction false} ExternalAtSnoc(start: nat, rs: seq<Register>, j: nat)
    requires j < |rs|
    ensures ExternalAt(start, rs[..j + 1]) ==
      ExternalAt(start, rs[..j]) + (if !rs[j].Weight? && External(start, rs[j]) then {rs[j]} else {})
  {
    var longer, shorter := rs[..j + 1], rs[..j];
    forall r | r in ExternalAt(start, shorter) ensures r in ExternalAt(start, longer) {
      var a :| 0 <= a < |shorter| && !shorter[a].Weight? && External(start, shorter[a]) && shorter[a] == r;
      assert longer[a] == shorter[a];
    }
    if !rs[j].Weight? && External(start, rs[j]) { assert longer[j] == rs[j]; }
    forall r | r in ExternalAt(start, longer)
      ensures r in ExternalAt(start, shorter) || (r == rs[j] && !rs[j].Weight? && External(start, rs[j]))
    {
      var a :| 0 <= a < |longer| && !longer[a].Weight? && External(start, longer[a]) && longer[a] == r;
      if a < j { assert longer[a] == shorter[a]; }
    }
  }

  method ScanReads(start: nat, global: nat, expected: set<Register>, rs: seq<Register>, external: set<Register>)
    returns (r: Result<set<Register>, ShardBindingError>)
    ensures r.Ok? <==> AllReadsAllowed(start, global, expected, rs)
    ensures r.Ok? ==> r.value == external + ExternalAt(start, rs)
  {
    var found := external;
    for j := 0 to |rs|
      invariant AllReadsAllowed(start, global, expected, rs[..j])
      invariant found == external + ExternalAt(start, rs[..j])
    {
      ExternalAtSnoc(start, rs, j);
      assert rs[..j + 1] == rs[..j] + [rs[j]];
      match rs[j] {
        case GraphInput(_) => found := found + {rs[j]};
        case Weight(_) =>
        case Virtual(source) =>
          if source < start {
            if rs[j] !in expected {
              return Err(PlanProgramMismatch);
            }
            found := found + {rs[j]};
          } else if source >= global {
            return Err(LaterOrOutsideReference(global, rs[j]));
          }
      }
    }
    assert rs[..|rs|] == rs;
    r := Ok(found);
  }

  ghost predicate RangeReadsAllowed(start: nat, expected: set<Register>, instrs: seq<CompiledInstruction>) {
    forall k :: 0 <= k < |instrs| ==> AllReadsAllowed(start, start + k, expected, instrs[k].inputs)
  }

  method CollectExternal(start: nat, expected: set<Register>, instrs: seq<CompiledInstruction>)
    returns (r: Result<set<Register>, ShardBindingError>)
    ensures r.Ok? <==> RangeReadsAllowed(start, expected, instrs)
    ensures r.Ok? ==> r.value == ExternalSet(start, instrs)
  {
    var external: set<Register> := {};
    for k := 0 to |instrs|
      invariant RangeReadsAllowed(start, expected, instrs[..k])
      invariant external == ExternalSet(start, instrs[..k])
    {
      var scanned := ScanReads(start, start + k, expected, instrs[k].inputs, external);
      if scanned.Err? {
        return Err(scanned.error);
      }
      ExternalSetSnoc(start, instrs, k);
      external := scanned.value;
    }
    assert instrs[..|instrs|] == instrs;
    r := Ok(external);
  }

  // ----- binding the inputs -----

  ghost predicate IndexTable(order: seq<Register>, index: map<Register, nat>) {
    && (forall r :: r in index <==> r in order)
    && (forall r :: r in index ==> index[r] < |order| && order[index[r]] == r)
  }

  ghost predicate HoldsInputs(env: Env, order: seq<Register>, values: seq<Tensor>) {
    |values| == |order| && forall k :: 0 <= k < |order| ==> ExternalValue(env, order[k]) == Some(values[k])
  }

  ghost predicate NotSupplied(layout: BoundaryLayout, env: Env, r: Register, e: ShardBindingError) {
    match e
    case MissingBoundaryShape(register) => register == r && ElementCount(layout, r).None?
    case MissingGraphInput(name) => r == GraphInput(name) && name !in env.graphInputs
    case MissingBoundary(register) => register == r && r.Virtual? && r !in env.incoming
    case BoundaryLengthMismatch(register, expected, actual) =>
      register == r && ElementCount(layout, r) == Some(expected) && ExternalValue(env, r).Some?
      && |ExternalValue(env, r).value| == actual && actual != expected
    case _ => false
  }

  method BindInput(layout: BoundaryLayout, env: Env, r: Register) returns (v: Result<(Tensor, nat), ShardBindingError>)
    requires !r.Weight?
    ensures v.Ok? <==> Supplied(layout, env, r)
    ensures v.Ok? ==> ExternalValue(env, r) == Some(v.value.0) && ElementCount(layout, r) == Some(v.value.1)
    ensures v.Err? ==> NotSupplied(layout, env, r, v.error)
  {
    var count := ElementCount(layout, r);
    if count.None? {
      return Err(MissingBoundaryShape(r));
    }
    var values := ExternalValue(env, r);
    if values.None? {
      return Err(if r.GraphInput? then MissingGraphInput(r.name) else MissingBoundary(r));
    }
    if |values.value| != count.value {
      return Err(BoundaryLengthMismatch(r, count.value, |values.value|));
    }
    v := Ok((values.value, count.value));
  }

  method BindInputs(plan: PartitionPlan, s: nat, layout: BoundaryLayout, env: Env, order: seq<Register>)
    returns (e: Option<ShardBindingError>, values: seq<Tensor>, index: map<Register, nat>,
      boundaries: seq<BoundaryDescriptor>)
    requires forall k :: 0 <= k < |order| ==> !order[k].Weight?
    ensures e.None? <==> AllSupplied(layout, env, Elements(order))
    ensures e.Some? ==> exists r :: r in order && NotSupplied(layout, env, r, e.value)
    ensures e.None? ==>
      HoldsInputs(env, order, values) && IndexTable(order, index) && DescribesInputs(plan, layout, s, order, boundaries)
  {
    values, index, boundaries := [], map[], [];
    for k := 0 to |order|
      invariant AllSupplied(layout, env, Elements(order[..k]))
      invariant HoldsInputs(env, order[..k], values)
      invariant IndexTable(order[..k], index)
      invariant DescribesInputs(plan, layout, s, order[..k], boundaries)
    {
      var r := order[k];
      var bound := BindInput(layout, env, r);
      if bound.Err? {
        assert r in order && r in Elements(order);
        return Some(bound.error), values, index, boundaries;
      }
      assert order[..k + 1] == order[..k] + [r];
      index := index[r := k];
      values := values + [bound.value.0];
      boundaries := boundaries + [Descriptor(plan, s, r, bound.value.1, false)];
    }
    assert order[..|order|] == order;
    e := None;
  }

  // ----- lowering the instructions -----

  /** Every register of the range either has an input slot, is a weight, or is an earlier value of the range. */
  ghost predicate Lowerable(start: nat, global: nat, order: seq<Register>, rs: seq<Register>) {
    forall j :: 0 <= j < |rs| ==> LowerableRegister(start, global, order, rs[j])
  }

  ghost predicate LowerableRegister(start: nat, global: nat, order: seq<Register>, r: Register) {
    match r
    case GraphInput(_) => r in order
    case Weight(_) => true
    case Virtual(i) => if i < start then r in order else i < global
  }

  method LowerRegister(
      program: CompiledProgram, range: Range, global: nat, r: Register, ghost before: seq<Register>,
      ghost order: seq<Register>,
      inputIndex: map<Register, nat>, globalToLocal: map<nat, nat>, names: seq<string>, index: map<string, nat>,
      values: seq<Tensor>)
    returns (ref: Result<RegisterRef, ShardBindingError>, names': seq<string>, index': map<string, nat>,
      values': seq<Tensor>)
    requires IndexTable(order, inputIndex) && LowerableRegister(range.start, global, order, r) && global <= range.end
    requires LocalTable(range, globalToLocal)
    requires WeightTable(program, names, index, values) && names == WeightOrder(before)
    ensures ref.Ok? <==> (r.Weight? ==> WeightValue(program, r.name).Some?)
    ensures ref.Err? ==> ref.error == WeightUnavailable(r.name)
    ensures WeightTable(program, names', index', values') && names <= names'
    ensures ref.Ok? ==> names' == WeightOrder(before + [r]) && Denotes(ref.value, r, range.start, order, names')
  {
    names', index', values' := names, index, values;
    WeightOrderSnoc(before, r);
    match r {
      case GraphInput(_) => ref := Ok(RegisterRef.Input(inputIndex[r]));
      case Weight(name) =>
        var slot;
        slot, names', index', values' := WeightSlot(program, name, names, index, values);
        ref := if slot.Some? then Ok(RegisterRef.Weight(slot.value)) else Err(WeightUnavailable(name));
      case Virtual(source) =>
        if Within(range, source) {
          ref := Ok(RegisterRef.Virtual(globalToLocal[source]));
        } else {
          ref := Ok(RegisterRef.Input(inputIndex[r]));
        }
    }
  }

  /** The references made for `rs`, and the weights met while making them after those of `before`. */
  ghost predicate Lowered(
      program: CompiledProgram, rs: seq<Register>, before: seq<Register>, start: nat, order: seq<Register>,
      refs: seq<RegisterRef>, names: seq<string>)
  {
    && names == WeightOrder(before + rs)
    && WeightsConvert(program, rs)
    && DenoteAll(refs, rs, start, order, names)
  }

  lemma {:induction false} LoweredSnoc(
      program: CompiledProgram, rs: seq<Register>, j: nat, before: seq<Register>, start: nat, order: seq<Register>,
      refs: seq<RegisterRef>, ref: RegisterRef, names: seq<string>, longer: seq<string>)
    requires j < |rs| && Lowered(program, rs[..j], before, start, order, refs, names) && names <= longer
    requires longer == WeightOrder(before + rs[..j] + [rs[j]]) && Denotes(ref, rs[j], start, order, longer)
    requires rs[j].Weight? ==> WeightValue(program, rs[j].name).Some?
    ensures Lowered(program, rs[..j + 1], before, start, order, refs + [ref], longer)
  {
    assert rs[..j + 1] == rs[..j] + [rs[j]];
    assert before + rs[..j] + [rs[j]] == before + rs[..j + 1];
    DenoteAllSnoc(refs, ref, rs[..j], rs[j], start, order, names, longer);
  }

  method LowerRegisters(
      program: CompiledProgram, range: Range, global: nat, rs: seq<Register>,
      ghost before: seq<Register>, ghost order: seq<Register>, inputIndex: map<Register, nat>,
      globalToLocal: map<nat, nat>, names: seq<string>, index: map<string, nat>, values: seq<Tensor>)
    returns (
      refs: Result<seq<RegisterRef>, ShardBindingError>, names': seq<string>, index': map<string, nat>,
      values': seq<Tensor>)
    requires IndexTable(order, inputIndex) && Lowerable(range.start, global, order, rs) && global <= range.end
    requires LocalTable(range, globalToLocal)
    requires WeightTable(program, names, index, values) && names == WeightOrder(before)
    ensures refs.Ok? <==> WeightsConvert(program, rs)
    ensures refs.Err? ==> refs.error.WeightUnavailable? && WeightValue(program, refs.error.name).None?
    ensures refs.Ok? ==> WeightTable(program, names', index', values') && names <= names'
    ensures refs.Ok? ==> Lowered(program, rs, before, range.start, order, refs.value, names')
  {
    names', index', values' := names, index, values;
    var out: seq<RegisterRef> := [];
    assert before + rs[..0] == before;
    for j := 0 to |rs|
      invariant WeightTable(program, names', index', values') && names <= names'
      invariant Lowered(program, rs[..j], before, range.start, order, out, names')
    {
      ghost var shorter := names';
      assert LowerableRegister(range.start, global, order, rs[j]);
      var ref;
      ref, names', index', values' := LowerRegister(
        program, range, global, rs[j], before + rs[..j], order, inputIndex, globalToLocal, names', index', values');
      if ref.Err? {
        return Err(ref.error), names', index', values';
      }
      LoweredSnoc(program, rs, j, before, range.start, order, out, ref.value, shorter, names');
      out := out + [ref.value];
    }
    assert rs[..|rs|] == rs;
    refs := Ok(out);
  }

  ghost predicate RangeLowerable(start: nat, order: seq<Register>, instrs: seq<CompiledInstruction>) {
    forall k :: 0 <= k < |instrs| ==> Lowerable(start, start + k, order, instrs[k].inputs)
  }

  /** The first instructions are lowered, and all their weights converted. */
  ghost predicate LoweredUpTo(
      program: CompiledProgram, seen: seq<CompiledInstruction>, start: nat, order: seq<Register>,
      out: seq<AssemblerInstruction>, names: seq<string>)
  {
    && |out| == |seen| && names == WeightOrder(Reads(seen)) && Lowers(out, seen, start, order, names)
    && forall i :: 0 <= i < |seen| ==> WeightsConvert(program, seen[i].inputs)
  }

  lemma {:induction false} LoweredUpToMore(
      program: CompiledProgram, instrs: seq<CompiledInstruction>, k: nat, start: nat, order: seq<Register>,
      out: seq<AssemblerInstruction>, names: seq<string>, refs: seq<RegisterRef>, more: seq<string>)
    requires k < |instrs| && LoweredUpTo(program, instrs[..k], start, order, out, names) && names <= more
    requires WeightsConvert(program, instrs[k].inputs)
    requires Lowered(program, instrs[k].inputs, Reads(instrs[..k]), start, order, refs, more)
    ensures LoweredUpTo(program, instrs[..k + 1], start, order,
      out + [AssemblerInstruction(instrs[k].instruction, refs)], more)
  {
    ReadsSnoc(instrs, k);
    LowersSnoc(out, instrs, refs, start, order, names, more);
    assert instrs[..k + 1] == instrs[..k] + [instrs[k]];
  }

  method LowerRange(
      program: CompiledProgram, range: Range, instrs: seq<CompiledInstruction>, ghost order: seq<Register>,
      inputIndex: map<Register, nat>, globalToLocal: map<nat, nat>)
    returns (r: Result<seq<AssemblerInstruction>, ShardBindingError>, names: seq<string>, values: seq<Tensor>)
    requires IndexTable(order, inputIndex) && RangeLowerable(range.start, order, instrs)
      && range.start + |instrs| == range.end
    requires LocalTable(range, globalToLocal)
    ensures r.Ok? <==> forall k :: 0 <= k < |instrs| ==> WeightsConvert(program, instrs[k].inputs)
    ensures r.Err? ==> r.error.WeightUnavailable? && WeightValue(program, r.error.name).None?
    ensures r.Ok? ==> names == WeightOrder(Reads(instrs)) && Converted(program, names, values)
    ensures r.Ok? ==> Lowers(r.value, instrs, range.start, order, names)
  {
    var index: map<string, nat> := map[];
    names, values := [], [];
    var out: seq<AssemblerInstruction> := [];
    for k := 0 to |instrs|
      invariant WeightTable(program, names, index, values)
      invariant LoweredUpTo(program, instrs[..k], range.start, order, out, names)
    {
      ghost var shorter := names;
      assert Lowerable(range.start, range.start + k, order, instrs[k].inputs);
      var refs;
      refs, names, index, values := LowerRegisters(
        program, range, range.start + k, instrs[k].inputs, Reads(instrs[..k]), order, inputIndex, globalToLocal, names,
        index, values);
      if refs.Err? {
        return Err(refs.error), names, values;
      }
      LoweredUpToMore(program, instrs, k, range.start, order, out, shorter, refs.value, names);
      out := out + [AssemblerInstruction(instrs[k].instruction, refs.value)];
    }
    assert instrs[..|instrs|] == instrs;
    r := Ok(out);
  }

  // ----- the outputs -----

  /** Names collected so far for the registers of this range. */
  ghost predicate NamesTable(graphOutputs: seq<(string, Register)>, range: Range, names: map<Register, seq<string>>) {
    && (forall r :: r in names ==> names[r] == OutputNames(graphOutputs, r))
    && (forall r: Register :: r.Virtual? && Within(range, r.index) && r !in names ==>
      OutputNames(graphOutputs, r) == [])
    && (forall r :: r in names ==> r.Virtual? && Within(range, r.index))
  }

  predicate OutsideProgram(r: Register, n: nat) {
    !r.Virtual? || r.index >= n
  }

  ghost predicate AllOutputsInside(graphOutputs: seq<(string, Register)>, n: nat) {
    forall k :: 0 <= k < |graphOutputs| ==> !OutsideProgram(graphOutputs[k].1, n)
  }

  ghost function GraphOutputsIn(graphOutputs: seq<(string, Register)>, range: Range): set<Register> {
    set k | 0 <= k < |graphOutputs| && graphOutputs[k].1.Virtual?
      && Within(range, graphOutputs[k].1.index) :: graphOutputs[k].1
  }

  predicate NamesGrow(before: seq<string>, after: seq<string>, output: (string, Register), r: Register) {
    after == before + (if output.1 == r then [output.0] else [])
  }

  lemma {:induction false} GraphOutputsSnoc(graphOutputs: seq<(string, Register)>, range: Range, k: nat)
    requires k < |graphOutputs|
    ensures GraphOutputsIn(graphOutputs[..k + 1], range) == GraphOutputsIn(graphOutputs[..k], range) +
      (if graphOutputs[k].1.Virtual? && Within(range, graphOutputs[k].1.index) then {graphOutputs[k].1} else {})
    ensures forall r ::
      NamesGrow(OutputNames(graphOutputs[..k], r), OutputNames(graphOutputs[..k + 1], r), graphOutputs[k], r)
  {
    var longer, shorter := graphOutputs[..k + 1], graphOutputs[..k];
    assert longer[..k] == shorter && longer[k] == graphOutputs[k];
    forall r | r in GraphOutputsIn(shorter, range) ensures r in GraphOutputsIn(longer, range) {
      var a :| 0 <= a < |shorter| && shorter[a].1 == r && r.Virtual? && Within(range, r.index);
      assert longer[a] == shorter[a];
    }
  }

  function Published(names: map<Register, seq<string>>, register: Register): seq<string> {
    if register in names then names[register] else []
  }

  /** The first graph outputs are inside the program, and those of the range collected. */
  ghost predicate Collected(
      graphOutputs: seq<(string, Register)>, n: nat, range: Range, dagOutputs: seq<Register>, outputs: set<Register>,
      names: map<Register, seq<string>>)
  {
    && AllOutputsInside(graphOutputs, n)
    && outputs == Elements(dagOutputs) + GraphOutputsIn(graphOutputs, range)
    && NamesTable(graphOutputs, range, names)
  }

  lemma {:induction false} NamesMore(
      graphOutputs: seq<(string, Register)>, range: Range, k: nat, names: map<Register, seq<string>>)
    requires k < |graphOutputs| && NamesTable(graphOutputs[..k], range, names) && graphOutputs[k].1.Virtual?
    ensures var (name, register) := graphOutputs[k];
      NamesTable(graphOutputs[..k + 1], range,
        if Within(range, register.index) then names[register := Published(names, register) + [name]] else names)
  {
    GraphOutputsSnoc(graphOutputs, range, k);
    var (name, register) := graphOutputs[k];
    forall r: Register
      ensures NamesGrow(OutputNames(graphOutputs[..k], r), OutputNames(graphOutputs[..k + 1], r), graphOutputs[k], r)
    {
    }
  }

  lemma {:induction false} CollectedMore(
      graphOutputs: seq<(string, Register)>, n: nat, range: Range, dagOutputs: seq<Register>, k: nat,
      outputs: set<Register>, names: map<Register, seq<string>>)
    requires k < |graphOutputs| && Collected(graphOutputs[..k], n, range, dagOutputs, outputs, names)
    requires !OutsideProgram(graphOutputs[k].1, n)
    ensures var (name, register) := graphOutputs[k];
      if Within(range, register.index) then
        Collected(graphOutputs[..k + 1], n, range, dagOutputs, outputs + {register},
          names[register := Published(names, register) + [name]])
      else Collected(graphOutputs[..k + 1], n, range, dagOutputs, outputs, names)
  {
    GraphOutputsSnoc(graphOutputs, range, k);
    NamesMore(graphOutputs, range, k, names);
    InsideMore(graphOutputs, n, k);
  }

  lemma {:induction false} InsideMore(graphOutputs: seq<(string, Register)>, n: nat, k: nat)
    requires k < |graphOutputs| && AllOutputsInside(graphOutputs[..k], n) && !OutsideProgram(graphOutputs[k].1, n)
    ensures AllOutputsInside(graphOutputs[..k + 1], n)
  {
  }

  method CollectOutputs(graphOutputs: seq<(string, Register)>, n: nat, range: Range, dagOutputs: seq<Register>)
    returns (e: Option<ShardBindingError>, outputs: set<Register>, names: map<Register, seq<string>>)
    ensures e.None? <==> AllOutputsInside(graphOutputs, n)
    ensures e.Some? ==> e.value.OutputOutsideProgram? && OutsideProgram(e.value.register, n)
    ensures e.Some? ==> exists k :: 0 <= k < |graphOutputs| && graphOutputs[k].1 == e.value.register
    ensures e.None? ==> outputs == Elements(dagOutputs) + GraphOutputsIn(graphOutputs, range)
    ensures e.None? ==> NamesTable(graphOutputs, range, names)
  {
    outputs, names := Elements(dagOutputs), map[];
    for k := 0 to |graphOutputs|
      invariant Collected(graphOutputs[..k], n, range, dagOutputs, outputs, names)
    {
      var (name, register) := graphOutputs[k];
      if OutsideProgram(register, n) {
        return Some(OutputOutsideProgram(register)), outputs, names;
      }
      CollectedMore(graphOutputs, n, range, dagOutputs, k, outputs, names);
      if Within(range, register.index) {
        outputs := outputs + {register};
        names := names[register := Published(names, register) + [name]];
      }
    }
    assert graphOutputs[..|graphOutputs|] == graphOutputs;
    e := None;
  }

  /** The descriptor of an output, when its length is declared: its edges and its names, sorted. */
  function DescribeOutput(
      plan: PartitionPlan, s: nat, layout: BoundaryLayout, names: map<Register, seq<string>>, register: Register)
    : Option<BoundaryDescriptor>
  {
    var count :- ElementCount(layout, register);
    Some(Descriptor(plan, s, register, count, true).(
      graphOutputNames := SortBy(TextLe, Published(names, register))))
  }

  lemma {:induction false} OutputDescribed(
      plan: PartitionPlan, s: nat, layout: BoundaryLayout, range: Range, names: map<Register, seq<string>>,
      r: Register)
    requires NamesTable(plan.programSnapshot.graphOutputs, range, names) && r.Virtual? && Within(range, r.index)
    ensures DescribeOutput(plan, s, layout, names, r).Some? <==> ElementCount(layout, r).Some?
    ensures DescribeOutput(plan, s, layout, names, r).Some? ==>
      DescribesOutput(plan, layout, s, r, DescribeOutput(plan, s, layout, names, r).value)
  {
    assert Published(names, r) == OutputNames(plan.programSnapshot.graphOutputs, r);
  }

  /** Describes registers in order, up to the first that cannot be. */
  method DescribeEach(describe: Register -> Option<BoundaryDescriptor>, order: seq<Register>)
    returns (out: seq<BoundaryDescriptor>)
    ensures |out| <= |order| && forall k :: 0 <= k < |out| ==> describe(order[k]) == Some(out[k])
    ensures |out| < |order| ==> describe(order[|out|]).None?
  {
    out := [];
    for k := 0 to |order|
      invariant |out| == k && forall j :: 0 <= j < k ==> describe(order[j]) == Some(out[j])
    {
      var described := describe(order[k]);
      if described.None? {
        return;
      }
      out := out + [described.value];
    }
  }

  lemma {:induction false} EachDescribed(
      plan: PartitionPlan, s: nat, layout: BoundaryLayout, range: Range, order: seq<Register>,
      names: map<Register, seq<string>>, out: seq<BoundaryDescriptor>)
    requires NamesTable(plan.programSnapshot.graphOutputs, range, names)
    requires forall k :: 0 <= k < |order| ==> order[k].Virtual? && Within(range, order[k].index)
    requires |out| == |order|
    requires forall k :: 0 <= k < |out| ==> DescribeOutput(plan, s, layout, names, order[k]) == Some(out[k])
    ensures AllDeclared(layout, Elements(order)) && DescribesOutputs(plan, layout, s, order, out)
  {
    forall k | 0 <= k < |order| ensures DescribesOutput(plan, layout, s, order[k], out[k]) {
      OutputDescribed(plan, s, layout, range, names, order[k]);
    }
    forall r | r in Elements(order) ensures ElementCount(layout, r).Some? {
      var k :| 0 <= k < |order| && order[k] == r;
      assert DescribesOutput(plan, layout, s, order[k], out[k]);
    }
  }

  lemma {:induction false} NotAllDeclared(layout: BoundaryLayout, order: seq<Register>, k: nat)
    requires k < |order| && ElementCount(layout, order[k]).None?
    ensures order[k] in order && !AllDeclared(layout, Elements(order))
  {
    assert order[k] in Elements(order);
  }

  method DescribeOutputs(
      plan: PartitionPlan, s: nat, layout: BoundaryLayout, range: Range, order: seq<Register>,
      names: map<Register, seq<string>>)
    returns (r: Result<seq<BoundaryDescriptor>, ShardBindingError>)
    requires NamesTable(plan.programSnapshot.graphOutputs, range, names)
    requires forall k :: 0 <= k < |order| ==> order[k].Virtual? && Within(range, order[k].index)
    ensures r.Ok? <==> AllDeclared(layout, Elements(order))
    ensures r.Err? ==>
      r.error.MissingBoundaryShape? && r.error.register in order && ElementCount(layout, r.error.register).None?
    ensures r.Ok? ==> DescribesOutputs(plan, layout, s, order, r.value)
  {
    var out := DescribeEach(register => DescribeOutput(plan, s, layout, names, register), order);
    if |out| < |order| {
      OutputDescribed(plan, s, layout, range, names, order[|out|]);
      NotAllDeclared(layout, order, |out|);
      return Err(MissingBoundaryShape(order[|out|]));
    }
    EachDescribed(plan, s, layout, range, order, names, out);
    r := Ok(out);
  }

  // ----- the whole binding -----

  method FindForwardRead(program: CompiledProgram) returns (e: Option<ShardBindingError>)
    ensures e.None? <==> WellOrdered(program)
    ensures e.Some? ==> e.value.LaterOrOutsideReference?
  {
    var bad := ValidateVirtualReferences(program);
    e := if bad.Some? then Some(LaterOrOutsideReference(bad.value.consumerInstruction, bad.value.register)) else None;
  }

  method CheckIncoming(expected: set<Register>, incoming: map<Register, Tensor>) returns (e: Option<ShardBindingError>)
    ensures e.None? <==> incoming.Keys == expected
    ensures e.Some? ==>
      (e.value.MissingBoundary? && e.value.register in expected && e.value.register !in incoming)
      || (e.value.ExtraBoundary? && e.value.register !in expected && e.value.register in incoming)
  {
    var missing := expected - incoming.Keys;
    if missing != {} {
      var r :| r in missing;
      return Some(MissingBoundary(r));
    }
    var extra := incoming.Keys - expected;
    if extra != {} {
      var r :| r in extra;
      return Some(ExtraBoundary(r));
    }
    assert incoming.Keys == expected;
    e := None;
  }

  /** In a valid plan no read of a shard is forward or undeclared. */
  lemma {:induction false} PlanReadsAllowed(plan: PartitionPlan, s: nat)
    requires ValidPlan(plan) && s < |plan.shards|
    ensures InPlan(plan, s)
    ensures RangeReadsAllowed(plan.shards[s].start, Elements(plan.dag.shards[s].inputs), InstructionsOf(plan, s))
  {
    ValidPlanShard(plan, s);
    var instrs, start := InstructionsOf(plan, s), plan.shards[s].start;
    forall k, j | 0 <= k < |instrs| && 0 <= j < |instrs[k].inputs|
      ensures ReadAllowed(start, start + k, Elements(plan.dag.shards[s].inputs), instrs[k].inputs[j])
    {
      var r := instrs[k].inputs[j];
      assert plan.programSnapshot.instructions[start + k].inputs[j] == r;
      if r.Virtual? && r.index < start {
        assert r in ExternalSet(start, instrs);
        ExternalVirtualsAreInputs(plan, s, r.index);
      }
    }
  }

  lemma {:induction false} AllowedIsLowerable(start: nat, expected: set<Register>, instrs: seq<CompiledInstruction>)
    requires RangeReadsAllowed(start, expected, instrs)
    ensures RangeLowerable(start, InputOrder(start, instrs), instrs)
  {
    var order := InputOrder(start, instrs);
    forall k | 0 <= k < |instrs| ensures Lowerable(start, start + k, order, instrs[k].inputs) {
      assert AllReadsAllowed(start, start + k, expected, instrs[k].inputs);
      forall j | 0 <= j < |instrs[k].inputs| && !instrs[k].inputs[j].Weight? && External(start, instrs[k].inputs[j])
        ensures instrs[k].inputs[j] in order
      {
        assert instrs[k].inputs[j] in ExternalSet(start, instrs);
        assert instrs[k].inputs[j] in Elements(order);
      }
    }
  }

  lemma {:induction false} WeightsOfReads(program: CompiledProgram, instrs: seq<CompiledInstruction>)
    ensures WeightsConvert(program, Reads(instrs)) <==>
      forall k :: 0 <= k < |instrs| ==> WeightsConvert(program, instrs[k].inputs)
  {
    if instrs != [] {
      var n := |instrs| - 1;
      WeightsOfReads(program, instrs[..n]);
      var a, b := Reads(instrs[..n]), instrs[n].inputs;
      if WeightsConvert(program, a + b) {
        forall k | 0 <= k < |a| && a[k].Weight?
          ensures WeightValue(program, a[k].name).Some?
        {
          assert (a + b)[k] == a[k];
        }
        forall k | 0 <= k < |b| && b[k].Weight?
          ensures WeightValue(program, b[k].name).Some?
        {
          assert (a + b)[|a| + k] == b[k];
        }
      }
    }
  }

  lemma {:induction false} AssembleLowered(
      program: CompiledProgram, graphInputs: map<string, Tensor>, incoming: map<Register, Tensor>, start: nat,
      instrs: seq<CompiledInstruction>, order: seq<Register>, inputs: seq<Tensor>, out: seq<AssemblerInstruction>,
      names: seq<string>, values: seq<Tensor>)
    requires HoldsInputs(LocalEnv(program, graphInputs, incoming), order, inputs)
    requires names == WeightOrder(Reads(instrs)) && Converted(program, names, values)
    requires Lowers(out, instrs, start, order, names)
    ensures LoweredRange(AssemblerProgram(out, inputs, values), LocalEnv(program, graphInputs, incoming), start,
      instrs, order)
  {
  }

  /** Why a binding that addresses its plan was refused. */
  ghost predicate RefusalJustified(
      plan: PartitionPlan, s: nat, layout: BoundaryLayout, graphInputs: map<string, Tensor>,
      incoming: map<Register, Tensor>,
      e: ShardBindingError)
    requires InPlan(plan, s)
  {
    var program, range, instrs :=
      plan.programSnapshot, Range(plan.shards[s].start, plan.shards[s].end), InstructionsOf(plan, s);
    var env, expected := LocalEnv(program, graphInputs, incoming), Elements(plan.dag.shards[s].inputs);
    || (e.MissingBoundary? && e.register in expected && e.register !in incoming)
    || (e.ExtraBoundary? && e.register !in expected && e.register in incoming)
    || (exists r :: r in ExternalSet(range.start, instrs) && NotSupplied(layout, env, r, e))
    || (e.WeightUnavailable? && WeightValue(program, e.name).None?)
    || (e.OutputOutsideProgram? && OutsideProgram(e.register, |program.instructions|))
    || (e.MissingBoundaryShape? && ElementCount(layout, e.register).None?)
  }

  method BindLowered(
      plan: PartitionPlan, s: nat, layout: BoundaryLayout, graphInputs: map<string, Tensor>,
      incoming: map<Register, Tensor>)
    returns (r: Result<(AssemblerProgram, seq<BoundaryDescriptor>, seq<string>), ShardBindingError>)
    requires ValidPlan(plan) && s < |plan.shards| && InPlan(plan, s)
    ensures r.Ok? <==>
      && AllSupplied(layout, LocalEnv(plan.programSnapshot, graphInputs, incoming),
        ExternalSet(plan.shards[s].start, InstructionsOf(plan, s)))
      && WeightsConvert(plan.programSnapshot, Reads(InstructionsOf(plan, s)))
    ensures r.Err? ==> RefusalJustified(plan, s, layout, graphInputs, incoming, r.error)
    ensures r.Ok? ==> var order := InputOrder(plan.shards[s].start, InstructionsOf(plan, s));
      && LoweredRange(r.value.0, LocalEnv(plan.programSnapshot, graphInputs, incoming), plan.shards[s].start,
        InstructionsOf(plan, s), order)
      && DescribesInputs(plan, layout, s, order, r.value.1)
      && r.value.2 == WeightOrder(Reads(InstructionsOf(plan, s)))
  {
    var program, range := plan.programSnapshot, Range(plan.shards[s].start, plan.shards[s].end);
    var instrs := program.instructions[range.start..range.end];
    ghost var expected := Elements(plan.dag.shards[s].inputs);
    PlanReadsAllowed(plan, s);
    // Never refused: the plan's DAG declares every crossing read.
    var external := CollectExternal(range.start, Elements(plan.dag.shards[s].inputs), instrs);
    RegisterOrder();
    var order := SortedVector(RegisterLe, external.value);
    assert order == InputOrder(range.start, instrs);
    forall k | 0 <= k < |order| ensures !order[k].Weight? {
      assert order[k] in Elements(order);
    }
    var refused, inputs, inputIndex, boundaries :=
      BindInputs(plan, s, layout, LocalEnv(program, graphInputs, incoming), order);
    if refused.Some? {
      ghost var r :| r in order && NotSupplied(layout, LocalEnv(program, graphInputs, incoming), r, refused.value);
      assert r in Elements(order);
      return Err(refused.value);
    }
    AllowedIsLowerable(range.start, expected, instrs);
    WeightsOfReads(program, instrs);
    var lowered, names, weights := LowerRange(program, range, instrs, order, inputIndex, LocalIndices(range));
    if lowered.Err? {
      return Err(lowered.error);
    }
    AssembleLowered(program, graphInputs, incoming, range.start, instrs, order, inputs, lowered.value, names, weights);
    r := Ok((AssemblerProgram(lowered.value, inputs, weights), boundaries, names));
  }

  function LocalIndices(range: Range): (m: map<nat, nat>)
    ensures LocalTable(range, m)
  {
    map g: nat | range.start <= g < range.end && Within(range, g) :: g - range.start
  }

  method BindOutputs(plan: PartitionPlan, s: nat, layout: BoundaryLayout)
    returns (r: Result<seq<BoundaryDescriptor>, ShardBindingError>)
    requires InPlan(plan, s)
    requires forall x :: x in plan.dag.shards[s].outputs ==>
      x.Virtual? && Within(Range(plan.shards[s].start, plan.shards[s].end), x.index)
    ensures var outputs :=
      OutputSet(plan.programSnapshot, plan.dag.shards[s].outputs, Range(plan.shards[s].start, plan.shards[s].end));
      r.Ok? <==> OutputsInside(plan.programSnapshot) && AllDeclared(layout, outputs)
    ensures r.Err? ==>
      (r.error.OutputOutsideProgram? && OutsideProgram(r.error.register, |plan.programSnapshot.instructions|))
      || (r.error.MissingBoundaryShape? && ElementCount(layout, r.error.register).None?)
    ensures r.Ok? ==> DescribesOutputs(plan, layout, s,
      OutputOrder(plan.programSnapshot, plan.dag.shards[s].outputs, Range(plan.shards[s].start, plan.shards[s].end)),
        r.value)
  {
    var program, range := plan.programSnapshot, Range(plan.shards[s].start, plan.shards[s].end);
    var refused, outputs, names :=
      CollectOutputs(program.graphOutputs, |program.instructions|, range, plan.dag.shards[s].outputs);
    if refused.Some? {
      return Err(refused.value);
    }
    RegisterOrder();
    var order := SortedVector(RegisterLe, outputs);
    assert order == OutputOrder(program, plan.dag.shards[s].outputs, range);
    forall k | 0 <= k < |order| ensures order[k].Virtual? && Within(range, order[k].index) {
      assert order[k] in Elements(order);
    }
    r := DescribeOutputs(plan, s, layout, range, order, names);
  }

  /** Binds one shard of a plan, or says why it cannot be bound. */
  method BindShardProgram(
      program: CompiledProgram, plan: PartitionPlan, s: nat, modelDigest: Digest, layout: BoundaryLayout,
      graphInputs: map<string, Tensor>, incoming: map<Register, Tensor>)
    returns (r: Result<BoundShardProgram, ShardBindingError>)
    requires ValidPlan(plan)
    ensures s < |plan.shards| ==> InPlan(plan, s)
    ensures r.Ok? <==>
      Addresses(program, plan, s, modelDigest, layout) && CanBind(plan, s, layout, graphInputs, incoming)
    ensures r.Ok? ==> IsBound(plan, s, layout, graphInputs, incoming, r.value)
    ensures !WellOrdered(program) ==> r.Err? && r.error.LaterOrOutsideReference?
    ensures r.Err? && Addresses(program, plan, s, modelDigest, layout) ==>
      RefusalJustified(plan, s, layout, graphInputs, incoming, r.error)
    ensures WellOrdered(program) && (modelDigest != plan.modelDigest || program != plan.programSnapshot) ==>
      r == Err(PlanProgramMismatch)
  {
    if s < |plan.shards| { ValidPlanShard(plan, s); }
    var forward := FindForwardRead(program);
    if forward.Some? {
      return Err(forward.value);
    }
    if modelDigest != plan.modelDigest || program != plan.programSnapshot {
      return Err(PlanProgramMismatch);
    }
    if plan.boundaryLayout != Some(layout) {
      return Err(BoundaryLayoutMismatch);
    }
    if s >= |plan.shards| {
      return Err(UnknownShard(s));
    }
    var matches := RebuildMatches(program, plan, s);
    if !matches {
      return Err(PlanProgramMismatch);
    }
    var unexpected := CheckIncoming(Elements(plan.dag.shards[s].inputs), incoming);
    if unexpected.Some? {
      return Err(unexpected.value);
    }
    var lowered := BindLowered(plan, s, layout, graphInputs, incoming);
    if lowered.Err? {
      return Err(lowered.error);
    }
    OutputsOwn(plan, s);
    var outputs := BindOutputs(plan, s, layout);
    if outputs.Err? {
      return Err(outputs.error);
    }
    var range := Range(plan.shards[s].start, plan.shards[s].end);
    r := Ok(BoundShardProgram(lowered.value.0, lowered.value.1, outputs.value, LocalIndices(range), lowered.value.2, s,
      plan.shards[s].name, range));
  }

  lemma {:induction false} OutputsOwn(plan: PartitionPlan, s: nat)
    requires ValidPlan(plan) && s < |plan.shards| && InPlan(plan, s)
    ensures forall x :: x in plan.dag.shards[s].outputs ==>
      x.Virtual? && Within(Range(plan.shards[s].start, plan.shards[s].end), x.index)
  {
    BoundaryRegisters(plan, s);
    forall x | x in plan.dag.shards[s].outputs ensures Within(RangesOf(plan.shards)[s], x.index) {
      OutputIsOwn(plan.programSnapshot, SpecsOf(plan.shards), RangesOf(plan.shards), s, x.index);
    }
  }

  /** The defensive rebuild of the DAG: it always agrees with the plan. */
  method RebuildMatches(program: CompiledProgram, plan: PartitionPlan, s: nat) returns (ok: bool)
    requires ValidPlan(plan) && plan.programSnapshot == program && s < |plan.shards| && InPlan(plan, s)
    ensures ok
  {
    PartitionsAreContiguous(plan.shards, |program.instructions|);
    var rebuilt := BuildDag(program, SpecsOf(plan.shards));
    ok := rebuilt == Ok(plan.dag)
      && plan.shards[s].id == s && plan.dag.shards[s].id == s
      && plan.shards[s].start == plan.dag.shards[s].start && plan.shards[s].end == plan.dag.shards[s].end
      && plan.shards[s].name == plan.dag.shards[s].name;
  }
}
