/** The CPU witness backend: executing a shard, and lowering it in first-seen order. */
module WitnessCpu {
  import opened Prelude
  import opened Program
  import opened Assembler
  import opened Lowering

  // ----- first-seen boundary order -----

  predicate IsBoundary(start: nat, r: Register) {
    !r.Weight? && External(start, r)
  }

  /** The boundary registers of a list of reads, in reading order with repeats. */
  function BoundaryReads(start: nat, rs: seq<Register>): seq<Register> {
    if |rs| == 0 then []
    else BoundaryReads(start, rs[..|rs| - 1]) + (if IsBoundary(start, rs[|rs| - 1]) then [rs[|rs| - 1]] else [])
  }

  function FirstSeenOrder(start: nat, rs: seq<Register>): seq<Register> {
    FirstSeen(BoundaryReads(start, rs))
  }

  /** Reading one more register appends it if it is a boundary register not seen before. */
  function PushInput(start: nat, order: seq<Register>, r: Register): (longer: seq<Register>)
    ensures order <= longer
  {
    if IsBoundary(start, r) && r !in order then order + [r] else order
  }

  function PushWeight(order: seq<string>, r: Register): (longer: seq<string>)
    ensures order <= longer
  {
    if r.Weight? && r.name !in order then order + [r.name] else order
  }

  lemma {:induction false} FirstSeenSnoc(start: nat, rs: seq<Register>, r: Register)
    ensures FirstSeenOrder(start, rs + [r]) == PushInput(start, FirstSeenOrder(start, rs), r)
  {
    assert (rs + [r])[..|rs + [r]| - 1] == rs;
    var seen := BoundaryReads(start, rs);
    if IsBoundary(start, r) {
      assert (seen + [r])[..|seen|] == seen;
    } else {
      assert seen + [] == seen;
    }
  }

  lemma {:induction false} BoundaryReadsExact(start: nat, rs: seq<Register>)
    ensures forall r :: r in BoundaryReads(start, rs) <==> r in rs && IsBoundary(start, r)
  {
    if rs != [] {
      BoundaryReadsExact(start, rs[..|rs| - 1]);
      assert rs == rs[..|rs| - 1] + [rs[|rs| - 1]];
    }
  }

  lemma {:induction false} ReadsExact(instrs: seq<CompiledInstruction>)
    ensures forall r :: r in Reads(instrs) <==> exists k :: 0 <= k < |instrs| && r in instrs[k].inputs
  {
    if instrs != [] {
      var n := |instrs| - 1;
      ReadsExact(instrs[..n]);
      forall r ensures r in Reads(instrs) <==> exists k :: 0 <= k < |instrs| && r in instrs[k].inputs {
        if r in Reads(instrs[..n]) {
          var k :| 0 <= k < n && r in instrs[..n][k].inputs;
          assert r in instrs[k].inputs;
        }
        forall k | 0 <= k < |instrs| && r in instrs[k].inputs ensures r in Reads(instrs) {
          if k < n { assert r in instrs[..n][k].inputs; }
        }
      }
    }
  }

  /** First-seen order lists exactly the external registers, each once. */
  lemma {:induction false} FirstSeenOrderExact(start: nat, instrs: seq<CompiledInstruction>)
    ensures Distinct(FirstSeenOrder(start, Reads(instrs)))
    ensures Elements(FirstSeenOrder(start, Reads(instrs))) == ExternalSet(start, instrs)
  {
    ReadsExact(instrs);
    BoundaryReadsExact(start, Reads(instrs));
    FirstSeenExact(BoundaryReads(start, Reads(instrs)));
    forall r ensures r in BoundaryReads(start, Reads(instrs)) <==> r in ExternalSet(start, instrs) {
      if r in BoundaryReads(start, Reads(instrs)) {
        var k :| 0 <= k < |instrs| && r in instrs[k].inputs;
        var j :| 0 <= j < |instrs[k].inputs| && instrs[k].inputs[j] == r;
      }
      if r in ExternalSet(start, instrs) {
        var k, j :| 0 <= k < |instrs| && 0 <= j < |instrs[k].inputs| && instrs[k].inputs[j] == r
          && IsBoundary(start, r);
        assert r in instrs[k].inputs;
      }
    }
  }

  // ----- two lowerings of one range -----

  /** `perm` sends each slot of one order to the slot of the same register in the other. */
  ghost predicate Matches(a: seq<Register>, b: seq<Register>, perm: seq<nat>) {
    && |perm| == |a| == |b|
    && Distinct(perm)
    && forall i :: 0 <= i < |perm| ==> perm[i] < |b| && b[perm[i]] == a[i]
  }

  function Rename(ref: RegisterRef, perm: seq<nat>): RegisterRef {
    if ref.Input? && ref.index < |perm| then RegisterRef.Input(perm[ref.index]) else ref
  }

  ghost predicate InstructionRenamed(a: AssemblerInstruction, b: AssemblerInstruction, perm: seq<nat>) {
    && a.instruction == b.instruction && |a.inputs| == |b.inputs|
    && forall j :: 0 <= j < |a.inputs| ==> b.inputs[j] == Rename(a.inputs[j], perm)
  }

  ghost predicate RenamedBy(a: seq<AssemblerInstruction>, b: seq<AssemblerInstruction>, perm: seq<nat>) {
    |a| == |b| && forall k :: 0 <= k < |a| ==> InstructionRenamed(a[k], b[k], perm)
  }

  lemma {:induction false} OrdersMatch(a: seq<Register>, b: seq<Register>) returns (perm: seq<nat>)
    requires Distinct(a) && Distinct(b) && Elements(a) == Elements(b)
    ensures Matches(a, b, perm)
  {
    DistinctSize(a);
    DistinctSize(b);
    perm := [];
    for i := 0 to |a|
      invariant |perm| == i && forall k :: 0 <= k < i ==> perm[k] < |b| && b[perm[k]] == a[k]
    {
      assert a[i] in Elements(a) && a[i] in Elements(b);
      var p :| 0 <= p < |b| && b[p] == a[i];
      perm := perm + [p];
    }
  }

  /** Two lowerings of one range differ only by a permutation of the input slots. */
  lemma {:induction false} LoweringsAgree(
      a: AssemblerProgram, b: AssemblerProgram, env: Env, start: nat, instrs: seq<CompiledInstruction>,
      orderA: seq<Register>, orderB: seq<Register>) returns (perm: seq<nat>)
    requires LoweredRange(a, env, start, instrs, orderA) && LoweredRange(b, env, start, instrs, orderB)
    requires Distinct(orderA) && Distinct(orderB) && Elements(orderA) == Elements(orderB)
    ensures Matches(orderA, orderB, perm) && RenamedBy(a.instructions, b.instructions, perm)
    ensures |a.inputValues| == |b.inputValues| == |perm|
    ensures forall i :: 0 <= i < |perm| ==> b.inputValues[perm[i]] == a.inputValues[i]
    ensures a.weightValues == b.weightValues
    ensures forall sem :: Run(sem, a) == Run(sem, b)
  {
    var weights := WeightOrder(Reads(instrs));
    perm := OrdersMatch(orderA, orderB);
    FirstSeenExact(WeightNames(Reads(instrs)));
    forall i | 0 <= i < |perm| ensures b.inputValues[perm[i]] == a.inputValues[i] {
      assert ExternalValue(env, orderA[i]) == Some(a.inputValues[i]);
      assert ExternalValue(env, orderB[perm[i]]) == Some(b.inputValues[perm[i]]);
    }
    forall i | 0 <= i < |weights| ensures a.weightValues[i] == b.weightValues[i] {
      assert ExternalValue(env, Register.Weight(weights[i])) == Some(a.weightValues[i]);
    }
    forall k | 0 <= k < |instrs| ensures InstructionRenamed(a.instructions[k], b.instructions[k], perm) {
      assert LowersInstruction(a.instructions[k], instrs[k], start, orderA, weights);
      assert LowersInstruction(b.instructions[k], instrs[k], start, orderB, weights);
      InstructionAgrees(a.instructions[k], b.instructions[k], instrs[k], start, orderA, orderB, weights, perm);
    }
    forall sem: Semantics ensures Run(sem, a) == Run(sem, b) {
      LoweredRangeMeaning(sem, a, env, start, instrs, orderA);
      LoweredRangeMeaning(sem, b, env, start, instrs, orderB);
    }
  }

  lemma {:induction false} InstructionAgrees(
      a: AssemblerInstruction, b: AssemblerInstruction, instr: CompiledInstruction, start: nat, orderA: seq<Register>,
      orderB: seq<Register>, weights: seq<string>, perm: seq<nat>)
    requires LowersInstruction(a, instr, start, orderA, weights) && LowersInstruction(b, instr, start, orderB, weights)
    requires Matches(orderA, orderB, perm) && Distinct(orderA) && Distinct(orderB) && Distinct(weights)
    ensures InstructionRenamed(a, b, perm)
  {
    forall j | 0 <= j < |a.inputs| ensures b.inputs[j] == Rename(a.inputs[j], perm) {
      assert Denotes(a.inputs[j], instr.inputs[j], start, orderA, weights);
      assert Denotes(b.inputs[j], instr.inputs[j], start, orderB, weights);
    }
  }

  /** Equal lowered instructions give every external register the same slot. */
  lemma {:induction false} SameSlot(
      out: seq<AssemblerInstruction>, instrs: seq<CompiledInstruction>, start: nat, orderA: seq<Register>,
      orderB: seq<Register>,
      weights: seq<string>, r: Register) returns (slot: nat)
    requires Lowers(out, instrs, start, orderA, weights) && Lowers(out, instrs, start, orderB, weights)
    requires r in ExternalSet(start, instrs)
    ensures slot < |orderA| && slot < |orderB| && orderA[slot] == r && orderB[slot] == r
  {
    var k, j :| 0 <= k < |instrs| && 0 <= j < |instrs[k].inputs| && instrs[k].inputs[j] == r && IsBoundary(start, r);
    assert LowersInstruction(out[k], instrs[k], start, orderA, weights);
    assert LowersInstruction(out[k], instrs[k], start, orderB, weights);
    assert Denotes(out[k].inputs[j], r, start, orderA, weights) && Denotes(out[k].inputs[j], r, start, orderB, weights);
    slot := out[k].inputs[j].index;
  }

  lemma {:induction false} SameInstructionsSameOrder(
      out: seq<AssemblerInstruction>, instrs: seq<CompiledInstruction>, start: nat, orderA: seq<Register>,
      orderB: seq<Register>, weights: seq<string>)
    requires Lowers(out, instrs, start, orderA, weights) && Lowers(out, instrs, start, orderB, weights)
    requires Distinct(orderA) && Distinct(orderB) && Elements(orderA) == ExternalSet(start, instrs) == Elements(orderB)
    ensures orderA == orderB
  {
    DistinctSize(orderA);
    DistinctSize(orderB);
    forall i | 0 <= i < |orderA| ensures orderA[i] == orderB[i] {
      assert orderA[i] in Elements(orderA);
      var slot := SameSlot(out, instrs, start, orderA, orderB, weights, orderA[i]);
    }
  }

  /** The two lowerings are the same program exactly when the two orders are the same. */
  lemma {:induction false} LoweringsIdenticalIff(
      a: AssemblerProgram, b: AssemblerProgram, env: Env, start: nat, instrs: seq<CompiledInstruction>,
      orderA: seq<Register>, orderB: seq<Register>)
    requires LoweredRange(a, env, start, instrs, orderA) && LoweredRange(b, env, start, instrs, orderB)
    requires Distinct(orderA) && Distinct(orderB) && Elements(orderA) == ExternalSet(start, instrs) == Elements(orderB)
    ensures a == b <==> orderA == orderB
  {
    var weights := WeightOrder(Reads(instrs));
    if a == b {
      SameInstructionsSameOrder(a.instructions, instrs, start, orderA, orderB, weights);
    }
    if orderA == orderB {
      FirstSeenExact(WeightNames(Reads(instrs)));
      LoweringUnique(a.instructions, b.instructions, instrs, start, orderA, weights);
      SameHeldValues(env, orderA, a.inputValues, b.inputValues, weights, a.weightValues, b.weightValues);
    }
  }

  lemma {:induction false} SameHeldValues(
      env: Env, order: seq<Register>, x: seq<Tensor>, y: seq<Tensor>, weights: seq<string>, u: seq<Tensor>,
      v: seq<Tensor>)
    requires Holds(env, order, x, weights, u) && Holds(env, order, y, weights, v)
    ensures x == y && u == v
  {
    forall k | 0 <= k < |x| ensures x[k] == y[k] { assert ExternalValue(env, order[k]) == Some(x[k]); }
    forall k | 0 <= k < |u|
      ensures u[k] == v[k]
    {
      assert ExternalValue(env, Register.Weight(weights[k])) == Some(u[k]);
    }
  }

  // ----- lowering with slots in first-seen order -----

  /** References handed out so far, one for every external register read. */
  ghost predicate SlotTable(
      start: nat, refs: map<Register, RegisterRef>, inputOrder: seq<Register>, weightOrder: seq<string>)
  {
    && (forall r :: r in inputOrder ==> r in refs)
    && (forall name :: name in weightOrder ==> Register.Weight(name) in refs)
    && (forall r :: r in refs ==> External(start, r) && Denotes(refs[r], r, start, inputOrder, weightOrder))
  }

  lemma {:induction false} SlotTableGrows(
      start: nat, refs: map<Register, RegisterRef>, r: Register, ref: RegisterRef,
      inputOrder: seq<Register>, weightOrder: seq<string>, moreInputs: seq<Register>, moreWeights: seq<string>)
    requires SlotTable(start, refs, inputOrder, weightOrder) && inputOrder <= moreInputs && weightOrder <= moreWeights
    requires External(start, r) && Denotes(ref, r, start, moreInputs, moreWeights)
    requires forall x :: x in moreInputs ==> x in inputOrder || x == r
    requires forall x :: x in moreWeights ==> x in weightOrder || Register.Weight(x) == r
    ensures SlotTable(start, refs[r := ref], moreInputs, moreWeights)
  {
    forall x | x in refs && x != r ensures Denotes(refs[x], x, start, moreInputs, moreWeights) {
      assert Denotes(refs[x], x, start, inputOrder, weightOrder);
    }
  }

  /** The reference of one register, new if it is an external register read for the first time. */
  method AssignSlot(
      start: nat, r: Register, refs: map<Register, RegisterRef>, ghost inputOrder: seq<Register>,
      ghost weightOrder: seq<string>,
      inputs: nat, weights: nat)
    returns (ref: RegisterRef, refs': map<Register, RegisterRef>, isNew: bool)
    requires SlotTable(start, refs, inputOrder, weightOrder) && inputs == |inputOrder| && weights == |weightOrder|
    ensures SlotTable(start, refs', PushInput(start, inputOrder, r), PushWeight(weightOrder, r))
    ensures Denotes(ref, r, start, PushInput(start, inputOrder, r), PushWeight(weightOrder, r))
    ensures isNew <==> External(start, r) && r !in refs
    ensures refs' == if isNew then refs[r := ref] else refs
    ensures PushInput(start, inputOrder, r) == inputOrder + (if isNew && !r.Weight? then [r] else [])
    ensures PushWeight(weightOrder, r) == weightOrder + (if isNew && r.Weight? then [r.name] else [])
  {
    refs', isNew := refs, false;
    if r.Virtual? && r.index >= start {
      return RegisterRef.Virtual(r.index - start), refs, false;
    }
    if r in refs {
      KnownSlot(start, r, refs, inputOrder, weightOrder);
      return refs[r], refs, false;
    }
    ref := if r.Weight? then RegisterRef.Weight(weights) else RegisterRef.Input(inputs);
    SlotTableGrows(start, refs, r, ref, inputOrder, weightOrder, PushInput(start, inputOrder, r),
      PushWeight(weightOrder, r));
    refs', isNew := refs[r := ref], true;
  }

  lemma {:induction false} KnownSlot(
      start: nat, r: Register, refs: map<Register, RegisterRef>, inputOrder: seq<Register>, weightOrder: seq<string>)
    requires SlotTable(start, refs, inputOrder, weightOrder) && r in refs
    ensures PushInput(start, inputOrder, r) == inputOrder && PushWeight(weightOrder, r) == weightOrder
  {
    assert Denotes(refs[r], r, start, inputOrder, weightOrder);
  }

  /** The tensor to put into the given input or weight slot for a register, if there is one. */
  type Fetch = (nat, Register) -> Option<Tensor>

  ghost predicate Fetchable(fetch: Fetch, inputOrder: seq<Register>, weightOrder: seq<string>) {
    && (forall k :: 0 <= k < |inputOrder| ==> fetch(k, inputOrder[k]).Some?)
    && (forall k :: 0 <= k < |weightOrder| ==> fetch(k, Register.Weight(weightOrder[k])).Some?)
  }

  ghost predicate Fetched(
      fetch: Fetch, inputOrder: seq<Register>, inputs: seq<Tensor>, weightOrder: seq<string>, weights: seq<Tensor>)
  {
    && |inputs| == |inputOrder| && |weights| == |weightOrder|
    && (forall k :: 0 <= k < |inputOrder| ==> fetch(k, inputOrder[k]) == Some(inputs[k]))
    && (forall k :: 0 <= k < |weightOrder| ==> fetch(k, Register.Weight(weightOrder[k])) == Some(weights[k]))
  }

  lemma {:induction false} FetchableShrinks(
      fetch: Fetch, inputOrder: seq<Register>, weightOrder: seq<string>, moreInputs: seq<Register>,
      moreWeights: seq<string>)
    requires Fetchable(fetch, moreInputs, moreWeights) && inputOrder <= moreInputs && weightOrder <= moreWeights
    ensures Fetchable(fetch, inputOrder, weightOrder)
  {
    forall k | 0 <= k < |inputOrder| ensures fetch(k, inputOrder[k]).Some? { assert moreInputs[k] == inputOrder[k]; }
    forall k | 0 <= k < |weightOrder|
      ensures fetch(k, Register.Weight(weightOrder[k])).Some?
    {
      assert moreWeights[k] == weightOrder[k];
    }
  }

  datatype Slots = Slots(refs: map<Register, RegisterRef>, inputs: seq<Tensor>, weights: seq<Tensor>)

  /** Every external register in `seen` has its slot, and every slot its tensor. */
  ghost predicate Placed(fetch: Fetch, start: nat, inputOrder: seq<Register>, weightOrder: seq<string>, slots: Slots) {
    && SlotTable(start, slots.refs, inputOrder, weightOrder)
    && Fetched(fetch, inputOrder, slots.inputs, weightOrder, slots.weights)
  }

  lemma {:induction false} FetchedMore(
      fetch: Fetch, inputOrder: seq<Register>, inputs: seq<Tensor>, weightOrder: seq<string>, weights: seq<Tensor>,
      r: Register, v: Option<Tensor>)
    requires Fetched(fetch, inputOrder, inputs, weightOrder, weights)
    requires v == fetch(if r.Weight? then |weightOrder| else |inputOrder|, r)
    ensures v.Some? ==>
      if r.Weight? then Fetched(fetch, inputOrder, inputs, weightOrder + [r.name], weights + [v.value])
                        else Fetched(fetch, inputOrder + [r], inputs + [v.value], weightOrder, weights)
    ensures v.Some? <==> if r.Weight? then Fetchable(fetch, inputOrder, weightOrder + [r.name])
                         else Fetchable(fetch, inputOrder + [r], weightOrder)
  {
    if r.Weight? {
      assert (weightOrder + [r.name])[|weightOrder|] == r.name;
    } else {
      assert (inputOrder + [r])[|inputOrder|] == r;
    }
  }

  method PlaceRegister(
      fetch: Fetch, start: nat, r: Register, ghost inputOrder: seq<Register>, ghost weightOrder: seq<string>,
      slots: Slots)
    returns (ref: Option<RegisterRef>, slots': Slots)
    requires Placed(fetch, start, inputOrder, weightOrder, slots)
    ensures ref.Some? <==> Fetchable(fetch, PushInput(start, inputOrder, r), PushWeight(weightOrder, r))
    ensures ref.None? ==> exists k :: fetch(k, r).None?
    ensures ref.Some? ==> Placed(fetch, start, PushInput(start, inputOrder, r), PushWeight(weightOrder, r), slots')
    ensures ref.Some? ==> Denotes(ref.value, r, start, PushInput(start, inputOrder, r), PushWeight(weightOrder, r))
  {
    var slot, refs, isNew := AssignSlot(start, r, slots.refs, inputOrder, weightOrder, |slots.inputs|, |slots.weights|);
    if !isNew {
      return Some(slot), slots.(refs := refs);
    }
    var v := fetch(if r.Weight? then |slots.weights| else |slots.inputs|, r);
    FetchedMore(fetch, inputOrder, slots.inputs, weightOrder, slots.weights, r, v);
    if v.None? {
      return None, slots;
    }
    ref := Some(slot);
    slots' := if r.Weight? then Slots(refs, slots.inputs, slots.weights + [v.value])
      else Slots(refs, slots.inputs + [v.value], slots.weights);
  }

  /** One more read: its reference is appended, and the orders grow by what is new. */
  method PlaceNext(
      fetch: Fetch, start: nat, r: Register, ghost before: seq<Register>, ghost rs: seq<Register>,
      done: seq<RegisterRef>, slots: Slots)
    returns (out: Option<seq<RegisterRef>>, slots': Slots)
    requires Placed(fetch, start, FirstSeenOrder(start, before), WeightOrder(before), slots)
    requires DenoteAll(done, rs, start, FirstSeenOrder(start, before), WeightOrder(before))
    ensures out.Some? <==> Fetchable(fetch, FirstSeenOrder(start, before + [r]), WeightOrder(before + [r]))
    ensures out.None? ==> exists k :: fetch(k, r).None?
    ensures out.Some? ==> Placed(fetch, start, FirstSeenOrder(start, before + [r]), WeightOrder(before + [r]), slots')
    ensures out.Some? ==>
      DenoteAll(out.value, rs + [r], start, FirstSeenOrder(start, before + [r]), WeightOrder(before + [r]))
  {
    ghost var inputOrder, weightOrder := FirstSeenOrder(start, before), WeightOrder(before);
    var ref;
    ref, slots' := PlaceRegister(fetch, start, r, inputOrder, weightOrder, slots);
    FirstSeenSnoc(start, before, r);
    WeightOrderSnoc(before, r);
    if ref.None? {
      return None, slots';
    }
    DenoteAllSnocBoth(done, ref.value, rs, r, start, inputOrder, weightOrder, PushInput(start, inputOrder, r),
      PushWeight(weightOrder, r));
    out := Some(done + [ref.value]);
  }

  lemma {:induction false} PrefixSnoc<T>(before: seq<T>, rs: seq<T>, j: nat)
    requires j < |rs|
    ensures rs[..j + 1] == rs[..j] + [rs[j]]
    ensures before + rs[..j] + [rs[j]] == before + (rs[..j] + [rs[j]])
  {
  }

  lemma {:induction false} NotFetchable(fetch: Fetch, start: nat, seen: seq<Register>, more: seq<Register>)
    requires !Fetchable(fetch, FirstSeenOrder(start, seen), WeightOrder(seen))
    ensures !Fetchable(fetch, FirstSeenOrder(start, seen + more), WeightOrder(seen + more))
  {
    OrdersGrow(start, seen, more);
    if Fetchable(fetch, FirstSeenOrder(start, seen + more), WeightOrder(seen + more)) {
      FetchableShrinks(fetch, FirstSeenOrder(start, seen), WeightOrder(seen), FirstSeenOrder(start, seen + more),
        WeightOrder(seen + more));
    }
  }

  lemma {:induction false} NotFetchableBy(fetch: Fetch, start: nat, before: seq<Register>, rs: seq<Register>, j: nat)
    requires j < |rs|
      && !Fetchable(fetch, FirstSeenOrder(start, before + rs[..j + 1]), WeightOrder(before + rs[..j + 1]))
    ensures !Fetchable(fetch, FirstSeenOrder(start, before + rs), WeightOrder(before + rs))
  {
    NotFetchable(fetch, start, before + rs[..j + 1], rs[j + 1..]);
    assert before + rs[..j + 1] + rs[j + 1..] == before + rs;
  }

  method PlaceRegisters(fetch: Fetch, start: nat, rs: seq<Register>, ghost before: seq<Register>, slots: Slots)
    returns (out: Result<seq<RegisterRef>, Register>, slots': Slots)
    requires Placed(fetch, start, FirstSeenOrder(start, before), WeightOrder(before), slots)
    ensures out.Ok? <==> Fetchable(fetch, FirstSeenOrder(start, before + rs), WeightOrder(before + rs))
    ensures out.Err? ==> out.error in rs && exists k :: fetch(k, out.error).None?
    ensures out.Ok? ==> Placed(fetch, start, FirstSeenOrder(start, before + rs), WeightOrder(before + rs), slots')
    ensures out.Ok? ==> DenoteAll(out.value, rs, start, FirstSeenOrder(start, before + rs), WeightOrder(before + rs))
  {
    slots' := slots;
    var done: seq<RegisterRef> := [];
    ghost var seen, here := before, [];
    for j := 0 to |rs|
      invariant here == rs[..j]
      invariant seen == before + here
      invariant Placed(fetch, start, FirstSeenOrder(start, seen), WeightOrder(seen), slots')
      invariant DenoteAll(done, here, start, FirstSeenOrder(start, seen), WeightOrder(seen))
    {
      var next;
      next, slots' := PlaceNext(fetch, start, rs[j], seen, here, done, slots');
      PrefixSnoc(before, rs, j);
      if next.None? {
        NotFetchableBy(fetch, start, before, rs, j);
        return Err(rs[j]), slots';
      }
      done := next.value;
      seen, here := seen + [rs[j]], here + [rs[j]];
    }
    assert rs[..|rs|] == rs;
    PlacedFetchable(fetch, start, FirstSeenOrder(start, seen), WeightOrder(seen), slots');
    out := Ok(done);
  }

  lemma {:induction false} PlacedFetchable(
      fetch: Fetch, start: nat, inputOrder: seq<Register>, weightOrder: seq<string>, slots: Slots)
    requires Placed(fetch, start, inputOrder, weightOrder, slots)
    ensures Fetchable(fetch, inputOrder, weightOrder)
  {
  }

  lemma {:induction false} OrdersGrow(start: nat, rs: seq<Register>, more: seq<Register>)
    ensures FirstSeenOrder(start, rs) <= FirstSeenOrder(start, rs + more)
    ensures WeightOrder(rs) <= WeightOrder(rs + more)
  {
    if more == [] {
      assert rs + more == rs;
    } else {
      var n := |more| - 1;
      OrdersGrow(start, rs, more[..n]);
      FirstSeenSnoc(start, rs + more[..n], more[n]);
      WeightOrderSnoc(rs + more[..n], more[n]);
      assert rs + more == rs + more[..n] + [more[n]];
    }
  }

  lemma {:induction false} DenotesAllGrow(
      refs: seq<RegisterRef>, rs: seq<Register>, start: nat,
      inputOrder: seq<Register>, weightOrder: seq<string>, moreInputs: seq<Register>, moreWeights: seq<string>)
    requires DenoteAll(refs, rs, start, inputOrder, weightOrder) && inputOrder <= moreInputs
      && weightOrder <= moreWeights
    ensures DenoteAll(refs, rs, start, moreInputs, moreWeights)
  {
    forall j | 0 <= j < |rs| ensures Denotes(refs[j], rs[j], start, moreInputs, moreWeights) {
      assert Denotes(refs[j], rs[j], start, inputOrder, weightOrder);
    }
  }

  /** Growing either order keeps every index already handed out. */
  lemma {:induction false} DenoteAllSnocBoth(
      refs: seq<RegisterRef>, ref: RegisterRef, rs: seq<Register>, r: Register, start: nat,
      inputOrder: seq<Register>, weightOrder: seq<string>, moreInputs: seq<Register>, moreWeights: seq<string>)
    requires DenoteAll(refs, rs, start, inputOrder, weightOrder) && inputOrder <= moreInputs
      && weightOrder <= moreWeights
    requires Denotes(ref, r, start, moreInputs, moreWeights)
    ensures DenoteAll(refs + [ref], rs + [r], start, moreInputs, moreWeights)
  {
    DenotesAllGrow(refs, rs, start, inputOrder, weightOrder, moreInputs, moreWeights);
    forall j | 0 <= j < |rs| + 1
      ensures Denotes((refs + [ref])[j], (rs + [r])[j], start, moreInputs, moreWeights)
    {
    }
  }

  lemma {:induction false} LowersGrow(
      out: seq<AssemblerInstruction>, instrs: seq<CompiledInstruction>, refs: seq<RegisterRef>, start: nat,
      inputOrder: seq<Register>, weightOrder: seq<string>, moreInputs: seq<Register>, moreWeights: seq<string>)
    requires |out| < |instrs|
    requires Lowers(out, instrs[..|out|], start, inputOrder, weightOrder) && inputOrder <= moreInputs
      && weightOrder <= moreWeights
    requires DenoteAll(refs, instrs[|out|].inputs, start, moreInputs, moreWeights)
    ensures Lowers(out + [AssemblerInstruction(instrs[|out|].instruction, refs)], instrs[..|out| + 1], start,
      moreInputs, moreWeights)
  {
    var n := |out|;
    forall k | 0 <= k < n + 1
      ensures LowersInstruction((out + [AssemblerInstruction(instrs[n].instruction, refs)])[k], instrs[..n + 1][k],
        start, moreInputs, moreWeights)
    {
      if k < n {
        assert LowersInstruction(out[k], instrs[..n][k], start, inputOrder, weightOrder);
        DenotesAllGrow(out[k].inputs, instrs[k].inputs, start, inputOrder, weightOrder, moreInputs, moreWeights);
      }
    }
  }

  lemma {:induction false} LowersMore(
      out: seq<AssemblerInstruction>, seen: seq<CompiledInstruction>, instr: CompiledInstruction,
      refs: seq<RegisterRef>, start: nat)
    requires Lowers(out, seen, start, FirstSeenOrder(start, Reads(seen)), WeightOrder(Reads(seen)))
    requires var more := Reads(seen) + instr.inputs;
      DenoteAll(refs, instr.inputs, start, FirstSeenOrder(start, more), WeightOrder(more))
    ensures Reads(seen + [instr]) == Reads(seen) + instr.inputs
    ensures var more := Reads(seen) + instr.inputs;
      Lowers(out + [AssemblerInstruction(instr.instruction, refs)], seen + [instr], start, FirstSeenOrder(start, more),
        WeightOrder(more))
  {
    var more := Reads(seen) + instr.inputs;
    OrdersGrow(start, Reads(seen), instr.inputs);
    var longer := seen + [instr];
    assert longer[..|seen|] == seen && longer[..|seen| + 1] == longer;
    LowersGrow(out, longer, refs, start, FirstSeenOrder(start, Reads(seen)), WeightOrder(Reads(seen)),
      FirstSeenOrder(start, more), WeightOrder(more));
  }

  datatype Loader = Loader(out: seq<AssemblerInstruction>, slots: Slots)

  /** `seen` has been lowered, its slots filled. */
  ghost predicate Assembled(fetch: Fetch, start: nat, seen: seq<CompiledInstruction>, l: Loader) {
    && Placed(fetch, start, FirstSeenOrder(start, Reads(seen)), WeightOrder(Reads(seen)), l.slots)
    && Lowers(l.out, seen, start, FirstSeenOrder(start, Reads(seen)), WeightOrder(Reads(seen)))
  }

  method PlaceInstruction(
      fetch: Fetch, start: nat, ghost seen: seq<CompiledInstruction>, instr: CompiledInstruction, l: Loader)
    returns (r: Result<Loader, Register>)
    requires Assembled(fetch, start, seen, l)
    ensures r.Ok? <==>
      Fetchable(fetch, FirstSeenOrder(start, Reads(seen + [instr])), WeightOrder(Reads(seen + [instr])))
    ensures r.Err? ==> r.error in instr.inputs && exists k :: fetch(k, r.error).None?
    ensures r.Ok? ==> Assembled(fetch, start, seen + [instr], r.value)
  {
    ReadsMore(seen, instr);
    var lowered, slots := PlaceRegisters(fetch, start, instr.inputs, Reads(seen), l.slots);
    if lowered.Err? {
      return Err(lowered.error);
    }
    LowersMore(l.out, seen, instr, lowered.value, start);
    r := Ok(Loader(l.out + [AssemblerInstruction(instr.instruction, lowered.value)], slots));
  }

  lemma {:induction false} ReadsMore(seen: seq<CompiledInstruction>, instr: CompiledInstruction)
    ensures Reads(seen + [instr]) == Reads(seen) + instr.inputs
  {
    assert (seen + [instr])[..|seen|] == seen;
  }

  lemma {:induction false} ReadsGrow(seen: seq<CompiledInstruction>, more: seq<CompiledInstruction>)
    ensures Reads(seen) <= Reads(seen + more)
  {
    if more == [] {
      assert seen + more == seen;
    } else {
      var n := |more| - 1;
      ReadsGrow(seen, more[..n]);
      assert seen + more == seen + more[..n] + [more[n]];
      ReadsMore(seen + more[..n], more[n]);
    }
  }

  lemma {:induction false} NeverFetchable(
      fetch: Fetch, start: nat, seen: seq<CompiledInstruction>, more: seq<CompiledInstruction>)
    requires !Fetchable(fetch, FirstSeenOrder(start, Reads(seen)), WeightOrder(Reads(seen)))
    ensures !Fetchable(fetch, FirstSeenOrder(start, Reads(seen + more)), WeightOrder(Reads(seen + more)))
  {
    ReadsGrow(seen, more);
    var rest := Reads(seen + more)[|Reads(seen)|..];
    assert Reads(seen) + rest == Reads(seen + more);
    NotFetchable(fetch, start, Reads(seen), rest);
  }

  lemma {:induction false} AssembledNone(fetch: Fetch, start: nat)
    ensures Assembled(fetch, start, [], Loader([], Slots(map[], [], [])))
  {
  }

  lemma {:induction false} AssembledAll(fetch: Fetch, start: nat, instrs: seq<CompiledInstruction>, l: Loader)
    requires Assembled(fetch, start, instrs, l)
    ensures Fetchable(fetch, FirstSeenOrder(start, Reads(instrs)), WeightOrder(Reads(instrs)))
    ensures IsFirstSeen(fetch, start, instrs, AssemblerProgram(l.out, l.slots.inputs, l.slots.weights))
  {
  }

  /** The range lowered in first-seen order, with the fetched tensors in its slots. */
  ghost predicate IsFirstSeen(fetch: Fetch, start: nat, instrs: seq<CompiledInstruction>, out: AssemblerProgram) {
    && Lowers(out.instructions, instrs, start, FirstSeenOrder(start, Reads(instrs)), WeightOrder(Reads(instrs)))
    && Fetched(fetch, FirstSeenOrder(start, Reads(instrs)), out.inputValues, WeightOrder(Reads(instrs)),
      out.weightValues)
  }

  /** Lowers a range, giving each external register a slot when it is first read. */
  method LowerFirstSeen(
      fetch: Fetch, start: nat, instrs: seq<CompiledInstruction>) returns (r: Result<AssemblerProgram, Register>)
    ensures r.Ok? <==> Fetchable(fetch, FirstSeenOrder(start, Reads(instrs)), WeightOrder(Reads(instrs)))
    ensures r.Err? ==>
      (exists i :: 0 <= i < |instrs| && r.error in instrs[i].inputs) && exists k :: fetch(k, r.error).None?
    ensures r.Ok? ==> IsFirstSeen(fetch, start, instrs, r.value)
  {
    var l := Loader([], Slots(map[], [], []));
    ghost var seen: seq<CompiledInstruction> := [];
    AssembledNone(fetch, start);
    for k := 0 to |instrs|
      invariant seen == instrs[..k]
      invariant Assembled(fetch, start, seen, l)
    {
      var next := PlaceInstruction(fetch, start, seen, instrs[k], l);
      if next.Err? {
        NeverFetchable(fetch, start, seen + [instrs[k]], instrs[k + 1..]);
        assert seen + [instrs[k]] + instrs[k + 1..] == instrs;
        return Err(next.error);
      }
      seen, l := seen + [instrs[k]], next.value;
    }
    assert instrs[..|instrs|] == instrs;
    AssembledAll(fetch, start, instrs, l);
    r := Ok(AssemblerProgram(l.out, l.slots.inputs, l.slots.weights));
  }

  // ----- lowering from a witness artifact -----

  ghost predicate AllRecorded(artifact: map<Register, Tensor>, start: nat, instrs: seq<CompiledInstruction>) {
    forall k, j :: 0 <= k < |instrs| && 0 <= j < |instrs[k].inputs| && External(start, instrs[k].inputs[j]) ==>
      instrs[k].inputs[j] in artifact
  }

  ghost predicate RecordsEnv(artifact: map<Register, Tensor>, env: Env) {
    forall x :: x in artifact ==> ExternalValue(env, x) == Some(artifact[x])
  }

  function FromArtifact(artifact: map<Register, Tensor>): Fetch {
    (_: nat, r: Register) => Lookup(artifact, r)
  }

  lemma {:induction false} WeightNamesExact(rs: seq<Register>)
    ensures forall name :: name in WeightNames(rs) <==> Register.Weight(name) in rs
  {
    if rs != [] {
      WeightNamesExact(rs[..|rs| - 1]);
      assert rs == rs[..|rs| - 1] + [rs[|rs| - 1]];
    }
  }

  lemma {:induction false} WeightOrderExact(rs: seq<Register>)
    ensures Distinct(WeightOrder(rs))
    ensures forall name :: name in WeightOrder(rs) <==> Register.Weight(name) in rs
  {
    FirstSeenExact(WeightNames(rs));
    WeightNamesExact(rs);
    forall name ensures name in WeightOrder(rs) <==> name in WeightNames(rs) {
      assert name in Elements(WeightOrder(rs)) <==> name in Elements(WeightNames(rs));
    }
  }

  lemma {:induction false} FetchableFromArtifact(
      artifact: map<Register, Tensor>, start: nat, instrs: seq<CompiledInstruction>)
    ensures Fetchable(FromArtifact(artifact), FirstSeenOrder(start, Reads(instrs)), WeightOrder(Reads(instrs)))
      <==> AllRecorded(artifact, start, instrs)
  {
    var order, weights := FirstSeenOrder(start, Reads(instrs)), WeightOrder(Reads(instrs));
    FirstSeenOrderExact(start, instrs);
    WeightOrderExact(Reads(instrs));
    ReadsExact(instrs);
    if Fetchable(FromArtifact(artifact), order, weights) {
      forall k, j | 0 <= k < |instrs| && 0 <= j < |instrs[k].inputs| && External(start, instrs[k].inputs[j])
        ensures instrs[k].inputs[j] in artifact
      {
        var r := instrs[k].inputs[j];
        assert r in instrs[k].inputs;
        if r.Weight? {
          assert r.name in weights;
        } else {
          assert r in ExternalSet(start, instrs) && r in Elements(order);
        }
      }
    }
    if AllRecorded(artifact, start, instrs) {
      forall i | 0 <= i < |order| ensures order[i] in artifact {
        assert order[i] in Elements(order);
      }
      forall i | 0 <= i < |weights| ensures Register.Weight(weights[i]) in artifact {
        var k :| 0 <= k < |instrs| && Register.Weight(weights[i]) in instrs[k].inputs;
      }
    }
  }

  lemma {:induction false} FetchedHolds(
      artifact: map<Register, Tensor>, env: Env, inputOrder: seq<Register>, inputs: seq<Tensor>,
      weightOrder: seq<string>, weights: seq<Tensor>)
    requires RecordsEnv(artifact, env) && Fetched(FromArtifact(artifact), inputOrder, inputs, weightOrder, weights)
    ensures Holds(env, inputOrder, inputs, weightOrder, weights)
  {
    forall k | 0 <= k < |inputOrder| ensures ExternalValue(env, inputOrder[k]) == Some(inputs[k]) {
      assert FromArtifact(artifact)(k, inputOrder[k]) == Some(inputs[k]);
    }
    forall k | 0 <= k < |weightOrder| ensures ExternalValue(env, Register.Weight(weightOrder[k])) == Some(weights[k]) {
      assert FromArtifact(artifact)(k, Register.Weight(weightOrder[k])) == Some(weights[k]);
    }
  }

  /** Rebuilds the shard's assembler program from an artifact's recorded inputs; fails with a register not recorded. */
  method LoadAssemblerProgram(
      artifact: map<Register, Tensor>, ghost env: Env, start: nat, instrs: seq<CompiledInstruction>)
    returns (r: Result<AssemblerProgram, Register>)
    requires RecordsEnv(artifact, env)
    ensures r.Ok? <==> AllRecorded(artifact, start, instrs)
    ensures r.Err? ==> r.error !in artifact
    ensures r.Ok? ==> LoweredRange(r.value, env, start, instrs, FirstSeenOrder(start, Reads(instrs)))
  {
    FetchableFromArtifact(artifact, start, instrs);
    r := LowerFirstSeen(FromArtifact(artifact), start, instrs);
    if r.Ok? {
      FetchedHolds(artifact, env, FirstSeenOrder(start, Reads(instrs)), r.value.inputValues,
        WeightOrder(Reads(instrs)), r.value.weightValues);
    }
  }
}
