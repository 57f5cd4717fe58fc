/** Executing a configured shard on concrete boundary values, register by register. */
module WitnessExecution {
  import opened Prelude
  import opened Program
  import opened Assembler
  import opened Lowering
  import opened Partition
  import opened ShardSemantics
  import opened WitnessCpu

  datatype Limits = Limits(valuesPerTensor: nat, totalInputValues: nat, totalArtifactValues: nat, tensorCount: nat)

  /** A shard as configured: its range, declared boundaries, converted weights and boundary lengths. */
  datatype WitnessShard = WitnessShard(
    start: nat,
    instrs: seq<CompiledInstruction>,
    inputs: set<nat>,
    outputs: set<nat>,
    weights: map<string, Tensor>,
    shapes: map<Register, nat>,
    recordCount: nat,
    limits: Limits)

  datatype WitnessInputs = WitnessInputs(graphInputs: map<string, Tensor>, virtualInputs: map<nat, Tensor>)

  datatype WitnessArtifact = WitnessArtifact(inputs: map<Register, Tensor>, virtuals: map<nat, Tensor>,
    outputs: map<nat, Tensor>)

  datatype ExecutionError =
    | MissingRegister(register: Register)
    | ForwardRegister(instruction: nat, register: Register)
    | InvalidJob
    | Resource
    | Rejected(instruction: nat)

  /** The registers a range reads from outside it, weights included. */
  ghost function ReadFromOutside(start: nat, instrs: seq<CompiledInstruction>): set<Register> {
    set k, j | 0 <= k < |instrs| && 0 <= j < |instrs[k].inputs|
      && External(start, instrs[k].inputs[j]) :: instrs[k].inputs[j]
  }

  ghost function Outside(c: WitnessShard): set<Register> {
    ReadFromOutside(c.start, c.instrs)
  }

  /** What configuring a shard checks. */
  ghost predicate ValidShard(c: WitnessShard) {
    ValidReads(c) && ShapesWithin(c) && CountIs(c, InputRecords(c))
  }

  /** The boundary is exactly what the range reads, and its outputs are inside it. */
  ghost predicate ValidReads(c: WitnessShard) {
    && ReadsBackward(c.start, c.instrs)
    && (forall i :: Register.Virtual(i) in ReadFromOutside(c.start, c.instrs) <==> i in c.inputs)
    && (forall name :: Register.Weight(name) in ReadFromOutside(c.start, c.instrs) <==> name in c.weights)
    && c.shapes.Keys == ExternalSet(c.start, c.instrs)
    && OutputsInside(c)
  }

  predicate OutputsInside(c: WitnessShard) {
    forall i :: i in c.outputs ==> c.start <= i < c.start + |c.instrs|
  }

  predicate CountIs(c: WitnessShard, inputs: nat) {
    c.recordCount == inputs + |c.instrs| + |c.outputs| <= c.limits.tensorCount
  }

  function GraphNames(c: WitnessShard): set<string> {
    set r | r in c.shapes && r.GraphInput? :: r.name
  }

  function InputRecords(c: WitnessShard): nat {
    |c.weights| + |GraphNames(c)| + |c.inputs|
  }

  function Itself(n: nat): nat { n }

  ghost predicate ShapesWithin(c: WitnessShard) {
    && |c.shapes| <= c.limits.tensorCount
    && (forall r :: r in c.shapes ==> c.shapes[r] <= c.limits.valuesPerTensor)
    && SumBy(Itself, c.shapes) <= c.limits.totalInputValues
  }

  function IncomingValues(values: map<nat, Tensor>): map<Register, Tensor> {
    map i | i in values :: Register.Virtual(i) := values[i]
  }

  /** The environment an execution reads from. */
  function EnvOf(c: WitnessShard, supplied: WitnessInputs): Env {
    Env(supplied.graphInputs, map name | name in c.weights ::
      Some(c.weights[name]), IncomingValues(supplied.virtualInputs))
  }

  /** Exactly the external registers are supplied, each with its configured length. */
  ghost predicate SuppliedExactly(c: WitnessShard, supplied: WitnessInputs) {
    && (forall name :: name in supplied.graphInputs <==> GraphInput(name) in c.shapes)
    && (forall i :: i in supplied.virtualInputs <==> Register.Virtual(i) in c.shapes)
    && (forall r :: r in c.shapes ==>
      SuppliedValue(supplied, r).Some? && |SuppliedValue(supplied, r).value| == c.shapes[r])
  }

  function SuppliedValue(supplied: WitnessInputs, r: Register): Option<Tensor> {
    match r
    case GraphInput(name) => Lookup(supplied.graphInputs, name)
    case Virtual(i) => Lookup(supplied.virtualInputs, i)
    case Weight(_) => None
  }

  lemma {:induction false} SuppliedIsExternal(c: WitnessShard, supplied: WitnessInputs, r: Register)
    requires !r.Weight?
    ensures ExternalValue(EnvOf(c, supplied), r) == SuppliedValue(supplied, r)
  {
    if r.Virtual? {
      assert r in IncomingValues(supplied.virtualInputs) <==> r.index in supplied.virtualInputs;
    }
  }

  function ValueCount(t: Tensor): nat { |t| }

  // ----- what an execution records -----

  ghost function RecordedInputs(c: WitnessShard, supplied: WitnessInputs): map<Register, Tensor> {
    map r | r in ReadFromOutside(c.start, c.instrs)
      && ExternalValue(EnvOf(c, supplied), r).Some? :: ExternalValue(EnvOf(c, supplied), r).value
  }

  function VirtualsFrom(range: Range, values: seq<Tensor>): map<nat, Tensor>
    requires range.start + |values| == range.end
  {
    map i: nat | range.start <= i < range.end && Within(range, i) :: values[i - range.start]
  }

  function OutputsFrom(c: WitnessShard, values: seq<Tensor>): map<nat, Tensor> {
    map i | i in c.outputs && c.start <= i < c.start + |values| :: values[i - c.start]
  }

  ghost function ArtifactOf(c: WitnessShard, supplied: WitnessInputs, values: seq<Tensor>): WitnessArtifact {
    WitnessArtifact(RecordedInputs(c, supplied), VirtualsFrom(Range(c.start, c.start + |values|), values),
      OutputsFrom(c, values))
  }

  ghost predicate TensorsWithin(limit: nat, values: seq<Tensor>) {
    forall k :: 0 <= k < |values| ==> |values[k]| <= limit
  }

  ghost predicate WithinLimits(c: WitnessShard, supplied: WitnessInputs, values: seq<Tensor>) {
    && TensorsWithin(c.limits.valuesPerTensor, values)
    && RecordsWithin(c, RecordedInputs(c, supplied), values)
  }

  ghost predicate RecordsWithin(c: WitnessShard, recorded: map<Register, Tensor>, values: seq<Tensor>) {
    SumBy(ValueCount, recorded) + SumSeq(ValueCount, values) + SumBy(ValueCount, OutputsFrom(c, values))
      <= c.limits.totalArtifactValues
  }

  // ----- one execution -----

  /** An unread register's value, with every way the lookup can be refused. */
  function ResolveExternal(
      c: WitnessShard, supplied: WitnessInputs, instruction: nat, r: Register): Result<Tensor, ExecutionError>
  {
    match r
    case GraphInput(name) => if name in supplied.graphInputs then Ok(supplied.graphInputs[name])
      else Err(MissingRegister(r))
    case Weight(name) => if name in c.weights then Ok(c.weights[name]) else Err(MissingRegister(r))
    case Virtual(i) =>
      if i >= instruction then Err(ForwardRegister(instruction, r))
      else if i < c.start && i in c.inputs && i in supplied.virtualInputs then Ok(supplied.virtualInputs[i])
      else Err(MissingRegister(r))
  }

  /** Reading `r` in instruction `k` takes no refusing branch and gives what the environment holds. */
  ghost predicate Resolvable(
      c: WitnessShard, supplied: WitnessInputs, env: Env, outside: set<Register>, k: nat, r: Register)
  {
    if External(c.start, r) then
      && ResolveExternal(c, supplied, c.start + k, r).Ok?
      && ExternalValue(env, r) == Some(ResolveExternal(c, supplied, c.start + k, r).value)
      && r in outside
    else r.index < c.start + k
  }

  /** No read of the range takes a refusing branch. */
  ghost predicate ReadsResolve(c: WitnessShard, supplied: WitnessInputs, env: Env, outside: set<Register>) {
    forall k, j :: 0 <= k < |c.instrs| && 0 <= j < |c.instrs[k].inputs| ==>
      Resolvable(c, supplied, env, outside, k, c.instrs[k].inputs[j])
  }

  /** A valid shard on exact inputs never takes a refusing branch. */
  lemma {:induction false} ExternalResolves(c: WitnessShard, supplied: WitnessInputs)
    requires ValidReads(c) && SuppliedExactly(c, supplied)
    ensures ReadsResolve(c, supplied, EnvOf(c, supplied), Outside(c))
  {
    forall k, j | 0 <= k < |c.instrs| && 0 <= j < |c.instrs[k].inputs|
      ensures Resolvable(c, supplied, EnvOf(c, supplied), Outside(c), k, c.instrs[k].inputs[j])
    {
      var r := c.instrs[k].inputs[j];
      if External(c.start, r) {
        assert r in ReadFromOutside(c.start, c.instrs);
        if !r.Weight? {
          assert r in ExternalSet(c.start, c.instrs);
          assert r in c.shapes;
          SuppliedIsExternal(c, supplied, r);
        }
      }
    }
  }

  /** The registers known after `done`: the values computed so far, and external reads, none of them wrong. */
  ghost predicate Cached(
      start: nat, env: Env, outside: set<Register>, done: seq<Tensor>, registers: map<Register, Tensor>,
      recorded: map<Register, Tensor>)
  {
    && (forall r :: r in registers ==> RegisterValue(env, start, done, r) == Some(registers[r]))
    && (forall i :: start <= i < start + |done| ==> Register.Virtual(i) in registers)
    && (forall r :: r in recorded <==> r in registers && External(start, r))
    && (forall r :: r in recorded ==> r in outside)
    && (forall r :: r in recorded ==> recorded[r] == registers[r])
  }

  lemma {:induction false} CachedRead(
      c: WitnessShard, supplied: WitnessInputs, env: Env, outside: set<Register>, k: nat, done: seq<Tensor>,
      registers: map<Register, Tensor>,
      recorded: map<Register, Tensor>, r: Register)
    requires Cached(c.start, env, outside, done, registers, recorded) && |done| == k
      && Resolvable(c, supplied, env, outside, k, r) && r !in registers
    ensures External(c.start, r) && ResolveExternal(c, supplied, c.start + k, r).Ok?
    ensures var v := ResolveExternal(c, supplied, c.start + k, r).value;
      Cached(c.start, env, outside, done, registers[r := v], recorded[r := v])
  {
    assert r.Virtual? ==> r == Register.Virtual(r.index);
  }

  /** Puts one operand of instruction `k` into the register map, from outside if it is not there. */
  method ReadRegister(
      c: WitnessShard, supplied: WitnessInputs, ghost env: Env, ghost outside: set<Register>, k: nat, r: Register,
      ghost done: seq<Tensor>, registers: map<Register, Tensor>,
      recorded: map<Register, Tensor>)
    returns (registers': map<Register, Tensor>, recorded': map<Register, Tensor>)
    requires Cached(c.start, env, outside, done, registers, recorded) && |done| == k
      && Resolvable(c, supplied, env, outside, k, r)
    ensures Cached(c.start, env, outside, done, registers', recorded')
    ensures r in registers' && forall x :: x in registers ==> x in registers'
  {
    if r in registers {
      return registers, recorded;
    }
    CachedRead(c, supplied, env, outside, k, done, registers, recorded, r);
    var values := ResolveExternal(c, supplied, c.start + k, r).value;
    registers', recorded' := registers[r := values], recorded[r := values];
  }

  /** Makes sure every operand of an instruction is in the register map. */
  method ReadRegisters(
      c: WitnessShard, supplied: WitnessInputs, ghost env: Env, ghost outside: set<Register>, k: nat,
      rs: seq<Register>, ghost done: seq<Tensor>, registers: map<Register, Tensor>,
      recorded: map<Register, Tensor>)
    returns (registers': map<Register, Tensor>, recorded': map<Register, Tensor>)
    requires Cached(c.start, env, outside, done, registers, recorded) && |done| == k
    requires forall j :: 0 <= j < |rs| ==> Resolvable(c, supplied, env, outside, k, rs[j])
    ensures Cached(c.start, env, outside, done, registers', recorded')
    ensures AllIn(rs, registers')
    ensures forall x :: x in registers ==> x in registers'
  {
    registers', recorded' := registers, recorded;
    for j := 0 to |rs|
      invariant Cached(c.start, env, outside, done, registers', recorded')
      invariant AllIn(rs[..j], registers')
      invariant forall x :: x in registers ==> x in registers'
    {
      registers', recorded' := ReadRegister(c, supplied, env, outside, k, rs[j], done, registers', recorded');
    }
  }

  function Gather(registers: map<Register, Tensor>, rs: seq<Register>): (values: seq<Tensor>)
    requires AllIn(rs, registers)
    ensures |values| == |rs| && forall j :: 0 <= j < |rs| ==> values[j] == registers[rs[j]]
  {
    seq(|rs|, j requires 0 <= j < |rs| => registers[rs[j]])
  }

  /** The cached operands are the operands the instruction means to read. */
  lemma {:induction false} CachedOperands(
      start: nat, env: Env, outside: set<Register>, done: seq<Tensor>, registers: map<Register, Tensor>,
      recorded: map<Register, Tensor>, rs: seq<Register>)
    requires Cached(start, env, outside, done, registers, recorded)
    requires AllIn(rs, registers)
    ensures Operands(env, start, done, rs) == Some(Gather(registers, rs))
  {
    var values := RegisterValues(env, start, done, rs);
    var gathered := Gather(registers, rs);
    forall j | 0 <= j < |rs| ensures values[j] == Some(registers[rs[j]]) {
      assert RegisterValue(env, start, done, rs[j]) == Some(registers[rs[j]]);
    }
    assert Collect(values).value == gathered;
  }

  lemma {:induction false} CachedMore(
      start: nat, env: Env, outside: set<Register>, done: seq<Tensor>, registers: map<Register, Tensor>,
      recorded: map<Register, Tensor>, v: Tensor)
    requires Cached(start, env, outside, done, registers, recorded)
    ensures Cached(start, env, outside, done + [v], registers[Register.Virtual(start + |done|) := v], recorded)
  {
    var r := Register.Virtual(start + |done|);
    var more, after := done + [v], registers[r := v];
    forall x | x in after ensures RegisterValue(env, start, more, x) == Some(after[x]) {
      if x != r { assert RegisterValue(env, start, done, x) == Some(registers[x]); }
    }
    assert r !in recorded;
  }

  ghost predicate Progress(
      sem: Semantics, c: WitnessShard, env: Env, outside: set<Register>, done: seq<Tensor>,
      registers: map<Register, Tensor>,
      recorded: map<Register, Tensor>)
  {
    && |done| <= |c.instrs|
    && Eval(sem, env, c.start, c.instrs[..|done|]) == Some(done)
    && Cached(c.start, env, outside, done, registers, recorded)
    && (forall k :: 0 <= k < |done| ==> AllIn(c.instrs[k].inputs, registers))
  }

  predicate AllIn(rs: seq<Register>, registers: map<Register, Tensor>) {
    forall j :: 0 <= j < |rs| ==> rs[j] in registers
  }

  lemma {:induction false} ProgressMore(
      sem: Semantics, c: WitnessShard, env: Env, outside: set<Register>, done: seq<Tensor>,
      registers: map<Register, Tensor>,
      recorded: map<Register, Tensor>, v: Tensor)
    requires |done| < |c.instrs| && Eval(sem, env, c.start, c.instrs[..|done|]) == Some(done)
    requires Cached(c.start, env, outside, done, registers, recorded)
    requires forall k :: 0 <= k <= |done| ==> AllIn(c.instrs[k].inputs, registers)
    requires Step(sem, env, c.start, done, c.instrs[|done|]) == Some(v)
    ensures Progress(sem, c, env, outside, done + [v], registers[Register.Virtual(c.start + |done|) := v], recorded)
  {
    CachedMore(c.start, env, outside, done, registers, recorded, v);
    assert c.instrs[..|done| + 1][..|done|] == c.instrs[..|done|];
  }

  /** Executes instruction `k` on the cached registers. */
  method ExecuteInstruction(
      sem: Semantics, c: WitnessShard, supplied: WitnessInputs, ghost env: Env, ghost outside: set<Register>, k: nat,
      ghost done: seq<Tensor>, registers: map<Register, Tensor>, recorded: map<Register, Tensor>)
    returns (out: Option<Tensor>, registers': map<Register, Tensor>, recorded': map<Register, Tensor>)
    requires ReadsResolve(c, supplied, env, outside) && |done| == k < |c.instrs|
    requires Progress(sem, c, env, outside, done, registers, recorded)
    ensures out == Step(sem, env, c.start, done, c.instrs[k])
    ensures out.Some? ==> Progress(sem, c, env, outside, done + [out.value], registers', recorded')
  {
    registers', recorded' := ReadRegisters(c, supplied, env, outside, k, c.instrs[k].inputs, done, registers, recorded);
    CachedOperands(c.start, env, outside, done, registers', recorded', c.instrs[k].inputs);
    out := sem(c.instrs[k].instruction, Gather(registers', c.instrs[k].inputs));
    if out.Some? {
      ProgressMore(sem, c, env, outside, done, registers', recorded', out.value);
      registers' := registers'[Register.Virtual(c.start + k) := out.value];
    }
  }

  // ----- the whole execution -----

  ghost predicate NotSupplied(c: WitnessShard, supplied: WitnessInputs, r: Register) {
    r in c.shapes && SuppliedValue(supplied, r).None?
  }

  /** The key sets compared are the configured boundary. */
  lemma {:induction false} KeysMatch(c: WitnessShard, supplied: WitnessInputs, graph: set<string>, virtuals: set<nat>)
    requires forall r :: r in c.shapes ==> !r.Weight?
    requires graph == (set r | r in c.shapes && r.GraphInput? :: r.name)
      && virtuals == (set r | r in c.shapes && r.Virtual? :: r.index)
    ensures supplied.graphInputs.Keys == graph <==> forall name :: name in supplied.graphInputs <==>
      GraphInput(name) in c.shapes
    ensures supplied.virtualInputs.Keys == virtuals <==> forall i :: i in supplied.virtualInputs <==>
      Register.Virtual(i) in c.shapes
    ensures supplied.graphInputs.Keys == graph && supplied.virtualInputs.Keys == virtuals ==>
      forall r :: r in c.shapes ==> SuppliedValue(supplied, r).Some?
  {
    forall name ensures name in graph <==> GraphInput(name) in c.shapes {}
    forall i ensures i in virtuals <==> Register.Virtual(i) in c.shapes {}
  }

  method FirstMissing(
      c: WitnessShard, supplied: WitnessInputs, graph: set<string>, virtuals: set<nat>) returns (r: Option<Register>)
    requires graph == (set r | r in c.shapes && r.GraphInput? :: r.name)
      && virtuals == (set r | r in c.shapes && r.Virtual? :: r.index)
    ensures r.Some? ==> NotSupplied(c, supplied, r.value)
    ensures r.None? ==> graph <= supplied.graphInputs.Keys && virtuals <= supplied.virtualInputs.Keys
  {
    var missingGraph := graph - supplied.graphInputs.Keys;
    if missingGraph != {} {
      var name :| name in missingGraph;
      return Some(GraphInput(name));
    }
    var missingVirtual := virtuals - supplied.virtualInputs.Keys;
    if missingVirtual != {} {
      var i :| i in missingVirtual;
      return Some(Register.Virtual(i));
    }
    forall name | name in graph ensures name in supplied.graphInputs { assert name !in missingGraph; }
    forall i | i in virtuals ensures i in supplied.virtualInputs { assert i !in missingVirtual; }
    r := None;
  }

  function SuppliedTensors(c: WitnessShard, supplied: WitnessInputs): map<Register, Tensor> {
    map r | r in c.shapes && SuppliedValue(supplied, r).Some? :: SuppliedValue(supplied, r).value
  }

  lemma {:induction false} SuppliedWithin(c: WitnessShard, supplied: WitnessInputs)
    requires SuppliedExactly(c, supplied)
    ensures var tensors := SuppliedTensors(c, supplied);
      && |tensors| == |c.shapes|
      && SumBy(ValueCount, tensors) == SumBy(Itself, c.shapes)
      && forall r :: r in tensors ==> r in c.shapes && |tensors[r]| == c.shapes[r]
  {
    var tensors := SuppliedTensors(c, supplied);
    assert tensors.Keys == c.shapes.Keys;
    SameSums(ValueCount, tensors, Itself, c.shapes);
    assert |tensors| == |tensors.Keys| == |c.shapes.Keys| == |c.shapes|;
  }

  /** The size limits on what is supplied, which the configured lengths already meet. */
  method CheckSuppliedSizes(c: WitnessShard, supplied: WitnessInputs) returns (ok: bool)
    requires SuppliedExactly(c, supplied) && ShapesWithin(c)
    ensures ok
  {
    SuppliedWithin(c, supplied);
    var tensors := SuppliedTensors(c, supplied);
    var total := SumValues(ValueCount, tensors);
    ok := |tensors| <= c.limits.tensorCount && total <= c.limits.totalInputValues
      && forall r :: r in tensors ==> |tensors[r]| <= c.limits.valuesPerTensor;
  }

  /** Missing registers first, then extraneous ones, then lengths, then the limits. */
  method ValidateSuppliedInputs(c: WitnessShard, supplied: WitnessInputs) returns (e: Option<ExecutionError>)
    requires ShapesWithin(c) && forall r :: r in c.shapes ==> !r.Weight?
    ensures e.None? <==> SuppliedExactly(c, supplied)
    ensures e.Some? ==>
      e.value == InvalidJob || (e.value.MissingRegister? && NotSupplied(c, supplied, e.value.register))
  {
    var requiredGraph := set r | r in c.shapes && r.GraphInput? :: r.name;
    var requiredVirtual := set r | r in c.shapes && r.Virtual? :: r.index;
    KeysMatch(c, supplied, requiredGraph, requiredVirtual);
    var missing := FirstMissing(c, supplied, requiredGraph, requiredVirtual);
    if missing.Some? {
      return Some(MissingRegister(missing.value));
    }
    if supplied.graphInputs.Keys != requiredGraph || supplied.virtualInputs.Keys != requiredVirtual {
      return Some(InvalidJob);
    }
    if exists r :: r in c.shapes && |SuppliedValue(supplied, r).value| != c.shapes[r] {
      return Some(InvalidJob);
    }
    var sized := CheckSuppliedSizes(c, supplied);
    e := if sized then None else Some(Resource);
  }

  lemma {:induction false} EvalPrefix(sem: Semantics, env: Env, start: nat, instrs: seq<CompiledInstruction>, n: nat)
    requires n <= |instrs| && Eval(sem, env, start, instrs).Some?
    ensures Eval(sem, env, start, instrs[..n]) == Some(Eval(sem, env, start, instrs).value[..n])
    decreases |instrs| - n
  {
    if n == |instrs| {
      assert instrs[..n] == instrs && Eval(sem, env, start, instrs).value[..n] == Eval(sem, env, start, instrs).value;
    } else {
      EvalPrefix(sem, env, start, instrs, n + 1);
      var values := Eval(sem, env, start, instrs).value;
      assert instrs[..n + 1][..n] == instrs[..n] && values[..n + 1][..n] == values[..n];
    }
  }

  /** The values of a run, as long as no tensor and no total goes past a limit. */
  ghost predicate Generates(sem: Semantics, c: WitnessShard, env: Env, values: seq<Tensor>) {
    && Eval(sem, env, c.start, c.instrs) == Some(values)
    && TensorsWithin(c.limits.valuesPerTensor, values)
    && SumSeq(ValueCount, values) <= c.limits.totalArtifactValues
  }

  /** A run that goes past a limit early cannot end within the limits. */
  lemma {:induction false} OverLimitStays(sem: Semantics, c: WitnessShard, env: Env, done: seq<Tensor>)
    requires |done| <= |c.instrs| && Eval(sem, env, c.start, c.instrs[..|done|]) == Some(done)
    requires SumSeq(ValueCount, done) > c.limits.totalArtifactValues || !TensorsWithin(c.limits.valuesPerTensor, done)
    ensures forall values :: !Generates(sem, c, env, values)
  {
    forall values | Generates(sem, c, env, values) ensures false {
      EvalPrefix(sem, env, c.start, c.instrs, |done|);
      SumPrefix(ValueCount, values, |done|);
    }
  }

  lemma {:induction false} FailureIsRejection(sem: Semantics, c: WitnessShard, env: Env, done: seq<Tensor>)
    requires |done| < |c.instrs| && Eval(sem, env, c.start, c.instrs[..|done|]) == Some(done)
    requires Step(sem, env, c.start, done, c.instrs[|done|]).None?
    ensures Eval(sem, env, c.start, c.instrs).None?
  {
    assert c.instrs[..|done| + 1][..|done|] == c.instrs[..|done|];
    EvalFailurePersists(sem, env, c.start, c.instrs, |done| + 1);
  }

  /** Why the instruction loop stopped early. */
  ghost predicate Stopped(sem: Semantics, c: WitnessShard, env: Env, e: ExecutionError) {
    && (forall values :: !Generates(sem, c, env, values))
    && (e == Resource || (e.Rejected? && Eval(sem, env, c.start, c.instrs).None?))
  }

  /** One instruction, refused when it is rejected or goes past a limit. */
  method RunOne(
      sem: Semantics, c: WitnessShard, supplied: WitnessInputs, ghost env: Env, ghost outside: set<Register>,
      ghost done: seq<Tensor>,
      k: nat, generated: nat, registers: map<Register, Tensor>, recorded: map<Register, Tensor>)
    returns (out: Result<Tensor, ExecutionError>, registers': map<Register, Tensor>, recorded': map<Register, Tensor>)
    requires ReadsResolve(c, supplied, env, outside) && |done| == k < |c.instrs|
      && generated == SumSeq(ValueCount, done)
    requires Progress(sem, c, env, outside, done, registers, recorded) && TensorsWithin(c.limits.valuesPerTensor, done)
    ensures out.Ok? ==> Progress(sem, c, env, outside, done + [out.value], registers', recorded')
    ensures out.Ok? ==>
      TensorsWithin(c.limits.valuesPerTensor, done + [out.value])
      && generated + |out.value| <= c.limits.totalArtifactValues
    ensures out.Err? ==> Stopped(sem, c, env, out.error)
  {
    var value;
    value, registers', recorded' := ExecuteInstruction(sem, c, supplied, env, outside, k, done, registers, recorded);
    if value.None? {
      FailureIsRejection(sem, c, env, done);
      return Err(Rejected(c.start + k)), registers', recorded';
    }
    SumSnoc(ValueCount, done, value.value);
    ghost var more := done + [value.value];
    if |value.value| > c.limits.valuesPerTensor || generated + |value.value| > c.limits.totalArtifactValues {
      assert |more[k]| == |value.value|;
      OverLimitStays(sem, c, env, more);
      return Err(Resource), registers', recorded';
    }
    out := Ok(value.value);
  }

  method RunInstructionLoop(
      sem: Semantics, c: WitnessShard, supplied: WitnessInputs, ghost env: Env, ghost outside: set<Register>)
    returns (e: Option<ExecutionError>, done: seq<Tensor>, recorded: map<Register, Tensor>)
    requires ReadsResolve(c, supplied, env, outside)
    ensures e.Some? ==> Stopped(sem, c, env, e.value)
    ensures e.None? ==> Generates(sem, c, env, done)
    ensures e.None? ==>
      exists registers :: |done| == |c.instrs| && Progress(sem, c, env, outside, done, registers, recorded)
  {
    var registers: map<Register, Tensor> := map[];
    var generated := 0;
    done, recorded := [], map[];
    for k := 0 to |c.instrs|
      invariant |done| == k && generated == SumSeq(ValueCount, done) <= c.limits.totalArtifactValues
      invariant Progress(sem, c, env, outside, done, registers, recorded)
      invariant TensorsWithin(c.limits.valuesPerTensor, done)
    {
      var out;
      out, registers, recorded := RunOne(sem, c, supplied, env, outside, done, k, generated, registers, recorded);
      if out.Err? {
        return Some(out.error), done, recorded;
      }
      SumSnoc(ValueCount, done, out.value);
      generated := generated + |out.value|;
      done := done + [out.value];
    }
    assert c.instrs[..|done|] == c.instrs;
    e := None;
  }

  lemma {:induction false} RecordedIsExact(
      sem: Semantics, c: WitnessShard, supplied: WitnessInputs, done: seq<Tensor>, registers: map<Register, Tensor>,
      recorded: map<Register, Tensor>)
    requires Progress(sem, c, EnvOf(c, supplied), Outside(c), done, registers, recorded) && |done| == |c.instrs|
    ensures recorded == RecordedInputs(c, supplied)
  {
    forall r | r in ReadFromOutside(c.start, c.instrs) ensures r in recorded {
      var k, j :| 0 <= k < |c.instrs| && 0 <= j < |c.instrs[k].inputs| && External(c.start, c.instrs[k].inputs[j])
        && c.instrs[k].inputs[j] == r;
      assert AllIn(c.instrs[k].inputs, registers);
    }
  }

  /** Exactly when an execution succeeds. */
  ghost predicate Accepted(sem: Semantics, c: WitnessShard, supplied: WitnessInputs) {
    && SuppliedExactly(c, supplied)
    && Eval(sem, EnvOf(c, supplied), c.start, c.instrs).Some?
    && WithinLimits(c, supplied, Eval(sem, EnvOf(c, supplied), c.start, c.instrs).value)
  }

  function WeightRegister(name: string): Register { Register.Weight(name) }
  function GraphRegister(name: string): Register { GraphInput(name) }
  function VirtualRegister(i: nat): Register { Register.Virtual(i) }

  predicate Among(weights: set<string>, graph: set<string>, virtuals: set<nat>, r: Register) {
    match r
    case Weight(name) => name in weights
    case GraphInput(name) => name in graph
    case Virtual(i) => i in virtuals
  }

  lemma {:induction false} OutsideKinds(c: WitnessShard, r: Register)
    requires ValidReads(c)
    ensures r in Outside(c) <==> Among(c.weights.Keys, GraphNames(c), c.inputs, r)
  {
    if r.GraphInput? {
      assert r in ExternalSet(c.start, c.instrs) <==> r in Outside(c);
      assert r in c.shapes <==> r.name in GraphNames(c);
    }
  }

  lemma {:induction false} SizeOfUnion(a: set<Register>, b: set<Register>, d: set<Register>)
    requires a !! b && a !! d && b !! d
    ensures |a + b + d| == |a| + |b| + |d|
  {
    assert a + b + d == (a + b) + d;
    assert |(a + b) + d| == |a + b| + |d|;
  }

  /** A set of registers has as many elements as there are names and indices of each kind. */
  lemma {:induction false} KindsSize(
      registers: set<Register>, weights: set<string>, graph: set<string>, virtuals: set<nat>)
    requires forall r :: r in registers <==> Among(weights, graph, virtuals, r)
    ensures |registers| == |weights| + |graph| + |virtuals|
  {
    var a, b, d := Image(weights, WeightRegister), Image(graph, GraphRegister), Image(virtuals, VirtualRegister);
    ImageSize(weights, WeightRegister);
    ImageSize(graph, GraphRegister);
    ImageSize(virtuals, VirtualRegister);
    forall r ensures r in registers <==> r in a + b + d {
      match r
      case Weight(name) => assert r == WeightRegister(name);
      case GraphInput(name) => assert r == GraphRegister(name);
      case Virtual(i) => assert r == VirtualRegister(i);
    }
    assert registers == a + b + d;
    SizeOfUnion(a, b, d);
  }

  lemma {:induction false} OutsideSize(c: WitnessShard)
    requires ValidReads(c)
    ensures |Outside(c)| == InputRecords(c)
  {
    forall r ensures r in Outside(c) <==> Among(c.weights.Keys, GraphNames(c), c.inputs, r) {
      OutsideKinds(c, r);
    }
    KindsSize(Outside(c), c.weights.Keys, GraphNames(c), c.inputs);
    assert |c.weights| == |c.weights.Keys|;
  }

  lemma {:induction false} RecordedSize(c: WitnessShard, supplied: WitnessInputs)
    requires ValidReads(c) && SuppliedExactly(c, supplied)
    ensures |RecordedInputs(c, supplied)| == InputRecords(c)
  {
    OutsideSize(c);
    ExternalResolves(c, supplied);
    var recorded := RecordedInputs(c, supplied);
    forall r | r in Outside(c) ensures r in recorded {
      var k, j :| 0 <= k < |c.instrs| && 0 <= j < |c.instrs[k].inputs|
        && External(c.start, c.instrs[k].inputs[j]) && c.instrs[k].inputs[j] == r;
      assert Resolvable(c, supplied, EnvOf(c, supplied), Outside(c), k, r);
    }
    assert recorded.Keys == Outside(c);
    assert |recorded| == |recorded.Keys|;
  }

  lemma {:induction false} VirtualsSize(start: nat, values: seq<Tensor>)
    ensures |VirtualsFrom(Range(start, start + |values|), values)| == |values|
  {
    var virtuals := VirtualsFrom(Range(start, start + |values|), values);
    IntervalSize(start, start + |values|);
    assert virtuals.Keys == Interval(start, start + |values|);
    assert |virtuals| == |virtuals.Keys|;
  }

  lemma {:induction false} OutputsSize(c: WitnessShard, values: seq<Tensor>)
    requires |values| == |c.instrs| && OutputsInside(c)
    ensures |OutputsFrom(c, values)| == |c.outputs|
  {
    var outputs := OutputsFrom(c, values);
    assert outputs.Keys == c.outputs && |outputs| == |outputs.Keys|;
  }

  /** The last resource check, over every value the artifact holds. */
  method ValuesFit(c: WitnessShard, values: seq<Tensor>, recorded: map<Register, Tensor>) returns (fits: bool)
    ensures fits <==> RecordsWithin(c, recorded, values)
  {
    var inputCount := SumValues(ValueCount, recorded);
    var outputCount := SumValues(ValueCount, OutputsFrom(c, values));
    fits := inputCount + SumSeq(ValueCount, values) + outputCount <= c.limits.totalArtifactValues;
  }

  /** The artifact must hold as many records as were counted when the shard was configured. */
  method CheckRecords(c: WitnessShard, inputs: nat, virtuals: nat, outputs: nat)
    returns (agree: bool, error: ExecutionError)
    requires CountIs(c, inputs) && virtuals == |c.instrs| && outputs == |c.outputs|
    ensures agree
  {
    var records := inputs + virtuals + outputs;
    error := if records > c.limits.tensorCount then Resource else InvalidJob;
    agree := records <= c.limits.tensorCount && records == c.recordCount;
  }

  /** The artifact, refused if it does not hold the configured number of records. */
  method Assemble(c: WitnessShard, values: seq<Tensor>, recorded: map<Register, Tensor>)
    returns (r: Result<WitnessArtifact, ExecutionError>)
    requires CountIs(c, |recorded|) && OutputsInside(c) && |values| == |c.instrs|
    ensures r == Ok(WitnessArtifact(
      recorded, VirtualsFrom(Range(c.start, c.start + |values|), values), OutputsFrom(c, values)))
  {
    var virtuals, outputs := VirtualsFrom(Range(c.start, c.start + |values|), values), OutputsFrom(c, values);
    VirtualsSize(c.start, values);
    OutputsSize(c, values);
    var agree, error := CheckRecords(c, |recorded|, |virtuals|, |outputs|);
    r := if agree then Ok(WitnessArtifact(recorded, virtuals, outputs)) else Err(error);
  }

  method AssembleRecorded(
      c: WitnessShard, supplied: WitnessInputs, values: seq<Tensor>, recorded: map<Register, Tensor>)
    returns (r: Result<WitnessArtifact, ExecutionError>)
    requires ValidReads(c) && CountIs(c, InputRecords(c)) && SuppliedExactly(c, supplied) && |values| == |c.instrs|
    requires recorded == RecordedInputs(c, supplied)
    ensures r == Ok(ArtifactOf(c, supplied, values))
  {
    RecordedSize(c, supplied);
    r := Assemble(c, values, recorded);
  }

  /** The instruction loop, and what it has recorded when it completes. */
  method RunShard(sem: Semantics, c: WitnessShard, supplied: WitnessInputs)
    returns (e: Option<ExecutionError>, values: seq<Tensor>, recorded: map<Register, Tensor>)
    requires ValidReads(c) && SuppliedExactly(c, supplied)
    ensures e.Some? ==> Stopped(sem, c, EnvOf(c, supplied), e.value)
    ensures e.None? ==> Generates(sem, c, EnvOf(c, supplied), values) && |values| == |c.instrs|
    ensures e.None? ==> recorded == RecordedInputs(c, supplied)
  {
    ExternalResolves(c, supplied);
    ghost var env := EnvOf(c, supplied);
    e, values, recorded := RunInstructionLoop(sem, c, supplied, env, Outside(c));
    if e.None? {
      ghost var registers :| Progress(sem, c, env, Outside(c), values, registers, recorded);
      RecordedIsExact(sem, c, supplied, values, registers, recorded);
    }
  }

  lemma {:induction false} ShapesAreExternal(c: WitnessShard)
    requires ValidReads(c)
    ensures forall r :: r in c.shapes ==> !r.Weight?
  {
    forall r | r in c.shapes ensures !r.Weight? {
      assert r in ExternalSet(c.start, c.instrs);
    }
  }

  /** What the last resource check decides is whether the execution is accepted. */
  lemma {:induction false} FitsIsAccepted(sem: Semantics, c: WitnessShard, supplied: WitnessInputs, values: seq<Tensor>)
    requires SuppliedExactly(c, supplied) && Generates(sem, c, EnvOf(c, supplied), values)
    ensures Accepted(sem, c, supplied) <==> RecordsWithin(c, RecordedInputs(c, supplied), values)
    ensures Eval(sem, EnvOf(c, supplied), c.start, c.instrs) == Some(values)
  {
  }

  /** Executes a configured shard: on success the artifact records exactly the range's inputs, values and outputs. */
  method Execute(sem: Semantics, c: WitnessShard, supplied: WitnessInputs)
    returns (r: Result<WitnessArtifact, ExecutionError>)
    requires ValidShard(c)
    ensures r.Ok? <==> Accepted(sem, c, supplied)
    ensures r.Ok? ==> r.value == ArtifactOf(c, supplied, Eval(sem, EnvOf(c, supplied), c.start, c.instrs).value)
    ensures r.Err? && SuppliedExactly(c, supplied) ==>
      r.error == Resource || (r.error.Rejected? && Eval(sem, EnvOf(c, supplied), c.start, c.instrs).None?)
  {
    ShapesAreExternal(c);
    var refused := ValidateSuppliedInputs(c, supplied);
    if refused.Some? {
      return Err(refused.value);
    }
    var failed, values, recorded := RunShard(sem, c, supplied);
    if failed.Some? {
      StoppedIsNotAccepted(sem, c, supplied, failed.value);
      return Err(failed.value);
    }
    FitsIsAccepted(sem, c, supplied, values);
    var fits := ValuesFit(c, values, recorded);
    if !fits {
      return Err(Resource);
    }
    r := AssembleRecorded(c, supplied, values, recorded);
  }

  lemma {:induction false} StoppedIsNotAccepted(
      sem: Semantics, c: WitnessShard, supplied: WitnessInputs, e: ExecutionError)
    requires Stopped(sem, c, EnvOf(c, supplied), e)
    ensures !Accepted(sem, c, supplied)
  {
    AcceptedGenerates(sem, c, supplied);
  }

  lemma {:induction false} AcceptedGenerates(sem: Semantics, c: WitnessShard, supplied: WitnessInputs)
    ensures Accepted(sem, c, supplied) ==>
      exists values :: Eval(sem, EnvOf(c, supplied), c.start, c.instrs) == Some(values)
        && Generates(sem, c, EnvOf(c, supplied), values)
  {
    var outcome := Eval(sem, EnvOf(c, supplied), c.start, c.instrs);
    if Accepted(sem, c, supplied) {
      assert Generates(sem, c, EnvOf(c, supplied), outcome.value);
    }
  }

  // ----- agreement with the lowered program -----

  lemma {:induction false} RecordedAgree(c: WitnessShard, supplied: WitnessInputs)
    requires ValidShard(c) && SuppliedExactly(c, supplied)
    ensures RecordsEnv(RecordedInputs(c, supplied), EnvOf(c, supplied))
    ensures AllRecorded(RecordedInputs(c, supplied), c.start, c.instrs)
  {
    ExternalResolves(c, supplied);
    forall k, j | 0 <= k < |c.instrs| && 0 <= j < |c.instrs[k].inputs| && External(c.start, c.instrs[k].inputs[j])
      ensures c.instrs[k].inputs[j] in RecordedInputs(c, supplied)
    {
      var r := c.instrs[k].inputs[j];
      assert r in ReadFromOutside(c.start, c.instrs);
      assert Resolvable(c, supplied, EnvOf(c, supplied), Outside(c), k, r);
    }
  }

  /** Executing, recording and rebuilding never fails: every register the rebuilt program needs was recorded. */
  method ExecuteAndReload(
      sem: Semantics, c: WitnessShard, supplied: WitnessInputs)
    returns (r: Result<(WitnessArtifact, AssemblerProgram), ExecutionError>)
    requires ValidShard(c)
    ensures r.Ok? <==> Accepted(sem, c, supplied)
    ensures r.Ok? ==> Run(sem, r.value.1) == Eval(sem, EnvOf(c, supplied), c.start, c.instrs)
    ensures r.Ok? ==>
      LoweredRange(r.value.1, EnvOf(c, supplied), c.start, c.instrs, FirstSeenOrder(c.start, Reads(c.instrs)))
  {
    var artifact := Execute(sem, c, supplied);
    if artifact.Err? {
      return Err(artifact.error);
    }
    RecordedAgree(c, supplied);
    var program := LoadAssemblerProgram(artifact.value.inputs, EnvOf(c, supplied), c.start, c.instrs);
    LoweredRangeMeaning(sem, program.value, EnvOf(c, supplied), c.start, c.instrs,
      FirstSeenOrder(c.start, Reads(c.instrs)));
    r := Ok((artifact.value, program.value));
  }
}
