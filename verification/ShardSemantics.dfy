/** When separate runs of consecutive instruction ranges add up to one run of the whole program. */
module ShardSemantics {
  import opened Prelude
  import opened Program
  import opened Partition

  function Concat<T>(xss: seq<seq<T>>): seq<T> {
    if |xss| == 0 then [] else Concat(xss[..|xss| - 1]) + xss[|xss| - 1]
  }

  /** The values of the first ranges, each as long as its range. */
  ghost predicate Fills(values: seq<seq<Tensor>>, ranges: seq<Range>) {
    |values| <= |ranges| && forall s :: 0 <= s < |values| ==> ranges[s].start + |values[s]| == ranges[s].end
  }

  predicate Within(range: Range, i: nat) {
    range.start <= i < range.end
  }

  lemma {:induction false} RangesAscend(ranges: seq<Range>, n: nat, s: nat, t: nat)
    requires Partitions(ranges, n) && s < t < |ranges|
    ensures ranges[s].end <= ranges[t].start
  {
    if s + 1 < t { RangesAscend(ranges, n, s, t - 1); }
  }

  /** No instruction lies in two ranges. */
  lemma {:induction false} OneRange(ranges: seq<Range>, n: nat, s: nat, t: nat, i: nat)
    requires Partitions(ranges, n) && s < |ranges| && t < |ranges| && Within(ranges[s], i) && Within(ranges[t], i)
    ensures s == t
  {
    if s < t { RangesAscend(ranges, n, s, t); }
    if t < s { RangesAscend(ranges, n, t, s); }
  }

  function StartOf(ranges: seq<Range>, k: nat): nat
    requires k <= |ranges|
  {
    if k == 0 then 0 else ranges[k - 1].end
  }

  lemma {:induction false} ConcatLength(values: seq<seq<Tensor>>, ranges: seq<Range>, n: nat, k: nat)
    requires Partitions(ranges, n) && Fills(values, ranges) && k <= |values|
    ensures |Concat(values[..k])| == StartOf(ranges, k) <= n
  {
    if k > 0 {
      ConcatLength(values, ranges, n, k - 1);
      assert values[..k][..k - 1] == values[..k - 1];
    }
  }

  /** A value inside an earlier range sits at its global index in the concatenation. */
  lemma {:induction false} ConcatAt(values: seq<seq<Tensor>>, ranges: seq<Range>, n: nat, k: nat, t: nat, i: nat)
    requires Partitions(ranges, n) && Fills(values, ranges) && t < k <= |values| && Within(ranges[t], i)
    ensures i < |Concat(values[..k])| && Concat(values[..k])[i] == values[t][i - ranges[t].start]
  {
    ConcatLength(values, ranges, n, k - 1);
    assert values[..k][..k - 1] == values[..k - 1];
    if t < k - 1 { ConcatAt(values, ranges, n, k - 1, t, i); }
  }

  lemma {:induction false} EarlierRange(ranges: seq<Range>, n: nat, k: nat, i: nat) returns (t: nat)
    requires Partitions(ranges, n) && k <= |ranges| && i < StartOf(ranges, k)
    ensures t < k && Within(ranges[t], i)
  {
    t := k - 1;
    if i < ranges[k - 1].start { t := EarlierRange(ranges, n, k - 1, i); }
  }

  function Slice(program: CompiledProgram, range: Range): seq<CompiledInstruction>
    requires range.start <= range.end <= |program.instructions|
  {
    program.instructions[range.start..range.end]
  }

  /** What comes in for an earlier value is what the range owning it computed. */
  ghost predicate ComesFromOwner(env: Env, values: seq<seq<Tensor>>, ranges: seq<Range>, i: nat)
    requires Fills(values, ranges)
  {
    forall t :: 0 <= t < |values| && Within(ranges[t], i) ==>
      Lookup(env.incoming, Virtual(i)) == Some(values[t][i - ranges[t].start])
  }

  /** A range's environment fits one global run: same graph inputs and weights, owners' values coming in. */
  ghost predicate Agrees(
      program: CompiledProgram, g: map<string, Tensor>, env: Env, values: seq<seq<Tensor>>, ranges: seq<Range>,
      start: nat,
      instrs: seq<CompiledInstruction>)
    requires Fills(values, ranges)
  {
    && env.weights == program.weights
    && (forall name :: GraphInput(name) in ExternalSet(start, instrs) ==>
      Lookup(env.graphInputs, name) == Lookup(g, name))
    && (forall i :: Virtual(i) in ExternalSet(start, instrs) ==> ComesFromOwner(env, values, ranges, i))
  }

  lemma {:induction false} AgreeingRegister(
      program: CompiledProgram, g: map<string, Tensor>, env: Env, values: seq<seq<Tensor>>, ranges: seq<Range>, k: nat,
      instrs: seq<CompiledInstruction>, r: Register)
    requires Partitions(ranges, |program.instructions|) && Fills(values, ranges) && k <= |values|
    requires Agrees(program, g, env, values, ranges, StartOf(ranges, k), instrs)
    requires r.Weight? || r in ExternalSet(StartOf(ranges, k), instrs)
    ensures ExternalValue(env, r) == RegisterValue(WholeEnv(program, g), 0, Concat(values[..k]), r)
  {
    if r.Virtual? {
      var t := EarlierRange(ranges, |program.instructions|, k, r.index);
      ConcatAt(values, ranges, |program.instructions|, k, t, r.index);
      assert ComesFromOwner(env, values, ranges, r.index);
    }
  }

  lemma {:induction false} AgreeingEnvSupplies(
      program: CompiledProgram, g: map<string, Tensor>, env: Env, values: seq<seq<Tensor>>, ranges: seq<Range>, k: nat,
      instrs: seq<CompiledInstruction>)
    requires Partitions(ranges, |program.instructions|) && Fills(values, ranges) && k <= |values|
    requires Agrees(program, g, env, values, ranges, StartOf(ranges, k), instrs)
    ensures Supplies(env, WholeEnv(program, g), Concat(values[..k]), instrs)
  {
    ConcatLength(values, ranges, |program.instructions|, k);
    var earlier, start := Concat(values[..k]), StartOf(ranges, k);
    forall a | 0 <= a < |instrs| ensures SuppliesTo(env, WholeEnv(program, g), earlier, instrs[a].inputs) {
      forall j | 0 <= j < |instrs[a].inputs| && External(start, instrs[a].inputs[j])
        ensures ExternalValue(env, instrs[a].inputs[j])
          == RegisterValue(WholeEnv(program, g), 0, earlier, instrs[a].inputs[j])
      {
        AgreeingRegister(program, g, env, values, ranges, k, instrs, instrs[a].inputs[j]);
      }
    }
  }

  /** Ranges that ran, each in its own environment, and whose environments fit one global run. */
  ghost predicate RunFits(
      sem: Semantics, program: CompiledProgram, g: map<string, Tensor>, envs: seq<Env>, values: seq<seq<Tensor>>,
      ranges: seq<Range>, s: nat)
    requires Partitions(ranges, |program.instructions|) && Fills(values, ranges) && s < |values| && s < |envs|
  {
    && Eval(sem, envs[s], ranges[s].start, Slice(program, ranges[s])) == Some(values[s])
    && Agrees(program, g, envs[s], values, ranges, ranges[s].start, Slice(program, ranges[s]))
  }

  /** One more range: the run up to its start, continued by the range's own run. */
  lemma {:induction false} RangeContinues(
      sem: Semantics, program: CompiledProgram, g: map<string, Tensor>, env: Env, values: seq<seq<Tensor>>,
      ranges: seq<Range>, s: nat)
    requires Partitions(ranges, |program.instructions|) && Fills(values, ranges) && s <= |values| && s < |ranges|
    requires Agrees(program, g, env, values, ranges, ranges[s].start, Slice(program, ranges[s]))
    requires Eval(sem, WholeEnv(program, g), 0, program.instructions[..ranges[s].start]) == Some(Concat(values[..s]))
    ensures var own := Eval(sem, env, ranges[s].start, Slice(program, ranges[s]));
      Eval(sem, WholeEnv(program, g), 0, program.instructions[..ranges[s].end])
      == if own.Some? then Some(Concat(values[..s]) + own.value) else None
  {
    var before, instrs := program.instructions[..ranges[s].start], Slice(program, ranges[s]);
    assert ranges[s].start == StartOf(ranges, s);
    AgreeingEnvSupplies(program, g, env, values, ranges, s, instrs);
    EvalContinues(sem, WholeEnv(program, g), env, before, Concat(values[..s]), instrs);
    assert before + instrs == program.instructions[..ranges[s].end];
  }

  /** Range runs that fit each other are one run of the whole program. */
  lemma {:induction false} RangesCompose(
      sem: Semantics, program: CompiledProgram, g: map<string, Tensor>, envs: seq<Env>, values: seq<seq<Tensor>>,
      ranges: seq<Range>, k: nat)
    requires Partitions(ranges, |program.instructions|) && Fills(values, ranges) && k <= |values| && k <= |envs|
    requires forall s :: 0 <= s < k ==> RunFits(sem, program, g, envs, values, ranges, s)
    ensures StartOf(ranges, k) <= |program.instructions|
    ensures Eval(sem, WholeEnv(program, g), 0, program.instructions[..StartOf(ranges, k)]) == Some(Concat(values[..k]))
  {
    if k > 0 {
      var s := k - 1;
      RangesCompose(sem, program, g, envs, values, ranges, s);
      assert RunFits(sem, program, g, envs, values, ranges, s);
      assert ranges[s].start == StartOf(ranges, s);
      RangeContinues(sem, program, g, envs[s], values, ranges, s);
      assert values[..k][..s] == values[..s];
    }
  }

  lemma {:induction false} EvalFailurePersists(
      sem: Semantics, env: Env, start: nat, instrs: seq<CompiledInstruction>, n: nat)
    requires n <= |instrs| && Eval(sem, env, start, instrs[..n]).None?
    ensures Eval(sem, env, start, instrs).None?
    decreases |instrs| - n
  {
    if n < |instrs| {
      assert instrs[..n + 1][..n] == instrs[..n];
      EvalFailurePersists(sem, env, start, instrs, n + 1);
    } else {
      assert instrs[..n] == instrs;
    }
  }

  /** When the ranges before fit and the next one is rejected, so is the whole program. */
  lemma {:induction false} RejectionCarriesOver(
      sem: Semantics, program: CompiledProgram, g: map<string, Tensor>, envs: seq<Env>, values: seq<seq<Tensor>>,
      ranges: seq<Range>, env: Env)
    requires Partitions(ranges, |program.instructions|) && Fills(values, ranges) && |values| < |ranges|
      && |values| <= |envs|
    requires forall s :: 0 <= s < |values| ==> RunFits(sem, program, g, envs, values, ranges, s)
    requires var range := ranges[|values|];
      && Agrees(program, g, env, values, ranges, range.start, Slice(program, range))
      && Eval(sem, env, range.start, Slice(program, range)).None?
    ensures Eval(sem, WholeEnv(program, g), 0, program.instructions).None?
  {
    var k := |values|;
    RangesCompose(sem, program, g, envs, values, ranges, k);
    assert ranges[k].start == StartOf(ranges, k);
    RangeContinues(sem, program, g, env, values, ranges, k);
    EvalFailurePersists(sem, WholeEnv(program, g), 0, program.instructions, ranges[k].end);
  }
}
