/** Running the bound shards in order, feeding boundaries forward, is running the whole program. */
module ShardedExecution {
  import opened Prelude
  import opened Program
  import opened Assembler
  import opened BoundaryLayouts
  import opened DagModel
  import opened Partition
  import opened ShardSemantics
  import opened ShardBinding
  import opened ShardRuns
  import CircuitBinding

  // ----- feeding, abstractly: maps of published values, one per range -----

  /** Only values of the range are published, each with the value computed for it. */
  ghost predicate Publishes(published: map<Register, Tensor>, values: seq<Tensor>, range: Range) {
    && range.start + |values| == range.end
    && forall r :: r in published ==>
      r.Virtual? && Within(range, r.index) && published[r] == values[r.index - range.start]
  }

  function Feed(published: seq<map<Register, Tensor>>): map<Register, Tensor> {
    if |published| == 0 then map[] else Feed(published[..|published| - 1]) + published[|published| - 1]
  }

  /** Whatever a range publishes reaches every later one unchanged. */
  lemma {:induction false} FeedHas(
      published: seq<map<Register, Tensor>>, values: seq<seq<Tensor>>, ranges: seq<Range>, n: nat, k: nat, t: nat,
      r: Register)
    requires Partitions(ranges, n) && t < k <= |published| && k <= |ranges| && k <= |values|
    requires forall s :: 0 <= s < k ==> Publishes(published[s], values[s], ranges[s])
    requires r in published[t]
    ensures Lookup(Feed(published[..k]), r) == Some(published[t][r])
  {
    var last := k - 1;
    assert published[..k][..last] == published[..last];
    if t < last {
      FeedHas(published, values, ranges, n, last, t, r);
      RangesAscend(ranges, n, t, last);
      assert r !in published[last];
    }
  }

  // ----- bound shards run in order -----

  ghost function PublishedRegisters(run: ShardRun): set<Register> {
    set d | d in run.bound.outputBoundaries && d.register.Virtual? && d.register.index in run.bound.globalToLocal
            && run.bound.globalToLocal[d.register.index] < |run.virtuals| :: d.register
  }

  /** The values a shard run publishes at its output boundaries. */
  ghost function Published(run: ShardRun): map<Register, Tensor> {
    map r | r in PublishedRegisters(run) :: run.virtuals[run.bound.globalToLocal[r.index]]
  }

  ghost function AllPublished(runs: seq<ShardRun>): (r: seq<map<Register, Tensor>>)
    ensures |r| == |runs| && forall s :: 0 <= s < |runs| ==> r[s] == Published(runs[s])
  {
    seq(|runs|, s requires 0 <= s < |runs| => Published(runs[s]))
  }

  /** What is fed to a shard: its declared inputs, taken from everything published so far. */
  ghost function Incoming(inputs: seq<Register>, runs: seq<ShardRun>, s: nat): map<Register, Tensor>
    requires s <= |runs|
  {
    var feed := Feed(AllPublished(runs)[..s]);
    map r | r in feed && r in inputs :: feed[r]
  }

  /** The shard was given the run's graph inputs and what the shards before it published. */
  ghost predicate FedForward(
      plan: PartitionPlan, graphInputs: map<string, Tensor>, runs: seq<ShardRun>, s: nat)
    requires s < |runs| && InPlan(plan, s)
  {
    && runs[s].graphInputs == graphInputs
    && runs[s].incoming == Incoming(plan.dag.shards[s].inputs, runs, s)
  }

  ghost predicate Executed(
      sem: Semantics, plan: PartitionPlan, layout: BoundaryLayout, graphInputs: map<string, Tensor>,
      runs: seq<ShardRun>, s: nat)
    requires s < |runs|
  {
    RanAlone(sem, plan, layout, s, runs[s]) && FedForward(plan, graphInputs, runs, s)
  }

  ghost function PublishedBy(plan: PartitionPlan, s: nat): set<Register>
    requires InPlan(plan, s)
  {
    OutputSet(plan.programSnapshot, plan.dag.shards[s].outputs, Range(plan.shards[s].start, plan.shards[s].end))
  }

  /** A shard publishes only values of its own range. */
  lemma {:induction false} PublishesOwn(plan: PartitionPlan, s: nat)
    requires ValidPlan(plan) && s < |plan.shards|
    ensures InPlan(plan, s)
    ensures forall r :: r in PublishedBy(plan, s) ==>
      r.Virtual? && Within(Range(plan.shards[s].start, plan.shards[s].end), r.index)
  {
    ValidPlanShard(plan, s);
    BoundaryRegisters(plan, s);
    forall r | r in plan.dag.shards[s].outputs ensures Within(RangesOf(plan.shards)[s], r.index) {
      OutputIsOwn(plan.programSnapshot, SpecsOf(plan.shards), RangesOf(plan.shards), s, r.index);
    }
  }

  lemma {:induction false} DescribedRegisters(
      plan: PartitionPlan, layout: BoundaryLayout, s: nat, order: seq<Register>, out: seq<BoundaryDescriptor>)
    requires DescribesOutputs(plan, layout, s, order, out)
    ensures (set d | d in out :: d.register) == Elements(order)
  {
    forall r | r in order ensures exists d :: d in out && d.register == r {
      var k :| 0 <= k < |order| && order[k] == r;
      assert out[k] in out && out[k].register == r;
    }
    forall d | d in out ensures d.register in order {
      var k :| 0 <= k < |out| && out[k] == d;
    }
  }

  lemma {:induction false} PublishedKeys(run: ShardRun, range: Range, registers: set<Register>)
    requires (set d | d in run.bound.outputBoundaries :: d.register) == registers
    requires forall r :: r in registers ==> r.Virtual? && Within(range, r.index)
    requires LocalTable(range, run.bound.globalToLocal)
    requires range.start + |run.virtuals| == range.end
    ensures Published(run).Keys == registers && Publishes(Published(run), run.virtuals, range)
  {
    forall r | r in registers ensures r in PublishedRegisters(run) {
      var d :| d in run.bound.outputBoundaries && d.register == r;
    }
  }

  /** A shard that was bound and ran publishes exactly the values others read or the graph outputs. */
  lemma {:induction false} ExecutedPublishes(
      sem: Semantics, plan: PartitionPlan, layout: BoundaryLayout, s: nat, run: ShardRun)
    requires RanAlone(sem, plan, layout, s, run)
    requires forall r :: r in PublishedBy(plan, s) ==>
      r.Virtual? && Within(Range(plan.shards[s].start, plan.shards[s].end), r.index)
    ensures Published(run).Keys == PublishedBy(plan, s)
    ensures Publishes(Published(run), run.virtuals, Range(plan.shards[s].start, plan.shards[s].end))
  {
    RunMeaning(sem, plan, layout, s, run);
    var range := Range(plan.shards[s].start, plan.shards[s].end);
    DescribedRegisters(plan, layout, s, OutputOrder(plan.programSnapshot, plan.dag.shards[s].outputs, range),
      run.bound.outputBoundaries);
    PublishedKeys(run, range, PublishedBy(plan, s));
  }

  lemma {:induction false} ExecutedFacts(
      sem: Semantics, plan: PartitionPlan, layout: BoundaryLayout, graphInputs: map<string, Tensor>,
      runs: seq<ShardRun>, s: nat)
    requires ValidPlan(plan) && s < |runs| && s < |plan.shards| && Executed(sem, plan, layout, graphInputs, runs, s)
    ensures InPlan(plan, s) && AllPublished(runs)[s].Keys == PublishedBy(plan, s)
    ensures Publishes(AllPublished(runs)[s], Values(runs)[s], RangesOf(plan.shards)[s])
  {
    PublishesOwn(plan, s);
    ExecutedPublishes(sem, plan, layout, s, runs[s]);
  }

  /** A declared input of a shard is an output of its owner, an earlier shard. */
  lemma {:induction false} InputHasPublisher(plan: PartitionPlan, s: nat, i: nat) returns (t: nat)
    requires ValidPlan(plan) && s < |plan.shards| == |plan.dag.shards|
      && Register.Virtual(i) in plan.dag.shards[s].inputs
    ensures t < s && InPlan(plan, t) && Register.Virtual(i) in PublishedBy(plan, t)
  {
    var program, specs := plan.programSnapshot, SpecsOf(plan.shards);
    ShardInputsExact(program, specs, s, i);
    t := ShardOf(specs, i);
    EdgesExact(program, specs, t, s, i);
    ValidPlanShard(plan, t);
    ShardOutputsExact(program, specs, t, i);
  }

  /** The feed holds, for value `i`, what the range owning it computed. */
  ghost predicate FedByOwner(feed: map<Register, Tensor>, values: seq<seq<Tensor>>, ranges: seq<Range>, i: nat) {
    && Register.Virtual(i) in feed
    && forall t: nat :: t < |ranges| && Within(ranges[t], i) ==>
         t < |values| && i - ranges[t].start < |values[t]|
           && feed[Register.Virtual(i)] == values[t][i - ranges[t].start]
  }

  lemma {:induction false} FedRegister(
      published: seq<map<Register, Tensor>>, values: seq<seq<Tensor>>, ranges: seq<Range>, n: nat, s: nat, owner: nat,
      i: nat)
    requires Partitions(ranges, n) && owner < s <= |published| && s <= |ranges| && s <= |values|
    requires forall u :: 0 <= u < s ==> Publishes(published[u], values[u], ranges[u])
    requires Register.Virtual(i) in published[owner]
    ensures FedByOwner(Feed(published[..s]), values, ranges, i)
  {
    FeedHas(published, values, ranges, n, s, owner, Register.Virtual(i));
    assert Publishes(published[owner], values[owner], ranges[owner]);
    forall t: nat | t < |ranges| && Within(ranges[t], i) ensures t == owner {
      OneRange(ranges, n, owner, t, i);
    }
  }

  ghost predicate PublishedInPlan(plan: PartitionPlan, published: map<Register, Tensor>, s: nat) {
    InPlan(plan, s) && published.Keys == PublishedBy(plan, s)
  }

  lemma {:induction false} FedInput(
      plan: PartitionPlan, published: seq<map<Register, Tensor>>, values: seq<seq<Tensor>>, ranges: seq<Range>,
      s: nat, i: nat)
    requires ValidPlan(plan) && s < |plan.shards| == |plan.dag.shards| && s <= |published| && s <= |values|
    requires ranges == RangesOf(plan.shards)
    requires forall t :: 0 <= t < s ==> PublishedInPlan(plan, published[t], t)
    requires forall t :: 0 <= t < s ==> Publishes(published[t], values[t], ranges[t])
    requires Register.Virtual(i) in plan.dag.shards[s].inputs
    ensures FedByOwner(Feed(published[..s]), values, ranges, i)
  {
    var owner := InputHasPublisher(plan, s, i);
    assert PublishedInPlan(plan, published[owner], owner);
    FedRegister(published, values, ranges, |plan.programSnapshot.instructions|, s, owner, i);
  }

  lemma {:induction false} ExecutedPrefix(
      sem: Semantics, plan: PartitionPlan, layout: BoundaryLayout, graphInputs: map<string, Tensor>,
      runs: seq<ShardRun>, s: nat)
    requires ValidPlan(plan) && s <= |runs| <= |plan.shards|
    requires forall t :: 0 <= t < s ==> Executed(sem, plan, layout, graphInputs, runs, t)
    ensures forall t :: 0 <= t < s ==> PublishedInPlan(plan, AllPublished(runs)[t], t)
    ensures forall t :: 0 <= t < s ==> Publishes(AllPublished(runs)[t], Values(runs)[t], RangesOf(plan.shards)[t])
  {
    forall t | 0 <= t < s
      ensures PublishedInPlan(plan, AllPublished(runs)[t], t)
      ensures Publishes(AllPublished(runs)[t], Values(runs)[t], RangesOf(plan.shards)[t])
    {
      ExecutedFacts(sem, plan, layout, graphInputs, runs, t);
    }
  }

  /** Every declared input is fed, and with the value its owner computed. */
  ghost predicate FedByOwners(
      incoming: map<Register, Tensor>, inputs: seq<Register>, values: seq<seq<Tensor>>, ranges: seq<Range>)
  {
    && incoming.Keys == Elements(inputs)
    && forall i: nat :: Register.Virtual(i) in inputs ==> FedByOwner(incoming, values, ranges, i)
  }

  lemma {:induction false} RestrictFeed(
      feed: map<Register, Tensor>, incoming: map<Register, Tensor>, inputs: seq<Register>, values: seq<seq<Tensor>>,
      ranges: seq<Range>)
    requires forall r :: r in inputs ==> r.Virtual? && FedByOwner(feed, values, ranges, r.index)
    requires incoming == map r | r in feed && r in inputs :: feed[r]
    ensures FedByOwners(incoming, inputs, values, ranges)
  {
    forall i: nat | Register.Virtual(i) in inputs ensures FedByOwner(incoming, values, ranges, i) {
      assert FedByOwner(feed, values, ranges, i);
    }
  }

  /** Feeding never lacks a value, and never feeds a wrong one. */
  lemma {:induction false} FeedingComplete(
      sem: Semantics, plan: PartitionPlan, layout: BoundaryLayout, graphInputs: map<string, Tensor>,
      runs: seq<ShardRun>, s: nat)
    requires ValidPlan(plan) && s <= |runs| <= |plan.shards| && s < |plan.shards| == |plan.dag.shards|
    requires forall t :: 0 <= t < s ==> Executed(sem, plan, layout, graphInputs, runs, t)
    ensures FedByOwners(Incoming(plan.dag.shards[s].inputs, runs, s), plan.dag.shards[s].inputs, Values(runs),
      RangesOf(plan.shards))
  {
    ExecutedPrefix(sem, plan, layout, graphInputs, runs, s);
    BoundaryRegisters(plan, s);
    var feed, ranges := Feed(AllPublished(runs)[..s]), RangesOf(plan.shards);
    forall r | r in plan.dag.shards[s].inputs ensures FedByOwner(feed, Values(runs), ranges, r.index) {
      FedInput(plan, AllPublished(runs), Values(runs), ranges, s, r.index);
    }
    RestrictFeed(feed, Incoming(plan.dag.shards[s].inputs, runs, s), plan.dag.shards[s].inputs, Values(runs), ranges);
  }

  lemma {:induction false} FedAgrees(
      plan: PartitionPlan, graphInputs: map<string, Tensor>, incoming: map<Register, Tensor>, values: seq<seq<Tensor>>,
      s: nat)
    requires ValidPlan(plan) && s < |plan.shards| && InPlan(plan, s) && Fills(values, RangesOf(plan.shards))
    requires FedByOwners(incoming, plan.dag.shards[s].inputs, values, RangesOf(plan.shards))
    ensures Agrees(plan.programSnapshot, graphInputs, LocalEnv(plan.programSnapshot, graphInputs, incoming), values,
                   RangesOf(plan.shards), plan.shards[s].start, InstructionsOf(plan, s))
  {
    forall i | Register.Virtual(i) in ExternalSet(plan.shards[s].start, InstructionsOf(plan, s))
      ensures FedByOwner(incoming, values, RangesOf(plan.shards), i)
    {
      ExternalVirtualsAreInputs(plan, s, i);
    }
  }

  lemma {:induction false} ExecutedFits(
      sem: Semantics, plan: PartitionPlan, layout: BoundaryLayout, graphInputs: map<string, Tensor>,
      runs: seq<ShardRun>, s: nat)
    requires ValidPlan(plan) && s < |runs| <= |plan.shards| == |plan.dag.shards|
      && Fills(Values(runs), RangesOf(plan.shards))
    requires forall t :: 0 <= t <= s ==> Executed(sem, plan, layout, graphInputs, runs, t)
    ensures RunFits(sem, plan.programSnapshot, graphInputs, Envs(plan, runs), Values(runs),
      RangesOf(plan.shards), s)
  {
    assert Executed(sem, plan, layout, graphInputs, runs, s);
    RunMeaning(sem, plan, layout, s, runs[s]);
    FeedingComplete(sem, plan, layout, graphInputs, runs, s);
    FedAgrees(plan, graphInputs, runs[s].incoming, Values(runs), s);
  }

  lemma {:induction false} AllFit(
      sem: Semantics, plan: PartitionPlan, layout: BoundaryLayout, graphInputs: map<string, Tensor>,
      runs: seq<ShardRun>)
    requires ValidPlan(plan) && |runs| <= |plan.shards| == |plan.dag.shards|
    requires forall s :: 0 <= s < |runs| ==> Executed(sem, plan, layout, graphInputs, runs, s)
    ensures Fills(Values(runs), RangesOf(plan.shards))
    ensures forall s :: 0 <= s < |runs| ==>
      RunFits(sem, plan.programSnapshot, graphInputs, Envs(plan, runs), Values(runs),
        RangesOf(plan.shards), s)
  {
    var ranges, values := RangesOf(plan.shards), Values(runs);
    forall s | 0 <= s < |values| ensures ranges[s].start + |values[s]| == ranges[s].end {
      ExecutedFacts(sem, plan, layout, graphInputs, runs, s);
    }
    forall s | 0 <= s < |runs|
      ensures RunFits(sem, plan.programSnapshot, graphInputs, Envs(plan, runs), values, ranges, s)
    {
      ExecutedFits(sem, plan, layout, graphInputs, runs, s);
    }
  }

  /** Shards bound and run in order, each fed from the ones before, compute one run of the whole program. */
  lemma {:induction false} ShardingPreservesMeaning(
      sem: Semantics, plan: PartitionPlan, layout: BoundaryLayout, graphInputs: map<string, Tensor>,
      runs: seq<ShardRun>)
    requires ValidPlan(plan) && |runs| == |plan.shards|
    requires forall s :: 0 <= s < |runs| ==> Executed(sem, plan, layout, graphInputs, runs, s)
    ensures EvalProgram(sem, plan.programSnapshot, graphInputs) == Some(Concat(Values(runs)))
  {
    var program, ranges, values := plan.programSnapshot, RangesOf(plan.shards), Values(runs);
    ValidPlanShard(plan, 0);
    AllFit(sem, plan, layout, graphInputs, runs);
    RangesCompose(sem, program, graphInputs, Envs(plan, runs), values, ranges, |ranges|);
    assert values[..|ranges|] == values;
    assert program.instructions[..StartOf(ranges, |ranges|)] == program.instructions;
  }

  /** If a bound shard fed from the ones before is rejected, so is the whole program. */
  lemma {:induction false} ShardRejectionIsWholeRejection(
      sem: Semantics, plan: PartitionPlan, layout: BoundaryLayout, graphInputs: map<string, Tensor>,
      runs: seq<ShardRun>,
      rejected: BoundShardProgram)
    requires ValidPlan(plan) && |runs| < |plan.shards|
    requires forall s :: 0 <= s < |runs| ==> Executed(sem, plan, layout, graphInputs, runs, s)
    requires InPlan(plan, |runs|)
    requires IsBound(plan, |runs|, layout, graphInputs, Incoming(plan.dag.shards[|runs|].inputs, runs, |runs|),
      rejected)
    requires Run(sem, rejected.assemblerProgram).None?
    ensures EvalProgram(sem, plan.programSnapshot, graphInputs).None?
  {
    var s, ranges := |runs|, RangesOf(plan.shards);
    var incoming := Incoming(plan.dag.shards[s].inputs, runs, s);
    AllFit(sem, plan, layout, graphInputs, runs);
    BoundMeaning(sem, plan, s, layout, graphInputs, incoming, rejected);
    FeedingComplete(sem, plan, layout, graphInputs, runs, s);
    FedAgrees(plan, graphInputs, incoming, Values(runs), s);
    RejectionCarriesOver(sem, plan.programSnapshot, graphInputs, Envs(plan, runs), Values(runs), ranges,
      LocalEnv(plan.programSnapshot, graphInputs, incoming));
  }

  /** The same against the unsharded lowering: equal to what its instruction loop returns. */
  lemma {:induction false} ShardedRunIsUnshardedRun(
      sem: Semantics, plan: PartitionPlan, layout: BoundaryLayout, graphInputs: map<string, Tensor>,
      runs: seq<ShardRun>,
      whole: AssemblerProgram)
    requires ValidPlan(plan) && |runs| == |plan.shards|
    requires forall s :: 0 <= s < |runs| ==> Executed(sem, plan, layout, graphInputs, runs, s)
    requires CircuitBinding.IsAssemblerProgram(plan.programSnapshot, graphInputs, whole)
    ensures Run(sem, whole) == Some(Concat(Values(runs)))
  {
    ShardingPreservesMeaning(sem, plan, layout, graphInputs, runs);
    CircuitBinding.AssemblerProgramMeaning(sem, plan.programSnapshot, graphInputs, whole);
  }
}
