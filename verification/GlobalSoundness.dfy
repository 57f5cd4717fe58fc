/** Local runs and an accepted aggregation add up to one correct run of the whole program. */
module GlobalSoundness {
  import opened Prelude
  import opened Program
  import opened BoundaryLayouts
  import opened DagModel
  import opened Partition
  import opened ShardSemantics
  import opened ShardBinding
  import opened ShardRuns
  import PB = PublicBoundary
  import C = Claims
  import LA = LeafAdmission
  import NM = NativeManifest
  import AP = AggregationPlan
  import AR = AggregationRefinement

  /** A commitment to a register's value; it names the register, and no two values share one. */
  type Commit = (Register, Tensor) -> PB.Commitment

  ghost predicate Binding(commit: Commit) {
    forall r, a, b :: commit(r, a) == commit(r, b) ==> a == b
  }

  const SCALE: nat := 1_000_000_000_000_000_000

  function Described(d: BoundaryDescriptor, role: PB.Role): PB.Descriptor {
    PB.Descriptor(role, PB.RegisterId(d.register), d.edgeIds, d.graphOutputNames, d.elementCount, SCALE)
  }

  ghost predicate StatesInput(commit: Commit, env: Env, d: BoundaryDescriptor, b: PB.Binding) {
    && b.descriptor == Described(d, PB.Input)
    && ExternalValue(env, d.register).Some?
    && b.commitment == commit(d.register, ExternalValue(env, d.register).value)
  }

  ghost predicate StatesOutput(commit: Commit, start: nat, virtuals: seq<Tensor>, d: BoundaryDescriptor, b: PB.Binding)
  {
    && b.descriptor == Described(d, PB.Output)
    && d.register.Virtual? && start <= d.register.index < start + |virtuals|
    && b.commitment == commit(d.register, virtuals[d.register.index - start])
  }

  /** The statement commits, boundary by boundary, to what came in and what the run computed. */
  ghost predicate StatesRun(commit: Commit, plan: PartitionPlan, s: nat, run: ShardRun, statement: LA.Statement) {
    && s < |plan.shards|
    && |statement.inputClaims| == |run.bound.inputBoundaries|
    && |statement.outputClaims| == |run.bound.outputBoundaries|
    && (forall k :: 0 <= k < |statement.inputClaims| ==>
          StatesInput(commit, EnvOf(plan, run), run.bound.inputBoundaries[k], statement.inputClaims[k]))
    && (forall k :: 0 <= k < |statement.outputClaims| ==>
          StatesOutput(commit, plan.shards[s].start, run.virtuals, run.bound.outputBoundaries[k],
            statement.outputClaims[k]))
  }

  // ----- what the claims commit to -----

  /** When exactly the claims of one register name an edge, and all commit alike, that is the edge's commitment. */
  lemma {:induction false} ClaimOfEdge(
      claims: seq<PB.Binding>, order: seq<Register>, id: string, r: Register, commitment: PB.Commitment)
    requires |claims| == |order| && r in order
    requires forall j :: 0 <= j < |claims| ==> NamesFor(claims[j], order[j], id, r, commitment)
    ensures AR.CommittedAt(claims, id) == Some(commitment)
  {
    var k :| 0 <= k < |order| && order[k] == r;
    assert NamesFor(claims[k], order[k], id, r, commitment);
    assert LA.Lists(claims, id);
    var first := AR.FirstListing(claims, id);
    assert NamesFor(claims[first], order[first], id, r, commitment);
    AR.CommittedIs(claims, id, first);
  }

  ghost predicate NamesFor(claim: PB.Binding, register: Register, id: string, r: Register, commitment: PB.Commitment) {
    && (id in claim.descriptor.edgeIds <==> register == r)
    && (register == r ==> claim.commitment == commitment)
  }

  /** The edge that carries a value into a shard that reads it. */
  lemma {:induction false} CarryingEdge(plan: PartitionPlan, s: nat, i: nat) returns (e: Edge)
    requires ValidPlan(plan) && s < |plan.shards| && InPlan(plan, s)
    requires Virtual(i) in ExternalSet(plan.shards[s].start, InstructionsOf(plan, s))
    ensures e in plan.dag.edges && e.consumer == s && e.register == Virtual(i) && e.producer < s
      && i < |plan.programSnapshot.instructions|
    ensures Within(RangesOf(plan.shards)[e.producer], i)
  {
    var program, specs := plan.programSnapshot, SpecsOf(plan.shards);
    ExternalVirtualsAreInputs(plan, s, i);
    ShardInputsExact(program, specs, s, i);
    EdgesExact(program, specs, ShardOf(specs, i), s, i);
    e :| e in plan.dag.edges && e.producer == ShardOf(specs, i) && e.consumer == s && e.register == Virtual(i);
    OwnerOf(specs, RangesOf(plan.shards), |program.instructions|, e.producer, i);
  }

  lemma {:induction false} SortedIds(ids: seq<string>, id: string)
    ensures id in SortBy(TextLe, ids) <==> id in ids
  {
    assert id in multiset(SortBy(TextLe, ids)) <==> id in multiset(ids);
  }

  /** An input descriptor lists an edge exactly when that edge brings its register into the shard. */
  lemma {:induction false} InputListsEdge(
      plan: PartitionPlan, layout: BoundaryLayout, s: nat, order: seq<Register>, out: seq<BoundaryDescriptor>,
      index: map<string, Edge>, e: Edge, k: nat)
    requires DescribesInputs(plan, layout, s, order, out) && k < |out| && C.Indexes(index, plan.dag.edges)
      && e in plan.dag.edges
    ensures out[k].register == order[k]
    ensures e.id in out[k].edgeIds <==> e.register == order[k] && e.consumer == s
  {
    SortedIds(EdgeIdsFor(plan.dag.edges, s, order[k], false), e.id);
  }

  lemma {:induction false} OutputListsEdge(
      plan: PartitionPlan, layout: BoundaryLayout, s: nat, order: seq<Register>, out: seq<BoundaryDescriptor>,
      index: map<string, Edge>, e: Edge, k: nat)
    requires DescribesOutputs(plan, layout, s, order, out) && k < |out| && C.Indexes(index, plan.dag.edges)
      && e in plan.dag.edges
    ensures out[k].register == order[k]
    ensures e.id in out[k].edgeIds <==> e.register == order[k] && e.producer == s
  {
    SortedIds(EdgeIdsFor(plan.dag.edges, s, order[k], true), e.id);
  }

  /** The consumer's statement commits, on an edge, to the value it claims came in. */
  lemma {:induction false} ConsumerCommits(
      sem: Semantics, commit: Commit, plan: PartitionPlan, layout: BoundaryLayout, s: nat, run: ShardRun,
      statement: LA.Statement,
      index: map<string, Edge>, e: Edge)
    requires RanAlone(sem, plan, layout, s, run) && StatesRun(commit, plan, s, run, statement)
    requires C.Indexes(index, plan.dag.edges) && e in plan.dag.edges && e.consumer == s
    requires e.register in ExternalSet(plan.shards[s].start, InstructionsOf(plan, s))
    ensures ExternalValue(EnvOf(plan, run), e.register).Some?
    ensures AR.CommittedAt(statement.inputClaims, e.id)
      == Some(commit(e.register, ExternalValue(EnvOf(plan, run), e.register).value))
  {
    var order := InputOrder(plan.shards[s].start, InstructionsOf(plan, s));
    assert e.register in Elements(order);
    InputNames(commit, plan, layout, s, run, statement, order, index, e);
    ClaimOfEdge(statement.inputClaims, order, e.id, e.register,
      commit(e.register, ExternalValue(EnvOf(plan, run), e.register).value));
  }

  lemma {:induction false} InputNames(
      commit: Commit, plan: PartitionPlan, layout: BoundaryLayout, s: nat, run: ShardRun, statement: LA.Statement,
      order: seq<Register>,
      index: map<string, Edge>, e: Edge)
    requires StatesRun(commit, plan, s, run, statement)
      && DescribesInputs(plan, layout, s, order, run.bound.inputBoundaries)
    requires C.Indexes(index, plan.dag.edges) && e in plan.dag.edges && e.consumer == s && e.register in order
    ensures ExternalValue(EnvOf(plan, run), e.register).Some? && |statement.inputClaims| == |order|
    ensures forall j :: 0 <= j < |order| ==>
      NamesFor(statement.inputClaims[j], order[j], e.id, e.register,
        commit(e.register, ExternalValue(EnvOf(plan, run), e.register).value))
  {
    var out := run.bound.inputBoundaries;
    var k :| 0 <= k < |order| && order[k] == e.register;
    assert StatesInput(commit, EnvOf(plan, run), out[k], statement.inputClaims[k]);
    forall j | 0 <= j < |order|
      ensures NamesFor(statement.inputClaims[j], order[j], e.id, e.register,
        commit(e.register, ExternalValue(EnvOf(plan, run), e.register).value))
    {
      InputListsEdge(plan, layout, s, order, out, index, e, j);
      assert StatesInput(commit, EnvOf(plan, run), out[j], statement.inputClaims[j]);
    }
  }

  /** The producer's statement commits, on an edge, to the value it computed. */
  lemma {:induction false} ProducerCommits(
      sem: Semantics, commit: Commit, plan: PartitionPlan, layout: BoundaryLayout, s: nat, run: ShardRun,
      statement: LA.Statement,
      index: map<string, Edge>, e: Edge)
    requires RanAlone(sem, plan, layout, s, run) && StatesRun(commit, plan, s, run, statement)
    requires C.Indexes(index, plan.dag.edges) && e in plan.dag.edges && e.producer == s
      && e.register in plan.dag.shards[s].outputs
    ensures e.register.Virtual? && plan.shards[s].start <= e.register.index < plan.shards[s].start + |run.virtuals|
    ensures AR.CommittedAt(statement.outputClaims, e.id)
      == Some(commit(e.register, run.virtuals[e.register.index - plan.shards[s].start]))
  {
    var range := Range(plan.shards[s].start, plan.shards[s].end);
    var order := OutputOrder(plan.programSnapshot, plan.dag.shards[s].outputs, range);
    assert e.register in Elements(order);
    OutputNamesFor(commit, plan, layout, s, run, statement, order, index, e);
    ClaimOfEdge(statement.outputClaims, order, e.id, e.register,
      commit(e.register, run.virtuals[e.register.index - range.start]));
  }

  lemma {:induction false} OutputNamesFor(
      commit: Commit, plan: PartitionPlan, layout: BoundaryLayout, s: nat, run: ShardRun, statement: LA.Statement,
      order: seq<Register>,
      index: map<string, Edge>, e: Edge)
    requires StatesRun(commit, plan, s, run, statement)
      && DescribesOutputs(plan, layout, s, order, run.bound.outputBoundaries)
    requires C.Indexes(index, plan.dag.edges) && e in plan.dag.edges && e.producer == s && e.register in order
    ensures e.register.Virtual? && plan.shards[s].start <= e.register.index < plan.shards[s].start + |run.virtuals|
    ensures |statement.outputClaims| == |order|
    ensures forall j :: 0 <= j < |order| ==>
      NamesFor(statement.outputClaims[j], order[j], e.id, e.register,
        commit(e.register, run.virtuals[e.register.index - plan.shards[s].start]))
  {
    var k :| 0 <= k < |order| && order[k] == e.register;
    OutputStatedAt(commit, plan, layout, s, run, statement, order, k);
    forall j | 0 <= j < |order|
      ensures NamesFor(statement.outputClaims[j], order[j], e.id, e.register,
        commit(e.register, run.virtuals[e.register.index - plan.shards[s].start]))
    {
      OutputNameAt(commit, plan, layout, s, run, statement, order, index, e, j);
    }
  }

  lemma {:induction false} OutputNameAt(
      commit: Commit, plan: PartitionPlan, layout: BoundaryLayout, s: nat, run: ShardRun, statement: LA.Statement,
      order: seq<Register>,
      index: map<string, Edge>, e: Edge, j: nat)
    requires StatesRun(commit, plan, s, run, statement)
      && DescribesOutputs(plan, layout, s, order, run.bound.outputBoundaries)
    requires C.Indexes(index, plan.dag.edges) && e in plan.dag.edges && e.producer == s && j < |order|
    requires e.register.Virtual? && plan.shards[s].start <= e.register.index < plan.shards[s].start + |run.virtuals|
    ensures |statement.outputClaims| == |order|
    ensures NamesFor(statement.outputClaims[j], order[j], e.id, e.register,
      commit(e.register, run.virtuals[e.register.index - plan.shards[s].start]))
  {
    OutputListsEdge(plan, layout, s, order, run.bound.outputBoundaries, index, e, j);
    OutputStatedAt(commit, plan, layout, s, run, statement, order, j);
  }

  lemma {:induction false} OutputStatedAt(
      commit: Commit, plan: PartitionPlan, layout: BoundaryLayout, s: nat, run: ShardRun, statement: LA.Statement,
      order: seq<Register>, j: nat)
    requires StatesRun(commit, plan, s, run, statement)
      && DescribesOutputs(plan, layout, s, order, run.bound.outputBoundaries) && j < |order|
    ensures j < |statement.outputClaims| == |order|
    ensures statement.outputClaims[j].descriptor.edgeIds == run.bound.outputBoundaries[j].edgeIds
    ensures order[j].Virtual? && plan.shards[s].start <= order[j].index < plan.shards[s].start + |run.virtuals|
    ensures statement.outputClaims[j].commitment
      == commit(order[j], run.virtuals[order[j].index - plan.shards[s].start])
  {
    assert StatesOutput(commit, plan.shards[s].start, run.virtuals, run.bound.outputBoundaries[j],
      statement.outputClaims[j]);
    assert run.bound.outputBoundaries[j].register == order[j];
  }

  // ----- all shards -----

  ghost predicate LocallyCorrect(
      sem: Semantics, commit: Commit, plan: PartitionPlan, layout: BoundaryLayout, runs: seq<ShardRun>,
      proofs: seq<LA.VerifiedProof>, s: nat)
    requires s < |runs| == |proofs|
  {
    && proofs[s].statement.Some?
    && RanAlone(sem, plan, layout, s, runs[s])
    && StatesRun(commit, plan, s, runs[s], proofs[s].statement.value)
  }

  ghost predicate AllLocallyCorrect(
      sem: Semantics, commit: Commit, plan: PartitionPlan, layout: BoundaryLayout, runs: seq<ShardRun>,
      proofs: seq<LA.VerifiedProof>)
  {
    && |runs| == |proofs| == |plan.shards| == |plan.dag.shards|
    && forall s :: 0 <= s < |runs| ==> LocallyCorrect(sem, commit, plan, layout, runs, proofs, s)
  }

  /** The producer of a read value lists it among its outputs. */
  lemma {:induction false} EdgeIsOutput(plan: PartitionPlan, e: Edge)
    requires ValidPlan(plan) && e in plan.dag.edges && e.producer < |plan.dag.shards|
    ensures e.register in plan.dag.shards[e.producer].outputs
  {
    var program, specs := plan.programSnapshot, SpecsOf(plan.shards);
    SequentialExact(program, specs, e);
    EdgesExact(program, specs, e.producer, e.consumer, e.register.index);
    ShardOutputsExact(program, specs, e.producer, e.register.index);
  }

  /** `Virtual(i)` came into the shard with the value shard `t` computed for it. */
  ghost predicate CameFrom(plan: PartitionPlan, runs: seq<ShardRun>, s: nat, t: nat, i: nat)
    requires s < |runs| == |plan.shards|
  {
    && t < s && plan.shards[t].start <= i < plan.shards[t].start + |runs[t].virtuals|
    && Within(RangesOf(plan.shards)[t], i)
    && Lookup(runs[s].incoming, Virtual(i)) == Some(runs[t].virtuals[i - plan.shards[t].start])
  }

  /** What the consumer claims came in for a register is what the producer computed. */
  ghost predicate ReadsWhatWasMade(plan: PartitionPlan, consumer: ShardRun, producer: ShardRun, t: nat, r: Register)
    requires t < |plan.shards|
  {
    && r.Virtual? && plan.shards[t].start <= r.index < plan.shards[t].start + |producer.virtuals|
    && ExternalValue(EnvOf(plan, consumer), r) == Some(producer.virtuals[r.index - plan.shards[t].start])
  }

  lemma {:induction false} EqualEnds(
      sem: Semantics, commit: Commit, plan: PartitionPlan, layout: BoundaryLayout, index: map<string, Edge>, e: Edge,
      s: nat, consumer: ShardRun, consumed: LA.Statement, t: nat, producer: ShardRun, produced: LA.Statement)
    requires Binding(commit)
    requires RanAlone(sem, plan, layout, s, consumer) && StatesRun(commit, plan, s, consumer, consumed)
    requires RanAlone(sem, plan, layout, t, producer) && StatesRun(commit, plan, t, producer, produced)
    requires C.Indexes(index, plan.dag.edges) && e in plan.dag.edges && e.consumer == s && e.producer == t
    requires e.register in ExternalSet(plan.shards[s].start, InstructionsOf(plan, s))
      && e.register in plan.dag.shards[t].outputs
    requires AR.CommittedAt(produced.outputClaims, e.id) == AR.CommittedAt(consumed.inputClaims, e.id)
    ensures ReadsWhatWasMade(plan, consumer, producer, t, e.register)
  {
    ConsumerCommits(sem, commit, plan, layout, s, consumer, consumed, index, e);
    ProducerCommits(sem, commit, plan, layout, t, producer, produced, index, e);
  }

  /** A value read from another shard is the value that shard computed. */
  lemma {:induction false} EdgeCarriesValue(
      sem: Semantics, commit: Commit, plan: PartitionPlan, layout: BoundaryLayout, runs: seq<ShardRun>,
      proofs: seq<LA.VerifiedProof>,
      index: map<string, Edge>, s: nat, i: nat) returns (t: nat)
    requires ValidPlan(plan) && Binding(commit) && AllLocallyCorrect(sem, commit, plan, layout, runs, proofs)
    requires C.Indexes(index, plan.dag.edges) && AR.Decoded(proofs) && AR.StatementsAgree(index, proofs)
    requires s < |runs| && InPlan(plan, s) && Virtual(i) in ExternalSet(plan.shards[s].start, InstructionsOf(plan, s))
    ensures CameFrom(plan, runs, s, t, i)
  {
    var e := CarryingEdge(plan, s, i);
    t := e.producer;
    EdgeIsOutput(plan, e);
    StatedEdge(index, plan.dag.edges, proofs, e);
    assert LocallyCorrect(sem, commit, plan, layout, runs, proofs, s)
      && LocallyCorrect(sem, commit, plan, layout, runs, proofs, t);
    Carried(sem, commit, plan, layout, runs, proofs, index, s, e);
    CarriedValue(plan, runs, s, t, i);
  }

  lemma {:induction false} Carried(
      sem: Semantics, commit: Commit, plan: PartitionPlan, layout: BoundaryLayout, runs: seq<ShardRun>,
      proofs: seq<LA.VerifiedProof>,
      index: map<string, Edge>, s: nat, e: Edge)
    requires Binding(commit) && e.producer < e.consumer == s < |runs| == |proofs|
    requires LocallyCorrect(sem, commit, plan, layout, runs, proofs, s)
      && LocallyCorrect(sem, commit, plan, layout, runs, proofs, e.producer)
    requires C.Indexes(index, plan.dag.edges) && e in plan.dag.edges
    requires AR.CommittedAt(proofs[e.producer].statement.value.outputClaims, e.id)
      == AR.CommittedAt(proofs[s].statement.value.inputClaims, e.id)
    requires InPlan(plan, s) && e.register in ExternalSet(plan.shards[s].start, InstructionsOf(plan, s))
    requires InPlan(plan, e.producer) && e.register in plan.dag.shards[e.producer].outputs
    ensures ReadsWhatWasMade(plan, runs[s], runs[e.producer], e.producer, e.register)
  {
    var t := e.producer;
    EqualEnds(sem, commit, plan, layout, index, e, s, runs[s], proofs[s].statement.value, t, runs[t],
      proofs[t].statement.value);
  }

  lemma {:induction false} StatedEdge(
      index: map<string, Edge>, edges: seq<Edge>, proofs: seq<LA.VerifiedProof>, e: Edge)
    requires C.Indexes(index, edges) && e in edges && AR.Decoded(proofs) && AR.StatementsAgree(index, proofs)
    ensures e.producer < e.consumer < |proofs|
    ensures AR.CommittedAt(proofs[e.producer].statement.value.outputClaims, e.id)
         == AR.CommittedAt(proofs[e.consumer].statement.value.inputClaims, e.id)
  {
    assert AR.EdgeAgrees(index[e.id], e.id, proofs);
  }

  lemma {:induction false} CarriedValue(plan: PartitionPlan, runs: seq<ShardRun>, s: nat, t: nat, i: nat)
    requires t < s < |runs| == |plan.shards| && Within(RangesOf(plan.shards)[t], i)
    requires ReadsWhatWasMade(plan, runs[s], runs[t], t, Virtual(i))
    ensures CameFrom(plan, runs, s, t, i)
  {
  }

  // ----- graph inputs -----

  ghost predicate ReadsGraphInput(plan: PartitionPlan, s: nat, name: string) {
    InPlan(plan, s) && GraphInput(name) in ExternalSet(plan.shards[s].start, InstructionsOf(plan, s))
  }

  lemma {:induction false} PublicsHas(claims: seq<PB.Binding>, role: PB.Role, b: PB.Binding)
    requires b in claims && PB.IsPublic(b, role)
    ensures b in LA.Publics(claims, role)
    decreases |claims|
  {
    var n := |claims| - 1;
    assert claims == claims[..n] + [claims[n]];
    if b != claims[n] { PublicsHas(claims[..n], role, b); }
  }

  /** No DAG edge carries a graph input. */
  lemma {:induction false} GraphInputHasNoEdge(plan: PartitionPlan, s: nat, name: string)
    requires ValidPlan(plan)
    ensures SortBy(TextLe, EdgeIdsFor(plan.dag.edges, s, GraphInput(name), false)) == []
  {
    var ids := EdgeIdsFor(plan.dag.edges, s, GraphInput(name), false);
    if |ids| > 0 {
      assert ids[0] in ids;
      var e :| e in plan.dag.edges && e.register == GraphInput(name) && e.id == ids[0];
      SequentialExact(plan.programSnapshot, SpecsOf(plan.shards), e);
    }
  }

  /** A shard that reads a graph input publishes a commitment to the value it used. */
  lemma {:induction false} GraphInputIsPublic(
      sem: Semantics, commit: Commit, plan: PartitionPlan, layout: BoundaryLayout, s: nat, run: ShardRun,
      statement: LA.Statement, name: string)
    returns (b: PB.Binding)
    requires SortBy(TextLe, EdgeIdsFor(plan.dag.edges, s, GraphInput(name), false)) == []
    requires RanAlone(sem, plan, layout, s, run) && StatesRun(commit, plan, s, run, statement)
      && ReadsGraphInput(plan, s, name)
    ensures name in run.graphInputs
    ensures b in LA.Publics(statement.inputClaims, PB.Input)
    ensures b.descriptor.registerId == PB.RegisterId(GraphInput(name))
      && b.commitment == commit(GraphInput(name), run.graphInputs[name])
  {
    var order, out := InputOrder(plan.shards[s].start, InstructionsOf(plan, s)), run.bound.inputBoundaries;
    assert GraphInput(name) in Elements(order);
    var k :| 0 <= k < |order| && order[k] == GraphInput(name);
    b := statement.inputClaims[k];
    assert StatesInput(commit, EnvOf(plan, run), out[k], b);
    assert PB.IsPublicGraphInput(b.descriptor);
    PublicsHas(statement.inputClaims, PB.Input, b);
  }

  ghost predicate SameGraphInput(runs: seq<ShardRun>, s: nat, t: nat, name: string)
    requires s < |runs| && t < |runs|
  {
    name in runs[s].graphInputs && name in runs[t].graphInputs && runs[s].graphInputs[name] == runs[t].graphInputs[name]
  }

  lemma {:induction false} RelatedInputs(proofs: seq<LA.VerifiedProof>, s: nat, t: nat, a: PB.Binding, b: PB.Binding)
    requires AR.Decoded(proofs) && PB.ShardsRelate(PB.SameInput, AR.PublicInputsOf(proofs), 0, |proofs|)
      && s < t < |proofs|
    requires a in LA.Publics(proofs[s].statement.value.inputClaims, PB.Input)
    requires b in LA.Publics(proofs[t].statement.value.inputClaims, PB.Input)
    requires a.descriptor.registerId == b.descriptor.registerId
    ensures a == b
  {
    assert a in AR.PublicInputsOf(proofs)[s] && b in AR.PublicInputsOf(proofs)[t];
    assert PB.SameInput(a, b);
  }

  /** Two shards that read one graph input used the same value. */
  lemma {:induction false} GraphInputsShared(
      sem: Semantics, commit: Commit, plan: PartitionPlan, layout: BoundaryLayout, runs: seq<ShardRun>,
      proofs: seq<LA.VerifiedProof>,
      s: nat, t: nat, name: string)
    requires ValidPlan(plan) && Binding(commit) && AllLocallyCorrect(sem, commit, plan, layout, runs, proofs)
      && AR.Decoded(proofs)
    requires PB.ShardsRelate(PB.SameInput, AR.PublicInputsOf(proofs), 0, |proofs|)
    requires s < |runs| && t < |runs| && ReadsGraphInput(plan, s, name) && ReadsGraphInput(plan, t, name)
    ensures SameGraphInput(runs, s, t, name)
  {
    assert LocallyCorrect(sem, commit, plan, layout, runs, proofs, s)
      && LocallyCorrect(sem, commit, plan, layout, runs, proofs, t);
    GraphInputHasNoEdge(plan, s, name);
    GraphInputHasNoEdge(plan, t, name);
    var a := GraphInputIsPublic(sem, commit, plan, layout, s, runs[s], proofs[s].statement.value, name);
    var b := GraphInputIsPublic(sem, commit, plan, layout, t, runs[t], proofs[t].statement.value, name);
    if s < t { RelatedInputs(proofs, s, t, a, b); }
    if t < s { RelatedInputs(proofs, t, s, b, a); }
  }

  /** One value per graph input, agreeing with every shard that reads it. */
  ghost predicate FitsShards(plan: PartitionPlan, runs: seq<ShardRun>, g: map<string, Tensor>) {
    forall s, name :: 0 <= s < |runs| && ReadsGraphInput(plan, s, name) ==>
      Lookup(g, name) == Lookup(runs[s].graphInputs, name)
  }

  ghost function GlobalInputs(plan: PartitionPlan, runs: seq<ShardRun>): map<string, Tensor> {
    map s, name | 0 <= s < |runs| && name in runs[s].graphInputs && ReadsGraphInput(plan, s, name)
      && First(plan, runs, s, name)
      :: name := runs[s].graphInputs[name]
  }

  /** No earlier shard reads the graph input. */
  ghost predicate First(plan: PartitionPlan, runs: seq<ShardRun>, s: nat, name: string) {
    forall t :: 0 <= t < s && t < |runs| ==> !ReadsGraphInput(plan, t, name)
  }

  lemma {:induction false} FirstReader(plan: PartitionPlan, runs: seq<ShardRun>, s: nat, name: string) returns (t: nat)
    requires s < |runs| && ReadsGraphInput(plan, s, name)
    ensures t <= s && ReadsGraphInput(plan, t, name) && First(plan, runs, t, name)
  {
    t := s;
    if u :| 0 <= u < s && ReadsGraphInput(plan, u, name) {
      t := FirstReader(plan, runs, u, name);
    }
  }

  lemma {:induction false} GlobalInputsFit(
      sem: Semantics, commit: Commit, plan: PartitionPlan, layout: BoundaryLayout, runs: seq<ShardRun>,
      proofs: seq<LA.VerifiedProof>)
    requires ValidPlan(plan) && Binding(commit) && AllLocallyCorrect(sem, commit, plan, layout, runs, proofs)
      && AR.Decoded(proofs)
    requires PB.ShardsRelate(PB.SameInput, AR.PublicInputsOf(proofs), 0, |proofs|)
    ensures FitsShards(plan, runs, GlobalInputs(plan, runs))
  {
    forall s, name | 0 <= s < |runs| && ReadsGraphInput(plan, s, name)
      ensures Lookup(GlobalInputs(plan, runs), name) == Lookup(runs[s].graphInputs, name)
    {
      var t := FirstReader(plan, runs, s, name);
      GraphInputsShared(sem, commit, plan, layout, runs, proofs, s, t, name);
    }
  }

  // ----- one global run -----

  lemma {:induction false} RunsFill(
      sem: Semantics, commit: Commit, plan: PartitionPlan, layout: BoundaryLayout, runs: seq<ShardRun>,
      proofs: seq<LA.VerifiedProof>)
    requires AllLocallyCorrect(sem, commit, plan, layout, runs, proofs)
    ensures Fills(Values(runs), RangesOf(plan.shards))
  {
    forall s | 0 <= s < |runs|
      ensures RangesOf(plan.shards)[s].start + |Values(runs)[s]| == RangesOf(plan.shards)[s].end
    {
      assert LocallyCorrect(sem, commit, plan, layout, runs, proofs, s);
      RunMeaning(sem, plan, layout, s, runs[s]);
    }
  }

  lemma {:induction false} CameFromOwner(
      plan: PartitionPlan, runs: seq<ShardRun>, ranges: seq<Range>, n: nat, s: nat, t: nat, i: nat)
    requires |runs| == |plan.shards| && ranges == RangesOf(plan.shards) && Partitions(ranges, n)
      && Fills(Values(runs), ranges)
    requires s < |runs| && CameFrom(plan, runs, s, t, i)
    ensures ComesFromOwner(EnvOf(plan, runs[s]), Values(runs), ranges, i)
  {
    forall u: nat | u < |runs| && Within(ranges[u], i) ensures u == t {
      OneRange(ranges, n, t, u, i);
    }
  }

  /** Each shard's environment fits the one global run. */
  lemma {:induction false} ShardAgrees(
      sem: Semantics, commit: Commit, plan: PartitionPlan, layout: BoundaryLayout, runs: seq<ShardRun>,
      proofs: seq<LA.VerifiedProof>,
      index: map<string, Edge>, g: map<string, Tensor>, s: nat)
    requires ValidPlan(plan) && Binding(commit) && AllLocallyCorrect(sem, commit, plan, layout, runs, proofs)
    requires C.Indexes(index, plan.dag.edges) && AR.Decoded(proofs) && AR.StatementsAgree(index, proofs)
    requires FitsShards(plan, runs, g) && s < |runs| && Fills(Values(runs), RangesOf(plan.shards)) && InPlan(plan, s)
    ensures Agrees(plan.programSnapshot, g, EnvOf(plan, runs[s]), Values(runs), RangesOf(plan.shards),
      plan.shards[s].start, InstructionsOf(plan, s))
  {
    forall i | Virtual(i) in ExternalSet(plan.shards[s].start, InstructionsOf(plan, s))
      ensures ComesFromOwner(EnvOf(plan, runs[s]), Values(runs), RangesOf(plan.shards), i)
    {
      var t := EdgeCarriesValue(sem, commit, plan, layout, runs, proofs, index, s, i);
      CameFromOwner(plan, runs, RangesOf(plan.shards), |plan.programSnapshot.instructions|, s, t, i);
    }
    forall name | GraphInput(name) in ExternalSet(plan.shards[s].start, InstructionsOf(plan, s))
      ensures Lookup(runs[s].graphInputs, name) == Lookup(g, name)
    {
      assert ReadsGraphInput(plan, s, name);
    }
  }

  lemma {:induction false} ShardFits(
      sem: Semantics, commit: Commit, plan: PartitionPlan, layout: BoundaryLayout, runs: seq<ShardRun>,
      proofs: seq<LA.VerifiedProof>,
      index: map<string, Edge>, g: map<string, Tensor>, s: nat)
    requires ValidPlan(plan) && Binding(commit) && AllLocallyCorrect(sem, commit, plan, layout, runs, proofs)
    requires C.Indexes(index, plan.dag.edges) && AR.Decoded(proofs) && AR.StatementsAgree(index, proofs)
    requires FitsShards(plan, runs, g) && s < |runs| && Fills(Values(runs), RangesOf(plan.shards))
    ensures RunFits(sem, plan.programSnapshot, g, Envs(plan, runs), Values(runs), RangesOf(plan.shards), s)
  {
    assert LocallyCorrect(sem, commit, plan, layout, runs, proofs, s);
    RunMeaning(sem, plan, layout, s, runs[s]);
    ShardAgrees(sem, commit, plan, layout, runs, proofs, index, g, s);
  }

  /**
   * Every shard run separately from values it merely claims, statements committing to those boundaries, and the flat
   * acceptance of the statements: then all runs together are one run of the whole program on one set of graph inputs.
   */
  lemma {:induction false} GloballyCorrect(
      sem: Semantics, commit: Commit, plan: PartitionPlan, layout: BoundaryLayout, runs: seq<ShardRun>,
      proofs: seq<LA.VerifiedProof>,
      index: map<string, Edge>) returns (g: map<string, Tensor>)
    requires ValidPlan(plan) && Binding(commit) && AllLocallyCorrect(sem, commit, plan, layout, runs, proofs)
    requires C.Indexes(index, plan.dag.edges) && AR.Decoded(proofs) && AR.StatementsAgree(index, proofs)
    ensures FitsShards(plan, runs, g)
    ensures EvalProgram(sem, plan.programSnapshot, g) == Some(Concat(Values(runs)))
  {
    g := GlobalInputs(plan, runs);
    GlobalInputsFit(sem, commit, plan, layout, runs, proofs);
    RunsFill(sem, commit, plan, layout, runs, proofs);
    forall s | 0 <= s < |runs|
      ensures RunFits(sem, plan.programSnapshot, g, Envs(plan, runs), Values(runs), RangesOf(plan.shards), s)
    {
      ShardFits(sem, commit, plan, layout, runs, proofs, index, g, s);
    }
    WholeRun(sem, plan.programSnapshot, g, Envs(plan, runs), Values(runs), RangesOf(plan.shards));
  }

  lemma {:induction false} WholeRun(
      sem: Semantics, program: CompiledProgram, g: map<string, Tensor>, envs: seq<Env>, values: seq<seq<Tensor>>,
      ranges: seq<Range>)
    requires Partitions(ranges, |program.instructions|) && Fills(values, ranges) && |values| == |envs| == |ranges| > 0
    requires forall s :: 0 <= s < |values| ==> RunFits(sem, program, g, envs, values, ranges, s)
    ensures EvalProgram(sem, program, g) == Some(Concat(values))
  {
    RangesCompose(sem, program, g, envs, values, ranges, |ranges|);
    assert values[..|ranges|] == values;
    assert program.instructions[..|program.instructions|] == program.instructions;
  }

  /** An accepted build of the manifest is enough: its leaves' statements then describe one global run. */
  lemma {:induction false} AcceptedManifestIsOneRun(
      sem: Semantics, commit: Commit, plan: PartitionPlan, layout: BoundaryLayout, runs: seq<ShardRun>,
      proofs: seq<LA.VerifiedProof>,
      fan: nat, run: C.Run, expectations: seq<LA.LeafExpectation>, manifest: C.VerifiedClaim, w: C.World)
      returns (g: map<string, Tensor>)
    requires ValidPlan(plan) && Binding(commit) && AllLocallyCorrect(sem, commit, plan, layout, runs, proofs)
    requires AR.Built(plan.dag.edges, fan, run, expectations, proofs, Ok(manifest), w)
    ensures FitsShards(plan, runs, g)
    ensures EvalProgram(sem, plan.programSnapshot, g) == Some(Concat(Values(runs)))
  {
    AR.FlatIsStatementsAgree(w, run, proofs);
    g := GloballyCorrect(sem, commit, plan, layout, runs, proofs, w.index);
  }

  /**
   * Builds the manifest from the proofs of shards run separately. When that succeeds, all the runs together are one run
   * of the whole program.
   */
  method AggregateRuns(
      ghost sem: Semantics, ghost commit: Commit, plan: PartitionPlan, ghost layout: BoundaryLayout,
      ghost runs: seq<ShardRun>,
      proofs: seq<LA.VerifiedProof>, fan: nat, run: C.Run, expectations: seq<LA.LeafExpectation>)
    returns (manifest: Result<C.VerifiedClaim, NM.ManifestError>, ghost w: C.World, ghost g: map<string, Tensor>)
    requires ValidPlan(plan) && Binding(commit) && AllLocallyCorrect(sem, commit, plan, layout, runs, proofs)
    requires NM.ValidExpectations(expectations) && |expectations| == |plan.shards|
    requires forall s :: 0 <= s < |proofs| ==> NM.ValidProof(proofs[s])
    requires AP.PartitionFits(plan) && AP.MIN_FAN_IN <= fan <= AP.MAX_FAN_IN
    ensures AR.Built(plan.dag.edges, fan, run, expectations, proofs, manifest, w)
    ensures manifest.Ok? ==>
      FitsShards(plan, runs, g) && EvalProgram(sem, plan.programSnapshot, g) == Some(Concat(Values(runs)))
  {
    var tree := AP.PlanAggregation(plan, fan);
    manifest, w := AR.BuildManifest(plan.dag.edges, fan, run, expectations, proofs, tree.value);
    g := map[];
    if manifest.Ok? {
      g := AcceptedManifestIsOneRun(sem, commit, plan, layout, runs, proofs, fan, run, expectations, manifest.value, w);
    }
  }

  /** Output claim `k` commits to a value the shard's own run computed. */
  lemma {:induction false} OutputClaimStates(
      sem: Semantics, commit: Commit, plan: PartitionPlan, layout: BoundaryLayout, runs: seq<ShardRun>,
      proofs: seq<LA.VerifiedProof>,
      s: nat, k: nat)
    requires s < |runs| == |proofs| && LocallyCorrect(sem, commit, plan, layout, runs, proofs, s)
    requires k < |runs[s].bound.outputBoundaries|
    ensures k < |proofs[s].statement.value.outputClaims|
    ensures StatesOutput(commit, plan.shards[s].start, runs[s].virtuals, runs[s].bound.outputBoundaries[k],
                         proofs[s].statement.value.outputClaims[k])
  {
  }

  /** What a shard computed is at the same index of the whole run. */
  lemma {:induction false} ValueInWhole(
      values: seq<seq<Tensor>>, ranges: seq<Range>, n: nat, whole: seq<Tensor>, s: nat, i: nat)
    requires Partitions(ranges, n) && Fills(values, ranges) && |values| == |ranges| && whole == Concat(values)
      && s < |values|
    requires ranges[s].start <= i < ranges[s].start + |values[s]|
    ensures i < |whole| && whole[i] == values[s][i - ranges[s].start]
  {
    ConcatAt(values, ranges, n, |values|, s, i);
    assert values[..|values|] == values;
  }

  /**
   * A claim on a boundary commits to that boundary's value in the whole run, under the graph output names it carries.
   */
  ghost predicate PublishesFrom(commit: Commit, whole: seq<Tensor>, d: BoundaryDescriptor, claim: PB.Binding) {
    && d.register.Virtual? && d.register.index < |whole|
    && claim.commitment == commit(d.register, whole[d.register.index])
    && claim.descriptor.graphOutputNames == d.graphOutputNames
  }

  lemma {:induction false} PublishedAt(
      commit: Commit, values: seq<seq<Tensor>>, ranges: seq<Range>, n: nat, whole: seq<Tensor>, s: nat,
      d: BoundaryDescriptor, claim: PB.Binding)
    requires Partitions(ranges, n) && Fills(values, ranges) && |values| == |ranges| && whole == Concat(values)
      && s < |values|
    requires StatesOutput(commit, ranges[s].start, values[s], d, claim)
    ensures PublishesFrom(commit, whole, d, claim)
  {
    ValueInWhole(values, ranges, n, whole, s, d.register.index);
  }

  /** The published graph outputs are commitments to that run's values. */
  lemma {:induction false} PublishedOutputsAreTheRuns(
      sem: Semantics, commit: Commit, plan: PartitionPlan, layout: BoundaryLayout, runs: seq<ShardRun>,
      proofs: seq<LA.VerifiedProof>,
      whole: seq<Tensor>, s: nat, k: nat)
    requires ValidPlan(plan) && AllLocallyCorrect(sem, commit, plan, layout, runs, proofs)
      && whole == Concat(Values(runs))
    requires s < |runs| && k < |runs[s].bound.outputBoundaries|
    ensures proofs[s].statement.Some? && k < |proofs[s].statement.value.outputClaims|
    ensures PublishesFrom(commit, whole, runs[s].bound.outputBoundaries[k], proofs[s].statement.value.outputClaims[k])
  {
    assert LocallyCorrect(sem, commit, plan, layout, runs, proofs, s);
    OutputClaimStates(sem, commit, plan, layout, runs, proofs, s, k);
    RunsFill(sem, commit, plan, layout, runs, proofs);
    PublishedAt(commit, Values(runs), RangesOf(plan.shards), |plan.programSnapshot.instructions|, whole, s,
                runs[s].bound.outputBoundaries[k], proofs[s].statement.value.outputClaims[k]);
  }
}
