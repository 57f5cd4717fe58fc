/** The converse of soundness: shards run in order on one set of graph inputs are admitted and accepted. */
module HonestRuns {
  import opened Prelude
  import opened Program
  import opened BoundaryLayouts
  import opened DagModel
  import opened Partition
  import opened ShardSemantics
  import opened ShardBinding
  import opened ShardRuns
  import opened GlobalSoundness
  import SE = ShardedExecution
  import PB = PublicBoundary
  import C = Claims
  import LA = LeafAdmission
  import NM = NativeManifest
  import AR = AggregationRefinement
  import GC = GraphCompiler
  import OG = OnnxGraph

  /** The proof's statement commits to what came into the shard and what it computed. */
  ghost predicate Commits(
      commit: Commit, plan: PartitionPlan, s: nat, run: ShardRun, proof: LA.VerifiedProof)
  {
    proof.statement.Some? && StatesRun(commit, plan, s, run, proof.statement.value)
  }

  /** Every shard ran in order, fed from the ones before, and is proved with a statement of its own values. */
  ghost predicate Honest(
      sem: Semantics, commit: Commit, plan: PartitionPlan, layout: BoundaryLayout, graphInputs: map<string, Tensor>,
      runs: seq<ShardRun>, proofs: seq<LA.VerifiedProof>)
  {
    && |runs| == |proofs| == |plan.shards| == |plan.dag.shards|
    && (forall s :: 0 <= s < |runs| ==> SE.Executed(sem, plan, layout, graphInputs, runs, s))
    && (forall s :: 0 <= s < |runs| ==> Commits(commit, plan, s, runs[s], proofs[s]))
  }

  // ----- edges -----

  lemma {:induction false} EdgeIsRead(plan: PartitionPlan, e: Edge)
    requires ValidPlan(plan) && e in plan.dag.edges
    ensures e.register.Virtual? && e.producer < e.consumer < |plan.shards| == |plan.dag.shards|
    ensures InPlan(plan, e.consumer) && e.register in plan.dag.shards[e.consumer].inputs
    ensures e.register in ExternalSet(plan.shards[e.consumer].start, InstructionsOf(plan, e.consumer))
    ensures Within(RangesOf(plan.shards)[e.producer], e.register.index)
  {
    var program, specs := plan.programSnapshot, SpecsOf(plan.shards);
    SequentialExact(program, specs, e);
    var i := e.register.index;
    EdgesExact(program, specs, e.producer, e.consumer, i);
    assert HasEdge(plan.dag, e.producer, e.consumer, i);
    ShardInputsExact(program, specs, e.consumer, i);
    ExternalVirtualsAreInputs(plan, e.consumer, i);
    OwnerOf(specs, RangesOf(plan.shards), |program.instructions|, e.producer, i);
  }

  /** What an honest shard starts from and commits to. */
  lemma {:induction false} HonestShard(
      sem: Semantics, commit: Commit, plan: PartitionPlan, layout: BoundaryLayout, graphInputs: map<string, Tensor>,
      runs: seq<ShardRun>, proofs: seq<LA.VerifiedProof>, s: nat)
    requires Honest(sem, commit, plan, layout, graphInputs, runs, proofs) && s < |runs|
    ensures RanAlone(sem, plan, layout, s, runs[s]) && runs[s].graphInputs == graphInputs
    ensures proofs[s].statement.Some? && StatesRun(commit, plan, s, runs[s], proofs[s].statement.value)
  {
    assert SE.Executed(sem, plan, layout, graphInputs, runs, s) && Commits(commit, plan, s, runs[s], proofs[s]);
  }

  /** An honest shard is fed what the owners of its inputs computed. */
  lemma {:induction false} HonestFed(
      sem: Semantics, plan: PartitionPlan, layout: BoundaryLayout, graphInputs: map<string, Tensor>,
      runs: seq<ShardRun>, s: nat)
    requires ValidPlan(plan) && s < |runs| == |plan.shards| == |plan.dag.shards|
    requires forall t :: 0 <= t < |runs| ==> SE.Executed(sem, plan, layout, graphInputs, runs, t)
    ensures SE.FedByOwners(runs[s].incoming, plan.dag.shards[s].inputs, Values(runs), RangesOf(plan.shards))
  {
    SE.FeedingComplete(sem, plan, layout, graphInputs, runs, s);
    assert SE.Executed(sem, plan, layout, graphInputs, runs, s);
  }

  lemma {:induction false} FedReads(plan: PartitionPlan, runs: seq<ShardRun>, s: nat, t: nat, r: Register)
    requires s < |runs| == |plan.shards| == |plan.dag.shards| && t < |runs| && r.Virtual?
    requires r in plan.dag.shards[s].inputs && Within(RangesOf(plan.shards)[t], r.index)
    requires SE.FedByOwners(runs[s].incoming, plan.dag.shards[s].inputs, Values(runs), RangesOf(plan.shards))
    ensures ReadsWhatWasMade(plan, runs[s], runs[t], t, r)
  {
    assert SE.FedByOwner(runs[s].incoming, Values(runs), RangesOf(plan.shards), r.index);
  }

  lemma {:induction false} EndsCommitAlike(
      sem: Semantics, commit: Commit, plan: PartitionPlan, layout: BoundaryLayout, index: map<string, Edge>, e: Edge,
      s: nat, consumer: ShardRun, consumed: LA.Statement, t: nat, producer: ShardRun, produced: LA.Statement)
    requires RanAlone(sem, plan, layout, s, consumer) && StatesRun(commit, plan, s, consumer, consumed)
    requires RanAlone(sem, plan, layout, t, producer) && StatesRun(commit, plan, t, producer, produced)
    requires C.Indexes(index, plan.dag.edges) && e in plan.dag.edges && e.consumer == s && e.producer == t
    requires e.register in ExternalSet(plan.shards[s].start, InstructionsOf(plan, s))
      && e.register in plan.dag.shards[t].outputs
    requires ReadsWhatWasMade(plan, consumer, producer, t, e.register)
    ensures AR.CommittedAt(produced.outputClaims, e.id) == AR.CommittedAt(consumed.inputClaims, e.id)
  {
    ConsumerCommits(sem, commit, plan, layout, s, consumer, consumed, index, e);
    ProducerCommits(sem, commit, plan, layout, t, producer, produced, index, e);
  }

  lemma {:induction false} HonestEdgeAgrees(
      sem: Semantics, commit: Commit, plan: PartitionPlan, layout: BoundaryLayout, graphInputs: map<string, Tensor>,
      runs: seq<ShardRun>, proofs: seq<LA.VerifiedProof>, index: map<string, Edge>, e: Edge)
    requires ValidPlan(plan) && Honest(sem, commit, plan, layout, graphInputs, runs, proofs) && AR.Decoded(proofs)
    requires C.Indexes(index, plan.dag.edges) && e in plan.dag.edges
    ensures AR.EdgeAgrees(e, e.id, proofs)
  {
    var t, s := e.producer, e.consumer;
    EdgeIsRead(plan, e);
    EdgeIsOutput(plan, e);
    HonestFed(sem, plan, layout, graphInputs, runs, s);
    FedReads(plan, runs, s, t, e.register);
    HonestShard(sem, commit, plan, layout, graphInputs, runs, proofs, s);
    HonestShard(sem, commit, plan, layout, graphInputs, runs, proofs, t);
    EndsCommitAlike(sem, commit, plan, layout, index, e, s, runs[s], proofs[s].statement.value, t, runs[t],
      proofs[t].statement.value);
  }

  // ----- graph inputs -----

  lemma {:induction false} PublicsFrom(claims: seq<PB.Binding>, role: PB.Role, b: PB.Binding) returns (k: nat)
    requires b in LA.Publics(claims, role)
    ensures k < |claims| && claims[k] == b && PB.IsPublic(b, role)
  {
    var n := |claims| - 1;
    if b in LA.Publics(claims[..n], role) {
      k := PublicsFrom(claims[..n], role, b);
    } else {
      k := n;
    }
  }

  /** A register whose identifier has the graph input prefix is that graph input. */
  lemma {:induction false} GraphInputById(r: Register)
    requires PB.GRAPH_INPUT_PREFIX <= PB.RegisterId(r)
    ensures r.GraphInput?
  {
    assert PB.RegisterId(r)[0] == PB.GRAPH_INPUT_PREFIX[0];
    assert PB.VIRTUAL_PREFIX[0] != PB.GRAPH_INPUT_PREFIX[0] && PB.WEIGHT_PREFIX[0] != PB.GRAPH_INPUT_PREFIX[0];
  }

  lemma {:induction false} GraphInputIdInjective(a: string, b: string)
    requires PB.RegisterId(GraphInput(a)) == PB.RegisterId(GraphInput(b))
    ensures a == b
  {
    var n := |PB.GRAPH_INPUT_PREFIX|;
    assert PB.RegisterId(GraphInput(a))[n..] == a && PB.RegisterId(GraphInput(b))[n..] == b;
  }

  /** What a shard publishes for a graph input depends on the input alone. */
  ghost predicate PublishesInput(
      commit: Commit, layout: BoundaryLayout, graphInputs: map<string, Tensor>, name: string, b: PB.Binding)
  {
    && ElementCount(layout, GraphInput(name)).Some? && name in graphInputs
    && b == PB.Binding(
         PB.Descriptor(PB.Input, PB.RegisterId(GraphInput(name)), [], [],
           ElementCount(layout, GraphInput(name)).value, SCALE),
         commit(GraphInput(name), graphInputs[name]))
  }

  lemma {:induction false} PublicInputIs(
      sem: Semantics, commit: Commit, plan: PartitionPlan, layout: BoundaryLayout, s: nat, run: ShardRun,
      statement: LA.Statement, b: PB.Binding) returns (name: string)
    requires RanAlone(sem, plan, layout, s, run) && StatesRun(commit, plan, s, run, statement)
    requires b in LA.Publics(statement.inputClaims, PB.Input)
    ensures PublishesInput(commit, layout, run.graphInputs, name, b)
  {
    var k := PublicsFrom(statement.inputClaims, PB.Input, b);
    var order, out := InputOrder(plan.shards[s].start, InstructionsOf(plan, s)), run.bound.inputBoundaries;
    assert StatesInput(commit, EnvOf(plan, run), out[k], b) && out[k].register == order[k];
    GraphInputById(order[k]);
    name := order[k].name;
  }

  lemma {:induction false} HonestInputsAgree(
      sem: Semantics, commit: Commit, plan: PartitionPlan, layout: BoundaryLayout, graphInputs: map<string, Tensor>,
      runs: seq<ShardRun>, proofs: seq<LA.VerifiedProof>, s: nat, t: nat, a: PB.Binding, b: PB.Binding)
    requires Honest(sem, commit, plan, layout, graphInputs, runs, proofs) && AR.Decoded(proofs)
    requires s < |proofs| && t < |proofs|
    requires a in AR.PublicInputsOf(proofs)[s] && b in AR.PublicInputsOf(proofs)[t]
    ensures PB.SameInput(a, b)
  {
    HonestShard(sem, commit, plan, layout, graphInputs, runs, proofs, s);
    HonestShard(sem, commit, plan, layout, graphInputs, runs, proofs, t);
    var x := PublicInputIs(sem, commit, plan, layout, s, runs[s], proofs[s].statement.value, a);
    var y := PublicInputIs(sem, commit, plan, layout, t, runs[t], proofs[t].statement.value, b);
    if a.descriptor.registerId == b.descriptor.registerId { GraphInputIdInjective(x, y); }
  }

  // ----- output names -----

  ghost predicate NamedIn(bindings: seq<PB.Binding>, name: string) {
    exists k :: 0 <= k < |bindings| && name in bindings[k].descriptor.graphOutputNames
  }

  /** Shard `s` computes a graph output of this name. */
  ghost predicate Names(plan: PartitionPlan, s: nat, name: string)
    requires s < |plan.shards|
  {
    exists k :: 0 <= k < |plan.programSnapshot.graphOutputs| && plan.programSnapshot.graphOutputs[k].0 == name
      && plan.programSnapshot.graphOutputs[k].1.Virtual?
      && Within(RangesOf(plan.shards)[s], plan.programSnapshot.graphOutputs[k].1.index)
  }

  /** No graph output name is given to values of two shards. */
  ghost predicate NamesInOneShard(plan: PartitionPlan) {
    forall s, t, name :: 0 <= s < t < |plan.shards| && Names(plan, s, name) ==> !Names(plan, t, name)
  }

  /** A compiled program gives a name to one register, so that the condition always holds of it. */
  lemma {:induction false} CompiledNamesInOneShard(
      g: OG.Graph, mapper: GC.Mapper, fused: GC.Plan, weights: map<string, Option<Tensor>>, order: seq<nat>,
      plan: PartitionPlan)
    requires ValidPlan(plan) && GC.Compiled(g, mapper, fused, weights, order) == Ok(plan.programSnapshot)
    ensures NamesInOneShard(plan)
  {
    var outputs, ranges := plan.programSnapshot.graphOutputs, RangesOf(plan.shards);
    forall j, k | 0 <= j < |outputs| && 0 <= k < |outputs| && outputs[j].0 == outputs[k].0
      ensures outputs[j].1 == outputs[k].1
    {
    }
    forall s, t, name | 0 <= s < t < |plan.shards| && Names(plan, s, name) ensures !Names(plan, t, name) {
      var j :| 0 <= j < |outputs| && outputs[j].0 == name && outputs[j].1.Virtual?
        && Within(ranges[s], outputs[j].1.index);
      RangesAscend(ranges, |plan.programSnapshot.instructions|, s, t);
    }
  }

  lemma {:induction false} OutputNamesHas(graphOutputs: seq<(string, Register)>, r: Register, name: string)
    ensures name in OutputNames(graphOutputs, r) <==> (name, r) in graphOutputs
  {
    if |graphOutputs| > 0 {
      var n := |graphOutputs| - 1;
      OutputNamesHas(graphOutputs[..n], r, name);
      assert graphOutputs == graphOutputs[..n] + [graphOutputs[n]];
      assert graphOutputs[n] == (graphOutputs[n].0, graphOutputs[n].1);
    } else {
      assert graphOutputs == [];
    }
  }

  /** A shard publishes exactly the names of the graph outputs it computes. */
  lemma {:induction false} PublishedNames(
      sem: Semantics, commit: Commit, plan: PartitionPlan, layout: BoundaryLayout, s: nat, run: ShardRun,
      statement: LA.Statement, name: string)
    requires ValidPlan(plan) && RanAlone(sem, plan, layout, s, run) && StatesRun(commit, plan, s, run, statement)
    ensures Names(plan, s, name) <==> NamedIn(LA.Publics(statement.outputClaims, PB.Output), name)
  {
    var range := Range(plan.shards[s].start, plan.shards[s].end);
    var order := OutputOrder(plan.programSnapshot, plan.dag.shards[s].outputs, range);
    if Names(plan, s, name) { NamePublished(commit, plan, layout, s, run, statement, order, range, name); }
    if NamedIn(LA.Publics(statement.outputClaims, PB.Output), name) {
      var r := PublishedName(commit, plan, layout, s, run, statement, order, name);
      SE.PublishesOwn(plan, s);
      assert r in Elements(order);
      var j :| 0 <= j < |plan.programSnapshot.graphOutputs| && plan.programSnapshot.graphOutputs[j] == (name, r);
    }
  }

  lemma {:induction false} NamePublished(
      commit: Commit, plan: PartitionPlan, layout: BoundaryLayout, s: nat, run: ShardRun, statement: LA.Statement,
      order: seq<Register>, range: Range, name: string)
    requires StatesRun(commit, plan, s, run, statement)
      && DescribesOutputs(plan, layout, s, order, run.bound.outputBoundaries)
    requires range == RangesOf(plan.shards)[s] && s < |plan.dag.shards|
    requires Elements(order) == OutputSet(plan.programSnapshot, plan.dag.shards[s].outputs, range)
    requires Names(plan, s, name)
    ensures NamedIn(LA.Publics(statement.outputClaims, PB.Output), name)
  {
    var program := plan.programSnapshot;
    var k :| 0 <= k < |program.graphOutputs| && program.graphOutputs[k].0 == name
      && program.graphOutputs[k].1.Virtual? && Within(range, program.graphOutputs[k].1.index);
    var r := program.graphOutputs[k].1;
    assert program.graphOutputs[k] == (name, r);
    assert r in Elements(order);
    var j :| 0 <= j < |order| && order[j] == r;
    NamesAt(commit, plan, layout, s, run, statement, order, j, name);
    PublicNamed(statement.outputClaims, j, name);
  }

  lemma {:induction false} PublicNamed(claims: seq<PB.Binding>, j: nat, name: string)
    requires j < |claims| && name in claims[j].descriptor.graphOutputNames
    ensures NamedIn(LA.Publics(claims, PB.Output), name)
  {
    PublicsHas(claims, PB.Output, claims[j]);
  }

  lemma {:induction false} PublishedName(
      commit: Commit, plan: PartitionPlan, layout: BoundaryLayout, s: nat, run: ShardRun, statement: LA.Statement,
      order: seq<Register>, name: string) returns (r: Register)
    requires StatesRun(commit, plan, s, run, statement)
      && DescribesOutputs(plan, layout, s, order, run.bound.outputBoundaries)
    requires NamedIn(LA.Publics(statement.outputClaims, PB.Output), name)
    ensures r in order && (name, r) in plan.programSnapshot.graphOutputs
  {
    var published := LA.Publics(statement.outputClaims, PB.Output);
    var i :| 0 <= i < |published| && name in published[i].descriptor.graphOutputNames;
    var k := PublicsFrom(statement.outputClaims, PB.Output, published[i]);
    NamesAt(commit, plan, layout, s, run, statement, order, k, name);
    r := order[k];
  }

  lemma {:induction false} NamesAt(
      commit: Commit, plan: PartitionPlan, layout: BoundaryLayout, s: nat, run: ShardRun, statement: LA.Statement,
      order: seq<Register>, k: nat, name: string)
    requires StatesRun(commit, plan, s, run, statement)
      && DescribesOutputs(plan, layout, s, order, run.bound.outputBoundaries) && k < |order|
    ensures k < |statement.outputClaims|
    ensures name in statement.outputClaims[k].descriptor.graphOutputNames <==>
      (name, order[k]) in plan.programSnapshot.graphOutputs
  {
    var names := OutputNames(plan.programSnapshot.graphOutputs, order[k]);
    assert StatesOutput(commit, plan.shards[s].start, run.virtuals, run.bound.outputBoundaries[k],
      statement.outputClaims[k]);
    OutputNamesHas(plan.programSnapshot.graphOutputs, order[k], name);
    SortedIds(names, name);
  }

  lemma {:induction false} HonestNames(
      sem: Semantics, commit: Commit, plan: PartitionPlan, layout: BoundaryLayout, graphInputs: map<string, Tensor>,
      runs: seq<ShardRun>, proofs: seq<LA.VerifiedProof>, s: nat, name: string)
    requires ValidPlan(plan) && Honest(sem, commit, plan, layout, graphInputs, runs, proofs) && AR.Decoded(proofs)
    requires s < |proofs|
    ensures Names(plan, s, name) <==> NamedIn(AR.PublicOutputsOf(proofs)[s], name)
  {
    HonestShard(sem, commit, plan, layout, graphInputs, runs, proofs, s);
    PublishedNames(sem, commit, plan, layout, s, runs[s], proofs[s].statement.value, name);
  }

  lemma {:induction false} HonestNamesApart(
      sem: Semantics, commit: Commit, plan: PartitionPlan, layout: BoundaryLayout, graphInputs: map<string, Tensor>,
      runs: seq<ShardRun>, proofs: seq<LA.VerifiedProof>)
    requires ValidPlan(plan) && Honest(sem, commit, plan, layout, graphInputs, runs, proofs) && AR.Decoded(proofs)
    ensures PB.ShardsRelate(PB.NamesApart, AR.PublicOutputsOf(proofs), 0, |proofs|) <==> NamesInOneShard(plan)
  {
    var lists := AR.PublicOutputsOf(proofs);
    forall s: nat, name | s < |proofs| ensures Names(plan, s, name) <==> NamedIn(lists[s], name) {
      HonestNames(sem, commit, plan, layout, graphInputs, runs, proofs, s, name);
    }
    ApartByName(plan, lists);
  }

  lemma {:induction false} ApartNotShared(xs: seq<PB.Binding>, ys: seq<PB.Binding>, name: string)
    requires NamedIn(xs, name) && forall a, b :: a in xs && b in ys ==> PB.NamesApart(a, b)
    ensures !NamedIn(ys, name)
  {
    var i :| 0 <= i < |xs| && name in xs[i].descriptor.graphOutputNames;
    forall j | 0 <= j < |ys| ensures name !in ys[j].descriptor.graphOutputNames {
      assert PB.NamesApart(xs[i], ys[j]);
    }
  }

  lemma {:induction false} ApartByName(plan: PartitionPlan, lists: seq<seq<PB.Binding>>)
    requires |lists| == |plan.shards|
    requires forall s: nat, name :: s < |lists| ==> (Names(plan, s, name) <==> NamedIn(lists[s], name))
    ensures PB.ShardsRelate(PB.NamesApart, lists, 0, |lists|) <==> NamesInOneShard(plan)
  {
    if PB.ShardsRelate(PB.NamesApart, lists, 0, |lists|) {
      forall s, t, name | 0 <= s < t < |plan.shards| && Names(plan, s, name) ensures !Names(plan, t, name) {
        ApartNotShared(lists[s], lists[t], name);
      }
    }
    if NamesInOneShard(plan) {
      forall s, t, a, b | 0 <= s < t < |lists| && a in lists[s] && b in lists[t] ensures PB.NamesApart(a, b) {
        forall name | name in a.descriptor.graphOutputNames ensures name !in b.descriptor.graphOutputNames {
          NamedBy(lists[s], a, name);
          if name in b.descriptor.graphOutputNames { NamedBy(lists[t], b, name); }
        }
      }
    }
  }

  lemma {:induction false} NamedBy(bindings: seq<PB.Binding>, b: PB.Binding, name: string)
    requires b in bindings && name in b.descriptor.graphOutputNames
    ensures NamedIn(bindings, name)
  {
  }

  // ----- the flat check -----

  lemma {:induction false} HonestDecoded(
      sem: Semantics, commit: Commit, plan: PartitionPlan, layout: BoundaryLayout, graphInputs: map<string, Tensor>,
      runs: seq<ShardRun>, proofs: seq<LA.VerifiedProof>)
    requires Honest(sem, commit, plan, layout, graphInputs, runs, proofs)
    ensures AR.Decoded(proofs)
  {
    forall s | 0 <= s < |proofs| ensures proofs[s].statement.Some? {
      assert Commits(commit, plan, s, runs[s], proofs[s]);
    }
  }

  lemma {:induction false} HonestInputsRelate(
      sem: Semantics, commit: Commit, plan: PartitionPlan, layout: BoundaryLayout, graphInputs: map<string, Tensor>,
      runs: seq<ShardRun>, proofs: seq<LA.VerifiedProof>)
    requires Honest(sem, commit, plan, layout, graphInputs, runs, proofs) && AR.Decoded(proofs)
    ensures PB.ShardsRelate(PB.SameInput, AR.PublicInputsOf(proofs), 0, |proofs|)
  {
    var lists := AR.PublicInputsOf(proofs);
    forall s, t, a, b | 0 <= s < t < |proofs| && a in lists[s] && b in lists[t] ensures PB.SameInput(a, b) {
      HonestInputsAgree(sem, commit, plan, layout, graphInputs, runs, proofs, s, t, a, b);
    }
  }

  /** The statements of an honest run pass the flat check exactly when no output name belongs to two shards. */
  lemma {:induction false} HonestStatementsAgree(
      sem: Semantics, commit: Commit, plan: PartitionPlan, layout: BoundaryLayout, graphInputs: map<string, Tensor>,
      runs: seq<ShardRun>, proofs: seq<LA.VerifiedProof>,
      index: map<string, Edge>)
    requires ValidPlan(plan) && Honest(sem, commit, plan, layout, graphInputs, runs, proofs)
    requires C.Indexes(index, plan.dag.edges)
    ensures AR.Decoded(proofs)
    ensures AR.StatementsAgree(index, proofs) <==> NamesInOneShard(plan)
  {
    HonestDecoded(sem, commit, plan, layout, graphInputs, runs, proofs);
    forall id | id in index ensures AR.EdgeAgrees(index[id], id, proofs) {
      HonestEdgeAgrees(sem, commit, plan, layout, graphInputs, runs, proofs, index, index[id]);
    }
    HonestInputsRelate(sem, commit, plan, layout, graphInputs, runs, proofs);
    HonestNamesApart(sem, commit, plan, layout, graphInputs, runs, proofs);
  }

  // ----- admission -----

  /** The claim is for this register, names exactly the edges that carry it here, and is routed or public. */
  ghost predicate ClaimRouted(edges: seq<Edge>, s: nat, role: PB.Role, r: Register, claim: PB.Binding) {
    && claim.descriptor.registerId == PB.RegisterId(r)
    && (forall id :: id in claim.descriptor.edgeIds <==> CarriedBy(edges, s, role, r, id))
    && (claim.descriptor.edgeIds != [] || PB.IsPublic(claim, role))
  }

  ghost predicate CarriedBy(edges: seq<Edge>, s: nat, role: PB.Role, r: Register, id: string) {
    exists e :: e in edges && e.id == id && e.register == r && LA.EndOf(e, role) == s
  }

  ghost predicate Routed(
      edges: seq<Edge>, s: nat, role: PB.Role, order: seq<Register>, claims: seq<PB.Binding>)
  {
    && |claims| == |order| && Distinct(order)
    && (forall k :: 0 <= k < |order| ==> ClaimRouted(edges, s, role, order[k], claims[k]))
    && (forall e :: e in edges && LA.EndOf(e, role) == s ==> e.register in order)
  }

  lemma {:induction false} RoutedFits(
      index: map<string, Edge>, edges: seq<Edge>, s: nat, role: PB.Role, order: seq<Register>,
      claims: seq<PB.Binding>)
    requires C.Indexes(index, edges) && Routed(edges, s, role, order, claims)
    ensures LA.SideFits(index, s, role, claims)
  {
    forall k | 0 <= k < |claims| ensures LA.ClaimFits(index, s, role, claims[k]) {
      assert ClaimRouted(edges, s, role, order[k], claims[k]);
    }
    forall i, j, id | 0 <= i < j < |claims| && id in claims[i].descriptor.edgeIds
      ensures id !in claims[j].descriptor.edgeIds
    {
      assert ClaimRouted(edges, s, role, order[i], claims[i]) && ClaimRouted(edges, s, role, order[j], claims[j]);
      assert order[i] != order[j];
    }
  }

  lemma {:induction false} RoutedCovers(
      index: map<string, Edge>, edges: seq<Edge>, s: nat, role: PB.Role, order: seq<Register>,
      claims: seq<PB.Binding>)
    requires C.Indexes(index, edges) && Routed(edges, s, role, order, claims)
    ensures LA.Covers(index, s, role, claims)
  {
    forall id | id in index && LA.EndOf(index[id], role) == s ensures LA.Lists(claims, id) {
      var e := index[id];
      var k :| 0 <= k < |order| && order[k] == e.register;
      assert ClaimRouted(edges, s, role, order[k], claims[k]) && CarriedBy(edges, s, role, order[k], id);
    }
  }

  lemma {:induction false} CarriedIds(edges: seq<Edge>, s: nat, role: PB.Role, r: Register, id: string)
    ensures id in SortBy(TextLe, EdgeIdsFor(edges, s, r, role == PB.Output)) <==> CarriedBy(edges, s, role, r, id)
  {
    SortedIds(EdgeIdsFor(edges, s, r, role == PB.Output), id);
  }

  lemma {:induction false} InputRouted(
      commit: Commit, plan: PartitionPlan, layout: BoundaryLayout, s: nat, run: ShardRun, statement: LA.Statement,
      order: seq<Register>, k: nat)
    requires ValidPlan(plan) && InPlan(plan, s) && StatesRun(commit, plan, s, run, statement)
      && DescribesInputs(plan, layout, s, order, run.bound.inputBoundaries) && k < |order|
    requires order[k] in ExternalSet(plan.shards[s].start, InstructionsOf(plan, s))
    ensures k < |statement.inputClaims| && ClaimRouted(plan.dag.edges, s, PB.Input, order[k], statement.inputClaims[k])
  {
    var claim := statement.inputClaims[k];
    assert StatesInput(commit, EnvOf(plan, run), run.bound.inputBoundaries[k], claim);
    forall id ensures id in claim.descriptor.edgeIds <==> CarriedBy(plan.dag.edges, s, PB.Input, order[k], id) {
      CarriedIds(plan.dag.edges, s, PB.Input, order[k], id);
    }
    if order[k].Virtual? {
      var e := CarryingEdge(plan, s, order[k].index);
      assert CarriedBy(plan.dag.edges, s, PB.Input, order[k], e.id);
    } else {
      GraphInputHasNoEdge(plan, s, order[k].name);
    }
  }

  lemma {:induction false} InputsRouted(
      sem: Semantics, commit: Commit, plan: PartitionPlan, layout: BoundaryLayout, s: nat, run: ShardRun,
      statement: LA.Statement)
    requires ValidPlan(plan) && RanAlone(sem, plan, layout, s, run) && StatesRun(commit, plan, s, run, statement)
    ensures Routed(plan.dag.edges, s, PB.Input, InputOrder(plan.shards[s].start, InstructionsOf(plan, s)),
      statement.inputClaims)
  {
    var order := InputOrder(plan.shards[s].start, InstructionsOf(plan, s));
    forall k | 0 <= k < |order| ensures ClaimRouted(plan.dag.edges, s, PB.Input, order[k], statement.inputClaims[k]) {
      assert order[k] in Elements(order);
      InputRouted(commit, plan, layout, s, run, statement, order, k);
    }
    forall e | e in plan.dag.edges && LA.EndOf(e, PB.Input) == s ensures e.register in order {
      EdgeIsRead(plan, e);
      assert e.register in Elements(order);
    }
  }

  /** Another shard reads whatever the DAG lists as an output. */
  lemma {:induction false} LeavingEdge(plan: PartitionPlan, s: nat, r: Register) returns (e: Edge)
    requires ValidPlan(plan) && s < |plan.dag.shards| && r in plan.dag.shards[s].outputs
    ensures e in plan.dag.edges && e.producer == s && e.register == r
  {
    var program, specs := plan.programSnapshot, SpecsOf(plan.shards);
    BoundaryRegisters(plan, s);
    ShardOutputsExact(program, specs, s, r.index);
    var c: nat :| c != s && ReadIn(program, specs, c, r.index);
    EdgesExact(program, specs, s, c, r.index);
    e :| e in plan.dag.edges && e.producer == s && e.consumer == c && e.register == Virtual(r.index);
  }

  lemma {:induction false} OutputRouted(
      commit: Commit, plan: PartitionPlan, layout: BoundaryLayout, s: nat, run: ShardRun, statement: LA.Statement,
      order: seq<Register>, range: Range, k: nat)
    requires ValidPlan(plan) && StatesRun(commit, plan, s, run, statement) && s < |plan.dag.shards|
      && DescribesOutputs(plan, layout, s, order, run.bound.outputBoundaries) && k < |order|
    requires order[k] in OutputSet(plan.programSnapshot, plan.dag.shards[s].outputs, range)
    ensures k < |statement.outputClaims|
    ensures ClaimRouted(plan.dag.edges, s, PB.Output, order[k], statement.outputClaims[k])
  {
    var claim, r := statement.outputClaims[k], order[k];
    assert StatesOutput(commit, plan.shards[s].start, run.virtuals, run.bound.outputBoundaries[k], claim);
    forall id ensures id in claim.descriptor.edgeIds <==> CarriedBy(plan.dag.edges, s, PB.Output, r, id) {
      CarriedIds(plan.dag.edges, s, PB.Output, r, id);
    }
    if r in plan.dag.shards[s].outputs {
      var id := LeavingId(plan, s, r);
      assert id in claim.descriptor.edgeIds;
    } else {
      var name := NamedOutput(plan, s, r, range);
      NamesAt(commit, plan, layout, s, run, statement, order, k, name);
    }
  }

  lemma {:induction false} LeavingId(plan: PartitionPlan, s: nat, r: Register) returns (id: string)
    requires ValidPlan(plan) && s < |plan.dag.shards| && r in plan.dag.shards[s].outputs
    ensures CarriedBy(plan.dag.edges, s, PB.Output, r, id)
  {
    var e := LeavingEdge(plan, s, r);
    id := e.id;
  }

  lemma {:induction false} NamedOutput(plan: PartitionPlan, s: nat, r: Register, range: Range) returns (name: string)
    requires s < |plan.dag.shards| && r !in plan.dag.shards[s].outputs
    requires r in OutputSet(plan.programSnapshot, plan.dag.shards[s].outputs, range)
    ensures (name, r) in plan.programSnapshot.graphOutputs
  {
    var outputs := plan.programSnapshot.graphOutputs;
    var j :| 0 <= j < |outputs| && outputs[j].1 == r;
    name := outputs[j].0;
    assert outputs[j] == (name, r);
  }

  lemma {:induction false} OutputsRouted(
      sem: Semantics, commit: Commit, plan: PartitionPlan, layout: BoundaryLayout, s: nat, run: ShardRun,
      statement: LA.Statement)
    requires ValidPlan(plan) && RanAlone(sem, plan, layout, s, run) && StatesRun(commit, plan, s, run, statement)
    ensures exists order :: Routed(plan.dag.edges, s, PB.Output, order, statement.outputClaims)
  {
    var range := Range(plan.shards[s].start, plan.shards[s].end);
    var order := OutputOrder(plan.programSnapshot, plan.dag.shards[s].outputs, range);
    forall k | 0 <= k < |order| ensures ClaimRouted(plan.dag.edges, s, PB.Output, order[k], statement.outputClaims[k]) {
      assert order[k] in Elements(order);
      OutputRouted(commit, plan, layout, s, run, statement, order, range, k);
    }
    forall e | e in plan.dag.edges && LA.EndOf(e, PB.Output) == s ensures e.register in order {
      EdgeIsOutput(plan, e);
      assert e.register in Elements(order);
    }
    assert Routed(plan.dag.edges, s, PB.Output, order, statement.outputClaims);
  }

  /** The envelope and the declared public boundaries are what the trusted expectation says. */
  ghost predicate AsDeclared(run: C.Run, s: nat, e: LA.LeafExpectation, p: LA.VerifiedProof) {
    && p.shard == s && p.identity == e.identity && p.statement.Some? && p.statement.value.flavor == run.flavor
    && LA.PublicsExpected(p.statement.value, e)
  }

  /** A shard's own statement names its ends of the DAG's edges: with the right envelope it is admitted. */
  lemma {:induction false} HonestIsAdmissible(
      sem: Semantics, commit: Commit, plan: PartitionPlan, layout: BoundaryLayout, s: nat, shardRun: ShardRun,
      index: map<string, Edge>, run: C.Run, e: LA.LeafExpectation, p: LA.VerifiedProof)
    requires ValidPlan(plan) && RanAlone(sem, plan, layout, s, shardRun) && Commits(commit, plan, s, shardRun, p)
    requires C.Indexes(index, plan.dag.edges)
    ensures LA.Admissible(index, s, run, e, p) <==> AsDeclared(run, s, e, p)
  {
    var statement := p.statement.value;
    InputsRouted(sem, commit, plan, layout, s, shardRun, statement);
    var inputs := InputOrder(plan.shards[s].start, InstructionsOf(plan, s));
    RoutedFits(index, plan.dag.edges, s, PB.Input, inputs, statement.inputClaims);
    RoutedCovers(index, plan.dag.edges, s, PB.Input, inputs, statement.inputClaims);
    OutputsRouted(sem, commit, plan, layout, s, shardRun, statement);
    var outputs :| Routed(plan.dag.edges, s, PB.Output, outputs, statement.outputClaims);
    RoutedFits(index, plan.dag.edges, s, PB.Output, outputs, statement.outputClaims);
    RoutedCovers(index, plan.dag.edges, s, PB.Output, outputs, statement.outputClaims);
  }

  // ----- acceptance -----

  /** Everything declared as expected, and the DAG within the aggregation limits. */
  ghost predicate Declared(
      plan: PartitionPlan, run: C.Run, expectations: seq<LA.LeafExpectation>, proofs: seq<LA.VerifiedProof>)
  {
    && NM.IndexAccepts(plan.dag.edges, |expectations|) && |expectations| == |proofs|
    && forall s :: 0 <= s < |proofs| ==> AsDeclared(run, s, expectations[s], proofs[s])
  }

  /**
   * The manifest of an honest run is built exactly when the proofs are as declared and no graph output name belongs
   * to values of two shards.
   */
  lemma {:induction false} HonestRunIsAccepted(
      sem: Semantics, commit: Commit, plan: PartitionPlan, layout: BoundaryLayout, graphInputs: map<string, Tensor>,
      runs: seq<ShardRun>, proofs: seq<LA.VerifiedProof>, fan: nat, run: C.Run,
      expectations: seq<LA.LeafExpectation>, r: Result<C.VerifiedClaim, NM.ManifestError>, w: C.World)
    requires ValidPlan(plan) && Honest(sem, commit, plan, layout, graphInputs, runs, proofs)
    requires AR.Built(plan.dag.edges, fan, run, expectations, proofs, r, w)
    ensures r.Ok? <==> Declared(plan, run, expectations, proofs) && NamesInOneShard(plan)
  {
    if NM.IndexAccepts(plan.dag.edges, |expectations|) {
      forall s | 0 <= s < |proofs| && s < |expectations|
        ensures LA.Admissible(w.index, s, run, expectations[s], proofs[s]) <==>
          AsDeclared(run, s, expectations[s], proofs[s])
      {
        HonestShard(sem, commit, plan, layout, graphInputs, runs, proofs, s);
        HonestIsAdmissible(sem, commit, plan, layout, s, runs[s], w.index, run, expectations[s], proofs[s]);
      }
      assert NM.AllAdmissible(w.index, run, expectations, proofs) <==> Declared(plan, run, expectations, proofs);
      HonestStatementsAgree(sem, commit, plan, layout, graphInputs, runs, proofs, w.index);
      if Declared(plan, run, expectations, proofs) {
        AR.FlatIsStatementsAgree(w, run, proofs);
      }
    }
  }
}
