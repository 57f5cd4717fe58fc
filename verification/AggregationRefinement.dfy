/** What the tree of merges means: the flat check on the statements, the linker's check, nothing about fan-in. */
module AggregationRefinement {
  import opened Prelude
  import opened Program
  import opened DagModel
  import opened AggregationPlan
  import opened PublicBoundary
  import opened Claims
  import opened ClaimMerge
  import opened LeafAdmission
  import opened NativeManifest
  import Linker

  // ----- the flat check, read off the statements -----

  /** The commitment the claims make for an edge. */
  function CommittedAt(claims: seq<Binding>, id: string): Option<Commitment> {
    if |claims| == 0 then None
    else if id in claims[0].descriptor.edgeIds then Some(claims[0].commitment)
    else CommittedAt(claims[1..], id)
  }

  lemma {:induction false} CommittedIs(claims: seq<Binding>, id: string, k: nat)
    requires k < |claims| && id in claims[k].descriptor.edgeIds
    requires forall j :: 0 <= j < k ==> id !in claims[j].descriptor.edgeIds
    ensures CommittedAt(claims, id) == Some(claims[k].commitment)
    decreases k
  {
    if k > 0 {
      CommittedIs(claims[1..], id, k - 1);
    }
  }

  lemma {:induction false} NothingCommitted(claims: seq<Binding>, id: string)
    requires !Lists(claims, id)
    ensures CommittedAt(claims, id).None?
    decreases |claims|
  {
    if |claims| > 0 {
      assert forall k :: 0 <= k < |claims[1..]| ==> claims[1..][k] == claims[k + 1];
      NothingCommitted(claims[1..], id);
    }
  }

  lemma {:induction false} FirstListing(claims: seq<Binding>, id: string) returns (k: nat)
    requires Lists(claims, id)
    ensures k < |claims| && id in claims[k].descriptor.edgeIds && forall j :: 0 <= j < k ==>
      id !in claims[j].descriptor.edgeIds
  {
    k := 0;
    while id !in claims[k].descriptor.edgeIds
      invariant k < |claims| && forall j :: 0 <= j < k ==> id !in claims[j].descriptor.edgeIds
      decreases |claims| - k
    {
      k := k + 1;
    }
  }

  /** A filled slot holds what the claims commit to for the edge. */
  lemma {:induction false} SlotIsCommitted(
      frontier: map<string, EdgeFrontier>, role: Role, claims: seq<Binding>, id: string)
    requires SlotsFor(frontier, role, claims)
    ensures Slot(frontier, id, role) == CommittedAt(claims, id)
  {
    if Lists(claims, id) {
      var k := FirstListing(claims, id);
      CommittedIs(claims, id, k);
    } else {
      NothingCommitted(claims, id);
    }
  }

  ghost predicate Decoded(proofs: seq<VerifiedProof>) {
    forall s :: 0 <= s < |proofs| ==> proofs[s].statement.Some?
  }

  ghost function PublicInputsOf(proofs: seq<VerifiedProof>): (lists: seq<seq<Binding>>)
    requires Decoded(proofs)
    ensures |lists| == |proofs| && forall s :: 0 <= s < |lists| ==>
      lists[s] == Publics(proofs[s].statement.value.inputClaims, Input)
  {
    seq(|proofs|, s requires 0 <= s < |proofs| => Publics(proofs[s].statement.value.inputClaims, Input))
  }

  ghost function PublicOutputsOf(proofs: seq<VerifiedProof>): (lists: seq<seq<Binding>>)
    requires Decoded(proofs)
    ensures |lists| == |proofs| && forall s :: 0 <= s < |lists| ==>
      lists[s] == Publics(proofs[s].statement.value.outputClaims, Output)
  {
    seq(|proofs|, s requires 0 <= s < |proofs| => Publics(proofs[s].statement.value.outputClaims, Output))
  }

  /** Producer and consumer commit to the same value on an edge. */
  ghost predicate EdgeAgrees(e: Edge, id: string, proofs: seq<VerifiedProof>)
    requires Decoded(proofs)
  {
    && ForwardEdge(e, |proofs|)
    && CommittedAt(proofs[e.producer].statement.value.outputClaims, id)
      == CommittedAt(proofs[e.consumer].statement.value.inputClaims, id)
  }

  /** The whole acceptance condition as a statement about edges and proofs alone. */
  ghost predicate StatementsAgree(index: map<string, Edge>, proofs: seq<VerifiedProof>)
    requires Decoded(proofs)
  {
    && (forall id :: id in index ==> EdgeAgrees(index[id], id, proofs))
    && ShardsRelate(SameInput, PublicInputsOf(proofs), 0, |proofs|)
    && ShardsRelate(NamesApart, PublicOutputsOf(proofs), 0, |proofs|)
  }

  lemma {:induction false} EndIsCommitted(w: World, run: Run, proofs: seq<VerifiedProof>, id: string)
    requires ValidWorld(w) && AdmittedFrom(w, run, proofs) && id in w.index
    ensures ForwardEdge(w.index[id], |proofs|)
    ensures var p, c := proofs[w.index[id].producer], proofs[w.index[id].consumer];
      && p.statement.Some? && c.statement.Some?
      && Produced(w, id) == CommittedAt(p.statement.value.outputClaims, id)
      && Consumed(w, id) == CommittedAt(c.statement.value.inputClaims, id)
  {
    var e := w.index[id];
    assert AdmittedAt(w.index, run, e.producer, w.leaves[e.producer], proofs[e.producer]);
    assert AdmittedAt(w.index, run, e.consumer, w.leaves[e.consumer], proofs[e.consumer]);
    SlotIsCommitted(w.leaves[e.producer].frontier, Output, proofs[e.producer].statement.value.outputClaims, id);
    SlotIsCommitted(w.leaves[e.consumer].frontier, Input, proofs[e.consumer].statement.value.inputClaims, id);
  }

  /** The flat check is a condition on the admitted statements alone. */
  lemma {:induction false} FlatIsStatementsAgree(w: World, run: Run, proofs: seq<VerifiedProof>)
    requires ValidWorld(w) && AdmittedFrom(w, run, proofs)
    ensures Decoded(proofs)
    ensures FlatAccepts(w) <==> StatementsAgree(w.index, proofs)
  {
    forall s | 0 <= s < |proofs|
      ensures proofs[s].statement.Some?
    {
      assert AdmittedAt(w.index, run, s, w.leaves[s], proofs[s]);
    }
    forall id | id in w.index
      ensures Inside(w.index[id], 0, |w.leaves|)
      ensures EdgeAgrees(w.index[id], id, proofs) <==> Produced(w, id) == Consumed(w, id)
    {
      EndIsCommitted(w, run, proofs, id);
    }
    forall s | 0 <= s < |proofs|
      ensures Inputs(w)[s] == PublicInputsOf(proofs)[s] && Outputs(w)[s] == PublicOutputsOf(proofs)[s]
    {
      assert AdmittedAt(w.index, run, s, w.leaves[s], proofs[s]);
    }
    assert Inputs(w) == PublicInputsOf(proofs) && Outputs(w) == PublicOutputsOf(proofs);
  }

  // ----- the tree does not matter -----

  /** The same proofs admit to the same leaves. */
  lemma {:induction false} AdmissionUnique(v: World, w: World, run: Run, proofs: seq<VerifiedProof>)
    requires v.index == w.index && ValidWorld(v) && ValidWorld(w) && AdmittedFrom(v, run, proofs)
      && AdmittedFrom(w, run, proofs)
    ensures v == w
  {
    forall s | 0 <= s < |proofs| ensures v.leaves[s] == w.leaves[s] {
      assert AdmittedAt(v.index, run, s, v.leaves[s], proofs[s]) && AdmittedAt(w.index, run, s, w.leaves[s], proofs[s]);
      LeafUnique(v.index, run, s, v.leaves[s], w.leaves[s], proofs[s]);
    }
  }

  lemma {:induction false} LeafUnique(
      index: map<string, Edge>, run: Run, s: nat, a: VerifiedClaim, b: VerifiedClaim, p: VerifiedProof)
    requires AdmittedAt(index, run, s, a, p) && AdmittedAt(index, run, s, b, p)
    ensures a == b
  {
    forall id | id in a.frontier ensures a.frontier[id] == b.frontier[id] {
      SlotIsCommitted(a.frontier, Input, p.statement.value.inputClaims, id);
      SlotIsCommitted(b.frontier, Input, p.statement.value.inputClaims, id);
      SlotIsCommitted(a.frontier, Output, p.statement.value.outputClaims, id);
      SlotIsCommitted(b.frontier, Output, p.statement.value.outputClaims, id);
    }
    assert a.frontier == b.frontier;
  }

  /** Two claims over the same shards say the same; as nodes they also list their publics alike. */
  lemma {:induction false} ClaimDetermined(w: World, a: VerifiedClaim, b: VerifiedClaim, lo: nat, hi: nat)
    requires ClaimFor(w, a, lo, hi) && ClaimFor(w, b, lo, hi)
    ensures a.covered == b.covered && a.frontier == b.frontier && a.closed == b.closed && a.leaves == b.leaves
    ensures Elements(a.publicInputs) == Elements(b.publicInputs)
      && Elements(a.publicOutputs) == Elements(b.publicOutputs)
    ensures ListsInOrder(w, a, lo, hi) && ListsInOrder(w, b, lo, hi) ==>
      a.publicInputs == b.publicInputs && a.publicOutputs == b.publicOutputs
  {
    assert a.frontier == b.frontier;
    if ListsInOrder(w, a, lo, hi) && ListsInOrder(w, b, lo, hi) {
      SameLists(w, a, b, lo, hi);
    }
  }

  lemma {:induction false} SameLists(w: World, a: VerifiedClaim, b: VerifiedClaim, lo: nat, hi: nat)
    requires lo <= hi <= |w.leaves| && ListsInOrder(w, a, lo, hi) && ListsInOrder(w, b, lo, hi)
    ensures a.publicInputs == b.publicInputs && a.publicOutputs == b.publicOutputs
  {
    var inputs, outputs := BindingsIn(Inputs(w), lo, hi), BindingsIn(Outputs(w), lo, hi);
    var x :| InputTable(x, inputs) && a.publicInputs == Values(x);
    var y :| InputTable(y, inputs) && b.publicInputs == Values(y);
    SameInputTables(x, y, inputs);
    var u :| OutputTable(u, outputs) && a.publicOutputs == Values(u);
    var v :| OutputTable(v, outputs) && b.publicOutputs == Values(v);
    SameOutputTables(u, v, outputs);
  }

  /** What a build of the manifest guarantees. */
  ghost predicate Built(
      edges: seq<Edge>, fan: nat, run: Run, expectations: seq<LeafExpectation>, proofs: seq<VerifiedProof>,
      r: Result<VerifiedClaim, ManifestError>, w: World)
  {
    && MIN_FAN_IN <= fan <= MAX_FAN_IN
    && (IndexAccepts(edges, |expectations|) ==> Indexes(w.index, edges))
    && (r.Ok? ==> IndexAccepts(edges, |expectations|) && AllAdmissible(w.index, run, expectations, proofs))
    && (IndexAccepts(edges, |expectations|) && AllAdmissible(w.index, run, expectations, proofs) ==>
          ValidWorld(w) && AdmittedFrom(w, run, proofs) && (r.Ok? <==> FlatAccepts(w)))
    && (r.Ok? ==> ClaimFor(w, r.value, 0, |expectations|))
    && (r.Ok? && |expectations| > 1 ==> ListsInOrder(w, r.value, 0, |expectations|))
  }

  /** Building the manifest over the planned tree gives what `Built` says. */
  method BuildManifest(
      edges: seq<Edge>, fan: nat, run: Run, expectations: seq<LeafExpectation>, proofs: seq<VerifiedProof>,
      tree: AggregationTree)
    returns (r: Result<VerifiedClaim, ManifestError>, ghost w: World)
    requires ValidExpectations(expectations) && MIN_FAN_IN <= fan <= MAX_FAN_IN && tree == TreeFor(|expectations|, fan)
    requires forall s :: 0 <= s < |proofs| ==> ValidProof(proofs[s])
    ensures Built(edges, fan, run, expectations, proofs, r, w)
  {
    r, w := BuildNativeManifest(edges, fan, tree, run, expectations, proofs);
  }

  /** Builds of the same proofs succeed alike for every fan-in, and with two leaves or more give the same root maps. */
  lemma {:induction false} FanInDoesNotMatter(
      edges: seq<Edge>, run: Run, expectations: seq<LeafExpectation>, proofs: seq<VerifiedProof>,
      fan: nat, r: Result<VerifiedClaim, ManifestError>, w: World, fan': nat, r': Result<VerifiedClaim, ManifestError>,
      w': World)
    requires Built(edges, fan, run, expectations, proofs, r, w) && Built(edges, fan', run, expectations, proofs, r', w')
    ensures r.Ok? <==> r'.Ok?
    ensures r.Ok? ==>
      && r.value.covered == r'.value.covered && r.value.frontier == r'.value.frontier == map[]
      && r.value.closed == r'.value.closed
      && r.value.leaves == r'.value.leaves
      && Elements(r.value.publicInputs) == Elements(r'.value.publicInputs)
      && Elements(r.value.publicOutputs) == Elements(r'.value.publicOutputs)
    ensures r.Ok? && |expectations| > 1 ==>
      r.value.publicInputs == r'.value.publicInputs && r.value.publicOutputs == r'.value.publicOutputs
  {
    if IndexAccepts(edges, |expectations|) {
      IndexUnique(w.index, w'.index, edges);
      if AllAdmissible(w.index, run, expectations, proofs) {
        AdmissionUnique(w, w', run, proofs);
        if r.Ok? {
          ClaimDetermined(w, r.value, r'.value, 0, |expectations|);
          RootPasses(w, edges, r.value);
        }
      }
    }
  }

  lemma {:induction false} IndexUnique(a: map<string, Edge>, b: map<string, Edge>, edges: seq<Edge>)
    requires Indexes(a, edges) && Indexes(b, edges)
    ensures a == b
  {
  }

  // ----- against the linker -----

  /** Shard proofs that carry the admitted leaves' commitments, by register. */
  ghost predicate SameCommitments(w: World, dag: Dag, proofs: seq<Linker.ShardProof>) {
    && |proofs| == |w.leaves|
    && (forall s :: 0 <= s < |proofs| ==> proofs[s].shardId == s && proofs[s].valid)
    && (forall s :: s in dag.shards ==> s.id < |proofs|)
    && (forall e :: e in dag.edges && ForwardEdge(e, |proofs|) ==>
          && Lookup(proofs[e.producer].outputCommitments, e.register) == Produced(w, e.id)
          && Lookup(proofs[e.consumer].inputCommitments, e.register) == Consumed(w, e.id))
  }

  lemma {:induction false} EdgeLinkedIff(w: World, dag: Dag, proofs: seq<Linker.ShardProof>, e: Edge)
    requires ValidWorld(w) && Indexes(w.index, dag.edges) && SameCommitments(w, dag, proofs) && e in dag.edges
    ensures Linker.EdgeLinked(e, proofs) <==> Produced(w, e.id) == Consumed(w, e.id)
  {
    EndsPresent(w, e.id);
    assert ForwardEdge(w.index[e.id], |w.leaves|);
  }

  lemma {:induction false} EdgesAgreeByEdge(w: World, edges: seq<Edge>)
    requires ValidWorld(w) && Indexes(w.index, edges)
    ensures EdgesAgree(w, 0, |w.leaves|) <==> forall e :: e in edges ==> Produced(w, e.id) == Consumed(w, e.id)
  {
    forall id | id in w.index
      ensures Inside(w.index[id], 0, |w.leaves|) && w.index[id] in edges && w.index[id].id == id
    {
      assert ForwardEdge(w.index[id], |w.leaves|);
    }
    forall e | e in edges ensures e.id in w.index && w.index[e.id] == e {}
  }

  lemma {:induction false} ProofsPresent(w: World, dag: Dag, proofs: seq<Linker.ShardProof>)
    requires SameCommitments(w, dag, proofs)
    ensures forall s :: s in dag.shards ==> Linker.InPlace(proofs, s.id) && proofs[s.id].valid
  {
  }

  /** The tree's edge condition is the linker's: on the same commitments, one accepts exactly when the other does. */
  lemma {:induction false} FlatEdgesAreLinked(w: World, dag: Dag, proofs: seq<Linker.ShardProof>)
    requires ValidWorld(w) && Indexes(w.index, dag.edges) && SameCommitments(w, dag, proofs)
    ensures EdgesAgree(w, 0, |w.leaves|) <==> Linker.Link(dag, proofs).None?
  {
    Linker.LinkExact(dag, proofs);
    ProofsPresent(w, dag, proofs);
    EdgesAgreeByEdge(w, dag.edges);
    forall e | e in dag.edges ensures Linker.EdgeLinked(e, proofs) <==> Produced(w, e.id) == Consumed(w, e.id) {
      EdgeLinkedIff(w, dag, proofs, e);
    }
  }
}
