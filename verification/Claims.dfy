/** Verified claims: what a claim over an interval of shards says about the edges of the DAG. */
module Claims {
  import opened Prelude
  import opened DagModel
  import opened AggregationPlan
  import opened PublicBoundary

  type Digest = nat

  datatype EdgeFrontier = EdgeFrontier(producer: Option<Commitment>, consumer: Option<Commitment>)

  /** The identities every claim carries: run, plan, partition, model and weights as one, and the proof flavor. */
  datatype Run = Run(identity: Digest, flavor: string)

  datatype VerifiedClaim = VerifiedClaim(
    id: ChildId,
    run: Run,
    covered: set<nat>,
    frontier: map<string, EdgeFrontier>,
    closed: set<string>,
    publicInputs: seq<Binding>,
    publicOutputs: seq<Binding>,
    leaves: map<nat, Digest>)

  // ----- the edge index -----

  ghost predicate UniqueIds(edges: seq<Edge>) {
    forall i, j :: 0 <= i < j < |edges| ==> edges[i].id != edges[j].id
  }

  predicate ForwardEdge(e: Edge, shardCount: nat) {
    e.producer < e.consumer < shardCount
  }

  /** Finds each edge by its identifier. */
  ghost predicate Indexes(index: map<string, Edge>, edges: seq<Edge>) {
    && (forall id :: id in index ==> index[id].id == id && index[id] in edges)
    && (forall e :: e in edges ==> e.id in index && index[e.id] == e)
  }

  method NewDagIndex(edges: seq<Edge>, shardCount: nat) returns (r: Option<map<string, Edge>>)
    ensures r.Some? <==>
      && 0 < shardCount <= MAX_LEAVES && |edges| <= MAX_EDGES
      && (forall e :: e in edges ==> ForwardEdge(e, shardCount)) && UniqueIds(edges)
    ensures r.Some? ==> Indexes(r.value, edges)
  {
    if shardCount == 0 || shardCount > MAX_LEAVES || |edges| > MAX_EDGES {
      return None;
    }
    var index: map<string, Edge> := map[];
    for k := 0 to |edges|
      invariant Indexes(index, edges[..k]) && UniqueIds(edges[..k])
      invariant forall e :: e in edges[..k] ==> ForwardEdge(e, shardCount)
    {
      var e := edges[k];
      assert e in edges;
      PrefixElements(edges, k);
      if !ForwardEdge(e, shardCount) {
        return None;
      }
      if e.id in index {
        DuplicateId(edges, k, index);
        return None;
      }
      index := index[e.id := e];
    }
    assert edges[..|edges|] == edges;
    r := Some(index);
  }

  lemma {:induction false} DuplicateId(edges: seq<Edge>, k: nat, index: map<string, Edge>)
    requires k < |edges| && Indexes(index, edges[..k]) && edges[k].id in index
    ensures !UniqueIds(edges)
  {
    var i :| 0 <= i < k && edges[i] == index[edges[k].id];
  }

  // ----- the leaves a run was admitted with -----

  predicate Inside(e: Edge, lo: nat, hi: nat) {
    In(lo, hi, e.producer) && In(lo, hi, e.consumer)
  }

  predicate Touches(e: Edge, lo: nat, hi: nat) {
    In(lo, hi, e.producer) || In(lo, hi, e.consumer)
  }

  /** An admitted leaf: its own end of every edge at its shard, nothing else, and its public bindings. */
  ghost predicate LeafClaim(index: map<string, Edge>, s: nat, c: VerifiedClaim) {
    && c.id == Leaf(s) && c.covered == {s} && c.closed == {} && c.leaves.Keys == {s}
    && (forall id :: id in c.frontier <==> id in index && Touches(index[id], s, s + 1))
    && (forall id :: id in c.frontier ==> c.frontier[id].producer.Some? == (index[id].producer == s))
    && (forall id :: id in c.frontier ==> c.frontier[id].consumer.Some? == (index[id].consumer == s))
    && InputsListed(c.publicInputs) && OutputsListed(c.publicOutputs)
  }

  /** A trusted index over `n` shards and one admitted leaf claim for each. */
  datatype World = World(index: map<string, Edge>, leaves: seq<VerifiedClaim>)

  ghost predicate ValidWorld(w: World) {
    && (forall id :: id in w.index ==> ForwardEdge(w.index[id], |w.leaves|))
    && (forall s :: 0 <= s < |w.leaves| ==> LeafClaim(w.index, s, w.leaves[s]))
  }

  ghost function Inputs(w: World): (lists: seq<seq<Binding>>)
    ensures |lists| == |w.leaves| && forall s :: 0 <= s < |lists| ==> lists[s] == w.leaves[s].publicInputs
  {
    seq(|w.leaves|, s requires 0 <= s < |w.leaves| => w.leaves[s].publicInputs)
  }

  ghost function Outputs(w: World): (lists: seq<seq<Binding>>)
    ensures |lists| == |w.leaves| && forall s :: 0 <= s < |lists| ==> lists[s] == w.leaves[s].publicOutputs
  {
    seq(|w.leaves|, s requires 0 <= s < |w.leaves| => w.leaves[s].publicOutputs)
  }

  /** What the producing leaf committed to on an edge. */
  ghost function Produced(w: World, id: string): Option<Commitment> {
    if id in w.index && w.index[id].producer < |w.leaves| && id in w.leaves[w.index[id].producer].frontier then
      w.leaves[w.index[id].producer].frontier[id].producer
    else None
  }

  /** What the consuming leaf committed to on an edge. */
  ghost function Consumed(w: World, id: string): Option<Commitment> {
    if id in w.index && w.index[id].consumer < |w.leaves| && id in w.leaves[w.index[id].consumer].frontier then
      w.leaves[w.index[id].consumer].frontier[id].consumer
    else None
  }

  lemma {:induction false} EndsPresent(w: World, id: string)
    requires ValidWorld(w) && id in w.index
    ensures Produced(w, id).Some? && Consumed(w, id).Some?
  {
    var e := w.index[id];
    assert LeafClaim(w.index, e.producer, w.leaves[e.producer]) && LeafClaim(w.index, e.consumer, w.leaves[e.consumer]);
  }

  /** An edge's two ends as seen from an interval of shards. */
  ghost function Ends(w: World, id: string, lo: nat, hi: nat): EdgeFrontier
    requires id in w.index
  {
    EdgeFrontier(
      if In(lo, hi, w.index[id].producer) then Produced(w, id) else None,
      if In(lo, hi, w.index[id].consumer) then Consumed(w, id) else None)
  }

  // ----- the claim invariant -----

  ghost function LeafDigests(w: World, lo: nat, hi: nat): map<nat, Digest>
    requires lo <= hi <= |w.leaves|
  {
    map s | lo <= s < hi && s in w.leaves[s].leaves :: w.leaves[s].leaves[s]
  }

  /**
   * The frontier is exactly the cut edges, each with its inner end's commitment; the closed set exactly the inner
   * edges.
   */
  ghost predicate EdgesFor(w: World, lo: nat, hi: nat, frontier: map<string, EdgeFrontier>, closed: set<string>) {
    && (forall id :: id in closed <==> id in w.index && Inside(w.index[id], lo, hi))
    && (forall id :: id in frontier <==> id in w.index && Touches(w.index[id], lo, hi) && !Inside(w.index[id], lo, hi))
    && (forall id :: id in frontier ==> frontier[id] == Ends(w, id, lo, hi))
  }

  /** Both ends of every inner edge committed to the same value. */
  ghost predicate EdgesAgree(w: World, lo: nat, hi: nat) {
    forall id :: id in w.index && Inside(w.index[id], lo, hi) ==> Produced(w, id) == Consumed(w, id)
  }

  /** No clash between what shards of the interval publish. */
  ghost predicate PublicsAgree(w: World, lo: nat, hi: nat)
    requires lo <= hi <= |w.leaves|
  {
    ShardsRelate(SameInput, Inputs(w), lo, hi) && ShardsRelate(NamesApart, Outputs(w), lo, hi)
  }

  ghost predicate PublicsFor(w: World, lo: nat, hi: nat, inputs: seq<Binding>, outputs: seq<Binding>)
    requires lo <= hi <= |w.leaves|
  {
    && Elements(inputs) == BindingsIn(Inputs(w), lo, hi) && InputsListed(inputs)
    && Elements(outputs) == BindingsIn(Outputs(w), lo, hi) && OutputsListed(outputs)
    && (forall f: Cost :: SumSeq(f, inputs) <= ListsCost(f, Inputs(w), lo, hi))
    && (forall f: Cost :: SumSeq(f, outputs) <= ListsCost(f, Outputs(w), lo, hi))
  }

  /** What every claim over shards `lo` to `hi` satisfies. */
  ghost predicate ClaimFor(w: World, c: VerifiedClaim, lo: nat, hi: nat) {
    && lo < hi <= |w.leaves|
    && c.covered == Interval(lo, hi)
    && EdgesFor(w, lo, hi, c.frontier, c.closed)
    && EdgesAgree(w, lo, hi)
    && PublicsFor(w, lo, hi, c.publicInputs, c.publicOutputs)
    && PublicsAgree(w, lo, hi)
    && c.leaves == LeafDigests(w, lo, hi)
  }

  lemma {:induction false} LeafSatisfies(w: World, s: nat)
    requires ValidWorld(w) && s < |w.leaves|
    ensures ClaimFor(w, w.leaves[s], s, s + 1)
  {
    var c := w.leaves[s];
    assert LeafClaim(w.index, s, c);
    LeafEdges(w, s);
    LeafPublics(w, s);
    assert c.leaves == LeafDigests(w, s, s + 1);
  }

  lemma {:induction false} LeafEdges(w: World, s: nat)
    requires ValidWorld(w) && s < |w.leaves|
    ensures EdgesFor(w, s, s + 1, w.leaves[s].frontier, w.leaves[s].closed) && EdgesAgree(w, s, s + 1)
  {
    var c := w.leaves[s];
    assert LeafClaim(w.index, s, c);
    forall id | id in w.index ensures !Inside(w.index[id], s, s + 1) { assert ForwardEdge(w.index[id], |w.leaves|); }
    forall id | id in c.frontier ensures c.frontier[id] == Ends(w, id, s, s + 1) {}
  }

  lemma {:induction false} LeafPublics(w: World, s: nat)
    requires ValidWorld(w) && s < |w.leaves|
    ensures PublicsFor(w, s, s + 1, w.leaves[s].publicInputs, w.leaves[s].publicOutputs) && PublicsAgree(w, s, s + 1)
  {
    var c := w.leaves[s];
    assert LeafClaim(w.index, s, c);
    assert BindingsIn(Inputs(w), s, s + 1) == Elements(c.publicInputs);
    assert BindingsIn(Outputs(w), s, s + 1) == Elements(c.publicOutputs);
    forall f: Cost ensures SumSeq(f, c.publicInputs) <= ListsCost(f, Inputs(w), s, s + 1) {}
    forall f: Cost ensures SumSeq(f, c.publicOutputs) <= ListsCost(f, Outputs(w), s, s + 1) {}
  }
}
