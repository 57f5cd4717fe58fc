/** Merging the claims of a node's children, closing every edge both of whose ends are now covered. */
module ClaimMerge {
  import opened Prelude
  import opened DagModel
  import opened AggregationPlan
  import opened PublicBoundary
  import opened Claims

  datatype MergeError =
    | ChildOrderMismatch
    | AggregationIdentityMismatch
    | BoundaryCommitmentMismatch(edge: string)
    | PublicInputMismatch
    | DuplicateGraphOutput

  datatype MergeState = MergeState(
    covered: set<nat>,
    frontier: map<string, EdgeFrontier>,
    closed: set<string>,
    inputs: map<string, Binding>,
    outputs: map<string, Binding>,
    outputNames: set<string>,
    leaves: map<nat, Digest>)

  // ----- edges while merging -----

  /** Closed edges are inner and agree; the frontier holds every other touched edge with the ends seen so far. */
  ghost predicate EdgesSoFar(w: World, lo: nat, hi: nat, frontier: map<string, EdgeFrontier>, closed: set<string>) {
    && (forall id :: id in closed ==>
      id in w.index && Inside(w.index[id], lo, hi) && Produced(w, id) == Consumed(w, id))
    && (forall id :: id in frontier <==> id in w.index && Touches(w.index[id], lo, hi) && id !in closed)
    && (forall id :: id in frontier ==> frontier[id] == Ends(w, id, lo, hi))
  }

  function Either(a: Option<Commitment>, b: Option<Commitment>): Option<Commitment> {
    if b.Some? then b else a
  }

  function JoinEnds(a: EdgeFrontier, b: EdgeFrontier): EdgeFrontier {
    EdgeFrontier(Either(a.producer, b.producer), Either(a.consumer, b.consumer))
  }

  /** No slot is filled on both sides. */
  predicate SlotsFree(a: EdgeFrontier, b: EdgeFrontier) {
    (a.producer.None? || b.producer.None?) && (a.consumer.None? || b.consumer.None?)
  }

  ghost predicate Joined(a: map<string, EdgeFrontier>, b: map<string, EdgeFrontier>, m: map<string, EdgeFrontier>) {
    && (forall id :: id in m <==> id in a || id in b)
    && (forall id :: id in m ==>
          m[id] == if id in a && id in b then JoinEnds(a[id], b[id]) else if id in a then a[id] else b[id])
  }

  /** Adds a child's open edges, slot by slot; a slot is never filled twice. */
  method MergeFrontier(
      frontier: map<string, EdgeFrontier>, incoming: map<string, EdgeFrontier>) returns (m: map<string, EdgeFrontier>)
    requires forall id :: id in frontier && id in incoming ==> SlotsFree(frontier[id], incoming[id])
    ensures Joined(frontier, incoming, m)
  {
    m := frontier;
    var todo := incoming.Keys;
    while todo != {}
      invariant todo <= incoming.Keys
      invariant Joined(frontier, incoming - todo, m)
      decreases todo
    {
      var id :| id in todo;
      var entry := if id in m then m[id] else EdgeFrontier(None, None);
      assert SlotsFree(entry, incoming[id]);
      m := m[id := JoinEnds(entry, incoming[id])];
      todo := todo - {id};
    }
    assert incoming - {} == incoming;
  }

  lemma {:induction false} JoinedEdges(
      w: World, lo: nat, mid: nat, hi: nat, frontier: map<string, EdgeFrontier>, closed: set<string>, c: VerifiedClaim,
      m: map<string, EdgeFrontier>)
    requires lo <= mid <= hi && EdgesSoFar(w, lo, mid, frontier, closed) && EdgesFor(w, mid, hi, c.frontier, c.closed)
      && EdgesAgree(w, mid, hi)
    requires Joined(frontier, c.frontier, m)
    ensures EdgesSoFar(w, lo, hi, m, closed + c.closed)
  {
    forall id | id in m ensures m[id] == Ends(w, id, lo, hi) {
      var e := w.index[id];
      if id in frontier && id !in c.frontier { assert !Touches(e, mid, hi); }
    }
  }

  lemma {:induction false} SlotsNeverClash(
      w: World, lo: nat, mid: nat, hi: nat, frontier: map<string, EdgeFrontier>, closed: set<string>, c: VerifiedClaim)
    requires lo <= mid <= hi && EdgesSoFar(w, lo, mid, frontier, closed) && EdgesFor(w, mid, hi, c.frontier, c.closed)
    ensures forall id :: id in frontier && id in c.frontier ==> SlotsFree(frontier[id], c.frontier[id])
    ensures closed !! c.closed
  {
  }

  // ----- publics while merging -----

  ghost predicate PublicsSoFar(w: World, lo: nat, mid: nat, st: MergeState)
    requires lo <= mid <= |w.leaves|
  {
    && InputTable(st.inputs, BindingsIn(Inputs(w), lo, mid))
    && OutputTable(st.outputs, BindingsIn(Outputs(w), lo, mid))
    && st.outputNames == NamesIn(BindingsIn(Outputs(w), lo, mid))
    && AllApart(BindingsIn(Outputs(w), lo, mid))
    && PublicsAgree(w, lo, mid)
    && (forall f: Cost :: SumBy(f, st.inputs) <= ListsCost(f, Inputs(w), lo, mid))
    && (forall f: Cost :: SumBy(f, st.outputs) <= ListsCost(f, Outputs(w), lo, mid))
  }

  /** All admitted leaves together stay within the public boundary budget. */
  ghost predicate WithinBudget(w: World) {
    && ListsCost(One, Inputs(w), 0, |w.leaves|) + ListsCost(One, Outputs(w), 0, |w.leaves|)
      <= MAX_PUBLIC_BOUNDARY_DECLARATIONS
    && ListsCost(WireBytes, Inputs(w), 0, |w.leaves|) + ListsCost(WireBytes, Outputs(w), 0, |w.leaves|)
      <= MAX_PUBLIC_BOUNDARY_WIRE_BYTES
  }

  lemma {:induction false} PartialCost(f: Cost, lists: seq<seq<Binding>>, lo: nat, hi: nat)
    requires lo <= hi <= |lists|
    ensures ListsCost(f, lists, lo, hi) <= ListsCost(f, lists, 0, |lists|)
  {
    ListsCostSplit(f, lists, 0, lo, |lists|);
    ListsCostSplit(f, lists, lo, hi, |lists|);
  }

  lemma {:induction false} CostUnder(w: World, lo: nat, mid: nat, st: MergeState, f: Cost, limit: nat)
    requires lo <= mid <= |w.leaves| && PublicsSoFar(w, lo, mid, st)
    requires ListsCost(f, Inputs(w), 0, |w.leaves|) + ListsCost(f, Outputs(w), 0, |w.leaves|) <= limit
    ensures SumBy(f, st.inputs) + SumBy(f, st.outputs) <= limit
  {
    PartialCost(f, Inputs(w), lo, mid);
    PartialCost(f, Outputs(w), lo, mid);
  }

  /** The budget check after each child never fires. */
  lemma {:induction false} BudgetHolds(w: World, lo: nat, mid: nat, st: MergeState)
    requires lo <= mid <= |w.leaves| && WithinBudget(w) && PublicsSoFar(w, lo, mid, st)
    ensures SumBy(One, st.inputs) + SumBy(One, st.outputs) <= MAX_PUBLIC_BOUNDARY_DECLARATIONS
    ensures SumBy(WireBytes, st.inputs) + SumBy(WireBytes, st.outputs) <= MAX_PUBLIC_BOUNDARY_WIRE_BYTES
  {
    CostUnder(w, lo, mid, st, One, MAX_PUBLIC_BOUNDARY_DECLARATIONS);
    CostUnder(w, lo, mid, st, WireBytes, MAX_PUBLIC_BOUNDARY_WIRE_BYTES);
  }

  /** Adds a child's public bindings. */
  method MergePublics(
      ghost w: World, ghost lo: nat, ghost mid: nat, ghost hi: nat, st: MergeState, child: VerifiedClaim)
    returns (r: Result<MergeState, MergeError>)
    requires lo <= mid < hi <= |w.leaves| && PublicsSoFar(w, lo, mid, st)
    requires PublicsFor(w, mid, hi, child.publicInputs, child.publicOutputs) && PublicsAgree(w, mid, hi)
    ensures r.Ok? <==> PublicsAgree(w, lo, hi)
    ensures r.Err? ==> r.error in {PublicInputMismatch, DuplicateGraphOutput}
    ensures r.Ok? ==> PublicsSoFar(w, lo, hi, r.value)
    ensures r.Ok? ==>
      r.value == st.(inputs := r.value.inputs, outputs := r.value.outputs, outputNames := r.value.outputNames)
  {
    ghost var oldInputs, oldOutputs := BindingsIn(Inputs(w), lo, mid), BindingsIn(Outputs(w), lo, mid);
    PublicsSplit(w, lo, mid, hi);
    var inputs := MergePublicInputs(st.inputs, child.publicInputs, oldInputs);
    if inputs.None? {
      return Err(PublicInputMismatch);
    }
    var outputs, names := MergePublicOutputs(st.outputs, st.outputNames, child.publicOutputs, oldOutputs);
    if outputs.None? {
      return Err(DuplicateGraphOutput);
    }
    r := Ok(st.(inputs := inputs.value, outputs := outputs.value, outputNames := names));
    ListedApart(child.publicOutputs);
    ApartUnion(oldOutputs, Elements(child.publicOutputs));
    CostsAdd(w, lo, mid, hi, st, child, r.value);
  }

  lemma {:induction false} PublicsSplit(w: World, lo: nat, mid: nat, hi: nat)
    requires lo <= mid <= hi <= |w.leaves|
    ensures BindingsIn(Inputs(w), lo, hi) == BindingsIn(Inputs(w), lo, mid) + BindingsIn(Inputs(w), mid, hi)
    ensures BindingsIn(Outputs(w), lo, hi) == BindingsIn(Outputs(w), lo, mid) + BindingsIn(Outputs(w), mid, hi)
    ensures PublicsAgree(w, lo, hi) <==>
      && PublicsAgree(w, lo, mid) && PublicsAgree(w, mid, hi)
      && Across(SameInput, BindingsIn(Inputs(w), lo, mid), BindingsIn(Inputs(w), mid, hi))
      && Across(NamesApart, BindingsIn(Outputs(w), lo, mid), BindingsIn(Outputs(w), mid, hi))
  {
    BindingsSplit(Inputs(w), lo, mid, hi);
    BindingsSplit(Outputs(w), lo, mid, hi);
    RelateSplit(SameInput, Inputs(w), lo, mid, hi);
    RelateSplit(NamesApart, Outputs(w), lo, mid, hi);
  }

  lemma {:induction false} CostsAdd(
      w: World, lo: nat, mid: nat, hi: nat, st: MergeState, child: VerifiedClaim, st': MergeState)
    requires lo <= mid <= hi <= |w.leaves| && PublicsSoFar(w, lo, mid, st)
    requires PublicsFor(w, mid, hi, child.publicInputs, child.publicOutputs)
    requires forall f: Cost :: SumBy(f, st'.inputs) <= SumBy(f, st.inputs) + SumSeq(f, child.publicInputs)
    requires forall f: Cost :: SumBy(f, st'.outputs) <= SumBy(f, st.outputs) + SumSeq(f, child.publicOutputs)
    ensures forall f: Cost :: SumBy(f, st'.inputs) <= ListsCost(f, Inputs(w), lo, hi)
    ensures forall f: Cost :: SumBy(f, st'.outputs) <= ListsCost(f, Outputs(w), lo, hi)
  {
    forall f: Cost
      ensures SumBy(f, st'.inputs) <= ListsCost(f, Inputs(w), lo, hi)
    {
      ListsCostSplit(f, Inputs(w), lo, mid, hi);
    }
    forall f: Cost
      ensures SumBy(f, st'.outputs) <= ListsCost(f, Outputs(w), lo, hi)
    {
      ListsCostSplit(f, Outputs(w), lo, mid, hi);
    }
  }

  // ----- absorbing the children -----

  /** Everything learnt from the children covering shards `lo` to `mid`. */
  ghost predicate StateFor(w: World, st: MergeState, lo: nat, mid: nat) {
    && lo <= mid <= |w.leaves|
    && st.covered == Interval(lo, mid)
    && EdgesSoFar(w, lo, mid, st.frontier, st.closed)
    && PublicsSoFar(w, lo, mid, st)
    && st.leaves == LeafDigests(w, lo, mid)
  }

  lemma {:induction false} IntervalsJoin(w: World, lo: nat, mid: nat, hi: nat)
    requires lo <= mid <= hi <= |w.leaves|
    ensures Interval(lo, mid) !! Interval(mid, hi) && Interval(lo, mid) + Interval(mid, hi) == Interval(lo, hi)
    ensures LeafDigests(w, lo, mid) + LeafDigests(w, mid, hi) == LeafDigests(w, lo, hi)
  {
  }

  /** Absorbs one child. Coverage never overlaps, no edge is closed twice, no slot is filled twice, the budget holds. */
  method Absorb(ghost w: World, ghost lo: nat, ghost mid: nat, ghost hi: nat, st: MergeState, child: VerifiedClaim)
    returns (r: Result<MergeState, MergeError>)
    requires WithinBudget(w) && StateFor(w, st, lo, mid) && ClaimFor(w, child, mid, hi)
    ensures r.Ok? <==> PublicsAgree(w, lo, hi)
    ensures r.Err? ==> r.error in {PublicInputMismatch, DuplicateGraphOutput}
    ensures r.Ok? ==> StateFor(w, r.value, lo, hi)
  {
    IntervalsJoin(w, lo, mid, hi);
    SlotsNeverClash(w, lo, mid, hi, st.frontier, st.closed, child);
    assert st.covered !! child.covered && st.closed !! child.closed;
    var frontier := MergeFrontier(st.frontier, child.frontier);
    JoinedEdges(w, lo, mid, hi, st.frontier, st.closed, child, frontier);
    var merged := MergePublics(w, lo, mid, hi, st, child);
    if merged.Err? {
      return Err(merged.error);
    }
    BudgetHolds(w, lo, hi, merged.value);
    r := Ok(merged.value.(
      covered := st.covered + child.covered,
      frontier := frontier,
      closed := st.closed + child.closed,
      leaves := st.leaves + child.leaves));
  }

  /** The children are claims over consecutive intervals of shards. */
  ghost predicate ClaimsFor(w: World, children: seq<VerifiedClaim>, spans: seq<Entry>) {
    && |children| == |spans|
    && forall k :: 0 <= k < |children| ==> ClaimFor(w, children[k], spans[k].lo, spans[k].hi)
  }

  lemma {:induction false} NothingAbsorbed(w: World, lo: nat)
    requires lo <= |w.leaves|
    ensures StateFor(w, MergeState({}, map[], {}, map[], map[], {}, map[]), lo, lo)
  {
    assert Interval(lo, lo) == {} && BindingsIn(Inputs(w), lo, lo) == {} && BindingsIn(Outputs(w), lo, lo) == {};
    assert NamesIn({}) == {} && LeafDigests(w, lo, lo) == map[];
  }

  /** A clash inside a part of the interval is a clash in the whole. */
  lemma {:induction false} PublicsPrefix(w: World, lo: nat, mid: nat, hi: nat)
    requires lo <= mid <= hi <= |w.leaves|
    ensures PublicsAgree(w, lo, hi) ==> PublicsAgree(w, lo, mid)
  {
    PublicsSplit(w, lo, mid, hi);
  }

  method AbsorbAll(ghost w: World, ghost lo: nat, ghost hi: nat, ghost spans: seq<Entry>, children: seq<VerifiedClaim>)
    returns (r: Result<MergeState, MergeError>)
    requires WithinBudget(w) && Spans(spans, lo, hi) && ClaimsFor(w, children, spans) && lo <= hi <= |w.leaves|
    ensures r.Ok? <==> PublicsAgree(w, lo, hi)
    ensures r.Err? ==> r.error in {PublicInputMismatch, DuplicateGraphOutput}
    ensures r.Ok? ==> StateFor(w, r.value, lo, hi)
  {
    var st := MergeState({}, map[], {}, map[], map[], {}, map[]);
    NothingAbsorbed(w, lo);
    ghost var mid: nat, rest := lo, spans;
    for k := 0 to |children|
      invariant rest == spans[k..] && Spans(rest, mid, hi) && mid <= hi
      invariant StateFor(w, st, lo, mid)
    {
      ghost var next := rest[0].hi;
      assert rest[0] == spans[k] && rest[1..] == spans[k + 1..];
      SpansForward(rest[1..], next, hi);
      assert ClaimFor(w, children[k], mid, next);
      var absorbed := Absorb(w, lo, mid, next, st, children[k]);
      PublicsPrefix(w, lo, next, hi);
      if absorbed.Err? {
        return Err(absorbed.error);
      }
      st := absorbed.value;
      mid, rest := next, rest[1..];
    }
    r := Ok(st);
  }

  // ----- closing edges -----

  /** Inner edges still open are among those left to look at. */
  ghost predicate OpenAmong(w: World, lo: nat, hi: nat, frontier: map<string, EdgeFrontier>, todo: set<string>) {
    forall id :: id in frontier && id in w.index && Inside(w.index[id], lo, hi) ==> id in todo
  }

  /** Edges being closed: what is done so far, and what is left to look at. */
  ghost predicate Closing(
      w: World, lo: nat, hi: nat, frontier: map<string, EdgeFrontier>, closed: set<string>, todo: set<string>)
  {
    todo <= frontier.Keys && EdgesSoFar(w, lo, hi, frontier, closed) && OpenAmong(w, lo, hi, frontier, todo)
  }

  /** An open edge shows its ends; one that is not inner can be left as it is. */
  lemma {:induction false} OpenEdge(
      w: World, lo: nat, hi: nat, frontier: map<string, EdgeFrontier>, closed: set<string>, todo: set<string>,
      id: string)
    requires ValidWorld(w) && Closing(w, lo, hi, frontier, closed, todo) && id in todo
    ensures id in frontier && id in w.index
    ensures Inside(w.index[id], lo, hi) ==>
      frontier[id].producer == Produced(w, id) && frontier[id].consumer == Consumed(w, id)
    ensures !Inside(w.index[id], lo, hi) ==> Closing(w, lo, hi, frontier, closed, todo - {id})
  {
  }

  lemma {:induction false} CloseOne(
      w: World, lo: nat, hi: nat, frontier: map<string, EdgeFrontier>, closed: set<string>, todo: set<string>,
      id: string)
    requires ValidWorld(w) && Closing(w, lo, hi, frontier, closed, todo) && id in todo
    requires id in w.index && Inside(w.index[id], lo, hi) && Produced(w, id) == Consumed(w, id)
    ensures Closing(w, lo, hi, frontier - {id}, closed + {id}, todo - {id})
  {
    EndsPresent(w, id);
  }

  /** Closes every edge with both ends covered, comparing the two commitments; both are always there. */
  method CloseEdges(
      ghost w: World, index: map<string, Edge>, ghost lo: nat, ghost hi: nat, covered: set<nat>,
      open: map<string, EdgeFrontier>, closedBefore: set<string>)
    returns (mismatch: Option<string>, frontier: map<string, EdgeFrontier>, closed: set<string>)
    requires ValidWorld(w) && index == w.index && covered == Interval(lo, hi)
      && EdgesSoFar(w, lo, hi, open, closedBefore)
    ensures mismatch.None? <==> EdgesAgree(w, lo, hi)
    ensures mismatch.Some? ==>
      mismatch.value in index && Inside(index[mismatch.value], lo, hi)
        && Produced(w, mismatch.value) != Consumed(w, mismatch.value)
    ensures mismatch.None? ==> EdgesFor(w, lo, hi, frontier, closed)
  {
    frontier, closed := open, closedBefore;
    var todo := open.Keys;
    while todo != {}
      invariant Closing(w, lo, hi, frontier, closed, todo)
      decreases todo
    {
      var id :| id in todo;
      OpenEdge(w, lo, hi, frontier, closed, todo, id);
      var edge := index[id];
      if edge.producer in covered && edge.consumer in covered {
        var ends := frontier[id];
        if ends.producer != ends.consumer {
          return Some(id), frontier, closed;
        }
        CloseOne(w, lo, hi, frontier, closed, todo, id);
        frontier := frontier - {id};
        closed := closed + {id};
      }
      todo := todo - {id};
    }
    AllClosed(w, lo, hi, frontier, closed);
    mismatch := None;
  }

  lemma {:induction false} AllClosed(
      w: World, lo: nat, hi: nat, frontier: map<string, EdgeFrontier>, closed: set<string>)
    requires EdgesSoFar(w, lo, hi, frontier, closed) && OpenAmong(w, lo, hi, frontier, {})
    ensures EdgesFor(w, lo, hi, frontier, closed) && EdgesAgree(w, lo, hi)
  {
    forall id | id in w.index && Inside(w.index[id], lo, hi) ensures id in closed {
      assert Touches(w.index[id], lo, hi);
    }
  }

  // ----- the merge -----

  /** The public bindings as a node lists them: in key order. */
  ghost predicate ListsInOrder(w: World, c: VerifiedClaim, lo: nat, hi: nat)
    requires lo <= hi <= |w.leaves|
  {
    && (exists table :: InputTable(table, BindingsIn(Inputs(w), lo, hi)) && c.publicInputs == Values(table))
    && (exists table :: OutputTable(table, BindingsIn(Outputs(w), lo, hi)) && c.publicOutputs == Values(table))
  }

  lemma {:induction false} MergedPublics(w: World, lo: nat, hi: nat, st: MergeState)
    requires lo <= hi <= |w.leaves| && PublicsSoFar(w, lo, hi, st)
    ensures PublicsFor(w, lo, hi, Values(st.inputs), Values(st.outputs))
  {
    InputValues(st.inputs, BindingsIn(Inputs(w), lo, hi));
    OutputValues(st.outputs, BindingsIn(Outputs(w), lo, hi));
    forall f: Cost
      ensures SumSeq(f, Values(st.inputs)) <= ListsCost(f, Inputs(w), lo, hi)
    {
      SumOfValues(f, st.inputs);
    }
    forall f: Cost
      ensures SumSeq(f, Values(st.outputs)) <= ListsCost(f, Outputs(w), lo, hi)
    {
      SumOfValues(f, st.outputs);
    }
  }

  predicate SameRun(children: seq<VerifiedClaim>, run: Run) {
    forall k :: 0 <= k < |children| ==> children[k].run == run
  }

  /** When the children are the node's children, merging succeeds exactly when their shards agree. */
  ghost predicate MergeSucceeds(w: World, lo: nat, hi: nat)
    requires lo <= hi <= |w.leaves|
  {
    EdgesAgree(w, lo, hi) && PublicsAgree(w, lo, hi)
  }

  function ClaimIds(children: seq<VerifiedClaim>): (ids: seq<ChildId>)
    ensures |ids| == |children| && forall k :: 0 <= k < |ids| ==> ids[k] == children[k].id
  {
    seq(|children|, k requires 0 <= k < |children| => children[k].id)
  }

  /** What each refusal of a merge means. */
  ghost predicate MergeRefused(
      w: World, lo: nat, hi: nat, node: TreeNode, run: Run, children: seq<VerifiedClaim>, error: MergeError)
    requires lo <= hi <= |w.leaves|
  {
    match error
    case ChildOrderMismatch => ClaimIds(children) != node.children || children == []
    case AggregationIdentityMismatch => !SameRun(children, run)
    case BoundaryCommitmentMismatch(edge) =>
      edge in w.index && Inside(w.index[edge], lo, hi) && Produced(w, edge) != Consumed(w, edge)
    case _ => !PublicsAgree(w, lo, hi)
  }

  /** Merges the children's claims into one over all their shards. */
  method MergeVerifiedClaims(
      ghost w: World, ghost lo: nat, ghost hi: nat, ghost spans: seq<Entry>, node: TreeNode, run: Run,
      children: seq<VerifiedClaim>, index: map<string, Edge>)
    returns (r: Result<VerifiedClaim, MergeError>)
    requires ValidWorld(w) && index == w.index && WithinBudget(w)
    requires Spans(spans, lo, hi) && ClaimsFor(w, children, spans) && lo <= hi <= |w.leaves|
    ensures r.Ok? <==>
      ClaimIds(children) == node.children && children != [] && SameRun(children, run) && MergeSucceeds(w, lo, hi)
    ensures r.Ok? ==>
      ClaimFor(w, r.value, lo, hi) && ListsInOrder(w, r.value, lo, hi) && r.value.id == node.id && r.value.run == run
    ensures r.Err? ==> MergeRefused(w, lo, hi, node, run, children, r.error)
  {
    if ClaimIds(children) != node.children || children == [] {
      return Err(ChildOrderMismatch);
    }
    if !SameRun(children, run) {
      return Err(AggregationIdentityMismatch);
    }
    NonemptySpans(spans, lo, hi);
    var absorbed := AbsorbAll(w, lo, hi, spans, children);
    if absorbed.Err? {
      return Err(absorbed.error);
    }
    var st := absorbed.value;
    var mismatch, frontier, closed := CloseEdges(w, index, lo, hi, st.covered, st.frontier, st.closed);
    if mismatch.Some? {
      return Err(BoundaryCommitmentMismatch(mismatch.value));
    }
    MergedPublics(w, lo, hi, st);
    var inputs := ListValues(st.inputs);
    var outputs := ListValues(st.outputs);
    r := Ok(VerifiedClaim(node.id, run, st.covered, frontier, closed, inputs, outputs, st.leaves));
  }

  lemma {:induction false} NonemptySpans(spans: seq<Entry>, lo: nat, hi: nat)
    requires Spans(spans, lo, hi) && |spans| > 0
    ensures lo < hi
  {
    SpansForward(spans[1..], spans[0].hi, hi);
  }
}
