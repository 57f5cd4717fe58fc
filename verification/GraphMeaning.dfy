/** A single-assignment graph without cycles means exactly one thing. */
module GraphMeaning {
  import opened Prelude
  import opened Program
  import opened OnnxGraph
  import opened TopologicalSort
  import opened FusedMeaning
  import opened CompiledMeaning

  ghost predicate NoSelfReads(g: Graph) {
    forall i, name :: 0 <= i < |g.nodes| && name in g.nodes[i].inputs ==> name !in g.nodes[i].outputs
  }

  /** Evaluating the nodes of an order one after the other, name by name. */
  ghost function ValuesAfter(g: Graph, env: Env, ops: NodeMeaning, order: seq<nat>): Valuation
    requires forall k :: 0 <= k < |order| ==> order[k] < |g.nodes|
  {
    if |order| == 0 then
      name => if name in g.initializers then ExternalValue(env, Register.Weight(name))
              else if name in g.inputs then ExternalValue(env, Register.GraphInput(name))
              else None
    else
      Written(ops, ValuesAfter(g, env, ops, order[..|order| - 1]), g.nodes[order[|order| - 1]])
  }

  ghost function Written(ops: NodeMeaning, v: Valuation, node: GraphNode): Valuation {
    name => if name in node.outputs then ops(node, Arguments(v, node.inputs)) else v(name)
  }

  lemma {:induction false} UntouchedHolds(ops: NodeMeaning, v: Valuation, node: GraphNode, other: GraphNode)
    requires NodeHolds(ops, v, other)
    requires forall name :: name in node.outputs ==> name !in other.inputs && name !in other.outputs
    ensures NodeHolds(ops, Written(ops, v, node), other)
  {
    assert Arguments(Written(ops, v, node), other.inputs) == Arguments(v, other.inputs);
  }

  lemma {:induction false} WrittenHolds(ops: NodeMeaning, v: Valuation, node: GraphNode)
    requires forall name :: name in node.outputs ==> name !in node.inputs
    ensures NodeHolds(ops, Written(ops, v, node), node)
  {
    assert Arguments(Written(ops, v, node), node.inputs) == Arguments(v, node.inputs);
  }

  /** A later node writes nothing an earlier one reads or writes. */
  lemma {:induction false} LaterWritesAside(g: Graph, order: seq<nat>, l: nat, k: nat, name: string)
    requires UniqueNames(g) && IsPermutation(|g.nodes|, order) && ProducersFirst(g, order)
    requires l < k < |order| && name in g.nodes[order[k]].outputs
    ensures name !in g.nodes[order[l]].inputs && name !in g.nodes[order[l]].outputs
  {
    ProducerUnique(g, order[k], name);
    ProducerBefore(g, order, order[k], l);
  }

  lemma {:induction false} ValuesHold(g: Graph, env: Env, ops: NodeMeaning, order: seq<nat>, k: nat, l: nat)
    requires UniqueNames(g) && NoSelfReads(g) && IsPermutation(|g.nodes|, order) && ProducersFirst(g, order)
    requires l < k <= |order|
    ensures NodeHolds(ops, ValuesAfter(g, env, ops, order[..k]), g.nodes[order[l]])
    decreases k
  {
    var n := k - 1;
    var v := ValuesAfter(g, env, ops, order[..n]);
    assert order[..k][..n] == order[..n];
    var node := g.nodes[order[n]];
    if l == n {
      WrittenHolds(ops, v, node);
    } else {
      ValuesHold(g, env, ops, order, n, l);
      forall name | name in node.outputs
        ensures name !in g.nodes[order[l]].inputs && name !in g.nodes[order[l]].outputs
      {
        LaterWritesAside(g, order, l, n, name);
      }
      UntouchedHolds(ops, v, node, g.nodes[order[l]]);
    }
  }

  lemma {:induction false} ValuesKeepSources(g: Graph, env: Env, ops: NodeMeaning, order: seq<nat>)
    requires UniqueNames(g) && forall k :: 0 <= k < |order| ==> order[k] < |g.nodes|
    ensures SourcesHold(g, env, ValuesAfter(g, env, ops, order))
    decreases |order|
  {
    if |order| > 0 {
      var n := |order| - 1;
      ValuesKeepSources(g, env, ops, order[..n]);
      var node := g.nodes[order[n]];
      forall name | name in node.outputs ensures !IsSource(g, name) && ProducerOf(g, name).Some? {
        ProducerUnique(g, order[n], name);
      }
    }
  }

  /** Evaluating in a producers-first order solves all the equations. */
  lemma {:induction false} EvaluationSolves(g: Graph, env: Env, ops: NodeMeaning, order: seq<nat>)
    requires UniqueNames(g) && NoSelfReads(g) && IsPermutation(|g.nodes|, order) && ProducersFirst(g, order)
    ensures Solves(g, env, ops, ValuesAfter(g, env, ops, order))
  {
    ValuesKeepSources(g, env, ops, order);
    PermutationCovers(|g.nodes|, order);
    assert order[..|order|] == order;
    forall i: nat | i < |g.nodes| ensures NodeHolds(ops, ValuesAfter(g, env, ops, order), g.nodes[i]) {
      assert i in Elements(order);
      var l :| 0 <= l < |order| && order[l] == i;
      ValuesHold(g, env, ops, order, |order|, l);
    }
  }

  lemma {:induction false} InputsSettled(
      g: Graph, env: Env, ops: NodeMeaning, order: seq<nat>, v: Valuation, w: Valuation, k: nat, name: string)
    requires UniqueNames(g) && NoSelfReads(g) && IsPermutation(|g.nodes|, order) && ProducersFirst(g, order)
    requires Solves(g, env, ops, v) && Solves(g, env, ops, w) && k < |order| && name in g.nodes[order[k]].inputs
    requires forall l, o :: 0 <= l < k && o in g.nodes[order[l]].outputs ==> v(o) == w(o)
    ensures v(name) == w(name)
  {
    if !IsSource(g, name) && ProducerOf(g, name).Some? {
      var p := ProducerOf(g, name).value;
      assert Depends(g, p, order[k]);
      ProducerBefore(g, order, p, k);
      var l :| 0 <= l < k && order[l] == p;
    }
  }

  lemma {:induction false} SolutionsAgreeUpTo(
      g: Graph, env: Env, ops: NodeMeaning, order: seq<nat>, v: Valuation, w: Valuation, k: nat)
    requires UniqueNames(g) && NoSelfReads(g) && IsPermutation(|g.nodes|, order) && ProducersFirst(g, order)
    requires Solves(g, env, ops, v) && Solves(g, env, ops, w) && k <= |order|
    ensures forall l, o :: 0 <= l < k && o in g.nodes[order[l]].outputs ==> v(o) == w(o)
    decreases k
  {
    if k > 0 {
      SolutionsAgreeUpTo(g, env, ops, order, v, w, k - 1);
      var node := g.nodes[order[k - 1]];
      forall name | name in node.inputs ensures v(name) == w(name) {
        InputsSettled(g, env, ops, order, v, w, k - 1, name);
      }
      assert Arguments(v, node.inputs) == Arguments(w, node.inputs);
      assert NodeHolds(ops, v, node) && NodeHolds(ops, w, node);
    }
  }

  lemma {:induction false} SolutionsAgree(
      g: Graph, env: Env, ops: NodeMeaning, order: seq<nat>, v: Valuation, w: Valuation, name: string)
    requires UniqueNames(g) && NoSelfReads(g) && IsPermutation(|g.nodes|, order) && ProducersFirst(g, order)
    requires Solves(g, env, ops, v) && Solves(g, env, ops, w)
    ensures v(name) == w(name)
  {
    SolutionsAgreeUpTo(g, env, ops, order, v, w, |order|);
    if ProducerOf(g, name).Some? {
      var p := ProducerOf(g, name).value;
      PermutationCovers(|g.nodes|, order);
      assert p in Elements(order);
      var l :| 0 <= l < |order| && order[l] == p;
    }
  }

  /** The equations of an orderable graph have one solution, whatever order they are evaluated in. */
  lemma {:induction false} OneMeaning(g: Graph, env: Env, ops: NodeMeaning, order: seq<nat>, w: Valuation)
    requires UniqueNames(g) && NoSelfReads(g) && IsPermutation(|g.nodes|, order) && ProducersFirst(g, order)
    ensures Solves(g, env, ops, w) ==> forall name :: w(name) == ValuesAfter(g, env, ops, order)(name)
    ensures Solves(g, env, ops, ValuesAfter(g, env, ops, order))
  {
    EvaluationSolves(g, env, ops, order);
    if Solves(g, env, ops, w) {
      forall name ensures w(name) == ValuesAfter(g, env, ops, order)(name) {
        SolutionsAgree(g, env, ops, order, w, ValuesAfter(g, env, ops, order), name);
      }
    }
  }
}
