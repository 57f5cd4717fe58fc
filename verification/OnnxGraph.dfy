/** The graph being compiled: nodes that read and write tensors by name. */
module OnnxGraph {
  import opened Prelude

  /** Operator names; the ones fusion looks for are set apart from every other text. */
  datatype OpType = Pow | ReduceMean | Add | Sqrt | Reciprocal | Mul | Other(name: string)

  datatype GraphNode = GraphNode(opType: OpType, inputs: seq<string>, outputs: seq<string>)

  datatype Graph = Graph(nodes: seq<GraphNode>, inputs: seq<string>, initializers: seq<string>, outputs: seq<string>)

  /** The last node that writes a name, as a map filled in node order records it. */
  function ProducerAmong(nodes: seq<GraphNode>, name: string): (p: Option<nat>)
    ensures p.Some? ==> p.value < |nodes| && name in nodes[p.value].outputs
    ensures p.None? ==> forall i :: 0 <= i < |nodes| ==> name !in nodes[i].outputs
    decreases |nodes|
  {
    if |nodes| == 0 then None
    else if name in nodes[|nodes| - 1].outputs then Some(|nodes| - 1)
    else ProducerAmong(nodes[..|nodes| - 1], name)
  }

  function ProducerOf(g: Graph, name: string): Option<nat> {
    ProducerAmong(g.nodes, name)
  }

  /** Node `j` reads something node `i` produces; a node's own outputs do not count. */
  ghost predicate Depends(g: Graph, i: nat, j: nat) {
    && i != j && j < |g.nodes|
    && exists name :: name in g.nodes[j].inputs && ProducerOf(g, name) == Some(i)
  }

  /** Single assignment: no name is written twice, and no node writes a graph input or an initializer. */
  ghost predicate UniqueNames(g: Graph) {
    && (forall i, j, name :: 0 <= i < j < |g.nodes| && name in g.nodes[i].outputs ==> name !in g.nodes[j].outputs)
    && (forall i :: 0 <= i < |g.nodes| ==> Distinct(g.nodes[i].outputs))
    && (forall i, name :: 0 <= i < |g.nodes| && name in g.nodes[i].outputs ==>
      name !in g.inputs && name !in g.initializers)
  }

  lemma {:induction false} ProducerUnique(g: Graph, i: nat, name: string)
    requires UniqueNames(g) && i < |g.nodes| && name in g.nodes[i].outputs
    ensures ProducerOf(g, name) == Some(i)
  {
    var p := ProducerOf(g, name).value;
    assert name in g.nodes[p].outputs;
  }
}
