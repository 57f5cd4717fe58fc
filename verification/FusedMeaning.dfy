/** What the seven nodes of a match compute, taken together, and when one instruction computes the same. */
module FusedMeaning {
  import opened Prelude
  import opened Program
  import opened OnnxGraph
  import opened RmsNormFusion

  /** The value of every tensor name; absent when it cannot be computed. */
  type Valuation = string -> Option<Tensor>

  /** What an operator node writes to its outputs, given what its inputs hold. */
  type NodeMeaning = (GraphNode, seq<Option<Tensor>>) -> Option<Tensor>

  function Arguments(v: Valuation, names: seq<string>): (r: seq<Option<Tensor>>)
    ensures |r| == |names| && forall k :: 0 <= k < |names| ==> r[k] == v(names[k])
  {
    seq(|names|, k requires 0 <= k < |names| => v(names[k]))
  }

  function Computed(sem: Semantics, instruction: Instruction, args: seq<Option<Tensor>>): Option<Tensor> {
    match Collect(args)
    case None => None
    case Some(values) => sem(instruction, values)
  }

  ghost predicate NodeHolds(ops: NodeMeaning, v: Valuation, node: GraphNode) {
    forall o :: o in node.outputs ==> v(o) == ops(node, Arguments(v, node.inputs))
  }

  // ----- one instruction for seven nodes -----

  /** The fused instruction, on what the first node and the last product read, gives what the last product writes. */
  ghost predicate MatchHolds(
      g: Graph, weights: map<string, WeightTensor>, sem: Semantics, v: Valuation, c: Chain, weight: string, milli: nat)
  {
    && c.pow < |g.nodes| && |g.nodes[c.pow].inputs| > 0 && weight in weights && |weights[weight].shape| == 1
    && v(OutOf(g, c.mul2))
      == Computed(sem, Instruction.RmsNorm(weights[weight].shape[0], milli), [v(g.nodes[c.pow].inputs[0]), v(weight)])
  }

  /** Every match, with the scale its last product reads, its size and its epsilon in thousandths. */
  ghost predicate FusedHold(g: Graph, weights: map<string, WeightTensor>, sem: Semantics, v: Valuation) {
    forall f :: IsFusion(g, weights, f) ==> MatchHolds(g, weights, sem, v, f.chain, f.weightName, f.epsilonMilli)
  }

  // ----- from operators -----

  /** The six operators a match is made of, on values that may be absent. */
  datatype Operators = Operators(
    pow: (Option<Tensor>, Option<Tensor>) -> Option<Tensor>,
    mean: Option<Tensor> -> Option<Tensor>,
    plus: (Option<Tensor>, Option<Tensor>) -> Option<Tensor>,
    root: Option<Tensor> -> Option<Tensor>,
    inverse: Option<Tensor> -> Option<Tensor>,
    times: (Option<Tensor>, Option<Tensor>) -> Option<Tensor>)

  ghost predicate ImplementedAt(ops: NodeMeaning, o: Operators, node: GraphNode, args: seq<Option<Tensor>>) {
    && (node.opType.Pow? && |args| == 2 ==> ops(node, args) == o.pow(args[0], args[1]))
    && (node.opType.ReduceMean? && |args| > 0 ==> ops(node, args) == o.mean(args[0]))
    && (node.opType.Add? && |args| == 2 ==> ops(node, args) == o.plus(args[0], args[1]))
    && (node.opType.Sqrt? && |args| > 0 ==> ops(node, args) == o.root(args[0]))
    && (node.opType.Reciprocal? && |args| > 0 ==> ops(node, args) == o.inverse(args[0]))
    && (node.opType.Mul? && |args| == 2 ==> ops(node, args) == o.times(args[0], args[1]))
  }

  /** Nodes of these six kinds compute these operators. */
  ghost predicate Implements(ops: NodeMeaning, o: Operators) {
    forall node: GraphNode, args: seq<Option<Tensor>> :: ImplementedAt(ops, o, node, args)
  }

  ghost predicate CommutesAt(o: Operators, x: Option<Tensor>, y: Option<Tensor>) {
    o.plus(x, y) == o.plus(y, x) && o.times(x, y) == o.times(y, x)
  }

  ghost predicate Commutes(o: Operators) {
    forall x: Option<Tensor>, y: Option<Tensor> :: CommutesAt(o, x, y)
  }

  /** The input over the root of its mean square, scaled. */
  function Normalized(
      o: Operators, x: Option<Tensor>, exponent: Option<Tensor>, epsilon: Option<Tensor>, scale: Option<Tensor>)
    : Option<Tensor>
  {
    o.times(o.times(x, o.inverse(o.root(o.plus(o.mean(o.pow(x, exponent)), epsilon)))), scale)
  }

  ghost predicate NodesHold(g: Graph, ops: NodeMeaning, v: Valuation) {
    forall i :: 0 <= i < |g.nodes| ==> NodeHolds(ops, v, g.nodes[i])
  }

  lemma {:induction false} OutputIs(g: Graph, ops: NodeMeaning, o: Operators, v: Valuation, i: nat)
    requires NodesHold(g, ops, v) && Implements(ops, o) && i < |g.nodes| && |g.nodes[i].outputs| == 1
    ensures v(OutOf(g, i)) == ops(g.nodes[i], Arguments(v, g.nodes[i].inputs))
    ensures ImplementedAt(ops, o, g.nodes[i], Arguments(v, g.nodes[i].inputs))
  {
    assert NodeHolds(ops, v, g.nodes[i]) && OutOf(g, i) in g.nodes[i].outputs;
  }

  /** Up to the reciprocal root. */
  lemma {:induction false} RootIs(
      g: Graph, weights: map<string, WeightTensor>, ops: NodeMeaning, o: Operators, v: Valuation, c: Chain,
      epsilon: string)
    requires NodesHold(g, ops, v) && Implements(ops, o) && Commutes(o) && HasKinds(g, c)
    requires Linked(g, c) && RootMeanSquare(g, weights, c, epsilon)
    ensures v(OutOf(g, c.recip)) == o.inverse(o.root(o.plus(
      o.mean(o.pow(v(g.nodes[c.pow].inputs[0]), v(g.nodes[c.pow].inputs[1]))), v(epsilon))))
  {
    OutputIs(g, ops, o, v, c.pow);
    OutputIs(g, ops, o, v, c.reduce);
    OutputIs(g, ops, o, v, c.add);
    OutputIs(g, ops, o, v, c.sqrt);
    OutputIs(g, ops, o, v, c.recip);
    assert CommutesAt(o, v(OutOf(g, c.reduce)), v(epsilon));
  }

  /** Whatever values solve the node equations, a match's output is its input normalized, with the match's constants. */
  lemma {:induction false} SevenNodesNormalize(
      g: Graph, weights: map<string, WeightTensor>, ops: NodeMeaning, o: Operators, v: Valuation, f: Fusion,
      epsilon: string)
    requires NodesHold(g, ops, v) && Implements(ops, o) && Commutes(o)
    requires IsFusion(g, weights, f) && RootMeanSquare(g, weights, f.chain, epsilon)
    ensures v(f.outputName)
      == Normalized(o, v(f.inputName), v(g.nodes[f.chain.pow].inputs[1]), v(epsilon), v(f.weightName))
  {
    var c := f.chain;
    RootIs(g, weights, ops, o, v, c, epsilon);
    OutputIs(g, ops, o, v, c.mul1);
    OutputIs(g, ops, o, v, c.mul2);
    InputSurvives(g, weights, f, f);
    assert CommutesAt(o, v(f.inputName), v(OutOf(g, c.recip)));
    assert CommutesAt(o, v(OutOf(g, c.mul1)), v(f.weightName));
  }

  // ----- constants -----

  /** A number as the conversion of weights to fixed point gives it. */
  function Scalar(convert: WeightTensor -> Option<Tensor>, x: real): Option<Tensor> {
    convert(WeightTensor([], [x]))
  }

  function Thousandths(milli: nat): real { milli as real / 1000.0 }

  ghost predicate SameData(convert: WeightTensor -> Option<Tensor>, a: WeightTensor, b: WeightTensor) {
    a.data == b.data ==> convert(a) == convert(b)
  }

  /** Conversion looks at the numbers of a weight only. */
  ghost predicate DataOnly(convert: WeightTensor -> Option<Tensor>) {
    forall a: WeightTensor, b: WeightTensor :: SameData(convert, a, b)
  }

  ghost predicate NormalizesAt(
      sem: Semantics, o: Operators, convert: WeightTensor -> Option<Tensor>, dim: nat, milli: nat, x: Option<Tensor>,
      scale: Option<Tensor>)
  {
    (x.Some? ==> |x.value| == dim) ==>
      Computed(sem, Instruction.RmsNorm(dim, milli), [x, scale])
        == Normalized(o, x, Scalar(convert, 2.0), Scalar(convert, Thousandths(milli)), scale)
  }

  /** The fused instruction normalizes an input of its size: a square, an epsilon in thousandths, and a scale. */
  ghost predicate Normalizes(sem: Semantics, o: Operators, convert: WeightTensor -> Option<Tensor>) {
    forall dim: nat, milli: nat, x: Option<Tensor>, scale: Option<Tensor> ::
      NormalizesAt(sem, o, convert, dim, milli, x, scale)
  }

  /** The graph's operators and the fused instruction are about the same arithmetic. */
  ghost predicate SameArithmetic(
      ops: NodeMeaning, o: Operators, sem: Semantics, convert: WeightTensor -> Option<Tensor>)
  {
    Implements(ops, o) && Commutes(o) && Normalizes(sem, o, convert) && DataOnly(convert)
  }

  /** Fusing a match changes neither its exponent nor its epsilon, and its input has the size of its scale. */
  ghost predicate KeepsConstants(
      g: Graph, weights: map<string, WeightTensor>, v: Valuation, f: Fusion, exponent: string, epsilon: string)
  {
    && f.chain.pow < |g.nodes| && |g.nodes[f.chain.pow].inputs| == 2 && g.nodes[f.chain.pow].inputs[1] == exponent
    && RootMeanSquare(g, weights, f.chain, epsilon)
    && weights[exponent].data == [2.0] && weights[epsilon].data == [Thousandths(f.epsilonMilli)]
    && (v(f.inputName).Some? ==> |v(f.inputName).value| == f.dim)
  }

  ghost predicate AllKeepConstants(g: Graph, weights: map<string, WeightTensor>, v: Valuation) {
    forall f :: IsFusion(g, weights, f) ==>
      exists exponent, epsilon :: KeepsConstants(g, weights, v, f, exponent, epsilon)
  }

  ghost predicate WeightsHold(
      weights: map<string, WeightTensor>, convert: WeightTensor -> Option<Tensor>, v: Valuation)
  {
    forall name :: name in weights ==> v(name) == convert(weights[name])
  }

  lemma {:induction false} ConstantsAre(
      g: Graph, weights: map<string, WeightTensor>, convert: WeightTensor -> Option<Tensor>, v: Valuation, f: Fusion,
      exponent: string, epsilon: string)
    requires DataOnly(convert) && WeightsHold(weights, convert, v)
      && KeepsConstants(g, weights, v, f, exponent, epsilon)
    ensures v(exponent) == Scalar(convert, 2.0) && v(epsilon) == Scalar(convert, Thousandths(f.epsilonMilli))
  {
    assert SameData(convert, weights[exponent], WeightTensor([], [2.0]));
    assert SameData(convert, weights[epsilon], WeightTensor([], [Thousandths(f.epsilonMilli)]));
  }

  /** What a match fixes of its input, output, scale and size. */
  lemma {:induction false} MatchNames(g: Graph, weights: map<string, WeightTensor>, f: Fusion)
    requires IsFusion(g, weights, f)
    ensures |g.nodes[f.chain.pow].inputs| > 0 && f.inputName == g.nodes[f.chain.pow].inputs[0]
    ensures f.outputName == OutOf(g, f.chain.mul2)
    ensures f.weightName in weights && weights[f.weightName].shape == [f.dim]
  {
  }

  lemma {:induction false} NormalizedWithConstants(
      g: Graph, weights: map<string, WeightTensor>, convert: WeightTensor -> Option<Tensor>, ops: NodeMeaning,
      o: Operators, sem: Semantics, v: Valuation, f: Fusion, exponent: string, epsilon: string)
    requires NodesHold(g, ops, v) && SameArithmetic(ops, o, sem, convert) && WeightsHold(weights, convert, v)
    requires IsFusion(g, weights, f) && KeepsConstants(g, weights, v, f, exponent, epsilon)
    ensures v(f.outputName) == Normalized(o, v(f.inputName), Scalar(convert, 2.0),
      Scalar(convert, Thousandths(f.epsilonMilli)), v(f.weightName))
    ensures v(f.inputName).Some? ==> |v(f.inputName).value| == f.dim
  {
    SevenNodesNormalize(g, weights, ops, o, v, f, epsilon);
    ConstantsAre(g, weights, convert, v, f, exponent, epsilon);
  }

  lemma {:induction false} MatchHoldsFrom(
      g: Graph, weights: map<string, WeightTensor>, sem: Semantics, v: Valuation, f: Fusion, value: Option<Tensor>)
    requires IsFusion(g, weights, f) && v(f.outputName) == value
    requires Computed(sem, Instruction.RmsNorm(f.dim, f.epsilonMilli), [v(f.inputName), v(f.weightName)]) == value
    ensures MatchHolds(g, weights, sem, v, f.chain, f.weightName, f.epsilonMilli)
  {
    MatchNames(g, weights, f);
  }

  lemma {:induction false} FusedHoldsAt(
      g: Graph, weights: map<string, WeightTensor>, convert: WeightTensor -> Option<Tensor>, ops: NodeMeaning,
      o: Operators, sem: Semantics, v: Valuation, f: Fusion, exponent: string, epsilon: string)
    requires NodesHold(g, ops, v) && SameArithmetic(ops, o, sem, convert) && WeightsHold(weights, convert, v)
    requires IsFusion(g, weights, f) && KeepsConstants(g, weights, v, f, exponent, epsilon)
    ensures MatchHolds(g, weights, sem, v, f.chain, f.weightName, f.epsilonMilli)
  {
    NormalizedWithConstants(g, weights, convert, ops, o, sem, v, f, exponent, epsilon);
    assert NormalizesAt(sem, o, convert, f.dim, f.epsilonMilli, v(f.inputName), v(f.weightName));
    MatchHoldsFrom(g, weights, sem, v, f, Normalized(o, v(f.inputName), Scalar(convert, 2.0),
      Scalar(convert, Thousandths(f.epsilonMilli)), v(f.weightName)));
  }

  /** The fused instructions hold wherever the nodes they stand for do, as long as fusing keeps the constants. */
  lemma {:induction false} FusedHolds(
      g: Graph, weights: map<string, WeightTensor>, convert: WeightTensor -> Option<Tensor>, ops: NodeMeaning,
      o: Operators, sem: Semantics, v: Valuation)
    requires NodesHold(g, ops, v) && SameArithmetic(ops, o, sem, convert) && WeightsHold(weights, convert, v)
    requires AllKeepConstants(g, weights, v)
    ensures FusedHold(g, weights, sem, v)
  {
    forall f | IsFusion(g, weights, f)
      ensures MatchHolds(g, weights, sem, v, f.chain, f.weightName, f.epsilonMilli)
    {
      var exponent, epsilon :| KeepsConstants(g, weights, v, f, exponent, epsilon);
      FusedHoldsAt(g, weights, convert, ops, o, sem, v, f, exponent, epsilon);
    }
  }
}
