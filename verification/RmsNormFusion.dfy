/** Recognizing the seven-node RMSNorm decomposition, and why fusing every match at once is safe. */
module RmsNormFusion {
  import opened Prelude
  import opened OnnxGraph

  datatype WeightTensor = WeightTensor(shape: seq<nat>, data: seq<real>)

  /** The nodes of one match, in chain order. */
  datatype Chain = Chain(pow: nat, reduce: nat, add: nat, sqrt: nat, recip: nat, mul1: nat, mul2: nat)

  datatype Fusion = Fusion(chain: Chain, inputName: string, weightName: string, outputName: string, dim: nat,
    epsilonMilli: nat)

  // ----- who reads a tensor -----

  type Consumers = map<string, seq<nat>>

  function ConsumersOf(consumers: Consumers, name: string): seq<nat> {
    if name in consumers then consumers[name] else []
  }

  function SoleConsumer(consumers: Consumers, name: string): Option<nat> {
    if |ConsumersOf(consumers, name)| == 1 then Some(ConsumersOf(consumers, name)[0]) else None
  }

  ghost function Times<T>(xs: seq<T>, x: T): nat {
    multiset(xs)[x]
  }

  lemma {:induction false} TimesSnoc<T>(xs: seq<T>, x: T, y: T)
    ensures Times(xs + [x], y) == Times(xs, y) + (if x == y then 1 else 0)
  {
  }

  /** How often node `j` lists a name among its inputs. */
  ghost function Reads(nodes: seq<GraphNode>, name: string, j: nat): nat {
    if j < |nodes| then Times(nodes[j].inputs, name) else 0
  }

  ghost function Recorded(consumers: Consumers, name: string, j: nat): nat {
    Times(ConsumersOf(consumers, name), j)
  }

  /** Every node is recorded under a name as often as it lists the name. */
  ghost predicate Collects(nodes: seq<GraphNode>, consumers: Consumers) {
    forall name, j: nat :: Recorded(consumers, name, j) == Reads(nodes, name, j)
  }

  /** Node `i` is the only reader of a name, and lists it once. */
  ghost predicate SoleReader(nodes: seq<GraphNode>, name: string, i: nat) {
    && i < |nodes| && Times(nodes[i].inputs, name) == 1
    && forall j :: 0 <= j < |nodes| && name in nodes[j].inputs ==> j == i
  }

  /** A name has a single recorded consumer exactly when it has a sole reader. */
  lemma {:induction false} SoleConsumerExact(nodes: seq<GraphNode>, consumers: Consumers, name: string, i: nat)
    requires Collects(nodes, consumers)
    ensures SoleConsumer(consumers, name) == Some(i) <==> SoleReader(nodes, name, i)
  {
    var listed := ConsumersOf(consumers, name);
    forall j: nat ensures Times(listed, j) == Reads(nodes, name, j) {
      assert Recorded(consumers, name, j) == Reads(nodes, name, j);
    }
    if SoleConsumer(consumers, name) == Some(i) {
      OnlyEntry(nodes, name, listed, i);
    }
    if SoleReader(nodes, name, i) {
      SingleEntry(nodes, name, listed, i);
    }
  }

  lemma {:induction false} OnlyEntry(nodes: seq<GraphNode>, name: string, listed: seq<nat>, i: nat)
    requires |listed| == 1 && listed[0] == i && forall j: nat :: Times(listed, j) == Reads(nodes, name, j)
    ensures SoleReader(nodes, name, i)
  {
    assert listed == [i];
    assert Times(listed, i) == Reads(nodes, name, i);
    forall j: nat | j < |nodes| && name in nodes[j].inputs ensures j == i {
      assert Times(listed, j) == Reads(nodes, name, j);
      assert name in multiset(nodes[j].inputs);
    }
  }

  lemma {:induction false} SingleEntry(nodes: seq<GraphNode>, name: string, listed: seq<nat>, i: nat)
    requires SoleReader(nodes, name, i) && forall j: nat :: Times(listed, j) == Reads(nodes, name, j)
    ensures |listed| == 1 && listed[0] == i
  {
    assert Times(listed, i) == 1;
    forall k | 0 <= k < |listed| ensures listed[k] == i {
      assert listed[k] in listed && Times(listed, listed[k]) == Reads(nodes, name, listed[k]);
    }
    Repeated(listed, i);
  }

  lemma {:induction false} Repeated<T>(xs: seq<T>, x: T)
    requires forall k :: 0 <= k < |xs| ==> xs[k] == x
    ensures Times(xs, x) == |xs|
  {
    if |xs| > 0 {
      Repeated(xs[1..], x);
      assert xs == [x] + xs[1..];
    }
  }

  /** The consumers after node `node` has been recorded for its first inputs. */
  ghost predicate Extends(consumers: Consumers, inputs: seq<string>, node: nat, more: Consumers) {
    forall name, j: nat ::
      Recorded(more, name, j) == Recorded(consumers, name, j) + (if j == node then Times(inputs, name) else 0)
  }

  method AddReader(consumers: Consumers, inputs: seq<string>, node: nat) returns (more: Consumers)
    ensures Extends(consumers, inputs, node, more)
  {
    more := consumers;
    assert inputs[..0] == [] && forall name :: Times<string>([], name) == 0;
    for k := 0 to |inputs|
      invariant Extends(consumers, inputs[..k], node, more)
    {
      OneMoreInput(consumers, inputs, k, node, more);
      more := more[inputs[k] := ConsumersOf(more, inputs[k]) + [node]];
    }
    assert inputs[..|inputs|] == inputs;
  }

  lemma {:induction false} RecordedMore(consumers: Consumers, added: string, node: nat, name: string, j: nat)
    ensures Recorded(consumers[added := ConsumersOf(consumers, added) + [node]], name, j)
      == Recorded(consumers, name, j) + (if added == name && j == node then 1 else 0)
  {
    TimesSnoc(ConsumersOf(consumers, added), node, j);
  }

  lemma {:induction false} OneMoreInput(consumers: Consumers, inputs: seq<string>, k: nat, node: nat, more: Consumers)
    requires k < |inputs| && Extends(consumers, inputs[..k], node, more)
    ensures Extends(consumers, inputs[..k + 1], node, more[inputs[k] := ConsumersOf(more, inputs[k]) + [node]])
  {
    var before, added := inputs[..k], inputs[k];
    var after := more[added := ConsumersOf(more, added) + [node]];
    assert inputs[..k + 1] == before + [added];
    forall name, j: nat
      ensures Recorded(after, name, j)
        == Recorded(consumers, name, j) + (if j == node then Times(before + [added], name) else 0)
    {
      RecordedMore(more, added, node, name, j);
      TimesSnoc(before, added, name);
    }
  }

  method CollectConsumers(g: Graph) returns (consumers: Consumers)
    ensures Collects(g.nodes, consumers)
  {
    consumers := map[];
    for idx := 0 to |g.nodes|
      invariant Collects(g.nodes[..idx], consumers)
    {
      var more := AddReader(consumers, g.nodes[idx].inputs, idx);
      OneMoreNode(g.nodes, idx, consumers, more);
      consumers := more;
    }
    assert g.nodes[..|g.nodes|] == g.nodes;
  }

  lemma {:induction false} OneMoreNode(nodes: seq<GraphNode>, idx: nat, consumers: Consumers, more: Consumers)
    requires idx < |nodes| && Collects(nodes[..idx], consumers) && Extends(consumers, nodes[idx].inputs, idx, more)
    ensures Collects(nodes[..idx + 1], more)
  {
    forall name, j: nat ensures Recorded(more, name, j) == Reads(nodes[..idx + 1], name, j) {
      assert Recorded(consumers, name, j) == Reads(nodes[..idx], name, j);
    }
  }

  // ----- matching -----

  /** The only reader of a node's only output, when it is of the wanted kind. */
  function Follow(g: Graph, consumers: Consumers, from: nat, opType: OpType): (r: Option<nat>)
    ensures r.Some? ==> r.value < |g.nodes| && from < |g.nodes| && |g.nodes[from].outputs| == 1
    ensures r.Some? ==> g.nodes[r.value].opType == opType && SoleConsumer(consumers, g.nodes[from].outputs[0]) == r
  {
    if from >= |g.nodes| || |g.nodes[from].outputs| != 1 then None
    else
      match SoleConsumer(consumers, g.nodes[from].outputs[0])
      case None => None
      case Some(i) => if i < |g.nodes| && g.nodes[i].opType == opType then Some(i) else None
  }

  predicate ReadsFirst(g: Graph, i: nat, name: string) {
    i < |g.nodes| && |g.nodes[i].inputs| > 0 && g.nodes[i].inputs[0] == name
  }

  predicate Binary(g: Graph, i: nat) {
    i < |g.nodes| && |g.nodes[i].inputs| == 2
  }

  /** The operand of a binary node that is not `name`; the first such one. */
  function OtherOperand(inputs: seq<string>, name: string): Option<string>
    requires |inputs| == 2
  {
    if inputs[0] != name then Some(inputs[0]) else if inputs[1] != name then Some(inputs[1]) else None
  }

  /** The addend beside `name`: the other position, whatever it holds. */
  function Addend(inputs: seq<string>, name: string): Option<string>
    requires |inputs| == 2
  {
    if inputs[0] == name then Some(inputs[1]) else if inputs[1] == name then Some(inputs[0]) else None
  }

  function Abs(x: real): real { if x < 0.0 then -x else x }

  predicate IsSquare(weights: map<string, WeightTensor>, name: string): (square: bool)
    ensures square <==>
      name in weights && |weights[name].data| == 1 && 1.999999 <= weights[name].data[0] <= 2.000001
  {
    name in weights && |weights[name].data| == 1 && Abs(weights[name].data[0] - 2.0) <= 0.000001
  }

  /** The epsilon in thousandths, rounded, and clamped to 64 bits. */
  function EpsilonMilli(epsilon: real): U64 {
    if epsilon <= 0.0 then 0
    else if (epsilon * 1000.0 + 0.5).Floor >= U64_BOUND then U64_BOUND - 1
    else (epsilon * 1000.0 + 0.5).Floor
  }

  /** The epsilon kept is the nearest number of thousandths, halves rounded up, within 64 bits. */
  lemma {:induction false} EpsilonNearest(epsilon: real)
    ensures var milli := EpsilonMilli(epsilon);
      if epsilon <= 0.0 then milli == 0
      else if epsilon * 1000.0 + 0.5 >= U64_BOUND as real then milli == U64_BOUND - 1
      else milli as real - 0.5 <= epsilon * 1000.0 < milli as real + 0.5
  {
  }

  /** Fusing keeps an epsilon exactly when it is a whole number of thousandths within 64 bits. */
  lemma {:induction false} EpsilonKept(epsilon: real)
    ensures EpsilonMilli(epsilon) as real / 1000.0 == epsilon <==>
      var thousandths := epsilon * 1000.0;
      0 <= thousandths.Floor < U64_BOUND && thousandths.Floor as real == thousandths
  {
    var thousandths := epsilon * 1000.0;
    if thousandths.Floor as real == thousandths {
      assert (thousandths + 0.5).Floor == thousandths.Floor;
    }
  }

  /** An epsilon of one millionth becomes none at all. */
  lemma {:induction false} MillionthLost()
    ensures EpsilonMilli(0.000001) == 0
  {
    EpsilonNearest(0.000001);
  }

  function OutOf(g: Graph, i: nat): string {
    if i < |g.nodes| && |g.nodes[i].outputs| == 1 then g.nodes[i].outputs[0] else ""
  }

  /** Follows the only reader, which must read the tensor first. */
  function FollowFirst(g: Graph, consumers: Consumers, from: nat, opType: OpType): Option<nat> {
    var to :- Follow(g, consumers, from, opType);
    if ReadsFirst(g, to, OutOf(g, from)) then Some(to) else None
  }

  function EpsilonAt(g: Graph, weights: map<string, WeightTensor>, add: nat, mean: string): Option<string> {
    if !Binary(g, add) then None
    else
      var epsilon :- Addend(g.nodes[add].inputs, mean);
      if epsilon in weights && |weights[epsilon].data| == 1 then Some(epsilon) else None
  }

  predicate Either(inputs: seq<string>, name: string) {
    |inputs| == 2 && (inputs[0] == name || inputs[1] == name)
  }

  function WeightAt(g: Graph, weights: map<string, WeightTensor>, mul: nat, scaled: string): Option<string> {
    if !Binary(g, mul) || |g.nodes[mul].outputs| != 1 || !Either(g.nodes[mul].inputs, scaled) then None
    else
      var weight :- OtherOperand(g.nodes[mul].inputs, scaled);
      if weight in weights && |weights[weight].shape| == 1 then Some(weight) else None
  }

  function TryMatchFromPow(g: Graph, weights: map<string, WeightTensor>, consumers: Consumers, pow: nat): Option<Fusion>
  {
    if !Binary(g, pow) || |g.nodes[pow].outputs| != 1 || !IsSquare(weights, g.nodes[pow].inputs[1]) then None
    else
      var reduce :- FollowFirst(g, consumers, pow, OpType.ReduceMean);
      var add :- Follow(g, consumers, reduce, OpType.Add);
      var epsilon :- EpsilonAt(g, weights, add, OutOf(g, reduce));
      var sqrt :- FollowFirst(g, consumers, add, OpType.Sqrt);
      var recip :- FollowFirst(g, consumers, sqrt, OpType.Reciprocal);
      TryMatchProducts(g, weights, consumers, Chain(pow, reduce, add, sqrt, recip, 0, 0), weights[epsilon].data[0])
  }

  /** The two products at the end of the chain. */
  function TryMatchProducts(
      g: Graph, weights: map<string, WeightTensor>, consumers: Consumers, c: Chain, epsilon: real): Option<Fusion>
    requires Binary(g, c.pow)
  {
    var input := g.nodes[c.pow].inputs[0];
    var mul1 :- Follow(g, consumers, c.recip, OpType.Mul);
    if !Binary(g, mul1) || !Either(g.nodes[mul1].inputs, input) || !Either(g.nodes[mul1].inputs, OutOf(g, c.recip))
      then None
    else
      var mul2 :- Follow(g, consumers, mul1, OpType.Mul);
      var weight :- WeightAt(g, weights, mul2, OutOf(g, mul1));
      Some(Fusion(c.(mul1 := mul1, mul2 := mul2), input, weight, OutOf(g, mul2), weights[weight].shape[0],
        EpsilonMilli(epsilon)))
  }

  // ----- what a match is -----

  /** Node `to` is of the given kind and the only reader, of the one output, of node `from`. */
  ghost predicate Link(g: Graph, from: nat, to: nat, opType: OpType) {
    && from < |g.nodes| && to < |g.nodes| && |g.nodes[from].outputs| == 1
    && g.nodes[to].opType == opType && SoleReader(g.nodes, OutOf(g, from), to)
  }

  predicate ReadsBoth(inputs: seq<string>, first: string, second: string) {
    |inputs| == 2 && inputs[0] == first && inputs[1] == second
  }

  ghost predicate HasAddend(g: Graph, weights: map<string, WeightTensor>, i: nat, name: string, other: string) {
    && Binary(g, i) && other in weights
    && (ReadsBoth(g.nodes[i].inputs, name, other) || ReadsBoth(g.nodes[i].inputs, other, name))
  }

  ghost predicate Linked(g: Graph, c: Chain) {
    && Link(g, c.pow, c.reduce, OpType.ReduceMean) && Link(g, c.reduce, c.add, OpType.Add)
    && Link(g, c.add, c.sqrt, OpType.Sqrt)
    && Link(g, c.sqrt, c.recip, OpType.Reciprocal) && Link(g, c.recip, c.mul1, OpType.Mul)
    && Link(g, c.mul1, c.mul2, OpType.Mul)
  }

  /** What the five nodes up to the reciprocal root read. */
  ghost predicate RootMeanSquare(g: Graph, weights: map<string, WeightTensor>, c: Chain, epsilon: string) {
    && Binary(g, c.pow) && IsSquare(weights, g.nodes[c.pow].inputs[1])
    && ReadsFirst(g, c.reduce, OutOf(g, c.pow))
    && HasAddend(g, weights, c.add, OutOf(g, c.reduce), epsilon) && |weights[epsilon].data| == 1
    && ReadsFirst(g, c.sqrt, OutOf(g, c.add))
    && ReadsFirst(g, c.recip, OutOf(g, c.sqrt))
  }

  /** What the two products read. */
  ghost predicate ScaledBy(g: Graph, weights: map<string, WeightTensor>, c: Chain, input: string, weight: string) {
    && Binary(g, c.mul1) && Either(g.nodes[c.mul1].inputs, input) && Either(g.nodes[c.mul1].inputs, OutOf(g, c.recip))
    && HasAddend(g, weights, c.mul2, OutOf(g, c.mul1), weight) && weight != OutOf(g, c.mul1)
    && |g.nodes[c.mul2].outputs| == 1
  }

  /** The seven nodes form the RMSNorm decomposition, every intermediate read once, by the next node. */
  ghost predicate Matches(g: Graph, weights: map<string, WeightTensor>, f: Fusion) {
    var c := f.chain;
    && Linked(g, c) && ScaledBy(g, weights, c, f.inputName, f.weightName)
    && (exists epsilon ::
          RootMeanSquare(g, weights, c, epsilon) && f.epsilonMilli == EpsilonMilli(weights[epsilon].data[0]))
    && g.nodes[c.pow].inputs[0] == f.inputName && f.outputName == OutOf(g, c.mul2)
    && weights[f.weightName].shape == [f.dim]
  }

  /** Following one step finds exactly a link. */
  ghost predicate FollowsLinks(g: Graph, consumers: Consumers) {
    forall from: nat, to: nat, opType: OpType :: Link(g, from, to, opType) <==>
      Follow(g, consumers, from, opType) == Some(to)
  }

  lemma {:induction false} FollowExact(g: Graph, consumers: Consumers)
    requires Collects(g.nodes, consumers)
    ensures FollowsLinks(g, consumers)
  {
    forall from: nat, to: nat, opType: OpType
      ensures Link(g, from, to, opType) <==> Follow(g, consumers, from, opType) == Some(to)
    {
      SoleConsumerExact(g.nodes, consumers, OutOf(g, from), to);
    }
  }

  /** Matching finds exactly the decompositions: a fusion is returned exactly when its nodes are one. */
  lemma {:induction false} MatchExact(
      g: Graph, weights: map<string, WeightTensor>, consumers: Consumers, pow: nat, f: Fusion)
    requires Collects(g.nodes, consumers)
    ensures TryMatchFromPow(g, weights, consumers, pow) == Some(f) <==> f.chain.pow == pow && Matches(g, weights, f)
  {
    FollowExact(g, consumers);
    if TryMatchFromPow(g, weights, consumers, pow) == Some(f) {
      MatchSound(g, weights, consumers, pow);
    }
    if f.chain.pow == pow && Matches(g, weights, f) {
      MatchComplete(g, weights, consumers, f);
    }
  }

  predicate FollowsAll(g: Graph, consumers: Consumers, c: Chain) {
    && Follow(g, consumers, c.pow, OpType.ReduceMean) == Some(c.reduce)
    && Follow(g, consumers, c.reduce, OpType.Add) == Some(c.add)
    && Follow(g, consumers, c.add, OpType.Sqrt) == Some(c.sqrt)
    && Follow(g, consumers, c.sqrt, OpType.Reciprocal) == Some(c.recip)
    && Follow(g, consumers, c.recip, OpType.Mul) == Some(c.mul1)
    && Follow(g, consumers, c.mul1, OpType.Mul) == Some(c.mul2)
  }

  lemma {:induction false} FollowChain(g: Graph, consumers: Consumers, c: Chain)
    requires FollowsLinks(g, consumers)
    ensures FollowsAll(g, consumers, c) <==> Linked(g, c)
  {
    assert Link(g, c.pow, c.reduce, OpType.ReduceMean) <==>
      Follow(g, consumers, c.pow, OpType.ReduceMean) == Some(c.reduce);
    assert Link(g, c.reduce, c.add, OpType.Add) <==> Follow(g, consumers, c.reduce, OpType.Add) == Some(c.add);
    assert Link(g, c.add, c.sqrt, OpType.Sqrt) <==> Follow(g, consumers, c.add, OpType.Sqrt) == Some(c.sqrt);
    assert Link(g, c.sqrt, c.recip, OpType.Reciprocal) <==>
      Follow(g, consumers, c.sqrt, OpType.Reciprocal) == Some(c.recip);
    assert Link(g, c.recip, c.mul1, OpType.Mul) <==> Follow(g, consumers, c.recip, OpType.Mul) == Some(c.mul1);
    assert Link(g, c.mul1, c.mul2, OpType.Mul) <==> Follow(g, consumers, c.mul1, OpType.Mul) == Some(c.mul2);
  }

  lemma {:induction false} MatchSound(g: Graph, weights: map<string, WeightTensor>, consumers: Consumers, pow: nat)
    requires FollowsLinks(g, consumers) && TryMatchFromPow(g, weights, consumers, pow).Some?
    ensures var f := TryMatchFromPow(g, weights, consumers, pow).value; f.chain.pow == pow && Matches(g, weights, f)
  {
    var f := TryMatchFromPow(g, weights, consumers, pow).value;
    var c := f.chain;
    var epsilon := EpsilonAt(g, weights, c.add, OutOf(g, c.reduce)).value;
    ProductsSound(g, weights, consumers, Chain(c.pow, c.reduce, c.add, c.sqrt, c.recip, 0, 0),
      weights[epsilon].data[0], f);
    assert FollowsAll(g, consumers, c);
    FollowChain(g, consumers, c);
    assert RootMeanSquare(g, weights, c, epsilon);
  }

  lemma {:induction false} ProductsSound(
      g: Graph, weights: map<string, WeightTensor>, consumers: Consumers, c: Chain, epsilon: real, f: Fusion)
    requires Binary(g, c.pow) && TryMatchProducts(g, weights, consumers, c, epsilon) == Some(f)
    ensures f.chain == c.(mul1 := f.chain.mul1, mul2 := f.chain.mul2) && f.epsilonMilli == EpsilonMilli(epsilon)
    ensures Follow(g, consumers, c.recip, OpType.Mul) == Some(f.chain.mul1)
      && Follow(g, consumers, f.chain.mul1, OpType.Mul) == Some(f.chain.mul2)
    ensures f.inputName == g.nodes[c.pow].inputs[0] && ScaledBy(g, weights, f.chain, f.inputName, f.weightName)
    ensures f.outputName == OutOf(g, f.chain.mul2) && weights[f.weightName].shape == [f.dim]
  {
  }

  lemma {:induction false} MatchComplete(g: Graph, weights: map<string, WeightTensor>, consumers: Consumers, f: Fusion)
    requires FollowsLinks(g, consumers) && Matches(g, weights, f)
    ensures TryMatchFromPow(g, weights, consumers, f.chain.pow) == Some(f)
  {
    var c := f.chain;
    FollowChain(g, consumers, c);
    var epsilon :| RootMeanSquare(g, weights, c, epsilon) && f.epsilonMilli == EpsilonMilli(weights[epsilon].data[0]);
    assert EpsilonAt(g, weights, c.add, OutOf(g, c.reduce)) == Some(epsilon);
    assert WeightAt(g, weights, c.mul2, OutOf(g, c.mul1)) == Some(f.weightName);
    assert TryMatchProducts(g, weights, consumers, Chain(c.pow, c.reduce, c.add, c.sqrt, c.recip, 0, 0),
      weights[epsilon].data[0]) == Some(f);
  }

  // ----- every match at once -----

  ghost predicate IsFusion(g: Graph, weights: map<string, WeightTensor>, f: Fusion) {
    f.chain.pow < |g.nodes| && g.nodes[f.chain.pow].opType == OpType.Pow && Matches(g, weights, f)
  }

  /** The wanted entries that begin below node `n`, one for each first node, in node order. */
  ghost predicate EntriesBelow(wanted: Fusion -> bool, n: nat, fusions: seq<Fusion>) {
    && (forall f :: f in fusions <==> wanted(f) && f.chain.pow < n)
    && (forall i, j :: 0 <= i < j < |fusions| ==> fusions[i].chain.pow < fusions[j].chain.pow)
  }

  ghost predicate FusionsBelow(g: Graph, weights: map<string, WeightTensor>, n: nat, fusions: seq<Fusion>) {
    EntriesBelow(f => IsFusion(g, weights, f), n, fusions)
  }

  ghost predicate AllFusions(g: Graph, weights: map<string, WeightTensor>, fusions: seq<Fusion>) {
    FusionsBelow(g, weights, |g.nodes|, fusions)
  }

  method DetectRmsNormFusions(g: Graph, weights: map<string, WeightTensor>) returns (fusions: seq<Fusion>)
    ensures AllFusions(g, weights, fusions)
  {
    var consumers := CollectConsumers(g);
    fusions := [];
    for pow := 0 to |g.nodes|
      invariant FusionsBelow(g, weights, pow, fusions)
    {
      NextMatch(g, weights, consumers, pow, fusions);
      if g.nodes[pow].opType == OpType.Pow {
        var fusion := TryMatchFromPow(g, weights, consumers, pow);
        if fusion.Some? {
          fusions := fusions + [fusion.value];
        }
      }
    }
  }

  lemma {:induction false} NextMatch(
      g: Graph, weights: map<string, WeightTensor>, consumers: Consumers, pow: nat, fusions: seq<Fusion>)
    requires Collects(g.nodes, consumers) && pow < |g.nodes| && FusionsBelow(g, weights, pow, fusions)
    ensures var found := TryMatchFromPow(g, weights, consumers, pow);
      FusionsBelow(g, weights, pow + 1, if g.nodes[pow].opType == OpType.Pow && found.Some?
        then fusions + [found.value] else fusions)
  {
    var found := if g.nodes[pow].opType == OpType.Pow then TryMatchFromPow(g, weights, consumers, pow) else None;
    forall f ensures found == Some(f) <==> IsFusion(g, weights, f) && f.chain.pow == pow {
      MatchExact(g, weights, consumers, pow, f);
    }
    OneMoreFusion(f => IsFusion(g, weights, f), pow, fusions, found);
  }

  lemma {:induction false} OneMoreFusion(wanted: Fusion -> bool, pow: nat, fusions: seq<Fusion>, found: Option<Fusion>)
    requires EntriesBelow(wanted, pow, fusions)
    requires forall f :: found == Some(f) <==> wanted(f) && f.chain.pow == pow
    ensures EntriesBelow(wanted, pow + 1, if found.Some? then fusions + [found.value] else fusions)
  {
    var more := if found.Some? then fusions + [found.value] else fusions;
    forall i, j | 0 <= i < j < |more| ensures more[i].chain.pow < more[j].chain.pow {
      assert more[i] in fusions;
    }
    forall f ensures f in more <==> f in fusions || found == Some(f) {}
  }

  // ----- fusing all of them is safe -----

  function Dropped(c: Chain): set<nat> { {c.reduce, c.add, c.sqrt, c.recip, c.mul1, c.mul2} }

  function NodesOf(c: Chain): set<nat> { {c.pow} + Dropped(c) }

  /** The names that stop existing: all outputs but the last. */
  function Intermediates(g: Graph, c: Chain): set<string> {
    {OutOf(g, c.pow), OutOf(g, c.reduce), OutOf(g, c.add), OutOf(g, c.sqrt), OutOf(g, c.recip), OutOf(g, c.mul1)}
  }

  /** No node outside a match reads any tensor the fused form drops. */
  lemma {:induction false} IntermediatesStayInside(
      g: Graph, weights: map<string, WeightTensor>, f: Fusion, j: nat, name: string)
    requires IsFusion(g, weights, f) && j < |g.nodes| && name in g.nodes[j].inputs && name in Intermediates(g, f.chain)
    ensures j in Dropped(f.chain)
  {
    var c := f.chain;
  }

  /** The normalized input is not itself a dropped tensor of any match: two different nodes read it. */
  lemma {:induction false} InputSurvives(g: Graph, weights: map<string, WeightTensor>, f: Fusion, other: Fusion)
    requires IsFusion(g, weights, f) && IsFusion(g, weights, other)
    ensures f.inputName !in Intermediates(g, other.chain)
  {
    var c, name := f.chain, f.inputName;
    if name in Intermediates(g, other.chain) {
      IntermediatesStayInside(g, weights, other, c.pow, name);
    }
  }

  ghost predicate WeightsAreInitializers(g: Graph, weights: map<string, WeightTensor>) {
    forall name :: name in weights ==> name in g.initializers
  }

  /** A written name has one writer, and is not a weight. */
  lemma {:induction false} OutputOwner(g: Graph, weights: map<string, WeightTensor>, i: nat)
    requires UniqueNames(g) && WeightsAreInitializers(g, weights) && i < |g.nodes| && |g.nodes[i].outputs| == 1
    ensures ProducerOf(g, OutOf(g, i)) == Some(i) && OutOf(g, i) !in weights
  {
    assert OutOf(g, i) in g.nodes[i].outputs;
    ProducerUnique(g, i, OutOf(g, i));
  }

  lemma {:induction false} SameAddend(
      g: Graph, weights: map<string, WeightTensor>, i: nat, from1: nat, other1: string, from2: nat, other2: string)
    requires UniqueNames(g) && WeightsAreInitializers(g, weights)
    requires from1 < |g.nodes| && |g.nodes[from1].outputs| == 1 && from2 < |g.nodes| && |g.nodes[from2].outputs| == 1
    requires HasAddend(g, weights, i, OutOf(g, from1), other1) && HasAddend(g, weights, i, OutOf(g, from2), other2)
    ensures from1 == from2
  {
    OutputOwner(g, weights, from1);
    OutputOwner(g, weights, from2);
  }

  lemma {:induction false} SameFirst(g: Graph, weights: map<string, WeightTensor>, i: nat, from1: nat, from2: nat)
    requires UniqueNames(g) && WeightsAreInitializers(g, weights)
    requires from1 < |g.nodes| && |g.nodes[from1].outputs| == 1 && from2 < |g.nodes| && |g.nodes[from2].outputs| == 1
    requires ReadsFirst(g, i, OutOf(g, from1)) && ReadsFirst(g, i, OutOf(g, from2))
    ensures from1 == from2
  {
    OutputOwner(g, weights, from1);
    OutputOwner(g, weights, from2);
  }

  /** Up to the reciprocal, a shared node makes two chains begin at the same node. */
  lemma {:induction false} SharedRoot(
      g: Graph, weights: map<string, WeightTensor>, c: Chain, e: string, d: Chain, e': string)
    requires UniqueNames(g) && WeightsAreInitializers(g, weights)
    requires Linked(g, c) && Linked(g, d) && RootMeanSquare(g, weights, c, e) && RootMeanSquare(g, weights, d, e')
    ensures c.reduce == d.reduce || c.add == d.add || c.sqrt == d.sqrt || c.recip == d.recip ==> c.pow == d.pow
  {
    if c.recip == d.recip { SameFirst(g, weights, c.recip, c.sqrt, d.sqrt); }
    if c.sqrt == d.sqrt { SameFirst(g, weights, c.sqrt, c.add, d.add); }
    if c.add == d.add { SameAddend(g, weights, c.add, c.reduce, e, d.reduce, e'); }
    if c.reduce == d.reduce { SameFirst(g, weights, c.reduce, c.pow, d.pow); }
  }

  ghost predicate HasKinds(g: Graph, c: Chain) {
    && c.pow < |g.nodes| && c.reduce < |g.nodes| && c.add < |g.nodes| && c.sqrt < |g.nodes| && c.recip < |g.nodes|
    && c.mul1 < |g.nodes| && c.mul2 < |g.nodes|
    && g.nodes[c.pow].opType == OpType.Pow && g.nodes[c.reduce].opType == OpType.ReduceMean
    && g.nodes[c.add].opType == OpType.Add
    && g.nodes[c.sqrt].opType == OpType.Sqrt && g.nodes[c.recip].opType == OpType.Reciprocal
    && g.nodes[c.mul1].opType == OpType.Mul && g.nodes[c.mul2].opType == OpType.Mul
  }

  /** Nodes of different kinds are different nodes. */
  ghost predicate KindsDiffer(c: Chain, d: Chain) {
    && c.pow != d.reduce && c.pow != d.add && c.pow != d.sqrt && c.pow != d.recip && c.pow != d.mul1 && c.pow != d.mul2
    && c.reduce != d.add && c.reduce != d.sqrt && c.reduce != d.recip && c.reduce != d.mul1 && c.reduce != d.mul2
    && c.add != d.sqrt && c.add != d.recip && c.add != d.mul1 && c.add != d.mul2
    && c.sqrt != d.recip && c.sqrt != d.mul1 && c.sqrt != d.mul2 && c.recip != d.mul1 && c.recip != d.mul2
  }

  lemma {:induction false} ByKind(g: Graph, c: Chain, d: Chain)
    requires HasKinds(g, c) && HasKinds(g, d)
    ensures KindsDiffer(c, d) && KindsDiffer(d, c)
  {
  }

  /** A first product of one match is not a second product of any match. */
  lemma {:induction false} ProductsDiffer(g: Graph, weights: map<string, WeightTensor>, f: Fusion, f': Fusion)
    requires UniqueNames(g) && WeightsAreInitializers(g, weights) && IsFusion(g, weights, f) && IsFusion(g, weights, f')
    ensures f.chain.mul1 != f'.chain.mul2
  {
    OutputOwner(g, weights, f.chain.recip);
    OutputOwner(g, weights, f'.chain.mul1);
    ByKind(g, f.chain, f'.chain);
  }

  lemma {:induction false} OtherOfTwo(inputs: seq<string>, x: string, y: string, y': string)
    requires Either(inputs, x) && Either(inputs, y) && Either(inputs, y') && x != y && x != y'
    ensures y == y'
  {
  }

  /** Matches that share a first product share the reciprocal. */
  lemma {:induction false} SharedFirstProduct(g: Graph, weights: map<string, WeightTensor>, f: Fusion, f': Fusion)
    requires UniqueNames(g) && WeightsAreInitializers(g, weights) && IsFusion(g, weights, f) && IsFusion(g, weights, f')
    ensures f.chain.mul1 == f'.chain.mul1 ==> f.chain.recip == f'.chain.recip
  {
    var c, d := f.chain, f'.chain;
    InputSurvives(g, weights, f, f);
    InputSurvives(g, weights, f, f');
    if c.mul1 == d.mul1 {
      OtherOfTwo(g.nodes[c.mul1].inputs, f.inputName, OutOf(g, c.recip), OutOf(g, d.recip));
      OutputOwner(g, weights, c.recip);
      OutputOwner(g, weights, d.recip);
    }
  }

  lemma {:induction false} SharedSecondProduct(g: Graph, weights: map<string, WeightTensor>, f: Fusion, f': Fusion)
    requires UniqueNames(g) && WeightsAreInitializers(g, weights) && IsFusion(g, weights, f) && IsFusion(g, weights, f')
    ensures f.chain.mul2 == f'.chain.mul2 ==> f.chain.mul1 == f'.chain.mul1
  {
    var c, d := f.chain, f'.chain;
    if c.mul2 == d.mul2 {
      SameAddend(g, weights, c.mul2, c.mul1, f.weightName, d.mul1, f'.weightName);
    }
  }

  lemma {:induction false} Roots(g: Graph, weights: map<string, WeightTensor>, f: Fusion, f': Fusion)
    requires UniqueNames(g) && WeightsAreInitializers(g, weights) && IsFusion(g, weights, f) && IsFusion(g, weights, f')
    ensures var c, d := f.chain, f'.chain;
      c.reduce == d.reduce || c.add == d.add || c.sqrt == d.sqrt || c.recip == d.recip ==> c.pow == d.pow
  {
    var e :| RootMeanSquare(g, weights, f.chain, e);
    var e' :| RootMeanSquare(g, weights, f'.chain, e');
    SharedRoot(g, weights, f.chain, e, f'.chain, e');
  }

  /** What makes two chains disjoint. */
  ghost predicate Apart(c: Chain, d: Chain) {
    && KindsDiffer(c, d) && KindsDiffer(d, c) && c.pow != d.pow && c.reduce != d.reduce && c.add != d.add
    && c.sqrt != d.sqrt
    && c.recip != d.recip && c.mul1 != d.mul1 && c.mul2 != d.mul2 && c.mul1 != d.mul2 && c.mul2 != d.mul1
  }

  lemma {:induction false} ApartMeansDisjoint(c: Chain, d: Chain)
    requires Apart(c, d)
    ensures NodesOf(c) !! NodesOf(d)
  {
    forall x | x in NodesOf(c) ensures x !in NodesOf(d) {}
  }

  /** Different matches have no node in common, so they can all be fused together. */
  lemma {:induction false} MatchesDisjoint(g: Graph, weights: map<string, WeightTensor>, f: Fusion, f': Fusion)
    requires UniqueNames(g) && WeightsAreInitializers(g, weights) && IsFusion(g, weights, f) && IsFusion(g, weights, f')
    ensures f.chain.pow != f'.chain.pow ==> NodesOf(f.chain) !! NodesOf(f'.chain)
  {
    Roots(g, weights, f, f');
    SharedFirstProduct(g, weights, f, f');
    SharedSecondProduct(g, weights, f, f');
    ProductsDiffer(g, weights, f, f');
    ProductsDiffer(g, weights, f', f);
    ByKind(g, f.chain, f'.chain);
    if f.chain.pow != f'.chain.pow {
      ApartMeansDisjoint(f.chain, f'.chain);
    }
  }

  /** The seven nodes of a match are seven. */
  lemma {:induction false} SevenNodes(g: Graph, weights: map<string, WeightTensor>, f: Fusion)
    requires UniqueNames(g) && WeightsAreInitializers(g, weights) && IsFusion(g, weights, f)
    ensures var c := f.chain; Distinct([c.pow, c.reduce, c.add, c.sqrt, c.recip, c.mul1, c.mul2])
  {
    ProductsDiffer(g, weights, f, f);
    ByKind(g, f.chain, f.chain);
  }
}
