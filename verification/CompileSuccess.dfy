/** Exactly when a graph compiles: fusing never makes a surviving node's input unresolvable. */
module CompileSuccess {
  import opened Prelude
  import opened Program
  import opened OnnxGraph
  import opened RmsNormFusion
  import opened TopologicalSort
  import opened GraphCompiler

  // ----- the condition, on the graph alone -----

  /** A name some other node than `i` writes, or a source. */
  ghost predicate Defined(g: Graph, name: string, i: nat) {
    name in g.inputs || name in g.initializers || exists p :: ProducerOf(g, name) == Some(p) && p != i
  }

  function Published(action: Action): seq<string> {
    match action
    case Produce(_, _, outputs) => outputs
    case Rename(_, outputs) => outputs
    case _ => []
  }

  function Needed(action: Action): seq<string> {
    match action
    case Produce(_, inputs, _) => inputs
    case Rename(inputs, _) => if |inputs| > 0 then [inputs[0]] else []
    case _ => []
  }

  /** A mapped node with the output count its kind of action takes. */
  predicate Fits(action: Action) {
    match action
    case Skip => true
    case Reject => false
    case Produce(_, _, outputs) => |outputs| == 1
    case Rename(inputs, _) => |inputs| > 0
  }

  /** Every node fits and everything it needs is defined by some other node or by a source. */
  ghost predicate NodesCompile(g: Graph, mapper: Mapper, plan: Plan) {
    forall i :: 0 <= i < |g.nodes| ==>
      var action := ActionOf(g, mapper, plan, i);
      Fits(action) && forall name :: name in Needed(action) ==> Defined(g, name, i)
  }

  /** A name something defines and no match drops. */
  ghost predicate Survives(g: Graph, wanted: Fusion -> bool, name: string) {
    && (name in g.inputs || name in g.initializers || ProducerOf(g, name).Some?)
    && forall f :: wanted(f) ==> name !in Intermediates(g, f.chain)
  }

  /** Every graph output is defined, and no match drops it. */
  ghost predicate OutputsSurvive(g: Graph, weights: map<string, WeightTensor>) {
    forall name :: name in g.outputs ==> Survives(g, f => IsFusion(g, weights, f), name)
  }

  // ----- what compiling needs to know of the matches -----

  ghost predicate Follows(g: Graph, c: Chain) {
    && Depends(g, c.pow, c.reduce) && Depends(g, c.reduce, c.add) && Depends(g, c.add, c.sqrt)
    && Depends(g, c.sqrt, c.recip)
    && Depends(g, c.recip, c.mul1) && Depends(g, c.mul1, c.mul2)
  }

  ghost predicate SingleOutputs(g: Graph, c: Chain) {
    HasKinds(g, c) && forall i :: i in NodesOf(c) ==> |g.nodes[i].outputs| == 1
  }

  /** Only absorbed nodes read the dropped tensors, which only the match's earlier nodes write. */
  ghost predicate Encloses(g: Graph, c: Chain) {
    && (forall j, name :: 0 <= j < |g.nodes| && name in g.nodes[j].inputs && name in Intermediates(g, c) ==>
      j in Dropped(c))
    && (forall name :: name in Intermediates(g, c) ==> OwnedInside(g, c, name))
  }

  /** A name written by a node of the match other than its last, and by nothing else. */
  ghost predicate OwnedInside(g: Graph, c: Chain, name: string) {
    && ProducerOf(g, name).Some? && ProducerOf(g, name).value in NodesOf(c) - {c.mul2}
    && name !in g.inputs && name !in g.initializers
  }

  ghost predicate Replaceable(g: Graph, f: Fusion) {
    && SingleOutputs(g, f.chain) && Follows(g, f.chain) && Encloses(g, f.chain)
    && f.outputName == OutOf(g, f.chain.mul2) && f.inputName in g.nodes[f.chain.pow].inputs
    && f.weightName in g.initializers
  }

  ghost predicate Compatible(g: Graph, f: Fusion, f': Fusion) {
    && f.inputName !in Intermediates(g, f'.chain) && f.chain.pow !in Dropped(f'.chain)
    && f.chain.mul2 !in NodesOf(f'.chain) - {f'.chain.mul2}
  }

  ghost predicate AllReplaceable(g: Graph, wanted: Fusion -> bool) {
    && (forall f {:trigger Replaceable(g, f)} :: wanted(f) ==> Replaceable(g, f))
    && (forall f, f' {:trigger Compatible(g, f, f')} :: wanted(f) && wanted(f') ==> Compatible(g, f, f'))
  }

  lemma {:induction false} LinkDepends(g: Graph, weights: map<string, WeightTensor>, from: nat, to: nat, opType: OpType)
    requires UniqueNames(g) && WeightsAreInitializers(g, weights) && Link(g, from, to, opType) && from != to
    ensures Depends(g, from, to)
  {
    OutputOwner(g, weights, from);
    assert OutOf(g, from) in g.nodes[to].inputs;
  }

  lemma {:induction false} ChainFollows(g: Graph, weights: map<string, WeightTensor>, f: Fusion)
    requires UniqueNames(g) && WeightsAreInitializers(g, weights) && IsFusion(g, weights, f)
    ensures Follows(g, f.chain)
  {
    var c := f.chain;
    ByKind(g, c, c);
    ProductsDiffer(g, weights, f, f);
    LinkDepends(g, weights, c.pow, c.reduce, OpType.ReduceMean);
    LinkDepends(g, weights, c.reduce, c.add, OpType.Add);
    LinkDepends(g, weights, c.add, c.sqrt, OpType.Sqrt);
    LinkDepends(g, weights, c.sqrt, c.recip, OpType.Reciprocal);
    LinkDepends(g, weights, c.recip, c.mul1, OpType.Mul);
    LinkDepends(g, weights, c.mul1, c.mul2, OpType.Mul);
  }

  lemma {:induction false} OutputOf(g: Graph, i: nat)
    requires UniqueNames(g) && i < |g.nodes| && |g.nodes[i].outputs| == 1
    ensures ProducerOf(g, OutOf(g, i)) == Some(i) && OutOf(g, i) !in g.inputs && OutOf(g, i) !in g.initializers
  {
    assert OutOf(g, i) in g.nodes[i].outputs;
    ProducerUnique(g, i, OutOf(g, i));
  }

  lemma {:induction false} MatchEncloses(g: Graph, weights: map<string, WeightTensor>, f: Fusion)
    requires UniqueNames(g) && WeightsAreInitializers(g, weights) && IsFusion(g, weights, f)
      && SingleOutputs(g, f.chain)
    ensures Encloses(g, f.chain)
  {
    var c := f.chain;
    forall j: nat, name | j < |g.nodes| && name in g.nodes[j].inputs && name in Intermediates(g, c)
      ensures j in Dropped(c)
    {
      IntermediatesStayInside(g, weights, f, j, name);
    }
    ProductsDiffer(g, weights, f, f);
    OwnersInside(g, c);
  }

  lemma {:induction false} OwnersInside(g: Graph, c: Chain)
    requires UniqueNames(g) && SingleOutputs(g, c) && c.mul1 != c.mul2
    ensures forall name :: name in Intermediates(g, c) ==> OwnedInside(g, c, name)
  {
    ByKind(g, c, c);
    forall name | name in Intermediates(g, c) ensures OwnedInside(g, c, name) {
      var i := InnerNode(g, c, name);
      OwnerInside(g, c, i);
    }
  }

  lemma {:induction false} InnerNode(g: Graph, c: Chain, name: string) returns (i: nat)
    requires KindsDiffer(c, c) && c.mul1 != c.mul2 && name in Intermediates(g, c)
    ensures i in NodesOf(c) && i != c.mul2 && name == OutOf(g, i)
  {
    i := if name == OutOf(g, c.pow) then c.pow
         else if name == OutOf(g, c.reduce) then c.reduce
         else if name == OutOf(g, c.add) then c.add
         else if name == OutOf(g, c.sqrt) then c.sqrt
         else if name == OutOf(g, c.recip) then c.recip
         else c.mul1;
  }

  lemma {:induction false} OwnerInside(g: Graph, c: Chain, i: nat)
    requires UniqueNames(g) && SingleOutputs(g, c) && i in NodesOf(c) && i != c.mul2
    ensures OwnedInside(g, c, OutOf(g, i))
  {
    OutputOf(g, i);
  }

  lemma {:induction false} MatchHasSingleOutputs(g: Graph, weights: map<string, WeightTensor>, f: Fusion)
    requires IsFusion(g, weights, f)
    ensures SingleOutputs(g, f.chain)
  {
  }

  lemma {:induction false} MatchReplaceable(g: Graph, weights: map<string, WeightTensor>, f: Fusion)
    requires UniqueNames(g) && WeightsAreInitializers(g, weights) && IsFusion(g, weights, f)
    ensures Replaceable(g, f)
  {
    ChainFollows(g, weights, f);
    MatchHasSingleOutputs(g, weights, f);
    MatchEncloses(g, weights, f);
  }

  lemma {:induction false} EndsApart(c: Chain, d: Chain)
    requires KindsDiffer(c, d) && KindsDiffer(d, c) && d.mul1 != c.mul2
    ensures c.pow !in Dropped(d) && c.mul2 !in NodesOf(d) - {d.mul2}
  {
  }

  lemma {:induction false} MatchesCompatible(g: Graph, weights: map<string, WeightTensor>, f: Fusion, f': Fusion)
    requires UniqueNames(g) && WeightsAreInitializers(g, weights) && IsFusion(g, weights, f) && IsFusion(g, weights, f')
    ensures Compatible(g, f, f')
  {
    InputSurvives(g, weights, f, f');
    ProductsDiffer(g, weights, f', f);
    ByKind(g, f.chain, f'.chain);
    EndsApart(f.chain, f'.chain);
  }

  lemma {:induction false} MatchesReplaceable(g: Graph, weights: map<string, WeightTensor>)
    requires UniqueNames(g) && WeightsAreInitializers(g, weights)
    ensures AllReplaceable(g, f => IsFusion(g, weights, f))
  {
    forall f | IsFusion(g, weights, f) ensures Replaceable(g, f) {
      MatchReplaceable(g, weights, f);
    }
    forall f, f' | IsFusion(g, weights, f) && IsFusion(g, weights, f') ensures Compatible(g, f, f') {
      MatchesCompatible(g, weights, f, f');
    }
  }

  // ----- what the plan holds -----

  ghost predicate AbsorbedBySome(wanted: Fusion -> bool, i: nat) {
    exists f :: wanted(f) && i in Dropped(f.chain)
  }

  ghost predicate PlannedFor(plan: Plan, f: Fusion) {
    f.chain.pow in plan.byPow && plan.byPow[f.chain.pow] == f && Dropped(f.chain) <= plan.consumed
  }

  ghost predicate FusesAll(wanted: Fusion -> bool, plan: Plan) {
    && (forall p :: p in plan.byPow ==> wanted(plan.byPow[p]) && plan.byPow[p].chain.pow == p)
    && (forall f {:trigger PlannedFor(plan, f)} :: wanted(f) ==> PlannedFor(plan, f))
    && (forall i {:trigger AbsorbedBySome(wanted, i)} :: i in plan.consumed ==> AbsorbedBySome(wanted, i))
  }

  lemma {:induction false} PlanFusesAll(wanted: Fusion -> bool, plan: Plan, fusions: seq<Fusion>)
    requires PlanFor(fusions, plan) && forall f :: f in fusions <==> wanted(f)
    ensures FusesAll(wanted, plan)
  {
    forall i | i in plan.consumed ensures AbsorbedBySome(wanted, i) {
      var f :| f in fusions && i in Dropped(f.chain);
      assert wanted(f);
    }
  }

  /** What a surviving node needs it reads, unless it is an initializer. */
  lemma {:induction false} NeedIsRead(
      g: Graph, wanted: Fusion -> bool, plan: Plan, mapper: Mapper, i: nat, name: string)
    requires AllReplaceable(g, wanted) && FusesAll(wanted, plan) && name in Needed(ActionOf(g, mapper, plan, i))
    ensures name !in g.initializers ==> i < |g.nodes| && name in g.nodes[i].inputs
  {
    if i in plan.byPow {
      assert Replaceable(g, plan.byPow[i]);
    } else {
      PlainNeeds(g, mapper, plan, i, name);
    }
  }

  /** No match drops what a surviving node needs. */
  lemma {:induction false} NeedSurvives(
      g: Graph, wanted: Fusion -> bool, plan: Plan, mapper: Mapper, i: nat, name: string, f: Fusion)
    requires AllReplaceable(g, wanted) && FusesAll(wanted, plan) && name in Needed(ActionOf(g, mapper, plan, i))
    requires wanted(f)
    ensures name !in Intermediates(g, f.chain)
  {
    if i in plan.byPow {
      FusedNeedSurvives(g, wanted, plan.byPow[i], f, name);
    } else {
      PlainNeeds(g, mapper, plan, i, name);
      assert PlannedFor(plan, f);
      PlainNeedSurvives(g, wanted, f, i, name);
    }
  }

  lemma {:induction false} FusedNeedSurvives(g: Graph, wanted: Fusion -> bool, own: Fusion, f: Fusion, name: string)
    requires AllReplaceable(g, wanted) && wanted(own) && wanted(f)
    requires name == own.inputName || name == own.weightName
    ensures name !in Intermediates(g, f.chain)
  {
    assert Replaceable(g, own) && Replaceable(g, f) && Compatible(g, own, f);
  }

  lemma {:induction false} PlainNeedSurvives(g: Graph, wanted: Fusion -> bool, f: Fusion, i: nat, name: string)
    requires AllReplaceable(g, wanted) && wanted(f) && i !in Dropped(f.chain)
    requires i < |g.nodes| && name in g.nodes[i].inputs
    ensures name !in Intermediates(g, f.chain)
  {
    assert Replaceable(g, f);
  }

  lemma {:induction false} PlainNeeds(g: Graph, mapper: Mapper, plan: Plan, i: nat, name: string)
    requires i !in plan.byPow && name in Needed(ActionOf(g, mapper, plan, i))
    ensures i !in plan.consumed && i < |g.nodes| && name in g.nodes[i].inputs
  {
  }

  // ----- who publishes a name -----

  /** The fused node of a match stands for its last node; every other node stands for itself. */
  ghost predicate StandsFor(plan: Plan, j: nat, p: nat) {
    if j in plan.byPow then p == plan.byPow[j].chain.mul2 else p == j && p !in plan.consumed
  }

  /** A name a surviving node publishes is an output of the node it stands for. */
  lemma {:induction false} PublishedIsProduced(
      g: Graph, wanted: Fusion -> bool, plan: Plan, mapper: Mapper, j: nat, name: string) returns (p: nat)
    requires UniqueNames(g) && AllReplaceable(g, wanted) && FusesAll(wanted, plan)
    requires name in Published(ActionOf(g, mapper, plan, j))
    ensures ProducerOf(g, name) == Some(p) && StandsFor(plan, j, p)
  {
    if j in plan.byPow {
      var f := plan.byPow[j];
      assert Replaceable(g, f);
      p := f.chain.mul2;
      OutputOf(g, p);
    } else {
      p := j;
      ProducerUnique(g, j, name);
    }
  }

  /** A written name no match drops is published. */
  lemma {:induction false} ProducedIsPublished(
      g: Graph, wanted: Fusion -> bool, plan: Plan, mapper: Mapper, p: nat, name: string) returns (j: nat)
    requires UniqueNames(g) && AllReplaceable(g, wanted) && FusesAll(wanted, plan) && ProducerOf(g, name) == Some(p)
    requires forall i :: 0 <= i < |g.nodes| ==> Fits(ActionOf(g, mapper, plan, i))
    requires forall f :: wanted(f) ==> name !in Intermediates(g, f.chain)
    ensures StandsFor(plan, j, p) && name in Published(ActionOf(g, mapper, plan, j)) && j < |g.nodes|
  {
    if p in plan.byPow {
      assert Replaceable(g, plan.byPow[p]);
      FirstIsDropped(g, plan.byPow[p], name);
      assert false;
    } else if p in plan.consumed {
      assert AbsorbedBySome(wanted, p);
      var f :| wanted(f) && p in Dropped(f.chain);
      assert Replaceable(g, f) && PlannedFor(plan, f);
      LastOutput(g, f, p, name);
      j := f.chain.pow;
    } else {
      j := p;
      assert Fits(ActionOf(g, mapper, plan, p));
    }
  }

  /** The first node of a match writes a dropped tensor only. */
  lemma {:induction false} FirstIsDropped(g: Graph, f: Fusion, name: string)
    requires Replaceable(g, f) && name in g.nodes[f.chain.pow].outputs
    ensures name in Intermediates(g, f.chain)
  {
    assert f.chain.pow in NodesOf(f.chain);
    assert name == OutOf(g, f.chain.pow);
  }

  /** The only output of a match that is not dropped is its last node's. */
  lemma {:induction false} LastOutput(g: Graph, f: Fusion, p: nat, name: string)
    requires Replaceable(g, f) && p in Dropped(f.chain) && name in g.nodes[p].outputs
      && name !in Intermediates(g, f.chain)
    ensures p == f.chain.mul2 && name == f.outputName
  {
    assert p in NodesOf(f.chain);
    assert name == OutOf(g, p);
  }

  // ----- positions -----

  ghost predicate Precedes(order: seq<nat>, i: nat, j: nat) {
    exists k, l :: 0 <= k < l < |order| && order[k] == i && order[l] == j
  }

  lemma {:induction false} DependsPrecedes(g: Graph, order: seq<nat>, i: nat, j: nat)
    requires IsPermutation(|g.nodes|, order) && ProducersFirst(g, order) && Depends(g, i, j)
    ensures Precedes(order, i, j)
  {
    PermutationCovers(|g.nodes|, order);
    assert j in Elements(order);
    var l :| 0 <= l < |order| && order[l] == j;
    ProducerBefore(g, order, i, l);
  }

  lemma {:induction false} PrecedesTransitive(order: seq<nat>, i: nat, j: nat, k: nat)
    requires Distinct(order) && Precedes(order, i, j) && Precedes(order, j, k)
    ensures Precedes(order, i, k)
  {
    var a, b :| 0 <= a < b < |order| && order[a] == i && order[b] == j;
    var c, d :| 0 <= c < d < |order| && order[c] == j && order[d] == k;
    assert b == c;
  }

  /** The fused instruction stands where the match begins, ahead of where it ended. */
  lemma {:induction false} ChainInOrder(g: Graph, order: seq<nat>, c: Chain)
    requires IsPermutation(|g.nodes|, order) && ProducersFirst(g, order) && Follows(g, c)
    ensures Precedes(order, c.pow, c.mul2)
  {
    DependsPrecedes(g, order, c.pow, c.reduce);
    DependsPrecedes(g, order, c.reduce, c.add);
    PrecedesTransitive(order, c.pow, c.reduce, c.add);
    DependsPrecedes(g, order, c.add, c.sqrt);
    PrecedesTransitive(order, c.pow, c.add, c.sqrt);
    DependsPrecedes(g, order, c.sqrt, c.recip);
    PrecedesTransitive(order, c.pow, c.sqrt, c.recip);
    DependsPrecedes(g, order, c.recip, c.mul1);
    PrecedesTransitive(order, c.pow, c.recip, c.mul1);
    DependsPrecedes(g, order, c.mul1, c.mul2);
    PrecedesTransitive(order, c.pow, c.mul1, c.mul2);
  }

  // ----- which names have registers when -----

  ghost predicate HasRegister(g: Graph, mapper: Mapper, plan: Plan, order: seq<nat>, k: nat, name: string)
    requires k <= |order|
  {
    || name in g.inputs
    || name in g.initializers
    || exists l :: 0 <= l < k && name in Published(ActionOf(g, mapper, plan, order[l]))
  }

  ghost predicate Resolves(g: Graph, mapper: Mapper, plan: Plan, order: seq<nat>, k: nat)
    requires k < |order|
  {
    var action := ActionOf(g, mapper, plan, order[k]);
    Fits(action) && forall name :: name in Needed(action) ==> HasRegister(g, mapper, plan, order, k, name)
  }

  lemma {:induction false} ApplyOk(action: Action, st: State)
    ensures Apply(action, st).Ok? <==> Fits(action) && forall name :: name in Needed(action) ==> name in st.registers
    ensures Apply(action, st).Ok? ==>
      forall name :: name in Apply(action, st).value.registers <==> name in st.registers || name in Published(action)
  {
    if action.Produce? {
      assert forall k :: 0 <= k < |action.inputs| ==> action.inputs[k] in Needed(action);
    }
    if action.Rename? && Apply(action, st).Ok? {
      forall name
        ensures name in Apply(action, st).value.registers <==> name in st.registers || name in action.outputs
      {
        BoundLookup(st.registers, action.outputs, _ => st.registers[action.inputs[0]], name);
      }
    }
  }

  lemma {:induction false} InitialNames(g: Graph, name: string)
    ensures name in InitialRegisters(g) <==> name in g.inputs || name in g.initializers
  {
    var inputs := Bound(map[], g.inputs, name => Register.GraphInput(name));
    BoundLookup(map[], g.inputs, name => Register.GraphInput(name), name);
    BoundLookup(inputs, g.initializers, name => Register.Weight(name), name);
  }

  /** The nodes compile exactly when each, in turn, fits and finds a register for what it needs. */
  lemma {:induction false} RunOk(g: Graph, mapper: Mapper, plan: Plan, order: seq<nat>, k: nat)
    requires k <= |order|
    ensures RunActions(g, mapper, plan, order[..k]).Ok? <==>
      forall l :: 0 <= l < k ==> Resolves(g, mapper, plan, order, l)
    ensures RunActions(g, mapper, plan, order[..k]).Ok? ==>
      forall name :: name in RunActions(g, mapper, plan, order[..k]).value.registers <==>
        HasRegister(g, mapper, plan, order, k, name)
    decreases k
  {
    if k == 0 {
      forall name ensures name in InitialRegisters(g) <==> HasRegister(g, mapper, plan, order, 0, name) {
        InitialNames(g, name);
      }
    } else {
      RunOk(g, mapper, plan, order, k - 1);
      RunMore(g, mapper, plan, order, k - 1);
      var before := RunActions(g, mapper, plan, order[..k - 1]);
      if before.Ok? {
        ApplyOk(ActionOf(g, mapper, plan, order[k - 1]), before.value);
        RegistersMore(g, mapper, plan, order, k - 1);
        assert RunActions(g, mapper, plan, order[..k]).Ok? <==> Resolves(g, mapper, plan, order, k - 1);
      } else {
        assert RunActions(g, mapper, plan, order[..k]).Err?;
      }
    }
  }

  lemma {:induction false} RegistersMore(g: Graph, mapper: Mapper, plan: Plan, order: seq<nat>, k: nat)
    requires k < |order|
    ensures forall name :: HasRegister(g, mapper, plan, order, k + 1, name) <==>
      HasRegister(g, mapper, plan, order, k, name) || name in Published(ActionOf(g, mapper, plan, order[k]))
  {
  }

  // ----- the condition is exact -----

  ghost predicate Sound(g: Graph, wanted: Fusion -> bool, plan: Plan, order: seq<nat>) {
    && UniqueNames(g) && AllReplaceable(g, wanted) && FusesAll(wanted, plan)
    && IsPermutation(|g.nodes|, order) && ProducersFirst(g, order)
  }

  /** A needed name that some other node writes is published before it is needed. */
  lemma {:induction false} DefinedInTime(
      g: Graph, wanted: Fusion -> bool, plan: Plan, mapper: Mapper, order: seq<nat>, k: nat, name: string)
    requires Sound(g, wanted, plan, order) && k < |order| && name in Needed(ActionOf(g, mapper, plan, order[k]))
    requires forall i :: 0 <= i < |g.nodes| ==> Fits(ActionOf(g, mapper, plan, i))
    requires Defined(g, name, order[k])
    ensures HasRegister(g, mapper, plan, order, k, name)
  {
    if name !in g.inputs && name !in g.initializers {
      var p :| ProducerOf(g, name) == Some(p) && p != order[k];
      NeedIsRead(g, wanted, plan, mapper, order[k], name);
      forall f | wanted(f) ensures name !in Intermediates(g, f.chain) {
        NeedSurvives(g, wanted, plan, mapper, order[k], name, f);
      }
      var j := ProducedIsPublished(g, wanted, plan, mapper, p, name);
      assert Depends(g, p, order[k]);
      StandInPrecedes(g, wanted, plan, order, j, p, order[k]);
      PrecedesPosition(order, j, k);
    }
  }

  lemma {:induction false} StandInPrecedes(
      g: Graph, wanted: Fusion -> bool, plan: Plan, order: seq<nat>, j: nat, p: nat, i: nat)
    requires Sound(g, wanted, plan, order) && StandsFor(plan, j, p) && Depends(g, p, i)
    ensures Precedes(order, j, i)
  {
    DependsPrecedes(g, order, p, i);
    if j in plan.byPow {
      assert Replaceable(g, plan.byPow[j]);
      ChainInOrder(g, order, plan.byPow[j].chain);
      PrecedesTransitive(order, j, p, i);
    }
  }

  lemma {:induction false} PrecedesPosition(order: seq<nat>, j: nat, k: nat)
    requires Distinct(order) && k < |order| && Precedes(order, j, order[k])
    ensures exists l :: 0 <= l < k && order[l] == j
  {
  }

  /** The last node of a match needs nothing: it has been absorbed. */
  lemma {:induction false} LastIsNoReader(
      g: Graph, wanted: Fusion -> bool, plan: Plan, mapper: Mapper, f: Fusion, i: nat, name: string)
    requires AllReplaceable(g, wanted) && FusesAll(wanted, plan) && wanted(f)
      && name in Needed(ActionOf(g, mapper, plan, i))
    ensures i != f.chain.mul2
  {
    assert PlannedFor(plan, f) && f.chain.mul2 in Dropped(f.chain);
    if i in plan.byPow {
      assert Compatible(g, plan.byPow[i], f);
    }
  }

  /** A name with a register is defined by a source or by another node. */
  lemma {:induction false} RegisteredIsDefined(
      g: Graph, wanted: Fusion -> bool, plan: Plan, mapper: Mapper, order: seq<nat>, k: nat, name: string)
    requires Sound(g, wanted, plan, order) && k < |order| && name in Needed(ActionOf(g, mapper, plan, order[k]))
    requires HasRegister(g, mapper, plan, order, k, name)
    ensures Defined(g, name, order[k])
  {
    if name !in g.inputs && name !in g.initializers {
      var l :| 0 <= l < k && name in Published(ActionOf(g, mapper, plan, order[l]));
      var p := PublishedIsProduced(g, wanted, plan, mapper, order[l], name);
      if order[l] in plan.byPow {
        LastIsNoReader(g, wanted, plan, mapper, plan.byPow[order[l]], order[k], name);
      }
    }
  }

  lemma {:induction false} NodesCompileExact(
      g: Graph, wanted: Fusion -> bool, plan: Plan, mapper: Mapper, order: seq<nat>)
    requires Sound(g, wanted, plan, order)
    ensures RunActions(g, mapper, plan, order).Ok? <==> NodesCompile(g, mapper, plan)
  {
    assert order[..|order|] == order;
    RunOk(g, mapper, plan, order, |order|);
    if RunActions(g, mapper, plan, order).Ok? {
      ResolvedNodesCompile(g, wanted, plan, mapper, order);
    }
    if NodesCompile(g, mapper, plan) {
      forall k: nat | k < |order| ensures Resolves(g, mapper, plan, order, k) {
        assert order[k] < |g.nodes|;
        forall name | name in Needed(ActionOf(g, mapper, plan, order[k]))
          ensures HasRegister(g, mapper, plan, order, k, name)
        {
          DefinedInTime(g, wanted, plan, mapper, order, k, name);
        }
      }
    }
  }

  lemma {:induction false} ResolvedNodesCompile(
      g: Graph, wanted: Fusion -> bool, plan: Plan, mapper: Mapper, order: seq<nat>)
    requires Sound(g, wanted, plan, order) && forall k :: 0 <= k < |order| ==> Resolves(g, mapper, plan, order, k)
    ensures NodesCompile(g, mapper, plan)
  {
    PermutationCovers(|g.nodes|, order);
    forall i: nat | i < |g.nodes|
      ensures var action := ActionOf(g, mapper, plan, i);
        Fits(action) && forall name :: name in Needed(action) ==> Defined(g, name, i)
    {
      assert i in Elements(order);
      var k :| 0 <= k < |order| && order[k] == i;
      assert Resolves(g, mapper, plan, order, k);
      forall name | name in Needed(ActionOf(g, mapper, plan, i)) ensures Defined(g, name, i) {
        RegisteredIsDefined(g, wanted, plan, mapper, order, k, name);
      }
    }
  }

  /** A name has a register at the end exactly when something defines it and no match drops it. */
  lemma {:induction false} FinalRegisters(
      g: Graph, wanted: Fusion -> bool, plan: Plan, mapper: Mapper, order: seq<nat>, name: string)
    requires Sound(g, wanted, plan, order) && NodesCompile(g, mapper, plan)
    ensures HasRegister(g, mapper, plan, order, |order|, name) <==> Survives(g, wanted, name)
  {
    if HasRegister(g, mapper, plan, order, |order|, name) {
      RegisteredSurvives(g, wanted, plan, mapper, order, name);
    }
    if Survives(g, wanted, name) && ProducerOf(g, name).Some? {
      var j := ProducedIsPublished(g, wanted, plan, mapper, ProducerOf(g, name).value, name);
      PermutationCovers(|g.nodes|, order);
      assert j in Elements(order);
    }
  }

  lemma {:induction false} RegisteredSurvives(
      g: Graph, wanted: Fusion -> bool, plan: Plan, mapper: Mapper, order: seq<nat>, name: string)
    requires Sound(g, wanted, plan, order) && HasRegister(g, mapper, plan, order, |order|, name)
    ensures Survives(g, wanted, name)
  {
    if name in g.inputs || name in g.initializers {
      forall f | wanted(f) ensures name !in Intermediates(g, f.chain) {
        assert Replaceable(g, f);
      }
    } else {
      var l :| 0 <= l < |order| && name in Published(ActionOf(g, mapper, plan, order[l]));
      var p := PublishedIsProduced(g, wanted, plan, mapper, order[l], name);
      forall f | wanted(f) ensures name !in Intermediates(g, f.chain) {
        PublishedSurvives(g, wanted, plan, order[l], p, f, name);
      }
    }
  }

  lemma {:induction false} PublishedSurvives(
      g: Graph, wanted: Fusion -> bool, plan: Plan, j: nat, p: nat, f: Fusion, name: string)
    requires AllReplaceable(g, wanted) && FusesAll(wanted, plan) && wanted(f)
    requires ProducerOf(g, name) == Some(p) && StandsFor(plan, j, p)
    ensures name !in Intermediates(g, f.chain)
  {
    assert Replaceable(g, f) && PlannedFor(plan, f);
    if j in plan.byPow {
      assert Compatible(g, plan.byPow[j], f);
    }
  }

  lemma {:induction false} ArrangedIsSound(g: Graph, weights: map<string, WeightTensor>, plan: Plan, order: seq<nat>)
    requires UniqueNames(g) && WeightsAreInitializers(g, weights) && Arranged(g, weights, plan, order)
    ensures Sound(g, f => IsFusion(g, weights, f), plan, order)
  {
    var fusions :| AllFusions(g, weights, fusions) && PlanFor(fusions, plan);
    MatchesReplaceable(g, weights);
    PlanFusesAll(f => IsFusion(g, weights, f), plan, fusions);
  }

  /**
   * A single-assignment graph compiles exactly when every node left after fusion is supported and reads names that
   * some other node or a source defines, and every graph output is defined and not dropped by a match. Fusion
   * appears in the condition only for the graph's own outputs, and it is such an output that is reported.
   */
  lemma {:induction false} CompilesExactly(
      g: Graph, weights: map<string, WeightTensor>, values: map<string, Option<Tensor>>, plan: Plan, mapper: Mapper,
      order: seq<nat>)
    requires UniqueNames(g) && WeightsAreInitializers(g, weights) && Arranged(g, weights, plan, order)
    ensures Compiled(g, mapper, plan, values, order).Ok? <==>
      NodesCompile(g, mapper, plan) && OutputsSurvive(g, weights)
    ensures NodesCompile(g, mapper, plan) && !OutputsSurvive(g, weights) ==>
      LosesOutput(g, f => IsFusion(g, weights, f), Compiled(g, mapper, plan, values, order))
  {
    var wanted := f => IsFusion(g, weights, f);
    ArrangedIsSound(g, weights, plan, order);
    NodesCompileExact(g, wanted, plan, mapper, order);
    if NodesCompile(g, mapper, plan) {
      LostOutputNamed(g, wanted, values, plan, mapper, order);
    }
  }

  /** Refused for a graph output that nothing defines or a match drops. */
  ghost predicate LosesOutput(g: Graph, wanted: Fusion -> bool, r: Result<CompiledProgram, CompileError>) {
    r.Err? && r.error.UnresolvedGraphOutput? && r.error.name in g.outputs && !Survives(g, wanted, r.error.name)
  }

  lemma {:induction false} LostOutputNamed(
      g: Graph, wanted: Fusion -> bool, values: map<string, Option<Tensor>>, plan: Plan, mapper: Mapper,
      order: seq<nat>)
    requires Sound(g, wanted, plan, order) && NodesCompile(g, mapper, plan) && RunActions(g, mapper, plan, order).Ok?
    ensures Compiled(g, mapper, plan, values, order).Ok? <==>
      forall name :: name in g.outputs ==> Survives(g, wanted, name)
    ensures Compiled(g, mapper, plan, values, order).Err? ==>
      LosesOutput(g, wanted, Compiled(g, mapper, plan, values, order))
  {
    OutputsExact(g, wanted, plan, mapper, order);
    var registers := RunActions(g, mapper, plan, order).value.registers;
    if GraphOutputs(registers, g.outputs).Err? {
      UnregisteredIsLost(g, wanted, plan, mapper, order, ResolveAll(registers, g.outputs).error);
    }
  }

  lemma {:induction false} UnregisteredIsLost(
      g: Graph, wanted: Fusion -> bool, plan: Plan, mapper: Mapper, order: seq<nat>, name: string)
    requires Sound(g, wanted, plan, order) && NodesCompile(g, mapper, plan) && RunActions(g, mapper, plan, order).Ok?
    requires name !in RunActions(g, mapper, plan, order).value.registers
    ensures !Survives(g, wanted, name)
  {
    assert order[..|order|] == order;
    RunOk(g, mapper, plan, order, |order|);
    FinalRegisters(g, wanted, plan, mapper, order, name);
  }

  lemma {:induction false} OutputsExact(g: Graph, wanted: Fusion -> bool, plan: Plan, mapper: Mapper, order: seq<nat>)
    requires Sound(g, wanted, plan, order) && NodesCompile(g, mapper, plan) && RunActions(g, mapper, plan, order).Ok?
    ensures var st := RunActions(g, mapper, plan, order).value;
      GraphOutputs(st.registers, g.outputs).Ok? <==> forall name :: name in g.outputs ==> Survives(g, wanted, name)
  {
    assert order[..|order|] == order;
    RunOk(g, mapper, plan, order, |order|);
    var st := RunActions(g, mapper, plan, order).value;
    forall name ensures name in st.registers <==> Survives(g, wanted, name) {
      FinalRegisters(g, wanted, plan, mapper, order, name);
    }
    assert forall k :: 0 <= k < |g.outputs| ==> g.outputs[k] in g.outputs;
  }

  // ----- fusion and graphs that compile without it -----

  /** The operator table has no entry for powers, roots and reciprocals. */
  ghost predicate RefusesRoots(mapper: Mapper) {
    forall node: GraphNode :: node.opType.Pow? || node.opType.Sqrt? || node.opType.Reciprocal? ==>
      mapper(node).NoMapping?
  }

  /** A graph that compiles node by node has no match, so that fusion leaves it alone. */
  lemma {:induction false} FusionTakesNothingAway(
      g: Graph, weights: map<string, WeightTensor>, values: map<string, Option<Tensor>>, plan: Plan, mapper: Mapper,
      order: seq<nat>)
    requires RefusesRoots(mapper) && Arranged(g, weights, plan, order)
    requires Compiled(g, mapper, Plan(map[], {}), values, order).Ok?
    ensures forall f :: !IsFusion(g, weights, f)
    ensures Compiled(g, mapper, plan, values, order) == Compiled(g, mapper, Plan(map[], {}), values, order)
  {
    forall f ensures !IsFusion(g, weights, f) {
      if IsFusion(g, weights, f) { RootRefused(g, mapper, order, f.chain.pow); }
    }
    var fusions :| AllFusions(g, weights, fusions) && PlanFor(fusions, plan);
    assert forall f :: f in fusions ==> IsFusion(g, weights, f);
    assert plan == Plan(map[], {});
  }

  lemma {:induction false} RootRefused(g: Graph, mapper: Mapper, order: seq<nat>, i: nat)
    requires RefusesRoots(mapper) && IsPermutation(|g.nodes|, order) && i < |g.nodes| && g.nodes[i].opType.Pow?
    ensures RunActions(g, mapper, Plan(map[], {}), order).Err?
  {
    PermutationCovers(|g.nodes|, order);
    assert i in Elements(order);
    var k :| 0 <= k < |order| && order[k] == i;
    assert order[..|order|] == order;
    RunOk(g, mapper, Plan(map[], {}), order, |order|);
    assert !Resolves(g, mapper, Plan(map[], {}), order, k);
  }

  // ----- nodes that compile and an output that is lost -----

  /** The whole graph is one match, which reads only sources. */
  ghost predicate OneMatch(g: Graph, wanted: Fusion -> bool, f: Fusion) {
    && wanted(f) && (forall e :: wanted(e) ==> e == f)
    && f.inputName in g.inputs && f.weightName in g.initializers
    && (forall i :: 0 <= i < |g.nodes| ==> i in NodesOf(f.chain))
  }

  /** One instruction is emitted and every other node is absorbed, whatever the operator table. */
  lemma {:induction false} OneMatchCompiles(g: Graph, wanted: Fusion -> bool, plan: Plan, mapper: Mapper, f: Fusion)
    requires FusesAll(wanted, plan) && OneMatch(g, wanted, f)
    ensures NodesCompile(g, mapper, plan)
  {
    assert PlannedFor(plan, f);
    forall i: nat | i < |g.nodes|
      ensures ActionOf(g, mapper, plan, i) == if i == f.chain.pow then FusedAction(f) else Skip
    {
      assert i in NodesOf(f.chain);
      if i in plan.byPow { assert wanted(plan.byPow[i]); }
    }
  }

  lemma {:induction false} OneMatchKeepsLast(g: Graph, wanted: Fusion -> bool, f: Fusion)
    requires UniqueNames(g) && Replaceable(g, f) && OneMatch(g, wanted, f)
    ensures Survives(g, wanted, f.outputName)
  {
    OutputOf(g, f.chain.mul2);
  }

  lemma {:induction false} DroppedIsLost(g: Graph, wanted: Fusion -> bool, f: Fusion, name: string)
    requires wanted(f) && name in Intermediates(g, f.chain)
    ensures !Survives(g, wanted, name)
  {
  }

  lemma {:induction false} OneMatchLoses(
      g: Graph, wanted: Fusion -> bool, values: map<string, Option<Tensor>>, plan: Plan, mapper: Mapper,
      order: seq<nat>, f: Fusion, lost: string)
    requires Sound(g, wanted, plan, order) && OneMatch(g, wanted, f)
    requires g.outputs == [f.outputName, lost] && lost in Intermediates(g, f.chain)
    ensures NodesCompile(g, mapper, plan)
    ensures Compiled(g, mapper, plan, values, order) == Err(UnresolvedGraphOutput(lost))
  {
    assert Replaceable(g, f);
    OneMatchCompiles(g, wanted, plan, mapper, f);
    OneMatchKeepsLast(g, wanted, f);
    DroppedIsLost(g, wanted, f, lost);
    assert lost in g.outputs;
    NodesCompileExact(g, wanted, plan, mapper, order);
    LostOutputNamed(g, wanted, values, plan, mapper, order);
  }

  /** With one power in the graph there is one match: the list of all has one entry for each first node. */
  lemma {:induction false} SolePowerSoleMatch(
      g: Graph, weights: map<string, WeightTensor>, fusions: seq<Fusion>, f: Fusion)
    requires AllFusions(g, weights, fusions) && IsFusion(g, weights, f)
    requires forall i :: 0 <= i < |g.nodes| && g.nodes[i].opType.Pow? ==> i == f.chain.pow
    requires f.inputName in g.inputs && f.weightName in g.initializers
    requires forall i :: 0 <= i < |g.nodes| ==> i in NodesOf(f.chain)
    ensures OneMatch(g, e => IsFusion(g, weights, e), f)
  {
    var wanted := e => IsFusion(g, weights, e);
    forall e | wanted(e) ensures e == f {
      OneMatchEach(wanted, |g.nodes|, fusions, f, e);
    }
  }

  lemma {:induction false} OneMatchEach(wanted: Fusion -> bool, n: nat, fusions: seq<Fusion>, f: Fusion, e: Fusion)
    requires EntriesBelow(wanted, n, fusions) && wanted(f) && wanted(e) && f.chain.pow == e.chain.pow < n
    ensures f == e
  {
    assert f in fusions && e in fusions;
  }

  // ----- such a graph -----

  /** The seven nodes of one decomposition, publishing the normalized value `m` as well as the scaled one. */
  function ExampleNodes(): seq<GraphNode> {
    [GraphNode(OpType.Pow, ["x", "t"], ["p"]), GraphNode(OpType.ReduceMean, ["p"], ["r"]),
     GraphNode(OpType.Add, ["r", "e"], ["a"]), GraphNode(OpType.Sqrt, ["a"], ["s"]),
     GraphNode(OpType.Reciprocal, ["s"], ["c"]), GraphNode(OpType.Mul, ["x", "c"], ["m"]),
     GraphNode(OpType.Mul, ["m", "w"], ["y"])]
  }

  function ExampleGraph(): Graph { Graph(ExampleNodes(), ["x"], ["t", "e", "w"], ["y", "m"]) }

  function ExampleWeights(): map<string, WeightTensor> {
    map["t" := WeightTensor([], [2.0]), "e" := WeightTensor([], [1.0]), "w" := WeightTensor([1], [1.0])]
  }

  function ExampleFusion(): Fusion { Fusion(Chain(0, 1, 2, 3, 4, 5, 6), "x", "w", "y", 1, EpsilonMilli(1.0)) }

  lemma {:induction false} ExampleFirstLinks()
    ensures var g := ExampleGraph();
      Link(g, 0, 1, OpType.ReduceMean) && Link(g, 1, 2, OpType.Add) && Link(g, 2, 3, OpType.Sqrt)
  {
  }

  lemma {:induction false} ExampleLastLinks()
    ensures var g := ExampleGraph();
      Link(g, 3, 4, OpType.Reciprocal) && Link(g, 4, 5, OpType.Mul) && Link(g, 5, 6, OpType.Mul)
  {
  }

  lemma {:induction false} ExampleReads()
    ensures var g, weights, c := ExampleGraph(), ExampleWeights(), ExampleFusion().chain;
      RootMeanSquare(g, weights, c, "e") && ScaledBy(g, weights, c, "x", "w")
  {
  }

  lemma {:induction false} ExampleIsFused()
    ensures IsFusion(ExampleGraph(), ExampleWeights(), ExampleFusion())
  {
    ExampleFirstLinks();
    ExampleLastLinks();
    ExampleReads();
    assert ExampleWeights()["e"].data[0] == 1.0;
  }

  function ExampleLetters(): string { ['p', 'r', 'a', 's', 'c', 'm', 'y'] }

  /** Single assignment: each node writes one name, its own letter. */
  lemma {:induction false} ExampleNames()
    ensures UniqueNames(ExampleGraph()) && WeightsAreInitializers(ExampleGraph(), ExampleWeights())
  {
    var nodes, letters := ExampleNodes(), ExampleLetters();
    assert Distinct(letters) && 'x' !in letters && 't' !in letters && 'e' !in letters && 'w' !in letters;
    assert forall i :: 0 <= i < 7 ==> nodes[i].outputs == [[letters[i]]];
    LettersAreUnique(ExampleGraph(), letters);
  }

  lemma {:induction false} LettersAreUnique(g: Graph, letters: string)
    requires |g.nodes| == |letters| && Distinct(letters)
    requires forall i :: 0 <= i < |g.nodes| ==> g.nodes[i].outputs == [[letters[i]]]
    requires forall name :: name in g.inputs || name in g.initializers ==> |name| == 1 && name[0] !in letters
    ensures UniqueNames(g)
  {
    forall i, name | 0 <= i < |g.nodes| && name in g.nodes[i].outputs ensures name == [letters[i]] {}
  }

  /** Nodes that read only names no later node writes are listed with producers first. */
  lemma {:induction false} ListedInOrder(g: Graph)
    requires forall i, j, name :: 0 <= j <= i < |g.nodes| && name in g.nodes[j].inputs ==> name !in g.nodes[i].outputs
    ensures var order := seq(|g.nodes|, k => k); IsPermutation(|g.nodes|, order) && ProducersFirst(g, order)
    ensures !Cyclic(g)
  {
    var order := seq(|g.nodes|, k => k);
    forall k, i: nat | 0 <= k < |order| && i in Predecessors(g, order[k]) ensures i in Elements(order[..k]) {
      var name :| name in g.nodes[k].inputs && ProducerOf(g, name) == Some(i);
      assert order[..k][i] == i;
    }
    OrderIsAcyclic(g, order);
  }

  lemma {:induction false} ReadsEarlierLetters(g: Graph, letters: string)
    requires |g.nodes| == |letters| && forall i :: 0 <= i < |g.nodes| ==> g.nodes[i].outputs == [[letters[i]]]
    requires forall j, name :: 0 <= j < |g.nodes| && name in g.nodes[j].inputs ==>
      |name| == 1 && forall k :: j <= k < |letters| ==> letters[k] != name[0]
    ensures !Cyclic(g)
  {
    ListedInOrder(g);
  }

  /** The nodes are listed with producers first, so that the graph has an order. */
  lemma {:induction false} ExampleIsAcyclic()
    ensures !Cyclic(ExampleGraph())
  {
    var nodes, letters := ExampleNodes(), ExampleLetters();
    assert forall i :: 0 <= i < 7 ==> nodes[i].outputs == [[letters[i]]];
    forall j: nat, name | j < 7 && name in nodes[j].inputs
      ensures |name| == 1 && forall k :: j <= k < 7 ==> letters[k] != name[0]
    {
    }
    ReadsEarlierLetters(ExampleGraph(), letters);
  }

  lemma {:induction false} ExampleSolePower()
    ensures forall i :: 0 <= i < 7 && ExampleNodes()[i].opType.Pow? ==> i == 0
  {
  }

  lemma {:induction false} ExampleCovered()
    ensures forall i :: 0 <= i < 7 ==> i in NodesOf(ExampleFusion().chain)
  {
    assert NodesOf(ExampleFusion().chain) == {0, 1, 2, 3, 4, 5, 6};
  }

  lemma {:induction false} ExampleOutputsWritten()
    ensures forall name :: name in ExampleGraph().outputs ==> ProducerOf(ExampleGraph(), name).Some?
  {
    assert ExampleNodes()[5].outputs == ["m"] && ExampleNodes()[6].outputs == ["y"];
  }

  lemma {:induction false} ExampleIsOneMatch(fusions: seq<Fusion>)
    requires AllFusions(ExampleGraph(), ExampleWeights(), fusions)
    ensures OneMatch(ExampleGraph(), f => IsFusion(ExampleGraph(), ExampleWeights(), f), ExampleFusion())
  {
    ExampleIsFused();
    ExampleSolePower();
    ExampleCovered();
    SolePowerSoleMatch(ExampleGraph(), ExampleWeights(), fusions, ExampleFusion());
  }

  lemma {:induction false} ExampleDrops()
    ensures "m" in Intermediates(ExampleGraph(), ExampleFusion().chain)
  {
    assert OutOf(ExampleGraph(), 5) == "m";
  }

  /**
   * Every node compiles, whatever the operator table, and both graph outputs are written, but fusion drops the second.
   * The graph is acyclic, so that this is what compiling it gives.
   */
  lemma {:induction false} ExampleOutputLost(
      values: map<string, Option<Tensor>>, plan: Plan, mapper: Mapper, order: seq<nat>)
    requires Arranged(ExampleGraph(), ExampleWeights(), plan, order)
    ensures forall name :: name in ExampleGraph().outputs ==> ProducerOf(ExampleGraph(), name).Some?
    ensures NodesCompile(ExampleGraph(), mapper, plan)
    ensures Compiled(ExampleGraph(), mapper, plan, values, order) == Err(UnresolvedGraphOutput("m"))
  {
    var g, weights := ExampleGraph(), ExampleWeights();
    ExampleOutputsWritten();
    ExampleNames();
    ExampleDrops();
    var fusions :| AllFusions(g, weights, fusions) && PlanFor(fusions, plan);
    ExampleIsOneMatch(fusions);
    ArrangedIsSound(g, weights, plan, order);
    OneMatchLoses(g, f => IsFusion(g, weights, f), values, plan, mapper, order, ExampleFusion(), "m");
  }
}
