/** Building the DAG: one pass over the instructions, then edges emitted, sorted and named. */
module DagBuilder {
  import opened Prelude
  import opened Program
  import opened DagModel

  ghost predicate CoverageGap(specs: seq<ShardSpec>, count: nat, e: BuildDagError) {
    && e.NotContiguous? && e.shardIndex < |specs| && e.expectedStart != e.gotStart
    && ( || (e.gotStart == specs[e.shardIndex].start
             && e.expectedStart == if e.shardIndex == 0 then 0 else specs[e.shardIndex - 1].end)
         || (e.shardIndex == |specs| - 1 && e.expectedStart == count && e.gotStart == specs[e.shardIndex].end))
  }

  method CheckCoverage(specs: seq<ShardSpec>, count: nat) returns (e: Option<BuildDagError>)
    requires specs != []
    ensures e.None? <==> Contiguous(specs, count)
    ensures e.Some? ==> CoverageGap(specs, count, e.value)
  {
    var expectedStart := 0;
    for i := 0 to |specs|
      invariant expectedStart == if i == 0 then 0 else specs[i - 1].end
      invariant i > 0 ==> specs[0].start == 0
      invariant forall s :: 0 < s < i ==> specs[s].start == specs[s - 1].end
    {
      if specs[i].start != expectedStart {
        return Some(NotContiguous(expectedStart, specs[i].start, i));
      }
      expectedStart := specs[i].end;
    }
    if expectedStart != count {
      return Some(NotContiguous(count, expectedStart, |specs| - 1));
    }
    e := None;
  }

  /** For each value read outside its shard, the distinct shards that read it. */
  ghost predicate Tracks(consumersOf: map<nat, seq<nat>>, keys: set<EdgeKey>, specs: seq<ShardSpec>) {
    && (forall i :: i in consumersOf ==> Distinct(consumersOf[i]) && consumersOf[i] != [])
    && (forall i, c :: i in consumersOf && c in consumersOf[i] ==> EdgeKey(ShardOf(specs, i), c, i) in keys)
    && (forall k :: k in keys ==>
      k.producer == ShardOf(specs, k.index) && k.index in consumersOf && k.consumer in consumersOf[k.index])
  }

  function AddConsumer(consumersOf: map<nat, seq<nat>>, i: nat, c: nat): map<nat, seq<nat>> {
    if i !in consumersOf then consumersOf[i := [c]]
    else if c in consumersOf[i] then consumersOf
    else consumersOf[i := consumersOf[i] + [c]]
  }

  lemma {:induction false} AddConsumerTracks(
      consumersOf: map<nat, seq<nat>>, keys: set<EdgeKey>, specs: seq<ShardSpec>, i: nat, c: nat)
    requires Tracks(consumersOf, keys, specs)
    ensures Tracks(AddConsumer(consumersOf, i, c), keys + {EdgeKey(ShardOf(specs, i), c, i)}, specs)
  {
  }

  ghost predicate BadReference(program: CompiledProgram, e: BuildDagError) {
    match e
    case UnknownRegister(j, r) =>
      j < |program.instructions| && r in program.instructions[j].inputs && r.Virtual?
        && r.index >= |program.instructions|
    case ForwardRegister(j, r) =>
      j < |program.instructions| && r in program.instructions[j].inputs && r.Virtual?
        && j <= r.index < |program.instructions|
    case _ => false
  }

  method ScanInstruction(
      program: CompiledProgram, specs: seq<ShardSpec>, j: nat, consumersOf: map<nat, seq<nat>>,
      ghost keys: set<EdgeKey>)
    returns (r: Result<map<nat, seq<nat>>, BuildDagError>)
    requires j < |program.instructions| && Tracks(consumersOf, keys, specs)
    ensures r.Ok? <==> forall k :: 0 <= k < |program.instructions[j].inputs| ==>
      (program.instructions[j].inputs[k].Virtual? ==> program.instructions[j].inputs[k].index < j)
    ensures r.Ok? ==> Tracks(r.value, keys + EdgesAt(specs, j, program.instructions[j].inputs), specs)
    ensures r.Err? ==> BadReference(program, r.error)
  {
    var inputs := program.instructions[j].inputs;
    var consumerShard := ShardOf(specs, j);
    var tracked := consumersOf;
    for k := 0 to |inputs|
      invariant forall t :: 0 <= t < k ==> (inputs[t].Virtual? ==> inputs[t].index < j)
      invariant Tracks(tracked, keys + EdgesAt(specs, j, inputs[..k]), specs)
    {
      EdgesAtSnoc(specs, j, inputs, k);
      if inputs[k].Virtual? {
        var i := inputs[k].index;
        if i >= |program.instructions| {
          return Err(UnknownRegister(j, Virtual(i)));
        }
        if i >= j {
          return Err(ForwardRegister(j, Virtual(i)));
        }
        if ShardOf(specs, i) != consumerShard {
          AddConsumerTracks(tracked, keys + EdgesAt(specs, j, inputs[..k]), specs, i, consumerShard);
          tracked := AddConsumer(tracked, i, consumerShard);
          assert keys + EdgesAt(specs, j, inputs[..k]) + {KeyFor(specs, j, i)}
            == keys + EdgesAt(specs, j, inputs[..k + 1]);
        }
      }
    }
    assert inputs[..|inputs|] == inputs;
    r := Ok(tracked);
  }

  lemma {:induction false} EdgesAtSnoc(specs: seq<ShardSpec>, j: nat, inputs: seq<Register>, k: nat)
    requires k < |inputs|
    ensures EdgesAt(specs, j, inputs[..k + 1]) == EdgesAt(specs, j, inputs[..k]) +
      (if Crosses(specs, j, inputs[k]) then {KeyFor(specs, j, inputs[k].index)} else {})
  {
    var longer, shorter := inputs[..k + 1], inputs[..k];
    forall key | key in EdgesAt(specs, j, shorter) ensures key in EdgesAt(specs, j, longer) {
      var t :| 0 <= t < k && Crosses(specs, j, shorter[t]) && KeyFor(specs, j, shorter[t].index) == key;
      assert longer[t] == shorter[t];
    }
    if Crosses(specs, j, inputs[k]) {
      assert longer[k] == inputs[k] && KeyFor(specs, j, longer[k].index) in EdgesAt(specs, j, longer);
    }
    forall key | key in EdgesAt(specs, j, longer)
      ensures key in EdgesAt(specs, j, shorter)
        || (Crosses(specs, j, inputs[k]) && key == KeyFor(specs, j, inputs[k].index))
    {
      var t :| 0 <= t < k + 1 && Crosses(specs, j, longer[t]) && KeyFor(specs, j, longer[t].index) == key;
      if t < k { assert longer[t] == shorter[t]; }
    }
  }

  lemma {:induction false} EdgesBelowSnoc(specs: seq<ShardSpec>, instrs: seq<CompiledInstruction>, j: nat)
    requires j < |instrs|
    ensures EdgesBelow(specs, instrs[..j + 1]) == EdgesBelow(specs, instrs[..j]) + EdgesAt(specs, j, instrs[j].inputs)
  {
    var longer, shorter := instrs[..j + 1], instrs[..j];
    forall key | key in EdgesBelow(specs, shorter) ensures key in EdgesBelow(specs, longer) {
      var t, k :| 0 <= t < j && 0 <= k < |shorter[t].inputs| && Crosses(specs, t, shorter[t].inputs[k])
        && KeyFor(specs, t, shorter[t].inputs[k].index) == key;
      assert longer[t] == shorter[t];
    }
    forall key | key in EdgesAt(specs, j, instrs[j].inputs) ensures key in EdgesBelow(specs, longer) {
      assert longer[j] == instrs[j];
    }
    forall key | key in EdgesBelow(specs, longer)
      ensures key in EdgesBelow(specs, shorter) || key in EdgesAt(specs, j, instrs[j].inputs)
    {
      var t, k :| 0 <= t < j + 1 && 0 <= k < |longer[t].inputs| && Crosses(specs, t, longer[t].inputs[k])
        && KeyFor(specs, t, longer[t].inputs[k].index) == key;
      if t < j { assert longer[t] == shorter[t]; }
    }
  }

  method CollectConsumers(
      program: CompiledProgram, specs: seq<ShardSpec>) returns (r: Result<map<nat, seq<nat>>, BuildDagError>)
    ensures r.Ok? <==> WellOrdered(program)
    ensures r.Ok? ==> Tracks(r.value, EdgeKeys(program, specs), specs)
    ensures r.Err? ==> BadReference(program, r.error)
  {
    var consumersOf: map<nat, seq<nat>> := map[];
    for j := 0 to |program.instructions|
      invariant ReadsBackward(0, program.instructions[..j])
      invariant Tracks(consumersOf, EdgesBelow(specs, program.instructions[..j]), specs)
    {
      var scanned := ScanInstruction(program, specs, j, consumersOf, EdgesBelow(specs, program.instructions[..j]));
      if scanned.Err? {
        return Err(scanned.error);
      }
      EdgesBelowSnoc(specs, program.instructions, j);
      assert program.instructions[..j + 1] == program.instructions[..j] + [program.instructions[j]];
      consumersOf := scanned.value;
    }
    assert program.instructions[..|program.instructions|] == program.instructions;
    r := Ok(consumersOf);
  }

  // ----- emitting edges and boundary lists, one produced value at a time -----

  ghost function EdgeAs(keys: set<EdgeKey>, k: EdgeKey, named: bool): Edge {
    if named then EdgeFor(keys, k) else EdgeFor(keys, k).(id := "")
  }

  ghost predicate ListsEdges(edges: seq<Edge>, keys: set<EdgeKey>, part: set<EdgeKey>, named: bool) {
    && Distinct(edges)
    && (forall e :: e in edges ==> e.register.Virtual? && KeyOf(e) in part && e == EdgeAs(keys, KeyOf(e), named))
    && (forall k :: k in part ==> EdgeAs(keys, k, named) in edges)
  }

  function KeyOf(e: Edge): EdgeKey {
    EdgeKey(e.producer, e.consumer, if e.register.Virtual? then e.register.index else 0)
  }

  ghost function KeysAt(keys: set<EdgeKey>, i: nat): set<EdgeKey> {
    set k | k in keys && k.index == i
  }

  ghost predicate InputLists(lists: seq<seq<Register>>, part: set<EdgeKey>) {
    forall c :: 0 <= c < |lists| ==>
      Sorted(RegisterLe, lists[c]) && Distinct(lists[c]) && Elements(lists[c]) == InputsOf(part, c)
  }

  ghost predicate OutputLists(lists: seq<seq<Register>>, part: set<EdgeKey>) {
    forall p :: 0 <= p < |lists| ==>
      Sorted(RegisterLe, lists[p]) && Distinct(lists[p]) && Elements(lists[p]) == OutputsOf(part, p)
  }

  lemma {:induction false} PushAscending(list: seq<Register>, i: nat)
    requires Sorted(RegisterLe, list) && Distinct(list)
    requires forall r :: r in list ==> r.Virtual? && r.index < i
    ensures Sorted(RegisterLe, list + [Virtual(i)]) && Distinct(list + [Virtual(i)])
    ensures Elements(list + [Virtual(i)]) == Elements(list) + {Virtual(i)}
  {
  }

  lemma {:induction false} PushInput(lists: seq<seq<Register>>, part: set<EdgeKey>, key: EdgeKey)
    requires InputLists(lists, part) && key.consumer < |lists|
    requires forall k :: k in part && k.consumer == key.consumer ==> k.index < key.index
    ensures InputLists(lists[key.consumer := lists[key.consumer] + [Virtual(key.index)]], part + {key})
  {
    var list := lists[key.consumer];
    forall r | r in list ensures r.Virtual? && r.index < key.index {
      assert r in Elements(list);
    }
    PushAscending(list, key.index);
    forall c | 0 <= c < |lists| && c != key.consumer ensures InputsOf(part + {key}, c) == InputsOf(part, c) {}
    assert InputsOf(part + {key}, key.consumer) == InputsOf(part, key.consumer) + {Virtual(key.index)};
  }

  lemma {:induction false} PushOutput(lists: seq<seq<Register>>, part: set<EdgeKey>, at: set<EdgeKey>, p: nat, i: nat)
    requires OutputLists(lists, part) && p < |lists| && at != {}
    requires forall k :: k in part ==> k.index < i
    requires forall k :: k in at ==> k.producer == p && k.index == i
    ensures OutputLists(lists[p := lists[p] + [Virtual(i)]], part + at)
  {
    var list := lists[p];
    forall r | r in list ensures r.Virtual? && r.index < i {
      assert r in Elements(list);
    }
    PushAscending(list, i);
    forall q | 0 <= q < |lists| && q != p ensures OutputsOf(part + at, q) == OutputsOf(part, q) {}
    var k :| k in at;
    assert OutputsOf(part + at, p) == OutputsOf(part, p) + {Virtual(i)};
  }

  lemma {:induction false} PushEdge(edges: seq<Edge>, keys: set<EdgeKey>, part: set<EdgeKey>, key: EdgeKey)
    requires ListsEdges(edges, keys, part, false) && key !in part
    ensures ListsEdges(edges + [EdgeAs(keys, key, false)], keys, part + {key}, false)
  {
    var e := EdgeAs(keys, key, false);
    assert KeyOf(e) == key;
    assert e !in edges;
  }

  ghost function KeysTo(keys: set<EdgeKey>, i: nat, consumers: seq<nat>): set<EdgeKey> {
    set k | k in keys && k.index == i && k.consumer in consumers
  }

  lemma {:induction false} KeysToSnoc(keys: set<EdgeKey>, consumers: seq<nat>, t: nat, key: EdgeKey)
    requires t < |consumers| && Distinct(consumers) && key in keys && key.consumer == consumers[t]
    requires forall k :: k in keys && k.index == key.index ==> k.producer == key.producer
    ensures KeysTo(keys, key.index, consumers[..t + 1]) == KeysTo(keys, key.index, consumers[..t]) + {key}
    ensures key !in KeysTo(keys, key.index, consumers[..t])
    ensures forall k :: k in KeysTo(keys, key.index, consumers[..t]) ==> k.consumer != key.consumer
  {
    assert consumers[..t + 1] == consumers[..t] + [consumers[t]];
  }

  lemma {:induction false} KeysToAll(keys: set<EdgeKey>, i: nat, consumers: seq<nat>)
    requires Elements(consumers) == Consumers(keys, i)
    ensures KeysTo(keys, i, consumers[..|consumers|]) == KeysAt(keys, i)
  {
    assert consumers[..|consumers|] == consumers;
    forall k | k in KeysAt(keys, i) ensures k.consumer in consumers {
      assert k.consumer in Elements(consumers);
    }
  }

  /** Everything emitted so far: the keys of smaller values, and the first consumers of value `i`. */
  ghost function EmittedTo(part: set<EdgeKey>, keys: set<EdgeKey>, i: nat, consumers: seq<nat>): set<EdgeKey> {
    part + KeysTo(keys, i, consumers)
  }

  lemma {:induction false} EmitOne(
      inputs: seq<seq<Register>>, edges: seq<Edge>, keys: set<EdgeKey>, part: set<EdgeKey>, consumers: seq<nat>,
      t: nat, key: EdgeKey, kind: EdgeKind)
    requires Distinct(consumers) && Elements(consumers) == Consumers(keys, key.index)
    requires kind == if |consumers| == 1 && consumers[0] == key.producer + 1 then Sequential else Broadcast
    requires t < |consumers| && Distinct(consumers) && key in keys && key.consumer == consumers[t] < |inputs|
    requires forall k :: k in keys && k.index == key.index ==> k.producer == key.producer
    requires forall k :: k in part ==> k.index < key.index
    requires InputLists(inputs, EmittedTo(part, keys, key.index, consumers[..t]))
    requires ListsEdges(edges, keys, EmittedTo(part, keys, key.index, consumers[..t]), false)
    ensures InputLists(
      inputs[key.consumer := inputs[key.consumer] + [Virtual(key.index)]],
      EmittedTo(part, keys, key.index, consumers[..t + 1]))
    ensures ListsEdges(
      edges + [Edge("", key.producer, key.consumer, Virtual(key.index), kind)], keys,
      EmittedTo(part, keys, key.index, consumers[..t + 1]), false)
  {
    var emitted := EmittedTo(part, keys, key.index, consumers[..t]);
    KindIs(consumers, keys, key);
    KeysToSnoc(keys, consumers, t, key);
    PushInput(inputs, emitted, key);
    PushEdge(edges, keys, emitted, key);
    assert emitted + {key} == EmittedTo(part, keys, key.index, consumers[..t + 1]);
  }

  /** One produced value: its kind, and an input and an edge for every shard that reads it. */
  method EmitProducer(
      specs: seq<ShardSpec>, i: nat, consumers: seq<nat>, ghost keys: set<EdgeKey>, ghost part: set<EdgeKey>,
      inputs: seq<seq<Register>>, edges: seq<Edge>)
    returns (inputs': seq<seq<Register>>, edges': seq<Edge>)
    requires Distinct(consumers) && Elements(consumers) == Consumers(keys, i)
    requires forall k :: k in keys && k.index == i ==> k.producer == ShardOf(specs, i) && k.consumer < |inputs|
    requires forall k :: k in part ==> k.index < i
    requires InputLists(inputs, part) && ListsEdges(edges, keys, part, false)
    ensures |inputs'| == |inputs|
    ensures InputLists(inputs', part + KeysAt(keys, i)) && ListsEdges(edges', keys, part + KeysAt(keys, i), false)
  {
    var producer := ShardOf(specs, i);
    var kind := if |consumers| == 1 && consumers[0] == producer + 1 then Sequential else Broadcast;
    inputs', edges' := inputs, edges;
    for t := 0 to |consumers|
      invariant |inputs'| == |inputs|
      invariant InputLists(inputs', EmittedTo(part, keys, i, consumers[..t]))
      invariant ListsEdges(edges', keys, EmittedTo(part, keys, i, consumers[..t]), false)
    {
      var c := consumers[t];
      ghost var key := EdgeKey(producer, c, i);
      assert c in Elements(consumers) && key in keys;
      EmitOne(inputs', edges', keys, part, consumers, t, key, kind);
      inputs' := inputs'[c := inputs'[c] + [Virtual(i)]];
      edges' := edges' + [Edge("", producer, c, Virtual(i), kind)];
    }
    KeysToAll(keys, i, consumers);
  }

  lemma {:induction false} KindIs(consumers: seq<nat>, keys: set<EdgeKey>, key: EdgeKey)
    requires Distinct(consumers) && Elements(consumers) == Consumers(keys, key.index)
    ensures Kind(keys, key) == Sequential <==> |consumers| == 1 && consumers[0] == key.producer + 1
  {
    if |consumers| == 1 {
      assert Elements(consumers) == {consumers[0]};
    }
    if Consumers(keys, key.index) == {key.producer + 1} {
      DistinctSize(consumers);
      assert consumers[0] in Elements(consumers);
    }
  }

  predicate NatLe(a: nat, b: nat) { a <= b }

  lemma {:induction false} NatOrder()
    ensures TotalOrder(NatLe)
  {
  }

  ghost function KeysFrom(keys: set<EdgeKey>, producers: seq<nat>): set<EdgeKey> {
    set k | k in keys && k.index in producers
  }

  lemma {:induction false} KeysFromSnoc(keys: set<EdgeKey>, producers: seq<nat>, t: nat)
    requires t < |producers| && Sorted(NatLe, producers) && Distinct(producers)
    ensures KeysFrom(keys, producers[..t + 1]) == KeysFrom(keys, producers[..t]) + KeysAt(keys, producers[t])
    ensures forall k :: k in KeysFrom(keys, producers[..t]) ==> k.index < producers[t]
  {
    assert producers[..t + 1] == producers[..t] + [producers[t]];
    forall k | k in KeysFrom(keys, producers[..t]) ensures k.index < producers[t] {
      var u :| 0 <= u < t && producers[u] == k.index;
      assert NatLe(producers[u], producers[t]);
    }
  }

  lemma {:induction false} KeysFromAll(keys: set<EdgeKey>, producers: seq<nat>)
    requires forall k :: k in keys ==> k.index in Elements(producers)
    ensures KeysFrom(keys, producers[..|producers|]) == keys
  {
    assert producers[..|producers|] == producers;
  }

  method EmitAll(program: CompiledProgram, specs: seq<ShardSpec>, consumersOf: map<nat, seq<nat>>)
    returns (inputs: seq<seq<Register>>, outputs: seq<seq<Register>>, edges: seq<Edge>)
    requires BuildsDag(program, specs) && Tracks(consumersOf, EdgeKeys(program, specs), specs)
    ensures |inputs| == |outputs| == |specs|
    ensures InputLists(inputs, EdgeKeys(program, specs)) && OutputLists(outputs, EdgeKeys(program, specs))
    ensures ListsEdges(edges, EdgeKeys(program, specs), EdgeKeys(program, specs), false)
  {
    ghost var keys := EdgeKeys(program, specs);
    NatOrder();
    var producers := SortedVector(NatLe, consumersOf.Keys);
    inputs, outputs, edges := seq(|specs|, _ => []), seq(|specs|, _ => []), [];
    for t := 0 to |producers|
      invariant |inputs| == |outputs| == |specs|
      invariant InputLists(inputs, KeysFrom(keys, producers[..t]))
      invariant OutputLists(outputs, KeysFrom(keys, producers[..t]))
      invariant ListsEdges(edges, keys, KeysFrom(keys, producers[..t]), false)
    {
      var i := producers[t];
      assert i in Elements(producers);
      KeysFromSnoc(keys, producers, t);
      ProducerFacts(program, specs, consumersOf, i);
      var producer := ShardOf(specs, i);
      PushOutput(outputs, KeysFrom(keys, producers[..t]), KeysAt(keys, i), producer, i);
      outputs := outputs[producer := outputs[producer] + [Virtual(i)]];
      inputs, edges := EmitProducer(specs, i, consumersOf[i], keys, KeysFrom(keys, producers[..t]), inputs, edges);
    }
    KeysFromAll(keys, producers);
  }

  lemma {:induction false} ProducerFacts(
      program: CompiledProgram, specs: seq<ShardSpec>, consumersOf: map<nat, seq<nat>>, i: nat)
    requires BuildsDag(program, specs) && Tracks(consumersOf, EdgeKeys(program, specs), specs) && i in consumersOf
    ensures KeysAt(EdgeKeys(program, specs), i) != {}
    ensures ShardOf(specs, i) < |specs|
    ensures Elements(consumersOf[i]) == Consumers(EdgeKeys(program, specs), i)
    ensures forall k :: k in KeysAt(EdgeKeys(program, specs), i) ==>
      k.producer == ShardOf(specs, i) && k.consumer < |specs|
  {
    var keys := EdgeKeys(program, specs);
    var key := EdgeKey(ShardOf(specs, i), consumersOf[i][0], i);
    assert consumersOf[i][0] in consumersOf[i] && key in KeysAt(keys, i);
    KeysForward(program, specs, key);
    forall k | k in KeysAt(keys, i) ensures k.consumer < |specs| {
      KeysForward(program, specs, k);
    }
    forall c: nat | c in consumersOf[i] ensures c in Consumers(keys, i) {
      assert EdgeKey(ShardOf(specs, i), c, i) in keys;
    }
  }

  predicate EdgeBefore(a: Edge, b: Edge) { KeyLe(KeyOf(a), KeyOf(b)) }

  predicate IdLe(a: Edge, b: Edge) { TextLe(a.id, b.id) }

  lemma {:induction false} IdPreorder()
    ensures TotalPreorder(IdLe)
  {
    TextOrder();
    forall a: Edge, b: Edge ensures IdLe(a, b) || IdLe(b, a) { TextLeTotal(a.id, b.id); }
    forall a: Edge, b: Edge, c: Edge | IdLe(a, b) && IdLe(b, c)
      ensures IdLe(a, c)
    {
      TextLeTransitive(a.id, b.id, c.id);
    }
  }

  lemma {:induction false} ListsEdgesSorted(le: (Edge, Edge) -> bool, edges: seq<Edge>, keys: set<EdgeKey>, named: bool)
    requires ListsEdges(edges, keys, keys, named)
    ensures ListsEdges(SortBy(le, edges), keys, keys, named)
  {
    var sorted := SortBy(le, edges);
    MultisetDistinct(edges, sorted);
    forall e ensures e in sorted <==> e in edges {
      assert e in Elements(sorted) <==> e in Elements(edges);
    }
  }

  method NameEdges(edges: seq<Edge>, ghost keys: set<EdgeKey>) returns (named: seq<Edge>)
    requires ListsEdges(edges, keys, keys, false)
    ensures ListsEdges(named, keys, keys, true)
  {
    named := edges;
    for t := 0 to |edges|
      invariant |named| == |edges|
      invariant forall u :: 0 <= u < t ==> named[u] == edges[u].(id := EdgeId(KeyOf(edges[u])))
      invariant forall u :: t <= u < |edges| ==> named[u] == edges[u]
    {
      assert edges[t] in edges;
      named := named[t := named[t].(id := EdgeId(KeyOf(named[t])))];
    }
    NamedLists(edges, named, keys);
  }

  lemma {:induction false} NamedLists(edges: seq<Edge>, named: seq<Edge>, keys: set<EdgeKey>)
    requires ListsEdges(edges, keys, keys, false) && |named| == |edges|
    requires forall u :: 0 <= u < |edges| ==> named[u] == edges[u].(id := EdgeId(KeyOf(edges[u])))
    ensures ListsEdges(named, keys, keys, true)
  {
    forall i, j | 0 <= i < j < |named| ensures named[i] != named[j] {
      assert edges[i] in edges && edges[j] in edges;
      assert KeyOf(named[i]) == KeyOf(edges[i]) && KeyOf(named[j]) == KeyOf(edges[j]);
    }
    forall e | e in named ensures e.register.Virtual? && KeyOf(e) in keys && e == EdgeFor(keys, KeyOf(e)) {
      var u :| 0 <= u < |named| && named[u] == e;
      assert edges[u] in edges && KeyOf(e) == KeyOf(edges[u]);
    }
    forall k | k in keys ensures EdgeFor(keys, k) in named {
      var u :| 0 <= u < |edges| && edges[u] == EdgeAs(keys, k, false);
      assert KeyOf(edges[u]) == k && named[u] == EdgeFor(keys, k);
    }
  }

  ghost function KeysIn(edges: seq<Edge>): (r: seq<EdgeKey>)
    ensures |r| == |edges| && forall t :: 0 <= t < |edges| ==> r[t] == KeyOf(edges[t])
  {
    seq(|edges|, t requires 0 <= t < |edges| => KeyOf(edges[t]))
  }

  lemma {:induction false} SortedByIdIsSortedByKey(edges: seq<Edge>, keys: set<EdgeKey>)
    requires forall k :: k in keys ==> KeyInRange(k)
    requires ListsEdges(edges, keys, keys, true) && Sorted(IdLe, edges)
    ensures Sorted(KeyLe, KeysIn(edges)) && Distinct(KeysIn(edges)) && Elements(KeysIn(edges)) == keys
  {
    var found := KeysIn(edges);
    forall i, j | 0 <= i < j < |found| ensures KeyLe(found[i], found[j]) && found[i] != found[j] {
      assert edges[i] in edges && edges[j] in edges;
      assert IdLe(edges[i], edges[j]);
      EdgeIdOrder(found[i], found[j]);
    }
    forall k | k in keys ensures k in Elements(found) {
      var t :| 0 <= t < |edges| && edges[t] == EdgeAs(keys, k, true);
      assert found[t] == k;
    }
    forall k | k in found ensures k in keys {
      var t :| 0 <= t < |found| && found[t] == k;
      assert edges[t] in edges;
    }
  }

  lemma {:induction false} SortedEdgesAreExact(program: CompiledProgram, specs: seq<ShardSpec>, edges: seq<Edge>)
    requires BuildsDag(program, specs) && FitsUsize(program, specs)
    requires ListsEdges(edges, EdgeKeys(program, specs), EdgeKeys(program, specs), true) && Sorted(IdLe, edges)
    ensures edges == DagOf(program, specs).edges
  {
    var keys, order := EdgeKeys(program, specs), KeyList(program, specs);
    var found := KeysIn(edges);
    KeysInRange(program, specs);
    SortedByIdIsSortedByKey(edges, keys);
    KeyOrder();
    SortedSetUnique(KeyLe, found, order);
    forall t | 0 <= t < |edges| ensures edges[t] == EdgeFor(keys, order[t]) {
      assert edges[t] in edges && found[t] == order[t];
    }
  }

  /** Derives the DAG of a partition by def-use analysis, or says why there is none. */
  method BuildDag(program: CompiledProgram, specs: seq<ShardSpec>) returns (r: Result<Dag, BuildDagError>)
    requires FitsUsize(program, specs)
    ensures r.Ok? <==> BuildsDag(program, specs)
    ensures r.Ok? ==> r.value == DagOf(program, specs)
    ensures r == Err(NoShards) <==> specs == []
    ensures r.Err? && specs != [] ==>
      (if Contiguous(specs, |program.instructions|) then BadReference(program, r.error)
       else CoverageGap(specs, |program.instructions|, r.error))
  {
    if specs == [] {
      return Err(NoShards);
    }
    var gap := CheckCoverage(specs, |program.instructions|);
    if gap.Some? {
      return Err(gap.value);
    }
    var consumersOf := CollectConsumers(program, specs);
    if consumersOf.Err? {
      return Err(consumersOf.error);
    }
    ghost var keys := EdgeKeys(program, specs);
    var inputs, outputs, edges := EmitAll(program, specs, consumersOf.value);
    ListsEdgesSorted(EdgeBefore, edges, keys, false);
    edges := NameEdges(SortBy(EdgeBefore, edges), keys);
    ListsEdgesSorted(IdLe, edges, keys, true);
    IdPreorder();
    SortBySorted(IdLe, edges);
    edges := SortBy(IdLe, edges);
    SortedEdgesAreExact(program, specs, edges);
    var shards := AssembleShards(specs, inputs, outputs, keys);
    r := Ok(Dag(shards, edges));
  }

  method AssembleShards(
      specs: seq<ShardSpec>, inputs: seq<seq<Register>>, outputs: seq<seq<Register>>, ghost keys: set<EdgeKey>)
    returns (shards: seq<Shard>)
    requires |inputs| == |outputs| == |specs| && InputLists(inputs, keys) && OutputLists(outputs, keys)
    ensures |shards| == |specs| && forall s :: 0 <= s < |specs| ==> shards[s] == ShardFor(keys, s, specs[s])
  {
    shards := [];
    RegisterOrder();
    for s := 0 to |specs|
      invariant |shards| == s
      invariant forall t :: 0 <= t < s ==> shards[t] == ShardFor(keys, t, specs[t])
    {
      SortedSetUnique(RegisterLe, inputs[s], Ascending(RegisterLe, InputsOf(keys, s)));
      SortedSetUnique(RegisterLe, outputs[s], Ascending(RegisterLe, OutputsOf(keys, s)));
      shards := shards + [Shard(s, specs[s].name, specs[s].start, specs[s].end, inputs[s], outputs[s])];
    }
  }
}
