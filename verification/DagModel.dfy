/** The DAG of shards: contiguous instruction ranges and the values that cross between them. */
module DagModel {
  import opened Prelude
  import opened Program

  datatype ShardSpec = ShardSpec(name: string, start: nat, end: nat)

  datatype Shard = Shard(id: nat, name: string, start: nat, end: nat, inputs: seq<Register>, outputs: seq<Register>)

  datatype EdgeKind = Sequential | Broadcast

  datatype Edge = Edge(id: string, producer: nat, consumer: nat, register: Register, kind: EdgeKind)

  datatype Dag = Dag(shards: seq<Shard>, edges: seq<Edge>)

  datatype BuildDagError =
    | NoShards
    | NotContiguous(expectedStart: nat, gotStart: nat, shardIndex: nat)
    | UnknownRegister(consumerInstruction: nat, register: Register)
    | ForwardRegister(consumerInstruction: nat, register: Register)

  // ----- which shard owns an instruction -----

  /** Each range starts where the previous one ends; a range may still be empty or reversed. */
  predicate Contiguous(specs: seq<ShardSpec>, count: nat) {
    && specs != []
    && specs[0].start == 0
    && (forall s :: 0 < s < |specs| ==> specs[s].start == specs[s - 1].end)
    && specs[|specs| - 1].end == count
  }

  predicate Covers(spec: ShardSpec, i: nat) {
    spec.start <= i < spec.end
  }

  /** The first range that contains the instruction, searching from `from`. */
  function FirstCovering(specs: seq<ShardSpec>, i: nat, from: nat): (s: nat)
    requires from <= |specs|
    ensures from <= s <= |specs|
    ensures s < |specs| ==> Covers(specs[s], i)
    ensures forall t :: from <= t < s ==> !Covers(specs[t], i)
    decreases |specs| - from
  {
    if from == |specs| || Covers(specs[from], i) then from else FirstCovering(specs, i, from + 1)
  }

  function ShardOf(specs: seq<ShardSpec>, i: nat): nat {
    FirstCovering(specs, i, 0)
  }

  /** Ranges before the owner end at or before the instruction. */
  lemma {:induction false} EarlierRangesEnd(specs: seq<ShardSpec>, count: nat, i: nat, t: nat)
    requires Contiguous(specs, count) && t <= ShardOf(specs, i)
    ensures t < |specs| ==> specs[t].start <= i
    ensures forall u :: 0 <= u < t ==> specs[u].end <= i
  {
    if t > 0 {
      EarlierRangesEnd(specs, count, i, t - 1);
      assert !Covers(specs[t - 1], i);
    }
  }

  /** Every instruction has an owner, and its range contains it, whatever the ranges' lengths. */
  lemma {:induction false} ShardOfTotal(specs: seq<ShardSpec>, count: nat, i: nat)
    requires Contiguous(specs, count) && i < count
    ensures ShardOf(specs, i) < |specs| && Covers(specs[ShardOf(specs, i)], i)
  {
    if ShardOf(specs, i) == |specs| {
      EarlierRangesEnd(specs, count, i, |specs|);
    }
  }

  lemma {:induction false} ShardOfMonotone(specs: seq<ShardSpec>, count: nat, i: nat, j: nat)
    requires Contiguous(specs, count) && i <= j < count
    ensures ShardOf(specs, i) <= ShardOf(specs, j)
  {
    ShardOfTotal(specs, count, j);
    EarlierRangesEnd(specs, count, i, ShardOf(specs, i));
  }

  // ----- dependencies -----

  /** Instruction `index`, made in shard `producer`, is read in shard `consumer`. */
  datatype EdgeKey = EdgeKey(producer: nat, consumer: nat, index: nat)

  predicate KeyLe(a: EdgeKey, b: EdgeKey) {
    || a.producer < b.producer
    || (a.producer == b.producer &&
         (a.consumer < b.consumer || (a.consumer == b.consumer && a.index <= b.index)))
  }

  lemma {:induction false} KeyOrder()
    ensures TotalOrder(KeyLe)
  {
  }

  predicate Crosses(specs: seq<ShardSpec>, consumerInstr: nat, r: Register) {
    r.Virtual? && ShardOf(specs, r.index) != ShardOf(specs, consumerInstr)
  }

  function KeyFor(specs: seq<ShardSpec>, consumerInstr: nat, index: nat): EdgeKey {
    EdgeKey(ShardOf(specs, index), ShardOf(specs, consumerInstr), index)
  }

  ghost function EdgesAt(specs: seq<ShardSpec>, j: nat, inputs: seq<Register>): set<EdgeKey> {
    set k | 0 <= k < |inputs| && Crosses(specs, j, inputs[k]) :: KeyFor(specs, j, inputs[k].index)
  }

  /** The dependencies of the first `count` instructions. */
  ghost function EdgesBelow(specs: seq<ShardSpec>, instrs: seq<CompiledInstruction>): set<EdgeKey> {
    set j, k | 0 <= j < |instrs| && 0 <= k < |instrs[j].inputs| && Crosses(specs, j, instrs[j].inputs[k])
      :: KeyFor(specs, j, instrs[j].inputs[k].index)
  }

  ghost function EdgeKeys(program: CompiledProgram, specs: seq<ShardSpec>): set<EdgeKey> {
    EdgesBelow(specs, program.instructions)
  }

  ghost function Consumers(keys: set<EdgeKey>, index: nat): set<nat> {
    set k | k in keys && k.index == index :: k.consumer
  }

  ghost function InputsOf(keys: set<EdgeKey>, shard: nat): set<Register> {
    set k | k in keys && k.consumer == shard :: Virtual(k.index)
  }

  ghost function OutputsOf(keys: set<EdgeKey>, shard: nat): set<Register> {
    set k | k in keys && k.producer == shard :: Virtual(k.index)
  }

  // ----- canonical edge identifiers -----

  function Power10(w: nat): nat {
    if w == 0 then 1 else 10 * Power10(w - 1)
  }

  /** The last `w` decimal digits of `n`, zero padded. */
  function Digits(n: nat, w: nat): (d: string)
    ensures |d| == w
  {
    if w == 0 then "" else Digits(n / 10, w - 1) + [(n % 10) as char + '0']
  }

  const EDGE_PREFIX := "edge-v1:"
  const EDGE_INFIX := ":virtual:"

  function EdgeId(k: EdgeKey): string {
    EDGE_PREFIX + (Digits(k.producer, 20) + (":" + (Digits(k.consumer, 20) + (EDGE_INFIX + Digits(k.index, 20)))))
  }

  ghost predicate KeyInRange(k: EdgeKey) {
    k.producer < Power10(20) && k.consumer < Power10(20) && k.index < Power10(20)
  }

  lemma {:induction false} TextLeAppend(x: string, y: string, s: string, t: string)
    requires |x| == |y|
    ensures TextLe(x + s, y + t) <==> if x == y then TextLe(s, t) else TextLe(x, y)
  {
    if x == [] {
      assert x + s == s && y + t == t;
    } else {
      TextLeAppend(x[1..], y[1..], s, t);
      assert (x + s)[1..] == x[1..] + s && (y + t)[1..] == y[1..] + t;
      assert x == [x[0]] + x[1..] && y == [y[0]] + y[1..];
    }
  }

  /** Zero-padded decimals compare as text exactly as the numbers compare. */
  lemma {:induction false} DigitsOrder(a: nat, b: nat, w: nat)
    requires a < Power10(w) && b < Power10(w)
    ensures TextLe(Digits(a, w), Digits(b, w)) <==> a <= b
    ensures Digits(a, w) == Digits(b, w) <==> a == b
  {
    if w > 0 {
      DigitsOrder(a / 10, b / 10, w - 1);
      var x, y := Digits(a / 10, w - 1), Digits(b / 10, w - 1);
      var s, t := [(a % 10) as char + '0'], [(b % 10) as char + '0'];
      TextLeAppend(x, y, s, t);
      assert s[1..] == [] && t[1..] == [];
      assert TextLe(s, t) <==> a % 10 <= b % 10;
      assert (x + s)[..w - 1] == x && (y + t)[..w - 1] == y;
      assert (x + s)[w - 1] == s[0] && (y + t)[w - 1] == t[0];
    }
  }

  /** Sorting edges by identifier text is sorting them by (producer, consumer, register). */
  lemma {:induction false} EdgeIdOrder(a: EdgeKey, b: EdgeKey)
    requires KeyInRange(a) && KeyInRange(b)
    ensures TextLe(EdgeId(a), EdgeId(b)) <==> KeyLe(a, b)
  {
    DigitsOrder(a.producer, b.producer, 20);
    DigitsOrder(a.consumer, b.consumer, 20);
    DigitsOrder(a.index, b.index, 20);
    var s2, t2 := EDGE_INFIX + Digits(a.index, 20), EDGE_INFIX + Digits(b.index, 20);
    var s1, t1 := ":" + (Digits(a.consumer, 20) + s2), ":" + (Digits(b.consumer, 20) + t2);
    TextLeAppend(EDGE_PREFIX, EDGE_PREFIX, Digits(a.producer, 20) + s1, Digits(b.producer, 20) + t1);
    TextLeAppend(Digits(a.producer, 20), Digits(b.producer, 20), s1, t1);
    TextLeAppend(":", ":", Digits(a.consumer, 20) + s2, Digits(b.consumer, 20) + t2);
    TextLeAppend(Digits(a.consumer, 20), Digits(b.consumer, 20), s2, t2);
    TextLeAppend(EDGE_INFIX, EDGE_INFIX, Digits(a.index, 20), Digits(b.index, 20));
  }

  lemma {:induction false} EdgeIdInjective(a: EdgeKey, b: EdgeKey)
    requires KeyInRange(a) && KeyInRange(b) && EdgeId(a) == EdgeId(b)
    ensures a == b
  {
    EdgeIdOrder(a, b);
    EdgeIdOrder(b, a);
    TextLeTotal(EdgeId(a), EdgeId(a));
  }

  // ----- the DAG a program and its ranges determine -----

  ghost function Kind(keys: set<EdgeKey>, k: EdgeKey): EdgeKind {
    if Consumers(keys, k.index) == {k.producer + 1} then Sequential else Broadcast
  }

  ghost function EdgeFor(keys: set<EdgeKey>, k: EdgeKey): Edge {
    Edge(EdgeId(k), k.producer, k.consumer, Virtual(k.index), Kind(keys, k))
  }

  ghost function ShardFor(keys: set<EdgeKey>, id: nat, spec: ShardSpec): Shard {
    RegisterOrder();
    Shard(id, spec.name, spec.start, spec.end, Ascending(RegisterLe, InputsOf(keys, id)),
      Ascending(RegisterLe, OutputsOf(keys, id)))
  }

  ghost function KeyList(program: CompiledProgram, specs: seq<ShardSpec>): (r: seq<EdgeKey>)
    ensures Sorted(KeyLe, r) && Distinct(r) && Elements(r) == EdgeKeys(program, specs)
  {
    KeyOrder();
    Ascending(KeyLe, EdgeKeys(program, specs))
  }

  ghost function DagOf(program: CompiledProgram, specs: seq<ShardSpec>): Dag {
    var keys := EdgeKeys(program, specs);
    var order := KeyList(program, specs);
    Dag(seq(|specs|, s requires 0 <= s < |specs| => ShardFor(keys, s, specs[s])),
        seq(|order|, t requires 0 <= t < |order| => EdgeFor(keys, order[t])))
  }

  /** What the types of the source guarantee: lengths are machine words. */
  predicate FitsUsize(program: CompiledProgram, specs: seq<ShardSpec>) {
    |program.instructions| < U64_BOUND && |specs| < U64_BOUND
  }

  ghost predicate BuildsDag(program: CompiledProgram, specs: seq<ShardSpec>) {
    Contiguous(specs, |program.instructions|) && WellOrdered(program)
  }

  lemma {:induction false} Power10At20()
    ensures U64_BOUND <= Power10(20)
  {
    assert Power10(5) == 100000;
    assert Power10(10) == 100000 * Power10(5);
    assert Power10(15) == 100000 * Power10(10);
    assert Power10(20) == 100000 * Power10(15);
  }

  /** Some instruction of shard `c` reads `Virtual(i)`. */
  ghost predicate ReadIn(program: CompiledProgram, specs: seq<ShardSpec>, c: nat, i: nat) {
    exists j, k :: 0 <= j < |program.instructions| && 0 <= k < |program.instructions[j].inputs|
      && program.instructions[j].inputs[k] == Virtual(i) && ShardOf(specs, j) == c
  }

  lemma {:induction false} KeyIff(program: CompiledProgram, specs: seq<ShardSpec>, key: EdgeKey)
    ensures key in EdgeKeys(program, specs) <==>
      ShardOf(specs, key.index) == key.producer && key.producer != key.consumer
        && ReadIn(program, specs, key.consumer, key.index)
  {
    if ShardOf(specs, key.index) == key.producer && key.producer != key.consumer
      && ReadIn(program, specs, key.consumer, key.index)
    {
      var j, k :| 0 <= j < |program.instructions| && 0 <= k < |program.instructions[j].inputs|
        && program.instructions[j].inputs[k] == Virtual(key.index) && ShardOf(specs, j) == key.consumer;
      assert KeyFor(specs, j, program.instructions[j].inputs[k].index) == key;
    }
  }

  /** Dependencies point forward, between existing shards, from existing instructions. */
  lemma {:induction false} KeysForward(program: CompiledProgram, specs: seq<ShardSpec>, key: EdgeKey)
    requires BuildsDag(program, specs) && key in EdgeKeys(program, specs)
    ensures key.producer < key.consumer < |specs| && key.index < |program.instructions|
  {
    KeyIff(program, specs, key);
    var j, k :| 0 <= j < |program.instructions| && 0 <= k < |program.instructions[j].inputs|
      && program.instructions[j].inputs[k] == Virtual(key.index) && ShardOf(specs, j) == key.consumer;
    assert key.index < j;
    ShardOfMonotone(specs, |program.instructions|, key.index, j);
    ShardOfTotal(specs, |program.instructions|, j);
  }

  lemma {:induction false} KeysInRange(program: CompiledProgram, specs: seq<ShardSpec>)
    requires BuildsDag(program, specs) && FitsUsize(program, specs)
    ensures forall key :: key in EdgeKeys(program, specs) ==> KeyInRange(key)
  {
    Power10At20();
    forall key | key in EdgeKeys(program, specs) ensures KeyInRange(key) {
      KeysForward(program, specs, key);
    }
  }

  ghost predicate HasEdge(dag: Dag, p: nat, c: nat, i: nat) {
    exists e :: e in dag.edges && e.producer == p && e.consumer == c && e.register == Virtual(i)
  }

  /** An edge of the DAG is exactly a value made in one shard and read in another. */
  lemma {:induction false} EdgesExact(program: CompiledProgram, specs: seq<ShardSpec>, p: nat, c: nat, i: nat)
    requires BuildsDag(program, specs)
    ensures HasEdge(DagOf(program, specs), p, c, i) <==>
      ShardOf(specs, i) == p && p != c && ReadIn(program, specs, c, i)
    ensures ShardOf(specs, i) == p && p != c && ReadIn(program, specs, c, i) ==>
      p < c < |specs| && i < |program.instructions|
  {
    var key := EdgeKey(p, c, i);
    var keys, order, edges := EdgeKeys(program, specs), KeyList(program, specs), DagOf(program, specs).edges;
    KeyIff(program, specs, key);
    if key in keys {
      assert key in Elements(order);
      var t :| 0 <= t < |order| && order[t] == key;
      assert edges[t] == EdgeFor(keys, key) && edges[t] in edges;
      KeysForward(program, specs, key);
    }
    if e :| e in edges && e.producer == p && e.consumer == c && e.register == Virtual(i) {
      var t :| 0 <= t < |edges| && edges[t] == e;
      assert order[t] in Elements(order) && order[t] == key;
    }
  }

  /** No dependency is listed twice, identifiers are unique, and identifier order is numeric order. */
  lemma {:induction false} EdgesOrdered(program: CompiledProgram, specs: seq<ShardSpec>, s: nat, t: nat)
    requires BuildsDag(program, specs) && FitsUsize(program, specs)
    requires s < t < |DagOf(program, specs).edges|
    ensures var a, b := DagOf(program, specs).edges[s], DagOf(program, specs).edges[t];
      && (a.producer, a.consumer, a.register) != (b.producer, b.consumer, b.register)
      && a.id != b.id && TextLe(a.id, b.id)
  {
    var order := KeyList(program, specs);
    KeysInRange(program, specs);
    assert order[s] in Elements(order) && order[t] in Elements(order);
    EdgeIdOrder(order[s], order[t]);
    if EdgeId(order[s]) == EdgeId(order[t]) { EdgeIdInjective(order[s], order[t]); }
  }

  lemma {:induction false} ConsumersExact(program: CompiledProgram, specs: seq<ShardSpec>, i: nat, c: nat)
    ensures c in Consumers(EdgeKeys(program, specs), i) <==> c != ShardOf(specs, i) && ReadIn(program, specs, c, i)
  {
    var keys := EdgeKeys(program, specs);
    KeyIff(program, specs, EdgeKey(ShardOf(specs, i), c, i));
    if c in Consumers(keys, i) {
      var k :| k in keys && k.index == i && k.consumer == c;
      KeyIff(program, specs, k);
    }
  }

  lemma {:induction false} OnlyReader(program: CompiledProgram, specs: seq<ShardSpec>, key: EdgeKey)
    requires key in EdgeKeys(program, specs)
    ensures Consumers(EdgeKeys(program, specs), key.index) == {key.producer + 1} <==>
      forall c: nat :: c != key.producer && ReadIn(program, specs, c, key.index) ==> c == key.producer + 1
  {
    var readers := Consumers(EdgeKeys(program, specs), key.index);
    KeyIff(program, specs, key);
    assert key.consumer in readers;
    forall c: nat
      ensures c in readers <==> c != key.producer && ReadIn(program, specs, c, key.index)
    {
      ConsumersExact(program, specs, key.index, c);
    }
  }

  lemma {:induction false} KeyOfEdge(program: CompiledProgram, specs: seq<ShardSpec>, e: Edge) returns (key: EdgeKey)
    requires BuildsDag(program, specs) && e in DagOf(program, specs).edges
    ensures key in EdgeKeys(program, specs) && e == EdgeFor(EdgeKeys(program, specs), key)
  {
    var keys, order := EdgeKeys(program, specs), KeyList(program, specs);
    var t :| 0 <= t < |order| && EdgeFor(keys, order[t]) == e;
    assert order[t] in Elements(order);
    key := order[t];
  }

  /** An edge is a plain hand-off exactly when the next shard is the value's only other reader. */
  lemma {:induction false} SequentialExact(program: CompiledProgram, specs: seq<ShardSpec>, e: Edge)
    requires BuildsDag(program, specs) && e in DagOf(program, specs).edges
    ensures e.register.Virtual?
    ensures e.kind == Sequential <==>
      forall c: nat :: c != e.producer && ReadIn(program, specs, c, e.register.index) ==> c == e.producer + 1
  {
    var key := KeyOfEdge(program, specs, e);
    OnlyReader(program, specs, key);
  }

  /** A shard's inputs are the earlier values its instructions read, ascending and distinct. */
  lemma {:induction false} ShardInputsExact(program: CompiledProgram, specs: seq<ShardSpec>, c: nat, i: nat)
    requires BuildsDag(program, specs) && c < |specs|
    ensures var inputs := DagOf(program, specs).shards[c].inputs;
      && Sorted(RegisterLe, inputs) && Distinct(inputs)
      && (Virtual(i) in inputs <==> ShardOf(specs, i) != c && ReadIn(program, specs, c, i))
  {
    RegisterOrder();
    var keys := EdgeKeys(program, specs);
    var inputs := DagOf(program, specs).shards[c].inputs;
    assert Virtual(i) in inputs <==> Virtual(i) in Elements(inputs);
    KeyIff(program, specs, EdgeKey(ShardOf(specs, i), c, i));
    if Virtual(i) in InputsOf(keys, c) {
      var k :| k in keys && k.consumer == c && Virtual(k.index) == Virtual(i);
      KeyIff(program, specs, k);
    }
  }

  /** A shard's outputs are its values some other shard reads, ascending and distinct. */
  lemma {:induction false} ShardOutputsExact(program: CompiledProgram, specs: seq<ShardSpec>, p: nat, i: nat)
    requires BuildsDag(program, specs) && p < |specs|
    ensures var outputs := DagOf(program, specs).shards[p].outputs;
      && Sorted(RegisterLe, outputs) && Distinct(outputs)
      && (Virtual(i) in outputs <==> ShardOf(specs, i) == p && exists c: nat :: c != p && ReadIn(program, specs, c, i))
  {
    RegisterOrder();
    var keys := EdgeKeys(program, specs);
    var outputs := DagOf(program, specs).shards[p].outputs;
    assert Virtual(i) in outputs <==> Virtual(i) in Elements(outputs);
    if Virtual(i) in OutputsOf(keys, p) {
      var k :| k in keys && k.producer == p && Virtual(k.index) == Virtual(i);
      KeyIff(program, specs, k);
      assert ReadIn(program, specs, k.consumer, i);
    }
    forall c: nat | ShardOf(specs, i) == p && c != p && ReadIn(program, specs, c, i)
      ensures Virtual(i) in OutputsOf(keys, p)
    {
      KeyIff(program, specs, EdgeKey(p, c, i));
      assert EdgeKey(p, c, i) in keys;
    }
  }
}
