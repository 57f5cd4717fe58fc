/** Boundary descriptors, and the graph-level bindings that aggregation carries up the tree. */
module PublicBoundary {
  import opened Prelude
  import opened Program

  /** A field element committed to; only its identity matters. */
  type Commitment = nat

  datatype Role = Input | Output

  datatype Descriptor = Descriptor(
    role: Role, registerId: string, edgeIds: seq<string>, graphOutputNames: seq<string>, elementCount: nat, scale: nat)

  datatype Binding = Binding(descriptor: Descriptor, commitment: Commitment)

  const GRAPH_INPUT_PREFIX := "graph-input:"
  const VIRTUAL_PREFIX := "virtual:"
  const WEIGHT_PREFIX := "weight:"

  function RegisterId(r: Register): string {
    match r
    case GraphInput(name) => GRAPH_INPUT_PREFIX + name
    case Virtual(i) => VIRTUAL_PREFIX + Decimal(i)
    case Weight(name) => WEIGHT_PREFIX + name
  }

  predicate IsPublicGraphInput(d: Descriptor) {
    d.role == Input && GRAPH_INPUT_PREFIX <= d.registerId && d.edgeIds == [] && d.graphOutputNames == []
  }

  predicate IsPublic(b: Binding, role: Role) {
    if role == Output then b.descriptor.graphOutputNames != [] else IsPublicGraphInput(b.descriptor)
  }

  // ----- budgets -----

  const MAX_PUBLIC_BOUNDARY_DECLARATIONS: nat := 0x1000
  const MAX_PUBLIC_BOUNDARY_WIRE_BYTES: nat := 0x10_0000 - 0x1000

  function TextBytes(texts: seq<string>): nat {
    if |texts| == 0 then 0 else TextBytes(texts[..|texts| - 1]) + |texts[|texts| - 1]|
  }

  /** A bound on one manifest entry; text is counted in characters, one byte each. */
  function DescriptorBytes(d: Descriptor): nat {
    512 + 16 * (1 + |d.edgeIds| + |d.graphOutputNames|)
      + 6 * (|d.registerId| + TextBytes(d.edgeIds) + TextBytes(d.graphOutputNames))
  }

  function OneDescriptor(d: Descriptor): nat { 1 }

  function WireBytes(b: Binding): nat { DescriptorBytes(b.descriptor) }

  function One(b: Binding): nat { OneDescriptor(b.descriptor) }

  type Cost = Binding -> nat

  /** The cost of everything shards `lo` to `hi` publish. */
  function ListsCost(f: Cost, lists: seq<seq<Binding>>, lo: nat, hi: nat): nat
    requires lo <= hi <= |lists|
    decreases hi
  {
    if lo == hi then 0 else ListsCost(f, lists, lo, hi - 1) + SumSeq(f, lists[hi - 1])
  }

  lemma {:induction false} ListsCostSplit(f: Cost, lists: seq<seq<Binding>>, lo: nat, mid: nat, hi: nat)
    requires lo <= mid <= hi <= |lists|
    ensures ListsCost(f, lists, lo, hi) == ListsCost(f, lists, lo, mid) + ListsCost(f, lists, mid, hi)
    decreases hi
  {
    if mid < hi { ListsCostSplit(f, lists, lo, mid, hi - 1); }
  }

  // ----- relations between the bindings of different shards -----

  type Relation = (Binding, Binding) -> bool

  /** The same graph input has the same descriptor and commitment. */
  predicate SameInput(a: Binding, b: Binding) {
    a.descriptor.registerId == b.descriptor.registerId ==> a == b
  }

  predicate NamesApart(a: Binding, b: Binding) {
    forall name :: name in a.descriptor.graphOutputNames ==> name !in b.descriptor.graphOutputNames
  }

  ghost predicate Across(rel: Relation, xs: set<Binding>, ys: set<Binding>) {
    forall a, b :: a in xs && b in ys ==> rel(a, b)
  }

  ghost function BindingsIn(lists: seq<seq<Binding>>, lo: nat, hi: nat): set<Binding>
    requires lo <= hi <= |lists|
  {
    set s, b | lo <= s < hi && b in lists[s] :: b
  }

  /** Bindings of any two different shards from `lo` to `hi` are related. */
  ghost predicate ShardsRelate(rel: Relation, lists: seq<seq<Binding>>, lo: nat, hi: nat)
    requires lo <= hi <= |lists|
  {
    forall s, t, a, b :: lo <= s < t < hi && a in lists[s] && b in lists[t] ==> rel(a, b)
  }

  lemma {:induction false} BindingsSplit(lists: seq<seq<Binding>>, lo: nat, mid: nat, hi: nat)
    requires lo <= mid <= hi <= |lists|
    ensures BindingsIn(lists, lo, hi) == BindingsIn(lists, lo, mid) + BindingsIn(lists, mid, hi)
  {
  }

  /** A joined interval relates exactly when both parts do, and across the join. */
  lemma {:induction false} RelateSplit(rel: Relation, lists: seq<seq<Binding>>, lo: nat, mid: nat, hi: nat)
    requires lo <= mid <= hi <= |lists|
    ensures ShardsRelate(rel, lists, lo, hi) <==>
      && ShardsRelate(rel, lists, lo, mid) && ShardsRelate(rel, lists, mid, hi)
      && Across(rel, BindingsIn(lists, lo, mid), BindingsIn(lists, mid, hi))
  {
    if ShardsRelate(rel, lists, lo, hi) {
      forall a, b | a in BindingsIn(lists, lo, mid) && b in BindingsIn(lists, mid, hi) ensures rel(a, b) {
        var s :| lo <= s < mid && a in lists[s];
        var t :| mid <= t < hi && b in lists[t];
      }
    }
    if ShardsRelate(rel, lists, lo, mid) && ShardsRelate(rel, lists, mid, hi)
       && Across(rel, BindingsIn(lists, lo, mid), BindingsIn(lists, mid, hi))
    {
      forall s, t, a, b | lo <= s < t < hi && a in lists[s] && b in lists[t] ensures rel(a, b) {
        if s < mid <= t {
          assert a in BindingsIn(lists, lo, mid) && b in BindingsIn(lists, mid, hi);
        }
      }
    }
  }

  // ----- what one claim publishes -----

  /** Each graph input once. */
  ghost predicate InputsListed(list: seq<Binding>) {
    forall i, j :: 0 <= i < j < |list| ==> list[i].descriptor.registerId != list[j].descriptor.registerId
  }

  /** Every entry named, no name twice. */
  ghost predicate OutputsListed(list: seq<Binding>) {
    && (forall i :: 0 <= i < |list| ==> list[i].descriptor.graphOutputNames != [])
    && (forall i, j :: 0 <= i < j < |list| ==> NamesApart(list[i], list[j]))
  }

  // ----- merging public inputs -----

  /** Keyed by register, holding exactly the bindings in `all`. */
  ghost predicate InputTable(table: map<string, Binding>, all: set<Binding>) {
    && (forall id :: id in table ==> table[id].descriptor.registerId == id && table[id] in all)
    && (forall b :: b in all ==> b.descriptor.registerId in table && table[b.descriptor.registerId] == b)
  }

  lemma {:induction false} InputTableMore(table: map<string, Binding>, all: set<Binding>, b: Binding)
    requires InputTable(table, all)
    ensures b.descriptor.registerId !in table ==> InputTable(table[b.descriptor.registerId := b], all + {b})
    ensures b.descriptor.registerId in table && table[b.descriptor.registerId] == b ==> InputTable(table, all + {b})
    ensures Across(SameInput, all, {b}) <==> (b.descriptor.registerId in table ==> table[b.descriptor.registerId] == b)
  {
    var id := b.descriptor.registerId;
    if id in table && Across(SameInput, all, {b}) {
      assert table[id] in all && b in {b};
      assert SameInput(table[id], b);
    }
  }

  /** Merges one child's inputs, refusing a different binding for an input already present. */
  method MergePublicInputs(target: map<string, Binding>, incoming: seq<Binding>, ghost all: set<Binding>)
    returns (r: Option<map<string, Binding>>)
    requires InputTable(target, all) && InputsListed(incoming)
    ensures r.Some? <==> Across(SameInput, all, Elements(incoming))
    ensures r.Some? ==> InputTable(r.value, all + Elements(incoming))
    ensures forall f: Cost :: r.Some? ==> SumBy(f, r.value) <= SumBy(f, target) + SumSeq(f, incoming)
  {
    var table := target;
    for k := 0 to |incoming|
      invariant InputTable(table, all + Elements(incoming[..k]))
      invariant Across(SameInput, all, Elements(incoming[..k]))
      invariant forall f: Cost :: SumBy(f, table) <= SumBy(f, target) + SumSeq(f, incoming[..k])
    {
      var b := incoming[k];
      var key := b.descriptor.registerId;
      ghost var before := all + Elements(incoming[..k]);
      PrefixElements(incoming, k);
      InputTableMore(table, before, b);
      IncomingRelates(all, incoming, k);
      forall f: Cost
        ensures SumSeq(f, incoming[..k + 1]) == SumSeq(f, incoming[..k]) + f(b)
      {
        SumSnoc(f, incoming[..k], b);
      }
      if key in table {
        if table[key] != b {
          return None;
        }
      } else {
        forall f: Cost ensures SumBy(f, table[key := b]) == SumBy(f, table) + f(b) { SumInsert(f, table, key, b); }
        table := table[key := b];
      }
    }
    assert incoming[..|incoming|] == incoming;
    r := Some(table);
  }

  lemma {:induction false} PrefixElements<T>(xs: seq<T>, k: nat)
    requires k < |xs|
    ensures xs[..k + 1] == xs[..k] + [xs[k]] && Elements(xs[..k + 1]) == Elements(xs[..k]) + {xs[k]}
    ensures Elements(xs[..k + 1]) <= Elements(xs)
  {
    assert xs[..k + 1] == xs[..k] + [xs[k]];
  }

  /** A child lists each input once, so only the bindings from before it can clash with its next one. */
  lemma {:induction false} IncomingRelates(all: set<Binding>, incoming: seq<Binding>, k: nat)
    requires InputsListed(incoming) && k < |incoming|
    ensures Across(SameInput, all + Elements(incoming[..k]), {incoming[k]}) <==> Across(SameInput, all, {incoming[k]})
    ensures Across(SameInput, all, Elements(incoming)) ==> Across(SameInput, all, {incoming[k]})
  {
    var b := incoming[k];
    if Across(SameInput, all, {b}) {
      forall a | a in Elements(incoming[..k]) ensures SameInput(a, b) {
        var i :| 0 <= i < k && incoming[i] == a;
      }
      forall a | a in all ensures SameInput(a, b) { assert b in {b}; }
    }
    if Across(SameInput, all, Elements(incoming)) {
      assert b in Elements(incoming);
    }
  }

  // ----- merging public outputs -----

  ghost function NamesIn(all: set<Binding>): set<string> {
    set b, name | b in all && name in b.descriptor.graphOutputNames :: name
  }

  /** Keyed by first name, holding exactly the bindings in `all`, all of them named. */
  ghost predicate OutputTable(table: map<string, Binding>, all: set<Binding>) {
    && (forall b :: b in all ==> b.descriptor.graphOutputNames != [])
    && (forall key :: key in table ==> table[key] in all && table[key].descriptor.graphOutputNames[0] == key)
    && (forall b :: b in all ==>
      b.descriptor.graphOutputNames[0] in table && table[b.descriptor.graphOutputNames[0]] == b)
  }

  lemma {:induction false} OutputTableMore(table: map<string, Binding>, all: set<Binding>, b: Binding)
    requires OutputTable(table, all) && b.descriptor.graphOutputNames != []
    ensures Across(NamesApart, all, {b}) <==>
      forall name :: name in b.descriptor.graphOutputNames ==> name !in NamesIn(all)
    ensures Across(NamesApart, all, {b}) ==> b.descriptor.graphOutputNames[0] !in table
    ensures Across(NamesApart, all, {b}) ==> OutputTable(table[b.descriptor.graphOutputNames[0] := b], all + {b})
    ensures NamesIn(all + {b}) == NamesIn(all) + Elements(b.descriptor.graphOutputNames)
  {
    var first := b.descriptor.graphOutputNames[0];
    assert first in table ==> table[first] in all && first in table[first].descriptor.graphOutputNames;
    if Across(NamesApart, all, {b}) {
      forall name | name in b.descriptor.graphOutputNames ensures name !in NamesIn(all) {
        forall a | a in all ensures name !in a.descriptor.graphOutputNames {
          assert b in {b};
          assert NamesApart(a, b);
        }
      }
    }
    if forall name :: name in b.descriptor.graphOutputNames ==> name !in NamesIn(all) {
      forall a | a in all ensures NamesApart(a, b) {
        forall name | name in a.descriptor.graphOutputNames ensures name !in b.descriptor.graphOutputNames {
          assert name in NamesIn(all);
        }
      }
    }
  }

  lemma {:induction false} IncomingApart(all: set<Binding>, incoming: seq<Binding>, k: nat)
    requires OutputsListed(incoming) && k < |incoming|
    ensures Across(NamesApart, all + Elements(incoming[..k]), {incoming[k]}) <==> Across(NamesApart, all, {incoming[k]})
    ensures Across(NamesApart, all, Elements(incoming)) ==> Across(NamesApart, all, {incoming[k]})
  {
    var b := incoming[k];
    if Across(NamesApart, all, {b}) {
      forall a | a in Elements(incoming[..k]) ensures NamesApart(a, b) {
        var i :| 0 <= i < k && incoming[i] == a;
      }
      forall a | a in all ensures NamesApart(a, b) { assert b in {b}; }
    }
    if Across(NamesApart, all, Elements(incoming)) {
      assert b in Elements(incoming);
    }
  }

  /** Merges one child's outputs, refusing any output name already claimed. */
  method MergePublicOutputs(
      target: map<string, Binding>, claimedNames: set<string>, incoming: seq<Binding>, ghost all: set<Binding>)
    returns (r: Option<map<string, Binding>>, claimed: set<string>)
    requires OutputTable(target, all) && claimedNames == NamesIn(all) && OutputsListed(incoming)
    ensures r.Some? <==> Across(NamesApart, all, Elements(incoming))
    ensures r.Some? ==> OutputTable(r.value, all + Elements(incoming)) && claimed == NamesIn(all + Elements(incoming))
    ensures forall f: Cost :: r.Some? ==> SumBy(f, r.value) <= SumBy(f, target) + SumSeq(f, incoming)
  {
    var table := target;
    claimed := claimedNames;
    ghost var seen := all;
    for k := 0 to |incoming|
      invariant seen == all + Elements(incoming[..k])
      invariant OutputTable(table, seen) && claimed == NamesIn(seen)
      invariant Across(NamesApart, all, Elements(incoming[..k]))
      invariant forall f: Cost :: SumBy(f, table) <= SumBy(f, target) + SumSeq(f, incoming[..k])
    {
      var b := incoming[k];
      PrefixElements(incoming, k);
      OutputTableMore(table, seen, b);
      IncomingApart(all, incoming, k);
      if exists name :: name in b.descriptor.graphOutputNames && name in claimed {
        return None, claimed;
      }
      claimed := claimed + Elements(b.descriptor.graphOutputNames);
      var key := b.descriptor.graphOutputNames[0];
      forall f: Cost
        ensures SumSeq(f, incoming[..k + 1]) == SumSeq(f, incoming[..k]) + f(b)
      {
        SumSnoc(f, incoming[..k], b);
      }
      forall f: Cost ensures SumBy(f, table[key := b]) == SumBy(f, table) + f(b) { SumInsert(f, table, key, b); }
      table := table[key := b];
      seen := seen + {b};
    }
    assert incoming[..|incoming|] == incoming;
    r := Some(table);
  }

  // ----- listing a table in key order -----

  ghost function Values(table: map<string, Binding>): (list: seq<Binding>)
    ensures |list| == |KeyOrder(table)| && forall k :: 0 <= k < |list| ==> list[k] == table[KeyOrder(table)[k]]
  {
    seq(|KeyOrder(table)|, k requires 0 <= k < |KeyOrder(table)| => table[KeyOrder(table)[k]])
  }

  ghost function KeyOrder(table: map<string, Binding>): (keys: seq<string>)
    ensures Sorted(TextLe, keys) && Distinct(keys) && Elements(keys) == table.Keys
    ensures forall k :: 0 <= k < |keys| ==> keys[k] in table
  {
    TextOrder();
    var keys := Ascending(TextLe, table.Keys);
    assert forall k :: 0 <= k < |keys| ==> keys[k] in Elements(keys);
    keys
  }

  /** The table's values, as the ordered map iterates over them. */
  method ListValues(table: map<string, Binding>) returns (list: seq<Binding>)
    ensures list == Values(table)
  {
    TextOrder();
    var keys := SortedVector(TextLe, table.Keys);
    list := [];
    for k := 0 to |keys|
      invariant |list| == k && forall i :: 0 <= i < k ==> list[i] == table[keys[i]]
    {
      list := list + [table[keys[k]]];
    }
  }

  lemma {:induction false} ValuesElements(table: map<string, Binding>)
    ensures forall key :: key in table ==> table[key] in Values(table)
    ensures forall b :: b in Values(table) ==> exists key :: key in table && table[key] == b
  {
    forall key | key in table ensures table[key] in Values(table) {
      assert key in Elements(KeyOrder(table));
      var k :| 0 <= k < |KeyOrder(table)| && KeyOrder(table)[k] == key;
      assert Values(table)[k] == table[key];
    }
  }

  lemma {:induction false} InputValues(table: map<string, Binding>, all: set<Binding>)
    requires InputTable(table, all)
    ensures Elements(Values(table)) == all && InputsListed(Values(table))
  {
    ValuesElements(table);
    forall i, j | 0 <= i < j < |Values(table)|
      ensures Values(table)[i].descriptor.registerId != Values(table)[j].descriptor.registerId
    {
      assert KeyOrder(table)[i] != KeyOrder(table)[j];
    }
    forall b | b in all ensures b in Values(table) {
      assert table[b.descriptor.registerId] == b;
    }
  }

  /** Two tables of the same bindings are the same table, so they are listed alike. */
  lemma {:induction false} SameInputTables(a: map<string, Binding>, b: map<string, Binding>, all: set<Binding>)
    requires InputTable(a, all) && InputTable(b, all)
    ensures a == b
  {
  }

  lemma {:induction false} SameOutputTables(a: map<string, Binding>, b: map<string, Binding>, all: set<Binding>)
    requires OutputTable(a, all) && OutputTable(b, all)
    ensures a == b
  {
  }

  /** Different bindings of the set have different names. */
  ghost predicate AllApart(all: set<Binding>) {
    forall a, b :: a in all && b in all && a != b ==> NamesApart(a, b)
  }

  lemma {:induction false} OutputValues(table: map<string, Binding>, all: set<Binding>)
    requires OutputTable(table, all) && AllApart(all)
    ensures Elements(Values(table)) == all && OutputsListed(Values(table))
  {
    ValuesElements(table);
    var list := Values(table);
    forall i, j | 0 <= i < j < |list| ensures NamesApart(list[i], list[j]) {
      assert KeyOrder(table)[i] != KeyOrder(table)[j];
      assert list[i] in list && list[j] in list;
      assert list[i].descriptor.graphOutputNames[0] == KeyOrder(table)[i];
      assert list[j].descriptor.graphOutputNames[0] == KeyOrder(table)[j];
    }
    forall i | 0 <= i < |list| ensures list[i].descriptor.graphOutputNames != [] { assert list[i] in list; }
    forall b | b in all ensures b in list {
      assert table[b.descriptor.graphOutputNames[0]] == b;
    }
  }

  lemma {:induction false} ListedApart(list: seq<Binding>)
    requires OutputsListed(list)
    ensures AllApart(Elements(list))
  {
    forall a, b | a in Elements(list) && b in Elements(list) && a != b ensures NamesApart(a, b) {
      var i :| 0 <= i < |list| && list[i] == a;
      var j :| 0 <= j < |list| && list[j] == b;
      if j < i { assert NamesApart(b, a); }
    }
  }

  lemma {:induction false} ApartUnion(xs: set<Binding>, ys: set<Binding>)
    requires AllApart(xs) && AllApart(ys) && Across(NamesApart, xs, ys)
    ensures AllApart(xs + ys)
  {
    forall a, b | a in xs + ys && b in xs + ys && a != b ensures NamesApart(a, b) {
      if a in ys && b in xs { assert NamesApart(b, a); }
    }
  }

  lemma {:induction false} SumOfValues(f: Cost, table: map<string, Binding>)
    ensures SumSeq(f, Values(table)) == SumBy(f, table)
  {
    SumOfListing(f, table, KeyOrder(table), Values(table));
  }

  lemma {:induction false} SumOfListing(f: Cost, table: map<string, Binding>, keys: seq<string>, list: seq<Binding>)
    requires Distinct(keys) && Elements(keys) == table.Keys
    requires |list| == |keys| && forall k :: 0 <= k < |keys| ==> keys[k] in table && list[k] == table[keys[k]]
    ensures SumSeq(f, list) == SumBy(f, table)
    decreases |keys|
  {
    if |keys| > 0 {
      var n := |keys| - 1;
      var last := keys[n];
      assert keys == keys[..n] + [last];
      assert Elements(keys[..n]) == table.Keys - {last};
      forall k | 0 <= k < n ensures keys[..n][k] in table - {last} && list[..n][k] == (table - {last})[keys[..n][k]] {
        assert keys[k] != last;
      }
      SumOfListing(f, table - {last}, keys[..n], list[..n]);
      SumWithout(f, table, last);
    }
  }
}
