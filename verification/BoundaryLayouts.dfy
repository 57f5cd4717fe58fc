/** The declared length of every tensor that may cross a shard boundary. */
module BoundaryLayouts {
  import opened Prelude
  import opened Program

  datatype BoundaryTensorSpec = BoundaryTensorSpec(register: Register, elementCount: nat)

  datatype BoundaryLayout = BoundaryLayout(specs: seq<BoundaryTensorSpec>)

  predicate ValidSpec(spec: BoundaryTensorSpec) {
    spec.elementCount != 0 && !spec.register.Weight?
  }

  predicate SpecLe(a: BoundaryTensorSpec, b: BoundaryTensorSpec) {
    RegisterLe(a.register, b.register)
  }

  ghost predicate DistinctRegisters(specs: seq<BoundaryTensorSpec>) {
    forall i, j :: 0 <= i < j < |specs| ==> specs[i].register != specs[j].register
  }

  ghost predicate ValidLayout(layout: BoundaryLayout) {
    && (forall k :: 0 <= k < |layout.specs| ==> ValidSpec(layout.specs[k]))
    && Sorted(SpecLe, layout.specs)
    && DistinctRegisters(layout.specs)
  }

  /** Sorts the specs and rejects two for one register, wherever they stood. */
  ghost predicate NeighboursDiffer(specs: seq<BoundaryTensorSpec>, upTo: nat) {
    forall i, j :: 0 <= i && j == i + 1 && j < upTo && j < |specs| ==> specs[i].register != specs[j].register
  }

  method NewLayout(specs: seq<BoundaryTensorSpec>) returns (r: Option<BoundaryLayout>)
    requires forall k :: 0 <= k < |specs| ==> ValidSpec(specs[k])
    ensures r.Some? ==> ValidLayout(r.value) && multiset(r.value.specs) == multiset(specs)
    ensures r.Some? <==> DistinctRegisters(specs)
  {
    var sorted := SortBy(SpecLe, specs);
    SortedSpecs(specs);
    var k := 1;
    while k < |sorted|
      invariant 1 <= k
      invariant NeighboursDiffer(sorted, k)
    {
      if sorted[k - 1].register == sorted[k].register {
        return None;
      }
      k := k + 1;
    }
    AdjacentDistinct(sorted);
    r := Some(BoundaryLayout(sorted));
  }

  lemma {:induction false} SortedSpecs(specs: seq<BoundaryTensorSpec>)
    ensures Sorted(SpecLe, SortBy(SpecLe, specs))
    ensures DistinctRegisters(SortBy(SpecLe, specs)) <==> DistinctRegisters(specs)
    ensures (forall k :: 0 <= k < |specs| ==> ValidSpec(specs[k])) ==>
      forall k :: 0 <= k < |specs| ==> ValidSpec(SortBy(SpecLe, specs)[k])
  {
    var sorted := SortBy(SpecLe, specs);
    RegisterOrder();
    assert TotalPreorder(SpecLe);
    SortBySorted(SpecLe, specs);
    if DistinctRegisters(specs) { SameRegisters(specs, sorted); }
    if DistinctRegisters(sorted) { SameRegisters(sorted, specs); }
    forall k | 0 <= k < |sorted| ensures sorted[k] in specs {
      assert sorted[k] in multiset(sorted);
    }
  }

  lemma {:induction false} AdjacentDistinct(sorted: seq<BoundaryTensorSpec>)
    requires Sorted(SpecLe, sorted)
    requires NeighboursDiffer(sorted, |sorted|)
    ensures DistinctRegisters(sorted)
  {
    RegisterOrder();
    forall i, j | 0 <= i < j < |sorted| ensures sorted[i].register != sorted[j].register {
      assert SpecLe(sorted[i], sorted[j - 1]) || i == j - 1;
      assert sorted[j - 1].register != sorted[j].register;
      assert SpecLe(sorted[j - 1], sorted[j]);
    }
  }

  /** Distinctness of registers does not depend on the order of the specs. */
  lemma {:induction false} SameRegisters(a: seq<BoundaryTensorSpec>, b: seq<BoundaryTensorSpec>)
    requires multiset(a) == multiset(b) && DistinctRegisters(a)
    ensures DistinctRegisters(b)
  {
    assert Distinct(a);
    MultisetDistinct(a, b);
    forall i, j | 0 <= i < j < |b| ensures b[i].register != b[j].register {
      assert b[i] in Elements(b) && b[j] in Elements(b);
      var x :| 0 <= x < |a| && a[x] == b[i];
      var y :| 0 <= y < |a| && a[y] == b[j];
      assert x != y;
    }
  }

  function FindSpec(specs: seq<BoundaryTensorSpec>, r: Register): Option<nat> {
    if |specs| == 0 then None
    else if specs[0].register == r then Some(specs[0].elementCount)
    else FindSpec(specs[1..], r)
  }

  /** The declared element count of a register, if it has one. */
  /** The count found is one declared for the register, and none is found only when none is. */
  lemma {:induction false} FindSpecExact(specs: seq<BoundaryTensorSpec>, r: Register)
    ensures FindSpec(specs, r).None? <==> forall k :: 0 <= k < |specs| ==> specs[k].register != r
    ensures FindSpec(specs, r).Some? ==> BoundaryTensorSpec(r, FindSpec(specs, r).value) in specs
  {
    if |specs| > 0 && specs[0].register != r {
      FindSpecExact(specs[1..], r);
      assert forall k :: 0 < k < |specs| ==> specs[k] == specs[1..][k - 1];
    }
  }

  function ElementCount(layout: BoundaryLayout, r: Register): Option<nat> {
    FindSpec(layout.specs, r)
  }
}
