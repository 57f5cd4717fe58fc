/** Options, results, sequences, finite sets and orderings shared by every component. */
module Prelude {

  datatype Option<+T> = None | Some(value: T) {
    predicate IsFailure() { None? }

    function PropagateFailure<U>(): Option<U>
      requires None?
    {
      None
    }

    function Extract(): T
      requires Some?
    {
      value
    }
  }

  datatype Result<+T, +E> = Ok(value: T) | Err(error: E)

  type U32 = x: int | 0 <= x < 0x1_0000_0000
  type U64 = x: int | 0 <= x < 0x1_0000_0000_0000_0000
  const U64_BOUND: nat := 0x1_0000_0000_0000_0000

  /** All values when every option is present, nothing otherwise. */
  function Collect<T>(options: seq<Option<T>>): (r: Option<seq<T>>)
    ensures r.Some? <==> forall k :: 0 <= k < |options| ==> options[k].Some?
    ensures r.Some? ==> |r.value| == |options|
    ensures r.Some? ==> forall k :: 0 <= k < |options| ==> options[k] == Some(r.value[k])
  {
    if forall k :: 0 <= k < |options| ==> options[k].Some? then
      Some(seq(|options|, k requires 0 <= k < |options| && options[k].Some? => options[k].value))
    else
      None
  }

  ghost predicate Distinct<T>(xs: seq<T>) {
    forall i, j :: 0 <= i < j < |xs| ==> xs[i] != xs[j]
  }

  function Elements<T>(xs: seq<T>): set<T> {
    set x | x in xs
  }

  lemma {:induction false} DistinctSize<T>(xs: seq<T>)
    requires Distinct(xs)
    ensures |Elements(xs)| == |xs|
  {
    if xs == [] {
    } else {
      var n := |xs| - 1;
      DistinctSize(xs[..n]);
      assert xs == xs[..n] + [xs[n]];
      assert Elements(xs) == Elements(xs[..n]) + {xs[n]};
      assert xs[n] !in xs[..n];
    }
  }

  lemma {:induction false} SubsetSize<T>(a: set<T>, b: set<T>)
    requires a <= b
    ensures |a| <= |b|
    ensures |a| == |b| ==> a == b
  {
    assert b == a + (b - a);
  }

  // ----- total orders and sorting -----

  ghost predicate TotalPreorder<T(!new)>(le: (T, T) -> bool) {
    && (forall a, b :: le(a, b) || le(b, a))
    && (forall a, b, c :: le(a, b) && le(b, c) ==> le(a, c))
  }

  ghost predicate TotalOrder<T(!new)>(le: (T, T) -> bool) {
    && TotalPreorder(le)
    && (forall a, b :: le(a, b) && le(b, a) ==> a == b)
  }

  ghost predicate Sorted<T>(le: (T, T) -> bool, xs: seq<T>) {
    forall i, j :: 0 <= i < j < |xs| ==> le(xs[i], xs[j])
  }

  function Insert<T>(le: (T, T) -> bool, x: T, xs: seq<T>): (r: seq<T>)
    ensures multiset(r) == multiset(xs) + multiset{x}
    ensures |r| == |xs| + 1
  {
    if |xs| == 0 then [x]
    else if le(x, xs[0]) then [x] + xs
    else
      assert xs == [xs[0]] + xs[1..];
      [xs[0]] + Insert(le, x, xs[1..])
  }

  /** A sort: what `sort_unstable_by` gives on elements that compare equal only when equal. */
  function SortBy<T>(le: (T, T) -> bool, xs: seq<T>): (r: seq<T>)
    ensures multiset(r) == multiset(xs)
    ensures |r| == |xs|
  {
    if |xs| == 0 then []
    else
      assert xs == [xs[0]] + xs[1..];
      Insert(le, xs[0], SortBy(le, xs[1..]))
  }

  lemma {:induction false} InsertSorted<T(!new)>(le: (T, T) -> bool, x: T, xs: seq<T>)
    requires TotalPreorder(le) && Sorted(le, xs)
    ensures Sorted(le, Insert(le, x, xs))
  {
    if xs != [] && !le(x, xs[0]) {
      InsertSorted(le, x, xs[1..]);
      var tail := Insert(le, x, xs[1..]);
      forall j | 0 <= j < |tail|
        ensures le(xs[0], tail[j])
      {
        assert tail[j] in multiset(tail);
        assert tail[j] in multiset(xs[1..]) + multiset{x};
        assert le(xs[0], xs[0]);
        if tail[j] != x {
          assert tail[j] in xs[1..];
        }
      }
    }
  }

  lemma {:induction false} SortBySorted<T(!new)>(le: (T, T) -> bool, xs: seq<T>)
    requires TotalPreorder(le)
    ensures Sorted(le, SortBy(le, xs))
  {
    if xs != [] {
      SortBySorted(le, xs[1..]);
      InsertSorted(le, xs[0], SortBy(le, xs[1..]));
    }
  }

  lemma {:induction false} HeadLeast<T(!new)>(le: (T, T) -> bool, xs: seq<T>, ys: seq<T>)
    requires TotalOrder(le) && Sorted(le, xs) && multiset(xs) == multiset(ys) && xs != []
    ensures ys != [] && le(xs[0], ys[0])
  {
    assert |multiset(xs)| == |multiset(ys)|;
    assert ys[0] in multiset(xs);
    assert le(xs[0], xs[0]);
  }

  lemma {:induction false} WithoutFirst<T>(xs: seq<T>)
    requires |xs| > 0
    ensures multiset(xs[1..]) == multiset(xs) - multiset{xs[0]} && xs == [xs[0]] + xs[1..]
  {
    assert xs == [xs[0]] + xs[1..];
  }

  /** A sorted sequence is determined by its elements. */
  lemma {:induction false} SortedUnique<T(!new)>(le: (T, T) -> bool, xs: seq<T>, ys: seq<T>)
    requires TotalOrder(le) && Sorted(le, xs) && Sorted(le, ys)
    requires multiset(xs) == multiset(ys)
    ensures xs == ys
  {
    if xs == [] {
      assert |multiset(ys)| == 0;
    } else {
      HeadLeast(le, xs, ys);
      HeadLeast(le, ys, xs);
      WithoutFirst(xs);
      WithoutFirst(ys);
      SortedUnique(le, xs[1..], ys[1..]);
    }
  }

  lemma {:induction false} DistinctMultiset<T>(xs: seq<T>, ys: seq<T>)
    requires Distinct(xs) && Distinct(ys) && Elements(xs) == Elements(ys)
    ensures multiset(xs) == multiset(ys)
  {
    forall x
      ensures multiset(xs)[x] == multiset(ys)[x]
    {
      DistinctCount(xs, x);
      DistinctCount(ys, x);
      assert x in xs <==> x in Elements(xs);
    }
  }

  lemma {:induction false} DistinctCount<T>(xs: seq<T>, x: T)
    requires Distinct(xs)
    ensures multiset(xs)[x] == if x in xs then 1 else 0
  {
    if xs != [] {
      DistinctCount(xs[1..], x);
      assert xs == [xs[0]] + xs[1..];
      if x == xs[0] { assert x !in xs[1..]; }
    }
  }

  /** Sorted, duplicate-free sequences over the same set are equal. */
  lemma {:induction false} SortedSetUnique<T(!new)>(le: (T, T) -> bool, xs: seq<T>, ys: seq<T>)
    requires TotalOrder(le) && Sorted(le, xs) && Sorted(le, ys)
    requires Distinct(xs) && Distinct(ys) && Elements(xs) == Elements(ys)
    ensures xs == ys
  {
    DistinctMultiset(xs, ys);
    SortedUnique(le, xs, ys);
  }

  lemma {:induction false} MultisetDistinct<T>(xs: seq<T>, ys: seq<T>)
    requires Distinct(xs) && multiset(xs) == multiset(ys)
    ensures Distinct(ys) && Elements(xs) == Elements(ys)
  {
    forall x
      ensures x in xs <==> x in ys
    {
      assert x in multiset(xs) <==> x in multiset(ys);
    }
    if !Distinct(ys) {
      var i, j :| 0 <= i < j < |ys| && ys[i] == ys[j];
      assert ys == ys[..i] + [ys[i]] + ys[i + 1..j] + [ys[j]] + ys[j + 1..];
      assert multiset(ys)[ys[i]] >= 2;
      DistinctCount(xs, ys[i]);
    }
  }

  /** The elements of a finite set in increasing order, as a B-tree collection iterates. */
  ghost function Ascending<T(!new)>(le: (T, T) -> bool, s: set<T>): (r: seq<T>)
    requires TotalOrder(le)
    ensures Sorted(le, r) && Distinct(r) && Elements(r) == s
  {
    AscendingExists(le, s);
    var r :| Sorted(le, r) && Distinct(r) && Elements(r) == s;
    r
  }

  lemma {:induction false} AscendingExists<T(!new)>(le: (T, T) -> bool, s: set<T>)
    requires TotalOrder(le)
    ensures exists r :: Sorted(le, r) && Distinct(r) && Elements(r) == s
    decreases s
  {
    var raw := ListSet(s);
    var r := SortBy(le, raw);
    SortBySorted(le, raw);
    MultisetDistinct(raw, r);
  }

  lemma {:induction false} ListSet<T>(s: set<T>) returns (r: seq<T>)
    ensures Distinct(r) && Elements(r) == s
    decreases s
  {
    if s == {} {
      r := [];
    } else {
      var x :| x in s;
      var rest := ListSet(s - {x});
      r := [x] + rest;
      assert Elements(r) == {x} + Elements(rest);
    }
  }

  /** Collects a set into a sorted vector. */
  method SortedVector<T(==,!new)>(le: (T, T) -> bool, s: set<T>) returns (r: seq<T>)
    requires TotalOrder(le)
    ensures r == Ascending(le, s)
  {
    var rest, raw := s, [];
    while rest != {}
      invariant Distinct(raw) && Elements(raw) == s - rest && rest <= s
      decreases rest
    {
      var x :| x in rest;
      assert Elements(raw + [x]) == Elements(raw) + {x};
      raw := raw + [x];
      rest := rest - {x};
    }
    r := SortBy(le, raw);
    SortBySorted(le, raw);
    MultisetDistinct(raw, r);
    SortedSetUnique(le, r, Ascending(le, s));
  }

  // ----- sums -----

  /** The sum of a measure over a map's values, in whatever order they are visited. */
  ghost function SumBy<K(!new), V>(f: V -> nat, m: map<K, V>): nat
    decreases m.Keys
  {
    if m.Keys == {} then 0
    else
      var k :| k in m.Keys;
      f(m[k]) + SumBy(f, m - {k})
  }

  lemma {:induction false} SumWithout<K(!new), V>(f: V -> nat, m: map<K, V>, k: K)
    requires k in m
    ensures SumBy(f, m) == f(m[k]) + SumBy(f, m - {k})
    decreases m.Keys
  {
    var chosen :| chosen in m.Keys && SumBy(f, m) == f(m[chosen]) + SumBy(f, m - {chosen});
    if chosen != k {
      SumWithout(f, m - {chosen}, k);
      SumWithout(f, m - {k}, chosen);
      assert m - {chosen} - {k} == m - {k} - {chosen};
    }
  }

  lemma {:induction false} SumInsert<K(!new), V>(f: V -> nat, m: map<K, V>, k: K, v: V)
    requires k !in m
    ensures SumBy(f, m[k := v]) == SumBy(f, m) + f(v)
  {
    SumWithout(f, m[k := v], k);
    assert m[k := v] - {k} == m;
  }

  lemma {:induction false} SameSums<K(!new), V, W>(f: V -> nat, m: map<K, V>, g: W -> nat, n: map<K, W>)
    requires m.Keys == n.Keys && forall k :: k in m ==> f(m[k]) == g(n[k])
    ensures SumBy(f, m) == SumBy(g, n)
    decreases m.Keys
  {
    if m.Keys != {} {
      var k :| k in m.Keys;
      SumWithout(f, m, k);
      SumWithout(g, n, k);
      SameSums(f, m - {k}, g, n - {k});
    } else {
      assert n.Keys == {};
    }
  }

  // ----- intervals and sizes -----

  predicate In(lo: nat, hi: nat, s: nat) {
    lo <= s < hi
  }

  function Interval(lo: nat, hi: nat): (s: set<nat>)
    ensures forall i :: i in s <==> lo <= i < hi
  {
    set i | lo <= i < hi && In(lo, hi, i)
  }

  lemma {:induction false} IntervalSize(lo: nat, hi: nat)
    requires lo <= hi
    ensures |Interval(lo, hi)| == hi - lo
    decreases hi
  {
    if lo < hi {
      IntervalSize(lo, hi - 1);
      assert Interval(lo, hi) == Interval(lo, hi - 1) + {hi - 1};
    } else {
      assert Interval(lo, hi) == {};
    }
  }

  ghost function Image<A(!new), B>(s: set<A>, f: A -> B): set<B> {
    set x | x in s :: f(x)
  }

  /** An injective image has as many elements. */
  lemma {:induction false} ImageSize<A(!new), B>(s: set<A>, f: A -> B)
    requires forall x, y :: f(x) == f(y) ==> x == y
    ensures |Image(s, f)| == |s|
  {
    if s != {} {
      var x :| x in s;
      ImageSize(s - {x}, f);
      assert Image(s, f) == Image(s - {x}, f) + {f(x)};
    }
  }

  method SumValues<K(==,!new), V>(f: V -> nat, m: map<K, V>) returns (n: nat)
    ensures n == SumBy(f, m)
  {
    n := 0;
    var rest := m;
    while rest.Keys != {}
      invariant n + SumBy(f, rest) == SumBy(f, m)
      decreases rest.Keys
    {
      var k :| k in rest.Keys;
      SumWithout(f, rest, k);
      n := n + f(rest[k]);
      rest := rest - {k};
    }
  }

  function SumSeq<T>(f: T -> nat, xs: seq<T>): nat {
    if |xs| == 0 then 0 else SumSeq(f, xs[..|xs| - 1]) + f(xs[|xs| - 1])
  }

  lemma {:induction false} SumSnoc<T>(f: T -> nat, xs: seq<T>, x: T)
    ensures SumSeq(f, xs + [x]) == SumSeq(f, xs) + f(x)
  {
    assert (xs + [x])[..|xs|] == xs;
  }

  lemma {:induction false} SumPrefix<T>(f: T -> nat, xs: seq<T>, n: nat)
    requires n <= |xs|
    ensures SumSeq(f, xs[..n]) <= SumSeq(f, xs)
    decreases |xs| - n
  {
    if n == |xs| {
      assert xs[..n] == xs;
    } else {
      SumPrefix(f, xs, n + 1);
      assert xs[..n + 1] == xs[..n] + [xs[n]];
      SumSnoc(f, xs[..n], xs[n]);
    }
  }

  // ----- text order: lexicographic on characters -----

  predicate TextLe(a: string, b: string) {
    a == [] || (b != [] && (a[0] < b[0] || (a[0] == b[0] && TextLe(a[1..], b[1..]))))
  }

  lemma {:induction false} TextLeTotal(a: string, b: string)
    ensures TextLe(a, b) || TextLe(b, a)
  {
    if a != [] && b != [] { TextLeTotal(a[1..], b[1..]); }
  }

  lemma {:induction false} TextLeAntisymmetric(a: string, b: string)
    requires TextLe(a, b) && TextLe(b, a)
    ensures a == b
  {
    if a != [] && b != [] {
      TextLeAntisymmetric(a[1..], b[1..]);
      assert a == [a[0]] + a[1..] && b == [b[0]] + b[1..];
    }
  }

  lemma {:induction false} TextLeTransitive(a: string, b: string, c: string)
    requires TextLe(a, b) && TextLe(b, c)
    ensures TextLe(a, c)
  {
    if a != [] && a[0] == b[0] && b[0] == c[0] { TextLeTransitive(a[1..], b[1..], c[1..]); }
  }

  predicate TextLess(a: string, b: string) {
    a != b && TextLe(a, b)
  }

  lemma {:induction false} TextOrder()
    ensures TotalOrder(TextLe)
  {
    forall a: string, b: string ensures TextLe(a, b) || TextLe(b, a) { TextLeTotal(a, b); }
    forall a: string, b: string | TextLe(a, b) && TextLe(b, a) ensures a == b { TextLeAntisymmetric(a, b); }
    forall a: string, b: string, c: string | TextLe(a, b) && TextLe(b, c) ensures TextLe(a, c) {
      TextLeTransitive(a, b, c);
    }
  }

  /** The decimal form of a number. */
  function Decimal(n: nat): string {
    (if n < 10 then "" else Decimal(n / 10)) + [(n % 10) as char + '0']
  }
}
