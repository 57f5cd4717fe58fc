/** Matrix products and elementwise operations, as the witness backend computes them. */
module TensorOps {
  import opened Prelude
  import opened Program
  import opened FixedPoint

  /** Logical sizes: `m` by `k` times `k` by `n`; a flag says the operand is stored transposed. */
  datatype Shape = Shape(m: nat, n: nat, k: nat, transA: bool, transB: bool)

  // ----- row-major matrices -----

  function Row<T>(row: nat, columns: nat, f: (nat, nat) -> T): (r: seq<T>)
    ensures |r| == columns && forall c :: 0 <= c < columns ==> r[c] == f(row, c)
  {
    seq(columns, c requires 0 <= c < columns => f(row, c))
  }

  /** The entries given by a function, row after row. */
  function Matrix<T>(rows: nat, columns: nat, f: (nat, nat) -> T): seq<T> {
    if rows == 0 then [] else Matrix(rows - 1, columns, f) + Row(rows - 1, columns, f)
  }

  lemma {:induction false} OneMoreRow(rows: nat, columns: nat)
    ensures (rows + 1) * columns == rows * columns + columns
  {
  }

  lemma {:induction false} MatrixSize<T>(rows: nat, columns: nat, f: (nat, nat) -> T)
    ensures |Matrix(rows, columns, f)| == rows * columns
  {
    if rows > 0 {
      MatrixSize(rows - 1, columns, f);
      OneMoreRow(rows - 1, columns);
    }
  }

  /** Row-major positions stay inside the matrix and hold the entry of their row and column. */
  lemma {:induction false} MatrixAt<T>(rows: nat, columns: nat, f: (nat, nat) -> T, r: nat, c: nat)
    requires r < rows && c < columns
    ensures r * columns + c < |Matrix(rows, columns, f)| && Matrix(rows, columns, f)[r * columns + c] == f(r, c)
    decreases rows
  {
    MatrixSize(rows - 1, columns, f);
    if r < rows - 1 {
      MatrixAt(rows - 1, columns, f, r, c);
    }
  }

  lemma {:induction false} FlatPosition(rows: nat, columns: nat, r: nat, c: nat)
    requires r < rows && c < columns
    ensures r * columns + c < rows * columns
  {
    MatrixAt(rows, columns, (x, y) => 0, r, c);
    MatrixSize(rows, columns, (x, y) => 0);
  }

  lemma {:induction false} RowAndColumn(rows: nat, columns: nat, p: nat) returns (r: nat, c: nat)
    requires p < rows * columns
    ensures r < rows && c < columns && p == r * columns + c
    decreases rows
  {
    OneMoreRow(rows - 1, columns);
    if p < (rows - 1) * columns {
      r, c := RowAndColumn(rows - 1, columns, p);
    } else {
      r, c := rows - 1, p - (rows - 1) * columns;
    }
  }

  ghost predicate HoldsAt<T>(x: seq<T>, columns: nat, f: (nat, nat) -> T, r: nat, c: nat) {
    r * columns + c < |x| && x[r * columns + c] == f(r, c)
  }

  lemma {:induction false} MatrixDetermined<T>(rows: nat, columns: nat, f: (nat, nat) -> T, x: seq<T>)
    requires |x| == rows * columns
    requires forall r: nat, c: nat :: r < rows && c < columns ==> HoldsAt(x, columns, f, r, c)
    ensures x == Matrix(rows, columns, f)
  {
    MatrixSize(rows, columns, f);
    forall p | 0 <= p < |x| ensures x[p] == Matrix(rows, columns, f)[p] {
      var r, c := RowAndColumn(rows, columns, p);
      assert HoldsAt(x, columns, f, r, c);
      MatrixAt(rows, columns, f, r, c);
    }
  }

  lemma {:induction false} MatrixSame<T>(rows: nat, columns: nat, f: (nat, nat) -> T, g: (nat, nat) -> T)
    requires forall r: nat, c: nat :: r < rows && c < columns ==> f(r, c) == g(r, c)
    ensures Matrix(rows, columns, f) == Matrix(rows, columns, g)
  {
    if rows > 0 {
      MatrixSame(rows - 1, columns, f, g);
      assert Row(rows - 1, columns, f) == Row(rows - 1, columns, g);
    }
  }

  // ----- where entries are stored -----

  function APos(s: Shape, row: nat, inner: nat): nat {
    if s.transA then inner * s.m + row else row * s.k + inner
  }

  function BPos(s: Shape, inner: nat, column: nat): nat {
    if s.transB then column * s.k + inner else inner * s.n + column
  }

  ghost predicate Stores(s: Shape, a: Tensor, b: Tensor) {
    |a| == s.m * s.k && |b| == s.k * s.n
  }

  lemma {:induction false} Commutes(x: nat, y: nat)
    ensures x * y == y * x
  {
  }

  /** Every entry a product reads is in bounds. */
  lemma {:induction false} PositionsInBounds(s: Shape, row: nat, inner: nat, column: nat)
    requires row < s.m && inner < s.k && column < s.n
    ensures APos(s, row, inner) < s.m * s.k && BPos(s, inner, column) < s.k * s.n
  {
    Commutes(s.m, s.k);
    Commutes(s.n, s.k);
    FlatPosition(s.m, s.k, row, inner);
    FlatPosition(s.k, s.m, inner, row);
    FlatPosition(s.k, s.n, inner, column);
    FlatPosition(s.n, s.k, column, inner);
  }

  function EntryAt(x: Tensor, p: nat): I18 {
    if p < |x| then x[p] else 0
  }

  function AEntry(s: Shape, a: Tensor, row: nat, inner: nat): int { EntryAt(a, APos(s, row, inner)) }

  function BEntry(s: Shape, b: Tensor, inner: nat, column: nat): int { EntryAt(b, BPos(s, inner, column)) }

  // ----- one entry of a product -----

  function Term(s: Shape, a: Tensor, b: Tensor, row: nat, column: nat, i: nat): int {
    Times(AEntry(s, a, row, i), BEntry(s, b, i, column))
  }

  function Times(x: int, y: int): int { x * y }

  /** The exact sum of the first `l` products of a row and a column. */
  function Dot(s: Shape, a: Tensor, b: Tensor, row: nat, column: nat, l: nat): int {
    if l == 0 then 0
    else Dot(s, a, b, row, column, l - 1) + Term(s, a, b, row, column, l - 1)
  }

  ghost predicate PartialSumsFit(s: Shape, a: Tensor, b: Tensor, row: nat, column: nat, l: nat) {
    forall j: nat {:trigger Dot(s, a, b, row, column, j)} :: j <= l ==> InI128(Dot(s, a, b, row, column, j))
  }

  /** The rounded quotient, provided no partial sum overflows on the way. */
  ghost function DotEntry(s: Shape, a: Tensor, b: Tensor, row: nat, column: nat): (r: Option<I18>)
    ensures r.Some? ==> RoundsTo(Dot(s, a, b, row, column, s.k), r.value)
  {
    if PartialSumsFit(s, a, b, row, column, s.k) && RequantizeRaw(Dot(s, a, b, row, column, s.k)).Some?
    then Some(RequantizeRaw(Dot(s, a, b, row, column, s.k)).value.0) else None
  }

  method ComputeEntry(s: Shape, a: Tensor, b: Tensor, row: nat, column: nat) returns (r: Option<I18>)
    requires Stores(s, a, b) && row < s.m && column < s.n
    ensures r == DotEntry(s, a, b, row, column)
  {
    var sum := 0;
    for inner := 0 to s.k
      invariant sum == Dot(s, a, b, row, column, inner) && PartialSumsFit(s, a, b, row, column, inner)
    {
      PositionsInBounds(s, row, inner, column);
      var x: int, y: int := a[APos(s, row, inner)], b[BPos(s, inner, column)];
      assert x == AEntry(s, a, row, inner) && y == BEntry(s, b, inner, column);
      var product := Times(x, y);
      var next: int := sum + product;
      assert next == Dot(s, a, b, row, column, inner + 1);
      if !InI128(next) {
        return None;
      }
      sum := next;
    }
    var requantized := RequantizeRaw(sum);
    r := if requantized.Some? then Some(requantized.value.0) else None;
  }

  // ----- the whole product -----

  ghost function EntryFunction(s: Shape, a: Tensor, b: Tensor): (nat, nat) -> Option<I18> {
    (row, column) => DotEntry(s, a, b, row, column)
  }

  ghost function Product(s: Shape, a: Tensor, b: Tensor): Option<Tensor> {
    Collect(Matrix(s.m, s.n, EntryFunction(s, a, b)))
  }

  /** Batched products are not supported; sizes must multiply within 64 bits and match the operands. */
  ghost function MatrixProduct(s: Shape, batchDims: seq<nat>, operands: seq<Tensor>): Option<Tensor> {
    if |batchDims| > 0 || |operands| != 2 then None
    else if s.m * s.k >= U64_BOUND || s.k * s.n >= U64_BOUND || !Stores(s, operands[0], operands[1]) then None
    else if s.m * s.n >= U64_BOUND then None
    else Product(s, operands[0], operands[1])
  }

  ghost predicate Holds(options: seq<Option<I18>>, values: Tensor) {
    |options| == |values| && forall p :: 0 <= p < |values| ==> options[p] == Some(values[p])
  }

  method ComputeRow(s: Shape, a: Tensor, b: Tensor, row: nat) returns (r: Option<Tensor>)
    requires Stores(s, a, b) && row < s.m
    ensures r == Collect(Row(row, s.n, EntryFunction(s, a, b)))
  {
    var values: Tensor := [];
    ghost var entries := Row(row, s.n, EntryFunction(s, a, b));
    for column := 0 to s.n
      invariant Holds(entries[..column], values)
    {
      var entry := ComputeEntry(s, a, b, row, column);
      assert entries[column] == entry;
      if entry.None? {
        return None;
      }
      values := values + [entry.value];
    }
    assert entries[..s.n] == entries;
    CollectedIs(entries, values);
    r := Some(values);
  }

  lemma {:induction false} CollectedIs(options: seq<Option<I18>>, values: Tensor)
    requires Holds(options, values)
    ensures Collect(options) == Some(values)
  {
    assert Collect(options).value == values;
  }

  lemma {:induction false} CollectJoin(x: seq<Option<I18>>, y: seq<Option<I18>>)
    ensures Collect(x + y) == if Collect(x).Some? && Collect(y).Some? then Some(Collect(x).value + Collect(y).value)
      else None
  {
    if Collect(x).Some? && Collect(y).Some? {
      CollectedIs(x + y, Collect(x).value + Collect(y).value);
    } else if Collect(x).None? {
      var k :| 0 <= k < |x| && x[k].None?;
      assert (x + y)[k].None?;
    } else {
      var k :| 0 <= k < |y| && y[k].None?;
      assert (x + y)[|x| + k].None?;
    }
  }

  /** A failing row makes the whole product fail. */
  lemma {:induction false} RowFails(s: Shape, a: Tensor, b: Tensor, rows: nat)
    requires rows <= s.m && Collect(Matrix(rows, s.n, EntryFunction(s, a, b))).None?
    ensures Product(s, a, b).None?
    decreases s.m - rows
  {
    if rows < s.m {
      CollectJoin(Matrix(rows, s.n, EntryFunction(s, a, b)), Row(rows, s.n, EntryFunction(s, a, b)));
      RowFails(s, a, b, rows + 1);
    }
  }

  method ComputeDotGeneral(s: Shape, batchDims: seq<nat>, operands: seq<Tensor>) returns (r: Option<Tensor>)
    ensures r == MatrixProduct(s, batchDims, operands)
  {
    if |batchDims| > 0 || |operands| != 2 {
      return None;
    }
    var a, b := operands[0], operands[1];
    if s.m * s.k >= U64_BOUND || s.k * s.n >= U64_BOUND || |a| != s.m * s.k || |b| != s.k * s.n
      || s.m * s.n >= U64_BOUND
    {
      return None;
    }
    r := ComputeProduct(s, a, b);
  }

  method ComputeProduct(s: Shape, a: Tensor, b: Tensor) returns (r: Option<Tensor>)
    requires Stores(s, a, b)
    ensures r == Product(s, a, b)
  {
    var output: Tensor := [];
    for row := 0 to s.m
      invariant Collect(Matrix(row, s.n, EntryFunction(s, a, b))) == Some(output)
    {
      var next := ComputeRow(s, a, b, row);
      CollectJoin(Matrix(row, s.n, EntryFunction(s, a, b)), Row(row, s.n, EntryFunction(s, a, b)));
      if next.None? {
        RowFails(s, a, b, row + 1);
        return None;
      }
      output := output + next.value;
    }
    r := Some(output);
  }

  /** An entry of the output is its exact sum divided by the scale, rounded down. */
  ghost predicate EntryRounds(s: Shape, a: Tensor, b: Tensor, t: Tensor, row: nat, column: nat) {
    row * s.n + column < |t| && RoundsTo(Dot(s, a, b, row, column, s.k), t[row * s.n + column])
  }

  /** Each output, times the scale, is its exact sum up to a remainder below the scale. */
  lemma {:induction false} ProductRounds(s: Shape, a: Tensor, b: Tensor, t: Tensor, row: nat, column: nat)
    requires Product(s, a, b) == Some(t) && row < s.m && column < s.n
    ensures |t| == s.m * s.n && EntryRounds(s, a, b, t, row, column)
  {
    var p := row * s.n + column;
    MatrixSize(s.m, s.n, EntryFunction(s, a, b));
    MatrixAt(s.m, s.n, EntryFunction(s, a, b), row, column);
    EntryFound(s, a, b, t, row, column, p);
  }

  lemma {:induction false} EntryFound(s: Shape, a: Tensor, b: Tensor, t: Tensor, row: nat, column: nat, p: nat)
    requires Product(s, a, b) == Some(t) && p < |t|
    requires Matrix(s.m, s.n, EntryFunction(s, a, b))[p] == DotEntry(s, a, b, row, column)
    ensures RoundsTo(Dot(s, a, b, row, column, s.k), t[p])
  {
    assert DotEntry(s, a, b, row, column) == Some(t[p]);
  }

  // ----- transposition -----

  ghost function StoredEntry(x: Tensor, columns: nat): (nat, nat) -> I18 {
    (r: nat, c: nat) => EntryAt(x, r * columns + c)
  }

  /** The entries of the transpose of a stored matrix. */
  ghost function FlippedEntry(x: Tensor, columns: nat): (nat, nat) -> I18 {
    (c: nat, r: nat) => EntryAt(x, r * columns + c)
  }

  /** The transpose of a row-major matrix. */
  ghost function Transposed(x: Tensor, rows: nat, columns: nat): Tensor {
    Matrix(columns, rows, FlippedEntry(x, columns))
  }

  lemma {:induction false} TransposedAt(x: Tensor, rows: nat, columns: nat, r: nat, c: nat)
    requires r < rows && c < columns
    ensures c * rows + r < |Transposed(x, rows, columns)|
    ensures EntryAt(Transposed(x, rows, columns), c * rows + r) == EntryAt(x, r * columns + c)
  {
    MatrixAt(columns, rows, FlippedEntry(x, columns), c, r);
  }

  lemma {:induction false} StoredIs(x: Tensor, rows: nat, columns: nat)
    requires |x| == rows * columns
    ensures x == Matrix(rows, columns, StoredEntry(x, columns))
  {
    forall r: nat, c: nat | r < rows && c < columns ensures HoldsAt(x, columns, StoredEntry(x, columns), r, c) {
      FlatPosition(rows, columns, r, c);
    }
    MatrixDetermined(rows, columns, StoredEntry(x, columns), x);
  }

  lemma {:induction false} TransposedTwice(x: Tensor, rows: nat, columns: nat)
    requires |x| == rows * columns
    ensures Transposed(Transposed(x, rows, columns), columns, rows) == x
  {
    var once := Transposed(x, rows, columns);
    StoredIs(x, rows, columns);
    forall r: nat, c: nat | r < rows && c < columns
      ensures FlippedEntry(once, rows)(r, c) == StoredEntry(x, columns)(r, c)
    {
      TransposedAt(x, rows, columns, r, c);
    }
    MatrixSame(rows, columns, FlippedEntry(once, rows), StoredEntry(x, columns));
  }

  ghost predicate SameRow(s: Shape, a: Tensor, s': Shape, a': Tensor, row: nat) {
    forall i: nat :: i < s.k ==> AEntry(s, a, row, i) == AEntry(s', a', row, i)
  }

  ghost predicate SameColumn(s: Shape, b: Tensor, s': Shape, b': Tensor, column: nat) {
    forall i: nat :: i < s.k ==> BEntry(s, b, i, column) == BEntry(s', b', i, column)
  }

  /** A product depends only on the entries it reads. */
  lemma {:induction false} DotDependsOnEntries(
      s: Shape, a: Tensor, b: Tensor, s': Shape, a': Tensor, b': Tensor, row: nat, column: nat, l: nat)
    requires s.k == s'.k && l <= s.k && SameRow(s, a, s', a', row) && SameColumn(s, b, s', b', column)
    ensures Dot(s, a, b, row, column, l) == Dot(s', a', b', row, column, l)
  {
    if l > 0 {
      DotDependsOnEntries(s, a, b, s', a', b', row, column, l - 1);
      assert AEntry(s, a, row, l - 1) == AEntry(s', a', row, l - 1)
        && BEntry(s, b, l - 1, column) == BEntry(s', b', l - 1, column);
    }
  }

  lemma {:induction false} EntryDependsOnEntries(
      s: Shape, a: Tensor, b: Tensor, s': Shape, a': Tensor, b': Tensor, row: nat, column: nat)
    requires s.k == s'.k && SameRow(s, a, s', a', row) && SameColumn(s, b, s', b', column)
    ensures DotEntry(s, a, b, row, column) == DotEntry(s', a', b', row, column)
  {
    forall l: nat | l <= s.k ensures Dot(s, a, b, row, column, l) == Dot(s', a', b', row, column, l) {
      DotDependsOnEntries(s, a, b, s', a', b', row, column, l);
    }
    assert PartialSumsFit(s, a, b, row, column, s.k) == PartialSumsFit(s', a', b', row, column, s.k);
  }

  lemma {:induction false} ProductDependsOnEntries(s: Shape, a: Tensor, b: Tensor, s': Shape, a': Tensor, b': Tensor)
    requires s.m == s'.m && s.n == s'.n && s.k == s'.k
    requires forall row: nat :: row < s.m ==> SameRow(s, a, s', a', row)
    requires forall column: nat :: column < s.n ==> SameColumn(s, b, s', b', column)
    ensures Product(s, a, b) == Product(s', a', b')
  {
    forall row: nat, column: nat | row < s.m && column < s.n
      ensures EntryFunction(s, a, b)(row, column) == EntryFunction(s', a', b')(row, column)
    {
      EntryDependsOnEntries(s, a, b, s', a', b', row, column);
    }
    MatrixSame(s.m, s.n, EntryFunction(s, a, b), EntryFunction(s', a', b'));
  }

  /** A transposition flag on the first operand means the same as no flag on its transpose. */
  lemma {:induction false} FlagAIsTranspose(s: Shape, a: Tensor, b: Tensor)
    requires s.transA && |a| == s.k * s.m
    ensures Product(s, a, b) == Product(s.(transA := false), Transposed(a, s.k, s.m), b)
  {
    var plain, flipped := s.(transA := false), Transposed(a, s.k, s.m);
    forall row: nat | row < s.m ensures SameRow(s, a, plain, flipped, row) {
      forall i: nat | i < s.k ensures AEntry(s, a, row, i) == AEntry(plain, flipped, row, i) {
        TransposedAt(a, s.k, s.m, i, row);
      }
    }
    ProductDependsOnEntries(s, a, b, plain, flipped, b);
  }

  /** A transposition flag on the second operand means the same as no flag on its transpose. */
  lemma {:induction false} FlagBIsTranspose(s: Shape, a: Tensor, b: Tensor)
    requires s.transB && |b| == s.n * s.k
    ensures Product(s, a, b) == Product(s.(transB := false), a, Transposed(b, s.n, s.k))
  {
    var plain, flipped := s.(transB := false), Transposed(b, s.n, s.k);
    forall column: nat | column < s.n ensures SameColumn(s, b, plain, flipped, column) {
      forall i: nat | i < s.k ensures BEntry(s, b, i, column) == BEntry(plain, flipped, i, column) {
        TransposedAt(b, s.n, s.k, column, i);
      }
    }
    ProductDependsOnEntries(s, a, b, plain, a, flipped);
  }

  // ----- elementwise operations -----

  function ElementOf(op: EltwiseOp, x: I18, y: I18): Option<I18> {
    match op
    case Add => if InI64(x + y) then Some(x + y) else None
    case Mul => (match RequantizeRaw(x * y) case None => None case Some(qr) => Some(qr.0))
    case Relu => None
  }

  function Max(x: nat, y: nat): nat { if x < y then y else x }

  /** Both lengths are nonzero and divide the longer one. */
  predicate Broadcasts(x: nat, y: nat) {
    x > 0 && y > 0 && Max(x, y) % x == 0 && Max(x, y) % y == 0
  }

  function BroadcastElements(op: EltwiseOp, a: Tensor, b: Tensor): (r: seq<Option<I18>>)
    requires |a| > 0 && |b| > 0
    ensures |r| == Max(|a|, |b|) && forall p :: 0 <= p < |r| ==> r[p] == ElementOf(op, a[p % |a|], b[p % |b|])
  {
    seq(Max(|a|, |b|), p requires 0 <= p < Max(|a|, |b|) => ElementOf(op, a[p % |a|], b[p % |b|]))
  }

  function Elementwise(op: EltwiseOp, operands: seq<Tensor>): Option<Tensor> {
    if op.Relu? || |operands| != 2 || !Broadcasts(|operands[0]|, |operands[1]|) then None
    else Collect(BroadcastElements(op, operands[0], operands[1]))
  }

  // ----- what elementwise operations compute -----

  /** One length is a multiple of the other, and neither is zero. */
  predicate Divide(x: nat, y: nat) {
    x > 0 && y > 0 && (x % y == 0 || y % x == 0)
  }

  lemma {:induction false} BroadcastsExact(x: nat, y: nat)
    ensures Broadcasts(x, y) <==> Divide(x, y)
  {
    if x > 0 && y > 0 {
      assert x % x == 0 && y % y == 0;
    }
  }

  /** The entry an operand has at a position of the longer one. */
  function Along(x: Tensor, p: nat): int
    requires |x| > 0
  {
    x[p % |x|]
  }

  function Longer(a: Tensor, b: Tensor): nat {
    if |a| < |b| then |b| else |a|
  }

  ghost predicate SumsFit(a: Tensor, b: Tensor) {
    |a| > 0 && |b| > 0 && forall p: nat :: p < Longer(a, b) ==>
      -0x8000_0000_0000_0000 <= Along(a, p) + Along(b, p) < 0x8000_0000_0000_0000
  }

  ghost predicate AreSums(a: Tensor, b: Tensor, t: Tensor) {
    && |a| > 0 && |b| > 0 && |t| == Longer(a, b)
    && forall p: nat :: p < |t| ==> t[p] == Along(a, p) + Along(b, p)
  }

  /** Adding elementwise is exact: it succeeds exactly when every sum fits 64 bits, and gives those sums. */
  lemma {:induction false} ElementwiseAdds(a: Tensor, b: Tensor)
    ensures Elementwise(Add, [a, b]).Some? <==> Divide(|a|, |b|) && SumsFit(a, b)
    ensures Elementwise(Add, [a, b]).Some? ==> AreSums(a, b, Elementwise(Add, [a, b]).value)
  {
    BroadcastsExact(|a|, |b|);
    if Divide(|a|, |b|) {
      var entries := BroadcastElements(Add, a, b);
      forall p: nat | p < |entries|
        ensures entries[p] == (if InI64(Along(a, p) + Along(b, p)) then Some(Along(a, p) + Along(b, p)) else None)
      {
      }
    }
  }

  ghost predicate ProductsFit(a: Tensor, b: Tensor) {
    |a| > 0 && |b| > 0 && forall p: nat :: p < Longer(a, b) ==>
      -0x8000_0000_0000_0000 * SCALE_18 <= Times(Along(a, p), Along(b, p)) < 0x8000_0000_0000_0000 * SCALE_18
  }

  ghost predicate AreProducts(a: Tensor, b: Tensor, t: Tensor) {
    && |a| > 0 && |b| > 0 && |t| == Longer(a, b)
    && forall p: nat :: p < |t| ==> RoundsTo(Times(Along(a, p), Along(b, p)), t[p])
  }

  lemma {:induction false} MultipliedEntry(x: I18, y: I18)
    ensures var r, product := ElementOf(Mul, x, y), Times(x, y);
      && (r.Some? <==> -0x8000_0000_0000_0000 * SCALE_18 <= product < 0x8000_0000_0000_0000 * SCALE_18)
      && (r.Some? ==> RoundsTo(product, r.value))
  {
    assert ElementOf(Mul, x, y)
      == match RequantizeRaw(Times(x, y)) { case None => None case Some(qr) => Some(qr.0) };
  }

  /** Multiplying elementwise rounds each product down, and succeeds exactly when every quotient fits 64 bits. */
  lemma {:induction false} ElementwiseMultiplies(a: Tensor, b: Tensor)
    ensures Elementwise(Mul, [a, b]).Some? <==> Divide(|a|, |b|) && ProductsFit(a, b)
    ensures Elementwise(Mul, [a, b]).Some? ==> AreProducts(a, b, Elementwise(Mul, [a, b]).value)
  {
    BroadcastsExact(|a|, |b|);
    if Divide(|a|, |b|) {
      var entries := BroadcastElements(Mul, a, b);
      forall p: nat | p < |entries|
        ensures entries[p].Some? <==>
          -0x8000_0000_0000_0000 * SCALE_18 <= Times(Along(a, p), Along(b, p)) < 0x8000_0000_0000_0000 * SCALE_18
        ensures entries[p].Some? ==> RoundsTo(Times(Along(a, p), Along(b, p)), entries[p].value)
      {
        MultipliedEntry(a[p % |a|], b[p % |b|]);
      }
    }
  }

  // ----- the identity matrix -----

  /** One at the scale on the diagonal, zero elsewhere. */
  ghost function IdentityEntry(): (nat, nat) -> I18 {
    (r: nat, c: nat) => if r == c then SCALE_18 else 0
  }

  ghost function Identity(n: nat): Tensor {
    Matrix(n, n, IdentityEntry())
  }

  lemma {:induction false} IdentityAt(n: nat, r: nat, c: nat)
    requires r < n && c < n
    ensures |Identity(n)| == n * n && EntryAt(Identity(n), r * n + c) == if r == c then SCALE_18 else 0
  {
    MatrixSize(n, n, IdentityEntry());
    MatrixAt(n, n, IdentityEntry(), r, c);
  }

  /** A sum whose terms vanish but for one. */
  lemma {:induction false} DotPicks(s: Shape, a: Tensor, b: Tensor, row: nat, column: nat, at: nat, value: int, l: nat)
    requires forall i: nat :: i < s.k ==> Term(s, a, b, row, column, i) == if i == at then value else 0
    requires l <= s.k
    ensures Dot(s, a, b, row, column, l) == if at < l then value else 0
  {
    if l > 0 {
      DotPicks(s, a, b, row, column, at, value, l - 1);
    }
  }

  lemma {:induction false} EntryPicks(s: Shape, a: Tensor, b: Tensor, row: nat, column: nat, at: nat, x: I18)
    requires forall i: nat :: i < s.k ==> Term(s, a, b, row, column, i) == if i == at then x * SCALE_18 else 0
    requires at < s.k
    ensures DotEntry(s, a, b, row, column) == Some(x)
  {
    forall l: nat | l <= s.k ensures InI128(Dot(s, a, b, row, column, l)) {
      DotPicks(s, a, b, row, column, at, x * SCALE_18, l);
    }
    DotPicks(s, a, b, row, column, at, x * SCALE_18, s.k);
    RoundsOnce(x * SCALE_18, (x * SCALE_18) / SCALE_18, x);
  }

  lemma {:induction false} ProductIs(s: Shape, a: Tensor, b: Tensor, t: Tensor)
    requires |t| == s.m * s.n
    requires forall r: nat, c: nat :: r < s.m && c < s.n ==> DotEntry(s, a, b, r, c) == Some(EntryAt(t, r * s.n + c))
    ensures Product(s, a, b) == Some(t)
  {
    var present := seq(|t|, p requires 0 <= p < |t| => Some(t[p]));
    forall r: nat, c: nat | r < s.m && c < s.n ensures HoldsAt(present, s.n, EntryFunction(s, a, b), r, c) {
      FlatPosition(s.m, s.n, r, c);
    }
    MatrixDetermined(s.m, s.n, EntryFunction(s, a, b), present);
    CollectedIs(present, t);
  }

  /** Multiplying by the identity from the left gives the matrix back, with no rounding. */
  lemma {:induction false} LeftIdentity(rows: nat, columns: nat, b: Tensor)
    requires |b| == rows * columns
    ensures Product(Shape(rows, columns, rows, false, false), Identity(rows), b) == Some(b)
  {
    var s, one := Shape(rows, columns, rows, false, false), Identity(rows);
    forall r: nat, c: nat | r < s.m && c < s.n ensures DotEntry(s, one, b, r, c) == Some(EntryAt(b, r * s.n + c)) {
      forall i: nat | i < s.k
        ensures Term(s, one, b, r, c, i) == if i == r then EntryAt(b, r * s.n + c) * SCALE_18 else 0
      {
        IdentityAt(rows, r, i);
      }
      EntryPicks(s, one, b, r, c, r, EntryAt(b, r * s.n + c));
    }
    ProductIs(s, one, b, b);
  }

  /** Multiplying by the identity from the right does too. */
  lemma {:induction false} RightIdentity(rows: nat, columns: nat, a: Tensor)
    requires |a| == rows * columns
    ensures Product(Shape(rows, columns, columns, false, false), a, Identity(columns)) == Some(a)
  {
    var s, one := Shape(rows, columns, columns, false, false), Identity(columns);
    forall r: nat, c: nat | r < s.m && c < s.n ensures DotEntry(s, a, one, r, c) == Some(EntryAt(a, r * s.n + c)) {
      forall i: nat | i < s.k
        ensures Term(s, a, one, r, c, i) == if i == c then EntryAt(a, r * s.n + c) * SCALE_18 else 0
      {
        IdentityAt(columns, i, c);
      }
      EntryPicks(s, a, one, r, c, c, EntryAt(a, r * s.n + c));
    }
    ProductIs(s, a, one, a);
  }
}
