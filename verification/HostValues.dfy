/** The assembler's own arithmetic, and where it agrees with the witness backend's. */
module HostValues {
  import opened Prelude
  import opened Program
  import opened Assembler
  import opened FixedPoint
  import opened TensorOps

  /** Unchecked machine arithmetic can also panic, or overflow while computing a length. */
  datatype Outcome = Value(tensor: Tensor) | Rejected | Panics | LengthOverflow

  // ----- matrix products -----

  /**
   * The assembler sums with plain additions. This is what a build without overflow checks computes, such as one in
   * the default release profile: every addition wraps around. A build with overflow checks panics instead at the
   * first partial sum that does not fit, which is where `PartialSumsFit` fails.
   */
  function HostSum(s: Shape, a: Tensor, b: Tensor, row: nat, column: nat, l: nat): int {
    if l == 0 then 0
    else Wrap128(HostSum(s, a, b, row, column, l - 1) + Term(s, a, b, row, column, l - 1))
  }

  function HostEntry(s: Shape, a: Tensor, b: Tensor, row: nat, column: nat): Option<I18> {
    match RequantizeRaw(HostSum(s, a, b, row, column, s.k))
    case None => None
    case Some(qr) => Some(qr.0)
  }

  ghost function HostEntryFunction(s: Shape, a: Tensor, b: Tensor): (nat, nat) -> Option<I18> {
    (row, column) => HostEntry(s, a, b, row, column)
  }

  /** Only inner sizes with a configured chip are accepted; a chip cannot be configured for size zero. */
  ghost function HostDotGeneral(configured: set<nat>, s: Shape, batchDims: seq<nat>, operands: seq<Tensor>): Outcome
    requires 0 !in configured
  {
    if |batchDims| > 0 || |operands| != 2 then Rejected
    else if s.m * s.k >= U64_BOUND || s.k * s.n >= U64_BOUND then LengthOverflow
    else if !Stores(s, operands[0], operands[1]) || s.k !in configured then Rejected
    else
      match Collect(Matrix(s.m, s.n, HostEntryFunction(s, operands[0], operands[1])))
      case None => Rejected
      case Some(t) => Value(t)
  }

  lemma {:induction false} HostSumWraps(s: Shape, a: Tensor, b: Tensor, row: nat, column: nat, l: nat)
    ensures HostSum(s, a, b, row, column, l) == Wrap128(Dot(s, a, b, row, column, l))
  {
    if l == 0 {
      WrapUnique(0, 0);
    } else {
      HostSumWraps(s, a, b, row, column, l - 1);
      WrapAdd(Dot(s, a, b, row, column, l - 1), Term(s, a, b, row, column, l - 1));
    }
  }

  /** An entry the assembler accepts is the rounded exact sum exactly when that sum fits 128 bits. */
  lemma {:induction false} HostEntryExact(s: Shape, a: Tensor, b: Tensor, row: nat, column: nat)
    requires HostEntry(s, a, b, row, column).Some?
    ensures var sum := Dot(s, a, b, row, column, s.k); RoundsTo(sum, HostEntry(s, a, b, row, column).value) <==>
      InI128(sum)
  {
    HostSumWraps(s, a, b, row, column, s.k);
    WrappedRounds(Dot(s, a, b, row, column, s.k), HostEntry(s, a, b, row, column).value);
  }

  /** The witness backend accepts an entry exactly when the assembler does and no partial sum overflows. */
  lemma {:induction false} WitnessEntryExact(s: Shape, a: Tensor, b: Tensor, row: nat, column: nat, q: I18)
    ensures DotEntry(s, a, b, row, column) == Some(q) <==>
      PartialSumsFit(s, a, b, row, column, s.k) && HostEntry(s, a, b, row, column) == Some(q)
  {
    HostSumWraps(s, a, b, row, column, s.k);
    var sum := Dot(s, a, b, row, column, s.k);
    if InI128(sum) { WrapUnique(sum, sum); }
    assert PartialSumsFit(s, a, b, row, column, s.k) ==> InI128(sum);
  }

  const LEAST: I18 := -0x8000_0000_0000_0000
  const GREATEST: I18 := 0x7fff_ffff_ffff_ffff

  lemma {:induction false} FourTerms(a: Tensor, b: Tensor)
    requires |a| == 4 && |b| == 4
    ensures var s := Shape(1, 1, 4, false, false);
      && Dot(s, a, b, 0, 0, 2) == Times(a[0], b[0]) + Times(a[1], b[1])
      && Dot(s, a, b, 0, 0, 4) == Times(a[0], b[0]) + Times(a[1], b[1]) + Times(a[2], b[2]) + Times(a[3], b[3])
  {
    var s := Shape(1, 1, 4, false, false);
    assert Dot(s, a, b, 0, 0, 1) == Times(a[0], b[0]);
    assert Dot(s, a, b, 0, 0, 2) == Dot(s, a, b, 0, 0, 1) + Times(a[1], b[1]);
    assert Dot(s, a, b, 0, 0, 3) == Dot(s, a, b, 0, 0, 2) + Times(a[2], b[2]);
    assert Dot(s, a, b, 0, 0, 4) == Dot(s, a, b, 0, 0, 3) + Times(a[3], b[3]);
  }

  lemma {:induction false} EntryOf(s: Shape, a: Tensor, b: Tensor, sum: int, wrapped: int, q: I18)
    requires Dot(s, a, b, 0, 0, s.k) == sum && InI128(wrapped) && (wrapped - sum) % (2 * I128_BOUND) == 0
    requires RoundsTo(wrapped, q)
    ensures HostEntry(s, a, b, 0, 0) == Some(q)
  {
    HostSumWraps(s, a, b, 0, 0, s.k);
    WrapUnique(sum, wrapped);
    RoundsOnce(wrapped, wrapped / SCALE_18, q);
  }

  lemma {:induction false} OverflowRejected(s: Shape, a: Tensor, b: Tensor, l: nat)
    requires l <= s.k && !InI128(Dot(s, a, b, 0, 0, l))
    ensures DotEntry(s, a, b, 0, 0) == None
  {
    assert !PartialSumsFit(s, a, b, 0, 0, s.k);
  }

  /** An overflowing product the assembler takes for zero; the witness backend rejects it. */
  lemma {:induction false} HostAcceptsWrapped()
    ensures var s, a := Shape(1, 1, 4, false, false), [LEAST, LEAST, LEAST, LEAST];
      && HostEntry(s, a, a, 0, 0) == Some(0)
      && Dot(s, a, a, 0, 0, 4) == 2 * I128_BOUND
      && DotEntry(s, a, a, 0, 0) == None
  {
    var s, a := Shape(1, 1, 4, false, false), [LEAST, LEAST, LEAST, LEAST];
    FourTerms(a, a);
    EntryOf(s, a, a, 2 * I128_BOUND, 0, 0);
    OverflowRejected(s, a, a, 4);
  }

  /**
   * A product whose sum fits although a partial sum does not: the assembler gets it right, the witness backend rejects
   * it.
   */
  lemma {:induction false} HostAcceptsMore()
    ensures var s, a, b :=
      Shape(1, 1, 4, false, false), [LEAST, LEAST, LEAST, LEAST], [LEAST, LEAST, GREATEST, GREATEST];
      HostEntry(s, a, b, 0, 0) == Some(18) && RoundsTo(Dot(s, a, b, 0, 0, 4), 18) && DotEntry(s, a, b, 0, 0) == None
  {
    var s, a, b := Shape(1, 1, 4, false, false), [LEAST, LEAST, LEAST, LEAST], [LEAST, LEAST, GREATEST, GREATEST];
    FourTerms(a, b);
    EntryOf(s, a, b, 2 * I64_BOUND, 2 * I64_BOUND, 18);
    OverflowRejected(s, a, b, 2);
  }

  lemma {:induction false} CollectMonotone(x: seq<Option<I18>>, y: seq<Option<I18>>)
    requires |x| == |y| && Collect(x).Some?
    requires forall p :: 0 <= p < |x| ==> x[p].Some? ==> y[p] == x[p]
    ensures Collect(y) == Collect(x)
  {
    CollectedIs(y, Collect(x).value);
  }

  lemma {:induction false} MatrixMonotone(
      rows: nat, columns: nat, f: (nat, nat) -> Option<I18>, g: (nat, nat) -> Option<I18>)
    requires forall r: nat, c: nat :: r < rows && c < columns && f(r, c).Some? ==> g(r, c) == f(r, c)
    requires Collect(Matrix(rows, columns, f)).Some?
    ensures Collect(Matrix(rows, columns, g)) == Collect(Matrix(rows, columns, f))
  {
    if rows > 0 {
      CollectJoin(Matrix(rows - 1, columns, f), Row(rows - 1, columns, f));
      CollectJoin(Matrix(rows - 1, columns, g), Row(rows - 1, columns, g));
      MatrixMonotone(rows - 1, columns, f, g);
      CollectMonotone(Row(rows - 1, columns, f), Row(rows - 1, columns, g));
    }
  }

  /**
   * What the witness backend accepts, the assembler computes to the same values wherever the inner size is configured.
   */
  lemma {:induction false} WitnessProductIsHost(
      configured: set<nat>, s: Shape, batchDims: seq<nat>, operands: seq<Tensor>)
    requires 0 !in configured && s.k in configured
    requires MatrixProduct(s, batchDims, operands).Some?
    ensures HostDotGeneral(configured, s, batchDims, operands) == Value(MatrixProduct(s, batchDims, operands).value)
  {
    var a, b := operands[0], operands[1];
    EntriesAgree(s, a, b);
    MatrixMonotone(s.m, s.n, EntryFunction(s, a, b), HostEntryFunction(s, a, b));
  }

  lemma {:induction false} EntriesAgree(s: Shape, a: Tensor, b: Tensor)
    ensures forall r: nat, c: nat :: EntryFunction(s, a, b)(r, c).Some? ==>
      HostEntryFunction(s, a, b)(r, c) == EntryFunction(s, a, b)(r, c)
  {
    forall r: nat, c: nat | EntryFunction(s, a, b)(r, c).Some?
      ensures HostEntryFunction(s, a, b)(r, c) == EntryFunction(s, a, b)(r, c)
    {
      WitnessEntryExact(s, a, b, r, c, DotEntry(s, a, b, r, c).value);
    }
  }

  /** The assembler gives a product only of stored operands whose lengths fit 64 bits, for an inner size with a chip. */
  lemma {:induction false} HostProductSized(
      configured: set<nat>, s: Shape, batchDims: seq<nat>, operands: seq<Tensor>, t: Tensor)
    requires 0 !in configured && HostDotGeneral(configured, s, batchDims, operands) == Value(t)
    ensures batchDims == [] && |operands| == 2 && s.k in configured && |t| == s.m * s.n
    ensures |operands[0]| == s.m * s.k < U64_BOUND && |operands[1]| == s.k * s.n < U64_BOUND
  {
    MatrixSize(s.m, s.n, HostEntryFunction(s, operands[0], operands[1]));
  }

  // ----- elementwise operations -----

  /** One element, as the assembler computes it: a checked sum, or the product rounded down. */
  function HostElement(op: EltwiseOp, x: I18, y: I18): Option<I18> {
    match op
    case Add => if -0x8000_0000_0000_0000 <= x + y <= 0x7fff_ffff_ffff_ffff then Some(x + y) else None
    case Mul => (match RequantizeRaw(x * y) case Some(qr) => Some(qr.0) case None => None)
    case Relu => None
  }

  /** The first `n` elements, each operand read at the position's remainder by its length. */
  function HostElements(op: EltwiseOp, a: Tensor, b: Tensor, n: nat): Option<Tensor>
    requires |a| > 0 && |b| > 0
  {
    if n == 0 then Some([])
    else
      match (HostElements(op, a, b, n - 1), HostElement(op, a[(n - 1) % |a|], b[(n - 1) % |b|]))
      case (Some(before), Some(last)) => Some(before + [last])
      case _ => None
  }

  /** Taking a remainder by an empty operand's length panics. */
  function HostEltwise(op: EltwiseOp, operands: seq<Tensor>): Outcome {
    if op.Relu? || |operands| != 2 then Rejected
    else
      var x, y := |operands[0]|, |operands[1]|;
      if Max(x, y) == 0 then Rejected
      else if x == 0 then Panics
      else if Max(x, y) % x != 0 then Rejected
      else if y == 0 then Panics
      else if Max(x, y) % y != 0 then Rejected
      else
        match HostElements(op, operands[0], operands[1], Max(x, y))
        case None => Rejected
        case Some(t) => Value(t)
  }

  lemma {:induction false} CollectOne(before: seq<Option<I18>>, last: Option<I18>)
    ensures Collect(before + [last]) == match (Collect(before), last)
      case (Some(values), Some(value)) => Some(values + [value])
      case _ => None
  {
    CollectJoin(before, [last]);
    if last.Some? {
      CollectedIs([last], [last.value]);
    } else {
      assert [last][0].None?;
    }
  }

  /** Pushing elements one after the other is collecting them. */
  lemma {:induction false} HostElementsCollect(op: EltwiseOp, a: Tensor, b: Tensor, entries: seq<Option<I18>>, n: nat)
    requires |a| > 0 && |b| > 0 && !op.Relu? && n <= |entries| && entries == BroadcastElements(op, a, b)
    ensures HostElements(op, a, b, n) == Collect(entries[..n])
  {
    if n > 0 {
      HostElementsCollect(op, a, b, entries, n - 1);
      assert entries[..n] == entries[..n - 1] + [entries[n - 1]];
      SameElement(op, a[(n - 1) % |a|], b[(n - 1) % |b|]);
      CollectOne(entries[..n - 1], entries[n - 1]);
    }
  }

  lemma {:induction false} SameElement(op: EltwiseOp, x: I18, y: I18)
    requires !op.Relu?
    ensures HostElement(op, x, y) == ElementOf(op, x, y)
  {
  }

  /** The two backends accept the same elementwise operations; the assembler panics exactly on one empty operand. */
  lemma {:induction false} EltwiseAgrees(op: EltwiseOp, operands: seq<Tensor>)
    ensures forall t :: Elementwise(op, operands) == Some(t) <==> HostEltwise(op, operands) == Value(t)
    ensures HostEltwise(op, operands).Panics? <==>
      !op.Relu? && |operands| == 2 && (|operands[0]| == 0) != (|operands[1]| == 0)
  {
    if |operands| == 2 && (|operands[0]| == 0) != (|operands[1]| == 0) {
      var n := Max(|operands[0]|, |operands[1]|);
      assert n % n == 0;
    }
    if !op.Relu? && |operands| == 2 && Broadcasts(|operands[0]|, |operands[1]|) {
      var n, entries := Max(|operands[0]|, |operands[1]|), BroadcastElements(op, operands[0], operands[1]);
      HostElementsCollect(op, operands[0], operands[1], entries, n);
      assert entries[..n] == entries;
    }
  }

  // ----- whole programs -----

  type Normalizer = (nat, nat, seq<Tensor>) -> Option<Tensor>

  function ShapeOf(i: Instruction): Shape
    requires i.DotGeneral?
  {
    Shape(i.m, i.n, i.k, i.transA, i.transB)
  }

  ghost function WitnessStep(normalize: Normalizer, i: Instruction, operands: seq<Tensor>): Option<Tensor> {
    match i
    case DotGeneral(_, _, _, batchDims, _, _) => MatrixProduct(ShapeOf(i), batchDims, operands)
    case Eltwise(op) => Elementwise(op, operands)
    case RmsNorm(dim, epsilonMilli) => normalize(dim, epsilonMilli, operands)
    case _ => None
  }

  function Accepted(o: Outcome): Option<Tensor> {
    if o.Value? then Some(o.tensor) else None
  }

  ghost function HostStep(
      configured: set<nat>, normalize: Normalizer, i: Instruction, operands: seq<Tensor>): Option<Tensor>
    requires 0 !in configured
  {
    match i
    case DotGeneral(_, _, _, batchDims, _, _) => Accepted(HostDotGeneral(configured, ShapeOf(i), batchDims, operands))
    case Eltwise(op) => Accepted(HostEltwise(op, operands))
    case RmsNorm(dim, epsilonMilli) => normalize(dim, epsilonMilli, operands)
    case _ => None
  }

  ghost function WitnessSemantics(normalize: Normalizer): Semantics {
    (i, operands) => WitnessStep(normalize, i, operands)
  }

  ghost function HostSemantics(configured: set<nat>, normalize: Normalizer): Semantics
    requires 0 !in configured
  {
    (i, operands) => HostStep(configured, normalize, i, operands)
  }

  /** A product instruction's own sizes and flags say which sum each entry of its result rounds. */
  lemma {:induction false} DotGeneralRounds(
      normalize: Normalizer, i: Instruction, a: Tensor, b: Tensor, t: Tensor, row: nat, column: nat)
    requires i.DotGeneral? && WitnessSemantics(normalize)(i, [a, b]) == Some(t) && row < i.m && column < i.n
    ensures i.batchDims == [] && |a| == i.m * i.k && |b| == i.k * i.n && |t| == i.m * i.n
    ensures EntryRounds(Shape(i.m, i.n, i.k, i.transA, i.transB), a, b, t, row, column)
  {
    ProductRounds(ShapeOf(i), a, b, t, row, column);
  }

  ghost predicate Configured(configured: set<nat>, instrs: seq<AssemblerInstruction>) {
    forall k :: 0 <= k < |instrs| ==> instrs[k].instruction.DotGeneral? ==> instrs[k].instruction.k in configured
  }

  lemma {:induction false} StepAgrees(
      configured: set<nat>, normalize: Normalizer, i: Instruction, operands: seq<Tensor>)
    requires 0 !in configured && (i.DotGeneral? ==> i.k in configured)
    requires WitnessStep(normalize, i, operands).Some?
    ensures HostStep(configured, normalize, i, operands) == WitnessStep(normalize, i, operands)
  {
    match i
    case DotGeneral(_, _, _, batchDims, _, _) => WitnessProductIsHost(configured, ShapeOf(i), batchDims, operands);
    case Eltwise(op) => {
      EltwiseAgrees(op, operands);
      assert Elementwise(op, operands) == Some(Elementwise(op, operands).value);
    }
    case _ =>
  }

  /** A run the witness backend's arithmetic completes, the assembler's completes with the same values. */
  lemma {:induction false} WitnessRunIsHostRun(
      configured: set<nat>, normalize: Normalizer, inputs: seq<Tensor>, weights: seq<Tensor>,
      instrs: seq<AssemblerInstruction>)
    requires 0 !in configured && Configured(configured, instrs)
    requires RunInstructions(WitnessSemantics(normalize), inputs, weights, instrs).Some?
    ensures RunInstructions(HostSemantics(configured, normalize), inputs, weights, instrs)
      == RunInstructions(WitnessSemantics(normalize), inputs, weights, instrs)
    decreases |instrs|
  {
    if |instrs| > 0 {
      var n := |instrs| - 1;
      WitnessRunIsHostRun(configured, normalize, inputs, weights, instrs[..n]);
      var virtuals := RunInstructions(WitnessSemantics(normalize), inputs, weights, instrs[..n]).value;
      var operands := Collect(ResolveEach(instrs[n].inputs, inputs, weights, virtuals)).value;
      StepAgrees(configured, normalize, instrs[n].instruction, operands);
    }
  }
}
