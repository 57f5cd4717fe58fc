/** The canonical bytes of a circuit's shape, and that no two shapes share them. */
module ShapeBytes {
  import opened Prelude
  import opened Program
  import opened Assembler
  import opened ByteCodec
  import opened PublicBoundary

  /** Floating-point bounds are kept as their bit patterns. */
  datatype RsqrtDomain = Range(minBits: U64, maxBits: U64, n: nat) | RawAnchors(anchors: seq<I18>)

  datatype CircuitParams = CircuitParams(
    instructions: seq<AssemblerInstruction>,
    rmsNormDomains: map<(nat, nat), RsqrtDomain>,
    inputShapes: seq<nat>,
    weightShapes: seq<nat>,
    publicOutputIndices: seq<nat>,
    boundaryInputs: seq<Descriptor>,
    boundaryOutputs: seq<(nat, Descriptor)>,
    leafPrefixLen: nat,
    fixedPublicWeights: seq<seq<I18>>)

  // ----- machine-sized values -----

  predicate Usize(n: nat) { n < U64_BOUND }

  predicate SizedList<T>(xs: seq<T>, valid: T -> bool) {
    Usize(|xs|) && forall i :: 0 <= i < |xs| ==> valid(xs[i])
  }

  predicate SizedText(s: string) { Usize(|s|) && ByteText(s) }

  predicate SizedRef(r: RegisterRef) { Usize(r.index) }

  predicate SizedOperation(i: Instruction) {
    match i
    case DotGeneral(m, n, k, batchDims, _, _) => Usize(m) && Usize(n) && Usize(k) && SizedList(batchDims, Usize)
    case Softmax(axisDim) => Usize(axisDim)
    case Gelu => true
    case LayerNorm(dim, epsilonMilli) => Usize(dim) && Usize(epsilonMilli)
    case RmsNorm(dim, epsilonMilli) => Usize(dim) && Usize(epsilonMilli)
    case Eltwise(_) => true
    case Reduce(_, axis) => Usize(axis)
    case EmbedLookup(tableSize, embedDim) => Usize(tableSize) && Usize(embedDim)
    case PatchEmbed(patchLen, embedDim) => Usize(patchLen) && Usize(embedDim)
  }

  predicate SizedInstruction(i: AssemblerInstruction) { SizedList(i.inputs, SizedRef) && SizedOperation(i.instruction) }

  predicate SizedDescriptor(d: Descriptor) {
    && SizedText(d.registerId) && SizedList(d.edgeIds, SizedText) && SizedList(d.graphOutputNames, SizedText)
    && Usize(d.elementCount) && Usize(d.scale)
  }

  predicate SizedOutput(o: (nat, Descriptor)) { Usize(o.0) && SizedDescriptor(o.1) }

  predicate SizedTensor(t: seq<I18>) { Usize(|t|) }

  predicate SizedDomain(d: RsqrtDomain) {
    match d
    case Range(_, _, n) => Usize(n)
    case RawAnchors(anchors) => Usize(|anchors|)
  }

  predicate SizedEntry(e: ((nat, nat), RsqrtDomain)) { Usize(e.0.0) && Usize(e.0.1) && SizedDomain(e.1) }

  /** Lengths, sizes and indices fit the machine word they are written as. */
  ghost predicate Sized(p: CircuitParams) {
    && SizedList(p.instructions, SizedInstruction) && SizedList(p.inputShapes, Usize)
    && SizedList(p.weightShapes, Usize)
    && SizedList(p.publicOutputIndices, Usize) && SizedList(p.boundaryInputs, SizedDescriptor)
    && SizedList(p.boundaryOutputs, SizedOutput) && Usize(p.leafPrefixLen)
    && SizedList(p.fixedPublicWeights, SizedTensor)
    && SizedList(Entries(p.rmsNormDomains), SizedEntry)
  }

  // ----- what is written -----

  function PutUsize(v: nat, after: Bytes): Bytes { PutNumber(8, v, after) }

  function PutList<T>(put: Put<T>, xs: seq<T>, after: Bytes): Bytes { PutUsize(|xs|, PutAll(put, xs, after)) }

  function PutSized(s: string, after: Bytes): Bytes { PutUsize(|s|, BytesOf(s) + after) }

  function PutByte(v: nat, after: Bytes): Bytes { PutNumber(1, v, after) }

  function PutRaw(v: I18, after: Bytes): Bytes { PutNumber(8, Unsigned(v), after) }

  const BOUNDARY_COMMITMENT_SCHEMA_VERSION: nat := 2

  function RoleTag(role: Role): nat { if role.Input? then 1 else 2 }

  /** A descriptor after its register: the edges, the names, the two sizes. */
  function PutLinks(d: Descriptor, after: Bytes): Bytes {
    PutList(PutSized, d.edgeIds, PutList(PutSized, d.graphOutputNames,
      PutUsize(d.elementCount, PutUsize(d.scale, after))))
  }

  function PutDescriptor(d: Descriptor, after: Bytes): Bytes {
    PutNumber(4, BOUNDARY_COMMITMENT_SCHEMA_VERSION, PutByte(RoleTag(d.role), PutSized(d.registerId,
      PutLinks(d, after))))
  }

  function PutOutput(o: (nat, Descriptor), after: Bytes): Bytes { PutUsize(o.0, PutDescriptor(o.1, after)) }

  function PutTensor(t: seq<I18>, after: Bytes): Bytes { PutList(PutRaw, t, after) }

  function PutRef(r: RegisterRef, after: Bytes): Bytes {
    PutByte(match r case Input(_) => 0 case Weight(_) => 1 case Virtual(_) => 2, PutUsize(r.index, after))
  }

  function Bit(b: bool): nat { if b then 1 else 0 }

  function OperationTag(i: Instruction): nat {
    match i
    case DotGeneral(_, _, _, _, _, _) => 0
    case Softmax(_) => 1
    case Gelu => 2
    case LayerNorm(_, _) => 3
    case RmsNorm(_, _) => 4
    case Eltwise(_) => 5
    case Reduce(_, _) => 6
    case EmbedLookup(_, _) => 7
    case PatchEmbed(_, _) => 8
  }

  function PutFields(i: Instruction, after: Bytes): Bytes {
    match i
    case DotGeneral(m, n, k, batchDims, transA, transB) =>
      PutList(PutUsize, [m, n, k], PutList(PutUsize, batchDims, PutByte(Bit(transA), PutByte(Bit(transB), after))))
    case Softmax(axisDim) => PutUsize(axisDim, after)
    case Gelu => after
    case LayerNorm(dim, epsilonMilli) => PutUsize(dim, PutNumber(8, epsilonMilli, after))
    case RmsNorm(dim, epsilonMilli) => PutUsize(dim, PutNumber(8, epsilonMilli, after))
    case Eltwise(op) => PutByte(match op case Add => 0 case Mul => 1 case Relu => 2, after)
    case Reduce(op, axis) => PutByte(match op case Sum => 0 case Mean => 1, PutUsize(axis, after))
    case EmbedLookup(tableSize, embedDim) => PutList(PutUsize, [tableSize, embedDim], after)
    case PatchEmbed(patchLen, embedDim) => PutList(PutUsize, [patchLen, embedDim], after)
  }

  function PutOperation(i: Instruction, after: Bytes): Bytes { PutByte(OperationTag(i), PutFields(i, after)) }

  function PutInstruction(i: AssemblerInstruction, after: Bytes): Bytes {
    PutList(PutRef, i.inputs, PutOperation(i.instruction, after))
  }

  function PutDomain(d: RsqrtDomain, after: Bytes): Bytes {
    match d
    case Range(minBits, maxBits, n) => PutByte(0, PutNumber(8, minBits, PutNumber(8, maxBits, PutUsize(n, after))))
    case RawAnchors(anchors) => PutByte(1, PutList(PutRaw, anchors, after))
  }

  function PutEntry(e: ((nat, nat), RsqrtDomain), after: Bytes): Bytes {
    PutUsize(e.0.0, PutNumber(8, e.0.1, PutDomain(e.1, after)))
  }

  predicate DomainKeyLe(a: (nat, nat), b: (nat, nat)) { a.0 < b.0 || (a.0 == b.0 && a.1 <= b.1) }

  lemma {:induction false} DomainKeyOrder()
    ensures TotalOrder(DomainKeyLe)
  {
    forall a: (nat, nat), b: (nat, nat) ensures DomainKeyLe(a, b) || DomainKeyLe(b, a) {}
    forall a: (nat, nat), b: (nat, nat), c: (nat, nat) | DomainKeyLe(a, b) && DomainKeyLe(b, c)
      ensures DomainKeyLe(a, c)
    {
    }
    forall a: (nat, nat), b: (nat, nat) | DomainKeyLe(a, b) && DomainKeyLe(b, a) ensures a == b {}
  }

  ghost function Keys(m: map<(nat, nat), RsqrtDomain>): (r: seq<(nat, nat)>)
    ensures Elements(r) == m.Keys && Distinct(r) && Sorted(DomainKeyLe, r)
  {
    DomainKeyOrder();
    Ascending(DomainKeyLe, m.Keys)
  }

  /** The domains in key order. */
  ghost function Entries(m: map<(nat, nat), RsqrtDomain>): (r: seq<((nat, nat), RsqrtDomain)>)
    ensures |r| == |Keys(m)| && forall i :: 0 <= i < |r| ==> Keys(m)[i] in m && r[i] == (Keys(m)[i], m[Keys(m)[i]])
  {
    seq(|Keys(m)|, i requires 0 <= i < |Keys(m)| => assert Keys(m)[i] in Elements(Keys(m)); (Keys(m)[i], m[Keys(m)[i]]))
  }

  /** A text constant, one byte a character. */
  function Domain(): Bytes { BytesOf("zkie.assembler-circuit-shape.v3\0") }

  /** A layout name is its version digit and what the version exposes. */
  function LayoutVersion(plain: bool): string { if plain then "1" else "2" }

  function LayoutContents(plain: bool): string {
    if plain then ":inputs,weights,selected-outputs\0" else ":leaf,input-commitments,output-commitments,weights\0"
  }

  function LayoutFamily(): Bytes { BytesOf("public-instances-v") }

  predicate Unbounded(p: CircuitParams) { p.boundaryInputs == [] && p.boundaryOutputs == [] }

  function LayoutName(plain: bool): Bytes { BytesOf(LayoutVersion(plain) + LayoutContents(plain)) }

  function PutShapes(p: CircuitParams, after: Bytes): Bytes {
    PutList(PutUsize, p.inputShapes, PutList(PutUsize, p.weightShapes, PutList(PutUsize, p.publicOutputIndices,
      PutUsize(p.leafPrefixLen, after))))
  }

  function PutBoundaries(p: CircuitParams, after: Bytes): Bytes {
    PutList(PutDescriptor, p.boundaryInputs,
      PutList(PutOutput, p.boundaryOutputs, PutList(PutTensor, p.fixedPublicWeights, after)))
  }

  ghost function PutProgram(p: CircuitParams, after: Bytes): Bytes {
    PutList(PutInstruction, p.instructions, PutList(PutEntry, Entries(p.rmsNormDomains), after))
  }

  ghost function CanonicalShapeBytes(p: CircuitParams): Bytes {
    Domain() + (LayoutFamily() + (LayoutName(Unbounded(p)) + PutShapes(p, PutBoundaries(p, PutProgram(p, [])))))
  }

  // ----- nothing is written twice -----

  lemma {:induction false} NumberUnique(width: nat, v: nat, s: Bytes, w: nat, t: Bytes)
    requires v < Power256(width) && w < Power256(width)
    ensures PutNumber(width, v, s) == PutNumber(width, w, t) ==> v == w && s == t
  {
    NumberExact(width, PutNumber(width, v, s), v, s);
    NumberExact(width, PutNumber(width, w, t), w, t);
  }

  lemma {:induction false} UsizeUnique(v: nat, s: Bytes, w: nat, t: Bytes)
    requires Usize(v) && Usize(w)
    ensures PutUsize(v, s) == PutUsize(w, t) ==> v == w && s == t
  {
    Powers();
    NumberUnique(8, v, s, w, t);
  }

  lemma {:induction false} ByteUnique(v: nat, s: Bytes, w: nat, t: Bytes)
    requires v < 256 && w < 256
    ensures PutByte(v, s) == PutByte(w, t) ==> v == w && s == t
  {
    Powers();
    NumberUnique(1, v, s, w, t);
  }

  lemma {:induction false} RawUnique(v: I18, s: Bytes, w: I18, t: Bytes)
    ensures PutRaw(v, s) == PutRaw(w, t) ==> v == w && s == t
  {
    UsizeUnique(Unsigned(v), s, Unsigned(w), t);
  }

  /** Encodings that agree, with whatever follows them, encode the same value. */
  ghost predicate Unique<T(!new)>(put: Put<T>, valid: T -> bool) {
    forall x, s, y, t :: valid(x) && valid(y) && put(x, s) == put(y, t) ==> x == y && s == t
  }

  lemma {:induction false} AllUnique<T(!new)>(put: Put<T>, valid: T -> bool, xs: seq<T>, s: Bytes, ys: seq<T>, t: Bytes)
    requires Unique(put, valid) && |xs| == |ys|
    requires (forall i :: 0 <= i < |xs| ==> valid(xs[i])) && (forall i :: 0 <= i < |ys| ==> valid(ys[i]))
    ensures PutAll(put, xs, s) == PutAll(put, ys, t) ==> xs == ys && s == t
  {
    if |xs| > 0 {
      AllUnique(put, valid, xs[1..], s, ys[1..], t);
      var x, s1, y, t1 := xs[0], PutAll(put, xs[1..], s), ys[0], PutAll(put, ys[1..], t);
      assert valid(x) && valid(y) && put(x, s1) == put(y, t1) ==> x == y && s1 == t1;
      assert xs == [x] + xs[1..] && ys == [y] + ys[1..];
    }
  }

  lemma {:induction false} ListUnique<T(!new)>(
      put: Put<T>, valid: T -> bool, xs: seq<T>, s: Bytes, ys: seq<T>, t: Bytes)
    requires Unique(put, valid) && SizedList(xs, valid) && SizedList(ys, valid)
    ensures PutList(put, xs, s) == PutList(put, ys, t) ==> xs == ys && s == t
  {
    UsizeUnique(|xs|, PutAll(put, xs, s), |ys|, PutAll(put, ys, t));
    if |xs| == |ys| { AllUnique(put, valid, xs, s, ys, t); }
  }

  lemma {:induction false} UsizesUnique(xs: seq<nat>, s: Bytes, ys: seq<nat>, t: Bytes)
    requires SizedList(xs, Usize) && SizedList(ys, Usize)
    ensures PutList(PutUsize, xs, s) == PutList(PutUsize, ys, t) ==> xs == ys && s == t
  {
    forall v, b, w, c ensures Usize(v) && Usize(w) && PutUsize(v, b) == PutUsize(w, c) ==> v == w && b == c {
      if Usize(v) && Usize(w) { UsizeUnique(v, b, w, c); }
    }
    ListUnique(PutUsize, Usize, xs, s, ys, t);
  }

  lemma {:induction false} TensorUnique(xs: seq<I18>, s: Bytes, ys: seq<I18>, t: Bytes)
    requires Usize(|xs|) && Usize(|ys|)
    ensures PutTensor(xs, s) == PutTensor(ys, t) ==> xs == ys && s == t
  {
    forall v: I18, b, w: I18, c ensures PutRaw(v, b) == PutRaw(w, c) ==> v == w && b == c { RawUnique(v, b, w, c); }
    ListUnique(PutRaw, _ => true, xs, s, ys, t);
  }

  lemma {:induction false} TextUnique(x: string, s: Bytes, y: string, t: Bytes)
    requires SizedText(x) && SizedText(y)
    ensures PutSized(x, s) == PutSized(y, t) ==> x == y && s == t
  {
    UsizeUnique(|x|, BytesOf(x) + s, |y|, BytesOf(y) + t);
    if PutSized(x, s) == PutSized(y, t) {
      BytesExact(|x|, BytesOf(x) + s, BytesOf(x), s);
      BytesExact(|x|, BytesOf(x) + s, BytesOf(y), t);
      TextExact(BytesOf(x), x);
      TextExact(BytesOf(x), y);
    }
  }

  lemma {:induction false} TextsUnique(xs: seq<string>, s: Bytes, ys: seq<string>, t: Bytes)
    requires SizedList(xs, SizedText) && SizedList(ys, SizedText)
    ensures PutList(PutSized, xs, s) == PutList(PutSized, ys, t) ==> xs == ys && s == t
  {
    forall x, b, y, c ensures SizedText(x) && SizedText(y) && PutSized(x, b) == PutSized(y, c) ==> x == y && b == c {
      if SizedText(x) && SizedText(y) { TextUnique(x, b, y, c); }
    }
    ListUnique(PutSized, SizedText, xs, s, ys, t);
  }

  lemma {:induction false} LinksUnique(d: Descriptor, s: Bytes, e: Descriptor, t: Bytes)
    requires SizedDescriptor(d) && SizedDescriptor(e)
    ensures PutLinks(d, s) == PutLinks(e, t) ==>
      d.edgeIds == e.edgeIds && d.graphOutputNames == e.graphOutputNames && d.elementCount == e.elementCount
      && d.scale == e.scale && s == t
  {
    var d2, e2 := PutUsize(d.scale, s), PutUsize(e.scale, t);
    var d1, e1 := PutUsize(d.elementCount, d2), PutUsize(e.elementCount, e2);
    TextsUnique(
      d.edgeIds, PutList(PutSized, d.graphOutputNames, d1), e.edgeIds, PutList(PutSized, e.graphOutputNames, e1));
    TextsUnique(d.graphOutputNames, d1, e.graphOutputNames, e1);
    UsizeUnique(d.elementCount, d2, e.elementCount, e2);
    UsizeUnique(d.scale, s, e.scale, t);
  }

  lemma {:induction false} DescriptorUnique(d: Descriptor, s: Bytes, e: Descriptor, t: Bytes)
    requires SizedDescriptor(d) && SizedDescriptor(e)
    ensures PutDescriptor(d, s) == PutDescriptor(e, t) ==> d == e && s == t
  {
    var d2, e2 := PutLinks(d, s), PutLinks(e, t);
    var d1, e1 := PutSized(d.registerId, d2), PutSized(e.registerId, e2);
    Powers();
    NumberUnique(
      4, BOUNDARY_COMMITMENT_SCHEMA_VERSION, PutByte(RoleTag(d.role), d1),
      BOUNDARY_COMMITMENT_SCHEMA_VERSION, PutByte(RoleTag(e.role), e1));
    ByteUnique(RoleTag(d.role), d1, RoleTag(e.role), e1);
    TextUnique(d.registerId, d2, e.registerId, e2);
    LinksUnique(d, s, e, t);
  }

  lemma {:induction false} RefUnique(r: RegisterRef, s: Bytes, q: RegisterRef, t: Bytes)
    requires SizedRef(r) && SizedRef(q)
    ensures PutRef(r, s) == PutRef(q, t) ==> r == q && s == t
  {
    ByteUnique(match r case Input(_) => 0 case Weight(_) => 1 case Virtual(_) => 2, PutUsize(r.index, s),
               match q case Input(_) => 0 case Weight(_) => 1 case Virtual(_) => 2, PutUsize(q.index, t));
    UsizeUnique(r.index, s, q.index, t);
  }

  lemma {:induction false} PairUnique(v: nat, w: nat, s: Bytes, v': nat, w': nat, t: Bytes)
    requires Usize(v) && Usize(w) && Usize(v') && Usize(w')
    ensures PutUsize(v, PutNumber(8, w, s)) == PutUsize(v', PutNumber(8, w', t)) ==> v == v' && w == w' && s == t
    ensures PutList(PutUsize, [v, w], s) == PutList(PutUsize, [v', w'], t) ==> v == v' && w == w' && s == t
  {
    UsizeUnique(v, PutUsize(w, s), v', PutUsize(w', t));
    UsizeUnique(w, s, w', t);
    UsizesUnique([v, w], s, [v', w'], t);
    assert [v, w][0] == v && [v, w][1] == w && [v', w'][0] == v' && [v', w'][1] == w';
  }

  lemma {:induction false} ProductUnique(i: Instruction, s: Bytes, j: Instruction, t: Bytes)
    requires i.DotGeneral? && j.DotGeneral? && SizedOperation(i) && SizedOperation(j)
    ensures PutFields(i, s) == PutFields(j, t) ==> i == j && s == t
  {
    var i2, j2 := PutByte(Bit(i.transB), s), PutByte(Bit(j.transB), t);
    var i1, j1 := PutByte(Bit(i.transA), i2), PutByte(Bit(j.transA), j2);
    var x, y := [i.m, i.n, i.k], [j.m, j.n, j.k];
    UsizesUnique(x, PutList(PutUsize, i.batchDims, i1), y, PutList(PutUsize, j.batchDims, j1));
    assert x == y ==> x[0] == y[0] && x[1] == y[1] && x[2] == y[2];
    UsizesUnique(i.batchDims, i1, j.batchDims, j1);
    ByteUnique(Bit(i.transA), i2, Bit(j.transA), j2);
    ByteUnique(Bit(i.transB), s, Bit(j.transB), t);
  }

  lemma {:induction false} FieldsUnique(i: Instruction, s: Bytes, j: Instruction, t: Bytes)
    requires OperationTag(i) == OperationTag(j) && SizedOperation(i) && SizedOperation(j)
    ensures PutFields(i, s) == PutFields(j, t) ==> i == j && s == t
  {
    match i
    case DotGeneral(_, _, _, _, _, _) => ProductUnique(i, s, j, t);
    case Softmax(axisDim) => UsizeUnique(axisDim, s, j.axisDim, t);
    case Gelu =>
    case LayerNorm(dim, e) => PairUnique(dim, e, s, j.dim, j.epsilonMilli, t);
    case RmsNorm(dim, e) => PairUnique(dim, e, s, j.dim, j.epsilonMilli, t);
    case Eltwise(op) =>
      ByteUnique(match op case Add => 0 case Mul => 1 case Relu => 2, s,
        match j.op case Add => 0 case Mul => 1 case Relu => 2, t);
    case Reduce(op, axis) => {
      ByteUnique(match op case Sum => 0 case Mean => 1, PutUsize(axis, s),
        match j.reduceOp case Sum => 0 case Mean => 1, PutUsize(j.axis, t));
      UsizeUnique(axis, s, j.axis, t);
    }
    case EmbedLookup(tableSize, embedDim) => PairUnique(tableSize, embedDim, s, j.tableSize, j.embedDim, t);
    case PatchEmbed(patchLen, embedDim) => PairUnique(patchLen, embedDim, s, j.patchLen, j.embedDim, t);
  }

  lemma {:induction false} OperationUnique(i: Instruction, s: Bytes, j: Instruction, t: Bytes)
    requires SizedOperation(i) && SizedOperation(j)
    ensures PutOperation(i, s) == PutOperation(j, t) ==> i == j && s == t
  {
    ByteUnique(OperationTag(i), PutFields(i, s), OperationTag(j), PutFields(j, t));
    if OperationTag(i) == OperationTag(j) { FieldsUnique(i, s, j, t); }
  }

  lemma {:induction false} InstructionUnique(i: AssemblerInstruction, s: Bytes, j: AssemblerInstruction, t: Bytes)
    requires SizedInstruction(i) && SizedInstruction(j)
    ensures PutInstruction(i, s) == PutInstruction(j, t) ==> i == j && s == t
  {
    forall r, b, q, c ensures SizedRef(r) && SizedRef(q) && PutRef(r, b) == PutRef(q, c) ==> r == q && b == c {
      if SizedRef(r) && SizedRef(q) { RefUnique(r, b, q, c); }
    }
    ListUnique(PutRef, SizedRef, i.inputs, PutOperation(i.instruction, s), j.inputs, PutOperation(j.instruction, t));
    OperationUnique(i.instruction, s, j.instruction, t);
  }

  lemma {:induction false} DomainUnique(d: RsqrtDomain, s: Bytes, e: RsqrtDomain, t: Bytes)
    requires SizedDomain(d) && SizedDomain(e)
    ensures PutDomain(d, s) == PutDomain(e, t) ==> d == e && s == t
  {
    match (d, e)
    case (Range(a, b, n), Range(a', b', n')) => {
      ByteUnique(0, PutNumber(8, a, PutNumber(8, b, PutUsize(n, s))), 0,
        PutNumber(8, a', PutNumber(8, b', PutUsize(n', t))));
      PairUnique(a, b, PutUsize(n, s), a', b', PutUsize(n', t));
      UsizeUnique(n, s, n', t);
    }
    case (RawAnchors(x), RawAnchors(y)) => {
      ByteUnique(1, PutList(PutRaw, x, s), 1, PutList(PutRaw, y, t));
      TensorUnique(x, s, y, t);
    }
    case (Range(a, b, n), RawAnchors(y)) =>
      ByteUnique(0, PutNumber(8, a, PutNumber(8, b, PutUsize(n, s))), 1, PutList(PutRaw, y, t));
    case (RawAnchors(x), Range(a, b, n)) =>
      ByteUnique(1, PutList(PutRaw, x, s), 0, PutNumber(8, a, PutNumber(8, b, PutUsize(n, t))));
  }

  lemma {:induction false} EntryUnique(e: ((nat, nat), RsqrtDomain), s: Bytes, f: ((nat, nat), RsqrtDomain), t: Bytes)
    requires SizedEntry(e) && SizedEntry(f)
    ensures PutEntry(e, s) == PutEntry(f, t) ==> e == f && s == t
  {
    PairUnique(e.0.0, e.0.1, PutDomain(e.1, s), f.0.0, f.0.1, PutDomain(f.1, t));
    DomainUnique(e.1, s, f.1, t);
  }

  lemma {:induction false} EntriesUnique(m: map<(nat, nat), RsqrtDomain>, m': map<(nat, nat), RsqrtDomain>)
    requires Entries(m) == Entries(m')
    ensures m == m'
  {
    var e, e' := Entries(m), Entries(m');
    forall i | 0 <= i < |e| ensures Keys(m)[i] == Keys(m')[i] && m[Keys(m)[i]] == m'[Keys(m)[i]] {
      assert e[i] == e'[i];
    }
    assert Keys(m) == Keys(m');
    forall k | k in m ensures m[k] == m'[k] {
      assert k in Elements(Keys(m));
      var i :| 0 <= i < |Keys(m)| && Keys(m)[i] == k;
    }
  }

  lemma {:induction false} ShapesUnique(p: CircuitParams, s: Bytes, q: CircuitParams, t: Bytes)
    requires Sized(p) && Sized(q) && PutShapes(p, s) == PutShapes(q, t)
    ensures p.inputShapes == q.inputShapes && p.weightShapes == q.weightShapes
      && p.publicOutputIndices == q.publicOutputIndices
    ensures p.leafPrefixLen == q.leafPrefixLen && s == t
  {
    var p3, q3 := PutUsize(p.leafPrefixLen, s), PutUsize(q.leafPrefixLen, t);
    var p2, q2 := PutList(PutUsize, p.publicOutputIndices, p3), PutList(PutUsize, q.publicOutputIndices, q3);
    UsizesUnique(p.inputShapes, PutList(PutUsize, p.weightShapes, p2), q.inputShapes,
      PutList(PutUsize, q.weightShapes, q2));
    UsizesUnique(p.weightShapes, p2, q.weightShapes, q2);
    UsizesUnique(p.publicOutputIndices, p3, q.publicOutputIndices, q3);
    UsizeUnique(p.leafPrefixLen, s, q.leafPrefixLen, t);
  }

  lemma {:induction false} DescriptorsUnique(xs: seq<Descriptor>, s: Bytes, ys: seq<Descriptor>, t: Bytes)
    requires SizedList(xs, SizedDescriptor) && SizedList(ys, SizedDescriptor)
    ensures PutList(PutDescriptor, xs, s) == PutList(PutDescriptor, ys, t) ==> xs == ys && s == t
  {
    forall x, b, y, c
      ensures SizedDescriptor(x) && SizedDescriptor(y) && PutDescriptor(x, b) == PutDescriptor(y, c) ==>
        x == y && b == c
    {
      if SizedDescriptor(x) && SizedDescriptor(y) { DescriptorUnique(x, b, y, c); }
    }
    ListUnique(PutDescriptor, SizedDescriptor, xs, s, ys, t);
  }

  lemma {:induction false} OutputsUnique(xs: seq<(nat, Descriptor)>, s: Bytes, ys: seq<(nat, Descriptor)>, t: Bytes)
    requires SizedList(xs, SizedOutput) && SizedList(ys, SizedOutput)
    ensures PutList(PutOutput, xs, s) == PutList(PutOutput, ys, t) ==> xs == ys && s == t
  {
    forall x, b, y, c
      ensures SizedOutput(x) && SizedOutput(y) && PutOutput(x, b) == PutOutput(y, c) ==> x == y && b == c
    {
      if SizedOutput(x) && SizedOutput(y) {
        UsizeUnique(x.0, PutDescriptor(x.1, b), y.0, PutDescriptor(y.1, c));
        DescriptorUnique(x.1, b, y.1, c);
      }
    }
    ListUnique(PutOutput, SizedOutput, xs, s, ys, t);
  }

  lemma {:induction false} TensorsUnique(xs: seq<seq<I18>>, s: Bytes, ys: seq<seq<I18>>, t: Bytes)
    requires SizedList(xs, SizedTensor) && SizedList(ys, SizedTensor)
    ensures PutList(PutTensor, xs, s) == PutList(PutTensor, ys, t) ==> xs == ys && s == t
  {
    forall x: seq<I18>, b, y: seq<I18>, c
      ensures SizedTensor(x) && SizedTensor(y) && PutTensor(x, b) == PutTensor(y, c) ==> x == y && b == c
    {
      if SizedTensor(x) && SizedTensor(y) { TensorUnique(x, b, y, c); }
    }
    ListUnique(PutTensor, SizedTensor, xs, s, ys, t);
  }

  lemma {:induction false} BoundariesUnique(p: CircuitParams, s: Bytes, q: CircuitParams, t: Bytes)
    requires Sized(p) && Sized(q) && PutBoundaries(p, s) == PutBoundaries(q, t)
    ensures p.boundaryInputs == q.boundaryInputs && p.boundaryOutputs == q.boundaryOutputs
      && p.fixedPublicWeights == q.fixedPublicWeights
    ensures s == t
  {
    var p2, q2 := PutList(PutTensor, p.fixedPublicWeights, s), PutList(PutTensor, q.fixedPublicWeights, t);
    DescriptorsUnique(p.boundaryInputs, PutList(PutOutput, p.boundaryOutputs, p2), q.boundaryInputs,
      PutList(PutOutput, q.boundaryOutputs, q2));
    OutputsUnique(p.boundaryOutputs, p2, q.boundaryOutputs, q2);
    TensorsUnique(p.fixedPublicWeights, s, q.fixedPublicWeights, t);
  }

  lemma {:induction false} ProgramUnique(p: CircuitParams, q: CircuitParams)
    requires Sized(p) && Sized(q) && PutProgram(p, []) == PutProgram(q, [])
    ensures p.instructions == q.instructions && p.rmsNormDomains == q.rmsNormDomains
  {
    forall x, b, y, c
      ensures SizedInstruction(x) && SizedInstruction(y) && PutInstruction(x, b) == PutInstruction(y, c) ==>
        x == y && b == c
    {
      if SizedInstruction(x) && SizedInstruction(y) { InstructionUnique(x, b, y, c); }
    }
    forall x, b, y, c ensures SizedEntry(x) && SizedEntry(y) && PutEntry(x, b) == PutEntry(y, c) ==> x == y && b == c {
      if SizedEntry(x) && SizedEntry(y) { EntryUnique(x, b, y, c); }
    }
    var e, f := Entries(p.rmsNormDomains), Entries(q.rmsNormDomains);
    ListUnique(PutInstruction, SizedInstruction, p.instructions, PutList(PutEntry, e, []), q.instructions,
      PutList(PutEntry, f, []));
    ListUnique(PutEntry, SizedEntry, e, [], f, []);
    EntriesUnique(p.rmsNormDomains, q.rmsNormDomains);
  }

  /** The two layout names differ at the version digit, so the name tells which one it is. */
  lemma {:induction false} LayoutUnique(x: bool, s: Bytes, y: bool, t: Bytes)
    requires LayoutName(x) + s == LayoutName(y) + t
    ensures x == y && s == t
  {
    assert (LayoutVersion(true) + LayoutContents(true))[0] == '1';
    assert (LayoutVersion(false) + LayoutContents(false))[0] == '2';
    assert LayoutName(true)[0] != LayoutName(false)[0];
    assert (LayoutName(x) + s)[0] == LayoutName(x)[0] && (LayoutName(y) + t)[0] == LayoutName(y)[0];
    BytesExact(|LayoutName(x)|, LayoutName(x) + s, LayoutName(x), s);
    BytesExact(|LayoutName(x)|, LayoutName(x) + s, LayoutName(x), t);
  }

  lemma {:induction false} PrefixUnique(x: Bytes, s: Bytes, t: Bytes)
    ensures x + s == x + t ==> s == t
  {
    BytesExact(|x|, x + s, x, s);
    BytesExact(|x|, x + s, x, t);
  }

  /** Equal canonical bytes mean equal shapes, in every field that is written. */
  lemma {:induction false} CanonicalShapeBytesInjective(p: CircuitParams, q: CircuitParams)
    requires Sized(p) && Sized(q) && CanonicalShapeBytes(p) == CanonicalShapeBytes(q)
    ensures p == q
  {
    var p1, q1 := PutBoundaries(p, PutProgram(p, [])), PutBoundaries(q, PutProgram(q, []));
    var p0, q0 := LayoutName(Unbounded(p)) + PutShapes(p, p1), LayoutName(Unbounded(q)) + PutShapes(q, q1);
    PrefixUnique(Domain(), LayoutFamily() + p0, LayoutFamily() + q0);
    PrefixUnique(LayoutFamily(), p0, q0);
    LayoutUnique(Unbounded(p), PutShapes(p, p1), Unbounded(q), PutShapes(q, q1));
    ShapesUnique(p, p1, q, q1);
    BoundariesUnique(p, PutProgram(p, []), q, PutProgram(q, []));
    ProgramUnique(p, q);
  }
}
