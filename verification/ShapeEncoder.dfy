/** The encoders that build a circuit's canonical shape bytes, field by field. */
module ShapeEncoder {
  import opened Prelude
  import opened Program
  import opened Assembler
  import opened ByteCodec
  import opened PublicBoundary
  import opened ShapeBytes

  lemma {:induction false} ListWrote<T>(start: Bytes, counted: Bytes, now: Bytes, put: Put<T>, xs: seq<T>)
    requires Wrote(start, counted, after => PutNumber(8, |xs|, after))
      && Wrote(counted, now, after => PutAll(put, xs, after))
    ensures Wrote(start, now, after => PutList(put, xs, after))
  {
    WroteThen(start, counted, now, after => PutNumber(8, |xs|, after), after => PutAll(put, xs, after),
      after => PutList(put, xs, after));
  }

  method EncodeUsizes(out: ByteBuffer, xs: seq<nat>)
    modifies out
    ensures Wrote(old(out.bytes), out.bytes, after => PutList(PutUsize, xs, after))
  {
    ghost var start := out.bytes;
    out.Number(8, |xs|);
    ghost var counted := out.bytes;
    for k := 0 to |xs|
      invariant Wrote(counted, out.bytes, after => PutAll(PutUsize, xs[..k], after))
    {
      ghost var middle := out.bytes;
      EncodeUsize(out, xs[k]);
      WroteOneMore(counted, middle, out.bytes, PutUsize, xs, k);
    }
    assert xs[..|xs|] == xs;
    ListWrote(start, counted, out.bytes, PutUsize, xs);
  }

  method EncodeUsize(out: ByteBuffer, v: nat)
    modifies out
    ensures Wrote(old(out.bytes), out.bytes, after => PutUsize(v, after))
  {
    out.Number(8, v);
  }

  method EncodeByte(out: ByteBuffer, v: nat)
    modifies out
    ensures Wrote(old(out.bytes), out.bytes, after => PutByte(v, after))
  {
    out.Number(1, v);
  }

  method EncodeRaw(out: ByteBuffer, v: I18)
    modifies out
    ensures Wrote(old(out.bytes), out.bytes, after => PutRaw(v, after))
  {
    out.Number(8, Unsigned(v));
  }

  method EncodeString(out: ByteBuffer, s: string)
    modifies out
    ensures Wrote(old(out.bytes), out.bytes, after => PutSized(s, after))
  {
    ghost var start := out.bytes;
    out.Number(8, |s|);
    ghost var middle := out.bytes;
    out.Extend(BytesOf(s));
    BytesAppend(middle, BytesOf(s));
    WroteThen(start, middle, out.bytes, after => PutNumber(8, |s|, after), after => BytesOf(s) + after,
      after => PutSized(s, after));
  }

  method EncodeStrings(out: ByteBuffer, xs: seq<string>)
    modifies out
    ensures Wrote(old(out.bytes), out.bytes, after => PutList(PutSized, xs, after))
  {
    ghost var start := out.bytes;
    out.Number(8, |xs|);
    ghost var counted := out.bytes;
    for k := 0 to |xs|
      invariant Wrote(counted, out.bytes, after => PutAll(PutSized, xs[..k], after))
    {
      ghost var middle := out.bytes;
      EncodeString(out, xs[k]);
      WroteOneMore(counted, middle, out.bytes, PutSized, xs, k);
    }
    assert xs[..|xs|] == xs;
    ListWrote(start, counted, out.bytes, PutSized, xs);
  }

  method EncodeTensor(out: ByteBuffer, xs: seq<I18>)
    modifies out
    ensures Wrote(old(out.bytes), out.bytes, after => PutList(PutRaw, xs, after))
  {
    ghost var start := out.bytes;
    out.Number(8, |xs|);
    ghost var counted := out.bytes;
    for k := 0 to |xs|
      invariant Wrote(counted, out.bytes, after => PutAll(PutRaw, xs[..k], after))
    {
      ghost var middle := out.bytes;
      EncodeRaw(out, xs[k]);
      WroteOneMore(counted, middle, out.bytes, PutRaw, xs, k);
    }
    assert xs[..|xs|] == xs;
    ListWrote(start, counted, out.bytes, PutRaw, xs);
  }

  method EncodeBoundaryDescriptor(out: ByteBuffer, d: Descriptor)
    modifies out
    ensures Wrote(old(out.bytes), out.bytes, after => PutDescriptor(d, after))
  {
    ghost var b0 := out.bytes;
    out.Number(4, BOUNDARY_COMMITMENT_SCHEMA_VERSION);
    ghost var b1 := out.bytes;
    EncodeByte(out, match d.role case Input => 1 case Output => 2);
    ghost var b2 := out.bytes;
    EncodeString(out, d.registerId);
    ghost var b3 := out.bytes;
    EncodeStrings(out, d.edgeIds);
    ghost var b4 := out.bytes;
    EncodeStrings(out, d.graphOutputNames);
    ghost var b5 := out.bytes;
    EncodeUsize(out, d.elementCount);
    ghost var b6 := out.bytes;
    EncodeUsize(out, d.scale);
    DescriptorWrote(d, b0, b1, b2, b3, b4, b5, b6, out.bytes);
  }

  lemma {:induction false} DescriptorWrote(
      d: Descriptor, b0: Bytes, b1: Bytes, b2: Bytes, b3: Bytes, b4: Bytes, b5: Bytes, b6: Bytes, b7: Bytes)
    requires Wrote(b0, b1, after => PutNumber(4, BOUNDARY_COMMITMENT_SCHEMA_VERSION, after))
      && Wrote(b1, b2, after => PutByte(RoleTag(d.role), after))
    requires Wrote(b2, b3, after => PutSized(d.registerId, after))
      && Wrote(b3, b4, after => PutList(PutSized, d.edgeIds, after))
    requires Wrote(b4, b5, after => PutList(PutSized, d.graphOutputNames, after))
      && Wrote(b5, b6, after => PutUsize(d.elementCount, after))
    requires Wrote(b6, b7, after => PutUsize(d.scale, after))
    ensures Wrote(b0, b7, after => PutDescriptor(d, after))
  {
    forall after ensures b7 + after == b0 + PutDescriptor(d, after) {
      var s := PutUsize(d.scale, after);
      var e := PutUsize(d.elementCount, s);
      var g := PutList(PutSized, d.graphOutputNames, e);
      var i := PutList(PutSized, d.edgeIds, g);
      var r := PutSized(d.registerId, i);
      assert b7 + after == b6 + s;
      assert b6 + s == b5 + e;
      assert b5 + e == b4 + g;
      assert b4 + g == b3 + i;
      assert b3 + i == b2 + r;
      assert b2 + r == b1 + PutByte(RoleTag(d.role), r);
    }
  }

  method EncodeOutput(out: ByteBuffer, o: (nat, Descriptor))
    modifies out
    ensures Wrote(old(out.bytes), out.bytes, after => PutOutput(o, after))
  {
    ghost var b0 := out.bytes;
    EncodeUsize(out, o.0);
    ghost var b1 := out.bytes;
    EncodeBoundaryDescriptor(out, o.1);
    WroteThen(b0, b1, out.bytes, after => PutUsize(o.0, after), after => PutDescriptor(o.1, after),
      after => PutOutput(o, after));
  }

  method EncodeRef(out: ByteBuffer, r: RegisterRef)
    modifies out
    ensures Wrote(old(out.bytes), out.bytes, after => PutRef(r, after))
  {
    ghost var b0 := out.bytes;
    var tag := match r case Input(_) => 0 case Weight(_) => 1 case Virtual(_) => 2;
    EncodeByte(out, tag);
    ghost var b1 := out.bytes;
    EncodeUsize(out, r.index);
    WroteThen(b0, b1, out.bytes, after => PutByte(tag, after), after => PutUsize(r.index, after),
      after => PutRef(r, after));
  }

  method EncodeRefs(out: ByteBuffer, xs: seq<RegisterRef>)
    modifies out
    ensures Wrote(old(out.bytes), out.bytes, after => PutList(PutRef, xs, after))
  {
    ghost var start := out.bytes;
    out.Number(8, |xs|);
    ghost var counted := out.bytes;
    for k := 0 to |xs|
      invariant Wrote(counted, out.bytes, after => PutAll(PutRef, xs[..k], after))
    {
      ghost var middle := out.bytes;
      EncodeRef(out, xs[k]);
      WroteOneMore(counted, middle, out.bytes, PutRef, xs, k);
    }
    assert xs[..|xs|] == xs;
    ListWrote(start, counted, out.bytes, PutRef, xs);
  }

  method EncodeProduct(out: ByteBuffer, i: Instruction)
    requires i.DotGeneral?
    modifies out
    ensures Wrote(old(out.bytes), out.bytes, after => PutFields(i, after))
  {
    ghost var b0 := out.bytes;
    EncodeUsizes(out, [i.m, i.n, i.k]);
    ghost var b1 := out.bytes;
    EncodeUsizes(out, i.batchDims);
    ghost var b2 := out.bytes;
    EncodeByte(out, Bit(i.transA));
    ghost var b3 := out.bytes;
    EncodeByte(out, Bit(i.transB));
    forall after ensures out.bytes + after == b0 + PutFields(i, after) {
      var t := PutByte(Bit(i.transB), after);
      var s := PutByte(Bit(i.transA), t);
      var d := PutList(PutUsize, i.batchDims, s);
      assert out.bytes + after == b3 + t;
      assert b3 + t == b2 + s;
      assert b2 + s == b1 + d;
      assert b1 + d == b0 + PutList(PutUsize, [i.m, i.n, i.k], d);
    }
  }

  method EncodePair(out: ByteBuffer, v: nat, w: nat)
    modifies out
    ensures Wrote(old(out.bytes), out.bytes, after => PutUsize(v, PutNumber(8, w, after)))
  {
    ghost var b0 := out.bytes;
    EncodeUsize(out, v);
    ghost var b1 := out.bytes;
    out.Number(8, w);
    WroteThen(b0, b1, out.bytes, after => PutUsize(v, after), after => PutNumber(8, w, after),
      after => PutUsize(v, PutNumber(8, w, after)));
  }

  method EncodeFields(out: ByteBuffer, i: Instruction)
    modifies out
    ensures Wrote(old(out.bytes), out.bytes, after => PutFields(i, after))
  {
    match i
    case DotGeneral(_, _, _, _, _, _) => EncodeProduct(out, i);
    case Softmax(axisDim) => EncodeUsize(out, axisDim);
    case Gelu =>
    case LayerNorm(dim, epsilonMilli) => EncodePair(out, dim, epsilonMilli);
    case RmsNorm(dim, epsilonMilli) => EncodePair(out, dim, epsilonMilli);
    case Eltwise(op) => EncodeByte(out, match op case Add => 0 case Mul => 1 case Relu => 2);
    case Reduce(op, axis) => EncodeReduce(out, op, axis);
    case EmbedLookup(tableSize, embedDim) => EncodeUsizes(out, [tableSize, embedDim]);
    case PatchEmbed(patchLen, embedDim) => EncodeUsizes(out, [patchLen, embedDim]);
  }

  method EncodeReduce(out: ByteBuffer, op: ReduceOp, axis: nat)
    modifies out
    ensures Wrote(old(out.bytes), out.bytes, after => PutFields(Instruction.Reduce(op, axis), after))
  {
    ghost var b0 := out.bytes;
    var tag := match op case Sum => 0 case Mean => 1;
    EncodeByte(out, tag);
    ghost var b1 := out.bytes;
    EncodeUsize(out, axis);
    WroteThen(b0, b1, out.bytes, after => PutByte(tag, after), after => PutUsize(axis, after),
      after => PutFields(Instruction.Reduce(op, axis), after));
  }

  method EncodeTag(out: ByteBuffer, i: Instruction)
    modifies out
    ensures Wrote(old(out.bytes), out.bytes, after => PutByte(OperationTag(i), after))
  {
    var tag :=
      match i
      case DotGeneral(_, _, _, _, _, _) => 0
      case Softmax(_) => 1
      case Gelu => 2
      case LayerNorm(_, _) => 3
      case RmsNorm(_, _) => 4
      case Eltwise(_) => 5
      case Reduce(_, _) => 6
      case EmbedLookup(_, _) => 7
      case PatchEmbed(_, _) => 8;
    assert tag == OperationTag(i);
    EncodeByte(out, tag);
  }

  method EncodeInstruction(out: ByteBuffer, i: AssemblerInstruction)
    modifies out
    ensures Wrote(old(out.bytes), out.bytes, after => PutInstruction(i, after))
  {
    ghost var b0 := out.bytes;
    EncodeRefs(out, i.inputs);
    ghost var b1 := out.bytes;
    EncodeTag(out, i.instruction);
    ghost var b2 := out.bytes;
    EncodeFields(out, i.instruction);
    forall after ensures out.bytes + after == b0 + PutInstruction(i, after) {
      var f := PutFields(i.instruction, after);
      var t := PutByte(OperationTag(i.instruction), f);
      assert out.bytes + after == b2 + f;
      assert b2 + f == b1 + t;
      assert b1 + t == b0 + PutList(PutRef, i.inputs, t);
    }
  }

  method EncodeDomain(out: ByteBuffer, d: RsqrtDomain)
    modifies out
    ensures Wrote(old(out.bytes), out.bytes, after => PutDomain(d, after))
  {
    ghost var b0 := out.bytes;
    match d
    case Range(minBits, maxBits, n) => {
      EncodeByte(out, 0);
      ghost var b1 := out.bytes;
      EncodePair(out, minBits, maxBits);
      ghost var b2 := out.bytes;
      EncodeUsize(out, n);
      forall after ensures out.bytes + after == b0 + PutDomain(d, after) {
        var u := PutUsize(n, after);
        var p := PutUsize(minBits, PutNumber(8, maxBits, u));
        assert out.bytes + after == b2 + u;
        assert b2 + u == b1 + p;
        assert b1 + p == b0 + PutByte(0, p);
      }
    }
    case RawAnchors(anchors) => {
      EncodeByte(out, 1);
      ghost var b1 := out.bytes;
      EncodeTensor(out, anchors);
      WroteThen(b0, b1, out.bytes, after => PutByte(1, after), after => PutList(PutRaw, anchors, after),
        after => PutDomain(d, after));
    }
  }

  method EncodeEntry(out: ByteBuffer, e: ((nat, nat), RsqrtDomain))
    modifies out
    ensures Wrote(old(out.bytes), out.bytes, after => PutEntry(e, after))
  {
    ghost var b0 := out.bytes;
    EncodePair(out, e.0.0, e.0.1);
    ghost var b1 := out.bytes;
    EncodeDomain(out, e.1);
    WroteThen(b0, b1, out.bytes, after => PutUsize(e.0.0, PutNumber(8, e.0.1, after)), after => PutDomain(e.1, after),
      after => PutEntry(e, after));
  }

  method EncodeEntries(out: ByteBuffer, xs: seq<((nat, nat), RsqrtDomain)>)
    modifies out
    ensures Wrote(old(out.bytes), out.bytes, after => PutList(PutEntry, xs, after))
  {
    ghost var start := out.bytes;
    out.Number(8, |xs|);
    ghost var counted := out.bytes;
    for k := 0 to |xs|
      invariant Wrote(counted, out.bytes, after => PutAll(PutEntry, xs[..k], after))
    {
      ghost var middle := out.bytes;
      EncodeEntry(out, xs[k]);
      WroteOneMore(counted, middle, out.bytes, PutEntry, xs, k);
    }
    assert xs[..|xs|] == xs;
    ListWrote(start, counted, out.bytes, PutEntry, xs);
  }

  method EncodeInstructions(out: ByteBuffer, xs: seq<AssemblerInstruction>)
    modifies out
    ensures Wrote(old(out.bytes), out.bytes, after => PutList(PutInstruction, xs, after))
  {
    ghost var start := out.bytes;
    out.Number(8, |xs|);
    ghost var counted := out.bytes;
    for k := 0 to |xs|
      invariant Wrote(counted, out.bytes, after => PutAll(PutInstruction, xs[..k], after))
    {
      ghost var middle := out.bytes;
      EncodeInstruction(out, xs[k]);
      WroteOneMore(counted, middle, out.bytes, PutInstruction, xs, k);
    }
    assert xs[..|xs|] == xs;
    ListWrote(start, counted, out.bytes, PutInstruction, xs);
  }

  method EncodeDescriptors(out: ByteBuffer, xs: seq<Descriptor>)
    modifies out
    ensures Wrote(old(out.bytes), out.bytes, after => PutList(PutDescriptor, xs, after))
  {
    ghost var start := out.bytes;
    out.Number(8, |xs|);
    ghost var counted := out.bytes;
    for k := 0 to |xs|
      invariant Wrote(counted, out.bytes, after => PutAll(PutDescriptor, xs[..k], after))
    {
      ghost var middle := out.bytes;
      EncodeBoundaryDescriptor(out, xs[k]);
      WroteOneMore(counted, middle, out.bytes, PutDescriptor, xs, k);
    }
    assert xs[..|xs|] == xs;
    ListWrote(start, counted, out.bytes, PutDescriptor, xs);
  }

  method EncodeOutputs(out: ByteBuffer, xs: seq<(nat, Descriptor)>)
    modifies out
    ensures Wrote(old(out.bytes), out.bytes, after => PutList(PutOutput, xs, after))
  {
    ghost var start := out.bytes;
    out.Number(8, |xs|);
    ghost var counted := out.bytes;
    for k := 0 to |xs|
      invariant Wrote(counted, out.bytes, after => PutAll(PutOutput, xs[..k], after))
    {
      ghost var middle := out.bytes;
      EncodeOutput(out, xs[k]);
      WroteOneMore(counted, middle, out.bytes, PutOutput, xs, k);
    }
    assert xs[..|xs|] == xs;
    ListWrote(start, counted, out.bytes, PutOutput, xs);
  }

  method EncodeTensors(out: ByteBuffer, xs: seq<seq<I18>>)
    modifies out
    ensures Wrote(old(out.bytes), out.bytes, after => PutList(PutTensor, xs, after))
  {
    ghost var start := out.bytes;
    out.Number(8, |xs|);
    ghost var counted := out.bytes;
    for k := 0 to |xs|
      invariant Wrote(counted, out.bytes, after => PutAll(PutTensor, xs[..k], after))
    {
      ghost var middle := out.bytes;
      EncodeTensor(out, xs[k]);
      assert Wrote(middle, out.bytes, after => PutTensor(xs[k], after));
      WroteOneMore(counted, middle, out.bytes, PutTensor, xs, k);
    }
    assert xs[..|xs|] == xs;
    ListWrote(start, counted, out.bytes, PutTensor, xs);
  }

  method EncodeShapes(out: ByteBuffer, p: CircuitParams)
    modifies out
    ensures Wrote(old(out.bytes), out.bytes, after => PutShapes(p, after))
  {
    ghost var b0 := out.bytes;
    EncodeUsizes(out, p.inputShapes);
    ghost var b1 := out.bytes;
    EncodeUsizes(out, p.weightShapes);
    ghost var b2 := out.bytes;
    EncodeUsizes(out, p.publicOutputIndices);
    ghost var b3 := out.bytes;
    EncodeUsize(out, p.leafPrefixLen);
    forall after ensures out.bytes + after == b0 + PutShapes(p, after) {
      var l := PutUsize(p.leafPrefixLen, after);
      var o := PutList(PutUsize, p.publicOutputIndices, l);
      var w := PutList(PutUsize, p.weightShapes, o);
      assert out.bytes + after == b3 + l;
      assert b3 + l == b2 + o;
      assert b2 + o == b1 + w;
      assert b1 + w == b0 + PutList(PutUsize, p.inputShapes, w);
    }
  }

  method EncodeBoundaries(out: ByteBuffer, p: CircuitParams)
    modifies out
    ensures Wrote(old(out.bytes), out.bytes, after => PutBoundaries(p, after))
  {
    ghost var b0 := out.bytes;
    EncodeDescriptors(out, p.boundaryInputs);
    ghost var b1 := out.bytes;
    EncodeOutputs(out, p.boundaryOutputs);
    ghost var b2 := out.bytes;
    EncodeTensors(out, p.fixedPublicWeights);
    forall after ensures out.bytes + after == b0 + PutBoundaries(p, after) {
      var w := PutList(PutTensor, p.fixedPublicWeights, after);
      var o := PutList(PutOutput, p.boundaryOutputs, w);
      assert out.bytes + after == b2 + w;
      assert b2 + w == b1 + o;
      assert b1 + o == b0 + PutList(PutDescriptor, p.boundaryInputs, o);
    }
  }

  /** The domains in key order, as sorting the map's entries lists them. */
  method SortedEntries(m: map<(nat, nat), RsqrtDomain>) returns (entries: seq<((nat, nat), RsqrtDomain)>)
    ensures entries == Entries(m)
  {
    DomainKeyOrder();
    var keys := SortedVector(DomainKeyLe, m.Keys);
    entries := [];
    for i := 0 to |keys|
      invariant entries == Entries(m)[..i]
    {
      assert keys[i] in Elements(keys);
      entries := entries + [(keys[i], m[keys[i]])];
    }
    assert Entries(m)[..|keys|] == Entries(m);
  }

  method EncodeProgram(out: ByteBuffer, p: CircuitParams)
    modifies out
    ensures Wrote(old(out.bytes), out.bytes, after => PutProgram(p, after))
  {
    ghost var b0 := out.bytes;
    EncodeInstructions(out, p.instructions);
    ghost var b1 := out.bytes;
    var entries := SortedEntries(p.rmsNormDomains);
    EncodeEntries(out, entries);
    WroteThen(b0, b1, out.bytes, after => PutList(PutInstruction, p.instructions, after),
      after => PutList(PutEntry, entries, after),
              after => PutProgram(p, after));
  }

  method EncodeCanonicalShape(p: CircuitParams) returns (bytes: Bytes)
    ensures bytes == CanonicalShapeBytes(p)
  {
    bytes := EncodeAfter(Domain(), LayoutFamily(), LayoutName(|p.boundaryInputs| == 0 && |p.boundaryOutputs| == 0), p);
  }

  /** The three leading texts, then the fields. */
  method EncodeAfter(domain: Bytes, family: Bytes, layout: Bytes, p: CircuitParams) returns (bytes: Bytes)
    ensures bytes == domain + (family + (layout + PutShapes(p, PutBoundaries(p, PutProgram(p, [])))))
  {
    var out := new ByteBuffer(domain);
    out.Extend(family);
    out.Extend(layout);
    ghost var b0 := out.bytes;
    EncodeShapes(out, p);
    ghost var b1 := out.bytes;
    EncodeBoundaries(out, p);
    ghost var b2 := out.bytes;
    EncodeProgram(out, p);
    FieldsWrote(p, b0, b1, b2, out.bytes);
    Join(domain, family, layout, PutShapes(p, PutBoundaries(p, PutProgram(p, []))));
    bytes := out.bytes;
  }

  lemma {:induction false} Join(x: Bytes, y: Bytes, z: Bytes, w: Bytes)
    ensures x + y + z + w == x + (y + (z + w))
  {
  }

  lemma {:induction false} FieldsWrote(p: CircuitParams, b0: Bytes, b1: Bytes, b2: Bytes, b3: Bytes)
    requires Wrote(b0, b1, after => PutShapes(p, after)) && Wrote(b1, b2, after => PutBoundaries(p, after))
    requires Wrote(b2, b3, after => PutProgram(p, after))
    ensures b3 == b0 + PutShapes(p, PutBoundaries(p, PutProgram(p, [])))
  {
    var g := PutProgram(p, []);
    var d := PutBoundaries(p, g);
    assert b3 + [] == b2 + g;
    assert b2 + g == b1 + d;
    assert b1 + d == b0 + PutShapes(p, d);
    assert b3 + [] == b3;
  }
}
