/** The encoder and the decoder of leaf statements, step by step. */
module StatementCodec {
  import opened Prelude
  import opened Program
  import opened ByteCodec
  import opened PublicBoundary
  import opened LeafStatements

  // ----- writing -----

  method WriteText(out: ByteBuffer, s: string) returns (ok: bool)
    modifies out
    ensures ok <==> Sized(s)
    ensures ok ==> Wrote(old(out.bytes), out.bytes, after => PutText(s, after))
  {
    if |s| == 0 || |s| > MAX_TEXT_BYTES {
      return false;
    }
    ghost var start := out.bytes;
    out.Number(4, |s|);
    ghost var middle := out.bytes;
    out.Extend(BytesOf(s));
    BytesAppend(middle, BytesOf(s));
    WroteThen(start, middle, out.bytes, after => PutNumber(4, |s|, after), after => BytesOf(s) + after,
      after => PutText(s, after));
    ok := true;
  }

  method WriteTexts(out: ByteBuffer, xs: seq<string>) returns (ok: bool)
    modifies out
    ensures ok <==> AllSized(xs)
    ensures ok ==> Wrote(old(out.bytes), out.bytes, after => PutTexts(xs, after))
  {
    ghost var start := out.bytes;
    out.Number(4, |xs|);
    ghost var counted := out.bytes;
    for k := 0 to |xs|
      invariant AllSized(xs[..k]) && Wrote(counted, out.bytes, after => PutAll(PutText, xs[..k], after))
    {
      ghost var middle := out.bytes;
      var written := WriteText(out, xs[k]);
      if !written {
        return false;
      }
      WroteOneMore(counted, middle, out.bytes, PutText, xs, k);
      assert xs[..k + 1] == xs[..k] + [xs[k]];
    }
    assert xs[..|xs|] == xs;
    WroteThen(start, counted, out.bytes, after => PutNumber(4, |xs|, after), after => PutAll(PutText, xs, after),
      after => PutTexts(xs, after));
    ok := true;
  }

  /** The numbers at the end of a claim. */
  function PutQuantities(c: Binding, after: Bytes): Bytes {
    PutNumber(8, c.descriptor.elementCount, PutNumber(8, c.descriptor.scale, PutNumber(32, c.commitment, after)))
  }

  method WriteQuantities(out: ByteBuffer, c: Binding)
    modifies out
    ensures Wrote(old(out.bytes), out.bytes, after => PutQuantities(c, after))
  {
    ghost var b0 := out.bytes;
    out.Number(8, c.descriptor.elementCount);
    ghost var b1 := out.bytes;
    out.Number(8, c.descriptor.scale);
    ghost var b2 := out.bytes;
    out.Number(32, c.commitment);
    forall after ensures out.bytes + after == b0 + PutQuantities(c, after) {
      assert out.bytes + after == b2 + PutNumber(32, c.commitment, after);
      assert b2 + PutNumber(32, c.commitment, after)
        == b1 + PutNumber(8, c.descriptor.scale, PutNumber(32, c.commitment, after));
    }
  }

  method WriteClaim(out: ByteBuffer, c: Binding) returns (ok: bool)
    modifies out
    ensures ok <==> ClaimSized(c)
    ensures ok ==> Wrote(old(out.bytes), out.bytes, after => PutClaim(c, after))
  {
    var d := c.descriptor;
    ghost var b0 := out.bytes;
    out.Number(1, RoleByte(d.role));
    ghost var b1 := out.bytes;
    ok := WriteText(out, d.registerId);
    if !ok {
      return;
    }
    ghost var b2 := out.bytes;
    ok := WriteTexts(out, d.edgeIds);
    if !ok {
      return;
    }
    ghost var b3 := out.bytes;
    ok := WriteTexts(out, d.graphOutputNames);
    if !ok {
      return;
    }
    ghost var b4 := out.bytes;
    WriteQuantities(out, c);
    ClaimWrote(c, b0, b1, b2, b3, b4, out.bytes);
  }

  lemma {:induction false} ClaimWrote(c: Binding, b0: Bytes, b1: Bytes, b2: Bytes, b3: Bytes, b4: Bytes, b5: Bytes)
    requires Wrote(b0, b1, after => PutNumber(1, RoleByte(c.descriptor.role), after))
    requires Wrote(b1, b2, after => PutText(c.descriptor.registerId, after))
      && Wrote(b2, b3, after => PutTexts(c.descriptor.edgeIds, after))
    requires Wrote(b3, b4, after => PutTexts(c.descriptor.graphOutputNames, after))
      && Wrote(b4, b5, after => PutQuantities(c, after))
    ensures Wrote(b0, b5, after => PutClaim(c, after))
  {
    forall after ensures b5 + after == b0 + PutClaim(c, after) {
      var q := PutQuantities(c, after);
      var g := PutTexts(c.descriptor.graphOutputNames, q);
      var e := PutTexts(c.descriptor.edgeIds, g);
      assert b5 + after == b4 + q;
      assert b4 + q == b3 + g;
      assert b3 + g == b2 + e;
      assert b2 + e == b1 + PutText(c.descriptor.registerId, e);
    }
  }

  method WriteClaims(out: ByteBuffer, claims: seq<Binding>) returns (ok: bool)
    modifies out
    ensures ok <==> ClaimsSized(claims)
    ensures ok ==> Wrote(old(out.bytes), out.bytes, after => PutClaims(claims, after))
  {
    ghost var start := out.bytes;
    out.Number(4, |claims|);
    ghost var counted := out.bytes;
    for k := 0 to |claims|
      invariant ClaimsSized(claims[..k]) && Wrote(counted, out.bytes, after => PutAll(PutClaim, claims[..k], after))
    {
      ghost var middle := out.bytes;
      var written := WriteClaim(out, claims[k]);
      if !written {
        return false;
      }
      WroteOneMore(counted, middle, out.bytes, PutClaim, claims, k);
      assert claims[..k + 1] == claims[..k] + [claims[k]];
    }
    assert claims[..|claims|] == claims;
    WroteThen(start, counted, out.bytes, after => PutNumber(4, |claims|, after),
      after => PutAll(PutClaim, claims, after),
              after => PutClaims(claims, after));
    ok := true;
  }

  method WriteWeights(out: ByteBuffer, ws: seq<I18>)
    modifies out
    ensures Wrote(old(out.bytes), out.bytes, after => PutWeights(ws, after))
  {
    ghost var start := out.bytes;
    out.Number(4, |ws|);
    ghost var counted := out.bytes;
    for k := 0 to |ws|
      invariant Wrote(counted, out.bytes, after => PutAll(PutWeight, ws[..k], after))
    {
      ghost var middle := out.bytes;
      out.Number(8, Unsigned(ws[k]));
      assert Wrote(middle, out.bytes, after => PutWeight(ws[k], after));
      WroteOneMore(counted, middle, out.bytes, PutWeight, ws, k);
    }
    assert ws[..|ws|] == ws;
    WroteThen(start, counted, out.bytes, after => PutNumber(4, |ws|, after), after => PutAll(PutWeight, ws, after),
      after => PutWeights(ws, after));
  }

  method WriteDigests(out: ByteBuffer, s: LeafStatement)
    modifies out
    ensures Wrote(old(out.bytes), out.bytes, after => PutDigests(s, after))
  {
    ghost var b := out.bytes;
    out.Extend(s.circuit);
    out.Extend(s.partition);
    out.Extend(s.model);
    out.Extend(s.weights);
    forall after ensures out.bytes + after == b + PutDigests(s, after) {
      assert b + s.circuit + s.partition + s.model + s.weights + after
        == b + (s.circuit + (s.partition + (s.model + (s.weights + after))));
    }
  }

  method WriteIdentity(out: ByteBuffer, s: LeafStatement) returns (ok: bool)
    modifies out
    ensures ok <==> Sized(s.shardName) && Sized(s.proofFlavor)
    ensures ok ==> Wrote(old(out.bytes), out.bytes, after => PutIdentity(s, after))
  {
    ghost var b0 := out.bytes;
    out.Number(4, LEAF_STATEMENT_SCHEMA_VERSION);
    ghost var b1 := out.bytes;
    out.Number(8, s.shardId);
    ghost var b2 := out.bytes;
    ok := WriteText(out, s.shardName);
    if !ok {
      return;
    }
    ghost var b3 := out.bytes;
    WriteDigests(out, s);
    ghost var b4 := out.bytes;
    ok := WriteText(out, s.proofFlavor);
    if !ok {
      return;
    }
    ghost var b5 := out.bytes;
    out.Extend(s.verificationKey);
    BytesAppend(b5, s.verificationKey);
    IdentityWrote(s, b0, b1, b2, b3, b4, b5, out.bytes);
  }

  lemma {:induction false} IdentityWrote(
      s: LeafStatement, b0: Bytes, b1: Bytes, b2: Bytes, b3: Bytes, b4: Bytes, b5: Bytes, b6: Bytes)
    requires Wrote(b0, b1, after => PutNumber(4, LEAF_STATEMENT_SCHEMA_VERSION, after))
      && Wrote(b1, b2, after => PutNumber(8, s.shardId, after))
    requires Wrote(b2, b3, after => PutText(s.shardName, after)) && Wrote(b3, b4, after => PutDigests(s, after))
    requires Wrote(b4, b5, after => PutText(s.proofFlavor, after)) && Wrote(b5, b6, after => s.verificationKey + after)
    ensures Wrote(b0, b6, after => PutIdentity(s, after))
  {
    forall after ensures b6 + after == b0 + PutIdentity(s, after) {
      var k := s.verificationKey + after;
      var f := PutText(s.proofFlavor, k);
      var d := PutDigests(s, f);
      var n := PutText(s.shardName, d);
      assert b6 + after == b5 + k;
      assert b5 + k == b4 + f;
      assert b4 + f == b3 + d;
      assert b3 + d == b2 + n;
      assert b2 + n == b1 + PutNumber(8, s.shardId, n);
    }
  }

  method EncodeStatement(s: LeafStatement) returns (r: Option<Bytes>)
    ensures r == Encode(s)
  {
    if EncodedLen(s) > MAX_STATEMENT_BYTES {
      return None;
    }
    var out := new ByteBuffer(Magic());
    var ok := WriteIdentity(out, s);
    if !ok {
      return None;
    }
    ghost var b1 := out.bytes;
    ok := WriteClaims(out, s.inputClaims);
    if !ok {
      return None;
    }
    ghost var b2 := out.bytes;
    ok := WriteClaims(out, s.outputClaims);
    if !ok {
      return None;
    }
    ghost var b3 := out.bytes;
    WriteWeights(out, s.publicWeights);
    StatementWrote(s, b1, b2, b3, out.bytes);
    EncodedLenExact(s);
    if |out.bytes| > MAX_STATEMENT_BYTES {
      return None;
    }
    r := Some(out.bytes);
  }

  lemma {:induction false} StatementWrote(s: LeafStatement, b1: Bytes, b2: Bytes, b3: Bytes, b4: Bytes)
    requires Wrote(Magic(), b1, after => PutIdentity(s, after))
      && Wrote(b1, b2, after => PutClaims(s.inputClaims, after))
    requires Wrote(b2, b3, after => PutClaims(s.outputClaims, after))
      && Wrote(b3, b4, after => PutWeights(s.publicWeights, after))
    ensures b4 == StatementBytes(s)
  {
    var w := PutWeights(s.publicWeights, []);
    var o := PutClaims(s.outputClaims, w);
    assert b4 + [] == b3 + w;
    assert b3 + w == b2 + o;
    assert b2 + o == b1 + PutClaims(s.inputClaims, o);
    assert b4 + [] == b4;
  }

  // ----- reading -----

  method ReadText(cursor: Decoder, utf8: Utf8) returns (r: Option<string>)
    requires cursor.Valid()
    modifies cursor
    ensures cursor.Valid() && Yields(TakeText(utf8, old(cursor.Rest())), r, cursor.Rest())
  {
    var count := cursor.Number(4);
    if count.None? || count.value == 0 || count.value > MAX_TEXT_BYTES {
      return None;
    }
    var raw := cursor.Take(count.value);
    if raw.None? || !utf8(raw.value) {
      return None;
    }
    r := Some(TextOf(raw.value));
  }

  method ReadTexts(cursor: Decoder, utf8: Utf8) returns (r: Option<seq<string>>)
    requires cursor.Valid()
    modifies cursor
    ensures cursor.Valid() && Yields(TakeTexts(utf8, old(cursor.Rest())), r, cursor.Rest())
  {
    var count := cursor.Number(4);
    if count.None? || count.value > MAX_CLAIMS {
      return None;
    }
    r := NextTexts(cursor, utf8, count.value);
  }

  method NextTexts(cursor: Decoder, utf8: Utf8, n: nat) returns (r: Option<seq<string>>)
    requires cursor.Valid()
    modifies cursor
    ensures cursor.Valid() && Yields(TakeAll(TextReader(utf8), n, old(cursor.Rest())), r, cursor.Rest())
  {
    ghost var all := TakeAll(TextReader(utf8), n, cursor.Rest());
    ReadNothing(all);
    var values: seq<string> := [];
    for k := 0 to n
      invariant cursor.Valid() && all == ReadOn(values, TakeAll(TextReader(utf8), n - k, cursor.Rest()))
    {
      ReadOneMore(TextReader(utf8), values, n - k, cursor.Rest());
      var value := ReadText(cursor, utf8);
      if value.None? {
        return None;
      }
      values := values + [value.value];
    }
    ReadEnough(TextReader(utf8), values, cursor.Rest());
    r := Some(values);
  }

  method ReadQuantities(cursor: Decoder) returns (r: Option<(nat, nat, nat)>)
    requires cursor.Valid()
    modifies cursor
    ensures cursor.Valid() && Yields(TakeQuantities(old(cursor.Rest())), r, cursor.Rest())
  {
    var count := cursor.Number(8);
    if count.None? {
      return None;
    }
    var scale := cursor.Number(8);
    if scale.None? {
      return None;
    }
    var commitment := cursor.Number(32);
    if commitment.None? {
      return None;
    }
    r := Some((count.value, scale.value, commitment.value));
  }

  method ReadClaim(cursor: Decoder, utf8: Utf8, role: Role) returns (r: Option<Binding>)
    requires cursor.Valid()
    modifies cursor
    ensures cursor.Valid() && Yields(TakeClaim(utf8, role, old(cursor.Rest())), r, cursor.Rest())
  {
    var tag := cursor.Number(1);
    if tag.None? || tag.value != RoleByte(role) {
      return None;
    }
    var register := ReadText(cursor, utf8);
    if register.None? {
      return None;
    }
    var edges := ReadTexts(cursor, utf8);
    if edges.None? {
      return None;
    }
    var outputs := ReadTexts(cursor, utf8);
    if outputs.None? {
      return None;
    }
    var numbers := ReadQuantities(cursor);
    if numbers.None? {
      return None;
    }
    var d := Descriptor(role, register.value, edges.value, outputs.value, numbers.value.0, numbers.value.1);
    if !ValidDescriptor(utf8, d) || numbers.value.2 >= FIELD_MODULUS {
      return None;
    }
    r := Some(Binding(d, numbers.value.2));
  }

  method ReadClaims(cursor: Decoder, utf8: Utf8, role: Role) returns (r: Option<seq<Binding>>)
    requires cursor.Valid()
    modifies cursor
    ensures cursor.Valid() && Yields(TakeClaims(utf8, role, old(cursor.Rest())), r, cursor.Rest())
  {
    var count := cursor.Number(4);
    if count.None? || count.value > MAX_CLAIMS {
      return None;
    }
    r := NextClaims(cursor, utf8, role, count.value);
  }

  method NextClaims(cursor: Decoder, utf8: Utf8, role: Role, n: nat) returns (r: Option<seq<Binding>>)
    requires cursor.Valid()
    modifies cursor
    ensures cursor.Valid() && Yields(TakeAll(ClaimReader(utf8, role), n, old(cursor.Rest())), r, cursor.Rest())
  {
    ghost var all := TakeAll(ClaimReader(utf8, role), n, cursor.Rest());
    ReadNothing(all);
    var values: seq<Binding> := [];
    for k := 0 to n
      invariant cursor.Valid() && all == ReadOn(values, TakeAll(ClaimReader(utf8, role), n - k, cursor.Rest()))
    {
      ReadOneMore(ClaimReader(utf8, role), values, n - k, cursor.Rest());
      var value := ReadClaim(cursor, utf8, role);
      if value.None? {
        return None;
      }
      values := values + [value.value];
    }
    ReadEnough(ClaimReader(utf8, role), values, cursor.Rest());
    r := Some(values);
  }

  method ReadWeights(cursor: Decoder) returns (r: Option<seq<I18>>)
    requires cursor.Valid()
    modifies cursor
    ensures cursor.Valid() && Yields(TakeWeights(old(cursor.Rest())), r, cursor.Rest())
  {
    var count := cursor.Number(4);
    if count.None? || count.value > MAX_PUBLIC_WEIGHTS {
      return None;
    }
    r := NextWeights(cursor, count.value);
  }

  method NextWeights(cursor: Decoder, n: nat) returns (r: Option<seq<I18>>)
    requires cursor.Valid()
    modifies cursor
    ensures cursor.Valid() && Yields(TakeAll(TakeWeight, n, old(cursor.Rest())), r, cursor.Rest())
  {
    ghost var all := TakeAll(TakeWeight, n, cursor.Rest());
    ReadNothing(all);
    var values: seq<I18> := [];
    for k := 0 to n
      invariant cursor.Valid() && all == ReadOn(values, TakeAll(TakeWeight, n - k, cursor.Rest()))
    {
      ReadOneMore(TakeWeight, values, n - k, cursor.Rest());
      var value := ReadWeight(cursor);
      if value.None? {
        return None;
      }
      values := values + [value.value];
    }
    ReadEnough(TakeWeight, values, cursor.Rest());
    r := Some(values);
  }

  method ReadWeight(cursor: Decoder) returns (r: Option<I18>)
    requires cursor.Valid()
    modifies cursor
    ensures cursor.Valid() && Yields(TakeWeight(old(cursor.Rest())), r, cursor.Rest())
  {
    WeightFits(cursor.Rest());
    var raw := cursor.Number(8);
    if raw.None? {
      return None;
    }
    r := Some(Signed(raw.value));
  }

  /** Eight bytes never exceed 64 bits. */
  lemma {:induction false} WeightFits(b: Bytes)
    ensures TakeNumber(8, b).Some? ==> TakeNumber(8, b).value.0 < U64_BOUND
  {
    Powers();
    if TakeNumber(8, b).Some? {
      NumberExact(8, b, TakeNumber(8, b).value.0, TakeNumber(8, b).value.1);
    }
  }

  method ReadDigests(cursor: Decoder) returns (r: Option<(Bytes, Bytes, Bytes, Bytes)>)
    requires cursor.Valid()
    modifies cursor
    ensures cursor.Valid() && Yields(TakeDigests(old(cursor.Rest())), r, cursor.Rest())
  {
    var circuit := cursor.Take(32);
    if circuit.None? {
      return None;
    }
    var partition := cursor.Take(32);
    if partition.None? {
      return None;
    }
    var model := cursor.Take(32);
    if model.None? {
      return None;
    }
    var weights := cursor.Take(32);
    if weights.None? {
      return None;
    }
    r := Some((circuit.value, partition.value, model.value, weights.value));
  }

  method ReadIdentity(cursor: Decoder, utf8: Utf8) returns (r: Option<LeafStatement>)
    requires cursor.Valid()
    modifies cursor
    ensures cursor.Valid() && Yields(TakeIdentity(utf8, old(cursor.Rest())), r, cursor.Rest())
  {
    var version := cursor.Number(4);
    if version.None? || version.value != LEAF_STATEMENT_SCHEMA_VERSION {
      return None;
    }
    WeightFits(cursor.Rest());
    var shard := cursor.Number(8);
    if shard.None? {
      return None;
    }
    var name := ReadText(cursor, utf8);
    if name.None? {
      return None;
    }
    ghost var named := cursor.Rest();
    var digests := ReadDigests(cursor);
    if digests.None? {
      return None;
    }
    DigestsRead(named, digests.value, cursor.Rest());
    var flavor := ReadText(cursor, utf8);
    if flavor.None? || !Ascii(flavor.value) {
      return None;
    }
    var key := cursor.Take(32);
    if key.None? {
      return None;
    }
    var d := digests.value;
    r := Some(LeafStatement(shard.value, name.value, d.0, d.1, d.2, d.3, flavor.value, key.value, [], [], []));
  }

  method DecodeStatement(utf8: Utf8, bytes: Bytes) returns (r: Option<LeafStatement>)
    ensures r == Decode(utf8, bytes)
  {
    if |bytes| > MAX_STATEMENT_BYTES || !(Magic() <= bytes) {
      return None;
    }
    var cursor := new Decoder(bytes, |Magic()|);
    var identity := ReadIdentity(cursor, utf8);
    if identity.None? {
      return None;
    }
    var inputs := ReadClaims(cursor, utf8, Role.Input);
    if inputs.None? {
      return None;
    }
    var outputs := ReadClaims(cursor, utf8, Role.Output);
    if outputs.None? {
      return None;
    }
    var weights := ReadWeights(cursor);
    if weights.None? || cursor.offset != |bytes| || |inputs.value| + |outputs.value| > MAX_CLAIMS {
      return None;
    }
    r := Some(identity.value.(
      inputClaims := inputs.value, outputClaims := outputs.value, publicWeights := weights.value));
  }
}
