/** The binary form of a leaf's public statement: what is written, and exactly what is accepted back. */
module LeafStatements {
  import opened Prelude
  import opened Program
  import opened ByteCodec
  import opened PublicBoundary

  const MAX_STATEMENT_BYTES: nat := 0x10_0000
  const MAX_CLAIMS: nat := 0x1000
  const MAX_TEXT_BYTES: nat := 0x1000
  const MAX_PUBLIC_WEIGHTS: nat := MAX_CLAIMS * 256
  const MAX_BOUNDARY_ELEMENTS: nat := 0x2000
  const MAX_BOUNDARY_IDENTITIES: nat := 64
  const MAX_BOUNDARY_ID_BYTES: nat := 256
  const LEAF_STATEMENT_SCHEMA_VERSION: nat := 2

  /** The order of the BN254 scalar field, below which a field element's representation is canonical. */
  const FIELD_MODULUS: nat := 0x30644e72e131a029b85045b68181585d2833e84879b9709143e1f593f0000001

  function Magic(): Bytes { BytesOf("zkie.leaf-statement.v1\0") }

  /** Whether some bytes are well-formed UTF-8. */
  type Utf8 = Bytes -> bool

  type Digest32 = b: Bytes | |b| == 32 witness seq(32, _ => 0)

  datatype LeafStatement = LeafStatement(
    shardId: U64, shardName: string, circuit: Digest32, partition: Digest32, model: Digest32, weights: Digest32,
    proofFlavor: string, verificationKey: Digest32,
    inputClaims: seq<Binding>, outputClaims: seq<Binding>, publicWeights: seq<I18>)

  // ----- what a statement guarantees -----

  predicate Sized(s: string) { 1 <= |s| <= MAX_TEXT_BYTES }

  predicate ValidText(utf8: Utf8, s: string) {
    Sized(s) && ByteText(s) && utf8(BytesOf(s))
  }

  predicate ValidId(utf8: Utf8, s: string) {
    ValidText(utf8, s) && |s| <= MAX_BOUNDARY_ID_BYTES
  }

  predicate StrictlySorted(xs: seq<string>) {
    forall i, j :: 0 <= i < |xs| && i < j < |xs| && j == i + 1 ==> TextLess(xs[i], xs[j])
  }

  predicate ValidDescriptor(utf8: Utf8, d: Descriptor) {
    && 0 < d.elementCount <= MAX_BOUNDARY_ELEMENTS && d.scale < U64_BOUND
    && |d.edgeIds| + |d.graphOutputNames| <= MAX_BOUNDARY_IDENTITIES && ValidId(utf8, d.registerId)
    && (forall i :: 0 <= i < |d.edgeIds| ==> ValidId(utf8, d.edgeIds[i]))
    && (forall i :: 0 <= i < |d.graphOutputNames| ==> ValidId(utf8, d.graphOutputNames[i]))
    && StrictlySorted(d.edgeIds) && StrictlySorted(d.graphOutputNames)
  }

  predicate ValidClaim(utf8: Utf8, role: Role, c: Binding) {
    c.descriptor.role == role && ValidDescriptor(utf8, c.descriptor) && c.commitment < FIELD_MODULUS
  }

  predicate ValidClaims(utf8: Utf8, role: Role, claims: seq<Binding>) {
    |claims| <= MAX_CLAIMS && forall i :: 0 <= i < |claims| ==> ValidClaim(utf8, role, claims[i])
  }

  predicate Ascii(s: string) { forall i :: 0 <= i < |s| ==> s[i] as int < 128 }

  /** Established by the constructors of a statement and of its parts. */
  predicate Valid(utf8: Utf8, s: LeafStatement) {
    && ValidText(utf8, s.shardName) && |s.proofFlavor| > 0 && Ascii(s.proofFlavor) && utf8(BytesOf(s.proofFlavor))
    && ValidClaims(utf8, Role.Input, s.inputClaims) && ValidClaims(utf8, Role.Output, s.outputClaims)
    && |s.inputClaims| + |s.outputClaims| <= MAX_CLAIMS && |s.publicWeights| <= MAX_PUBLIC_WEIGHTS
  }

  // ----- what is written -----

  function PutText(s: string, after: Bytes): Bytes { PutNumber(4, |s|, BytesOf(s) + after) }

  function PutTexts(xs: seq<string>, after: Bytes): Bytes { PutNumber(4, |xs|, PutAll(PutText, xs, after)) }

  function RoleByte(role: Role): nat { if role.Input? then 1 else 2 }

  function PutClaim(c: Binding, after: Bytes): Bytes {
    var d := c.descriptor;
    PutNumber(1, RoleByte(d.role),
      PutText(d.registerId, PutTexts(d.edgeIds, PutTexts(d.graphOutputNames,
        PutNumber(8, d.elementCount, PutNumber(8, d.scale, PutNumber(32, c.commitment, after)))))))
  }

  function PutClaims(
      claims: seq<Binding>, after: Bytes): Bytes { PutNumber(4, |claims|, PutAll(PutClaim, claims, after)) }

  function PutWeight(v: I18, after: Bytes): Bytes { PutNumber(8, Unsigned(v), after) }

  function PutWeights(ws: seq<I18>, after: Bytes): Bytes { PutNumber(4, |ws|, PutAll(PutWeight, ws, after)) }

  function PutDigests(
      s: LeafStatement, after: Bytes): Bytes { s.circuit + (s.partition + (s.model + (s.weights + after))) }

  /** Everything before the claims. */
  function PutIdentity(s: LeafStatement, after: Bytes): Bytes {
    PutNumber(4, LEAF_STATEMENT_SCHEMA_VERSION, PutNumber(8, s.shardId,
      PutText(s.shardName, PutDigests(s, PutText(s.proofFlavor, s.verificationKey + after)))))
  }

  function PutClaimsAndWeights(s: LeafStatement, after: Bytes): Bytes {
    PutClaims(s.inputClaims, PutClaims(s.outputClaims, PutWeights(s.publicWeights, after)))
  }

  function StatementBytes(s: LeafStatement): Bytes {
    Magic() + PutIdentity(s, PutClaimsAndWeights(s, []))
  }

  // ----- how long it is -----

  function TextsLength(xs: seq<string>): nat {
    if |xs| == 0 then 0 else 4 + |xs[0]| + TextsLength(xs[1..])
  }

  function ClaimLength(c: Binding): nat {
    1 + 4 + |c.descriptor.registerId| + 4 + 4 + 8 + 8 + 32 + TextsLength(c.descriptor.edgeIds)
      + TextsLength(c.descriptor.graphOutputNames)
  }

  function ClaimsLength(claims: seq<Binding>): nat {
    if |claims| == 0 then 0 else ClaimLength(claims[0]) + ClaimsLength(claims[1..])
  }

  function EncodedLen(s: LeafStatement): nat {
    |Magic()| + 4 + 8 + 4 + |s.shardName| + 4 * 32 + 4 + |s.proofFlavor| + 32 + 4 + 4 + 4
    + ClaimsLength(s.inputClaims) + ClaimsLength(s.outputClaims) + 8 * |s.publicWeights|
  }

  lemma {:induction false} TextLength(s: string, after: Bytes)
    ensures |PutText(s, after)| == 4 + |s| + |after|
  {
    NumberLength(4, |s|, BytesOf(s) + after);
  }

  lemma {:induction false} AllTextsLength(xs: seq<string>, after: Bytes)
    ensures |PutAll(PutText, xs, after)| == TextsLength(xs) + |after|
  {
    if |xs| > 0 {
      AllTextsLength(xs[1..], after);
      TextLength(xs[0], PutAll(PutText, xs[1..], after));
    }
  }

  lemma {:induction false} TextListLength(xs: seq<string>, after: Bytes)
    ensures |PutTexts(xs, after)| == 4 + TextsLength(xs) + |after|
  {
    AllTextsLength(xs, after);
    NumberLength(4, |xs|, PutAll(PutText, xs, after));
  }

  lemma {:induction false} OneClaimLength(c: Binding, after: Bytes)
    ensures |PutClaim(c, after)| == ClaimLength(c) + |after|
  {
    var d := c.descriptor;
    var b6 := PutNumber(32, c.commitment, after);
    var b5 := PutNumber(8, d.scale, b6);
    var b4 := PutNumber(8, d.elementCount, b5);
    NumberLength(32, c.commitment, after);
    NumberLength(8, d.scale, b6);
    NumberLength(8, d.elementCount, b5);
    TextListLength(d.graphOutputNames, b4);
    TextListLength(d.edgeIds, PutTexts(d.graphOutputNames, b4));
    TextLength(d.registerId, PutTexts(d.edgeIds, PutTexts(d.graphOutputNames, b4)));
    NumberLength(1, RoleByte(d.role), PutText(d.registerId, PutTexts(d.edgeIds, PutTexts(d.graphOutputNames, b4))));
  }

  lemma {:induction false} AllClaimsLength(claims: seq<Binding>, after: Bytes)
    ensures |PutAll(PutClaim, claims, after)| == ClaimsLength(claims) + |after|
  {
    if |claims| > 0 {
      AllClaimsLength(claims[1..], after);
      OneClaimLength(claims[0], PutAll(PutClaim, claims[1..], after));
    }
  }

  lemma {:induction false} ClaimListLength(claims: seq<Binding>, after: Bytes)
    ensures |PutClaims(claims, after)| == 4 + ClaimsLength(claims) + |after|
  {
    AllClaimsLength(claims, after);
    NumberLength(4, |claims|, PutAll(PutClaim, claims, after));
  }

  lemma {:induction false} AllWeightsLength(ws: seq<I18>, after: Bytes)
    ensures |PutAll(PutWeight, ws, after)| == 8 * |ws| + |after|
  {
    if |ws| > 0 {
      AllWeightsLength(ws[1..], after);
      NumberLength(8, Unsigned(ws[0]), PutAll(PutWeight, ws[1..], after));
    }
  }

  lemma {:induction false} IdentityLength(s: LeafStatement, after: Bytes)
    ensures |PutIdentity(s, after)| == 4 + 8 + 4 + |s.shardName| + 4 * 32 + 4 + |s.proofFlavor| + 32 + |after|
  {
    var b4 := PutDigests(s, PutText(s.proofFlavor, s.verificationKey + after));
    TextLength(s.proofFlavor, s.verificationKey + after);
    TextLength(s.shardName, b4);
    NumberLength(8, s.shardId, PutText(s.shardName, b4));
    NumberLength(4, LEAF_STATEMENT_SCHEMA_VERSION, PutNumber(8, s.shardId, PutText(s.shardName, b4)));
  }

  /** The length computed ahead of writing is the length written. */
  lemma {:induction false} EncodedLenExact(s: LeafStatement)
    ensures |StatementBytes(s)| == EncodedLen(s)
  {
    var b3 := PutWeights(s.publicWeights, []);
    var b2 := PutClaims(s.outputClaims, b3);
    AllWeightsLength(s.publicWeights, []);
    NumberLength(4, |s.publicWeights|, PutAll(PutWeight, s.publicWeights, []));
    ClaimListLength(s.outputClaims, b3);
    ClaimListLength(s.inputClaims, b2);
    IdentityLength(s, PutClaims(s.inputClaims, b2));
  }

  // ----- encoding -----

  predicate AllSized(xs: seq<string>) { forall i :: 0 <= i < |xs| ==> Sized(xs[i]) }

  predicate ClaimSized(c: Binding) {
    Sized(c.descriptor.registerId) && AllSized(c.descriptor.edgeIds) && AllSized(c.descriptor.graphOutputNames)
  }

  predicate ClaimsSized(claims: seq<Binding>) { forall i :: 0 <= i < |claims| ==> ClaimSized(claims[i]) }

  /** Texts of an allowed length, and no more than the size limit in all. */
  predicate Encodable(s: LeafStatement) {
    && EncodedLen(s) <= MAX_STATEMENT_BYTES && Sized(s.shardName) && Sized(s.proofFlavor)
    && ClaimsSized(s.inputClaims) && ClaimsSized(s.outputClaims)
  }

  function Encode(s: LeafStatement): Option<Bytes> {
    if Encodable(s) then Some(StatementBytes(s)) else None
  }

  // ----- what is read -----

  function TakeText(utf8: Utf8, b: Bytes): Reading<string> {
    var count :- TakeNumber(4, b);
    if count.0 == 0 || count.0 > MAX_TEXT_BYTES then None
    else
      var raw :- TakeBytes(count.0, count.1);
      if utf8(raw.0) then Some((TextOf(raw.0), raw.1)) else None
  }

  function TextReader(utf8: Utf8): Take<string> { b => TakeText(utf8, b) }

  function TakeTexts(utf8: Utf8, b: Bytes): Reading<seq<string>> {
    var count :- TakeNumber(4, b);
    if count.0 > MAX_CLAIMS then None else TakeAll(TextReader(utf8), count.0, count.1)
  }

  function TakeClaim(utf8: Utf8, role: Role, b: Bytes): Reading<Binding> {
    var tag :- TakeNumber(1, b);
    if tag.0 != RoleByte(role) then None
    else
      var register :- TakeText(utf8, tag.1);
      var edges :- TakeTexts(utf8, register.1);
      var outputs :- TakeTexts(utf8, edges.1);
      var numbers :- TakeQuantities(outputs.1);
      var d := Descriptor(role, register.0, edges.0, outputs.0, numbers.0.0, numbers.0.1);
      if ValidDescriptor(utf8, d) && numbers.0.2 < FIELD_MODULUS then Some((Binding(d, numbers.0.2), numbers.1))
        else None
  }

  /** The element count, the scale and the commitment. */
  function TakeQuantities(b: Bytes): Reading<(nat, nat, nat)> {
    var count :- TakeNumber(8, b);
    var scale :- TakeNumber(8, count.1);
    var commitment :- TakeNumber(32, scale.1);
    Some(((count.0, scale.0, commitment.0), commitment.1))
  }

  function ClaimReader(utf8: Utf8, role: Role): Take<Binding> { b => TakeClaim(utf8, role, b) }

  function TakeClaims(utf8: Utf8, role: Role, b: Bytes): Reading<seq<Binding>> {
    var count :- TakeNumber(4, b);
    if count.0 > MAX_CLAIMS then None else TakeAll(ClaimReader(utf8, role), count.0, count.1)
  }

  function TakeWeight(b: Bytes): Reading<I18> {
    var raw :- TakeNumber(8, b);
    if raw.0 < U64_BOUND then Some((Signed(raw.0), raw.1)) else None
  }

  function TakeWeights(b: Bytes): Reading<seq<I18>> {
    var count :- TakeNumber(4, b);
    if count.0 > MAX_PUBLIC_WEIGHTS then None else TakeAll(TakeWeight, count.0, count.1)
  }

  function TakeDigests(b: Bytes): Reading<(Bytes, Bytes, Bytes, Bytes)> {
    var circuit :- TakeBytes(32, b);
    var partition :- TakeBytes(32, circuit.1);
    var model :- TakeBytes(32, partition.1);
    var weights :- TakeBytes(32, model.1);
    Some(((circuit.0, partition.0, model.0, weights.0), weights.1))
  }

  /** A statement without claims. */
  function TakeIdentity(utf8: Utf8, b: Bytes): Reading<LeafStatement> {
    var version :- TakeNumber(4, b);
    if version.0 != LEAF_STATEMENT_SCHEMA_VERSION then None
    else
      var shard :- TakeNumber(8, version.1);
      var name :- TakeText(utf8, shard.1);
      var digests :- TakeDigests(name.1);
      var flavor :- TakeText(utf8, digests.1);
      var key :- TakeBytes(32, flavor.1);
      if Ascii(flavor.0) && shard.0 < U64_BOUND then
        Some((LeafStatement(shard.0, name.0, digests.0.0, digests.0.1, digests.0.2, digests.0.3, flavor.0, key.0, [],
          [], []), key.1))
      else None
  }

  function Decode(utf8: Utf8, b: Bytes): Option<LeafStatement> {
    if |b| > MAX_STATEMENT_BYTES || !(Magic() <= b) then None
    else
      var identity :- TakeIdentity(utf8, b[|Magic()|..]);
      var ((inputs, outputs, weights), rest) :- TakeClaimsAndWeights(utf8, identity.1);
      if |rest| != 0 || |inputs| + |outputs| > MAX_CLAIMS then None
      else Some(identity.0.(inputClaims := inputs, outputClaims := outputs, publicWeights := weights))
  }

  function TakeClaimsAndWeights(utf8: Utf8, b: Bytes): Reading<(seq<Binding>, seq<Binding>, seq<I18>)> {
    var inputs :- TakeClaims(utf8, Role.Input, b);
    var outputs :- TakeClaims(utf8, Role.Output, inputs.1);
    var weights :- TakeWeights(outputs.1);
    Some(((inputs.0, outputs.0, weights.0), weights.1))
  }

  // ----- reading undoes writing -----

  lemma {:induction false} TextReads(utf8: Utf8, b: Bytes, s: string, after: Bytes)
    ensures TakeText(utf8, b) == Some((s, after)) <==> ValidText(utf8, s) && b == PutText(s, after)
  {
    Powers();
    NumberExact(4, b, |s|, BytesOf(s) + after);
    BytesExact(|s|, BytesOf(s) + after, BytesOf(s), after);
    TextExact(BytesOf(s), s);
    if TakeText(utf8, b) == Some((s, after)) {
      var count := TakeNumber(4, b).value;
      var raw := TakeBytes(count.0, count.1).value;
      NumberExact(4, b, count.0, count.1);
      BytesExact(count.0, count.1, raw.0, after);
      TextExact(raw.0, s);
    }
  }

  lemma {:induction false} TextsRead(utf8: Utf8, b: Bytes, xs: seq<string>, after: Bytes)
    ensures TakeTexts(utf8, b) == Some((xs, after)) <==>
      |xs| <= MAX_CLAIMS && (forall i :: 0 <= i < |xs| ==> ValidText(utf8, xs[i])) && b == PutTexts(xs, after)
  {
    Powers();
    var take, valid := TextReader(utf8), s => ValidText(utf8, s);
    forall c, s, rest
      ensures take(c) == Some((s, rest)) <==> valid(s) && c == PutText(s, rest)
    {
      TextReads(utf8, c, s, rest);
    }
    ListReads(PutText, take, valid, 4, MAX_CLAIMS, b, xs, after);
  }

  /** A counted list, with a limit on the count. */
  lemma {:induction false} ListReads<T(!new)>(
      put: Put<T>, take: Take<T>, valid: T -> bool, width: nat, limit: nat, b: Bytes, xs: seq<T>, after: Bytes)
    requires Exact(put, take, valid) && limit < Power256(width)
    ensures (match TakeNumber(width, b) case None => false
             case Some(count) => count.0 <= limit && TakeAll(take, count.0, count.1) == Some((xs, after))) <==>
      |xs| <= limit && (forall i :: 0 <= i < |xs| ==> valid(xs[i]))
        && b == PutNumber(width, |xs|, PutAll(put, xs, after))
  {
    NumberExact(width, b, |xs|, PutAll(put, xs, after));
    AllExact(put, take, valid, |xs|, PutAll(put, xs, after), xs, after);
    if TakeNumber(width, b).Some? {
      var count := TakeNumber(width, b).value;
      NumberExact(width, b, count.0, count.1);
      AllExact(put, take, valid, count.0, count.1, xs, after);
    }
  }

  lemma {:induction false} QuantitiesRead(b: Bytes, q: (nat, nat, nat), after: Bytes)
    ensures TakeQuantities(b) == Some((q, after)) <==>
      && q.0 < U64_BOUND && q.1 < U64_BOUND && q.2 < Power256(32)
      && b == PutNumber(8, q.0, PutNumber(8, q.1, PutNumber(32, q.2, after)))
  {
    Powers();
    var b2 := PutNumber(32, q.2, after);
    var b1 := PutNumber(8, q.1, b2);
    NumberExact(8, b, q.0, b1);
    NumberExact(8, b1, q.1, b2);
    NumberExact(32, b2, q.2, after);
    if TakeQuantities(b) == Some((q, after)) {
      var count := TakeNumber(8, b).value;
      var scale := TakeNumber(8, count.1).value;
      NumberExact(8, b, q.0, count.1);
      NumberExact(8, count.1, q.1, scale.1);
      NumberExact(32, scale.1, q.2, after);
    }
  }

  lemma {:induction false} ModulusFits()
    ensures FIELD_MODULUS < Power256(32)
  {
    Powers();
    assert Power256(9) == 256 * U64_BOUND;
    assert Power256(12) == 0x1_0000_0000 * U64_BOUND;
    assert Power256(16) == U64_BOUND * U64_BOUND;
    assert Power256(20) == 0x1_0000_0000 * U64_BOUND * U64_BOUND;
    assert Power256(24) == U64_BOUND * U64_BOUND * U64_BOUND;
    assert Power256(28) == 0x1_0000_0000 * U64_BOUND * U64_BOUND * U64_BOUND;
    assert Power256(32) == U64_BOUND * U64_BOUND * U64_BOUND * U64_BOUND;
  }

  lemma {:induction false} ClaimReads(utf8: Utf8, role: Role, b: Bytes, c: Binding, after: Bytes)
    ensures TakeClaim(utf8, role, b) == Some((c, after)) <==> ValidClaim(utf8, role, c) && b == PutClaim(c, after)
  {
    if TakeClaim(utf8, role, b) == Some((c, after)) {
      ClaimWasWritten(utf8, role, b, c, after);
    }
    if ValidClaim(utf8, role, c) && b == PutClaim(c, after) {
      ClaimReadsBack(utf8, role, c, after);
    }
  }

  lemma {:induction false} ClaimWasWritten(utf8: Utf8, role: Role, b: Bytes, c: Binding, after: Bytes)
    requires TakeClaim(utf8, role, b) == Some((c, after))
    ensures ValidClaim(utf8, role, c) && b == PutClaim(c, after)
  {
    var tag := TakeNumber(1, b).value;
    var register := TakeText(utf8, tag.1).value;
    var edges := TakeTexts(utf8, register.1).value;
    var outputs := TakeTexts(utf8, edges.1).value;
    var numbers := TakeQuantities(outputs.1).value;
    NumberExact(1, b, tag.0, tag.1);
    TextReads(utf8, tag.1, register.0, register.1);
    TextsRead(utf8, register.1, edges.0, edges.1);
    TextsRead(utf8, edges.1, outputs.0, outputs.1);
    QuantitiesRead(outputs.1, numbers.0, numbers.1);
  }

  lemma {:induction false} ClaimReadsBack(utf8: Utf8, role: Role, c: Binding, after: Bytes)
    requires ValidClaim(utf8, role, c)
    ensures TakeClaim(utf8, role, PutClaim(c, after)) == Some((c, after))
  {
    var d := c.descriptor;
    var b4 := PutNumber(8, d.elementCount, PutNumber(8, d.scale, PutNumber(32, c.commitment, after)));
    var b3 := PutTexts(d.graphOutputNames, b4);
    var b2 := PutTexts(d.edgeIds, b3);
    var b1 := PutText(d.registerId, b2);
    Powers();
    ModulusFits();
    NumberExact(1, PutClaim(c, after), RoleByte(role), b1);
    TextReads(utf8, b1, d.registerId, b2);
    TextsRead(utf8, b2, d.edgeIds, b3);
    TextsRead(utf8, b3, d.graphOutputNames, b4);
    QuantitiesRead(b4, (d.elementCount, d.scale, c.commitment), after);
  }

  lemma {:induction false} ClaimsRead(utf8: Utf8, role: Role, b: Bytes, claims: seq<Binding>, after: Bytes)
    ensures TakeClaims(utf8, role, b) == Some((claims, after)) <==>
      ValidClaims(utf8, role, claims) && b == PutClaims(claims, after)
  {
    Powers();
    var take, valid := ClaimReader(utf8, role), c => ValidClaim(utf8, role, c);
    forall s, c, rest
      ensures take(s) == Some((c, rest)) <==> valid(c) && s == PutClaim(c, rest)
    {
      ClaimReads(utf8, role, s, c, rest);
    }
    ListReads(PutClaim, take, valid, 4, MAX_CLAIMS, b, claims, after);
  }

  lemma {:induction false} WeightReads(b: Bytes, v: I18, after: Bytes)
    ensures TakeWeight(b) == Some((v, after)) <==> b == PutWeight(v, after)
  {
    Powers();
    NumberExact(8, b, Unsigned(v), after);
    if TakeNumber(8, b).Some? {
      var raw := TakeNumber(8, b).value;
      NumberExact(8, b, raw.0, raw.1);
      assert raw.0 < U64_BOUND ==> (Signed(raw.0) == v <==> raw.0 == Unsigned(v));
    }
  }

  lemma {:induction false} WeightsRead(b: Bytes, ws: seq<I18>, after: Bytes)
    ensures TakeWeights(b) == Some((ws, after)) <==> |ws| <= MAX_PUBLIC_WEIGHTS && b == PutWeights(ws, after)
  {
    Powers();
    forall s, v: I18, rest
      ensures TakeWeight(s) == Some((v, rest)) <==> s == PutWeight(v, rest)
    {
      WeightReads(s, v, rest);
    }
    ListReads(PutWeight, TakeWeight, _ => true, 4, MAX_PUBLIC_WEIGHTS, b, ws, after);
  }

  lemma {:induction false} DigestsRead(b: Bytes, d: (Bytes, Bytes, Bytes, Bytes), after: Bytes)
    ensures TakeDigests(b) == Some((d, after)) <==>
      |d.0| == 32 && |d.1| == 32 && |d.2| == 32 && |d.3| == 32 && b == d.0 + (d.1 + (d.2 + (d.3 + after)))
  {
    BytesExact(32, b, d.0, d.1 + (d.2 + (d.3 + after)));
    BytesExact(32, d.1 + (d.2 + (d.3 + after)), d.1, d.2 + (d.3 + after));
    BytesExact(32, d.2 + (d.3 + after), d.2, d.3 + after);
    BytesExact(32, d.3 + after, d.3, after);
    if TakeDigests(b) == Some((d, after)) {
      var circuit := TakeBytes(32, b).value;
      var partition := TakeBytes(32, circuit.1).value;
      var model := TakeBytes(32, partition.1).value;
      BytesExact(32, b, d.0, circuit.1);
      BytesExact(32, circuit.1, d.1, partition.1);
      BytesExact(32, partition.1, d.2, model.1);
      BytesExact(32, model.1, d.3, after);
    }
  }

  /** The part of a statement before its claims. */
  function IdentityOf(
      s: LeafStatement): LeafStatement { s.(inputClaims := [], outputClaims := [], publicWeights := []) }

  predicate ValidIdentity(utf8: Utf8, s: LeafStatement) {
    ValidText(utf8, s.shardName) && ValidText(utf8, s.proofFlavor) && Ascii(s.proofFlavor)
  }

  lemma {:induction false} IdentityWasWritten(utf8: Utf8, b: Bytes, s: LeafStatement, after: Bytes)
    requires TakeIdentity(utf8, b) == Some((s, after))
    ensures ValidIdentity(utf8, s) && b == PutIdentity(s, after) && IdentityOf(s) == s
  {
    var version := TakeNumber(4, b).value;
    var shard := TakeNumber(8, version.1).value;
    var name := TakeText(utf8, shard.1).value;
    var digests := TakeDigests(name.1).value;
    var flavor := TakeText(utf8, digests.1).value;
    NumberExact(4, b, version.0, version.1);
    NumberExact(8, version.1, shard.0, shard.1);
    TextReads(utf8, shard.1, name.0, name.1);
    DigestsRead(name.1, digests.0, digests.1);
    TextReads(utf8, digests.1, flavor.0, flavor.1);
    BytesExact(32, flavor.1, s.verificationKey, after);
  }

  lemma {:induction false} IdentityReadsBack(utf8: Utf8, s: LeafStatement, after: Bytes)
    requires ValidIdentity(utf8, s)
    ensures TakeIdentity(utf8, PutIdentity(s, after)) == Some((IdentityOf(s), after))
  {
    var b5 := s.verificationKey + after;
    var b4 := PutText(s.proofFlavor, b5);
    var b3 := PutDigests(s, b4);
    var b2 := PutText(s.shardName, b3);
    var b1 := PutNumber(8, s.shardId, b2);
    Powers();
    NumberExact(4, PutIdentity(s, after), LEAF_STATEMENT_SCHEMA_VERSION, b1);
    NumberExact(8, b1, s.shardId, b2);
    TextReads(utf8, b2, s.shardName, b3);
    DigestsRead(b3, (s.circuit, s.partition, s.model, s.weights), b4);
    TextReads(utf8, b4, s.proofFlavor, b5);
    BytesExact(32, b5, s.verificationKey, after);
  }

  lemma {:induction false} ValidIsEncodable(utf8: Utf8, s: LeafStatement)
    requires Valid(utf8, s)
    ensures Encode(s).Some? <==> EncodedLen(s) <= MAX_STATEMENT_BYTES && |s.proofFlavor| <= MAX_TEXT_BYTES
  {
  }

  ghost predicate ValidTail(utf8: Utf8, s: LeafStatement) {
    && ValidClaims(utf8, Role.Input, s.inputClaims) && ValidClaims(utf8, Role.Output, s.outputClaims)
    && |s.publicWeights| <= MAX_PUBLIC_WEIGHTS
  }

  lemma {:induction false} TailWasWritten(utf8: Utf8, b: Bytes, s: LeafStatement, after: Bytes)
    requires TakeClaimsAndWeights(utf8, b) == Some(((s.inputClaims, s.outputClaims, s.publicWeights), after))
    ensures ValidTail(utf8, s) && b == PutClaimsAndWeights(s, after)
  {
    var inputs := TakeClaims(utf8, Role.Input, b).value;
    var outputs := TakeClaims(utf8, Role.Output, inputs.1).value;
    ClaimsRead(utf8, Role.Input, b, s.inputClaims, inputs.1);
    ClaimsRead(utf8, Role.Output, inputs.1, s.outputClaims, outputs.1);
    WeightsRead(outputs.1, s.publicWeights, after);
  }

  lemma {:induction false} TailReadsBack(utf8: Utf8, s: LeafStatement, after: Bytes)
    requires ValidTail(utf8, s)
    ensures TakeClaimsAndWeights(utf8, PutClaimsAndWeights(s, after))
         == Some(((s.inputClaims, s.outputClaims, s.publicWeights), after))
  {
    var b3 := PutWeights(s.publicWeights, after);
    var b2 := PutClaims(s.outputClaims, b3);
    ClaimsRead(utf8, Role.Input, PutClaimsAndWeights(s, after), s.inputClaims, b2);
    ClaimsRead(utf8, Role.Output, b2, s.outputClaims, b3);
    WeightsRead(b3, s.publicWeights, after);
  }

  /** What is written of a statement whose claims are set aside is what is written of the statement. */
  lemma {:induction false} SameIdentity(s: LeafStatement, after: Bytes)
    ensures PutIdentity(IdentityOf(s), after) == PutIdentity(s, after)
  {
  }

  lemma {:induction false} PartsDecoded(utf8: Utf8, b: Bytes, s: LeafStatement) returns (body: Bytes, tail: Bytes)
    requires Decode(utf8, b) == Some(s)
    ensures b == Magic() + body && |b| <= MAX_STATEMENT_BYTES && |s.inputClaims| + |s.outputClaims| <= MAX_CLAIMS
    ensures TakeIdentity(utf8, body) == Some((IdentityOf(s), tail))
    ensures TakeClaimsAndWeights(utf8, tail) == Some(((s.inputClaims, s.outputClaims, s.publicWeights), []))
  {
    body := b[|Magic()|..];
    var identity := TakeIdentity(utf8, body).value;
    tail := identity.1;
    IdentityWasWritten(utf8, body, identity.0, tail);
  }

  lemma {:induction false} DecodedWasEncoded(utf8: Utf8, b: Bytes, s: LeafStatement)
    requires Decode(utf8, b) == Some(s)
    ensures Valid(utf8, s) && Encode(s) == Some(b)
  {
    var body, tail := PartsDecoded(utf8, b, s);
    IdentityWasWritten(utf8, body, IdentityOf(s), tail);
    TailWasWritten(utf8, tail, s, []);
    SameIdentity(s, tail);
    assert b == StatementBytes(s);
    EncodedLenExact(s);
    ValidIsEncodable(utf8, s);
  }

  lemma {:induction false} DecodeParts(utf8: Utf8, body: Bytes, s: LeafStatement, tail: Bytes)
    requires |Magic()| + |body| <= MAX_STATEMENT_BYTES && |s.inputClaims| + |s.outputClaims| <= MAX_CLAIMS
    requires TakeIdentity(utf8, body) == Some((IdentityOf(s), tail))
    requires TakeClaimsAndWeights(utf8, tail) == Some(((s.inputClaims, s.outputClaims, s.publicWeights), []))
    ensures Decode(utf8, Magic() + body) == Some(s)
  {
    assert (Magic() + body)[|Magic()|..] == body;
  }

  lemma {:induction false} EncodedDecodes(utf8: Utf8, s: LeafStatement, b: Bytes)
    requires Valid(utf8, s) && Encode(s) == Some(b)
    ensures Decode(utf8, b) == Some(s)
  {
    var tail := PutClaimsAndWeights(s, []);
    EncodedLenExact(s);
    IdentityReadsBack(utf8, s, tail);
    TailReadsBack(utf8, s, []);
    DecodeParts(utf8, PutIdentity(s, tail), s, tail);
  }

  /** Decoding accepts exactly what encoding a valid statement writes, and gives that statement. */
  lemma {:induction false} DecodeExact(utf8: Utf8, b: Bytes, s: LeafStatement)
    ensures Decode(utf8, b) == Some(s) <==> Valid(utf8, s) && Encode(s) == Some(b)
  {
    if Decode(utf8, b) == Some(s) { DecodedWasEncoded(utf8, b, s); }
    if Valid(utf8, s) && Encode(s) == Some(b) { EncodedDecodes(utf8, s, b); }
  }

  lemma {:induction false} StrictlyAscends(xs: seq<string>, i: nat, j: nat)
    requires StrictlySorted(xs) && i < j < |xs|
    ensures TextLess(xs[i], xs[j])
    decreases j
  {
    assert TextLess(xs[j - 1], xs[j]);
    if i < j - 1 {
      StrictlyAscends(xs, i, j - 1);
      TextLeTransitive(xs[i], xs[j - 1], xs[j]);
      if xs[i] == xs[j] { TextLeAntisymmetric(xs[j - 1], xs[j]); }
    }
  }

  /** No claim of a decoded statement names an edge twice, which admitting a leaf relies on. */
  lemma {:induction false} DecodedEdgesOnce(utf8: Utf8, b: Bytes, s: LeafStatement)
    requires Decode(utf8, b) == Some(s)
    ensures forall k :: 0 <= k < |s.inputClaims| ==> Distinct(s.inputClaims[k].descriptor.edgeIds)
    ensures forall k :: 0 <= k < |s.outputClaims| ==> Distinct(s.outputClaims[k].descriptor.edgeIds)
  {
    DecodeExact(utf8, b, s);
    forall k | 0 <= k < |s.inputClaims| ensures Distinct(s.inputClaims[k].descriptor.edgeIds) {
      SortedEdgesOnce(utf8, Role.Input, s.inputClaims[k]);
    }
    forall k | 0 <= k < |s.outputClaims| ensures Distinct(s.outputClaims[k].descriptor.edgeIds) {
      SortedEdgesOnce(utf8, Role.Output, s.outputClaims[k]);
    }
  }

  lemma {:induction false} SortedEdgesOnce(utf8: Utf8, role: Role, c: Binding)
    requires ValidClaim(utf8, role, c)
    ensures Distinct(c.descriptor.edgeIds)
  {
    var xs := c.descriptor.edgeIds;
    forall i, j | 0 <= i < j < |xs| ensures xs[i] != xs[j] {
      StrictlyAscends(xs, i, j);
    }
  }
}
