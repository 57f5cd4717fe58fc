/** How much room admitted public boundaries leave a manifest for its proof flavor. */
module ManifestRoom {
  import opened Prelude
  import opened ByteCodec
  import opened PublicBoundary
  import opened ManifestText
  import AP = AggregationPlan
  import LS = LeafStatements

  /** The escaped length of the longest flavor that fits beside whatever else is published. */
  const FLAVOR_ROOM: nat := 14_378

  // ----- what admission lets into a manifest -----

  predicate PublicClaim(utf8: LS.Utf8, role: Role, b: Binding) {
    LS.ValidClaim(utf8, role, b) && IsPublic(b, role)
  }

  predicate PublicClaims(utf8: LS.Utf8, role: Role, bindings: seq<Binding>) {
    forall k :: 0 <= k < |bindings| ==> PublicClaim(utf8, role, bindings[k])
  }

  predicate ValidFlavor(flavor: string) {
    LS.Sized(flavor) && LS.Ascii(flavor)
  }

  ghost predicate WithinWireBudget(m: Manifest) {
    SumSeq(WireBytes, m.publicInputs) + SumSeq(WireBytes, m.publicOutputs) <= MAX_PUBLIC_BOUNDARY_WIRE_BYTES
  }

  /** A manifest made of decoded statements within the public boundary budget. */
  ghost predicate Publishable(utf8: LS.Utf8, m: Manifest) {
    && FullDigests(m.identity) && 0 < m.leafCount <= AP.MAX_LEAVES && ValidFlavor(m.proofFlavor)
    && PublicClaims(utf8, Input, m.publicInputs) && PublicClaims(utf8, Output, m.publicOutputs)
    && InputsListed(m.publicInputs) && OutputsListed(m.publicOutputs) && WithinWireBudget(m)
  }

  // ----- numbers and digests -----

  lemma {:induction false} SmallNumbers(n: nat)
    ensures n <= 9999 ==> |Decimal(n)| <= 4
    ensures n <= 99_999 ==> |Decimal(n)| <= 5
    ensures n <= 99 ==> |Decimal(n)| <= 2
  {
    assert TenTo(2) == 100 && TenTo(4) == 10_000 && TenTo(5) == 100_000;
    if n <= 99 { DecimalWithin(n, 2); }
    if n <= 9999 { DecimalWithin(n, 4); }
    if n <= 99_999 { DecimalWithin(n, 5); }
  }

  /** A number below `top + 1` times a power has at most `top` as the digit there. */
  lemma {:induction false} TopDigit(width: nat, v: nat, top: nat)
    requires top < 256 && v < (top + 1) * Power256(width)
    ensures |Digits(width + 1, v)| == width + 1 && Digits(width + 1, v)[width] <= top
  {
    if width > 0 {
      var power := Power256(width - 1);
      assert (top + 1) * (256 * power) == 256 * ((top + 1) * power);
      TopDigit(width - 1, v / 256, top);
      assert Digits(width + 1, v) == [v % 256] + Digits(width, v / 256);
    } else {
      assert Digits(1, v) == [v % 256] + Digits(0, v / 256);
    }
  }

  lemma {:induction false} PowerSum(a: nat, b: nat)
    ensures Power256(a + b) == Power256(a) * Power256(b)
  {
    if a > 0 { PowerSum(a - 1, b); }
  }

  lemma {:induction false} TopPower()
    ensures Power256(31) == 0x1_00000000000000_0000000000000000_0000000000000000_0000000000000000
  {
    Powers();
    PowerSum(8, 8);
    PowerSum(16, 8);
    PowerSum(24, 7);
    assert Power256(7) == 0x100_0000_0000_0000;
  }

  lemma {:induction false} LastByteShort(bytes: Bytes)
    requires |bytes| == 32 && bytes[31] <= 99
    ensures |BytesText(bytes)| <= 128
  {
    SmallNumbers(bytes[31]);
  }

  /** The highest byte of a field element is at most 48. */
  lemma {:induction false} CommitmentWithin(c: nat)
    requires c < LS.FIELD_MODULUS
    ensures |BytesText(Digits(32, c))| <= 128
  {
    TopPower();
    TopDigit(31, c, 48);
    LastByteShort(Digits(32, c));
  }

  // ----- one entry -----

  function Ids(b: Binding): nat { 1 + |b.descriptor.edgeIds| + |b.descriptor.graphOutputNames| }

  function IdBytes(b: Binding): nat {
    |b.descriptor.registerId| + TextBytes(b.descriptor.edgeIds) + TextBytes(b.descriptor.graphOutputNames)
  }

  /** What some entries need besides their identifiers. */
  function Fixed(role: Role, entries: nat): nat { if role == Output then 277 * entries else 278 * entries }

  function MostIds(role: Role, entries: nat): nat { if role == Output then 65 * entries else entries }

  lemma {:induction false} EntryWithin(utf8: LS.Utf8, role: Role, b: Binding)
    requires PublicClaim(utf8, role, b)
    ensures EntryLength(b) <= Fixed(role, 1) + 3 * Ids(b) + 6 * IdBytes(b)
  {
    LinksLength(b.descriptor);
    TextItemsLength(b.descriptor.edgeIds);
    TextItemsLength(b.descriptor.graphOutputNames);
    QuantitiesLength(b);
    SmallNumbers(b.descriptor.elementCount);
    NumberWithin(b.descriptor.scale);
    CommitmentWithin(b.commitment);
  }

  /** The budget's bound on an entry is one: for any entry of machine-sized quantities it covers text and comma. */
  lemma {:induction false} BoundaryWithin(b: Binding)
    requires b.descriptor.elementCount < U64_BOUND && b.descriptor.scale < U64_BOUND
    ensures EntryLength(b) <= WireBytes(b)
  {
    LinksLength(b.descriptor);
    TextItemsLength(b.descriptor.edgeIds);
    TextItemsLength(b.descriptor.graphOutputNames);
    QuantitiesLength(b);
    NumberWithin(b.descriptor.elementCount);
    NumberWithin(b.descriptor.scale);
    DigitsLength(32, b.commitment);
  }

  lemma {:induction false} TextBytesWithin(texts: seq<string>)
    requires forall k :: 0 <= k < |texts| ==> |texts[k]| <= LS.MAX_BOUNDARY_ID_BYTES
    ensures TextBytes(texts) <= 256 * |texts|
  {
    if |texts| > 0 { TextBytesWithin(texts[..|texts| - 1]); }
  }

  /** At most 64 identifiers besides the register's, each of at most 256 bytes; an input has none. */
  lemma {:induction false} IdsWithin(utf8: LS.Utf8, role: Role, b: Binding)
    requires PublicClaim(utf8, role, b)
    ensures Ids(b) <= MostIds(role, 1) && IdBytes(b) <= 256 * Ids(b)
  {
    TextBytesWithin(b.descriptor.edgeIds);
    TextBytesWithin(b.descriptor.graphOutputNames);
  }

  // ----- all entries -----

  lemma {:induction false} EntriesWithin(utf8: LS.Utf8, role: Role, bindings: seq<Binding>)
    requires PublicClaims(utf8, role, bindings)
    ensures SumSeq(EntryLength, bindings)
      <= Fixed(role, |bindings|) + 3 * SumSeq(Ids, bindings) + 6 * SumSeq(IdBytes, bindings)
  {
    if |bindings| > 0 {
      var n := |bindings| - 1;
      EntriesWithin(utf8, role, bindings[..n]);
      EntryWithin(utf8, role, bindings[n]);
    }
  }

  lemma {:induction false} AllIdsWithin(utf8: LS.Utf8, role: Role, bindings: seq<Binding>)
    requires PublicClaims(utf8, role, bindings)
    ensures SumSeq(Ids, bindings) <= MostIds(role, |bindings|)
    ensures SumSeq(IdBytes, bindings) <= 256 * SumSeq(Ids, bindings)
  {
    if |bindings| > 0 {
      var n := |bindings| - 1;
      AllIdsWithin(utf8, role, bindings[..n]);
      IdsWithin(utf8, role, bindings[n]);
    }
  }

  lemma {:induction false} WireIs(bindings: seq<Binding>)
    ensures SumSeq(WireBytes, bindings)
      == 512 * |bindings| + 16 * SumSeq(Ids, bindings) + 6 * SumSeq(IdBytes, bindings)
  {
    if |bindings| > 0 { WireIs(bindings[..|bindings| - 1]); }
  }

  /** The budget leaves most room over when few entries carry many long identifiers: eleven at least. */
  lemma {:induction false} EntriesArithmetic(
      inputs: nat, outputs: nat, inputIds: nat, outputIds: nat, inputBytes: nat, outputBytes: nat)
    requires 512 * (inputs + outputs) + 16 * (inputIds + outputIds) + 6 * (inputBytes + outputBytes)
      <= MAX_PUBLIC_BOUNDARY_WIRE_BYTES
    requires inputIds <= inputs && inputBytes <= 256 * inputIds
    requires outputIds <= 65 * outputs && outputBytes <= 256 * outputIds
    ensures 278 * inputs + 277 * outputs + 3 * (inputIds + outputIds) + 6 * (inputBytes + outputBytes) <= 1_033_181
  {
    var entries := inputs + outputs;
    if entries == 11 && inputs == 0 {
      if outputIds <= 669 {
      } else if outputIds == 670 {
        assert 6 * outputBytes <= 1_028_128;
        assert outputBytes <= 171_354;
      } else {
        assert 6 * outputBytes <= 1_038_848 - 16 * outputIds;
      }
    }
  }

  /** What the entries of one list take, as far as their number and their identifiers tell. */
  datatype Side = Side(entries: nat, ids: nat, bytes: nat, wire: nat, items: nat)

  predicate Bounded(role: Role, side: Side) {
    && side.items <= Fixed(role, side.entries) + 3 * side.ids + 6 * side.bytes
    && side.ids <= MostIds(role, side.entries) && side.bytes <= 256 * side.ids
    && side.wire == 512 * side.entries + 16 * side.ids + 6 * side.bytes
  }

  ghost function SideOf(bindings: seq<Binding>): Side {
    Side(|bindings|, SumSeq(Ids, bindings), SumSeq(IdBytes, bindings), SumSeq(WireBytes, bindings),
      SumSeq(EntryLength, bindings))
  }

  lemma {:induction false} SideBounded(utf8: LS.Utf8, role: Role, bindings: seq<Binding>)
    requires PublicClaims(utf8, role, bindings)
    ensures Bounded(role, SideOf(bindings))
  {
    EntriesWithin(utf8, role, bindings);
    AllIdsWithin(utf8, role, bindings);
    WireIs(bindings);
  }

  function LessComma(items: nat): nat { if items == 0 then 0 else items - 1 }

  lemma {:induction false} SidesWithin(inputs: Side, outputs: Side)
    requires Bounded(Input, inputs) && Bounded(Output, outputs)
    requires inputs.wire + outputs.wire <= MAX_PUBLIC_BOUNDARY_WIRE_BYTES
    ensures LessComma(inputs.items) + LessComma(outputs.items) <= 1_033_180
  {
    EntriesArithmetic(
      inputs.entries, outputs.entries, inputs.ids, outputs.ids, inputs.bytes, outputs.bytes);
  }

  lemma {:induction false} ItemsWithin(utf8: LS.Utf8, inputs: seq<Binding>, outputs: seq<Binding>)
    requires PublicClaims(utf8, Input, inputs) && PublicClaims(utf8, Output, outputs)
    requires SumSeq(WireBytes, inputs) + SumSeq(WireBytes, outputs) <= MAX_PUBLIC_BOUNDARY_WIRE_BYTES
    ensures ItemsBytes(inputs) + ItemsBytes(outputs) <= 1_033_180
  {
    SideBounded(utf8, Input, inputs);
    SideBounded(utf8, Output, outputs);
    SidesWithin(SideOf(inputs), SideOf(outputs));
  }

  lemma {:induction false} FixedPartsWithin(m: Manifest)
    requires FullDigests(m.identity) && m.leafCount <= AP.MAX_LEAVES
    ensures Rest(m) <= 1018 + ItemsBytes(m.publicInputs) + ItemsBytes(m.publicOutputs)
  {
    SmallNumbers(m.leafCount);
  }

  /** Without the flavor, no publishable manifest leaves less than this. */
  lemma {:induction false} RestWithin(utf8: LS.Utf8, m: Manifest)
    requires Publishable(utf8, m)
    ensures Rest(m) + FLAVOR_ROOM <= MAX_MANIFEST_BYTES
  {
    ItemsWithin(utf8, m.publicInputs, m.publicOutputs);
    FixedPartsWithin(m);
  }

  lemma {:induction false} RoomDecides(m: Manifest)
    requires Rest(m) + FLAVOR_ROOM <= MAX_MANIFEST_BYTES && |Escaped(m.proofFlavor)| <= FLAVOR_ROOM
    ensures Encode(m).Some?
  {
    EncodesExactly(m);
  }

  /** Every manifest whose escaped flavor is within the room is written. */
  lemma {:induction false} RoomyFlavorFits(utf8: LS.Utf8, m: Manifest)
    requires Publishable(utf8, m) && |Escaped(m.proofFlavor)| <= FLAVOR_ROOM
    ensures Encode(m).Some?
  {
    RestWithin(utf8, m);
    RoomDecides(m);
  }

  // ----- which flavors those are -----

  predicate Control(c: char) {
    c as int < 0x20
  }

  lemma {:induction false} PrintableText(s: string)
    requires forall k :: 0 <= k < |s| ==> !Control(s[k])
    ensures |Escaped(s)| <= 2 * |s|
  {
    if |s| > 0 { PrintableText(s[..|s| - 1]); }
  }

  /** A flavor without control characters always fits, and so does any flavor of up to 2396 characters. */
  lemma {:induction false} OrdinaryFlavorFits(utf8: LS.Utf8, m: Manifest)
    requires Publishable(utf8, m)
    requires (forall k :: 0 <= k < |m.proofFlavor| ==> !Control(m.proofFlavor[k])) || |m.proofFlavor| <= 2396
    ensures Encode(m).Some?
  {
    if forall k :: 0 <= k < |m.proofFlavor| ==> !Control(m.proofFlavor[k]) { PrintableText(m.proofFlavor); }
    RoomyFlavorFits(utf8, m);
  }
}
