/** The text a finished manifest is written as, and how long each part of it is. */
module ManifestText {
  import opened Prelude
  import opened ByteCodec
  import opened PublicBoundary

  const MAX_MANIFEST_BYTES: nat := 0x10_0000

  // ----- pieces of text -----

  function HexDigit(n: nat): char
    requires n < 16
  {
    if n < 10 then n as char + '0' else (n - 10) as char + 'a'
  }

  /** A quoted character; each is one byte, and bytes outside ASCII stand for themselves. */
  function EscapedChar(c: char): (s: string)
    ensures 1 <= |s| <= 6
  {
    if c == '\"' || c == '\\' then ['\\', c]
    else if c as int >= 0x20 then [c]
    else if c as int == 8 then ['\\', 'b']
    else if c == '\t' then ['\\', 't']
    else if c == '\n' then ['\\', 'n']
    else if c as int == 12 then ['\\', 'f']
    else if c == '\r' then ['\\', 'r']
    else ['\\', 'u', '0', '0', HexDigit(c as int / 16), HexDigit(c as int % 16)]
  }

  function Escaped(s: string): (t: string)
    ensures |s| <= |t| <= 6 * |s|
  {
    if |s| == 0 then [] else Escaped(s[..|s| - 1]) + EscapedChar(s[|s| - 1])
  }

  function Quoted(s: string): (t: string)
    ensures |t| == |Escaped(s)| + 2
  {
    ['\"'] + Escaped(s) + ['\"']
  }

  function Comma(following: bool): (t: string)
    ensures |t| <= 1
  {
    if following then [','] else []
  }

  function Bracketed(items: string): (t: string)
    ensures |t| == |items| + 2
  {
    ['['] + items + [']']
  }

  function TextItems(texts: seq<string>): string {
    if |texts| == 0 then []
    else
      var n := |texts| - 1;
      TextItems(texts[..n]) + Comma(n > 0) + Quoted(texts[n])
  }

  function EscapedBytes(texts: seq<string>): (n: nat)
    ensures n <= 6 * TextBytes(texts)
  {
    if |texts| == 0 then 0 else EscapedBytes(texts[..|texts| - 1]) + |Escaped(texts[|texts| - 1])|
  }

  lemma {:induction false} TextItemsLength(texts: seq<string>)
    ensures |TextItems(texts)| == EscapedBytes(texts) + 3 * |texts| - (if |texts| == 0 then 0 else 1)
  {
    if |texts| > 0 { TextItemsLength(texts[..|texts| - 1]); }
  }

  function TenTo(k: nat): (n: nat)
    ensures n >= 1
  {
    if k == 0 then 1 else 10 * TenTo(k - 1)
  }

  lemma {:induction false} DecimalWithin(n: nat, k: nat)
    requires 1 <= k && n < TenTo(k)
    ensures |Decimal(n)| <= k
    decreases k
  {
    if n >= 10 { DecimalWithin(n / 10, k - 1); }
  }

  lemma {:induction false} TenToSum(a: nat, b: nat)
    ensures TenTo(a + b) == TenTo(a) * TenTo(b)
  {
    if a > 0 { TenToSum(a - 1, b); }
  }

  lemma {:induction false} NumberWithin(n: nat)
    requires n < U64_BOUND
    ensures |Decimal(n)| <= 20
  {
    assert TenTo(2) == 100;
    assert TenTo(4) == 10_000;
    assert TenTo(5) == 100_000;
    TenToSum(5, 5);
    TenToSum(10, 10);
    DecimalWithin(n, 20);
  }

  lemma {:induction false} ByteWithin(n: Byte)
    ensures |Decimal(n)| <= 3
  {
    assert TenTo(1) == 10;
    assert TenTo(3) == 1000;
    DecimalWithin(n, 3);
  }

  /** Digests are written as lists of numbers. */
  function ByteItems(bytes: Bytes): (t: string)
    ensures |t| <= if |bytes| == 0 then 0 else 4 * |bytes| - 1
  {
    if |bytes| == 0 then []
    else
      var n := |bytes| - 1;
      ByteWithin(bytes[n]);
      ByteItems(bytes[..n]) + Comma(n > 0) + Decimal(bytes[n])
  }

  function BytesText(bytes: Bytes): (t: string)
    ensures |t| == |ByteItems(bytes)| + 2
  {
    Bracketed(ByteItems(bytes))
  }

  function Field(key: string, value: string): (t: string)
    ensures |t| == |key| + |value| + 3
  {
    ['\"'] + key + ['\"', ':'] + value
  }

  // ----- one public boundary -----

  function RoleDigit(role: Role): string { if role == Input then ['1'] else ['2'] }

  function LinkFields(d: Descriptor): string {
    Field("role", RoleDigit(d.role)) + [','] + Field("dtype", ['1']) + [',']
    + Field("register_id", Quoted(d.registerId)) + [',']
    + Field("edge_ids", Bracketed(TextItems(d.edgeIds))) + [',']
    + Field("graph_output_names", Bracketed(TextItems(d.graphOutputNames))) + [',']
  }

  /** A commitment is a field element, written as its 32 bytes. */
  function QuantityFields(b: Binding): string {
    Field("element_count", Decimal(b.descriptor.elementCount)) + [',']
    + Field("quantization_scale", Decimal(b.descriptor.scale)) + [',']
    + Field("commitment", BytesText(Digits(32, b.commitment)))
  }

  function BoundaryText(b: Binding): string { ['{'] + LinkFields(b.descriptor) + QuantityFields(b) + ['}'] }

  lemma {:induction false} DigitsLength(width: nat, v: nat)
    ensures |Digits(width, v)| == width
  {
    if width > 0 { DigitsLength(width - 1, v / 256); }
  }

  lemma {:induction false} LinksLength(d: Descriptor)
    ensures |LinkFields(d)|
      == 74 + |Escaped(d.registerId)| + |TextItems(d.edgeIds)| + |TextItems(d.graphOutputNames)|
  {
  }

  lemma {:induction false} QuantitiesLength(b: Binding)
    ensures |QuantityFields(b)|
      == 52 + |Decimal(b.descriptor.elementCount)| + |Decimal(b.descriptor.scale)|
         + |BytesText(Digits(32, b.commitment))|
  {
  }

  function BoundaryItems(bindings: seq<Binding>): string {
    if |bindings| == 0 then []
    else
      var n := |bindings| - 1;
      BoundaryItems(bindings[..n]) + Comma(n > 0) + BoundaryText(bindings[n])
  }

  /** What one entry takes, with the comma before it. */
  function EntryLength(b: Binding): nat { |BoundaryText(b)| + 1 }

  lemma {:induction false} AppendedLength(before: string, following: bool, entry: string)
    ensures |before + Comma(following) + entry| == |before| + |entry| + (if following then 1 else 0)
  {
  }

  lemma {:induction false} ItemsLength(bindings: seq<Binding>)
    ensures |BoundaryItems(bindings)| + (if |bindings| == 0 then 0 else 1) == SumSeq(EntryLength, bindings)
    ensures |bindings| == 0 <==> SumSeq(EntryLength, bindings) == 0
  {
    if |bindings| > 0 {
      var n := |bindings| - 1;
      ItemsLength(bindings[..n]);
      AppendedLength(BoundaryItems(bindings[..n]), n > 0, BoundaryText(bindings[n]));
    }
  }

  // ----- the manifest -----

  /** The digests a manifest says besides its flavor and its public boundaries. */
  datatype Identity = Identity(
    aggregation: Bytes, partition: Bytes, rootClaim: Bytes, model: Bytes, weights: Bytes, manifest: Bytes)

  datatype Manifest = Manifest(
    identity: Identity, proofFlavor: string, leafCount: nat, publicInputs: seq<Binding>, publicOutputs: seq<Binding>)

  predicate FullDigests(i: Identity) {
    |i.aggregation| == 32 && |i.partition| == 32 && |i.rootClaim| == 32 && |i.model| == 32 && |i.weights| == 32
    && |i.manifest| == 32
  }

  function HeadFields(m: Manifest): string {
    Field("schema_version", ['2']) + [','] + Field("kind", Quoted("NativeVerifiedManifest")) + [',']
    + Field("aggregation_digest", BytesText(m.identity.aggregation)) + [',']
    + Field("partition_digest", BytesText(m.identity.partition)) + [',']
    + Field("root_claim_digest", BytesText(m.identity.rootClaim)) + [',']
    + Field("leaf_count", Decimal(m.leafCount)) + [',']
    + Field("model_digest", BytesText(m.identity.model)) + [',']
    + Field("weights_digest", BytesText(m.identity.weights)) + [',']
  }

  function TailFields(m: Manifest): string {
    [','] + Field("public_inputs", Bracketed(BoundaryItems(m.publicInputs))) + [',']
    + Field("public_outputs", Bracketed(BoundaryItems(m.publicOutputs))) + [',']
    + Field("manifest_digest", BytesText(m.identity.manifest))
  }

  function Text(m: Manifest): string {
    ['{'] + HeadFields(m) + Field("proof_flavor", Quoted(m.proofFlavor)) + TailFields(m) + ['}']
  }

  function Encode(m: Manifest): Option<string> {
    if |Text(m)| > MAX_MANIFEST_BYTES then None else Some(Text(m))
  }

  /** Text without quotes, backslashes or control characters is written as it is. */
  predicate Plain(s: string) {
    forall k :: 0 <= k < |s| ==> s[k] as int >= 0x20 && s[k] != '\"' && s[k] != '\\'
  }

  lemma {:induction false} PlainText(s: string)
    requires Plain(s)
    ensures |Escaped(s)| == |s|
  {
    if |s| > 0 { PlainText(s[..|s| - 1]); }
  }

  lemma {:induction false} KindLength()
    ensures |Quoted("NativeVerifiedManifest")| == 24
  {
    PlainText("NativeVerifiedManifest");
  }

  lemma {:induction false} HeadLength(m: Manifest)
    ensures |HeadFields(m)|
      == 162 + |BytesText(m.identity.aggregation)| + |BytesText(m.identity.partition)|
         + |BytesText(m.identity.rootClaim)| + |BytesText(m.identity.model)| + |BytesText(m.identity.weights)|
         + |Decimal(m.leafCount)|
  {
    KindLength();
  }

  lemma {:induction false} TailLength(m: Manifest)
    ensures |TailFields(m)|
      == 58 + |BytesText(m.identity.manifest)| + |BoundaryItems(m.publicInputs)| + |BoundaryItems(m.publicOutputs)|
  {
  }

  /** What the entries of one list take together. */
  function ItemsBytes(bindings: seq<Binding>): nat {
    if SumSeq(EntryLength, bindings) == 0 then 0 else SumSeq(EntryLength, bindings) - 1
  }

  function IdentityBytes(i: Identity): nat {
    |BytesText(i.aggregation)| + |BytesText(i.partition)| + |BytesText(i.rootClaim)| + |BytesText(i.model)|
    + |BytesText(i.weights)| + |BytesText(i.manifest)|
  }

  /** Everything but the flavor. */
  function Rest(m: Manifest): nat {
    239 + IdentityBytes(m.identity) + |Decimal(m.leafCount)| + ItemsBytes(m.publicInputs)
    + ItemsBytes(m.publicOutputs)
  }

  lemma {:induction false} RestLength(m: Manifest)
    ensures |HeadFields(m)| + |TailFields(m)| + 19 == Rest(m)
  {
    HeadLength(m);
    TailLength(m);
    ItemsLength(m.publicInputs);
    ItemsLength(m.publicOutputs);
  }

  lemma {:induction false} JoinedLength(head: string, flavor: string, tail: string)
    ensures |['{'] + head + Field("proof_flavor", Quoted(flavor)) + tail + ['}']|
         == |head| + |tail| + 19 + |Escaped(flavor)|
  {
  }

  /** A manifest is refused for its size exactly when its flavor does not fit what the rest leaves. */
  lemma {:induction false} EncodesExactly(m: Manifest)
    ensures Encode(m).Some? <==> Rest(m) + |Escaped(m.proofFlavor)| <= MAX_MANIFEST_BYTES
  {
    RestLength(m);
    JoinedLength(HeadFields(m), m.proofFlavor, TailFields(m));
  }
}
