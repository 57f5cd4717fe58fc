/** Public boundaries that leave a manifest as little room as any: the room for the flavor is exact. */
module FullestManifest {
  import opened Prelude
  import opened ByteCodec
  import opened PublicBoundary
  import opened ManifestText
  import opened ManifestRoom
  import AP = AggregationPlan
  import LS = LeafStatements

  /** Text in ASCII is well-formed. */
  ghost predicate AsciiIsWellFormed(utf8: LS.Utf8) {
    forall b: Bytes :: (forall i :: 0 <= i < |b| ==> b[i] < 128) ==> utf8(b)
  }

  // ----- text that escapes to six times its length -----

  predicate LongEscape(c: char) {
    Control(c) && c as int !in {8, 9, 10, 12, 13}
  }

  predicate AllLong(s: string) {
    forall k :: 0 <= k < |s| ==> LongEscape(s[k])
  }

  lemma {:induction false} LongText(s: string)
    requires AllLong(s)
    ensures |Escaped(s)| == 6 * |s|
  {
    if |s| > 0 { LongText(s[..|s| - 1]); }
  }

  lemma {:induction false} LongTexts(texts: seq<string>)
    requires forall k :: 0 <= k < |texts| ==> AllLong(texts[k])
    ensures EscapedBytes(texts) == 6 * TextBytes(texts)
  {
    if |texts| > 0 {
      LongTexts(texts[..|texts| - 1]);
      LongText(texts[|texts| - 1]);
    }
  }

  lemma {:induction false} AllLongIsText(utf8: LS.Utf8, s: string)
    requires AsciiIsWellFormed(utf8) && AllLong(s) && 1 <= |s| <= LS.MAX_BOUNDARY_ID_BYTES
    ensures LS.ValidId(utf8, s)
  {
    var bytes := BytesOf(s);
    assert forall i :: 0 <= i < |bytes| ==> bytes[i] < 128;
  }

  // ----- many such names -----

  function Filler(n: nat): (s: string)
    ensures |s| == n && AllLong(s)
  {
    seq(n, _ => 1 as char)
  }

  function Digit(d: nat): (c: char)
    requires d < 16
    ensures LongEscape(c) && c as int == 16 + d
  {
    (16 + d) as char
  }

  function Suffix(n: nat): (s: string)
    requires n < 4096
    ensures |s| == 3 && AllLong(s)
  {
    [Digit(n / 256), Digit(n % 256 / 16), Digit(n % 256 % 16)]
  }

  function Name(n: nat): (s: string)
    requires n < 4096
    ensures |s| == 256 && AllLong(s)
  {
    Filler(253) + Suffix(n)
  }

  lemma {:induction false} HighFirst(a: nat, b: nat)
    requires a < b
    ensures a / 256 < b / 256 || (a / 256 == b / 256 && a % 256 < b % 256)
  {
  }

  lemma {:induction false} LowNext(a: nat, b: nat)
    requires a < b
    ensures a / 16 < b / 16 || (a / 16 == b / 16 && a % 16 < b % 16)
  {
  }

  lemma {:induction false} SuffixLess(a: nat, b: nat)
    requires a < b < 4096
    ensures TextLe(Suffix(a), Suffix(b)) && Suffix(a) != Suffix(b)
  {
    HighFirst(a, b);
    if a / 256 == b / 256 { LowNext(a % 256, b % 256); }
    ThreeInOrder(Digit(a / 256), Digit(a % 256 / 16), Digit(a % 256 % 16), Digit(b / 256), Digit(b % 256 / 16),
      Digit(b % 256 % 16));
  }

  lemma {:induction false} ThreeInOrder(a: char, b: char, c: char, x: char, y: char, z: char)
    requires a < x || (a == x && (b < y || (b == y && c < z)))
    ensures TextLe([a, b, c], [x, y, z]) && [a, b, c] != [x, y, z]
  {
    AfterChar(c, z, [], []);
    AfterChar(b, y, [c], [z]);
    AfterChar(a, x, [b, c], [y, z]);
    assert [a] + [b, c] == [a, b, c] && [x] + [y, z] == [x, y, z];
    assert [b] + [c] == [b, c] && [y] + [z] == [y, z] && [c] + [] == [c] && [z] + [] == [z];
    assert [a, b, c][0] == a && [a, b, c][1] == b && [a, b, c][2] == c;
    assert [x, y, z][0] == x && [x, y, z][1] == y && [x, y, z][2] == z;
  }

  lemma {:induction false} AfterChar(c: char, d: char, a: string, b: string)
    ensures TextLe([c] + a, [d] + b) <==> c < d || (c == d && TextLe(a, b))
  {
    assert ([c] + a)[1..] == a && ([d] + b)[1..] == b;
  }

  lemma {:induction false} AfterPrefix(prefix: string, a: string, b: string)
    requires TextLe(a, b)
    ensures TextLe(prefix + a, prefix + b)
  {
    if |prefix| == 0 {
      assert prefix + a == a && prefix + b == b;
    } else {
      var rest := prefix[1..];
      AfterPrefix(rest, a, b);
      Uncons(prefix, a);
      Uncons(prefix, b);
      AfterChar(prefix[0], prefix[0], rest + a, rest + b);
    }
  }

  lemma {:induction false} Uncons(prefix: string, a: string)
    requires |prefix| > 0
    ensures prefix + a == [prefix[0]] + (prefix[1..] + a)
  {
  }

  lemma {:induction false} NameLess(a: nat, b: nat)
    requires a < b < 4096
    ensures TextLess(Name(a), Name(b))
  {
    SuffixLess(a, b);
    AfterPrefix(Filler(253), Suffix(a), Suffix(b));
    assert Name(a)[253..] == Suffix(a) && Name(b)[253..] == Suffix(b);
  }

  /** A shorter filler comes before every name. */
  lemma {:induction false} FillerLess(length: nat, n: nat)
    requires length < 253 && n < 4096
    ensures TextLess(Filler(length), Name(n))
  {
    AfterPrefix(Filler(length), [], Name(n)[length..]);
    assert Filler(length) + [] == Filler(length) && Filler(length) + Name(n)[length..] == Name(n);
  }

  /** Consecutive names, from `first` on. */
  function Names(first: nat, count: nat): (names: seq<string>)
    requires first + count <= 4096
    ensures |names| == count && forall k :: 0 <= k < count ==> names[k] == Name(first + k)
  {
    seq(count, k requires 0 <= k < count => Name(first + k))
  }

  lemma {:induction false} NamesBytes(first: nat, count: nat)
    requires first + count <= 4096
    ensures TextBytes(Names(first, count)) == 256 * count
  {
    if count > 0 {
      NamesBytes(first, count - 1);
      assert Names(first, count)[..count - 1] == Names(first, count - 1);
    }
  }

  lemma {:induction false} NamesSorted(first: nat, count: nat)
    requires first + count <= 4096
    ensures LS.StrictlySorted(Names(first, count))
  {
    var names := Names(first, count);
    forall i, j | 0 <= i < |names| && i < j < |names| && j == i + 1 ensures TextLess(names[i], names[j]) {
      NameLess(first + i, first + j);
    }
  }

  // ----- the boundaries -----

  /** Every byte 255 but the highest, which is 47. */
  const COMMITMENT: nat := 0x2fffffffffffffffffffffffffffffffffffffffffffffffffffffffffffffff

  function Entry(names: seq<string>): Binding {
    Binding(Descriptor(Output, Filler(256), [], names, LS.MAX_BOUNDARY_ELEMENTS, U64_BOUND - 1), COMMITMENT)
  }

  /** Sixty-four names to an entry, and one entry with eighteen and a shorter one. */
  function LastNames(): seq<string> { [Filler(90)] + Names(640, 18) }

  function EntryNames(k: nat): seq<string>
    requires k < 11
  {
    if k < 10 then Names(64 * k, 64) else LastNames()
  }

  function FullOutputs(): (outputs: seq<Binding>)
    ensures |outputs| == 11 && forall k :: 0 <= k < 11 ==> outputs[k] == Entry(EntryNames(k))
  {
    seq(11, k requires 0 <= k < 11 => Entry(EntryNames(k)))
  }

  lemma {:induction false} LastSorted()
    ensures LS.StrictlySorted(LastNames())
  {
    var names := LastNames();
    forall i, j | 0 <= i < |names| && i < j < |names| && j == i + 1 ensures TextLess(names[i], names[j]) {
      if i == 0 { FillerLess(90, 640); } else { NameLess(640 + i - 1, 640 + j - 1); }
    }
  }

  lemma {:induction false} EntryPublic(utf8: LS.Utf8, names: seq<string>)
    requires AsciiIsWellFormed(utf8) && 1 <= |names| <= LS.MAX_BOUNDARY_IDENTITIES && LS.StrictlySorted(names)
    requires forall k :: 0 <= k < |names| ==> AllLong(names[k]) && 1 <= |names[k]| <= 256
    ensures PublicClaim(utf8, Output, Entry(names))
  {
    AllLongIsText(utf8, Filler(256));
    forall k | 0 <= k < |names| ensures LS.ValidId(utf8, names[k]) {
      AllLongIsText(utf8, names[k]);
    }
  }

  lemma {:induction false} FullOutputsPublic(utf8: LS.Utf8)
    requires AsciiIsWellFormed(utf8)
    ensures PublicClaims(utf8, Output, FullOutputs())
  {
    LastSorted();
    forall k | 0 <= k < 11 ensures PublicClaim(utf8, Output, Entry(EntryNames(k))) {
      if k < 10 { NamesSorted(64 * k, 64); }
      EntryPublic(utf8, EntryNames(k));
    }
  }

  /** A name's number; the short one counts as the last of its entry. */
  ghost predicate Numbered(name: string, n: nat) {
    n < 4096 && (name == Name(n) || (name == Filler(90) && n == 704))
  }

  lemma {:induction false} OneNumber(name: string, a: nat, b: nat)
    requires Numbered(name, a) && Numbered(name, b)
    ensures a == b
  {
    if |name| == 256 && a < b { NameLess(a, b); }
    if |name| == 256 && b < a { NameLess(b, a); }
  }

  lemma {:induction false} EntryName(k: nat, name: string) returns (n: nat)
    requires k < 11 && name in EntryNames(k)
    ensures Numbered(name, n) && 64 * k <= n < (if k < 10 then 64 * k + 64 else 705)
  {
    var names := EntryNames(k);
    var j :| 0 <= j < |names| && names[j] == name;
    if k < 10 {
      n := 64 * k + j;
    } else {
      n := if j == 0 then 704 else 640 + j - 1;
    }
  }

  lemma {:induction false} EntriesApart(i: nat, j: nat, name: string)
    requires i < j < 11 && name in EntryNames(i)
    ensures name !in EntryNames(j)
  {
    if name in EntryNames(j) {
      var a := EntryName(i, name);
      var b := EntryName(j, name);
      OneNumber(name, a, b);
    }
  }

  lemma {:induction false} FullOutputsListed()
    ensures OutputsListed(FullOutputs())
  {
    forall i, j | 0 <= i < j < 11 ensures NamesApart(FullOutputs()[i], FullOutputs()[j]) {
      forall name | name in EntryNames(i) ensures name !in EntryNames(j) {
        EntriesApart(i, j, name);
      }
    }
  }

  // ----- how long they are -----

  lemma {:induction false} DecimalAtLeast(n: nat, k: nat)
    requires n >= TenTo(k)
    ensures |Decimal(n)| >= k + 1
    decreases k
  {
    if k > 0 { DecimalAtLeast(n / 10, k - 1); }
  }

  lemma {:induction false} LongestNumbers()
    ensures |Decimal(LS.MAX_BOUNDARY_ELEMENTS)| == 4 && |Decimal(U64_BOUND - 1)| == 20
    ensures |Decimal(AP.MAX_LEAVES)| == 5 && |Decimal(255)| == 3 && |Decimal(47)| == 2
  {
    assert TenTo(1) == 10 && TenTo(2) == 100 && TenTo(3) == 1000 && TenTo(4) == 10_000;
    assert TenTo(5) == 100_000;
    TenToSum(4, 5);
    TenToSum(5, 5);
    TenToSum(9, 10);
    SmallNumbers(LS.MAX_BOUNDARY_ELEMENTS);
    DecimalAtLeast(LS.MAX_BOUNDARY_ELEMENTS, 3);
    NumberWithin(U64_BOUND - 1);
    DecimalAtLeast(U64_BOUND - 1, 19);
    SmallNumbers(AP.MAX_LEAVES);
    DecimalAtLeast(AP.MAX_LEAVES, 4);
    ByteWithin(255);
    DecimalAtLeast(255, 2);
    SmallNumbers(47);
    DecimalAtLeast(47, 1);
  }

  lemma {:induction false} FullBytes(bytes: Bytes)
    requires OnesBelow(bytes, |bytes|)
    ensures |ByteItems(bytes)| == if |bytes| == 0 then 0 else 4 * |bytes| - 1
  {
    if |bytes| > 0 {
      FullBytes(bytes[..|bytes| - 1]);
      LongestNumbers();
    }
  }

  predicate OnesBelow(bytes: Bytes, n: nat) {
    forall k :: 0 <= k < n && k < |bytes| ==> bytes[k] == 255
  }

  /** One less than `top` times a power is all 255 below the digit `top - 1`. */
  lemma {:induction false} AllOnes(width: nat, v: nat, top: nat)
    requires 1 <= top <= 256 && v + 1 == top * Power256(width)
    ensures |Digits(width + 1, v)| == width + 1 && Digits(width + 1, v)[width] == top - 1
    ensures OnesBelow(Digits(width + 1, v), width)
  {
    if width > 0 {
      var power := Power256(width - 1);
      assert top * (256 * power) == 256 * (top * power);
      AllOnes(width - 1, v / 256, top);
      assert Digits(width + 1, v) == [v % 256] + Digits(width, v / 256);
    } else {
      assert Digits(1, v) == [v % 256] + Digits(0, v / 256);
    }
  }

  lemma {:induction false} CommitmentLength()
    ensures COMMITMENT < LS.FIELD_MODULUS && |BytesText(Digits(32, COMMITMENT))| == 128
  {
    TopPower();
    AllOnes(31, COMMITMENT, 48);
    LastByte(Digits(32, COMMITMENT));
  }

  lemma {:induction false} LastByte(bytes: Bytes)
    requires |bytes| == 32 && bytes[31] == 47 && OnesBelow(bytes, 31)
    ensures |BytesText(bytes)| == 128
  {
    FullBytes(bytes[..31]);
    LongestNumbers();
  }

  lemma {:induction false} EntryLengthIs(names: seq<string>)
    requires |names| > 0 && forall k :: 0 <= k < |names| ==> AllLong(names[k])
    ensures EntryLength(Entry(names)) == 280 + 1536 + 6 * TextBytes(names) + 3 * |names|
  {
    var b := Entry(names);
    LinksLength(b.descriptor);
    LongText(Filler(256));
    TextItemsLength(names);
    LongTexts(names);
    QuantitiesLength(b);
    LongestNumbers();
    CommitmentLength();
  }

  lemma {:induction false} SumUniform<T>(f: T -> nat, xs: seq<T>, value: nat)
    requires forall k :: 0 <= k < |xs| ==> f(xs[k]) == value
    ensures SumSeq(f, xs) == value * |xs|
  {
    if |xs| > 0 { SumUniform(f, xs[..|xs| - 1], value); }
  }

  lemma {:induction false} LastBytes()
    ensures TextBytes(LastNames()) == 4698
  {
    TextBytesJoin([Filler(90)], Names(640, 18));
    NamesBytes(640, 18);
    assert TextBytes([Filler(90)]) == 90;
  }

  lemma {:induction false} TextBytesJoin(xs: seq<string>, ys: seq<string>)
    ensures TextBytes(xs + ys) == TextBytes(xs) + TextBytes(ys)
  {
    if |ys| == 0 {
      assert xs + ys == xs;
    } else {
      TextBytesJoin(xs, ys[..|ys| - 1]);
      assert (xs + ys)[..|xs + ys| - 1] == xs + ys[..|ys| - 1];
    }
  }

  lemma {:induction false} EntryMeasures(k: nat)
    requires k < 11
    ensures EntryLength(Entry(EntryNames(k))) == if k < 10 then 100_312 else 30_061
    ensures WireBytes(Entry(EntryNames(k))) == if k < 10 then 101_392 else 30_556
  {
    EntryLengthIs(EntryNames(k));
    if k < 10 { NamesBytes(64 * k, 64); } else { LastBytes(); }
  }

  lemma {:induction false} FullSum(f: Binding -> nat, each: nat, last: nat)
    requires forall k :: 0 <= k < 11 ==> f(FullOutputs()[k]) == if k < 10 then each else last
    ensures SumSeq(f, FullOutputs()) == 10 * each + last
  {
    SumUniform(f, FullOutputs()[..10], each);
  }

  /** The entries just fit the budget, and take what `EntriesArithmetic` allows at most. */
  lemma {:induction false} FullOutputsMeasured()
    ensures SumSeq(EntryLength, FullOutputs()) == 1_033_181
    ensures SumSeq(WireBytes, FullOutputs()) == 1_044_476 <= MAX_PUBLIC_BOUNDARY_WIRE_BYTES
  {
    forall k | 0 <= k < 11
      ensures EntryLength(FullOutputs()[k]) == if k < 10 then 100_312 else 30_061
      ensures WireBytes(FullOutputs()[k]) == if k < 10 then 101_392 else 30_556
    {
      EntryMeasures(k);
    }
    FullSum(EntryLength, 100_312, 30_061);
    FullSum(WireBytes, 101_392, 30_556);
  }

  // ----- the room is exact -----

  function Ones(): Bytes { seq(32, _ => 255) }

  /** The longest digests and count beside entries of the greatest length. */
  ghost predicate Fullest(m: Manifest) {
    && m.identity == Identity(Ones(), Ones(), Ones(), Ones(), Ones(), Ones()) && m.leafCount == AP.MAX_LEAVES
    && m.publicInputs == [] && SumSeq(EntryLength, m.publicOutputs) == 1_033_181
  }

  lemma {:induction false} FullestRest(m: Manifest)
    requires Fullest(m)
    ensures Rest(m) + FLAVOR_ROOM == MAX_MANIFEST_BYTES
  {
    FullBytes(Ones());
    LongestNumbers();
  }

  lemma {:induction false} FullestRefused(m: Manifest)
    requires Rest(m) + FLAVOR_ROOM == MAX_MANIFEST_BYTES && |Escaped(m.proofFlavor)| > FLAVOR_ROOM
    ensures Encode(m).None?
  {
    EncodesExactly(m);
  }

  lemma {:induction false} FullestFrom(utf8: LS.Utf8, flavor: string, outputs: seq<Binding>) returns (m: Manifest)
    requires ValidFlavor(flavor) && PublicClaims(utf8, Output, outputs) && OutputsListed(outputs)
    requires SumSeq(WireBytes, outputs) <= MAX_PUBLIC_BOUNDARY_WIRE_BYTES
    requires SumSeq(EntryLength, outputs) == 1_033_181
    ensures Publishable(utf8, m) && m.proofFlavor == flavor && Fullest(m)
  {
    m := Manifest(Identity(Ones(), Ones(), Ones(), Ones(), Ones(), Ones()), flavor, AP.MAX_LEAVES, [], outputs);
  }

  lemma {:induction false} FullestExists(utf8: LS.Utf8, flavor: string) returns (m: Manifest)
    requires AsciiIsWellFormed(utf8) && ValidFlavor(flavor)
    ensures Publishable(utf8, m) && m.proofFlavor == flavor && Fullest(m)
  {
    FullOutputsPublic(utf8);
    FullOutputsListed();
    FullOutputsMeasured();
    m := FullestFrom(utf8, flavor, FullOutputs());
  }

  lemma {:induction false} RoomyFlavorsFit(utf8: LS.Utf8, flavor: string)
    requires |Escaped(flavor)| <= FLAVOR_ROOM
    ensures forall m :: Publishable(utf8, m) && m.proofFlavor == flavor ==> Encode(m).Some?
  {
    forall m | Publishable(utf8, m) && m.proofFlavor == flavor ensures Encode(m).Some? {
      RoomyFlavorFits(utf8, m);
    }
  }

  lemma {:induction false} TightFlavorRefused(utf8: LS.Utf8, flavor: string) returns (m: Manifest)
    requires AsciiIsWellFormed(utf8) && ValidFlavor(flavor) && |Escaped(flavor)| > FLAVOR_ROOM
    ensures Publishable(utf8, m) && m.proofFlavor == flavor && Encode(m).None?
  {
    m := FullestExists(utf8, flavor);
    FullestRest(m);
    FullestRefused(m);
  }

  /** Every manifest with a given flavor is written exactly when the escaped flavor is within the room. */
  lemma {:induction false} FlavorRoomExact(utf8: LS.Utf8, flavor: string)
    requires AsciiIsWellFormed(utf8) && ValidFlavor(flavor)
    ensures (forall m :: Publishable(utf8, m) && m.proofFlavor == flavor ==> Encode(m).Some?) <==>
      |Escaped(flavor)| <= FLAVOR_ROOM
  {
    if |Escaped(flavor)| <= FLAVOR_ROOM {
      RoomyFlavorsFit(utf8, flavor);
    } else {
      var m := TightFlavorRefused(utf8, flavor);
    }
  }
}
