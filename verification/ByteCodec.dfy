/** Little-endian numbers, texts and counted lists, written ahead of what follows and read back. */
module ByteCodec {
  import opened Prelude
  import opened Program

  type Byte = x: int | 0 <= x < 256
  type Bytes = seq<Byte>

  /** A value read from the front of some bytes, and the bytes after it. */
  type Reading<T> = Option<(T, Bytes)>

  // ----- numbers -----

  function Power256(width: nat): nat {
    if width == 0 then 1 else 256 * Power256(width - 1)
  }

  /** The low bytes of a number, least significant first. */
  function Digits(width: nat, v: nat): Bytes {
    if width == 0 then [] else [v % 256] + Digits(width - 1, v / 256)
  }

  function PutNumber(width: nat, v: nat, after: Bytes): Bytes { Digits(width, v) + after }

  function TakeNumber(width: nat, b: Bytes): Reading<nat> {
    if width == 0 then Some((0, b))
    else if |b| == 0 then None
    else
      match TakeNumber(width - 1, b[1..])
      case None => None
      case Some(read) => Some((b[0] + 256 * read.0, read.1))
  }

  lemma {:induction false} LowByteFirst(width: nat, v: nat, after: Bytes)
    requires width > 0
    ensures PutNumber(width, v, after) == [v % 256] + PutNumber(width - 1, v / 256, after)
  {
    assert [v % 256] + Digits(width - 1, v / 256) + after == [v % 256] + (Digits(width - 1, v / 256) + after);
  }

  lemma {:induction false} LowByte(v: nat, first: Byte, rest: nat, power: nat)
    ensures v == first + 256 * rest <==> v % 256 == first && v / 256 == rest
    ensures v < 256 * power <==> v / 256 < power
  {
  }

  /** Reading one more byte succeeds exactly when the rest reads, and the byte comes lowest. */
  lemma {:induction false} TakeStep(width: nat, b: Bytes, v: nat, after: Bytes)
    requires width > 0 && |b| > 0
    ensures TakeNumber(width, b) == Some((v, after)) <==>
      v % 256 == b[0] && TakeNumber(width - 1, b[1..]) == Some((v / 256, after))
  {
    var read := TakeNumber(width - 1, b[1..]);
    if read.Some? { LowByte(v, b[0], read.value.0, 0); }
  }

  lemma {:induction false} NumberExact(width: nat, b: Bytes, v: nat, after: Bytes)
    ensures TakeNumber(width, b) == Some((v, after)) <==> v < Power256(width) && b == PutNumber(width, v, after)
  {
    if width == 0 {
      assert PutNumber(0, v, after) == after;
    } else {
      LowByteFirst(width, v, after);
      if |b| > 0 {
        TakeStep(width, b, v, after);
        NumberExact(width - 1, b[1..], v / 256, after);
        SplitFirst(b, v % 256, PutNumber(width - 1, v / 256, after));
        LowByte(v, 0, 0, Power256(width - 1));
      }
    }
  }

  lemma {:induction false} SplitFirst(b: Bytes, first: Byte, rest: Bytes)
    requires |b| > 0
    ensures b == [first] + rest <==> b[0] == first && b[1..] == rest
  {
    assert b == [b[0]] + b[1..];
    assert ([first] + rest)[1..] == rest;
  }

  lemma {:induction false} NumberLength(width: nat, v: nat, after: Bytes)
    ensures |PutNumber(width, v, after)| == width + |after|
  {
    if width > 0 {
      LowByteFirst(width, v, after);
      NumberLength(width - 1, v / 256, after);
    }
  }

  lemma {:induction false} Powers()
    ensures Power256(1) == 256 && Power256(4) == 0x1_0000_0000 && Power256(8) == U64_BOUND
  {
    assert Power256(2) == 0x1_0000 && Power256(3) == 0x100_0000 && Power256(4) == 0x1_0000_0000;
    assert Power256(5) == 0x100_0000_0000 && Power256(6) == 0x1_0000_0000_0000 && Power256(7) == 0x100_0000_0000_0000;
  }

  /** Two's complement. */
  function Unsigned(v: I18): U64 { if v < 0 then v + U64_BOUND else v }

  function Signed(v: U64): I18 { if v < 0x8000_0000_0000_0000 then v else v - U64_BOUND }

  // ----- raw bytes and texts -----

  function TakeBytes(n: nat, b: Bytes): Reading<Bytes> {
    if |b| < n then None else Some((b[..n], b[n..]))
  }

  lemma {:induction false} BytesExact(n: nat, b: Bytes, x: Bytes, after: Bytes)
    ensures TakeBytes(n, b) == Some((x, after)) <==> |x| == n && b == x + after
  {
    if |b| >= n { assert b == b[..n] + b[n..]; }
    if |x| == n && b == x + after { assert b[..n] == x && b[n..] == after; }
  }

  /** Texts stand for their bytes, one character each. */
  predicate ByteText(s: string) {
    forall i :: 0 <= i < |s| ==> s[i] as int < 256
  }

  function BytesOf(s: string): (r: Bytes)
    ensures |r| == |s|
    ensures ByteText(s) ==> forall i :: 0 <= i < |s| ==> r[i] == s[i] as int
  {
    seq(|s|, i requires 0 <= i < |s| => (s[i] as int) % 256)
  }

  function TextOf(b: Bytes): (r: string)
    ensures |r| == |b| && ByteText(r) && forall i :: 0 <= i < |b| ==> r[i] as int == b[i]
  {
    seq(|b|, i requires 0 <= i < |b| => b[i] as char)
  }

  lemma {:induction false} TextExact(b: Bytes, s: string)
    ensures TextOf(b) == s <==> ByteText(s) && b == BytesOf(s)
  {
    if TextOf(b) == s { assert b == BytesOf(s); }
    if ByteText(s) && b == BytesOf(s) { assert TextOf(b) == s; }
  }

  // ----- lists -----

  type Put<!T> = (T, Bytes) -> Bytes
  type Take<!T> = Bytes -> Reading<T>

  function PutAll<T>(put: Put<T>, xs: seq<T>, after: Bytes): Bytes {
    if |xs| == 0 then after else put(xs[0], PutAll(put, xs[1..], after))
  }

  function TakeAll<T>(take: Take<T>, n: nat, b: Bytes): (r: Reading<seq<T>>)
    ensures r.Some? ==> |r.value.0| == n
  {
    if n == 0 then Some(([], b))
    else
      match take(b)
      case None => None
      case Some(first) =>
        match TakeAll(take, n - 1, first.1)
        case None => None
        case Some(rest) => Some(([first.0] + rest.0, rest.1))
  }

  /** Reading undoes writing, and accepts nothing else. */
  ghost predicate Exact<T(!new)>(put: Put<T>, take: Take<T>, valid: T -> bool) {
    forall b, x, after :: take(b) == Some((x, after)) <==> valid(x) && b == put(x, after)
  }

  lemma {:induction false} AllExact<T(!new)>(
      put: Put<T>, take: Take<T>, valid: T -> bool, n: nat, b: Bytes, xs: seq<T>, after: Bytes)
    requires Exact(put, take, valid)
    ensures TakeAll(take, n, b) == Some((xs, after)) <==>
      |xs| == n && (forall i :: 0 <= i < |xs| ==> valid(xs[i])) && b == PutAll(put, xs, after)
  {
    if n > 0 {
      if take(b).Some? {
        var x, b1 := take(b).value.0, take(b).value.1;
        assert valid(x) && b == put(x, b1);
        if |xs| == n {
          AllExact(put, take, valid, n - 1, b1, xs[1..], after);
          FirstOfAll(put, take, valid, n, b, xs, after, x, b1);
        }
      } else if |xs| == n && valid(xs[0]) {
        assert take(put(xs[0], PutAll(put, xs[1..], after))) == Some((xs[0], PutAll(put, xs[1..], after)));
      }
    }
  }

  lemma {:induction false} FirstOfAll<T(!new)>(
      put: Put<T>, take: Take<T>, valid: T -> bool, n: nat, b: Bytes, xs: seq<T>, after: Bytes, x: T, b1: Bytes)
    requires Exact(put, take, valid) && take(b) == Some((x, b1)) && |xs| == n > 0
    requires TakeAll(take, n - 1, b1) == Some((xs[1..], after)) <==>
      (forall i :: 0 <= i < |xs[1..]| ==> valid(xs[1..][i])) && b1 == PutAll(put, xs[1..], after)
    ensures TakeAll(take, n, b) == Some((xs, after)) <==>
      (forall i :: 0 <= i < |xs| ==> valid(xs[i])) && b == PutAll(put, xs, after)
  {
    assert xs == [xs[0]] + xs[1..];
    if TakeAll(take, n, b) == Some((xs, after)) {
      var rest := TakeAll(take, n - 1, b1).value;
      assert ([x] + rest.0)[1..] == rest.0 && xs[0] == x;
      forall i | 0 <= i < |xs| ensures valid(xs[i]) {
        if i > 0 { assert xs[i] == xs[1..][i - 1]; }
      }
    }
    if (forall i :: 0 <= i < |xs| ==> valid(xs[i])) && b == PutAll(put, xs, after) {
      var later := PutAll(put, xs[1..], after);
      assert valid(xs[0]) && b == put(xs[0], later);
      assert take(b) == Some((xs[0], later));
    }
  }

  // ----- appending to a buffer -----

  class ByteBuffer {
    var bytes: Bytes

    constructor (initial: Bytes)
      ensures bytes == initial
    {
      bytes := initial;
    }

    method Extend(more: Bytes)
      modifies this
      ensures bytes == old(bytes) + more
    {
      bytes := bytes + more;
    }

    method Number(width: nat, v: nat)
      modifies this
      ensures Wrote(old(bytes), bytes, after => PutNumber(width, v, after))
    {
      NumberAppends(width, v, bytes);
      Extend(PutNumber(width, v, []));
    }
  }

  /** A buffer has grown by an encoding, given by what it puts ahead of anything that follows. */
  ghost predicate Wrote(before: Bytes, now: Bytes, put: Bytes -> Bytes) {
    forall after {:trigger now + after} :: now + after == before + put(after)
  }

  lemma {:induction false} WroteThen(
      before: Bytes, middle: Bytes, now: Bytes, first: Bytes -> Bytes, second: Bytes -> Bytes, both: Bytes -> Bytes)
    requires Wrote(before, middle, first) && Wrote(middle, now, second)
      && forall after :: both(after) == first(second(after))
    ensures Wrote(before, now, both)
  {
    forall after ensures now + after == before + both(after) {
      assert now + after == middle + second(after);
    }
  }

  lemma {:induction false} NumberAppends(width: nat, v: nat, before: Bytes)
    ensures Wrote(before, before + PutNumber(width, v, []), after => PutNumber(width, v, after))
  {
    assert PutNumber(width, v, []) == Digits(width, v);
    BytesAppend(before, Digits(width, v));
  }

  lemma {:induction false} BytesAppend(before: Bytes, x: Bytes)
    ensures Wrote(before, before + x, after => x + after)
  {
    forall after ensures before + x + after == before + (x + after) {}
  }

  lemma {:induction false} AllSnoc<T>(put: Put<T>, xs: seq<T>, k: nat, after: Bytes)
    requires k < |xs|
    ensures PutAll(put, xs[..k + 1], after) == PutAll(put, xs[..k], put(xs[k], after))
  {
    if k > 0 {
      AllSnoc(put, xs[1..], k - 1, after);
      assert xs[1..][..k] == xs[..k + 1][1..] && xs[1..][..k - 1] == xs[..k][1..];
    }
  }

  lemma {:induction false} WroteOneMore<T>(before: Bytes, middle: Bytes, now: Bytes, put: Put<T>, xs: seq<T>, k: nat)
    requires k < |xs| && Wrote(before, middle, after => PutAll(put, xs[..k], after))
      && Wrote(middle, now, after => put(xs[k], after))
    ensures Wrote(before, now, after => PutAll(put, xs[..k + 1], after))
  {
    forall after ensures now + after == before + PutAll(put, xs[..k + 1], after) {
      assert now + after == middle + put(xs[k], after);
      AllSnoc(put, xs, k, after);
    }
  }

  // ----- reading from a cursor -----

  /** What an operation on a cursor returns and leaves, against a reading of what was left before. */
  ghost predicate Yields<T>(reading: Reading<T>, r: Option<T>, rest: Bytes) {
    match reading
    case None => r == None
    case Some(p) => r == Some(p.0) && rest == p.1
  }

  lemma {:induction false} NumberOfBytes(width: nat, b: Bytes)
    ensures |b| < width ==> TakeNumber(width, b) == None
    ensures |b| >= width ==>
      TakeNumber(width, b[..width]).Some?
      && TakeNumber(width, b) == Some((TakeNumber(width, b[..width]).value.0, b[width..]))
  {
    if width > 0 && |b| > 0 {
      NumberOfBytes(width - 1, b[1..]);
      if |b| >= width {
        assert b[..width][1..] == b[1..][..width - 1] && b[1..][width - 1..] == b[width..];
      }
    }
  }

  class Decoder {
    const bytes: Bytes
    var offset: nat

    ghost predicate Valid()
      reads this
    {
      offset <= |bytes|
    }

    ghost function Rest(): Bytes
      requires Valid()
      reads this
    {
      bytes[offset..]
    }

    constructor (bytes: Bytes, offset: nat)
      requires offset <= |bytes|
      ensures Valid() && this.bytes == bytes && Rest() == bytes[offset..]
    {
      this.bytes, this.offset := bytes, offset;
    }

    method Take(n: nat) returns (r: Option<Bytes>)
      requires Valid()
      modifies this
      ensures Valid() && Yields(TakeBytes(n, old(Rest())), r, Rest())
    {
      if offset + n > |bytes| {
        return None;
      }
      r := Some(bytes[offset..offset + n]);
      assert Rest()[..n] == r.value && Rest()[n..] == bytes[offset + n..];
      offset := offset + n;
    }

    method Number(width: nat) returns (r: Option<nat>)
      requires Valid()
      modifies this
      ensures Valid() && Yields(TakeNumber(width, old(Rest())), r, Rest())
    {
      NumberOfBytes(width, Rest());
      var raw := Take(width);
      if raw.None? {
        return None;
      }
      r := Some(TakeNumber(width, raw.value).value.0);
    }
  }

  /** Reading on after some values have been read. */
  function ReadOn<T>(values: seq<T>, rest: Reading<seq<T>>): Reading<seq<T>> {
    match rest
    case None => None
    case Some(more) => Some((values + more.0, more.1))
  }

  lemma {:induction false} ReadNothing<T>(rest: Reading<seq<T>>)
    ensures ReadOn([], rest) == rest
  {
    if rest.Some? { assert [] + rest.value.0 == rest.value.0; }
  }

  lemma {:induction false} ReadEnough<T>(take: Take<T>, values: seq<T>, b: Bytes)
    ensures ReadOn(values, TakeAll(take, 0, b)) == Some((values, b))
  {
    assert values + [] == values;
  }

  lemma {:induction false} ReadOneMore<T>(take: Take<T>, values: seq<T>, n: nat, b: Bytes)
    requires n > 0
    ensures ReadOn(values, TakeAll(take, n, b)) ==
      match take(b) case None => None case Some(first) => ReadOn(values + [first.0], TakeAll(take, n - 1, first.1))
  {
    if take(b).Some? {
      var first := take(b).value;
      if TakeAll(take, n - 1, first.1).Some? {
        assert values + ([first.0] + TakeAll(take, n - 1, first.1).value.0)
          == values + [first.0] + TakeAll(take, n - 1, first.1).value.0;
      }
    }
  }
}
