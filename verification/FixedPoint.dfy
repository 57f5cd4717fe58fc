/** Fixed-point arithmetic at scale 10^18 over machine integers. */
module FixedPoint {
  import opened Prelude
  import opened Program

  const SCALE_18: int := 1_000_000_000_000_000_000
  const I64_BOUND: int := 0x8000_0000_0000_0000
  const I128_BOUND: int := 0x8000_0000_0000_0000_0000_0000_0000_0000

  predicate InI64(x: int) { -I64_BOUND <= x < I64_BOUND }
  predicate InI128(x: int) { -I128_BOUND <= x < I128_BOUND }

  /** `q` is `x` divided by the scale, rounded down. */
  predicate RoundsTo(x: int, q: int) {
    0 <= x - q * SCALE_18 < SCALE_18
  }

  /** The quotient and the Euclidean remainder; nothing when the quotient leaves 64 bits. */
  function RequantizeRaw(raw: int): (r: Option<(I18, int)>)
    ensures r.Some? <==> -I64_BOUND * SCALE_18 <= raw < I64_BOUND * SCALE_18
    ensures r.Some? ==> RoundsTo(raw, r.value.0) && r.value.1 == raw - r.value.0 * SCALE_18
  {
    if InI64(raw / SCALE_18) then Some((raw / SCALE_18, raw % SCALE_18)) else None
  }

  /** Rounding down determines the quotient. */
  lemma {:induction false} RoundsOnce(x: int, q: int, q': int)
    requires RoundsTo(x, q) && RoundsTo(x, q')
    ensures q == q'
  {
  }

  /** What 128-bit addition keeps when it wraps around. */
  function Wrap128(x: int): (r: int)
    ensures InI128(r) && (r - x) % (2 * I128_BOUND) == 0
  {
    var r := (x + I128_BOUND) % (2 * I128_BOUND) - I128_BOUND;
    WrapStep(x);
    r
  }

  lemma {:induction false} WrapStep(x: int)
    ensures ((x + I128_BOUND) % (2 * I128_BOUND) - I128_BOUND - x) % (2 * I128_BOUND) == 0
  {
    var turns := (x + I128_BOUND) / (2 * I128_BOUND);
    assert (x + I128_BOUND) % (2 * I128_BOUND) - I128_BOUND - x == -turns * (2 * I128_BOUND);
  }

  lemma {:induction false} WrapUnique(x: int, r: int)
    requires InI128(r) && (r - x) % (2 * I128_BOUND) == 0
    ensures Wrap128(x) == r
  {
    var d, e := (r - x) / (2 * I128_BOUND), (Wrap128(x) - x) / (2 * I128_BOUND);
    assert r - Wrap128(x) == (d - e) * (2 * I128_BOUND);
  }

  /** Wrapping each partial sum is wrapping the whole. */
  lemma {:induction false} WrapAdd(x: int, y: int)
    ensures Wrap128(Wrap128(x) + y) == Wrap128(x + y)
  {
    var d, e := (Wrap128(x) - x) / (2 * I128_BOUND), (Wrap128(Wrap128(x) + y) - (Wrap128(x) + y)) / (2 * I128_BOUND);
    var r := Wrap128(Wrap128(x) + y);
    assert r - (x + y) == (d + e) * (2 * I128_BOUND);
    WrapUnique(x + y, r);
  }

  /** A wrapped sum rounds to the exact quotient exactly when it did not need wrapping. */
  lemma {:induction false} WrappedRounds(x: int, q: int)
    requires RoundsTo(Wrap128(x), q)
    ensures RoundsTo(x, q) <==> InI128(x)
  {
    if InI128(x) {
      WrapUnique(x, x);
    } else {
      var turns := (Wrap128(x) - x) / (2 * I128_BOUND);
      assert Wrap128(x) - x == turns * (2 * I128_BOUND) && turns != 0;
    }
  }
}
