/** Amount rescaling: the source stores two decimal digits, the target six.
    The source computes `amount * 1000000 / 100` on 64-bit signed integers. */
module Amounts {
  const I64Min: int := -0x8000_0000_0000_0000
  const I64Max: int := 0x7fff_ffff_ffff_ffff
  const TwoTo64: int := 0x1_0000_0000_0000_0000

  predicate InI64(x: int)
  {
    I64Min <= x <= I64Max
  }

  /** The two's-complement wrap-around of a 64-bit result, as an optimised
      build computes it. */
  function WrapI64(x: int): (r: int)
    ensures InI64(r)
    ensures (r - x) % TwoTo64 == 0
    ensures InI64(x) ==> r == x
  {
    (x - I64Min) % TwoTo64 + I64Min
  }

  /** Division by 100 rounding toward zero, as the source's `/` does (the
      Euclidean `/` would round a negative quotient down instead). */
  function TruncDiv100(a: int): (q: int)
    ensures a >= 0 ==> 0 <= q * 100 <= a < q * 100 + 100
    ensures a < 0 ==> q * 100 - 100 < a <= q * 100 <= 0
  {
    if a >= 0 then a / 100 else -((-a) / 100)
  }

  /** `x * 1000000 / 100` on `i64`. */
  function Rescale(amount: int): int
  {
    TruncDiv100(WrapI64(amount * 1000000))
  }

  /** Without overflow the rescale is an exact multiplication by 10000, so
      it keeps the sign and loses nothing. */
  lemma RescaleExact(amount: int)
    requires InI64(amount * 1000000)
    ensures Rescale(amount) == amount * 10000
  {
    var p := amount * 1000000;
    assert WrapI64(p) == p;
    var q := TruncDiv100(p);
    assert p == (amount * 10000) * 100;
    if p >= 0 {
      assert q * 100 <= p < q * 100 + 100;
    } else {
      assert q * 100 - 100 < p <= q * 100;
    }
  }

  /** Any amount up to 92 233 720 368.54 in either direction rescales exactly. */
  lemma RescaleExactRange(amount: int)
    requires -9_223_372_036_854 <= amount <= 9_223_372_036_854
    ensures Rescale(amount) == amount * 10000
  {
    RescaleExact(amount);
  }

  /** Past that range the multiplication wraps: a positive amount of
      100 000 000 000.00 comes out negative. */
  lemma RescaleOverflow()
    ensures Rescale(10_000_000_000_000) == -84_467_440_737_095_516
    ensures Rescale(10_000_000_000_000) < 0
  {
    assert WrapI64(10_000_000_000_000 * 1000000) == -8_446_744_073_709_551_616;
  }
}
