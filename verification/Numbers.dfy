/** The two machine arithmetics the claim aggregation adds with: two's complement
    int64 and IEEE 754 binary64 (round to nearest, ties to even). Binary64 values
    are represented by the real number they denote; infinities and NaN do not
    occur among decoded licences. */
module Numbers {
  const TWO63: int := 0x8000_0000_0000_0000
  const TWO64: int := 0x1_0000_0000_0000_0000
  const TWO52: real := 4503599627370496.0
  const TWO53: real := 9007199254740992.0

  /** The number of halvings between spacing 1 and the smallest subnormal spacing. */
  const SUBNORMAL_BITS: nat := 1074

  type int64 = i: int | -TWO63 <= i < TWO63

  function Wrap64(n: int): (r: int64)
    ensures (n - r) % 0x1_0000_0000_0000_0000 == 0
    ensures -0x8000_0000_0000_0000 <= r <= 0x7FFF_FFFF_FFFF_FFFF
  {
    (n + TWO63) % TWO64 - TWO63
  }

  /** Wrapping after every addition is the same as wrapping the exact sum once. */
  lemma Wrap64Absorbs(a: int, b: int)
    ensures Wrap64(Wrap64(a) + b) == Wrap64(a + b)
  {
  }

  function NearestEven(x: real): (r: real)
    ensures r == r.Floor as real
    ensures -0.5 <= r - x <= 0.5
  {
    var lo := x.Floor;
    var d := x - lo as real;
    if d < 0.5 || (d == 0.5 && lo % 2 == 0) then lo as real else (lo + 1) as real
  }

  /** Rounding below 2^53: double until the spacing is 1, round, and scale back. */
  function RoundSmall(x: real, bits: nat): real
    decreases bits
  {
    if bits == 0 || x >= TWO52 then NearestEven(x) else RoundSmall(2.0 * x, bits - 1) / 2.0
  }

  function RoundMagnitude(x: real): real
    requires x >= 0.0
    decreases x.Floor
  {
    if x < TWO53 then RoundSmall(x, SUBNORMAL_BITS) else 2.0 * RoundMagnitude(x / 2.0)
  }

  /** The binary64 value nearest to a real number. */
  function Round64(x: real): real {
    if x < 0.0 then -RoundMagnitude(-x) else RoundMagnitude(x)
  }

  function FloatAdd(x: real, y: real): real {
    Round64(x + y)
  }

  predicate Integral(x: real) {
    x == x.Floor as real
  }

  lemma {:induction false} RoundSmallExact(n: int, bits: nat)
    ensures RoundSmall(n as real, bits) == n as real
    decreases bits
  {
    var x := n as real;
    if bits == 0 || x >= TWO52 {
      assert NearestEven(x) == x;
    } else {
      assert 2.0 * x == (2 * n) as real;
      RoundSmallExact(2 * n, bits - 1);
    }
  }

  /** Integers up to 2^53 in magnitude are binary64 values, so rounding keeps them. */
  lemma Round64Exact(n: int)
    requires -0x20_0000_0000_0000 <= n <= 0x20_0000_0000_0000
    ensures Round64(n as real) == n as real
  {
    var m := if n < 0 then -n else n;
    RoundSmallExact(m, SUBNORMAL_BITS);
    if m == 0x20_0000_0000_0000 {
      RoundSmallExact(0x10_0000_0000_0000, SUBNORMAL_BITS);
      assert RoundMagnitude(TWO52) == TWO52;
    }
    assert RoundMagnitude(m as real) == m as real;
  }

  /** One past 2^53 the rounding shows: adding 1 changes nothing. */
  lemma Round64Inexact()
    ensures FloatAdd(9007199254740992.0, 1.0) == 9007199254740992.0
  {
  }

  // ---------- What rounding loses ----------

  function SmallSpacing(x: real, bits: nat): (u: real)
    ensures u > 0.0
    decreases bits
  {
    if bits == 0 || x >= TWO52 then 1.0 else SmallSpacing(2.0 * x, bits - 1) / 2.0
  }

  /** The distance between neighbouring binary64 values where `x` is rounded. */
  function Spacing(x: real): (u: real)
    requires x >= 0.0
    ensures u > 0.0
    decreases x.Floor
  {
    if x < TWO53 then SmallSpacing(x, SUBNORMAL_BITS) else 2.0 * Spacing(x / 2.0)
  }

  /** Two to the power of `e`. */
  ghost function Pow2(e: int): (p: real)
    ensures p > 0.0
    decreases if e < 0 then -e else e
  {
    if e == 0 then 1.0 else if e > 0 then 2.0 * Pow2(e - 1) else Pow2(e + 1) / 2.0
  }

  lemma {:induction false} Pow2Grows(e: int, f: int)
    requires e <= f
    ensures Pow2(e) <= Pow2(f)
    decreases f - e
  {
    if e < f {
      Pow2Grows(e, f - 1);
      assert Pow2(f) == 2.0 * Pow2(f - 1);
    }
  }

  lemma {:induction false} Pow2Sum(e: nat, f: nat)
    ensures Pow2(e + f) == Pow2(e) * Pow2(f)
  {
    if f > 0 {
      Pow2Sum(e, f - 1);
      assert Pow2(e) * (2.0 * Pow2(f - 1)) == 2.0 * (Pow2(e) * Pow2(f - 1));
    }
  }

  lemma Pow2Of52()
    ensures Pow2(52) == TWO52
  {
    assert Pow2(1) == 2.0 && Pow2(2) == 4.0 && Pow2(3) == 8.0;
    Pow2Sum(3, 3);
    Pow2Sum(6, 6);
    Pow2Sum(12, 1);
    Pow2Sum(13, 13);
    Pow2Sum(26, 26);
  }

  lemma {:induction false} SmallSpacingBinade(x: real, bits: nat, e: int)
    requires Pow2(e) <= x < Pow2(e + 1) && e <= 52
    ensures SmallSpacing(x, bits) == Pow2(if e - 52 >= 0 - bits then e - 52 else 0 - bits)
    decreases bits
  {
    Pow2Of52();
    if e < 52 {
      Pow2Grows(e + 1, 52);
      if bits > 0 {
        assert Pow2(e + 1) == 2.0 * Pow2(e) && Pow2(e + 2) == 2.0 * Pow2(e + 1);
        SmallSpacingBinade(2.0 * x, bits - 1, e + 1);
      }
    }
  }

  /** The spacing of binary64: the 53rd binary digit of `x`, but never less than 2^-1074. */
  lemma {:induction false} SpacingBinade(x: real, e: int)
    requires Pow2(e) <= x < Pow2(e + 1)
    ensures Spacing(x) == Pow2(if e >= -1022 then e - 52 else -1074)
    ensures Spacing(0.0) == Pow2(-1074)
    decreases e
  {
    Pow2Of52();
    assert Pow2(53) == 2.0 * Pow2(52);
    SpacingAtZero(SUBNORMAL_BITS);
    if e < 53 {
      Pow2Grows(e + 1, 53);
      SmallSpacingBinade(x, SUBNORMAL_BITS, e);
    } else {
      Pow2Grows(53, e);
      assert Pow2(e + 1) == 2.0 * Pow2(e) && Pow2(e) == 2.0 * Pow2(e - 1);
      SpacingBinade(x / 2.0, e - 1);
    }
  }

  lemma {:induction false} SpacingAtZero(bits: nat)
    ensures SmallSpacing(0.0, bits) == Pow2(0 - bits)
  {
    if bits > 0 {
      SpacingAtZero(bits - 1);
      assert 2.0 * 0.0 == 0.0;
    }
  }

  function Abs(x: real): real {
    if x < 0.0 then -x else x
  }

  /** `r` is the `n`-th multiple of the spacing `u`, and `x` is nearest to it, on a tie if `n` is even. */
  ghost predicate NearestMultiple(x: real, r: real, u: real, n: int) {
    r == n as real * u && (Abs(x - r) < u / 2.0 || (Abs(x - r) == u / 2.0 && n % 2 == 0))
  }

  ghost predicate RoundsTo(x: real, r: real, u: real) {
    exists n :: NearestMultiple(x, r, u, n)
  }

  lemma NearestEvenIff(x: real, r: real)
    ensures NearestEven(x) == r <==> RoundsTo(x, r, 1.0)
  {
    var m := NearestEven(x).Floor;
    assert NearestEven(x) == m as real;
    NearestIntegerIff(x, m);
    assert NearestMultiple(x, m as real, 1.0, m);
    if n :| NearestMultiple(x, r, 1.0, n) {
      NearestIntegerIff(x, n);
    }
  }

  lemma NearestIntegerIff(x: real, n: int)
    ensures NearestEven(x) == n as real <==> NearestMultiple(x, n as real, 1.0, n)
    ensures forall r :: NearestMultiple(x, r, 1.0, n) ==> r == n as real
  {
    var lo := x.Floor;
    assert lo as real <= x < lo as real + 1.0;
    assert n as real * 1.0 == n as real;
    assert n < lo ==> n as real <= lo as real - 1.0;
    assert n > lo + 1 ==> n as real >= lo as real + 2.0;
  }

  lemma ScaleMultiple(x: real, r: real, u: real, n: int)
    ensures NearestMultiple(2.0 * x, 2.0 * r, 2.0 * u, n) <==> NearestMultiple(x, r, u, n)
  {
    var k := n as real;
    assert k * (2.0 * u) == 2.0 * (k * u);
    assert Abs(2.0 * x - 2.0 * r) == 2.0 * Abs(x - r);
  }

  lemma Scale(x: real, r: real, u: real)
    ensures RoundsTo(2.0 * x, 2.0 * r, 2.0 * u) <==> RoundsTo(x, r, u)
  {
    var x', r', u' := 2.0 * x, 2.0 * r, 2.0 * u;
    if n :| NearestMultiple(x', r', u', n) {
      ScaleMultiple(x, r, u, n);
    }
    if n :| NearestMultiple(x, r, u, n) {
      ScaleMultiple(x, r, u, n);
    }
  }

  lemma {:induction false} RoundSmallIff(x: real, r: real, bits: nat)
    ensures RoundSmall(x, bits) == r <==> RoundsTo(x, r, SmallSpacing(x, bits))
    decreases bits
  {
    if bits == 0 || x >= TWO52 {
      NearestEvenIff(x, r);
    } else {
      RoundSmallIff(2.0 * x, 2.0 * r, bits - 1);
      Scale(x, r, SmallSpacing(x, bits));
    }
  }

  lemma {:induction false} RoundMagnitudeIff(x: real, r: real)
    requires x >= 0.0
    ensures RoundMagnitude(x) == r <==> RoundsTo(x, r, Spacing(x))
    decreases x.Floor
  {
    if x < TWO53 {
      RoundSmallIff(x, r, SUBNORMAL_BITS);
    } else {
      RoundMagnitudeIff(x / 2.0, r / 2.0);
      Scale(x / 2.0, r / 2.0, Spacing(x / 2.0));
    }
  }

  lemma Mirror(x: real, r: real, u: real)
    requires RoundsTo(x, r, u)
    ensures RoundsTo(-x, -r, u)
  {
    var n :| NearestMultiple(x, r, u, n);
    assert (-n) as real * u == -(n as real * u);
    assert NearestMultiple(-x, -r, u, -n);
  }

  /** Rounding yields `r` exactly if `r` is the multiple of the spacing that is nearest to `x`. */
  lemma Round64Iff(x: real, r: real)
    ensures Round64(x) == r <==> RoundsTo(x, r, Spacing(Abs(x)))
  {
    RoundMagnitudeIff(Abs(x), if x < 0.0 then -r else r);
    if x < 0.0 {
      if RoundsTo(x, r, Spacing(Abs(x))) {
        Mirror(x, r, Spacing(Abs(x)));
      }
      if RoundsTo(-x, -r, Spacing(Abs(x))) {
        Mirror(-x, -r, Spacing(Abs(x)));
      }
    }
  }

  /** Beside `x`, which is the `n`-th multiple of the spacing `u`, the addend `s` is lost: less
      than half the spacing, or exactly half of it, if `n` is even. */
  ghost predicate LostBeside(s: real, x: real, u: real, n: int) {
    x == n as real * u && (Abs(s) < u / 2.0 || (Abs(s) == u / 2.0 && n % 2 == 0))
  }

  /** The same with the spacing at the sum. */
  ghost predicate Lost(s: real, x: real) {
    var u := Spacing(Abs(s + x));
    exists n :: LostBeside(s, x, u, n)
  }

  lemma AddendIsLostIff(s: real, x: real)
    ensures FloatAdd(s, x) == x <==> Lost(s, x)
  {
    var u := Spacing(Abs(s + x));
    var sum := s + x;
    Round64Iff(sum, x);
    assert sum - x == s;
    if n :| LostBeside(s, x, u, n) {
      assert NearestMultiple(sum, x, u, n);
    }
    if n :| NearestMultiple(sum, x, u, n) {
      assert LostBeside(s, x, u, n);
    }
  }
}
