/**
 * The part of java.math.BigDecimal the wallet uses: a decimal number is
 * `unscaled × 10^-scale`, and rounding is RoundingMode.HALF_UP (round to
 * nearest, ties away from zero).
 */
module Decimals {

  datatype Decimal = Decimal(unscaled: int, scale: nat)

  function Pow10(n: nat): (r: int)
    ensures r >= 1
  {
    if n == 0 then 1 else 10 * Pow10(n - 1)
  }

  lemma {:induction false} Pow10Add(a: nat, b: nat)
    ensures Pow10(a + b) == Pow10(a) * Pow10(b)
  {
    if a > 0 {
      Pow10Add(a - 1, b);
      assert Pow10(a + b) == 10 * Pow10(a - 1 + b);
    }
  }

  /**
   * Reference definition of HALF_UP rounding of the fraction n / d (d > 0):
   * r is the integer nearest to n / d, and a tie goes away from zero.
   * For n >= 0 that is r - 1/2 <= n/d < r + 1/2, for n < 0 it is
   * r - 1/2 < n/d <= r + 1/2.
   */
  ghost predicate IsHalfUpRounding(n: int, d: int, r: int)
    requires d > 0
  {
    if n >= 0 then (2 * r - 1) * d <= 2 * n < (2 * r + 1) * d
    else (2 * r - 1) * d < 2 * n <= (2 * r + 1) * d
  }

  /** HALF_UP rounding of n / d, computed on integers. */
  function RoundHalfUp(n: int, d: int): (r: int)
    requires d > 0
  {
    if n >= 0 then (2 * n + d) / (2 * d) else -((2 * -n + d) / (2 * d))
  }

  lemma MulLeCancel(a: int, b: int, d: int)
    requires d > 0 && a * d <= b * d
    ensures a <= b
  {
  }

  lemma MulLtCancel(a: int, b: int, d: int)
    requires d > 0 && a * d < b * d
    ensures a < b
  {
  }

  /** The computed rounding meets the reference definition. */
  lemma RoundHalfUpSound(n: int, d: int)
    requires d > 0
    ensures IsHalfUpRounding(n, d, RoundHalfUp(n, d))
  {
  }

  /** At most one integer meets the reference definition. */
  lemma RoundingUnique(n: int, d: int, r1: int, r2: int)
    requires d > 0 && IsHalfUpRounding(n, d, r1) && IsHalfUpRounding(n, d, r2)
    ensures r1 == r2
  {
  }

  /** So the reference definition characterises RoundHalfUp completely. */
  lemma RoundHalfUpIff(n: int, d: int, r: int)
    requires d > 0
    ensures IsHalfUpRounding(n, d, r) <==> r == RoundHalfUp(n, d)
  {
    RoundHalfUpSound(n, d);
    if IsHalfUpRounding(n, d, r) {
      RoundingUnique(n, d, r, RoundHalfUp(n, d));
    }
  }

  /** An exact multiple of d is not moved by rounding. */
  lemma RoundHalfUpExact(k: int, d: int)
    requires d > 0
    ensures RoundHalfUp(k * d, d) == k
  {
    assert (2 * k - 1) * d == 2 * (k * d) - d;
    assert (2 * k + 1) * d == 2 * (k * d) + d;
    assert IsHalfUpRounding(k * d, d, k);
    RoundHalfUpIff(k * d, d, k);
  }

  /** HALF_UP rounding is monotonic in the numerator. */
  lemma RoundHalfUpMonotonic(n1: int, n2: int, d: int)
    requires d > 0 && n1 <= n2
    ensures RoundHalfUp(n1, d) <= RoundHalfUp(n2, d)
  {
    var r1, r2 := RoundHalfUp(n1, d), RoundHalfUp(n2, d);
    RoundHalfUpSound(n1, d);
    RoundHalfUpSound(n2, d);
    assert (2 * r1 - 1) * d < (2 * r2 + 1) * d;
    MulLtCancel(2 * r1 - 1, 2 * r2 + 1, d);
  }

  /** Two decimals denote the same number. */
  ghost predicate SameValue(x: Decimal, y: Decimal)
  {
    x.unscaled * Pow10(y.scale) == y.unscaled * Pow10(x.scale)
  }

  /**
   * BigDecimal.setScale(scale, HALF_UP): exact when the scale grows, HALF_UP
   * rounding of the dropped digits when it shrinks.
   */
  function SetScale(x: Decimal, scale: nat): (r: Decimal)
    ensures r.scale == scale
    ensures x.scale <= scale ==> SameValue(x, r)
    ensures x.scale > scale ==> IsHalfUpRounding(x.unscaled, Pow10(x.scale - scale), r.unscaled)
  {
    if x.scale <= scale then
      Pow10Add(scale - x.scale, x.scale);
      Decimal(x.unscaled * Pow10(scale - x.scale), scale)
    else
      RoundHalfUpSound(x.unscaled, Pow10(x.scale - scale));
      Decimal(RoundHalfUp(x.unscaled, Pow10(x.scale - scale)), scale)
  }

  /** The number a decimal denotes. */
  ghost function Value(x: Decimal): (r: real)
  {
    x.unscaled as real / Pow10(x.scale) as real
  }

  /** p/u < q/w exactly when p·w < q·u, for positive u and w. */
  lemma FractionLess(p: int, q: int, u: int, w: int)
    requires u > 0 && w > 0
    ensures p as real / u as real < q as real / w as real <==> p * w < q * u
  {
    var pr, qr, ur, wr := p as real, q as real, u as real, w as real;
    assert pr / ur * (ur * wr) == pr * wr;
    assert qr / wr * (ur * wr) == qr * ur;
    assert (p * w) as real == pr * wr && (q * u) as real == qr * ur;
  }

  /** p/u == q/w exactly when p·w == q·u, for positive u and w. */
  lemma FractionEq(p: int, q: int, u: int, w: int)
    requires u > 0 && w > 0
    ensures p as real / u as real == q as real / w as real <==> p * w == q * u
  {
    FractionLess(p, q, u, w);
    FractionLess(q, p, w, u);
  }

  /** SameValue is equality of the numbers denoted. */
  lemma SameValueIff(x: Decimal, y: Decimal)
    ensures SameValue(x, y) <==> Value(x) == Value(y)
  {
    FractionEq(x.unscaled, y.unscaled, Pow10(x.scale), Pow10(y.scale));
  }

  /** BigDecimal.multiply: the exact product, whose scale is the sum of the scales. */
  function Multiply(x: Decimal, y: Decimal): (r: Decimal)
    ensures r.scale == x.scale + y.scale
    ensures Value(r) == Value(x) * Value(y)
  {
    Pow10Add(x.scale, y.scale);
    Decimal(x.unscaled * y.unscaled, x.scale + y.scale)
  }

  /** Cross-multiplied equalities multiply: p/u == p'/u' and q/v == q'/v' give pq/uv == p'q'/u'v'. */
  lemma CrossProduct(p: int, q: int, p': int, q': int, u: int, v: int, u': int, v': int)
    requires p * u' == p' * u && q * v' == q' * v
    ensures (p * q) * (u' * v') == (p' * q') * (u * v)
  {
    assert (p * q) * (u' * v') == (p * u') * (q * v');
    assert (p' * u) * (q' * v) == (p' * q') * (u * v);
  }

  /** The product depends only on the numbers its operands denote. */
  lemma MultiplySameValue(x: Decimal, x': Decimal, y: Decimal, y': Decimal)
    requires SameValue(x, x') && SameValue(y, y')
    ensures SameValue(Multiply(x, y), Multiply(x', y'))
  {
    Pow10Add(x.scale, y.scale);
    Pow10Add(x'.scale, y'.scale);
    CrossProduct(x.unscaled, y.unscaled, x'.unscaled, y'.unscaled,
      Pow10(x.scale), Pow10(y.scale), Pow10(x'.scale), Pow10(y'.scale));
  }

  /** `x.compareTo(y) < 0`: x denotes a smaller number than y. */
  predicate Less(x: Decimal, y: Decimal)
  {
    x.unscaled * Pow10(y.scale) < y.unscaled * Pow10(x.scale)
  }

  /** Less compares the numbers denoted. */
  lemma LessValue(x: Decimal, y: Decimal)
    ensures Less(x, y) <==> Value(x) < Value(y)
  {
    FractionLess(x.unscaled, y.unscaled, Pow10(x.scale), Pow10(y.scale));
  }

  /** The comparison is transitive. */
  lemma LessTransitive(x: Decimal, y: Decimal, z: Decimal)
    requires Less(x, y) && Less(y, z)
    ensures Less(x, z)
  {
    LessValue(x, y);
    LessValue(y, z);
    LessValue(x, z);
  }

  /** Exactly one of less, equal in value and greater holds. */
  lemma LessTrichotomy(x: Decimal, y: Decimal)
    ensures Less(x, y) || SameValue(x, y) || Less(y, x)
    ensures !(Less(x, y) && SameValue(x, y))
    ensures !(Less(x, y) && Less(y, x))
  {
  }

  /** p/u < q/w and p/u == p'/u' give p'/u' < q/w, by cross-multiplication over positive denominators. */
  lemma CrossLess(p: int, p': int, q: int, u: int, u': int, w: int)
    requires u > 0 && u' > 0 && p * u' == p' * u && p * w < q * u
    ensures p' * w < q * u'
  {
    assert (p * w) * u' < (q * u) * u';
    assert (p * w) * u' == (p * u') * w;
    assert (p' * u) * w == (p' * w) * u;
    assert (q * u) * u' == (q * u') * u;
    MulLtCancel(p' * w, q * u', u);
  }

  /** p/u < q/w and q/w == q'/w' give p/u < q'/w', by cross-multiplication over positive denominators. */
  lemma CrossLessRight(p: int, q: int, q': int, u: int, w: int, w': int)
    requires u > 0 && w > 0 && w' > 0 && q * w' == q' * w && p * w < q * u
    ensures p * w' < q' * u
  {
    assert (p * w) * w' < (q * u) * w';
    assert (p * w) * w' == (p * w') * w;
    assert (q * w') * u == (q' * w) * u;
    assert (q' * w) * u == (q' * u) * w;
    MulLtCancel(p * w', q' * u, w);
  }

  /** The comparison depends only on the number y denotes, not on its scale. */
  lemma LessSameValueRight(x: Decimal, y: Decimal, y': Decimal)
    requires SameValue(y, y')
    ensures Less(x, y) <==> Less(x, y')
  {
    var a, b, b' := Pow10(x.scale), Pow10(y.scale), Pow10(y'.scale);
    if Less(x, y) {
      CrossLessRight(x.unscaled, y.unscaled, y'.unscaled, a, b, b');
    }
    if Less(x, y') {
      CrossLessRight(x.unscaled, y'.unscaled, y.unscaled, a, b', b);
    }
  }

  /** The comparison depends only on the number x denotes, not on its scale. */
  lemma LessSameValue(x: Decimal, x': Decimal, y: Decimal)
    requires SameValue(x, x')
    ensures Less(x, y) <==> Less(x', y)
  {
    var a, a', b := Pow10(x.scale), Pow10(x'.scale), Pow10(y.scale);
    if Less(x, y) {
      CrossLess(x.unscaled, x'.unscaled, y.unscaled, a, a', b);
    }
    if Less(x', y) {
      CrossLess(x'.unscaled, x.unscaled, y.unscaled, a', a, b);
    }
  }

  /**
   * BigDecimal.divide(divisor, scale, HALF_UP): the quotient x / y rounded
   * HALF_UP to `scale` fractional digits. As a fraction, that quotient times
   * 10^scale is x.unscaled × 10^(y.scale + scale) over y.unscaled × 10^x.scale;
   * for a negative divisor both are negated, which leaves the fraction alone.
   */
  function Divide(x: Decimal, y: Decimal, scale: nat): (r: Decimal)
    requires y.unscaled != 0
    ensures r.scale == scale
    ensures y.unscaled > 0 ==>
      IsHalfUpRounding(x.unscaled * Pow10(y.scale + scale), y.unscaled * Pow10(x.scale), r.unscaled)
    ensures y.unscaled < 0 ==>
      IsHalfUpRounding(-(x.unscaled * Pow10(y.scale + scale)), -(y.unscaled * Pow10(x.scale)), r.unscaled)
  {
    var n := x.unscaled * Pow10(y.scale + scale);
    var d := y.unscaled * Pow10(x.scale);
    if d > 0 then
      RoundHalfUpSound(n, d);
      Decimal(RoundHalfUp(n, d), scale)
    else
      RoundHalfUpSound(-n, -d);
      Decimal(RoundHalfUp(-n, -d), scale)
  }
}
