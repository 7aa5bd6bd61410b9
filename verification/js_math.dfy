/** JavaScript number helpers shared by the game and the background scroller.
    JS numbers are modelled as `real`; the only operators that need care are
    `%` (the remainder of a TRUNCATING division, with the sign of the dividend)
    and `Math.floor`, which is Dafny's `.Floor`. */
module JsMath {

  /** A JS value that may be `null`. */
  datatype Option<+T> = None | Some(value: T)

  function Min(a: real, b: real): (r: real)
    ensures r <= a && r <= b && (r == a || r == b)
  {
    if a <= b then a else b
  }

  function Max(a: real, b: real): (r: real)
    ensures r >= a && r >= b && (r == a || r == b)
  {
    if a >= b then a else b
  }

  /** `x` is a whole number of `b`s. */
  predicate WholeMultiple(x: real, b: real)
    requires b > 0.0
  {
    x / b == (x / b).Floor as real
  }

  /** `a % b` for JS numbers with a positive divisor: it differs from `a` by a
      whole number of divisors and lies strictly between `-b` and `b`, on the
      side of zero the dividend is on. */
  function RealRem(a: real, b: real): (r: real)
    requires b > 0.0
    ensures WholeMultiple(a - r, b)
    ensures a >= 0.0 ==> 0.0 <= r < b
    ensures a < 0.0 ==> -b < r <= 0.0
    ensures 0.0 <= a < b ==> r == a
  {
    if a >= 0.0 then NonNegRem(a, b) else
      var r := NonNegRem(-a, b);
      NegatedMultiple(-a - r, b);
      assert a - -r == -(-a - r);
      -r
  }

  /** The remainder of a non-negative dividend: `a - b * floor(a / b)`. */
  function NonNegRem(a: real, b: real): (r: real)
    requires a >= 0.0 && b > 0.0
    ensures WholeMultiple(a - r, b)
    ensures 0.0 <= r < b
    ensures a < b ==> r == a
  {
    var q := (a / b).Floor;
    FloorTimes(a, b, q);
    TimesIsMultiple(b, q);
    a - b * q as real
  }

  lemma TimesIsMultiple(b: real, q: int)
    requires b > 0.0
    ensures WholeMultiple(b * q as real, b)
  {
    assert (b * q as real) / b == q as real;
  }

  lemma NegatedMultiple(x: real, b: real)
    requires b > 0.0 && WholeMultiple(x, b)
    ensures WholeMultiple(-x, b)
  {
    var q := (x / b).Floor;
    assert -x / b == -(x / b) == (-q) as real;
  }

  lemma FloorTimes(a: real, b: real, q: int)
    requires a >= 0.0 && b > 0.0 && q == (a / b).Floor
    ensures 0.0 <= a - b * q as real < b
    ensures a < b ==> q == 0
  {
    var f := q as real;
    DivLower(a, b, f);
    DivUpper(a, b, f + 1.0);
    DistribAdd(b, f, 1.0);
    if a < b {
      DivBelowOne(a, b);
    }
  }

  lemma DivLower(a: real, b: real, f: real)
    requires b > 0.0 && f <= a / b
    ensures b * f <= a
  {
    ScaleLe(b, f, a / b);
  }

  lemma DivUpper(a: real, b: real, g: real)
    requires b > 0.0 && a / b < g
    ensures a < b * g
  {
    ScaleLt(b, a / b, g);
  }

  lemma DivBelowOne(a: real, b: real)
    requires 0.0 <= a < b
    ensures 0.0 <= a / b < 1.0
  {
    if a / b >= 1.0 {
      ScaleLe(b, 1.0, a / b);
    }
  }

  /** Multiplying both sides by a positive factor keeps `<=`. */
  lemma ScaleLe(k: real, x: real, y: real)
    requires k > 0.0
    ensures x <= y <==> k * x <= k * y
  {
    MulSign(k, y - x);
    MulSign(k, x - y);
    DistribAdd(k, x, y - x);
    DistribAdd(k, y, x - y);
  }

  /** Multiplying both sides by a positive factor keeps `<`. */
  lemma ScaleLt(k: real, x: real, y: real)
    requires k > 0.0
    ensures x < y <==> k * x < k * y
  {
    ScaleLe(k, y, x);
  }

  lemma DistribAdd(x: real, y: real, z: real)
    ensures x * (y + z) == x * y + x * z
  {
  }

  lemma ProductNonNeg(x: real, y: real)
    requires x >= 0.0 && y >= 0.0
    ensures x * y >= 0.0
  {
    if x > 0.0 { MulSign(x, y); }
  }

  lemma MulSign(x: real, y: real)
    requires x > 0.0
    ensures y >= 0.0 ==> x * y >= 0.0
    ensures y > 0.0 ==> x * y > 0.0
  {
  }

  /** `a % b` for JS integers with a positive divisor (truncating division): it
      differs from `a` by a multiple of `b` and has the sign of the dividend. */
  function IntRem(a: int, b: int): (r: int)
    requires b > 0
    ensures (a - r) % b == 0
    ensures a >= 0 ==> 0 <= r < b
    ensures a < 0 ==> -b < r <= 0
  {
    if a >= 0 then
      RemDifference(a, b);
      a % b
    else
      RemDifference(-a, b);
      NegatedIntMultiple(-a - (-a) % b, b);
      assert a - -((-a) % b) == -(-a - (-a) % b);
      -((-a) % b)
  }

  lemma RemDifference(a: int, b: int)
    requires b > 0
    ensures (a - a % b) % b == 0
  {
    assert a - a % b == b * (a / b);
    IntMultiple(b, a / b);
  }

  lemma NegatedIntMultiple(x: int, b: int)
    requires b > 0 && x % b == 0
    ensures (-x) % b == 0
  {
    assert x == b * (x / b);
    assert -x == b * -(x / b);
    IntMultiple(b, -(x / b));
  }

  lemma IntMultiple(b: int, q: int)
    requires b > 0
    ensures (b * q) % b == 0
  {
    var d, m := (b * q) / b, (b * q) % b;
    assert b * (q - d) == m;
    MulBounds(b, q - d);
  }

  lemma MulBounds(b: int, k: int)
    requires b > 0
    ensures k >= 1 ==> b * k >= b
    ensures k <= -1 ==> b * k <= -b
  {
    if k >= 1 {
      assert b * k == b + b * (k - 1);
    } else if k <= -1 {
      assert b * k == -b + b * (k + 1);
    }
  }
}
