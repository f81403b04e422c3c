/** Python's `round(x, d)` on exact numbers: nearest multiple of the unit, ties to the even multiple. */
module Rounding {

  function Nearest(y: real): int {
    var low := y.Floor;
    var rest := y - low as real;
    if rest < 0.5 || (rest == 0.5 && low % 2 == 0) then low else low + 1
  }

  /** `scale` is 10^d. */
  function Round(x: real, scale: int): real
    requires scale > 0
  {
    Nearest(x * scale as real) as real / scale as real
  }

  ghost predicate OnGrid(x: real, scale: int) {
    x * scale as real == (x * scale as real).Floor as real
  }

  lemma NearestMonotone(x: real, y: real)
    requires x <= y
    ensures Nearest(x) <= Nearest(y)
  {
  }

  lemma NearestIsClose(y: real)
    ensures -0.5 <= Nearest(y) as real - y <= 0.5
  {
  }

  lemma ScaledRound(x: real, scale: int)
    requires scale > 0
    ensures Round(x, scale) * scale as real == Nearest(x * scale as real) as real
  {
  }

  lemma ScaleUp(x: real, y: real, d: real)
    requires x <= y && d >= 0.0
    ensures x * d <= y * d
  {
    assert (y - x) * d >= 0.0;
  }

  lemma RoundMonotone(x: real, y: real, scale: int)
    requires scale > 0 && x <= y
    ensures Round(x, scale) <= Round(y, scale)
  {
    ScaleUp(x, y, scale as real);
    var a, b := Nearest(x * scale as real), Nearest(y * scale as real);
    NearestMonotone(x * scale as real, y * scale as real);
    ScaledRound(x, scale);
    ScaledRound(y, scale);
    assert a as real <= b as real;
    Cancel(Round(x, scale), Round(y, scale), scale as real);
  }

  lemma RoundIsClose(x: real, scale: int)
    requires scale > 0
    ensures -0.5 <= (Round(x, scale) - x) * scale as real <= 0.5
  {
    ScaledRound(x, scale);
    NearestIsClose(x * scale as real);
    assert (Round(x, scale) - x) * scale as real == Round(x, scale) * scale as real - x * scale as real;
  }

  lemma RoundExact(x: real, scale: int)
    requires scale > 0 && OnGrid(x, scale)
    ensures Round(x, scale) == x
  {
    ScaledRound(x, scale);
    Cancel(Round(x, scale), x, scale as real);
    Cancel(x, Round(x, scale), scale as real);
  }

  /** a / b <= c / d by cross-multiplication. */
  lemma CrossDivide(a: real, b: real, c: real, d: real)
    requires b > 0.0 && d > 0.0 && a * d <= c * b
    ensures a / b <= c / d
  {
    var x, y := a / b, c / d;
    assert a * d == x * (b * d) by {
      assert x * b == a;
    }
    assert c * b == y * (b * d) by {
      assert y * d == c;
    }
    Positive(b, d);
    Cancel(x, y, b * d);
  }

  lemma Positive(b: real, d: real)
    requires b > 0.0 && d > 0.0
    ensures b * d > 0.0
  {
  }

  lemma Cancel(x: real, y: real, k: real)
    requires k > 0.0 && x * k <= y * k
    ensures x <= y
  {
    assert (y - x) * k >= 0.0;
  }

  lemma Undivided(w: real, d: real)
    requires d > 0.0
    ensures (w / d) * d == w
  {
  }

  lemma ScaleUpStrictly(x: real, y: real, d: real)
    requires x < y && d > 0.0
    ensures x * d < y * d
  {
    var gap := y - x;
    assert gap * d > 0.0;
    assert y * d == x * d + gap * d;
  }

  /** A quotient against a limit, without dividing. */
  lemma QuotientAtLeast(part: real, whole: real, limit: real)
    requires whole > 0.0
    ensures part / whole >= limit <==> part >= limit * whole
  {
    var ratio := part / whole;
    assert ratio * whole == part;
    if ratio < limit {
      ScaleUpStrictly(ratio, limit, whole);
    } else {
      ScaleUp(limit, ratio, whole);
    }
  }

  /** Halfway between two whole numbers the even one is taken. */
  lemma TiesGoToEven(y: real)
    requires y - y.Floor as real == 0.5
    ensures Nearest(y) % 2 == 0
  {
  }
}
