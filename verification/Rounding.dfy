/** Rounding to a client's resolution. */
module Rounding {
  import opened VehicleTypes

  // Halves are rounded away from zero.
  function Round(x: real): real {
    if x >= 0.0 then (x + 0.5).Floor as real else -((0.5 - x).Floor as real)
  }

  function Nearest(x: real, resolution: real): real {
    if resolution == 0.0 then x else Round(x / resolution) * resolution
  }

  // ---- What that means ----

  function Abs(x: real): real {
    if x < 0.0 then -x else x
  }

  predicate IsMultiple(y: real, k: int, resolution: real) {
    y == k as real * resolution
  }

  /** `y` is the multiple of the resolution nearest to `x`, of two that are equally near the one further
      from zero; resolution 0 changes nothing. */
  ghost predicate IsNearest(y: real, x: real, resolution: real) {
    if resolution == 0.0 then y == x
    else
      && (exists k :: IsMultiple(y, k, resolution))
      && Abs(y - x) <= Abs(resolution / 2.0)
      && (Abs(y - x) == Abs(resolution / 2.0) ==> Abs(y) > Abs(x))
  }

  /** `n` is `w` without its fraction. */
  predicate IsTruncated(n: int, w: real) {
    if w >= 0.0 then 0 <= n && n as real <= w < n as real + 1.0
    else n <= 0 && n as real - 1.0 < w <= n as real
  }

  lemma RoundIs(q: real) returns (k: int)
    ensures Round(q) == k as real
    ensures Abs(k as real - q) <= 0.5 && (Abs(k as real - q) == 0.5 ==> Abs(k as real) > Abs(q))
  {
    k := if q >= 0.0 then (q + 0.5).Floor else -((0.5 - q).Floor);
  }

  lemma AbsOfProduct(a: real, b: real)
    ensures Abs(a * b) == Abs(a) * Abs(b)
  {
  }

  lemma AbsIsPositive(x: real)
    requires x != 0.0
    ensures Abs(x) > 0.0
  {
  }

  lemma Scaled(a: real, b: real, resolution: real, x: real, y: real)
    requires resolution != 0.0 && a * resolution == x && b * resolution == y
    ensures Abs(a) <= Abs(b) <==> Abs(x) <= Abs(y)
    ensures Abs(a) == Abs(b) <==> Abs(x) == Abs(y)
  {
    hide Abs;
    AbsIsPositive(resolution);
    AbsOfProduct(a, resolution);
    AbsOfProduct(b, resolution);
    ProductsCompare(Abs(a), Abs(b), Abs(resolution), Abs(x), Abs(y));
  }

  // Being near is the same of numbers and of how often the resolution fits into them.
  lemma ScaledIs(k: real, y: real, q: real, x: real, resolution: real)
    requires resolution != 0.0 && q * resolution == x && k * resolution == y
    ensures Abs(y - x) <= Abs(resolution / 2.0) <==> Abs(k - q) <= 0.5
    ensures Abs(y - x) == Abs(resolution / 2.0) <==> Abs(k - q) == 0.5
    ensures Abs(y) > Abs(x) <==> Abs(k) > Abs(q)
  {
    var gap := k - q;
    assert gap * resolution == y - x;
    assert Abs(0.5) == 0.5 && 0.5 * resolution == resolution / 2.0;
    Scaled(gap, 0.5, resolution, y - x, resolution / 2.0);
    Scaled(k, q, resolution, y, x);
  }

  lemma NearestIs(x: real, resolution: real)
    ensures IsNearest(Nearest(x, resolution), x, resolution)
  {
    if resolution != 0.0 {
      var q, y := x / resolution, Nearest(x, resolution);
      var k := RoundIs(q);
      assert IsMultiple(y, k, resolution);
      assert q * resolution == x;
      ScaledIs(k as real, y, q, x, resolution);
    }
  }

  // `k` is the whole number nearest to `q`, of two that are equally near the one further from zero.
  predicate IsWholeOf(k: real, q: real) {
    Abs(k - q) <= 0.5 && (Abs(k - q) == 0.5 ==> Abs(k) > Abs(q))
  }

  lemma WholeOf(y: real, x: real, q: real, resolution: real) returns (k: int)
    requires IsNearest(y, x, resolution) && resolution != 0.0 && q * resolution == x
    ensures IsMultiple(y, k, resolution) && IsWholeOf(k as real, q)
  {
    k :| IsMultiple(y, k, resolution);
    hide Abs;
    ScaledIs(k as real, y, q, x, resolution);
  }

  lemma SameWhole(k: int, m: int, q: real)
    requires IsWholeOf(k as real, q) && IsWholeOf(m as real, q)
    ensures k == m
  {
  }

  lemma Quotient(x: real, resolution: real) returns (q: real)
    requires resolution != 0.0
    ensures q * resolution == x
  {
    q := x / resolution;
  }

  lemma SameMultiple(y: real, z: real, k: int, resolution: real)
    requires IsMultiple(y, k, resolution) && IsMultiple(z, k, resolution)
    ensures y == z
  {
  }

  /** Nothing else is nearest. */
  lemma NearestIsUnique(x: real, y: real, z: real, resolution: real)
    requires IsNearest(y, x, resolution) && IsNearest(z, x, resolution)
    ensures y == z
  {
    if resolution != 0.0 {
      hide IsNearest, IsWholeOf, IsMultiple;
      var q := Quotient(x, resolution);
      var k := WholeOf(y, x, q, resolution);
      var m := WholeOf(z, x, q, resolution);
      SameWhole(k, m, q);
      SameMultiple(y, z, k, resolution);
    }
  }
}
