/** `Math.round((part / whole) * 100)` guarded by `whole > 0`, the percentage
    formula shared by the statistics and the progress header. */
module Numbers {

  /** The percentage rounded half up, computed exactly on integers; 0 when
      `whole` is not positive. */
  function RoundedPercent(part: int, whole: int): (r: int)
    ensures whole <= 0 ==> r == 0
    // r is the integer nearest to 100 * part / whole, halves rounding up
    ensures whole > 0 ==> 2 * whole * r - whole <= 200 * part < 2 * whole * r + whole
    ensures whole > 0 && 0 <= part <= whole ==> 0 <= r <= 100
  {
    if whole > 0 then
      var r := (200 * part + whole) / (2 * whole);
      NearestBounds(part, whole);
      r
    else 0
  }

  /** The quotient taken by RoundedPercent is within half a step of the exact
      percentage, and a part between nothing and the whole stays in 0..100. */
  lemma NearestBounds(part: int, whole: int)
    requires whole > 0
    ensures var r := (200 * part + whole) / (2 * whole);
      && 2 * whole * r - whole <= 200 * part < 2 * whole * r + whole
      && (0 <= part <= whole ==> 0 <= r <= 100)
  {
    var r := (200 * part + whole) / (2 * whole);
    DivBounds(200 * part + whole, 2 * whole);
    if 0 <= part <= whole {
      ScaleBound(whole, 100, r);
      ScaleBound(whole, r, 0);
    }
  }

  /** A whole out of itself is 100 percent and nothing is 0 percent. */
  lemma RoundedPercentExtremes(whole: int)
    requires whole > 0
    ensures RoundedPercent(whole, whole) == 100
    ensures RoundedPercent(0, whole) == 0
  {
    var full, none := RoundedPercent(whole, whole), RoundedPercent(0, whole);
    ScaleBound(whole, full, 100);
    ScaleBound(whole, 100, full);
    ScaleBound(whole, none, 0);
    ScaleBound(whole, 0, none);
  }

  lemma DivBounds(a: int, b: int)
    requires b > 0
    ensures b * (a / b) <= a < b * (a / b) + b
  {
  }

  /** Multiplying by a positive `w` keeps a strict gap of at least `2 * w`. */
  lemma ScaleBound(w: int, x: int, y: int)
    requires w > 0
    ensures x < y ==> 2 * w * x + 2 * w <= 2 * w * y
  {
    if x < y {
      var d := y - x - 1;
      MulNonNegative(2 * w, d);
      assert 2 * w * y == 2 * w * x + 2 * w + 2 * w * d;
    }
  }

  lemma MulNonNegative(a: int, b: int)
    requires a >= 0 && b >= 0
    ensures a * b >= 0
  {
  }
}
