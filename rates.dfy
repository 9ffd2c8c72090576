/**
 * The percentage rates shown by the app and the widgets, in exact integer
 * arithmetic. The app rounds (`Math.round(g / t * 100)`, halves upwards);
 * the Swift widgets truncate (`Int(Double(g) / Double(t) * 100)`).
 */
module Rates {
  import opened Arith

  /** Math.round(100 * g / t), and 0 when there is nothing to divide by: the nearest
      integer to 100g/t, with exact halves rounded up. */
  function RoundPercent(g: nat, t: nat): (r: int)
    ensures t > 0 ==> 2 * t * r <= 200 * g + t < 2 * t * (r + 1)
    ensures t == 0 ==> r == 0
  {
    if t > 0 then (200 * g + t) / (2 * t) else 0
  }

  /** Int(100 * g / t) for non-negative operands, and 0 when there is nothing to divide by:
      the largest integer not above 100g/t. */
  function TruncPercent(g: nat, t: nat): (r: int)
    ensures t > 0 ==> t * r <= 100 * g < t * (r + 1)
    ensures t == 0 ==> r == 0
  {
    if t > 0 then (100 * g) / t else 0
  }

  /** Either rate of a part of a whole lies in [0, 100]; all-green is exactly 100. */
  lemma RatesWithinPercentRange(g: nat, t: nat)
    requires g <= t
    ensures 0 <= RoundPercent(g, t) <= 100
    ensures 0 <= TruncPercent(g, t) <= 100
    ensures t > 0 && g == t ==> RoundPercent(g, t) == 100 && TruncPercent(g, t) == 100
  {
    if t > 0 {
      var r := RoundPercent(g, t);
      var q := TruncPercent(g, t);
      ScaleMonotone(2 * t, r, 101);
      ScaleMonotone(2 * t, 0, r + 1);
      ScaleMonotone(t, q, 101);
      ScaleMonotone(t, 0, q + 1);
      if g == t {
        RoundUnique(g, t, 100);
        TruncUnique(g, t, 100);
      }
    }
  }

  /** The rounded rate is the truncated one or one more: the app and the widgets differ by at most 1. */
  lemma RoundIsTruncOrOneMore(g: nat, t: nat)
    ensures TruncPercent(g, t) <= RoundPercent(g, t) <= TruncPercent(g, t) + 1
  {
    if t > 0 {
      var r := RoundPercent(g, t);
      var q := TruncPercent(g, t);
      ScaleMonotone(2 * t, q, r + 1);
      ScaleMonotone(2 * t, r, q + 2);
    }
  }

  lemma RoundUnique(g: nat, t: nat, k: int)
    requires t > 0 && 2 * t * k <= 200 * g + t < 2 * t * (k + 1)
    ensures RoundPercent(g, t) == k
  {
    var r := RoundPercent(g, t);
    ScaleMonotone(2 * t, k, r + 1);
    ScaleMonotone(2 * t, r, k + 1);
  }

  lemma TruncUnique(g: nat, t: nat, k: int)
    requires t > 0 && t * k <= 100 * g < t * (k + 1)
    ensures TruncPercent(g, t) == k
  {
    var r := TruncPercent(g, t);
    ScaleMonotone(t, k, r + 1);
    ScaleMonotone(t, r, k + 1);
  }

  /** Two of three logged days green: 66.67 rounds to 67 in the app and truncates to 66 in a widget. */
  lemma TwoOfThree()
    ensures RoundPercent(2, 3) == 67
    ensures TruncPercent(2, 3) == 66
  {
  }
}
