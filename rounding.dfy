/** Python's `round(x, places)`: the nearest multiple of 10^-places, ties to the even
    neighbour, computed here on exact reals. */
module Rounding {
  import opened Digits

  function Scale(places: nat): (s: real)
    ensures s >= 1.0
  {
    Pow10(places) as real
  }

  /** The integer nearest to `y`, ties to even. */
  function NearestEven(y: real): int
  {
    var f := y.Floor;
    var frac := y - f as real;
    if frac < 0.5 then f
    else if frac > 0.5 then f + 1
    else if f % 2 == 0 then f
    else f + 1
  }

  function Round(x: real, places: nat): real
  {
    RoundTo(x, Scale(places))
  }

  /** `x` rounded to the nearest multiple of `1 / s`, ties to even. */
  function RoundTo(x: real, s: real): real
    requires s >= 1.0
  {
    NearestEven(x * s) as real / s
  }

  lemma NearestEvenClose(y: real)
    ensures -0.5 <= NearestEven(y) as real - y <= 0.5
  {
  }

  lemma {:induction false} NearestEvenMonotone(y1: real, y2: real)
    requires y1 <= y2
    ensures NearestEven(y1) <= NearestEven(y2)
  {
    assert y1.Floor <= y2.Floor;
  }

  lemma RoundToClose(x: real, s: real)
    requires s >= 1.0
    ensures -0.5 / s <= RoundTo(x, s) - x <= 0.5 / s
  {
    var n := NearestEven(x * s) as real;
    NearestEvenClose(x * s);
    assert RoundTo(x, s) == n / s;
    assert (n / s - x) * s == n - x * s;
    assert RoundTo(x, s) - x == (n - x * s) / s;
    DivideMonotone(-0.5, n - x * s, s);
    DivideMonotone(n - x * s, 0.5, s);
  }

  lemma DivideMonotone(a: real, b: real, s: real)
    requires a <= b && s >= 1.0
    ensures a / s <= b / s
  {
  }

  /** The rounded value lies within half a unit of the last kept place. */
  lemma RoundClose(x: real, places: nat)
    ensures -0.5 / Scale(places) <= Round(x, places) - x <= 0.5 / Scale(places)
  {
    RoundToClose(x, Scale(places));
  }

  lemma RoundToExact(x: real, k: int, s: real)
    requires s >= 1.0 && x * s == k as real
    ensures RoundTo(x, s) == x
  {
    assert NearestEven(k as real) == k;
    assert RoundTo(x, s) == k as real / s;
  }

  /** A value already written with `places` decimals is left as it is. */
  lemma RoundExact(x: real, k: int, places: nat)
    requires x * Scale(places) == k as real
    ensures Round(x, places) == x
  {
    RoundToExact(x, k, Scale(places));
  }

  lemma RoundToMonotone(x1: real, x2: real, s: real)
    requires x1 <= x2 && s >= 1.0
    ensures RoundTo(x1, s) <= RoundTo(x2, s)
  {
    assert x1 * s <= x2 * s;
    NearestEvenMonotone(x1 * s, x2 * s);
    DivideMonotone(NearestEven(x1 * s) as real, NearestEven(x2 * s) as real, s);
  }

  /** Rounding keeps order, so it keeps sign and keeps any bound that is itself a
      multiple of 10^-places. */
  lemma RoundMonotone(x1: real, x2: real, places: nat)
    requires x1 <= x2
    ensures Round(x1, places) <= Round(x2, places)
  {
    RoundToMonotone(x1, x2, Scale(places));
  }

  lemma RoundSign(x: real, places: nat)
    ensures x >= 0.0 ==> Round(x, places) >= 0.0
    ensures x <= 0.0 ==> Round(x, places) <= 0.0
  {
    RoundExact(0.0, 0, places);
    if x >= 0.0 {
      RoundMonotone(0.0, x, places);
    } else {
      RoundMonotone(x, 0.0, places);
    }
  }
}
