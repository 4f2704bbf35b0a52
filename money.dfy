/** Money is an exact decimal (`real`); Python's `round(x, places)` is
    modelled on that exact value. */
module Money {
  import opened Text

  function Scale(places: nat): (s: real)
    ensures s >= 1.0
  {
    Pow10(places) as real
  }

  /** The whole number of 10^-places units nearest to `x`, ties to the even one. */
  function RoundedUnits(x: real, places: nat): (n: int)
    ensures -0.5 <= n as real - x * Scale(places) <= 0.5
    ensures x >= 0.0 ==> n >= 0
    ensures n as real - x * Scale(places) == 0.5 || n as real - x * Scale(places) == -0.5 ==> n % 2 == 0
  {
    var q := x * Scale(places);
    var f := q.Floor;
    var frac := q - f as real;
    if frac < 0.5 then f
    else if frac > 0.5 then f + 1
    else if f % 2 == 0 then f
    else f + 1
  }

  /** `round(x, places)`: the nearest multiple of 10^-places, ties to the even
      multiple; never further than half a unit from `x`, never negative for a
      non-negative `x`. */
  function Round(x: real, places: nat): (r: real)
    ensures r * Scale(places) == RoundedUnits(x, places) as real
    ensures -0.5 <= (r - x) * Scale(places) <= 0.5
    ensures x >= 0.0 ==> r >= 0.0
  {
    RoundedUnits(x, places) as real / Scale(places)
  }

  /** An amount already written with at most `places` decimals is left as it is. */
  lemma RoundExact(x: real, places: nat, units: int)
    requires x * Scale(places) == units as real
    ensures Round(x, places) == x
  {
    var s := Scale(places);
    var q := x * s;
    assert q.Floor == units;
    assert q - q.Floor as real == 0.0;
    assert RoundedUnits(x, places) == units;
    assert Round(x, places) * s == x * s;
  }
}
