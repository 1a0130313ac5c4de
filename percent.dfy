/** Exact percentages: the idealised value of `part / whole * 100` the views draw. */
module Percentages {
  /** The share `part` is of `whole`, in percent. */
  function Percent(part: nat, whole: nat): (r: real)
    requires 0 < whole && part <= whole
    ensures 0.0 <= r <= 100.0
    ensures r == 0.0 <==> part == 0
    ensures r == 100.0 <==> part == whole
  {
    var q := part as real / whole as real;
    assert q * whole as real == part as real;
    assert q <= 1.0 by {
      if q > 1.0 { assert q * whole as real > 1.0 * whole as real; }
    }
    assert q == 1.0 ==> part == whole;
    q * 100.0
  }

  /** A larger part is a larger share. */
  lemma PercentMonotone(a: nat, b: nat, whole: nat)
    requires 0 < whole && a <= b <= whole
    ensures Percent(a, whole) <= Percent(b, whole)
  {
    var qa, qb := a as real / whole as real, b as real / whole as real;
    assert qa * whole as real == a as real;
    assert qb * whole as real == b as real;
  }
}
