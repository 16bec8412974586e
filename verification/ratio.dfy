/** Non-negative fractions compared exactly by cross-multiplication.
    A zero denominator stands for the value 0, which is how an empty
    union is scored. */
module Ratio {

  /** The fraction num/den, or 0 when den is 0. */
  datatype Score = Score(num: nat, den: nat)

  /** The denominator actually divided by: a zero denominator reads as 1. */
  function Den(s: Score): (d: nat)
    ensures d > 0
  {
    if s.den == 0 then 1 else s.den
  }

  /** The rational number a score denotes. */
  ghost function Value(s: Score): real
  {
    s.num as real / Den(s) as real
  }

  /** x is at least y, decided on naturals only. */
  predicate AtLeast(x: Score, y: Score)
  {
    x.num * Den(y) >= y.num * Den(x)
  }

  /** For positive denominators, comparing quotients is comparing cross products. */
  lemma CrossMultiply(a: real, b: real, c: real, d: real)
    requires b > 0.0 && d > 0.0
    ensures a / b >= c / d <==> a * d >= c * b
  {
    var p, q := a / b, c / d;
    assert a == p * b;
    assert c == q * d;
    assert a * d - c * b == (p - q) * (b * d);
    if p >= q {
      assert (p - q) * (b * d) >= 0.0;
    } else {
      assert (q - p) * (b * d) > 0.0;
    }
  }

  /** The natural-number comparison agrees with the comparison of the
      rational values. */
  lemma AtLeastIsValueOrder(x: Score, y: Score)
    ensures AtLeast(x, y) <==> Value(x) >= Value(y)
  {
    var a, b, c, d := x.num, Den(x), y.num, Den(y);
    CrossMultiply(a as real, b as real, c as real, d as real);
    assert (a * d) as real == a as real * d as real;
    assert (c * b) as real == c as real * b as real;
  }

  /** AtLeast is a total preorder: every two scores are comparable, and it
      is transitive. */
  lemma AtLeastTotalPreorder()
    ensures forall x: Score, y: Score :: AtLeast(x, y) || AtLeast(y, x)
    ensures forall x: Score, y: Score, z: Score :: AtLeast(x, y) && AtLeast(y, z) ==> AtLeast(x, z)
  {
    forall x: Score, y: Score
      ensures AtLeast(x, y) || AtLeast(y, x)
    {
      AtLeastIsValueOrder(x, y);
      AtLeastIsValueOrder(y, x);
    }
    forall x: Score, y: Score, z: Score | AtLeast(x, y) && AtLeast(y, z)
      ensures AtLeast(x, z)
    {
      AtLeastIsValueOrder(x, y);
      AtLeastIsValueOrder(y, z);
      AtLeastIsValueOrder(x, z);
    }
  }
}
