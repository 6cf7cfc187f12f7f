/** Comparing a quotient with a bound: what the similarity thresholds of the text processor need of real arithmetic. */
module Ratios {

  lemma ProductSign(a: real, b: real)
    requires b > 0.0
    ensures a > 0.0 ==> a * b > 0.0
    ensures a < 0.0 ==> a * b < 0.0
  {
  }

  lemma ProductOfDifference(a: real, b: real, m: real)
    ensures (a - b) * m == a * m - b * m
  {
  }

  lemma QuotientTimesDivisor(x: real, m: real)
    requires m > 0.0
    ensures x / m * m == x
  {
  }

  lemma {:induction false} CompareQuotient(x: real, m: real, bound: real)
    requires m > 0.0
    ensures x / m <= bound <==> x <= bound * m
    ensures x / m >= bound <==> x >= bound * m
  {
    var q := x / m;
    QuotientTimesDivisor(x, m);
    ProductOfDifference(q, bound, m);
    ProductSign(q - bound, m);
  }
}
