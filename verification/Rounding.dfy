/** Python's round on exact reals: to the nearest multiple, ties to the even one. Percentages are published
    to three decimals, ratios to four, and the numbers of a saved model to six; each scales its argument,
    rounds it to an integer, and scales back. A decision that is taken on the rounded number is traced back
    to the exact one by way of these lemmas. */
module Rounding {

  function RoundHalfEven(x: real): int {
    var down := x.Floor;
    var rest := x - down as real;
    if rest < 0.5 then down else if rest > 0.5 then down + 1 else if down % 2 == 0 then down else down + 1
  }

  lemma RoundIsMonotone(x: real, y: real)
    requires x <= y
    ensures RoundHalfEven(x) <= RoundHalfEven(y)
  {
    assert x.Floor <= y.Floor;
  }

  lemma RoundBelowIff(x: real, n: int)
    requires n % 2 == 0
    ensures RoundHalfEven(x) < n <==> x < n as real - 0.5
  {
  }

  lemma RoundIsZeroIff(x: real)
    ensures RoundHalfEven(x) == 0 <==> -0.5 <= x <= 0.5
  {
  }
}
