/** Products and quotients of reals, each fact by itself: the solver settles one of them at once, and few of
    them together. Scores, percentages, cutoffs and losses are compared in integers, or against each other,
    by way of these. Every lemma is about its parameters only, so that nothing else is in sight when it is
    proved. */
module Arithmetic {

  // ---- Sums and means ----------------------------------------------------------------------------

  lemma AddQuotients(a: real, b: real, c: real)
    requires c != 0.0
    ensures a / c + b / c == (a + b) / c
  {
  }

  lemma CountTimes(n: nat, x: real)
    ensures (n + 1) as real * x == n as real * x + x
  {
    assert (n + 1) as real == n as real + 1.0;
  }

  lemma QuotientTimes(sum: real, n: real)
    requires n != 0.0
    ensures n * (sum / n) == sum
  {
  }

  lemma TimesQuotient(a: real, b: real)
    requires b != 0.0
    ensures a / b * b == a && (a == 0.0 ==> a / b == 0.0)
  {
  }

  lemma ZeroTimes(n: real)
    ensures n * 0.0 == 0.0
  {
  }

  lemma ZeroOver(n: real)
    requires n != 0.0
    ensures 0.0 / n == 0.0
  {
  }

  lemma Cancel(n: real, c: real)
    requires n != 0.0
    ensures n * c / n == c
  {
  }

  lemma SmallModulo(i: nat, k: nat)
    requires i < k
    ensures i % k == i
  {
  }

  // ---- Odds and squares --------------------------------------------------------------------------

  lemma Inverted(e: real, f: real)
    requires e > 0.0 && f > 0.0 && e * f == 1.0
    ensures e / (1.0 + e) == 1.0 / (1.0 + f)
  {
    assert e * (1.0 + f) == e + 1.0;
    SameQuotient(e, 1.0 + e, 1.0, 1.0 + f);
  }

  lemma SameQuotient(a: real, b: real, c: real, d: real)
    requires b != 0.0 && d != 0.0 && a * d == c * b
    ensures a / b == c / d
  {
    assert a / b * b * d == a * d && c / d * d * b == c * b;
    SameFactor(a / b, c / d, b * d);
  }

  lemma SameFactor(x: real, y: real, f: real)
    requires f != 0.0 && x * f == y * f
    ensures x == y
  {
    assert (x - y) * f == 0.0;
  }

  lemma UnitRoot(e: real)
    requires e > 0.0 && e * e == 1.0
    ensures e == 1.0
  {
    assert (e - 1.0) * (e + 1.0) == 0.0;
  }

  lemma SmallerDenominator(a: real, b: real)
    requires 0.0 < a < b
    ensures 1.0 / b < 1.0 / a
  {
    var x, y := 1.0 / b, 1.0 / a;
    assert x * b == 1.0 && y * a == 1.0;
    assert x > 0.0;
    assert x * a < x * b;
    assert (y - x) * a > 0.0;
  }

  lemma TermRises(w: real, x: real, y: real, s: real)
    requires w > 0.0 && x < y && s > 0.0
    ensures w * (x / s) < w * (y / s)
  {
    var p, q := x / s, y / s;
    assert p * s == x && q * s == y;
    assert (q - p) * s > 0.0;
    assert q > p;
  }

  lemma PositiveSquare(s: real)
    requires s > 0.0
    ensures s * s > 0.0
  {
  }

  lemma NotNegative(a: real, n: real)
    requires a >= 0.0 && n > 0.0
    ensures a / n >= 0.0
  {
  }

  lemma CountOver(total: real, n: real)
    requires n > 0.0 && total / n != 0.0
    ensures total / (total / n) == n
  {
    var square := total / n;
    assert square * n == total;
    TimesAndOver(n, square);
  }

  lemma SquareNotNegative(a: real)
    ensures a * a >= 0.0
  {
  }

  /** (a / s) squared is the square of a over that of s. */
  lemma SquareOfQuotient(a: real, s: real, square: real) returns (aa: real)
    requires s > 0.0 && square > 0.0 && square == s * s
    ensures aa == a * a && a / s * (a / s) == aa / square
  {
    aa := a * a;
    var q := a / s;
    var qq := q * q;
    assert q * s == a;
    assert aa == (q * s) * (q * s);
    assert (q * s) * (q * s) == qq * square;
    TimesAndOver(qq, square);
  }

  lemma TimesAndOver(x: real, y: real)
    requires y != 0.0
    ensures x * y / y == x
  {
  }

  // ---- Ratios of counts --------------------------------------------------------------------------

  lemma F1OfNothing(p: nat, e: nat)
    requires p > 0 && e > 0
    ensures 0.0 / p as real == 0.0 && 0.0 / e as real == 0.0 && 2.0 * (0.0 * 1.0) / (0.0 + 1.0) == 0.0
  {
  }

  lemma TenThousandths(n: int)
    ensures n as real / 10000.0 == 1.0 <==> n == 10000
  {
  }

  lemma Harmonic(tp: real, p: real, e: real)
    requires tp > 0.0 && p > 0.0 && e > 0.0
    ensures tp / p + tp / e > 0.0
    ensures 2.0 * (tp / p * (tp / e)) / (tp / p + tp / e) * (p + e) == 2.0 * tp
  {
    var a, b := tp / p, tp / e;
    assert a * p == tp && b * e == tp;
    HarmonicOf(tp, p, e, a, b);
  }

  lemma HarmonicOf(tp: real, p: real, e: real, a: real, b: real)
    requires tp > 0.0 && p > 0.0 && e > 0.0 && a * p == tp && b * e == tp
    ensures a > 0.0 && b > 0.0
    ensures 2.0 * (a * b) / (a + b) * (p + e) == 2.0 * tp
  {
    assert a > 0.0 && b > 0.0;
    assert (a * b) * (p + e) == (a * p) * b + (b * e) * a;
    assert (a * p) * b + (b * e) * a == tp * (a + b);
    ScaledQuotient(2.0 * (a * b), a + b, p + e, 2.0 * tp);
  }

  lemma ScaledQuotient(x: real, y: real, z: real, w: real)
    requires y != 0.0 && x * z == w * y
    ensures x / y * z == w
  {
    assert x / y * z == x * z / y;
    assert w * y / y == w;
  }

  lemma ShareAtLeast(f1: real, tp: nat, size: nat)
    requires size > 0 && f1 * size as real == 2.0 * tp as real
    ensures f1 * 10000.0 >= 9999.5 <==> 20000 * (size - 2 * tp) <= size
  {
    ScaleAtLeast(f1, size as real, 2.0 * tp as real);
    InWholeNumbers(tp, size);
  }

  lemma InWholeNumbers(tp: nat, size: nat)
    ensures 10000.0 * (2.0 * tp as real) >= 9999.5 * size as real <==> 20000 * (size - 2 * tp) <= size
  {
    assert 10000.0 * (2.0 * tp as real) >= 9999.5 * size as real <==> 40000.0 * tp as real >= 19999.0 * size as real;
    assert 40000.0 * tp as real == (40000 * tp) as real && 19999.0 * size as real == (19999 * size) as real;
  }

  lemma ScaleAtLeast(f: real, s: real, share: real)
    requires s > 0.0 && f * s == share
    ensures f * 10000.0 >= 9999.5 <==> 10000.0 * share >= 9999.5 * s
  {
    var gap := f - 0.99995;
    assert gap * s == share - 0.99995 * s;
    assert gap >= 0.0 <==> gap * s >= 0.0;
  }

  lemma Ratio(part: nat, whole: nat)
    requires part <= whole && whole > 0
    ensures 0.0 <= part as real / whole as real <= 1.0 && (part as real / whole as real == 1.0 <==> part == whole)
  {
    Quotient(part as real, whole as real);
  }

  lemma Quotient(a: real, b: real)
    requires 0.0 <= a <= b && b > 0.0
    ensures 0.0 <= a / b <= 1.0 && (a / b == 1.0 <==> a == b)
  {
    assert a / b * b == a;
  }

  lemma TwiceBelowSum(m: real, p: real, r: real)
    requires 0.0 <= m <= p && m <= r && p + r > 0.0
    ensures 0.0 <= 2.0 * m / (p + r) <= 1.0 && (2.0 * m / (p + r) == 1.0 <==> m == p && m == r)
  {
    Quotient(m + m, p + r);
  }

  lemma Product(p: real, r: real) returns (m: real)
    requires 0.0 <= p <= 1.0 && 0.0 <= r <= 1.0
    ensures m == p * r && 0.0 <= m <= p && m <= r
    ensures (m == p <==> p == 0.0 || r == 1.0) && (m == r <==> r == 0.0 || p == 1.0)
  {
    m := p * r;
    var a := SignOfProduct(p, 1.0 - r);
    var b := SignOfProduct(r, 1.0 - p);
    var c := SignOfProduct(p, r);
    assert a == p - m && b == r - m && c == m;
  }

  lemma SignOfProduct(x: real, y: real) returns (m: real)
    requires x >= 0.0 && y >= 0.0
    ensures m == x * y && m >= 0.0 && (m == 0.0 <==> x == 0.0 || y == 0.0)
  {
    m := x * y;
  }

  // ---- Percentages and shares -------------------------------------------------------------------------------

  lemma RatioBelow(ratio: real, part: real, whole: real)
    requires whole > 0.0 && ratio * whole == part
    ensures ratio * 200000.0 < 3999.0 <==> 200000.0 * part < 3999.0 * whole
  {
    ScaleLess(ratio * 200000.0, 3999.0, whole);
    Regroup(ratio, 200000.0, whole);
  }

  lemma IntegersCompare(part: nat, whole: nat)
    ensures 200000.0 * part as real < 3999.0 * whole as real <==> 200000 * part < 3999 * whole
  {
    assert (200000 * part) as real == 200000.0 * part as real;
    assert (3999 * whole) as real == 3999.0 * whole as real;
  }

  lemma ScaleLess(a: real, b: real, w: real)
    requires w > 0.0
    ensures a < b <==> a * w < b * w
  {
  }

  lemma Regroup(a: real, k: real, w: real)
    ensures a * k * w == k * (a * w)
  {
  }

  lemma OneMoreShare(before: nat, more: nat, n: nat, found: nat, total: nat)
    requires before * n <= found * total && more * n <= total
    ensures (before + more) * n <= (found + 1) * total
    ensures more == 0 ==> (before + more) * n <= found * total
  {
    assert (before + more) * n == before * n + more * n;
    assert (found + 1) * total == found * total + total;
  }
}
