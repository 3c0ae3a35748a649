/** What the probabilities of the risk model mean. */
module RiskScores {
  import opened Arithmetic
  import opened Counting
  import opened Rounding
  import opened Calibration

  // The logistic function, the linear score behind it, the normalisation of the training columns and the log
  // loss of src/sot_graph/calibration.py, each described by what it does rather than by how it is computed.

  /** The properties of the exponential, the logarithm and the square root that are used here. */
  ghost predicate Analytic(m: Maths) {
    && m.Valid()
    && (forall x, y :: x < y ==> m.exp(x) < m.exp(y))
    && (forall x :: m.exp(x) * m.exp(-x) == 1.0)
    && m.ln(1.0) == 0.0 && (forall x, y :: 0.0 < x <= y ==> m.ln(x) <= m.ln(y))
    && (forall x :: x >= 0.0 ==> m.sqrt(x) >= 0.0 && m.sqrt(x) * m.sqrt(x) == x)
  }

  // ---- The logistic function ---------------------------------------------------------------

  /** Both branches compute the same function. */
  lemma SigmoidIsLogistic(m: Maths, z: real)
    requires Analytic(m)
    ensures Sigmoid(m, z) == 1.0 / (1.0 + m.exp(-z))
  {
    if z < 0.0 { Inverted(m.exp(z), m.exp(-z)); }
  }

  /** The result is a probability whose odds are the exponential of the score. */
  lemma OddsOfSigmoid(m: Maths, z: real)
    requires Analytic(m)
    ensures HasOdds(Sigmoid(m, z), m.exp(z))
  {
    SigmoidIsLogistic(m, z);
    Odds(m.exp(z), m.exp(-z));
  }

  predicate HasOdds(p: real, odds: real) {
    0.0 < p < 1.0 && p == odds * (1.0 - p)
  }

  lemma Odds(e: real, f: real)
    requires e > 0.0 && f > 0.0 && e * f == 1.0
    ensures HasOdds(1.0 / (1.0 + f), e)
  {
    var p := 1.0 / (1.0 + f);
    assert p * (1.0 + f) == 1.0;
    assert p > 0.0;
    assert p * f > 0.0;
    assert 1.0 - p == p * f;
    assert e * (p * f) == p * (e * f);
  }

  /** It rises strictly with the score, and passes one half at zero. */
  lemma SigmoidRises(m: Maths, z: real, w: real)
    requires Analytic(m)
    ensures z < w <==> Sigmoid(m, z) < Sigmoid(m, w)
    ensures Sigmoid(m, z) == 0.5 <==> z == 0.0
  {
    if z < w { Rises(m, z, w); }
    if w < z { Rises(m, w, z); }
    AtZero(m);
    if z < 0.0 { Rises(m, z, 0.0); }
    if z > 0.0 { Rises(m, 0.0, z); }
  }

  lemma AtZero(m: Maths)
    requires Analytic(m)
    ensures Sigmoid(m, 0.0) == 0.5
  {
    assert -0.0 == 0.0;
    UnitRoot(m.exp(0.0));
  }

  lemma Rises(m: Maths, z: real, w: real)
    requires Analytic(m) && z < w
    ensures Sigmoid(m, z) < Sigmoid(m, w)
  {
    SigmoidIsLogistic(m, z);
    SigmoidIsLogistic(m, w);
    assert -w < -z;
    SmallerDenominator(1.0 + m.exp(-w), 1.0 + m.exp(-z));
  }

  // ---- The score of a model ------------------------------------------------------------------

  /** The intercept, and for each of the first n features its weight times its distance from the mean in
      deviations. */
  function Score(model: Model, row: Row, n: nat): real
    requires n <= |row| == |model.means| == |model.stds| == |model.weights|
    requires forall i :: 0 <= i < n ==> model.stds[i] != 0.0
  {
    if n == 0 then model.intercept
    else Score(model, row, n - 1) + model.weights[n - 1] * ((row[n - 1] - model.means[n - 1]) / model.stds[n - 1])
  }

  ghost predicate Usable(model: Model) {
    && |model.means| == |model.stds| == |model.weights|
    && (forall i :: 0 <= i < |model.stds| ==> model.stds[i] > 0.0)
    && model.lowMedium <= model.mediumHigh
  }

  /** What FitModel promises of a learned model makes it usable. */
  lemma LearnedIsUsable(m: Maths, rows: seq<Row>, y: seq<nat>, model: Model)
    requires m.Valid() && rows != [] && |rows| == |y| && forall r :: r in rows ==> |r| == FEATURES
    requires Trained(m, rows, y, model) && Floored(model) && model.lowMedium <= model.mediumHigh
    ensures Usable(model) && |model.means| == FEATURES
  {
  }

  lemma {:induction false} ScoreIsDot(model: Model, row: Row, n: nat)
    requires Usable(model) && n <= |row| == |model.means|
    ensures IndexDot(model.weights, NormRow(row, model.means, model.stds), n) + model.intercept == Score(model, row, n)
    decreases n
  {
    if n > 0 { ScoreIsDot(model, row, n - 1); }
  }

  /** A usable model gives every row the probability whose odds are the exponential of its score. */
  lemma OddsFollowScore(m: Maths, model: Model, row: Row)
    requires Analytic(m) && Usable(model) && |row| == |model.means|
    ensures PAdverse(m, model, row).Some?
    ensures HasOdds(PAdverse(m, model, row).value, m.exp(Score(model, row, |row|)))
  {
    ProbabilityOfScore(m, model, row);
    var p, s := PAdverse(m, model, row).value, Score(model, row, |row|);
    assert HasOdds(p, m.exp(s)) by { OddsOfSigmoid(m, s); }
  }

  lemma ProbabilityOfScore(m: Maths, model: Model, row: Row)
    requires m.Valid() && Usable(model) && |row| == |model.means|
    ensures PAdverse(m, model, row) == Some(Sigmoid(m, Score(model, row, |row|)))
  {
    var norm := NormRow(row, model.means, model.stds);
    assert Norm(row, model.means, model.stds) == Some(norm);
    DotsAgree(model.weights, norm);
    ScoreIsDot(model, row, |row|);
  }

  /** Probabilities and levels are ordered as the scores are. */
  lemma LevelsFollowScore(m: Maths, model: Model, a: Row, b: Row)
    requires Analytic(m) && Usable(model) && |a| == |b| == |model.means|
    ensures PAdverse(m, model, a).Some? && PAdverse(m, model, b).Some?
    ensures var p, q := PAdverse(m, model, a).value, PAdverse(m, model, b).value;
            && (Score(model, a, |a|) < Score(model, b, |b|) <==> p < q)
            && (Score(model, a, |a|) <= Score(model, b, |b|) ==> Rank(LevelOf(model, p)) <= Rank(LevelOf(model, q)))
  {
    ProbabilityOfScore(m, model, a);
    ProbabilityOfScore(m, model, b);
    var s, t := Score(model, a, |a|), Score(model, b, |b|);
    SigmoidRises(m, s, t);
    SigmoidRises(m, t, s);
    if s <= t { LevelIsMonotone(model, Sigmoid(m, s), Sigmoid(m, t)); }
  }

  /** More of a feature of positive weight makes a commit riskier, and never lowers its level. */
  lemma FeatureRaisesRisk(m: Maths, model: Model, a: Row, i: nat, more: real)
    requires Analytic(m) && Usable(model) && i < |a| == |model.means|
    requires model.weights[i] > 0.0 && a[i] < more
    ensures var b := a[i := more];
            && PAdverse(m, model, a).Some? && PAdverse(m, model, b).Some?
            && PAdverse(m, model, a).value < PAdverse(m, model, b).value
            && Rank(LevelOf(model, PAdverse(m, model, a).value)) <= Rank(LevelOf(model, PAdverse(m, model, b).value))
  {
    ScoreRises(model, a, i, more, |a|);
    LevelsFollowScore(m, model, a, a[i := more]);
  }

  lemma {:induction false} ScoreRises(model: Model, a: Row, i: nat, more: real, n: nat)
    requires Usable(model) && i < |a| == |model.means| && n <= |a| && model.weights[i] > 0.0 && a[i] < more
    ensures if n <= i then Score(model, a, n) == Score(model, a[i := more], n)
            else Score(model, a, n) < Score(model, a[i := more], n)
    decreases n
  {
    if n > 0 {
      ScoreRises(model, a, i, more, n - 1);
      if n == i + 1 { TermRises(model.weights[i], a[i] - model.means[i], more - model.means[i], model.stds[i]); }
    }
  }

  // ---- Normalisation ------------------------------------------------------------------------

  function NormRows(rows: seq<Row>, means: Row, stds: Row): seq<Row>
    requires |means| == |stds| == FEATURES && (forall r :: r in rows ==> |r| == FEATURES)
    requires forall i :: 0 <= i < FEATURES ==> stds[i] != 0.0
  {
    seq(|rows|, j requires 0 <= j < |rows| => NormRow(rows[j], means, stds))
  }

  /** The weights are learned from rows every column of which sums to zero and, unless the feature hardly
      varies, has mean square one. */
  lemma LearnsFromStandardRows(m: Maths, rows: seq<Row>, y: seq<nat>, i: nat)
    requires Analytic(m) && rows != [] && i < FEATURES && forall r :: r in rows ==> |r| == FEATURES
    ensures var fit := FitLogistic(m, rows, y);
            var given := NormRows(rows, fit.means, fit.stds);
            && (fit.weights, fit.intercept) == m.descend(given, y)
            && (forall r :: r in given ==> |r| == FEATURES)
            && Sum(Column(given, i)) == 0.0
            && (fit.stds[i] > 0.000000001 ==> Sum(Squares(Column(given, i))) == |rows| as real)
  {
    var fit := FitLogistic(m, rows, y);
    var given := NormRows(rows, fit.means, fit.stds);
    var xs := Column(rows, i);
    assert Column(given, i) == Normalised(xs, Mean(xs), Std(m, xs));
    ColumnsAreCentred(m, xs);
    if fit.stds[i] > 0.000000001 { UnitVariance(m, xs); }
  }

  function Squares(xs: seq<real>): seq<real> {
    seq(|xs|, j requires 0 <= j < |xs| => xs[j] * xs[j])
  }

  lemma UnitVariance(m: Maths, xs: seq<real>)
    requires Analytic(m) && xs != [] && Std(m, xs) > 0.000000001
    ensures Sum(Squares(Normalised(xs, Mean(xs), Std(m, xs)))) == |xs| as real
  {
    var total, n, std := Sum(Deviations(xs, Mean(xs))), |xs| as real, Std(m, xs);
    SquaresNotNegative(xs, Mean(xs));
    NotNegative(total, n);
    assert std == m.sqrt(total / n);
    assert total / n == std * std;
    PositiveSquare(std);
    ScaledSquares(xs, Mean(xs), std, total / n);
    CountOver(total, n);
  }

  lemma {:induction false} SquaresNotNegative(xs: seq<real>, mean: real)
    ensures Sum(Deviations(xs, mean)) >= 0.0
    decreases |xs|
  {
    if xs != [] {
      var init := xs[..|xs| - 1];
      SquaresNotNegative(init, mean);
      DeviationsSnoc(init, xs[|xs| - 1], mean);
      assert xs == init + [xs[|xs| - 1]];
    }
  }

  lemma DeviationsSnoc(init: seq<real>, last: real, mean: real)
    ensures Sum(Deviations(init + [last], mean)) == Sum(Deviations(init, mean)) + (last - mean) * (last - mean)
    ensures Sum(Deviations(init + [last], mean)) >= Sum(Deviations(init, mean))
  {
    var xs := init + [last];
    forall j | 0 <= j < |init| ensures Deviations(xs, mean)[j] == Deviations(init, mean)[j] { assert xs[j] == init[j]; }
    assert Deviations(xs, mean)[..|xs| - 1] == Deviations(init, mean);
    SquareNotNegative(last - mean);
  }

  lemma SquaresSnoc(init: seq<real>, last: real)
    ensures Sum(Squares(init + [last])) == Sum(Squares(init)) + last * last
  {
    var xs := init + [last];
    forall j | 0 <= j < |init| ensures Squares(xs)[j] == Squares(init)[j] { assert xs[j] == init[j]; }
    assert Squares(xs)[..|xs| - 1] == Squares(init);
  }

  lemma NormalisedSnoc(init: seq<real>, last: real, mean: real, std: real)
    requires std != 0.0
    ensures Normalised(init + [last], mean, std) == Normalised(init, mean, std) + [(last - mean) / std]
  {
  }

  lemma {:induction false} ScaledSquares(xs: seq<real>, mean: real, std: real, square: real)
    requires std > 0.0 && square > 0.0 && square == std * std
    ensures Sum(Squares(Normalised(xs, mean, std))) == Sum(Deviations(xs, mean)) / square
    decreases |xs|
  {
    if xs == [] {
      ZeroOver(square);
    } else {
      var init, last := xs[..|xs| - 1], xs[|xs| - 1];
      assert xs == init + [last];
      ScaledSquares(init, mean, std, square);
      OneMoreSquare(init, last, mean, std, square);
    }
  }

  lemma OneMoreSquare(init: seq<real>, last: real, mean: real, std: real, square: real)
    requires std > 0.0 && square > 0.0 && square == std * std
    requires Sum(Squares(Normalised(init, mean, std))) == Sum(Deviations(init, mean)) / square
    ensures Sum(Squares(Normalised(init + [last], mean, std))) == Sum(Deviations(init + [last], mean)) / square
  {
    var added := NewSquare(init, last, mean, std, square);
    var deviation := NewDeviation(init, last, mean);
    AddQuotients(Sum(Deviations(init, mean)), deviation, square);
  }

  lemma NewDeviation(init: seq<real>, last: real, mean: real) returns (deviation: real)
    ensures deviation == (last - mean) * (last - mean)
    ensures Sum(Deviations(init + [last], mean)) == Sum(Deviations(init, mean)) + deviation
  {
    DeviationsSnoc(init, last, mean);
    deviation := (last - mean) * (last - mean);
  }

  lemma NewSquare(init: seq<real>, last: real, mean: real, std: real, square: real) returns (added: real)
    requires std > 0.0 && square > 0.0 && square == std * std
    ensures added == (last - mean) * (last - mean) / square
    ensures Sum(Squares(Normalised(init + [last], mean, std))) == Sum(Squares(Normalised(init, mean, std))) + added
  {
    NormalisedSnoc(init, last, mean, std);
    SquaresSnoc(Normalised(init, mean, std), (last - mean) / std);
    var deviation := SquareOfQuotient(last - mean, std, square);
    added := deviation / square;
  }

  // ---- The log loss ---------------------------------------------------------------------------

  ghost predicate Binary(y: seq<nat>) {
    forall i :: 0 <= i < |y| ==> y[i] <= 1
  }

  /** A probability nearer the label never scores worse. */
  lemma NearerIsNoWorse(m: Maths, p: real, q: real, label_: nat)
    requires Analytic(m) && label_ <= 1 && p <= q
    ensures label_ == 1 ==> LossTerm(m, p, label_) <= LossTerm(m, q, label_)
    ensures label_ == 0 ==> LossTerm(m, q, label_) <= LossTerm(m, p, label_)
  {
    TermsByLabel(m, p);
    TermsByLabel(m, q);
  }

  lemma TermsByLabel(m: Maths, p: real)
    ensures LossTerm(m, p, 1) == m.ln(Max(0.000000000000001, p))
    ensures LossTerm(m, p, 0) == m.ln(Max(0.000000000000001, 1.0 - p))
  {
    assert LossTerm(m, p, 1) == 1.0 * m.ln(Max(0.000000000000001, p)) + 0.0 * m.ln(Max(0.000000000000001, 1.0 - p));
    assert LossTerm(m, p, 0) == 0.0 * m.ln(Max(0.000000000000001, p)) + 1.0 * m.ln(Max(0.000000000000001, 1.0 - p));
  }

  /** The loss of probabilities is not negative, and vanishes where every label is predicted for certain. */
  lemma LossIsNotNegative(m: Maths, probs: seq<real>, y: seq<nat>)
    requires Analytic(m) && |probs| == |y| && Binary(y) && forall i :: 0 <= i < |probs| ==> 0.0 <= probs[i] <= 1.0
    ensures LogLoss(m, probs, y) >= 0.0
    ensures (forall i :: 0 <= i < |y| ==> probs[i] == y[i] as real) ==> LogLoss(m, probs, y) == 0.0
  {
    SumNotPositive(m, probs, y);
    var n := (if |y| > 1 then |y| else 1) as real;
    NotNegative(-LossSum(m, probs, y), n);
    ZeroOver(n);
  }

  lemma {:induction false} SumNotPositive(m: Maths, probs: seq<real>, y: seq<nat>)
    requires Analytic(m) && |probs| == |y| && Binary(y) && forall i :: 0 <= i < |probs| ==> 0.0 <= probs[i] <= 1.0
    ensures LossSum(m, probs, y) <= 0.0
    ensures (forall i :: 0 <= i < |y| ==> probs[i] == y[i] as real) ==> LossSum(m, probs, y) == 0.0
    decreases |y|
  {
    if y != [] {
      var n := |y| - 1;
      SumNotPositive(m, probs[..n], y[..n]);
      TermsByLabel(m, probs[n]);
      assert y[n] == 0 || y[n] == 1;
    }
  }

  /** The base rate is the share of adverse commits. */
  lemma BaseRateIsShare(m: Maths, y: seq<nat>)
    requires y != [] && Binary(y)
    ensures BaseRateLoss(m, y) == LogLoss(m, seq(|y|, _ => CountIf(y, (l: nat) => l == 1) as real / |y| as real), y)
  {
    SumOfLabels(y);
    var prior := Sum(seq(|y|, i requires 0 <= i < |y| => y[i] as real)) / |y| as real;
    assert seq(|y|, i requires 0 <= i < |y| => y[i] as real) == Reals(y);
    assert seq(|y|, _ => prior) == seq(|y|, _ => CountIf(y, (l: nat) => l == 1) as real / |y| as real);
  }

  function Reals(y: seq<nat>): seq<real> {
    seq(|y|, i requires 0 <= i < |y| => y[i] as real)
  }

  lemma {:induction false} SumOfLabels(y: seq<nat>)
    requires Binary(y)
    ensures Sum(Reals(y)) == CountIf(y, (l: nat) => l == 1) as real
    decreases |y|
  {
    if y != [] {
      var init := y[..|y| - 1];
      SumOfLabels(init);
      assert Reals(y)[..|y| - 1] == Reals(init);
    }
  }

  // ---- Saving ------------------------------------------------------------------------------------

  /** Saving moves a number by at most half a millionth, to a whole number of millionths. */
  lemma RoundsNearby(x: real)
    ensures -0.0000005 <= Round6(x) - x <= 0.0000005
    ensures Round6(x) * 1000000.0 == RoundHalfEven(x * 1000000.0) as real
  {
  }

  /** Every number of a model is so moved, each in its place. */
  lemma ReloadedIsNearby(model: Model)
    ensures var r := Reloaded(model);
            && Nearby(r.weights, model.weights) && Nearby(r.means, model.means) && Nearby(r.stds, model.stds)
            && Nearby([r.intercept, r.lowMedium, r.mediumHigh], [model.intercept, model.lowMedium, model.mediumHigh])
  {
    forall x { RoundsNearby(x); }
  }

  ghost predicate Nearby(a: Row, b: Row) {
    |a| == |b| && forall i :: 0 <= i < |a| ==> -0.0000005 <= a[i] - b[i] <= 0.0000005
  }
}
