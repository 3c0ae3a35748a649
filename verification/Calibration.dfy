/** Risk calibration (src/sot_graph/calibration.py) over exact reals. */
module Calibration {
  import opened Arithmetic
  import opened Counting
  import opened Rounding

  // The exponential, the logarithm, the square root and the gradient descent are any functions with the
  // properties stated in Valid.

  datatype Option<T> = None | Some(value: T)

  type Row = seq<real>

  /** How many features a commit has. */
  const FEATURES: nat := 6

  datatype Maths = Maths(exp: real -> real, ln: real -> real, sqrt: real -> real,
                         descend: (seq<Row>, seq<nat>) -> (Row, real))
  {
    ghost predicate Valid() {
      && (forall z :: exp(z) > 0.0)
      && sqrt(0.0) == 0.0
      && forall rows, y :: |descend(rows, y).0| == FEATURES
    }
  }

  function Max(a: real, b: real): real {
    if b > a then b else a
  }

  function Sum(xs: seq<real>): real {
    if xs == [] then 0.0 else Sum(xs[..|xs| - 1]) + xs[|xs| - 1]
  }

  // ---- Normalisation ---------------------------------------------------------------------

  function Column(rows: seq<Row>, i: nat): seq<real>
    requires i < FEATURES && forall r :: r in rows ==> |r| == FEATURES
  {
    seq(|rows|, j requires 0 <= j < |rows| => rows[j][i])
  }

  function Mean(xs: seq<real>): real
    requires xs != []
  {
    Sum(xs) / |xs| as real
  }

  function Deviations(xs: seq<real>, mean: real): seq<real> {
    seq(|xs|, j requires 0 <= j < |xs| => (xs[j] - mean) * (xs[j] - mean))
  }

  /** The standard deviation, floored so that a constant feature can be divided by it. */
  function Std(m: Maths, xs: seq<real>): real
    requires xs != []
  {
    Max(0.000000001, m.sqrt(Sum(Deviations(xs, Mean(xs))) / |xs| as real))
  }

  function Normalised(xs: seq<real>, mean: real, std: real): seq<real>
    requires std != 0.0
  {
    seq(|xs|, j requires 0 <= j < |xs| => (xs[j] - mean) / std)
  }

  /** How far the entries lie above the mean in total. */
  function Excess(xs: seq<real>, mean: real): real {
    if xs == [] then 0.0 else Excess(xs[..|xs| - 1], mean) + (xs[|xs| - 1] - mean)
  }

  lemma {:induction false} ExcessIsDifference(xs: seq<real>, mean: real)
    ensures Excess(xs, mean) == Sum(xs) - |xs| as real * mean
    decreases |xs|
  {
    if xs == [] {
      assert 0 as real * mean == 0.0;
    } else {
      ExcessIsDifference(xs[..|xs| - 1], mean);
      CountTimes(|xs| - 1, mean);
    }
  }

  lemma {:induction false} NormalisedSum(xs: seq<real>, mean: real, std: real)
    requires std != 0.0
    ensures Sum(Normalised(xs, mean, std)) == Excess(xs, mean) / std
    decreases |xs|
  {
    if xs == [] {
      ZeroOver(std);
    } else {
      var init, last := xs[..|xs| - 1], xs[|xs| - 1];
      NormalisedSum(init, mean, std);
      assert Normalised(xs, mean, std)[..|xs| - 1] == Normalised(init, mean, std);
      AddQuotients(Excess(init, mean), last - mean, std);
    }
  }

  /** Every normalised training column sums to zero. */
  lemma ColumnsAreCentred(m: Maths, xs: seq<real>)
    requires xs != []
    ensures Sum(Normalised(xs, Mean(xs), Std(m, xs))) == 0.0
  {
    MeanLeavesNoExcess(xs);
    CentredBy(xs, Mean(xs), Std(m, xs));
  }

  lemma CentredBy(xs: seq<real>, mean: real, std: real)
    requires std != 0.0 && Excess(xs, mean) == 0.0
    ensures Sum(Normalised(xs, mean, std)) == 0.0
  {
    NormalisedSum(xs, mean, std);
    ZeroOver(std);
  }

  lemma MeanLeavesNoExcess(xs: seq<real>)
    requires xs != []
    ensures Excess(xs, Mean(xs)) == 0.0
  {
    MeanTimesCount(xs);
    ExcessIsDifference(xs, Mean(xs));
  }

  lemma MeanTimesCount(xs: seq<real>)
    requires xs != []
    ensures |xs| as real * Mean(xs) == Sum(xs)
  {
    QuotientTimes(Sum(xs), |xs| as real);
  }

  ghost predicate Constant(xs: seq<real>, c: real) {
    forall i :: 0 <= i < |xs| ==> xs[i] == c
  }

  lemma {:induction false} ConstantSum(xs: seq<real>, c: real)
    requires Constant(xs, c)
    ensures Sum(xs) == |xs| as real * c
    decreases |xs|
  {
    if xs == [] {
      assert 0 as real * c == 0.0;
    } else {
      ConstantSum(xs[..|xs| - 1], c);
      CountTimes(|xs| - 1, c);
    }
  }

  /** A feature that never varies has exactly the floor for its deviation. */
  lemma ConstantFeatureHasFloorStd(m: Maths, xs: seq<real>, c: real)
    requires m.Valid() && xs != [] && Constant(xs, c)
    ensures Std(m, xs) == 0.000000001
  {
    ConstantMean(xs, c);
    ConstantDeviations(xs, c);
    ZeroOver(|xs| as real);
  }

  lemma ConstantMean(xs: seq<real>, c: real)
    requires xs != [] && Constant(xs, c)
    ensures Mean(xs) == c
  {
    ConstantSum(xs, c);
    Cancel(|xs| as real, c);
  }

  lemma ConstantDeviations(xs: seq<real>, c: real)
    requires Constant(xs, c)
    ensures Sum(Deviations(xs, c)) == 0.0
  {
    var d := Deviations(xs, c);
    assert Constant(d, 0.0);
    ConstantSum(d, 0.0);
    ZeroTimes(|d| as real);
  }

  // ---- The model -------------------------------------------------------------------------

  datatype Model = Model(weights: Row, intercept: real, means: Row, stds: Row, lowMedium: real, mediumHigh: real)

  datatype Level = Low | Medium | High

  function Sigmoid(m: Maths, z: real): (p: real)
    requires m.exp(z) > 0.0 && m.exp(-z) > 0.0
  {
    if z >= 0.0 then 1.0 / (1.0 + m.exp(-z)) else m.exp(z) / (1.0 + m.exp(z))
  }

  /** The dot product over the shorter length, from the left, as p_adverse writes it. */
  function ZipDot(ws: Row, xs: Row): real {
    if ws == [] || xs == [] then 0.0 else ws[0] * xs[0] + ZipDot(ws[1..], xs[1..])
  }

  /** The dot product of the first n entries, by index, as fit_model writes it. */
  function IndexDot(w: Row, row: Row, n: nat): real
    requires n <= |w| && n <= |row|
  {
    if n == 0 then 0.0 else IndexDot(w, row, n - 1) + w[n - 1] * row[n - 1]
  }

  lemma {:induction false} DotsAgree(w: Row, row: Row)
    requires |w| == |row|
    ensures ZipDot(w, row) == IndexDot(w, row, |w|)
    decreases |w|
  {
    if w != [] {
      DotsAgree(w[1..], row[1..]);
      PeelFirst(w, row, |w|);
    }
  }

  lemma {:induction false} PeelFirst(w: Row, row: Row, n: nat)
    requires 0 < n <= |w| && n <= |row|
    ensures IndexDot(w, row, n) == w[0] * row[0] + IndexDot(w[1..], row[1..], n - 1)
    decreases n
  {
    if n > 1 { PeelFirst(w, row, n - 1); }
  }

  /** Division by zero raises: a row can be normalised only when no deviation is zero. */
  function Norm(row: Row, means: Row, stds: Row): Option<Row>
    requires |row| == |means| == |stds|
  {
    if exists i :: 0 <= i < |stds| && stds[i] == 0.0 then None
    else Some(seq(|row|, i requires 0 <= i < |row| => (row[i] - means[i]) / stds[i]))
  }

  /** RiskModel.p_adverse. */
  function PAdverse(m: Maths, model: Model, row: Row): Option<real>
    requires forall z :: m.exp(z) > 0.0
    requires |row| == |model.means| == |model.stds|
  {
    match Norm(row, model.means, model.stds)
    case None => None
    case Some(norm) => Some(Sigmoid(m, ZipDot(model.weights, norm) + model.intercept))
  }

  /** RiskModel.level of a probability. */
  function LevelOf(model: Model, p: real): Level {
    if p >= model.mediumHigh then High else if p >= model.lowMedium then Medium else Low
  }

  function Rank(level: Level): nat {
    match level case Low => 0 case Medium => 1 case High => 2
  }

  lemma LevelIsMonotone(model: Model, p: real, q: real)
    requires model.lowMedium <= model.mediumHigh && p <= q
    ensures Rank(LevelOf(model, p)) <= Rank(LevelOf(model, q))
    ensures LevelOf(model, p) == Low <==> p < model.lowMedium
    ensures LevelOf(model, p) == High <==> p >= model.mediumHigh
  {
  }

  // ---- Tertiles --------------------------------------------------------------------------

  ghost predicate Sorted(xs: seq<real>) {
    forall i, j :: 0 <= i < j < |xs| ==> xs[i] <= xs[j]
  }

  function Insert(x: real, xs: seq<real>): (longer: seq<real>)
    ensures |longer| == |xs| + 1
  {
    if xs == [] || x <= xs[0] then [x] + xs else [xs[0]] + Insert(x, xs[1..])
  }

  function Sort(xs: seq<real>): (sorted: seq<real>)
    ensures |sorted| == |xs|
  {
    if xs == [] then [] else Insert(xs[0], Sort(xs[1..]))
  }

  lemma {:induction false} InsertKeeps(x: real, xs: seq<real>)
    ensures |Insert(x, xs)| == |xs| + 1 && multiset(Insert(x, xs)) == multiset(xs) + multiset{x}
    decreases |xs|
  {
    if xs != [] && x > xs[0] {
      InsertKeeps(x, xs[1..]);
      assert xs == [xs[0]] + xs[1..];
    }
  }

  lemma {:induction false} InsertAbove(x: real, xs: seq<real>, low: real)
    requires low <= x && forall i :: 0 <= i < |xs| ==> low <= xs[i]
    ensures forall i :: 0 <= i < |Insert(x, xs)| ==> low <= Insert(x, xs)[i]
    decreases |xs|
  {
    if xs != [] && x > xs[0] { InsertAbove(x, xs[1..], low); }
  }

  lemma {:induction false} InsertSorts(x: real, xs: seq<real>)
    requires Sorted(xs)
    ensures Sorted(Insert(x, xs))
    decreases |xs|
  {
    if xs != [] && x > xs[0] {
      InsertSorts(x, xs[1..]);
      InsertAbove(x, xs[1..], xs[0]);
    }
  }

  lemma {:induction false} SortSorts(xs: seq<real>)
    ensures Sorted(Sort(xs)) && multiset(Sort(xs)) == multiset(xs) && |Sort(xs)| == |xs|
    decreases |xs|
  {
    if xs != [] {
      SortSorts(xs[1..]);
      InsertSorts(xs[0], Sort(xs[1..]));
      InsertKeeps(xs[0], Sort(xs[1..]));
      assert xs == [xs[0]] + xs[1..];
    }
    assert |multiset(Sort(xs))| == |Sort(xs)| && |multiset(xs)| == |xs|;
  }

  /** The tertile cutoffs of sorted probabilities, with the collapse to a binary split. */
  function CutoffsOf(s: seq<real>): (real, real)
    requires s != []
  {
    var n := |s|;
    var lowMedium, mediumHigh := s[n / 3], s[2 * n / 3];
    if lowMedium >= mediumHigh then (s[n / 2], s[n / 2]) else (lowMedium, mediumHigh)
  }

  /** The collapse changes nothing. */
  lemma CollapseIsIdle(s: seq<real>)
    requires Sorted(s) && s != []
    ensures CutoffsOf(s) == (s[|s| / 3], s[2 * |s| / 3]) && CutoffsOf(s).0 <= CutoffsOf(s).1
  {
    var n := |s|;
    assert n / 3 <= n / 2 <= 2 * n / 3 < n;
  }

  function Cutoffs(probs: seq<real>): (real, real)
    requires probs != []
  {
    CutoffsOf(Sort(probs))
  }

  /** The cutoffs are ordered for every training set, and the collapse changes nothing. */
  lemma CutoffsOrdered(probs: seq<real>)
    requires probs != []
    ensures Cutoffs(probs) == (Sort(probs)[|probs| / 3], Sort(probs)[2 * |probs| / 3])
    ensures Cutoffs(probs).0 <= Cutoffs(probs).1
  {
    SortSorts(probs);
    CollapseIsIdle(Sort(probs));
  }

  /** How many probabilities a model files under a level. */
  function Band(probs: seq<real>, model: Model, level: Level): nat {
    CountIf(probs, p => LevelOf(model, p) == level)
  }

  lemma NoneBelow(s: seq<real>, cut: nat)
    requires Sorted(s) && cut < |s|
    ensures forall p :: p in s[cut..] ==> s[cut] <= p
  {
    forall p | p in s[cut..] ensures s[cut] <= p {
      var i :| 0 <= i < |s| - cut && s[cut..][i] == p;
      assert s[cut] <= s[cut + i];
    }
  }

  /** If nothing from the cut upwards qualifies, at most what is before the cut does. */
  lemma CountBelow(s: seq<real>, cut: nat, p: real -> bool)
    requires Sorted(s) && cut < |s| && forall x :: s[cut] <= x ==> !p(x)
    ensures CountIf(s, p) <= cut
  {
    NoneBelow(s, cut);
    assert s == s[..cut] + s[cut..];
    CountConcat(s[..cut], s[cut..], p);
    CountNone(s[cut..], p);
    CountAtMost(s[..cut], p);
  }

  /** If everything from the cut upwards qualifies, at least what is there does. */
  lemma CountAbove(s: seq<real>, cut: nat, p: real -> bool)
    requires Sorted(s) && cut < |s| && forall x :: s[cut] <= x ==> p(x)
    ensures CountIf(s, p) >= |s| - cut
  {
    NoneBelow(s, cut);
    assert s == s[..cut] + s[cut..];
    CountConcat(s[..cut], s[cut..], p);
    CountAll(s[cut..], p);
  }

  lemma LowIsAtMostAThird(probs: seq<real>, model: Model)
    requires probs != [] && (model.lowMedium, model.mediumHigh) == Cutoffs(probs)
    ensures Band(probs, model, Low) <= |probs| / 3
  {
    CutoffsOrdered(probs);
    SortSorts(probs);
    CountPermutation(probs, Sort(probs), p => LevelOf(model, p) == Low);
    CountBelow(Sort(probs), |probs| / 3, p => LevelOf(model, p) == Low);
  }

  lemma HighIsAtLeastAThird(probs: seq<real>, model: Model)
    requires probs != [] && (model.lowMedium, model.mediumHigh) == Cutoffs(probs)
    ensures Band(probs, model, High) >= |probs| - 2 * |probs| / 3 >= 1
  {
    CutoffsOrdered(probs);
    SortSorts(probs);
    CountPermutation(probs, Sort(probs), p => LevelOf(model, p) == High);
    CountAbove(Sort(probs), 2 * |probs| / 3, p => LevelOf(model, p) == High);
  }

  /** Every sample is in exactly one band. */
  lemma BandsPartition(probs: seq<real>, model: Model)
    ensures Band(probs, model, Low) + Band(probs, model, Medium) + Band(probs, model, High) == |probs|
  {
    var low, medium, high := p => LevelOf(model, p) == Low, p => LevelOf(model, p) == Medium, p => LevelOf(model, p) == High;
    var rest := p => LevelOf(model, p) != Low;
    CountAll(probs, p => true);
    CountSplit(probs, p => true, low, rest);
    CountSplit(probs, rest, medium, high);
  }

  lemma {:induction false} CountAtMost<T>(xs: seq<T>, p: T -> bool)
    ensures CountIf(xs, p) <= |xs|
    decreases |xs|
  {
    if xs != [] { CountAtMost(xs[..|xs| - 1], p); }
  }

  // ---- Saving and loading -----------------------------------------------------------------

  /** Rounding to six decimals, ties to even. */
  function Round6(x: real): real {
    RoundHalfEven(x * 1000000.0) as real / 1000000.0
  }

  function RoundAll(xs: Row): Row {
    seq(|xs|, i requires 0 <= i < |xs| => Round6(xs[i]))
  }

  /** The model saved and loaded: every number comes back rounded to six decimals. */
  function Reloaded(model: Model): Model {
    Model(RoundAll(model.weights), Round6(model.intercept), RoundAll(model.means), RoundAll(model.stds),
          Round6(model.lowMedium), Round6(model.mediumHigh))
  }

  ghost predicate Floored(model: Model) {
    forall i :: 0 <= i < |model.stds| ==> model.stds[i] >= 0.000000001
  }

  /** In memory every probability is defined; after a reload exactly those models can still predict
      whose deviations all exceed half a millionth. */
  lemma PredictsAfterReloadIff(m: Maths, model: Model, row: Row)
    requires m.Valid() && Floored(model) && |row| == |model.means| == |model.stds|
    ensures PAdverse(m, model, row).Some?
    ensures PAdverse(m, Reloaded(model), row).Some? <==> forall i :: 0 <= i < |model.stds| ==> model.stds[i] > 0.0000005
  {
    var loaded := Reloaded(model).stds;
    forall i | 0 <= i < |model.stds| ensures loaded[i] == 0.0 <==> model.stds[i] <= 0.0000005 {
      RoundsToZeroIff(model.stds[i]);
    }
  }

  lemma RoundsToZeroIff(x: real)
    requires x >= 0.0
    ensures Round6(x) == 0.0 <==> x <= 0.0000005
  {
    RoundIsZeroIff(x * 1000000.0);
  }

  /** A model trained on a feature that never varied predicts in memory and cannot be used once saved. */
  lemma ConstantFeatureBreaksReload(m: Maths, model: Model, row: Row, i: nat, column: seq<real>, c: real)
    requires m.Valid() && Floored(model) && |row| == |model.means| == |model.stds| && i < |model.stds|
    requires column != [] && Constant(column, c) && model.stds[i] == Std(m, column)
    ensures PAdverse(m, model, row).Some? && PAdverse(m, Reloaded(model), row).None?
  {
    ConstantFeatureHasFloorStd(m, column, c);
    PredictsAfterReloadIff(m, model, row);
  }

  /** The cutoffs stay ordered through a reload. */
  lemma ReloadedCutoffsOrdered(model: Model)
    requires model.lowMedium <= model.mediumHigh
    ensures Reloaded(model).lowMedium <= Reloaded(model).mediumHigh
  {
    RoundIsMonotone(model.lowMedium * 1000000.0, model.mediumHigh * 1000000.0);
  }

  // ---- Fitting -----------------------------------------------------------------------------

  datatype Fit = Fit(weights: Row, intercept: real, means: Row, stds: Row)

  /** _fit_logistic, with the gradient descent left abstract. */
  function FitLogistic(m: Maths, rows: seq<Row>, y: seq<nat>): (fit: Fit)
    requires rows != [] && forall r :: r in rows ==> |r| == FEATURES
    requires forall z :: m.exp(z) > 0.0
    ensures |fit.means| == |fit.stds| == FEATURES
    ensures forall i :: 0 <= i < FEATURES ==> fit.means[i] == Mean(Column(rows, i)) && fit.stds[i] == Std(m, Column(rows, i))
    ensures forall i :: 0 <= i < FEATURES ==> fit.stds[i] >= 0.000000001
  {
    var means := seq(FEATURES, i requires 0 <= i < FEATURES => Mean(Column(rows, i)));
    var stds := seq(FEATURES, i requires 0 <= i < FEATURES => Std(m, Column(rows, i)));
    var normalised := seq(|rows|, j requires 0 <= j < |rows| => NormRow(rows[j], means, stds));
    var (w, b) := m.descend(normalised, y);
    Fit(w, b, means, stds)
  }

  function NormRow(row: Row, means: Row, stds: Row): Row
    requires |row| == |means| == |stds| && forall i :: 0 <= i < |stds| ==> stds[i] != 0.0
  {
    seq(|row|, i requires 0 <= i < |row| => (row[i] - means[i]) / stds[i])
  }

  /** The probability fit_model itself gives a training row. */
  function TrainingProbability(m: Maths, fit: Fit, row: Row): real
    requires forall z :: m.exp(z) > 0.0
    requires |row| == |fit.means| == |fit.stds| == |fit.weights| && forall i :: 0 <= i < |fit.stds| ==> fit.stds[i] != 0.0
  {
    var norm := NormRow(row, fit.means, fit.stds);
    Sigmoid(m, IndexDot(fit.weights, norm, |norm|) + fit.intercept)
  }

  /** Training and prediction cannot drift apart: the model in memory gives a row the probability that
      training gave it. */
  lemma PredictsAsTrained(m: Maths, fit: Fit, lowMedium: real, mediumHigh: real, row: Row)
    requires m.Valid() && |row| == |fit.means| == |fit.stds| == |fit.weights|
    requires forall i :: 0 <= i < |fit.stds| ==> fit.stds[i] >= 0.000000001
    ensures PAdverse(m, Model(fit.weights, fit.intercept, fit.means, fit.stds, lowMedium, mediumHigh), row)
            == Some(TrainingProbability(m, fit, row))
  {
    var norm := NormRow(row, fit.means, fit.stds);
    assert Norm(row, fit.means, fit.stds) == Some(norm);
    DotsAgree(fit.weights, norm);
  }

  // ---- Cross-validation --------------------------------------------------------------------

  /** The samples below n that fold f of k holds out, in order. */
  function TestFold(n: nat, k: nat, f: nat): (fold: seq<nat>)
    requires k > 0
    ensures forall j :: 0 <= j < |fold| ==> fold[j] < n
  {
    if n == 0 then [] else TestFold(n - 1, k, f) + if (n - 1) % k == f then [n - 1] else []
  }

  /** The other samples below n, which fold f is trained on. */
  function TrainFold(n: nat, k: nat, f: nat): (fold: seq<nat>)
    requires k > 0
    ensures forall j :: 0 <= j < |fold| ==> fold[j] < n
  {
    if n == 0 then [] else TrainFold(n - 1, k, f) + if (n - 1) % k != f then [n - 1] else []
  }

  /** The requested number of folds, but no more than samples and no fewer than two. */
  function FoldCount(folds: int, n: nat): nat {
    var most := if folds < n then folds else n;
    if most > 2 then most else 2
  }

  lemma {:induction false} FoldMembers(n: nat, k: nat, f: nat)
    requires k > 0
    ensures forall i: nat :: i in TestFold(n, k, f) <==> i < n && i % k == f
    ensures forall i: nat :: i in TrainFold(n, k, f) <==> i < n && i % k != f
    decreases n
  {
    if n > 0 { FoldMembers(n - 1, k, f); }
  }

  /** The folds partition the samples: a sample is tested in the fold of its remainder and no other. */
  lemma FoldsPartition(n: nat, k: nat, f: nat, i: nat)
    requires i < n && f < k
    ensures i % k < k && (i in TestFold(n, k, f) <==> f == i % k)
    ensures i in TestFold(n, k, f) <==> i !in TrainFold(n, k, f)
  {
    FoldMembers(n, k, f);
  }

  /** With two samples or more no fold is empty on either side, whatever number of folds is asked for. */
  lemma NoFoldIsEmpty(n: nat, folds: int, f: nat)
    requires n >= 2 && f < FoldCount(folds, n)
    ensures 2 <= FoldCount(folds, n) <= n && (2 <= folds <= n ==> FoldCount(folds, n) == folds)
    ensures (folds < 2 ==> FoldCount(folds, n) == 2) && (folds > n ==> FoldCount(folds, n) == n)
    ensures TestFold(n, FoldCount(folds, n), f) != [] && TrainFold(n, FoldCount(folds, n), f) != []
  {
    var k := FoldCount(folds, n);
    SmallModulo(f, k);
    FoldMembers(n, k, f);
    assert f in TestFold(n, k, f);
    var other: nat := if f == 0 then 1 else 0;
    SmallModulo(other, k);
    assert other in TrainFold(n, k, f);
  }

  lemma EveryFoldCounts(n: nat, folds: int)
    requires n >= 2
    ensures var k := FoldCount(folds, n);
            k > 0 && forall f :: 0 <= f < k ==> TestFold(n, k, f) != [] && TrainFold(n, k, f) != []
  {
    var k := FoldCount(folds, n);
    forall f | 0 <= f < k ensures TestFold(n, k, f) != [] && TrainFold(n, k, f) != [] { NoFoldIsEmpty(n, folds, f); }
  }

  /** One term of the log loss. */
  function LossTerm(m: Maths, p: real, y: nat): real {
    y as real * m.ln(Max(0.000000000000001, p)) + (1 - y) as real * m.ln(Max(0.000000000000001, 1.0 - p))
  }

  function LossSum(m: Maths, probs: seq<real>, y: seq<nat>): real
    requires |probs| == |y|
  {
    if y == [] then 0.0
    else LossSum(m, probs[..|probs| - 1], y[..|y| - 1]) + LossTerm(m, probs[|probs| - 1], y[|y| - 1])
  }

  /** _logloss: the negated mean, over at least one. */
  function LogLoss(m: Maths, probs: seq<real>, y: seq<nat>): real
    requires |probs| == |y|
  {
    -LossSum(m, probs, y) / (if |y| > 1 then |y| else 1) as real
  }

  /** The probability each fold's model gives a sample, held out or not. */
  type Predictor = (nat, nat) -> real

  /** Total of the losses of the samples below n, each under the model of the fold that holds it out. */
  function HeldOutLoss(m: Maths, predict: Predictor, y: seq<nat>, n: nat, k: nat): real
    requires n <= |y| && k > 0
  {
    if n == 0 then 0.0
    else HeldOutLoss(m, predict, y, n - 1, k) + LossTerm(m, predict((n - 1) % k, n - 1), y[n - 1])
  }

  /** The part of that total that falls to the folds below g. */
  function LossBelow(m: Maths, predict: Predictor, y: seq<nat>, n: nat, k: nat, g: nat): real
    requires n <= |y| && k > 0
  {
    if n == 0 then 0.0
    else LossBelow(m, predict, y, n - 1, k, g)
         + if (n - 1) % k < g then LossTerm(m, predict((n - 1) % k, n - 1), y[n - 1]) else 0.0
  }

  lemma {:induction false} AllFolds(m: Maths, predict: Predictor, y: seq<nat>, n: nat, k: nat)
    requires n <= |y| && k > 0
    ensures LossBelow(m, predict, y, n, k, k) == HeldOutLoss(m, predict, y, n, k)
    ensures LossBelow(m, predict, y, n, k, 0) == 0.0
    decreases n
  {
    if n > 0 { AllFolds(m, predict, y, n - 1, k); }
  }

  function FoldProbs(predict: Predictor, fold: seq<nat>, f: nat): seq<real> {
    seq(|fold|, j requires 0 <= j < |fold| => predict(f, fold[j]))
  }

  /** The entries at the given indices. */
  function At<T>(xs: seq<T>, indices: seq<nat>): seq<T>
    requires forall j :: 0 <= j < |indices| ==> indices[j] < |xs|
  {
    seq(|indices|, j requires 0 <= j < |indices| => xs[indices[j]])
  }

  // ---- Holding out --------------------------------------------------------------------------

  /** The model of fold f: normalisation and weights from its training samples only. */
  function FoldModel(m: Maths, rows: seq<Row>, y: seq<nat>, k: nat, f: nat): Fit
    requires m.Valid() && |rows| == |y| && k > 0 && forall r :: r in rows ==> |r| == FEATURES
    requires TrainFold(|rows|, k, f) != []
  {
    var train := TrainFold(|rows|, k, f);
    FitLogistic(m, At(rows, train), At(y, train))
  }

  /** What that model gives a sample; what it would give outside the table is of no interest. */
  function HeldOut(m: Maths, rows: seq<Row>, y: seq<nat>, k: nat): Predictor
    requires m.Valid() && |rows| == |y| && k > 0 && forall r :: r in rows ==> |r| == FEATURES
  {
    (f: nat, i: nat) => if i < |rows| && TrainFold(|rows|, k, f) != [] then TrainingProbability(m, FoldModel(m, rows, y, k, f), rows[i]) else 0.0
  }

  /** Cross-validation does not leak: the model that scores sample i is the same whatever the row and the
      label of sample i are. */
  lemma NothingLeaks(m: Maths, rows: seq<Row>, y: seq<nat>, rows': seq<Row>, y': seq<nat>, k: nat, i: nat)
    requires m.Valid() && |rows| == |y| == |rows'| == |y'| && k > 0 && i < |rows|
    requires (forall r :: r in rows ==> |r| == FEATURES) && forall r :: r in rows' ==> |r| == FEATURES
    requires forall j :: 0 <= j < |rows| && j != i ==> rows[j] == rows'[j] && y[j] == y'[j]
    requires TrainFold(|rows|, k, i % k) != []
    ensures FoldModel(m, rows, y, k, i % k) == FoldModel(m, rows', y', k, i % k)
    ensures rows[i] == rows'[i] ==> HeldOut(m, rows, y, k)(i % k, i) == HeldOut(m, rows', y', k)(i % k, i)
  {
    var train := TrainFold(|rows|, k, i % k);
    FoldMembers(|rows|, k, i % k);
    forall j | 0 <= j < |train| ensures rows[train[j]] == rows'[train[j]] && y[train[j]] == y'[train[j]] {
      assert train[j] in train;
    }
    assert At(rows, train) == At(rows', train) && At(y, train) == At(y', train);
  }

  lemma {:induction false} OneMoreFold(m: Maths, predict: Predictor, y: seq<nat>, n: nat, k: nat, f: nat)
    requires n <= |y| && f < k
    ensures forall j :: 0 <= j < |TestFold(n, k, f)| ==> TestFold(n, k, f)[j] < n
    ensures var fold := TestFold(n, k, f);
            LossBelow(m, predict, y, n, k, f + 1)
            == LossBelow(m, predict, y, n, k, f) + LossSum(m, FoldProbs(predict, fold, f), At(y, fold))
    decreases n
  {
    FoldMembers(n, k, f);
    if n > 0 {
      OneMoreFold(m, predict, y, n - 1, k, f);
      var before, fold := TestFold(n - 1, k, f), TestFold(n, k, f);
      if (n - 1) % k == f {
        assert fold == before + [n - 1];
        assert FoldProbs(predict, fold, f)[..|fold| - 1] == FoldProbs(predict, before, f);
        assert At(y, fold)[..|fold| - 1] == At(y, before);
      } else {
        assert fold == before;
      }
    }
  }

  /** A fold's log loss, weighted by the number of samples it held out. */
  function WeightedLoss(m: Maths, probs: seq<real>, y: seq<nat>): real
    requires |probs| == |y|
  {
    LogLoss(m, probs, y) * |y| as real
  }

  lemma WeightedLossIsSum(m: Maths, probs: seq<real>, y: seq<nat>)
    requires |probs| == |y|
    ensures WeightedLoss(m, probs, y) == -LossSum(m, probs, y)
  {
    if |y| > 0 { TimesQuotient(-LossSum(m, probs, y), |y| as real); }
  }

  lemma FoldAddsUp(m: Maths, predict: Predictor, y: seq<nat>, k: nat, f: nat)
    requires f < k
    ensures var test := TestFold(|y|, k, f);
            -LossBelow(m, predict, y, |y|, k, f + 1)
            == -LossBelow(m, predict, y, |y|, k, f) + WeightedLoss(m, FoldProbs(predict, test, f), At(y, test))
  {
    OneMoreFold(m, predict, y, |y|, k, f);
    var test := TestFold(|y|, k, f);
    WeightedLossIsSum(m, FoldProbs(predict, test, f), At(y, test));
  }

  lemma HeldOutProbs(m: Maths, rows: seq<Row>, y: seq<nat>, k: nat, f: nat)
    requires m.Valid() && |rows| == |y| && f < k && forall r :: r in rows ==> |r| == FEATURES
    requires TrainFold(|rows|, k, f) != []
    ensures var fit, test := FoldModel(m, rows, y, k, f), TestFold(|rows|, k, f);
            FoldProbs(HeldOut(m, rows, y, k), test, f)
            == seq(|test|, j requires 0 <= j < |test| => TrainingProbability(m, fit, rows[test[j]]))
  {
  }

  /** One turn of the fold loop: fit on the training samples, predict the held-out ones. */
  method ScoreFold(m: Maths, rows: seq<Row>, y: seq<nat>, k: nat, f: nat) returns (loss: real)
    requires m.Valid() && |rows| == |y| && f < k && forall r :: r in rows ==> |r| == FEATURES
    requires TrainFold(|y|, k, f) != []
    ensures var test := TestFold(|y|, k, f);
            loss == WeightedLoss(m, FoldProbs(HeldOut(m, rows, y, k), test, f), At(y, test))
  {
    var test, train := TestFold(|y|, k, f), TrainFold(|y|, k, f);
    var fit := FitLogistic(m, At(rows, train), At(y, train));
    var probs := seq(|test|, j requires 0 <= j < |test| => TrainingProbability(m, fit, rows[test[j]]));
    HeldOutProbs(m, rows, y, k, f);
    loss := WeightedLoss(m, probs, At(y, test));
  }

  method SumFolds(m: Maths, rows: seq<Row>, y: seq<nat>, k: nat) returns (err: real)
    requires m.Valid() && |rows| == |y| && k > 0 && forall r :: r in rows ==> |r| == FEATURES
    requires forall f :: 0 <= f < k ==> TestFold(|y|, k, f) != [] && TrainFold(|y|, k, f) != []
    ensures err == -LossBelow(m, HeldOut(m, rows, y, k), y, |y|, k, k)
  {
    err := 0.0;
    ghost var heldOut := HeldOut(m, rows, y, k);
    AllFolds(m, heldOut, y, |y|, k);
    for f := 0 to k
      invariant err == -LossBelow(m, heldOut, y, |y|, k, f)
    {
      FoldAddsUp(m, heldOut, y, k, f);
      if TestFold(|y|, k, f) != [] && TrainFold(|y|, k, f) != [] {
        var loss := ScoreFold(m, rows, y, k, f);
        err := err + loss;
      }
    }
  }

  /** The fold loop of fit_model. The average it reports is the plain mean of the held-out losses: no
      fold is skipped, and fold sizes do not weigh in. */
  method CrossValidate(m: Maths, rows: seq<Row>, y: seq<nat>, folds: int) returns (cv: real)
    requires m.Valid() && |rows| == |y| >= 2 && forall r :: r in rows ==> |r| == FEATURES
    ensures cv == CvLoss(m, rows, y, folds)
  {
    var k := FoldCount(folds, |y|);
    EveryFoldCounts(|y|, folds);
    var err := SumFolds(m, rows, y, k);
    MeanOfFolds(m, rows, y, folds, err);
    cv := err / |y| as real;
  }

  lemma MeanOfFolds(m: Maths, rows: seq<Row>, y: seq<nat>, folds: int, err: real)
    requires m.Valid() && |rows| == |y| >= 2 && forall r :: r in rows ==> |r| == FEATURES
    requires var k := FoldCount(folds, |y|); err == -LossBelow(m, HeldOut(m, rows, y, k), y, |y|, k, k)
    ensures err / |y| as real == CvLoss(m, rows, y, folds)
  {
    var k := FoldCount(folds, |y|);
    AllFolds(m, HeldOut(m, rows, y, k), y, |y|, k);
  }

  /** The mean over the samples of their loss under the model that did not see them. */
  function CvLoss(m: Maths, rows: seq<Row>, y: seq<nat>, folds: int): real
    requires m.Valid() && |rows| == |y| >= 2 && forall r :: r in rows ==> |r| == FEATURES
  {
    var k := FoldCount(folds, |y|);
    -HeldOutLoss(m, HeldOut(m, rows, y, k), y, |y|, k) / |y| as real
  }

  // ---- Learning a model --------------------------------------------------------------------

  datatype Outcome = TooFewSamples | NotBetterThanBaseRate | Learned(model: Model)

  /** The honesty gate on the data: enough samples, and both outcomes among them. */
  predicate Trainable(y: seq<nat>, minSamples: int) {
    |y| >= minSamples && exists i, j :: 0 <= i < j < |y| && y[i] != y[j]
  }

  /** The model carries the fit on all rows: means and deviations of the columns, and their weights. */
  ghost predicate Trained(m: Maths, rows: seq<Row>, y: seq<nat>, model: Model)
    requires m.Valid() && rows != [] && |rows| == |y| && forall r :: r in rows ==> |r| == FEATURES
  {
    var fit := FitLogistic(m, rows, y);
    model == Model(fit.weights, fit.intercept, fit.means, fit.stds, model.lowMedium, model.mediumHigh)
  }

  /** Of two commits the one of the higher probability never gets the lower level. */
  ghost predicate RanksByProbability(m: Maths, model: Model)
    requires m.Valid() && |model.means| == |model.stds|
  {
    forall a: Row, b: Row ::
      (&& |a| == |b| == |model.means| && PAdverse(m, model, a).Some? && PAdverse(m, model, b).Some?
       && PAdverse(m, model, a).value <= PAdverse(m, model, b).value)
      ==> Rank(LevelOf(model, PAdverse(m, model, a).value)) <= Rank(LevelOf(model, PAdverse(m, model, b).value))
  }

  lemma LevelsFollowProbability(m: Maths, model: Model)
    requires m.Valid() && |model.means| == |model.stds| && model.lowMedium <= model.mediumHigh
    ensures RanksByProbability(m, model)
  {
    forall a: Row, b: Row | |a| == |b| == |model.means| && PAdverse(m, model, a).Some? && PAdverse(m, model, b).Some?
      && PAdverse(m, model, a).value <= PAdverse(m, model, b).value
      ensures Rank(LevelOf(model, PAdverse(m, model, a).value)) <= Rank(LevelOf(model, PAdverse(m, model, b).value))
    {
      LevelIsMonotone(model, PAdverse(m, model, a).value, PAdverse(m, model, b).value);
    }
  }

  /** A learned model survives saving if and only if every feature varies by more than half a millionth
      over the training rows; one constant feature is enough to lose it. */
  lemma LearnedModelReloadsIff(m: Maths, rows: seq<Row>, y: seq<nat>, model: Model, row: Row)
    requires m.Valid() && rows != [] && |rows| == |y| && |row| == FEATURES && forall r :: r in rows ==> |r| == FEATURES
    requires Trained(m, rows, y, model)
    ensures |model.means| == |model.stds| == FEATURES
    ensures PAdverse(m, Reloaded(model), row).Some?
            <==> forall i :: 0 <= i < FEATURES ==> Std(m, Column(rows, i)) > 0.0000005
    ensures (exists i, c :: 0 <= i < FEATURES && Constant(Column(rows, i), c)) ==> PAdverse(m, Reloaded(model), row).None?
  {
    PredictsAfterReloadIff(m, model, row);
    forall i, c | 0 <= i < FEATURES && Constant(Column(rows, i), c) ensures Std(m, Column(rows, i)) == 0.000000001 {
      ConstantFeatureHasFloorStd(m, Column(rows, i), c);
    }
  }

  /** fit_model from the labelled rows on: rejected for its data, or because the held-out loss is no better
      than predicting the base rate, or else the model fitted on all rows, with its cutoffs. */
  method FitModel(m: Maths, rows: seq<Row>, y: seq<nat>, minSamples: int, folds: int)
    returns (outcome: Outcome, bands: seq<seq<nat>>)
    requires m.Valid() && |rows| == |y| && forall r :: r in rows ==> |r| == FEATURES
    ensures outcome.TooFewSamples? <==> |y| < minSamples || forall i, j :: 0 <= i < |y| && 0 <= j < |y| ==> y[i] == y[j]
    ensures outcome.Learned? <==> Trainable(y, minSamples) && CvLoss(m, rows, y, folds) < BaseRateLoss(m, y)
    ensures outcome.Learned? ==> Trained(m, rows, y, outcome.model)
    ensures outcome.Learned? ==> RanksByProbability(m, outcome.model)
    ensures outcome.Learned? ==> outcome.model.lowMedium <= outcome.model.mediumHigh && Floored(outcome.model)
    ensures outcome.Learned? ==> |outcome.model.means| == |outcome.model.stds| == FEATURES
    ensures outcome.Learned? ==> forall i :: 0 <= i < |rows| ==> PAdverse(m, outcome.model, rows[i]).Some?
    ensures outcome.Learned? ==>
              |bands| == 3 && |bands[0]| <= |y| / 3 && |bands[2]| >= |y| - 2 * |y| / 3 >= 1
              && |bands[0]| + |bands[1]| + |bands[2]| == |y|
    ensures outcome.Learned? ==> forall b :: 0 <= b < 3 ==>
              bands[b] == LabelsRanked(m, outcome.model, rows, y, b, |rows|)
  {
    bands := [[], [], []];
    if !Trainable(y, minSamples) {
      return TooFewSamples, bands;
    }
    var fit := FitLogistic(m, rows, y);
    var cv := CrossValidate(m, rows, y, folds);
    var model;
    model, bands := Tertiles(m, rows, y, fit);
    if cv >= BaseRateLoss(m, y) {
      return NotBetterThanBaseRate, bands;
    }
    forall i | 0 <= i < |rows| ensures PAdverse(m, model, rows[i]).Some? {
      PredictsAsTrained(m, fit, model.lowMedium, model.mediumHigh, rows[i]);
    }
    LevelsFollowProbability(m, model);
    outcome := Learned(model);
  }

  /** Cutoffs from the training probabilities, and the bands they cut the training rows into. */
  method Tertiles(m: Maths, rows: seq<Row>, y: seq<nat>, fit: Fit) returns (model: Model, bands: seq<seq<nat>>)
    requires m.Valid() && rows != [] && |rows| == |y| && forall r :: r in rows ==> |r| == FEATURES
    requires |fit.means| == |fit.stds| == |fit.weights| == FEATURES
    requires forall i :: 0 <= i < FEATURES ==> fit.stds[i] >= 0.000000001
    ensures model == Model(fit.weights, fit.intercept, fit.means, fit.stds, model.lowMedium, model.mediumHigh)
    ensures model.lowMedium <= model.mediumHigh
    ensures |bands| == 3 && |bands[0]| <= |y| / 3 && |bands[2]| >= |y| - 2 * |y| / 3 >= 1
    ensures |bands[0]| + |bands[1]| + |bands[2]| == |y|
    ensures forall b :: 0 <= b < 3 ==> bands[b] == LabelsRanked(m, model, rows, y, b, |rows|)
  {
    var probs := seq(|rows|, j requires 0 <= j < |rows| => TrainingProbability(m, fit, rows[j]));
    CutoffsOrdered(probs);
    var (lowMedium, mediumHigh) := Cutoffs(probs);
    model := Model(fit.weights, fit.intercept, fit.means, fit.stds, lowMedium, mediumHigh);
    forall i | 0 <= i < |rows| ensures PAdverse(m, model, rows[i]) == Some(probs[i]) {
      PredictsAsTrained(m, fit, lowMedium, mediumHigh, rows[i]);
    }
    bands := FillBands(m, model, rows, y, probs);
    LowIsAtMostAThird(probs, model);
    HighIsAtLeastAThird(probs, model);
    BandsPartition(probs, model);
  }

  function BaseRateLoss(m: Maths, y: seq<nat>): real
    requires y != []
  {
    var prior := Sum(seq(|y|, i requires 0 <= i < |y| => y[i] as real)) / |y| as real;
    LogLoss(m, seq(|y|, _ => prior), y)
  }

  /** The labels of the rows below n whose level, as the finished model reports it, has the given rank. */
  function LabelsRanked(m: Maths, model: Model, rows: seq<Row>, y: seq<nat>, rank: nat, n: nat): seq<nat>
    requires forall z :: m.exp(z) > 0.0
    requires n <= |rows| == |y| && forall i :: 0 <= i < n ==> |rows[i]| == |model.means| == |model.stds|
  {
    if n == 0 then []
    else
      var p := PAdverse(m, model, rows[n - 1]);
      LabelsRanked(m, model, rows, y, rank, n - 1)
      + if p.Some? && Rank(LevelOf(model, p.value)) == rank then [y[n - 1]] else []
  }

  lemma BandOfOneMore(probs: seq<real>, model: Model, i: nat, level: Level)
    requires i < |probs|
    ensures Band(probs[..i + 1], model, level)
            == Band(probs[..i], model, level) + if LevelOf(model, probs[i]) == level then 1 else 0
  {
    assert probs[..i + 1] == probs[..i] + [probs[i]];
    CountSnoc(probs[..i], probs[i], p => LevelOf(model, p) == level);
  }

  ghost predicate BandSizes(probs: seq<real>, model: Model, bands: seq<seq<nat>>) {
    && |bands| == 3
    && |bands[0]| == Band(probs, model, Low) && |bands[1]| == Band(probs, model, Medium)
    && |bands[2]| == Band(probs, model, High)
  }

  lemma BandSizesStep(probs: seq<real>, model: Model, i: nat, bands: seq<seq<nat>>, adverse: nat)
    requires i < |probs| && BandSizes(probs[..i], model, bands)
    ensures var r := Rank(LevelOf(model, probs[i]));
            BandSizes(probs[..i + 1], model, bands[r := bands[r] + [adverse]])
  {
    BandOfOneMore(probs, model, i, Low);
    BandOfOneMore(probs, model, i, Medium);
    BandOfOneMore(probs, model, i, High);
  }

  /** The band loop: each row's label goes to the band of its training probability. */
  method FillBands(m: Maths, model: Model, rows: seq<Row>, y: seq<nat>, probs: seq<real>) returns (bands: seq<seq<nat>>)
    requires m.Valid() && |rows| == |y| == |probs|
    requires forall i :: 0 <= i < |rows| ==>
               |rows[i]| == |model.means| == |model.stds| && PAdverse(m, model, rows[i]) == Some(probs[i])
    ensures |bands| == 3
    ensures |bands[0]| == Band(probs, model, Low) && |bands[1]| == Band(probs, model, Medium)
            && |bands[2]| == Band(probs, model, High)
    ensures forall b :: 0 <= b < 3 ==> bands[b] == LabelsRanked(m, model, rows, y, b, |rows|)
  {
    bands := [[], [], []];
    for i := 0 to |rows|
      invariant BandSizes(probs[..i], model, bands)
      invariant forall b :: 0 <= b < 3 ==> bands[b] == LabelsRanked(m, model, rows, y, b, i)
    {
      BandSizesStep(probs, model, i, bands, y[i]);
      var r := Rank(LevelOf(model, probs[i]));
      bands := bands[r := bands[r] + [y[i]]];
    }
    assert probs[..|rows|] == probs;
  }
}
