/** The regression gate, evaluate_gate in scripts/sot_evaluator.py. */
module RegressionGate {
  import opened Arithmetic

  // Ratios are exact reals; a bucket is a language and a relation, and the order in which buckets are
  // visited is left open, since only the order of messages depends on it.

  datatype Option<T> = None | Some(value: T)

  type Bucket = (string, string)

  datatype Slot = Slot(tp: nat, fp: nat, fn: nat)
  {
    predicate Clean() {
      fp == 0 && fn == 0
    }

    function Precision(): real {
      if tp + fp > 0 then tp as real / (tp + fp) as real else 0.0
    }

    function Recall(): real {
      if tp + fn > 0 then tp as real / (tp + fn) as real else 0.0
    }
  }

  datatype Payload = Payload(precision: real, recall: real, buckets: map<Bucket, Slot>)

  datatype Settings = Settings(tolerance: real, minPrecision: Option<real>, minRecall: Option<real>)

  datatype Failure =
    | OverallPrecision | OverallRecall
    | Missing(bucket: Bucket) | NewErrors(bucket: Bucket) | NoLongerClean(bucket: Bucket)
    | PrecisionDrop(bucket: Bucket) | RecallDrop(bucket: Bucket)

  function Floor(override: Option<real>, base: real, tolerance: real): real {
    match override
    case Some(floor) => floor
    case None => base - tolerance
  }

  /** The floor of a bucket metric is waived when the baseline has nothing to measure. */
  function BucketFloor(metric: real, errors: nat, tolerance: real): real {
    if metric != 0.0 || errors != 0 then metric - tolerance else 0.0
  }

  predicate Fails(base: Payload, now: Payload, s: Settings, f: Failure) {
    match f
    case OverallPrecision => now.precision < Floor(s.minPrecision, base.precision, s.tolerance)
    case OverallRecall => now.recall < Floor(s.minRecall, base.recall, s.tolerance)
    case Missing(b) => b in base.buckets && b !in now.buckets
    case NewErrors(b) => b !in base.buckets && b in now.buckets && !now.buckets[b].Clean()
    case NoLongerClean(b) =>
      b in base.buckets && b in now.buckets && base.buckets[b].Clean() && !now.buckets[b].Clean()
    case PrecisionDrop(b) =>
      b in base.buckets && b in now.buckets
      && now.buckets[b].Precision() < BucketFloor(base.buckets[b].Precision(), base.buckets[b].fp, s.tolerance)
    case RecallDrop(b) =>
      b in base.buckets && b in now.buckets
      && now.buckets[b].Recall() < BucketFloor(base.buckets[b].Recall(), base.buckets[b].fn, s.tolerance)
  }

  ghost predicate Passes(base: Payload, now: Payload, s: Settings) {
    forall f :: !Fails(base, now, s, f)
  }

  /** The gate passes exactly when no rule is broken, and its reasons are exactly the broken rules. */
  method EvaluateGate(base: Payload, now: Payload, s: Settings) returns (passed: bool, failures: seq<Failure>)
    ensures forall f :: f in failures <==> Fails(base, now, s, f)
    ensures passed <==> Passes(base, now, s)
  {
    failures := [];
    if now.precision < Floor(s.minPrecision, base.precision, s.tolerance) {
      failures := failures + [OverallPrecision];
    }
    if now.recall < Floor(s.minRecall, base.recall, s.tolerance) {
      failures := failures + [OverallRecall];
    }
    var todo := base.buckets.Keys + now.buckets.Keys;
    while todo != {}
      invariant todo <= base.buckets.Keys + now.buckets.Keys
      invariant forall f :: f in failures <==>
                  Fails(base, now, s, f) && (f.OverallPrecision? || f.OverallRecall? || f.bucket !in todo)
      decreases todo
    {
      var b :| b in todo;
      var found := EvaluateBucket(base, now, s, b);
      failures := failures + found;
      todo := todo - {b};
    }
    passed := failures == [];
    if passed {
      assert forall f :: f !in failures;
    } else {
      assert failures[0] in failures;
    }
  }

  method EvaluateBucket(base: Payload, now: Payload, s: Settings, b: Bucket) returns (found: seq<Failure>)
    requires b in base.buckets || b in now.buckets
    ensures forall f :: f in found <==>
              !f.OverallPrecision? && !f.OverallRecall? && f.bucket == b && Fails(base, now, s, f)
  {
    if b !in now.buckets {
      return [Missing(b)];
    }
    var slot := now.buckets[b];
    if b !in base.buckets {
      return if slot.fp != 0 || slot.fn != 0 then [NewErrors(b)] else [];
    }
    var was := base.buckets[b];
    found := [];
    if was.fp == 0 && was.fn == 0 && (slot.fp != 0 || slot.fn != 0) {
      found := found + [NoLongerClean(b)];
    }
    if slot.Precision() < BucketFloor(was.Precision(), was.fp, s.tolerance) {
      found := found + [PrecisionDrop(b)];
    }
    if slot.Recall() < BucketFloor(was.Recall(), was.fn, s.tolerance) {
      found := found + [RecallDrop(b)];
    }
  }

  // ---- What passing means -------------------------------------------------------------

  /** For a tolerance that is not negative the waived floors make no difference: no measured ratio
      may drop by more than the tolerance, no bucket may vanish, and what was clean or absent
      must be clean. */
  ghost predicate NoRegression(base: Payload, now: Payload, tolerance: real) {
    && now.precision >= base.precision - tolerance && now.recall >= base.recall - tolerance
    && BucketsHold(base, now, tolerance)
  }

  ghost predicate BucketsHold(base: Payload, now: Payload, tolerance: real) {
    && base.buckets.Keys <= now.buckets.Keys
    && forall b :: b in now.buckets ==>
         if b in base.buckets
         then Within(base.buckets[b], now.buckets[b], tolerance)
         else now.buckets[b].Clean()
  }

  predicate Within(was: Slot, now: Slot, tolerance: real) {
    && (was.Clean() ==> now.Clean())
    && now.Precision() >= was.Precision() - tolerance
    && now.Recall() >= was.Recall() - tolerance
  }

  /** The ratios are what is right among what was found, and among what there was to find. */
  lemma RatiosMean(s: Slot)
    ensures s.Precision() * (s.tp + s.fp) as real == s.tp as real && s.Recall() * (s.tp + s.fn) as real == s.tp as real
    ensures s.tp == 0 ==> s.Precision() == 0.0 && s.Recall() == 0.0
  {
    if s.tp > 0 {
      TimesQuotient(s.tp as real, (s.tp + s.fp) as real);
      TimesQuotient(s.tp as real, (s.tp + s.fn) as real);
    } else {
      if s.fp > 0 { TimesQuotient(0.0, s.fp as real); }
      if s.fn > 0 { TimesQuotient(0.0, s.fn as real); }
    }
  }

  /** With floors of the caller's own for the overall metrics: these replace the tolerance there, and there
      only. */
  lemma PassingWithFloors(base: Payload, now: Payload, s: Settings)
    requires s.tolerance >= 0.0
    ensures Passes(base, now, s) <==>
            && (match s.minPrecision case Some(floor) => floor <= now.precision
                                     case None => base.precision <= now.precision + s.tolerance)
            && (match s.minRecall case Some(floor) => floor <= now.recall
                                  case None => base.recall <= now.recall + s.tolerance)
            && BucketsHold(base, now, s.tolerance)
  {
    forall b | b in now.buckets { RatiosAreBounded(now.buckets[b]); }
    if Passes(base, now, s) {
      assert !Fails(base, now, s, OverallPrecision) && !Fails(base, now, s, OverallRecall);
      forall b | b in base.buckets ensures b in now.buckets { assert !Fails(base, now, s, Missing(b)); }
      forall b | b in now.buckets
        ensures if b in base.buckets then Within(base.buckets[b], now.buckets[b], s.tolerance) else now.buckets[b].Clean()
      {
        assert !Fails(base, now, s, NewErrors(b)) && !Fails(base, now, s, NoLongerClean(b));
        assert !Fails(base, now, s, PrecisionDrop(b)) && !Fails(base, now, s, RecallDrop(b));
      }
    }
  }

  /** Each reason, for a tolerance that is not negative: an overall metric under its floor, a bucket gone, a
      bucket new or clean before and with errors now, or one of whose ratios fell by more than the tolerance. */
  lemma ReasonsMean(base: Payload, now: Payload, s: Settings, b: Bucket)
    requires s.tolerance >= 0.0
    ensures Fails(base, now, s, OverallPrecision)
            <==> match s.minPrecision case Some(floor) => now.precision < floor
                                      case None => base.precision - now.precision > s.tolerance
    ensures Fails(base, now, s, OverallRecall)
            <==> match s.minRecall case Some(floor) => now.recall < floor
                                   case None => base.recall - now.recall > s.tolerance
    ensures Fails(base, now, s, Missing(b)) <==> b in base.buckets.Keys - now.buckets.Keys
    ensures Fails(base, now, s, NewErrors(b))
            <==> b in now.buckets.Keys - base.buckets.Keys && now.buckets[b].fp + now.buckets[b].fn > 0
    ensures Fails(base, now, s, NoLongerClean(b))
            <==> b in base.buckets.Keys * now.buckets.Keys && base.buckets[b].fp + base.buckets[b].fn == 0
                 && now.buckets[b].fp + now.buckets[b].fn > 0
    ensures Fails(base, now, s, PrecisionDrop(b))
            <==> b in base.buckets.Keys * now.buckets.Keys
                 && base.buckets[b].Precision() - now.buckets[b].Precision() > s.tolerance
    ensures Fails(base, now, s, RecallDrop(b))
            <==> b in base.buckets.Keys * now.buckets.Keys
                 && base.buckets[b].Recall() - now.buckets[b].Recall() > s.tolerance
  {
    if b in now.buckets { RatiosAreBounded(now.buckets[b]); }
  }

  function Plain(tolerance: real): Settings {
    Settings(tolerance, None, None)
  }

  lemma RatiosAreBounded(s: Slot)
    ensures 0.0 <= s.Precision() <= 1.0 && 0.0 <= s.Recall() <= 1.0
  {
    if s.tp + s.fp > 0 { Ratio(s.tp, s.tp + s.fp); }
    if s.tp + s.fn > 0 { Ratio(s.tp, s.tp + s.fn); }
  }

  lemma PassingMeansNoRegression(base: Payload, now: Payload, tolerance: real)
    requires tolerance >= 0.0
    ensures Passes(base, now, Plain(tolerance)) <==> NoRegression(base, now, tolerance)
  {
    PassingWithFloors(base, now, Plain(tolerance));
  }

  /** A payload passes against itself if and only if the tolerance is not negative. */
  lemma ReflexiveIff(p: Payload, tolerance: real)
    ensures Passes(p, p, Plain(tolerance)) <==> tolerance >= 0.0
  {
    if tolerance >= 0.0 {
      PassingMeansNoRegression(p, p, tolerance);
    } else {
      assert Fails(p, p, Plain(tolerance), OverallPrecision);
    }
  }

  /** Tolerances add up over successive re-baselines. */
  lemma Composes(a: Payload, b: Payload, c: Payload, t1: real, t2: real)
    requires t1 >= 0.0 && t2 >= 0.0
    requires Passes(a, b, Plain(t1)) && Passes(b, c, Plain(t2))
    ensures Passes(a, c, Plain(t1 + t2))
  {
    PassingMeansNoRegression(a, b, t1);
    PassingMeansNoRegression(b, c, t2);
    PassingMeansNoRegression(a, c, t1 + t2);
  }

  /** Each payload of the chain passes against the one before it. */
  ghost predicate Rebaselined(chain: seq<Payload>, s: Settings) {
    forall i :: 0 <= i < |chain| - 1 ==> Link(chain, i, s)
  }

  ghost predicate Link(chain: seq<Payload>, i: nat, s: Settings)
    requires i < |chain| - 1
  {
    Passes(chain[i], chain[i + 1], s)
  }

  lemma RestRebaselined(chain: seq<Payload>, s: Settings, n: nat)
    requires Rebaselined(chain, s) && n <= |chain|
    ensures Rebaselined(chain[n..], s) && Rebaselined(chain[..n], s)
  {
    var rest, init := chain[n..], chain[..n];
    forall i | 0 <= i < |rest| - 1 ensures Link(rest, i, s) {
      assert Link(chain, n + i, s);
    }
    forall i | 0 <= i < |init| - 1 ensures Link(init, i, s) {
      assert Link(chain, i, s);
    }
  }

  function Drift(n: nat, tolerance: real): real {
    n as real * tolerance
  }

  lemma OneMoreTolerance(n: nat, tolerance: real)
    requires tolerance >= 0.0
    ensures Drift(n, tolerance) >= 0.0 && Drift(n, tolerance) + tolerance == Drift(n + 1, tolerance)
  {
    assert (n + 1) as real == n as real + 1.0;
  }

  /** n re-baselines drift by at most n tolerances. */
  lemma {:induction false} DriftIsBounded(chain: seq<Payload>, tolerance: real)
    requires tolerance >= 0.0 && chain != [] && Rebaselined(chain, Plain(tolerance))
    ensures Passes(chain[0], chain[|chain| - 1], Plain(Drift(|chain| - 1, tolerance)))
    decreases |chain|
  {
    if |chain| == 1 {
      ReflexiveIff(chain[0], 0.0);
    } else {
      var n := |chain| - 2;
      RestRebaselined(chain, Plain(tolerance), |chain| - 1);
      var init := chain[..|chain| - 1];
      DriftIsBounded(init, tolerance);
      assert init[0] == chain[0] && init[|init| - 1] == chain[n];
      assert |init| - 1 == n;
      assert Link(chain, n, Plain(tolerance));
      OneMoreTolerance(n, tolerance);
      Composes(chain[0], chain[n], chain[n + 1], Drift(n, tolerance), tolerance);
    }
  }

  /** The bound is reached: each re-baseline may spend its whole tolerance, so a chain of passing
      gates does not pass end to end at the tolerance of its links. */
  lemma DriftIsReal(tolerance: real)
    requires tolerance > 0.0
    ensures exists a, b, c :: Passes(a, b, Plain(tolerance)) && Passes(b, c, Plain(tolerance)) && !Passes(a, c, Plain(tolerance))
  {
    var a, b, c := Payload(2.0 * tolerance, 0.0, map[]), Payload(tolerance, 0.0, map[]), Payload(0.0, 0.0, map[]);
    PassingMeansNoRegression(a, b, tolerance);
    PassingMeansNoRegression(b, c, tolerance);
    PassingMeansNoRegression(a, c, tolerance);
  }

  /** A bucket once clean stays present and clean through every re-baseline, whatever the settings. */
  lemma {:induction false} CleanStaysClean(chain: seq<Payload>, s: Settings, bucket: Bucket)
    requires chain != [] && Rebaselined(chain, s)
    requires bucket in chain[0].buckets && chain[0].buckets[bucket].Clean()
    ensures forall p :: p in chain ==> bucket in p.buckets && p.buckets[bucket].Clean()
    decreases |chain|
  {
    if |chain| > 1 {
      assert Link(chain, 0, s);
      assert !Fails(chain[0], chain[1], s, Missing(bucket)) && !Fails(chain[0], chain[1], s, NoLongerClean(bucket));
      RestRebaselined(chain, s, 1);
      CleanStaysClean(chain[1..], s, bucket);
      assert chain == [chain[0]] + chain[1..];
    }
  }

  /** A bucket that was absent from some baseline enters clean and therefore stays clean. */
  lemma NewBucketsEnterClean(chain: seq<Payload>, s: Settings, n: nat, bucket: Bucket)
    requires Rebaselined(chain, s) && n + 1 < |chain|
    requires bucket !in chain[n].buckets && bucket in chain[n + 1].buckets
    ensures forall p :: p in chain[n + 1..] ==> bucket in p.buckets && p.buckets[bucket].Clean()
  {
    assert Link(chain, n, s);
    assert !Fails(chain[n], chain[n + 1], s, NewErrors(bucket));
    RestRebaselined(chain, s, n + 1);
    CleanStaysClean(chain[n + 1..], s, bucket);
  }
}
