/** The contamination gate of one repository. */
module ContaminationGate {
  import opened Arithmetic
  import opened Counting
  import opened CategoryOracle
  import opened Rounding
  import RM = RenderedMap

  // _score_rendered, _breakdown and run_contamination of evaluation/exit_gates/sg201_contamination.py, and
  // gate_verdict of evaluation/exit_gates/common.py. Percentages are exact reals rounded to three
  // decimals, ties to even.

  datatype Option<T> = None | Some(value: T)

  datatype Verdict = Pass | Fail | InsufficientSampling | NotEvaluable | ParseMismatch

  /** GATE_FLOOR: contamination must be strictly below 2%. */
  const GATE_FLOOR := 0.02

  // ---- Scoring what was rendered ----------------------------------------------------------

  type CategoryOf = string -> Category

  function Size(m: RM.Rendered, f: string): int {
    if f in m.symbols then |m.symbols[f]| else 0
  }

  /** How many symbols a file adds to one category, and to the contaminated ones. */
  function InCategory(m: RM.Rendered, oracle: CategoryOf, c: Category): string -> int {
    InClassWeight(oracle, c, SizeOf(m))
  }

  function SizeOf(m: RM.Rendered): string -> int {
    f => Size(m, f)
  }

  function IfContaminated(m: RM.Rendered, oracle: CategoryOf): string -> int {
    f => if Contaminated(oracle(f)) then Size(m, f) else 0
  }

  ghost function SymbolsOf(m: RM.Rendered, oracle: CategoryOf, c: Category): int {
    SumOver(m.symbols.Keys, InCategory(m, oracle, c))
  }

  ghost function Contaminants(m: RM.Rendered, oracle: CategoryOf): int {
    SumOver(m.symbols.Keys, IfContaminated(m, oracle))
  }

  /** Symbols per category, as _breakdown accumulates them. */
  method Breakdown(m: RM.Rendered, oracle: CategoryOf) returns (out: map<Category, nat>)
    ensures forall c: Category :: (if c in out then out[c] else 0) == SymbolsOf(m, oracle, c)
  {
    out := map[];
    var todo := m.symbols.Keys;
    ghost var done: set<string> := {};
    while todo != {}
      invariant done + todo == m.symbols.Keys && done !! todo
      invariant forall c: Category :: (if c in out then out[c] else 0) == SumOver(done, InCategory(m, oracle, c))
      decreases todo
    {
      var f :| f in todo;
      var cat := oracle(f);
      OneMoreFile(m, oracle, done, f);
      out := out[cat := (if cat in out then out[cat] else 0) + |m.symbols[f]|];
      todo, done := todo - {f}, done + {f};
    }
    assert done == m.symbols.Keys;
  }

  lemma OneMoreFile(m: RM.Rendered, oracle: CategoryOf, done: set<string>, f: string)
    requires f !in done
    ensures forall c: Category :: SumOver(done + {f}, InCategory(m, oracle, c))
                                  == SumOver(done, InCategory(m, oracle, c)) + InCategory(m, oracle, c)(f)
  {
    forall c: Category ensures SumOver(done + {f}, InCategory(m, oracle, c))
                               == SumOver(done, InCategory(m, oracle, c)) + InCategory(m, oracle, c)(f) {
      SumOverOneMore(done, InCategory(m, oracle, c), f);
    }
  }

  const ALL: set<Category> := {Production, Test, Fixture, Vendor, Generated, Docs, Tooling}

  lemma EveryCategory(c: Category)
    ensures c in ALL
  {
  }

  /** The breakdown loses nothing: over all categories it adds up to the symbol count, over fixture
      and vendor to the contaminated symbols, which are between none and all. */
  lemma BreakdownAddsUp(m: RM.Rendered, oracle: CategoryOf)
    ensures SumOver(ALL, ClassTotals(m.symbols.Keys, oracle, SizeOf(m))) == RM.SymbolCount(m)
    ensures SymbolsOf(m, oracle, Fixture) + SymbolsOf(m, oracle, Vendor) == Contaminants(m, oracle)
    ensures 0 <= Contaminants(m, oracle) <= RM.SymbolCount(m)
  {
    var keys := m.symbols.Keys;
    forall f | f in keys ensures oracle(f) in ALL { EveryCategory(oracle(f)); }
    SumByClass(keys, ALL, oracle, SizeOf(m));
    SumOverAgree(keys, SizeOf(m), f => if f in m.symbols then |m.symbols[f]| else 0);
    SumOverPlus(keys, InCategory(m, oracle, Fixture), InCategory(m, oracle, Vendor), IfContaminated(m, oracle));
    SumOverBetween(keys, IfContaminated(m, oracle), SizeOf(m));
  }

  lemma {:induction false} SumOverBetween<K(!new)>(keys: set<K>, f: K -> int, g: K -> int)
    requires forall k :: k in keys ==> 0 <= f(k) <= g(k)
    ensures 0 <= SumOver(keys, f) <= SumOver(keys, g)
    decreases |keys|
  {
    if keys != {} {
      var k :| k in keys;
      SumOverRemove(keys, f, k);
      SumOverRemove(keys, g, k);
      SumOverBetween(keys - {k}, f, g);
    }
  }

  // ---- Rounding ---------------------------------------------------------------------------

  /** Rounding to three decimals, ties to even. */
  function Round3(x: real): real {
    RoundHalfEven(x * 1000.0) as real / 1000.0
  }

  /** The published percentage, to three decimals; none when nothing was rendered. */
  function Percentage(part: nat, whole: nat): Option<real> {
    if whole == 0 then None else Some(Round3(part as real / whole as real * 100.0))
  }

  /** Rounding errs on the safe side: the published percentage is below 2 exactly when the true ratio
      is below 1.9995%, and then it is below 2%. */
  lemma UnderFloorMeans(part: nat, whole: nat)
    requires whole > 0
    ensures Percentage(part, whole).value / 100.0 < GATE_FLOOR <==> 200000 * part < 3999 * whole
    ensures Percentage(part, whole).value / 100.0 < GATE_FLOOR ==> 50 * part < whole
  {
    var ratio := part as real / whole as real;
    var x := ratio * 100.0 * 1000.0;
    RoundBelowIff(x, 2000);
    assert ratio * whole as real == part as real;
    RatioBelow(ratio, part as real, whole as real);
    IntegersCompare(part, whole);
  }

  // ---- The gate of one repository -----------------------------------------------------------

  datatype Run = Run(budget: int, control: bool, rendered: nat, contaminated: nat, percent: Option<real>)

  datatype Gate = Gate(verdict: Verdict, passed: Option<bool>)

  /** gate_verdict: the caller's False is final, then sampling, then the caller's None, then the metric. */
  function GateVerdict(passed: Option<bool>, minDenominator: int, denominator: int, metric: Option<real>,
                       floor: real, upperBound: bool): Gate {
    if passed == Some(false) then Gate(Fail, Some(false))
    else if denominator < minDenominator then Gate(InsufficientSampling, None)
    else if passed.None? then Gate(NotEvaluable, None)
    else
      var ok := metric.Some? && if upperBound then metric.value < floor else metric.value >= floor;
      Gate(if ok then Pass else Fail, Some(ok))
  }

  /** Each verdict, and the flag beside it, by what the caller decided, the samples and the metric. */
  lemma VerdictsMean(passed: Option<bool>, minDenominator: int, denominator: int, metric: Option<real>,
                     floor: real, upperBound: bool)
    ensures var g := GateVerdict(passed, minDenominator, denominator, metric, floor, upperBound);
            var clears := metric.Some? && (upperBound ==> metric.value < floor) && (!upperBound ==> floor <= metric.value);
            && (g.verdict == Fail <==> passed == Some(false) || (denominator >= minDenominator && passed == Some(true) && !clears))
            && (g.verdict == InsufficientSampling <==> passed != Some(false) && denominator < minDenominator)
            && (g.verdict == NotEvaluable <==> passed.None? && denominator >= minDenominator)
            && (g.verdict == Pass <==> passed == Some(true) && denominator >= minDenominator && clears)
            && g.verdict != ParseMismatch
            && g.passed == (match g.verdict case Pass => Some(true) case Fail => Some(false) case _ => None)
  {
    match passed
    case None =>
    case Some(flag) => if flag { assert passed == Some(true); } else { assert passed == Some(false); }
  }

  function DefaultRuns(runs: seq<Run>): seq<Run> {
    Filter(runs, (r: Run) => !r.control)
  }

  /** The first run of the largest budget. */
  function Primary(runs: seq<Run>): (p: Run)
    requires runs != []
    ensures p in runs && forall r :: r in runs ==> r.budget <= p.budget
  {
    if |runs| == 1 then runs[0]
    else
      var best := Primary(runs[..|runs| - 1]);
      var last := runs[|runs| - 1];
      assert runs == runs[..|runs| - 1] + [last];
      if last.budget > best.budget then last else best
  }

  predicate UnderFloor(r: Run) {
    r.percent.Some? && r.percent.value / 100.0 < GATE_FLOOR
  }

  /** The gate part of run_contamination; max() of no default run raises. */
  function GateOf(runs: seq<Run>, mismatched: bool, minSymbols: int): Option<Gate> {
    var default := DefaultRuns(runs);
    if default == [] then None
    else
      var primary := Primary(default);
      var sufficient := Filter(default, (r: Run) => r.rendered >= minSymbols);
      var allUnder := forall r :: r in sufficient ==> UnderFloor(r);
      var flag := if mismatched || sufficient == [] then Option.None else Some(allUnder);
      var metric := match primary.percent { case None => Option.None case Some(p) => Some(p / 100.0) };
      var gate := GateVerdict(flag, minSymbols, primary.rendered, metric, GATE_FLOOR, true);
      Some(if mismatched then Gate(ParseMismatch, Some(false)) else gate)
  }

  ghost predicate Scored(r: Run) {
    r.contaminated <= r.rendered && r.percent == Percentage(r.contaminated, r.rendered)
  }

  /** A repository passes exactly when nothing was misparsed, the run of the largest budget has enough
      symbols, and every default run with enough symbols is below 1.9995% contaminated. */
  lemma PassIff(runs: seq<Run>, mismatched: bool, minSymbols: int)
    requires DefaultRuns(runs) != [] && forall r :: r in runs ==> Scored(r)
    ensures GateOf(runs, mismatched, minSymbols).value.verdict == Pass <==>
            && !mismatched
            && Primary(DefaultRuns(runs)).rendered >= minSymbols
            && forall r :: r in runs && !r.control && r.rendered >= minSymbols ==>
                 r.rendered > 0 && 200000 * r.contaminated < 3999 * r.rendered
  {
    GatePasses(runs, mismatched, minSymbols);
    forall r | r in runs { UnderFloorIff(r); }
  }

  lemma UnderFloorIff(r: Run)
    requires Scored(r)
    ensures UnderFloor(r) <==> r.rendered > 0 && 200000 * r.contaminated < 3999 * r.rendered
  {
    if r.rendered > 0 { UnderFloorMeans(r.contaminated, r.rendered); }
  }

  lemma GatePasses(runs: seq<Run>, mismatched: bool, minSymbols: int)
    requires DefaultRuns(runs) != []
    ensures GateOf(runs, mismatched, minSymbols).value.verdict == Pass <==>
            && !mismatched
            && Primary(DefaultRuns(runs)).rendered >= minSymbols
            && forall r :: r in runs && !r.control && r.rendered >= minSymbols ==> UnderFloor(r)
  {
    SufficientRuns(runs, minSymbols);
    var primary := Primary(DefaultRuns(runs));
    assert primary in DefaultRuns(runs);
    FilterMember(DefaultRuns(runs), (r: Run) => r.rendered >= minSymbols);
  }

  lemma SufficientRuns(runs: seq<Run>, minSymbols: int)
    ensures forall r :: r in Filter(DefaultRuns(runs), (r: Run) => r.rendered >= minSymbols)
                        <==> r in runs && !r.control && r.rendered >= minSymbols
  {
    FilterMember(runs, (r: Run) => !r.control);
    FilterMember(DefaultRuns(runs), (r: Run) => r.rendered >= minSymbols);
  }

  /** A run with enough symbols of which at least 1.9995% are contaminated, or with none at all. */
  predicate Tainted(r: Run, minSymbols: int) {
    r.rendered >= minSymbols && (r.rendered == 0 || 200000 * r.contaminated >= 3999 * r.rendered)
  }

  predicate SomeTainted(runs: seq<Run>, minSymbols: int) {
    exists r :: r in runs && !r.control && Tainted(r, minSymbols)
  }

  /** The run of the largest budget, control runs aside, has enough symbols. */
  predicate Sampled(runs: seq<Run>, minSymbols: int)
    requires DefaultRuns(runs) != []
  {
    Primary(DefaultRuns(runs)).rendered >= minSymbols
  }

  /** Every verdict a repository can get, and when: a mismatch comes first, then a tainted run, then too
      few symbols; it passes in all other cases and is never left without a verdict. */
  predicate GateFits(g: Gate, runs: seq<Run>, mismatched: bool, minSymbols: int)
    requires DefaultRuns(runs) != []
  {
    && (g.verdict == ParseMismatch <==> mismatched)
    && (g.verdict == Fail <==> !mismatched && SomeTainted(runs, minSymbols))
    && (g.verdict == InsufficientSampling <==> !mismatched && !SomeTainted(runs, minSymbols) && !Sampled(runs, minSymbols))
    && (g.verdict == Pass <==> !mismatched && !SomeTainted(runs, minSymbols) && Sampled(runs, minSymbols))
    && (g.passed == Some(true) <==> g.verdict == Pass)
    && (g.passed == Some(false) <==> g.verdict == Fail || g.verdict == ParseMismatch)
  }

  lemma GateIs(runs: seq<Run>, mismatched: bool, minSymbols: int)
    requires DefaultRuns(runs) != [] && forall r :: r in runs ==> Scored(r)
    ensures GateFits(GateOf(runs, mismatched, minSymbols).value, runs, mismatched, minSymbols)
  {
    TaintedRuns(runs, minSymbols);
    PrimaryDecides(runs, minSymbols);
  }

  /** The largest run is among the sufficient ones if it is large enough, and held to the same floor. */
  lemma PrimaryDecides(runs: seq<Run>, minSymbols: int)
    requires DefaultRuns(runs) != []
    ensures var sufficient := Filter(DefaultRuns(runs), (r: Run) => r.rendered >= minSymbols);
            && (Sampled(runs, minSymbols) ==> sufficient != [])
            && (Sampled(runs, minSymbols) && (forall r :: r in sufficient ==> UnderFloor(r)) ==> UnderFloor(Primary(DefaultRuns(runs))))
  {
    var primary := Primary(DefaultRuns(runs));
    assert primary in DefaultRuns(runs);
    FilterMember(DefaultRuns(runs), (r: Run) => r.rendered >= minSymbols);
  }

  lemma TaintedRuns(runs: seq<Run>, minSymbols: int)
    requires forall r :: r in runs ==> Scored(r)
    ensures (forall r :: r in Filter(DefaultRuns(runs), (r: Run) => r.rendered >= minSymbols) ==> UnderFloor(r))
            <==> !SomeTainted(runs, minSymbols)
  {
    SufficientRuns(runs, minSymbols);
    forall r | r in runs { UnderFloorIff(r); }
  }

  /** Hence a pass puts every adequately sampled default run strictly below two percent. */
  lemma PassMeansBelowTwoPercent(runs: seq<Run>, mismatched: bool, minSymbols: int, r: Run)
    requires DefaultRuns(runs) != [] && forall r :: r in runs ==> Scored(r)
    requires GateOf(runs, mismatched, minSymbols).value.verdict == Pass
    requires r in runs && !r.control && r.rendered >= minSymbols
    ensures 50 * r.contaminated < r.rendered
  {
    PassIff(runs, mismatched, minSymbols);
  }

  ghost predicate EveryRunSampled(runs: seq<Run>, minSymbols: int) {
    forall r :: r in runs && !r.control ==> r.rendered >= minSymbols
  }

  // ---- Measuring one repository --------------------------------------------------------------

  /** What build_repo_map returns for one budget. */
  datatype MapResult = MapResult(text: string, symbols: int, files: set<string>)

  datatype Mismatch = SymbolCountDiffers(budget: int) | FileSetDiffers(budget: int)

  datatype Report = Report(runs: seq<Run>, mismatches: seq<Mismatch>, gate: Gate)

  type Builder = int -> MapResult

  ghost predicate IsScoreOf(r: Run, m: RM.Rendered, oracle: CategoryOf, budget: int, control: bool) {
    && r.budget == budget && r.control == control
    && r.rendered == RM.SymbolCount(m) && r.contaminated == Contaminants(m, oracle)
    && r.percent == Percentage(r.contaminated, r.rendered)
  }

  /** _score_rendered, as far as the gate reads it. */
  method ScoreRendered(m: RM.Rendered, oracle: CategoryOf, budget: int, control: bool) returns (r: Run)
    ensures IsScoreOf(r, m, oracle, budget, control) && Scored(r)
  {
    var rendered, contaminated := 0, 0;
    var todo := m.symbols.Keys;
    ghost var done: set<string> := {};
    while todo != {}
      invariant done + todo == m.symbols.Keys && done !! todo
      invariant rendered == SumOver(done, SizeOf(m)) && contaminated == SumOver(done, IfContaminated(m, oracle))
      decreases todo
    {
      var f :| f in todo;
      SumOverOneMore(done, SizeOf(m), f);
      SumOverOneMore(done, IfContaminated(m, oracle), f);
      rendered := rendered + |m.symbols[f]|;
      if Contaminated(oracle(f)) {
        contaminated := contaminated + |m.symbols[f]|;
      }
      todo, done := todo - {f}, done + {f};
    }
    assert done == m.symbols.Keys;
    SumOverAgree(done, SizeOf(m), f => if f in m.symbols then |m.symbols[f]| else 0);
    BreakdownAddsUp(m, oracle);
    r := Run(budget, control, rendered, contaminated, Percentage(contaminated, rendered));
  }

  predicate Misparses(build: Builder, buildAll: Builder, includeControl: bool, budget: int) {
    RM.Parse(build(budget).text).ParseError? || (includeControl && RM.Parse(buildAll(budget).text).ParseError?)
  }

  ghost predicate ScoresText(r: Run, build: Builder, oracle: CategoryOf, budget: int) {
    var parsed := RM.Parse(build(budget).text);
    parsed.Ok? && IsScoreOf(r, parsed.map_, oracle, budget, false)
  }

  /** A default run that agrees with the map result it was parsed from. */
  ghost predicate Faithful(r: Run, built: MapResult, oracle: CategoryOf) {
    var parsed := RM.Parse(built.text);
    && parsed.Ok? && IsScoreOf(r, parsed.map_, oracle, r.budget, r.control)
    && RM.SymbolCount(parsed.map_) == built.symbols
    && (set f | f in parsed.map_.files) == built.files
  }

  /** run_contamination: every budget is built, parsed independently, cross-checked and scored, with a
      control run beside it if wanted; a text that does not parse, and no budget at all, raise. */
  method RunContamination(budgets: seq<int>, build: Builder, buildAll: Builder, oracle: CategoryOf,
                          minSymbols: int, includeControl: bool) returns (r: Option<Report>)
    ensures r.None? <==> budgets == [] || exists b :: b in budgets && Misparses(build, buildAll, includeControl, b)
    ensures r.Some? ==> GateOf(r.value.runs, r.value.mismatches != [], minSymbols) == Some(r.value.gate)
    ensures r.Some? ==> RunsOn(budgets, build, oracle, r.value.runs, r.value.mismatches)
    ensures r.Some? ==> DefaultRuns(r.value.runs) != []
                        && GateFits(r.value.gate, r.value.runs, r.value.mismatches != [], minSymbols)
    ensures r.Some? ==> forall b :: b in budgets ==> RM.Parse(build(b).text).Ok?
    ensures r.Some? ==> (r.value.mismatches == [] <==> forall b :: b in budgets ==>
              RM.SymbolCount(RM.Parse(build(b).text).map_) == build(b).symbols
              && (set f | f in RM.Parse(build(b).text).map_.files) == build(b).files)
  {
    var made := RunBudgets(budgets, build, buildAll, oracle, includeControl);
    match made {
      case None => r := None;
      case Some(m) =>
        if budgets != [] {
          GateIs(m.0, m.1 != [], minSymbols);
        }
        MismatchesMean(budgets, build, oracle, m.0, m.1);
        var gate := GateOf(m.0, m.1 != [], minSymbols);
        r := match gate { case None => None case Some(g) => Some(Report(m.0, m.1, g)) };
    }
  }

  lemma MismatchesMean(budgets: seq<int>, build: Builder, oracle: CategoryOf, runs: seq<Run>, mismatches: seq<Mismatch>)
    requires RunsOn(budgets, build, oracle, runs, mismatches)
    ensures forall b :: b in budgets ==> RM.Parse(build(b).text).Ok?
    ensures mismatches == [] <==> forall b :: b in budgets ==>
              RM.SymbolCount(RM.Parse(build(b).text).map_) == build(b).symbols
              && (set f | f in RM.Parse(build(b).text).map_.files) == build(b).files
  {
    var default := DefaultRuns(runs);
    forall i | 0 <= i < |budgets|
      ensures RM.Parse(build(budgets[i]).text).Ok?
      ensures Faithful(default[i], build(budgets[i]), oracle)
              <==> RM.SymbolCount(RM.Parse(build(budgets[i]).text).map_) == build(budgets[i]).symbols
                   && (set f | f in RM.Parse(build(budgets[i]).text).map_.files) == build(budgets[i]).files
    {
      assert ScoresText(default[i], build, oracle, budgets[i]);
    }
  }

  method RunBudgets(budgets: seq<int>, build: Builder, buildAll: Builder, oracle: CategoryOf, includeControl: bool)
    returns (r: Option<(seq<Run>, seq<Mismatch>)>)
    ensures r.None? <==> exists b :: b in budgets && Misparses(build, buildAll, includeControl, b)
    ensures r.Some? ==> RunsOn(budgets, build, oracle, r.value.0, r.value.1)
  {
    var runs, mismatches := [], [];
    FoldedMeans([], build, oracle, runs, mismatches);
    for i := 0 to |budgets|
      invariant forall j :: 0 <= j < i ==> !Misparses(build, buildAll, includeControl, budgets[j])
      invariant Folded(budgets[..i], build, oracle, runs, mismatches)
    {
      var b := budgets[i];
      PrefixSnoc(budgets, i);
      var made := RunBudget(budgets[..i], b, build, buildAll, oracle, includeControl, runs, mismatches);
      if made.None? {
        assert b in budgets;
        return None;
      }
      runs, mismatches := made.value.0, made.value.1;
    }
    assert budgets[..|budgets|] == budgets;
    FoldedMeans(budgets, build, oracle, runs, mismatches);
    r := Some((runs, mismatches));
  }

  method RunBudget(ghost done: seq<int>, b: int, build: Builder, buildAll: Builder, oracle: CategoryOf,
                   includeControl: bool, runs: seq<Run>, mismatches: seq<Mismatch>)
    returns (r: Option<(seq<Run>, seq<Mismatch>)>)
    requires Folded(done, build, oracle, runs, mismatches)
    ensures r.None? <==> Misparses(build, buildAll, includeControl, b)
    ensures r.Some? ==> Folded(done + [b], build, oracle, r.value.0, r.value.1)
  {
    var measured := MeasureBudget(b, build, buildAll, oracle, includeControl);
    if measured.None? {
      return None;
    }
    var found, run, control := measured.value.mismatches, measured.value.run, measured.value.control;
    FoldedMeans(done, build, oracle, runs, mismatches);
    RunsOnSnoc(done, build, oracle, runs, mismatches, b, run, control, found);
    FoldedMeans(done + [b], build, oracle, runs + [run] + control, mismatches + found);
    r := Some((runs + [run] + control, mismatches + found));
  }

  /** The runs made for the budgets in `done`: every run scored, one default run a budget, scored on the
      text built for it, and no mismatch iff all of them agree with what the builder said. */
  ghost predicate RunsOn(done: seq<int>, build: Builder, oracle: CategoryOf, runs: seq<Run>, mismatches: seq<Mismatch>) {
    && (forall run :: run in runs ==> Scored(run))
    && |DefaultRuns(runs)| == |done|
    && AllScored(DefaultRuns(runs), done, build, oracle)
    && (mismatches == [] <==> AllFaithful(DefaultRuns(runs), done, build, oracle))
  }

  ghost predicate AllScored(default: seq<Run>, done: seq<int>, build: Builder, oracle: CategoryOf)
    requires |default| == |done|
  {
    forall j :: 0 <= j < |done| ==> ScoresText(default[j], build, oracle, done[j])
  }

  ghost predicate AllFaithful(default: seq<Run>, done: seq<int>, build: Builder, oracle: CategoryOf)
    requires |default| == |done|
  {
    forall j :: 0 <= j < |done| ==> Faithful(default[j], build(done[j]), oracle)
  }

  lemma OneMoreDefault(default: seq<Run>, done: seq<int>, build: Builder, oracle: CategoryOf, run: Run, b: int)
    requires |default| == |done|
    ensures AllScored(default + [run], done + [b], build, oracle)
            <==> AllScored(default, done, build, oracle) && ScoresText(run, build, oracle, b)
    ensures AllFaithful(default + [run], done + [b], build, oracle)
            <==> AllFaithful(default, done, build, oracle) && Faithful(run, build(b), oracle)
  {
    var runs, all, n := default + [run], done + [b], |done|;
    assert runs[n] == run && all[n] == b;
    forall j | 0 <= j < n ensures runs[j] == default[j] && all[j] == done[j] {}
  }

  /** RunsOn, but only looked into where the budgets are mentioned as Opened: the loop has no use for what
      every single run was scored on. */
  ghost predicate Folded(done: seq<int>, build: Builder, oracle: CategoryOf, runs: seq<Run>, mismatches: seq<Mismatch>) {
    forall d {:trigger Opened(d)} :: Opened(d) && d == done ==> RunsOn(d, build, oracle, runs, mismatches)
  }

  ghost predicate Opened(done: seq<int>) {
    true
  }

  lemma FoldedMeans(done: seq<int>, build: Builder, oracle: CategoryOf, runs: seq<Run>, mismatches: seq<Mismatch>)
    ensures Folded(done, build, oracle, runs, mismatches) <==> RunsOn(done, build, oracle, runs, mismatches)
  {
    assert Opened(done);
  }

  lemma RunsOnSnoc(done: seq<int>, build: Builder, oracle: CategoryOf, runs: seq<Run>, mismatches: seq<Mismatch>,
                   b: int, run: Run, control: seq<Run>, found: seq<Mismatch>)
    requires RunsOn(done, build, oracle, runs, mismatches)
    requires !run.control && ScoresText(run, build, oracle, b) && Scored(run)
    requires found == [] <==> Faithful(run, build(b), oracle)
    requires |control| <= 1 && forall c :: c in control ==> c.control && Scored(c)
    ensures RunsOn(done + [b], build, oracle, runs + [run] + control, mismatches + found)
  {
    DefaultAfter(runs, run, control);
    OneMoreDefault(DefaultRuns(runs), done, build, oracle, run, b);
  }

  datatype Measured = Measured(mismatches: seq<Mismatch>, run: Run, control: seq<Run>)

  lemma DefaultAfter(runs: seq<Run>, run: Run, control: seq<Run>)
    requires !run.control && |control| <= 1 && forall c :: c in control ==> c.control
    ensures DefaultRuns(runs + [run] + control) == DefaultRuns(runs) + [run]
  {
    FilterSnoc(runs, run, (r: Run) => !r.control);
    if |control| == 1 {
      assert control == [control[0]];
      FilterSnoc(runs + [run], control[0], (r: Run) => !r.control);
    } else {
      assert runs + [run] + control == runs + [run];
    }
  }

  /** One budget: the default run, cross-checked, and the control run if it is wanted. */
  method MeasureBudget(b: int, build: Builder, buildAll: Builder, oracle: CategoryOf, includeControl: bool)
    returns (r: Option<Measured>)
    ensures r.None? <==> Misparses(build, buildAll, includeControl, b)
    ensures r.Some? ==> ScoresText(r.value.run, build, oracle, b) && Scored(r.value.run)
    ensures r.Some? ==> (r.value.mismatches == [] <==> Faithful(r.value.run, build(b), oracle))
    ensures r.Some? ==> |r.value.control| == (if includeControl then 1 else 0)
                        && forall c :: c in r.value.control ==> c.control && Scored(c)
  {
    var built := build(b);
    var parsed := RM.ParseRenderedMap(built.text);
    if parsed.ParseError? {
      return None;
    }
    var mismatches := [];
    var run := ScoreRendered(parsed.map_, oracle, b, false);
    if run.rendered != built.symbols {
      mismatches := mismatches + [SymbolCountDiffers(b)];
    }
    if (set f | f in parsed.map_.files) != built.files {
      mismatches := mismatches + [FileSetDiffers(b)];
    }
    if !includeControl {
      return Some(Measured(mismatches, run, []));
    }
    var all := RM.ParseRenderedMap(buildAll(b).text);
    if all.ParseError? {
      return None;
    }
    var control := ScoreRendered(all.map_, oracle, b, true);
    return Some(Measured(mismatches, run, [control]));
  }

  // ---- Whether a pass samples every run -------------------------------------------------------

  ghost predicate Passes(runs: seq<Run>, minSymbols: int) {
    var gate := GateOf(runs, false, minSymbols);
    gate.Some? && gate.value.verdict == Pass
  }

  ghost predicate SampledWhenPassing(budgets: seq<int>, build: Builder, oracle: CategoryOf, minSymbols: int) {
    forall runs :: RunsOn(budgets, build, oracle, runs, []) && Passes(runs, minSymbols) ==>
      EveryRunSampled(runs, minSymbols)
  }

  ghost predicate AllEqual(budgets: seq<int>) {
    forall i, j :: 0 <= i < |budgets| && 0 <= j < |budgets| ==> budgets[i] == budgets[j]
  }

  /** The documented protocol says that a pass requires every default run to have the minimum number of
      symbols. The gate demands it of the largest budget only. So for a positive minimum the claim holds
      of a list of budgets, whatever maps are built, if and only if all its budgets are equal. The oracle
      need only call one path clean. */
  lemma EveryRunSampledOnlyForEqualBudgets(budgets: seq<int>, oracle: CategoryOf, minSymbols: int, clean: string)
    requires budgets != [] && minSymbols > 0
    requires RM.GoodPath(clean) && clean[0] != '(' && !Contaminated(oracle(clean))
    ensures (forall build :: SampledWhenPassing(budgets, build, oracle, minSymbols)) <==> AllEqual(budgets)
  {
    if AllEqual(budgets) {
      forall build ensures SampledWhenPassing(budgets, build, oracle, minSymbols) {
        EqualBudgetsSample(budgets, build, oracle, minSymbols);
      }
    } else {
      var top := LargestBudget(budgets);
      var build := LargeOnly(budgets[top], clean, minSymbols);
      var runs := LargeRuns(budgets, budgets[top], minSymbols);
      LargeRunsPass(budgets, top, oracle, minSymbols, clean);
      LargeRunsUnsampled(budgets, top, minSymbols);
      assert !SampledWhenPassing(budgets, build, oracle, minSymbols);
    }
  }

  lemma EqualBudgetsSample(budgets: seq<int>, build: Builder, oracle: CategoryOf, minSymbols: int)
    requires budgets != [] && AllEqual(budgets)
    ensures SampledWhenPassing(budgets, build, oracle, minSymbols)
  {
    forall runs | RunsOn(budgets, build, oracle, runs, []) && Passes(runs, minSymbols)
      ensures EveryRunSampled(runs, minSymbols)
    {
      var default := DefaultRuns(runs);
      PassIff(runs, false, minSymbols);
      FilterMember(runs, (r: Run) => !r.control);
      var p :| 0 <= p < |default| && default[p] == Primary(default);
      forall r: Run | r in runs && !r.control ensures r.rendered >= minSymbols {
        var i :| 0 <= i < |default| && default[i] == r;
        assert ScoresText(default[i], build, oracle, budgets[i]) && ScoresText(default[p], build, oracle, budgets[p]);
      }
    }
  }

  /** A largest budget. */
  lemma {:induction false} LargestBudget(budgets: seq<int>) returns (top: nat)
    requires budgets != []
    ensures top < |budgets| && forall i :: 0 <= i < |budgets| ==> budgets[i] <= budgets[top]
    decreases |budgets|
  {
    top := 0;
    var n := |budgets| - 1;
    if n > 0 {
      top := LargestBudget(budgets[..n]);
      forall i | 0 <= i < n ensures budgets[..n][i] == budgets[i] {}
      if budgets[n] > budgets[top] { top := n; }
    }
  }

  /** The map of one file with n symbols. */
  function OneFile(path: string, n: nat): RM.Rendered {
    RM.Rendered([path], map[path := seq(n, _ => "s")])
  }

  /** Renders one clean file for the largest budget, and nothing for any other. */
  function LargeOnly(largest: int, clean: string, n: nat): Builder {
    b => if b == largest then MapResult(RM.Print(OneFile(clean, n), []), n, {clean}) else MapResult("", 0, {})
  }

  function RunOfSize(budget: int, rendered: nat): Run {
    Run(budget, false, rendered, 0, Percentage(0, rendered))
  }

  function LargeRuns(budgets: seq<int>, largest: int, n: nat): seq<Run> {
    seq(|budgets|, i requires 0 <= i < |budgets| => RunOfSize(budgets[i], if budgets[i] == largest then n else 0))
  }

  lemma LargeRunsUnsampled(budgets: seq<int>, top: nat, minSymbols: nat)
    requires !AllEqual(budgets) && minSymbols > 0 && top < |budgets|
    ensures !EveryRunSampled(LargeRuns(budgets, budgets[top], minSymbols), minSymbols)
  {
    var runs := LargeRuns(budgets, budgets[top], minSymbols);
    var i, j :| 0 <= i < |budgets| && 0 <= j < |budgets| && budgets[i] != budgets[j];
    var low := if budgets[i] == budgets[top] then j else i;
    assert runs[low] in runs;
  }

  lemma OneFileScores(oracle: CategoryOf, clean: string, n: nat)
    requires RM.GoodPath(clean) && clean[0] != '(' && !Contaminated(oracle(clean))
    ensures var m := OneFile(clean, n);
            && RM.Parse(RM.Print(m, [])) == RM.Ok(m)
            && RM.SymbolCount(m) == n && Contaminants(m, oracle) == 0 && (set f | f in m.files) == {clean}
  {
    var m := OneFile(clean, n);
    assert RM.GoodSymbol("s");
    RM.RoundTripIff(m, []);
    SumOverSingle(m.symbols.Keys, f => if f in m.symbols then |m.symbols[f]| else 0, clean);
    SumOverZero(m.symbols.Keys, IfContaminated(m, oracle));
  }

  lemma NothingScores(oracle: CategoryOf)
    ensures RM.Parse("") == RM.Ok(RM.EMPTY)
    ensures RM.SymbolCount(RM.EMPTY) == 0 && Contaminants(RM.EMPTY, oracle) == 0
  {
  }

  lemma LargeRunsFaithful(budgets: seq<int>, top: nat, oracle: CategoryOf, minSymbols: nat, clean: string)
    requires top < |budgets|
    requires RM.GoodPath(clean) && clean[0] != '(' && !Contaminated(oracle(clean))
    ensures var build, runs := LargeOnly(budgets[top], clean, minSymbols), LargeRuns(budgets, budgets[top], minSymbols);
            forall i :: 0 <= i < |budgets| ==>
              ScoresText(runs[i], build, oracle, budgets[i]) && Faithful(runs[i], build(budgets[i]), oracle)
  {
    OneFileScores(oracle, clean, minSymbols);
    NothingScores(oracle);
  }

  lemma LargeRunsPass(budgets: seq<int>, top: nat, oracle: CategoryOf, minSymbols: nat, clean: string)
    requires top < |budgets| && minSymbols > 0 && forall i :: 0 <= i < |budgets| ==> budgets[i] <= budgets[top]
    requires RM.GoodPath(clean) && clean[0] != '(' && !Contaminated(oracle(clean))
    ensures var build, runs := LargeOnly(budgets[top], clean, minSymbols), LargeRuns(budgets, budgets[top], minSymbols);
            RunsOn(budgets, build, oracle, runs, []) && Passes(runs, minSymbols)
  {
    AllDefault(LargeRuns(budgets, budgets[top], minSymbols));
    LargeRunsFaithful(budgets, top, oracle, minSymbols, clean);
    LargestPasses(budgets, top, minSymbols);
  }

  lemma LargestPasses(budgets: seq<int>, top: nat, minSymbols: nat)
    requires top < |budgets| && minSymbols > 0 && forall i :: 0 <= i < |budgets| ==> budgets[i] <= budgets[top]
    ensures Passes(LargeRuns(budgets, budgets[top], minSymbols), minSymbols)
  {
    var runs := LargeRuns(budgets, budgets[top], minSymbols);
    AllDefault(runs);
    assert runs[top] in runs;
    assert Primary(runs) in runs;
    PassIff(runs, false, minSymbols);
  }

  lemma {:induction false} AllDefault(runs: seq<Run>)
    requires forall r :: r in runs ==> !r.control
    ensures DefaultRuns(runs) == runs
    decreases |runs|
  {
    if runs != [] {
      var init := runs[..|runs| - 1];
      assert forall r :: r in init ==> r in runs;
      AllDefault(init);
      assert runs[|runs| - 1] in runs;
    }
  }

  /** And run_contamination itself passes there: a report whose verdict is PASS, with an undersampled run. */
  method PassUndersampled(budgets: seq<int>, oracle: CategoryOf, minSymbols: nat, clean: string) returns (r: Report)
    requires budgets != [] && !AllEqual(budgets) && minSymbols > 0
    requires RM.GoodPath(clean) && clean[0] != '(' && !Contaminated(oracle(clean))
    ensures r.mismatches == [] && r.gate.verdict == Pass && !EveryRunSampled(r.runs, minSymbols)
  {
    var top := 0;
    for i := 0 to |budgets|
      invariant 0 <= top < |budgets| && forall j :: 0 <= j < i ==> budgets[j] <= budgets[top]
    {
      if budgets[i] > budgets[top] { top := i; }
    }
    var build := LargeOnly(budgets[top], clean, minSymbols);
    LargeParses(budgets[top], clean, minSymbols, oracle);
    var got := RunContamination(budgets, build, build, oracle, minSymbols, false);
    r := got.value;
    LargeReportsUndersample(budgets, top, oracle, minSymbols, clean, r.runs, r.mismatches);
  }

  lemma LargeParses(largest: int, clean: string, n: nat, oracle: CategoryOf)
    requires RM.GoodPath(clean) && clean[0] != '(' && !Contaminated(oracle(clean))
    ensures forall b :: !Misparses(LargeOnly(largest, clean, n), LargeOnly(largest, clean, n), false, b)
  {
    OneFileScores(oracle, clean, n);
    NothingScores(oracle);
  }

  lemma LargeReportsUndersample(budgets: seq<int>, top: nat, oracle: CategoryOf, minSymbols: nat, clean: string,
                                runs: seq<Run>, mismatches: seq<Mismatch>)
    requires top < |budgets| && minSymbols > 0 && !AllEqual(budgets)
    requires forall i :: 0 <= i < |budgets| ==> budgets[i] <= budgets[top]
    requires RM.GoodPath(clean) && clean[0] != '(' && !Contaminated(oracle(clean))
    requires RunsOn(budgets, LargeOnly(budgets[top], clean, minSymbols), oracle, runs, mismatches)
    ensures mismatches == [] && Passes(runs, minSymbols) && !EveryRunSampled(runs, minSymbols)
  {
    OnlyLargeRuns(budgets, top, oracle, minSymbols, clean, runs, mismatches);
    LargeRunsPass(budgets, top, oracle, minSymbols, clean);
    LargeRunsUnsampled(budgets, top, minSymbols);
    OnlyDefaultsCount(runs, LargeRuns(budgets, budgets[top], minSymbols), minSymbols);
  }

  /** Neither the gate nor the claim looks at control runs. */
  lemma OnlyDefaultsCount(runs: seq<Run>, runs': seq<Run>, minSymbols: int)
    requires DefaultRuns(runs) == DefaultRuns(runs')
    ensures Passes(runs, minSymbols) <==> Passes(runs', minSymbols)
    ensures EveryRunSampled(runs, minSymbols) <==> EveryRunSampled(runs', minSymbols)
  {
    SampledDefaults(runs, minSymbols);
    SampledDefaults(runs', minSymbols);
  }

  lemma SampledDefaults(runs: seq<Run>, minSymbols: int)
    ensures EveryRunSampled(runs, minSymbols) <==> EveryRunSampled(DefaultRuns(runs), minSymbols)
  {
    FilterMember(runs, (r: Run) => !r.control);
  }

  lemma OnlyLargeRuns(budgets: seq<int>, top: nat, oracle: CategoryOf, minSymbols: nat, clean: string,
                      runs: seq<Run>, mismatches: seq<Mismatch>)
    requires top < |budgets|
    requires RM.GoodPath(clean) && clean[0] != '(' && !Contaminated(oracle(clean))
    requires RunsOn(budgets, LargeOnly(budgets[top], clean, minSymbols), oracle, runs, mismatches)
    ensures mismatches == [] && DefaultRuns(runs) == LargeRuns(budgets, budgets[top], minSymbols)
    ensures DefaultRuns(LargeRuns(budgets, budgets[top], minSymbols)) == LargeRuns(budgets, budgets[top], minSymbols)
  {
    var build, large := LargeOnly(budgets[top], clean, minSymbols), LargeRuns(budgets, budgets[top], minSymbols);
    LargeRunsFaithful(budgets, top, oracle, minSymbols, clean);
    AllDefault(large);
    forall i | 0 <= i < |budgets|
      ensures DefaultRuns(runs)[i] == large[i] && Faithful(DefaultRuns(runs)[i], build(budgets[i]), oracle)
    {
      assert ScoresText(DefaultRuns(runs)[i], build, oracle, budgets[i]) && ScoresText(large[i], build, oracle, budgets[i]);
    }
    assert AllFaithful(DefaultRuns(runs), budgets, build, oracle);
  }
}
