/** The fail-closed gate chain over a corpus of pinned repositories. */
module CorpusGate {
  import opened Counting
  import opened ContaminationGate
  import PC = PinnedCheckout

  // measure_repo, aggregate_gate and the measuring loop of scripts/bench_sg201_external_corpus.py.

  /** A declared repository with everything the outside world answers while it is measured. */
  datatype Repo = Repo(
    name: string, sha: string,
    before: PC.Checkout, indexRaises: bool, build: Builder, buildAll: Builder, after: PC.Checkout,
    walkRaises: bool)

  datatype Record = Record(
    name: string, error: bool, report: Option<Report>,
    before: PC.Option<PC.Verification>, after: PC.Option<PC.Verification>)

  datatype Protocol = Protocol(budgets: seq<int>, minSymbols: int, oracle: CategoryOf)

  predicate Pinned(v: PC.Option<PC.Verification>) {
    v.Some? && v.value.verified
  }

  /** What a record without an error vouches for. */
  ghost predicate Sound(repo: Repo, p: Protocol, rec: Record) {
    && Pinned(PC.Verified(repo.before, repo.sha)) && Pinned(PC.Verified(repo.after, repo.sha))
    && rec.report.Some? && Measures(rec.report.value, repo, p)
  }

  /** A report with one scored default run a budget, judged by its own runs; without a mismatch each of them
      agrees with the map it was parsed from. */
  ghost predicate Measures(report: Report, repo: Repo, p: Protocol) {
    && (forall run :: run in report.runs ==> Scored(run))
    && GateOf(report.runs, report.mismatches != [], p.minSymbols) == Some(report.gate)
    && |DefaultRuns(report.runs)| == |p.budgets|
    && (report.mismatches == [] ==>
          forall i :: 0 <= i < |p.budgets| ==> FaithfulFor(DefaultRuns(report.runs)[i], repo, p, p.budgets[i]))
  }

  ghost predicate FaithfulFor(run: Run, repo: Repo, p: Protocol, budget: int) {
    Faithful(run, repo.build(budget), p.oracle) && run.budget == budget && !run.control
  }

  predicate Raises(repo: Repo, p: Protocol) {
    p.budgets == [] || exists b :: b in p.budgets && Misparses(repo.build, repo.buildAll, true, b)
  }

  method Contamination(repo: Repo, p: Protocol) returns (report: Option<Report>)
    ensures report.None? <==> Raises(repo, p)
    ensures report.Some? ==> Measures(report.value, repo, p)
  {
    report := RunContamination(p.budgets, repo.build, repo.buildAll, p.oracle, p.minSymbols, true);
  }

  /** One verification of the pin, and whether the measurement may rely on it. */
  method CheckPin(c: PC.Checkout, sha: string) returns (v: PC.Option<PC.Verification>, pinned: bool)
    ensures v == PC.Verified(c, sha) && pinned == Pinned(v)
  {
    v := PC.VerifyPinnedCheckout(c, sha);
    if v.Some? { PC.VerifiedMeansNoFinding(c, sha); }
    pinned := !(v.None? || v.value.error.Some? || v.value.violations != []);
  }

  /** measure_repo never raises: every failure becomes an error record, and a checkout that is not the
      pinned snapshot before or after the measurement has its report withheld. */
  method MeasureRepo(repo: Repo, p: Protocol) returns (rec: Record)
    ensures rec.name == repo.name
    ensures !rec.error <==>
              && Pinned(PC.Verified(repo.before, repo.sha)) && !repo.indexRaises
              && p.budgets != [] && (forall b :: b in p.budgets ==> !Misparses(repo.build, repo.buildAll, true, b))
              && Pinned(PC.Verified(repo.after, repo.sha)) && !repo.walkRaises
    ensures !rec.error ==> Sound(repo, p, rec)
    ensures rec.report.Some? ==> Pinned(PC.Verified(repo.before, repo.sha)) && Pinned(PC.Verified(repo.after, repo.sha))
  {
    rec := Record(repo.name, false, None, PC.Option.None, PC.Option.None);
    var pre, pinned := CheckPin(repo.before, repo.sha);
    rec := rec.(before := pre);
    if !pinned || repo.indexRaises {
      return rec.(error := true);
    }
    var report := Contamination(repo, p);
    if report.None? {
      return rec.(error := true);
    }
    var post, stillPinned := CheckPin(repo.after, repo.sha);
    rec := rec.(after := post);
    if !stillPinned {
      return rec.(error := true, report := None);
    }
    rec := rec.(report := report, error := repo.walkRaises);
  }

  // ---- The aggregate verdict --------------------------------------------------------------

  datatype Tag = Errored | Judged(verdict: Verdict)

  function TagOf(rec: Record): Tag {
    if rec.error || rec.report.None? then Errored else Judged(rec.report.value.gate.verdict)
  }

  function Tagged(records: seq<Record>, tag: Tag): nat {
    CountIf(records, (r: Record) => TagOf(r) == tag)
  }

  lemma TaggedSnoc(records: seq<Record>, rec: Record)
    ensures forall tag :: Tagged(records + [rec], tag) == Tagged(records, tag) + if TagOf(rec) == tag then 1 else 0
  {
    forall tag ensures Tagged(records + [rec], tag) == Tagged(records, tag) + if TagOf(rec) == tag then 1 else 0 {
      CountSnoc(records, rec, (r: Record) => TagOf(r) == tag);
    }
  }

  function CountOf(counts: map<Tag, nat>, tag: Tag): nat {
    if tag in counts then counts[tag] else 0
  }

  method CountTags(records: seq<Record>) returns (counts: map<Tag, nat>)
    ensures forall tag :: CountOf(counts, tag) == Tagged(records, tag)
  {
    counts := map[];
    for i := 0 to |records|
      invariant forall tag :: CountOf(counts, tag) == Tagged(records[..i], tag)
    {
      var tag := TagOf(records[i]);
      assert records[..i + 1] == records[..i] + [records[i]];
      TaggedSnoc(records[..i], records[i]);
      counts := counts[tag := CountOf(counts, tag) + 1];
    }
    assert records[..|records|] == records;
  }

  /** aggregate_gate: a measured failure first, then incomplete coverage, then sampling; pass only when
      every expected repository passed. */
  method AggregateGate(records: seq<Record>, expected: nat) returns (verdict: Verdict)
    requires forall r :: r in records ==> r.error || r.report.Some?
    ensures verdict == Pass <==> |records| == expected && AllTagged(records, Judged(Pass))
    ensures verdict == Fail <==> SomeTagged(records, Judged(Fail))
    ensures verdict == InsufficientSampling <==>
              && |records| == expected && SomeTagged(records, Judged(InsufficientSampling))
              && forall r :: r in records ==> TagOf(r) == Judged(Pass) || TagOf(r) == Judged(InsufficientSampling)
    ensures verdict != ParseMismatch
  {
    var counts := CountTags(records);
    CountsDecide(records, counts);
    var complete := |records| == expected && CountOf(counts, Errored) == 0;
    verdict :=
      if CountOf(counts, Judged(Fail)) > 0 then Fail
      else if !complete || CountOf(counts, Judged(ParseMismatch)) > 0 || CountOf(counts, Judged(NotEvaluable)) > 0 then NotEvaluable
      else if CountOf(counts, Judged(InsufficientSampling)) > 0 then InsufficientSampling
      else if CountOf(counts, Judged(Pass)) == expected then Pass
      else NotEvaluable;
    CleanTags(records);
  }

  predicate SomeTagged(records: seq<Record>, tag: Tag) {
    exists r :: r in records && TagOf(r) == tag
  }

  predicate AllTagged(records: seq<Record>, tag: Tag) {
    forall r :: r in records ==> TagOf(r) == tag
  }

  /** There are six tags, so records without the first four carry one of the other two. */
  lemma CleanTags(records: seq<Record>)
    ensures !SomeTagged(records, Errored) && !SomeTagged(records, Judged(Fail))
            && !SomeTagged(records, Judged(ParseMismatch)) && !SomeTagged(records, Judged(NotEvaluable))
            <==> forall r :: r in records ==> TagOf(r) == Judged(Pass) || TagOf(r) == Judged(InsufficientSampling)
    ensures !SomeTagged(records, Judged(InsufficientSampling))
            && (forall r :: r in records ==> TagOf(r) == Judged(Pass) || TagOf(r) == Judged(InsufficientSampling))
            <==> AllTagged(records, Judged(Pass))
  {
    forall r | r in records
      ensures TagOf(r) in {Errored, Judged(Fail), Judged(ParseMismatch), Judged(NotEvaluable), Judged(Pass), Judged(InsufficientSampling)}
    {
      match TagOf(r) {
        case Errored =>
        case Judged(verdict) => match verdict { case Pass => case Fail => case InsufficientSampling => case NotEvaluable => case ParseMismatch => }
      }
    }
  }

  /** A tag is counted iff some record carries it, and counted for all iff every record does. */
  lemma CountsDecide(records: seq<Record>, counts: map<Tag, nat>)
    requires forall tag :: CountOf(counts, tag) == Tagged(records, tag)
    ensures forall tag :: CountOf(counts, tag) > 0 <==> SomeTagged(records, tag)
    ensures forall tag :: CountOf(counts, tag) == |records| <==> AllTagged(records, tag)
  {
    forall tag
      ensures CountOf(counts, tag) > 0 <==> SomeTagged(records, tag)
      ensures CountOf(counts, tag) == |records| <==> AllTagged(records, tag)
    {
      CountExtremes(records, (r: Record) => TagOf(r) == tag);
    }
  }

  lemma {:induction false} CountExtremes<T>(xs: seq<T>, p: T -> bool)
    ensures CountIf(xs, p) > 0 <==> exists x :: x in xs && p(x)
    ensures CountIf(xs, p) <= |xs| && (CountIf(xs, p) == |xs| <==> forall x :: x in xs ==> p(x))
    decreases |xs|
  {
    if xs != [] {
      var init, last := xs[..|xs| - 1], xs[|xs| - 1];
      assert xs == init + [last];
      CountExtremes(init, p);
    }
  }

  // ---- The whole run -----------------------------------------------------------------------

  /** The first repositories up to the limit; a negative one counts from the end. */
  function Limited(repos: seq<Repo>, limit: Option<int>): (chosen: seq<Repo>)
    ensures chosen <= repos
    ensures forall n :: limit == Some(n) && n >= 0 ==> |chosen| == n || |chosen| == |repos| <= n
    ensures forall n :: limit == Some(n) && n < 0 ==> |chosen| - |repos| == n || (chosen == [] && |repos| <= -n)
    ensures limit == None ==> chosen == repos
  {
    match limit
    case None => repos
    case Some(n) =>
      var stop := if n < 0 then |repos| + n else n;
      if stop <= 0 then [] else if stop < |repos| then repos[..stop] else repos
  }

  /** A repository whose contamination is established below two percent. */
  ghost predicate Established(repo: Repo, p: Protocol, rec: Record) {
    && Sound(repo, p, rec) && rec.report.value.mismatches == []
    && p.budgets != []
    && Primary(DefaultRuns(rec.report.value.runs)).rendered >= p.minSymbols
    && forall i :: 0 <= i < |p.budgets| ==> BelowTwoPercent(DefaultRuns(rec.report.value.runs)[i], repo, p, p.budgets[i])
  }

  ghost predicate BelowTwoPercent(run: Run, repo: Repo, p: Protocol, budget: int) {
    FaithfulFor(run, repo, p, budget) && (run.rendered >= p.minSymbols ==> 50 * run.contaminated < run.rendered)
  }

  lemma PassEstablishes(repo: Repo, p: Protocol, rec: Record)
    requires Sound(repo, p, rec) && rec.report.value.gate.verdict == Pass
    ensures Established(repo, p, rec)
  {
    var runs, mismatched := rec.report.value.runs, rec.report.value.mismatches != [];
    var default := DefaultRuns(runs);
    PassIff(runs, mismatched, p.minSymbols);
    FilterMember(runs, (r: Run) => !r.control);
    forall i | 0 <= i < |p.budgets| ensures BelowTwoPercent(default[i], repo, p, p.budgets[i]) {
      assert default[i] in default;
      if default[i].rendered >= p.minSymbols { PassMeansBelowTwoPercent(runs, mismatched, p.minSymbols, default[i]); }
    }
  }

  /** A corpus PASS means that every declared repository was measured at its pin, clean before and
      after, with every text parsed without mismatch, the largest budget adequately sampled, and every
      adequately sampled default run strictly below two percent. */
  method RunCorpus(repos: seq<Repo>, limit: Option<int>, p: Protocol) returns (records: seq<Record>, verdict: Verdict)
    ensures |records| == |Limited(repos, limit)|
    ensures verdict == Pass ==> |records| == |repos| && forall i :: 0 <= i < |repos| ==> Established(repos[i], p, records[i])
    ensures |records| < |repos| ==> verdict != Pass
    ensures forall rec :: rec in records ==> Judgeable(rec)
    ensures verdict == Fail <==> exists rec :: rec in records && Failing(rec, p.minSymbols)
    ensures verdict == Pass <==>
              |records| == |repos| && forall rec :: rec in records ==> Clean(rec) && !Failing(rec, p.minSymbols) && Enough(rec, p.minSymbols)
    ensures verdict == InsufficientSampling <==>
              && |records| == |repos| && (forall rec :: rec in records ==> Clean(rec) && !Failing(rec, p.minSymbols))
              && exists rec :: rec in records && !Enough(rec, p.minSymbols)
    ensures verdict != ParseMismatch
  {
    var chosen := Limited(repos, limit);
    records := MeasureAll(chosen, p);
    forall rec | rec in records ensures Judgeable(rec) && TagFits(rec, p.minSymbols) {
      var i :| 0 <= i < |records| && records[i] == rec;
      if !rec.error { TagIs(chosen[i], p, rec); }
    }
    verdict := AggregateGate(records, |repos|);
    if verdict == Pass {
      assert chosen == repos;
      forall i | 0 <= i < |repos| ensures Established(repos[i], p, records[i]) {
        assert TagOf(records[i]) == Judged(Pass);
        PassEstablishes(repos[i], p, records[i]);
      }
    }
  }

  // ---- Verdicts in terms of runs ------------------------------------------------------------

  /** An error, or a report with at least one default run. */
  predicate Judgeable(rec: Record) {
    rec.error || (rec.report.Some? && DefaultRuns(rec.report.value.runs) != [])
  }

  /** Measured without an error and without a mismatch. */
  predicate Clean(rec: Record) {
    !rec.error && rec.report.Some? && rec.report.value.mismatches == []
  }

  /** Measured, and some default run with enough symbols is contaminated. */
  predicate Failing(rec: Record, minSymbols: int) {
    Clean(rec) && SomeTainted(rec.report.value.runs, minSymbols)
  }

  /** The run of the largest budget has enough symbols. */
  predicate Enough(rec: Record, minSymbols: int)
    requires Judgeable(rec)
  {
    !rec.error && Sampled(rec.report.value.runs, minSymbols)
  }

  ghost predicate TagFits(rec: Record, minSymbols: int)
    requires Judgeable(rec)
  {
    && (TagOf(rec) == Errored <==> rec.error)
    && (TagOf(rec) == Judged(ParseMismatch) <==> !rec.error && !Clean(rec))
    && (TagOf(rec) == Judged(Fail) <==> Failing(rec, minSymbols))
    && (TagOf(rec) == Judged(InsufficientSampling) <==> Clean(rec) && !Failing(rec, minSymbols) && !Enough(rec, minSymbols))
    && (TagOf(rec) == Judged(Pass) <==> Clean(rec) && !Failing(rec, minSymbols) && Enough(rec, minSymbols))
  }

  lemma TagIs(repo: Repo, p: Protocol, rec: Record)
    requires !rec.error && Sound(repo, p, rec)
    ensures Judgeable(rec) && TagFits(rec, p.minSymbols)
  {
    GateIs(rec.report.value.runs, rec.report.value.mismatches != [], p.minSymbols);
  }

  /** Each record is an error, or vouches for its repository. */
  ghost predicate Vouched(chosen: seq<Repo>, p: Protocol, records: seq<Record>) {
    |records| <= |chosen| && forall j :: 0 <= j < |records| ==> records[j].error || Sound(chosen[j], p, records[j])
  }

  lemma VouchedSnoc(chosen: seq<Repo>, p: Protocol, records: seq<Record>, rec: Record)
    requires Vouched(chosen, p, records) && |records| < |chosen|
    requires rec.error || Sound(chosen[|records|], p, rec)
    ensures Vouched(chosen, p, records + [rec])
  {
  }

  method MeasureAll(chosen: seq<Repo>, p: Protocol) returns (records: seq<Record>)
    ensures |records| == |chosen| && Vouched(chosen, p, records)
  {
    records := [];
    for i := 0 to |chosen|
      invariant |records| == i && Vouched(chosen, p, records)
    {
      var rec := MeasureRepo(chosen[i], p);
      VouchedSnoc(chosen, p, records, rec);
      records := records + [rec];
    }
  }
}
