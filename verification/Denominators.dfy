/** Denominator accounting of scripts/bench_holdout.py. */
module Denominators {
  import opened Counting

  // accounting, the sampling block of suite_impact, and _denominators, which folds the blocks of all
  // repositories for one metric.

  datatype Option<T> = None | Some(value: T)

  type Tally = map<string, int>

  datatype Block = Block(denominator: int, measured: int, excludedReasons: Tally, outOfScope: Tally,
                         unmeasurable: Option<string>)

  /** What one repository's record holds for the metric. */
  datatype Observation =
    | RunError(message: string)      // the run failed and left no block
    | NoReport                       // the suite did not report
    | Reported(block: Block)

  datatype Record = Record(name: string, seen: Observation)

  datatype Aggregate = Aggregate(denominator: int, measured: int, excludedReasons: Tally, outOfScope: Tally,
                                 total: nat, reposMeasured: nat, unmeasurable: map<string, string>)

  // ---- One block ---------------------------------------------------------------------------

  /** accounting: an unmeasurable metric has no denominator at all. */
  function Accounting(denominator: int, measured: int, excludedReasons: Tally, outOfScope: Tally,
                      unmeasurable: Option<string>): Block {
    if unmeasurable.Some? then Block(0, 0, excludedReasons, outOfScope, unmeasurable)
    else Block(denominator, measured, excludedReasons, outOfScope, None)
  }

  function At(t: Tally, reason: string): int {
    if reason in t then t[reason] else 0
  }

  function Entry(t: Tally): string -> int {
    reason => At(t, reason)
  }

  ghost function Total(t: Tally): int {
    SumOver(t.Keys, Entry(t))
  }

  /** The reasons account for every exclusion. */
  ghost predicate Balanced(b: Block) {
    Total(b.excludedReasons) == b.denominator - b.measured
  }

  /** suite_impact's block: the sample cap is the only reason a target goes unscored, and a repository
      without targets is unmeasurable. */
  function SampledBlock(targets: nat, sampled: nat, ambiguous: nat): Block {
    var unsampled := if targets > sampled then targets - sampled else 0;
    Accounting(targets, sampled,
               if unsampled > 0 then map["sample_cap_25" := unsampled] else map[],
               if ambiguous > 0 then map["ambiguous_callee_name" := ambiguous] else map[],
               if targets == 0 then Some("no unambiguous direct-call targets in the supported static scope") else None)
  }

  /** Its numbers: every target counts, the sampled ones are measured, the sample cap accounts for the rest,
      and the ambiguous names are out of scope. Only without any target is there nothing to measure. */
  lemma SampledBlockIsBalanced(targets: nat, sampled: nat, ambiguous: nat)
    requires sampled <= targets
    ensures var b := SampledBlock(targets, sampled, ambiguous);
            && Balanced(b) && b.denominator == targets && b.measured == sampled
            && Total(b.excludedReasons) == targets - sampled && Total(b.outOfScope) == ambiguous
            && (b.unmeasurable.Some? <==> targets == 0)
  {
    var b := SampledBlock(targets, sampled, ambiguous);
    if targets > sampled {
      SumOverSingle(b.excludedReasons.Keys, Entry(b.excludedReasons), "sample_cap_25");
    }
    if ambiguous > 0 {
      SumOverSingle(b.outOfScope.Keys, Entry(b.outOfScope), "ambiguous_callee_name");
    }
  }

  /** An unmeasurable metric publishes no denominator; otherwise the numbers are published as given. */
  lemma AccountingMeans(denominator: int, measured: int, excludedReasons: Tally, outOfScope: Tally, unmeasurable: Option<string>)
    ensures var b := Accounting(denominator, measured, excludedReasons, outOfScope, unmeasurable);
            && b.excludedReasons == excludedReasons && b.outOfScope == outOfScope && b.unmeasurable == unmeasurable
            && (unmeasurable.Some? ==> b.denominator == b.measured == 0)
            && (unmeasurable.None? ==> (b.denominator, b.measured) == (denominator, measured))
  {
  }

  // ---- The fold -------------------------------------------------------------------------------

  function Plus(a: Tally, b: Tally): Tally {
    map reason | reason in a.Keys + b.Keys :: At(a, reason) + At(b, reason)
  }

  const EMPTY := Aggregate(0, 0, map[], map[], 0, 0, map[])

  function Unmeasured(r: Record): Option<string> {
    match r.seen
    case RunError(message) => Some("run error: " + if |message| > 80 then message[..80] else message)
    case NoReport => Some("suite did not report")
    case Reported(block) => if block.unmeasurable.Some? && block.unmeasurable.value != "" then block.unmeasurable else None
  }

  function Single(r: Record): Aggregate {
    match Unmeasured(r)
    case Some(reason) => Aggregate(0, 0, map[], map[], 1, 0, map[r.name := reason])
    case None =>
      var b := r.seen.block;
      Aggregate(b.denominator, b.measured, b.excludedReasons, b.outOfScope, 1, 1, map[])
  }

  /** Side by side: counts add up, reasons add up reason by reason, a later name replaces an earlier one. */
  function Merge(a: Aggregate, b: Aggregate): Aggregate {
    Aggregate(a.denominator + b.denominator, a.measured + b.measured,
              Plus(a.excludedReasons, b.excludedReasons), Plus(a.outOfScope, b.outOfScope),
              a.total + b.total, a.reposMeasured + b.reposMeasured, a.unmeasurable + b.unmeasurable)
  }

  function Fold(records: seq<Record>): Aggregate {
    if records == [] then EMPTY else Merge(Fold(records[..|records| - 1]), Single(records[|records| - 1]))
  }

  /** The inner loop: each reason's count is added to what is there for it, or to nothing. */
  method AddReasons(out: Tally, reasons: Tally) returns (sum: Tally)
    ensures sum == Plus(out, reasons)
  {
    sum := out;
    var todo := reasons.Keys;
    while todo != {}
      invariant todo <= reasons.Keys && sum.Keys == out.Keys + (reasons.Keys - todo)
      invariant forall reason :: reason in sum ==>
                  sum[reason] == At(out, reason) + if reason in todo then 0 else At(reasons, reason)
      decreases todo
    {
      var reason :| reason in todo;
      sum := sum[reason := At(sum, reason) + reasons[reason]];
      todo := todo - {reason};
    }
  }

  /** _denominators, for one metric. */
  method FoldDenominators(records: seq<Record>) returns (out: Aggregate)
    ensures out == Fold(records)
  {
    out := EMPTY;
    for i := 0 to |records|
      invariant out == Fold(records[..i])
    {
      FoldSnoc(records, i);
      out := AddRecord(out, records[i]);
    }
    assert records[..|records|] == records;
  }

  lemma FoldSnoc(records: seq<Record>, i: nat)
    requires i < |records|
    ensures Fold(records[..i + 1]) == Merge(Fold(records[..i]), Single(records[i]))
  {
    assert records[..i + 1][..i] == records[..i];
  }

  /** One record's turn in the loop: recorded under its name, or its block added to the sums. */
  method AddRecord(sums: Aggregate, r: Record) returns (out: Aggregate)
    ensures out == Merge(sums, Single(r))
  {
    match Unmeasured(r) {
      case Some(reason) =>
        MergeUnmeasured(sums, r);
        out := sums.(total := sums.total + 1, unmeasurable := sums.unmeasurable[r.name := reason]);
      case None =>
        MergeMeasured(sums, r);
        var b := r.seen.block;
        var excluded := AddReasons(sums.excludedReasons, b.excludedReasons);
        var outOfScope := AddReasons(sums.outOfScope, b.outOfScope);
        out := Aggregate(sums.denominator + b.denominator, sums.measured + b.measured, excluded, outOfScope,
                         sums.total + 1, sums.reposMeasured + 1, sums.unmeasurable);
    }
  }

  lemma PlusEmpty(t: Tally)
    ensures Plus(t, map[]) == t && Plus(map[], t) == t
  {
  }

  lemma MergeUnmeasured(a: Aggregate, r: Record)
    requires Unmeasured(r).Some?
    ensures Merge(a, Single(r)) == a.(total := a.total + 1,
                                      unmeasurable := a.unmeasurable[r.name := Unmeasured(r).value])
  {
    PlusEmpty(a.excludedReasons);
    PlusEmpty(a.outOfScope);
    MapUpdate(a.unmeasurable, r.name, Unmeasured(r).value);
  }

  lemma MergeMeasured(a: Aggregate, r: Record)
    requires Unmeasured(r).None?
    ensures var b := r.seen.block;
            Merge(a, Single(r)) == Aggregate(a.denominator + b.denominator, a.measured + b.measured,
                                             Plus(a.excludedReasons, b.excludedReasons),
                                             Plus(a.outOfScope, b.outOfScope),
                                             a.total + 1, a.reposMeasured + 1, a.unmeasurable)
  {
    MapEmpty(a.unmeasurable);
  }

  lemma MapUpdate(m: map<string, string>, k: string, v: string)
    ensures m + map[k := v] == m[k := v]
  {
  }

  lemma MapEmpty(m: map<string, string>)
    ensures m + map[] == m && map[] + m == m
  {
  }

  lemma MapAssociates(a: map<string, string>, b: map<string, string>, c: map<string, string>)
    ensures a + b + c == a + (b + c)
  {
  }

  // ---- Laws of the fold -------------------------------------------------------------------------

  lemma PlusAssociates(a: Tally, b: Tally, c: Tally)
    ensures Plus(Plus(a, b), c) == Plus(a, Plus(b, c))
  {
  }

  lemma PlusCommutes(a: Tally, b: Tally)
    ensures Plus(a, b) == Plus(b, a)
  {
  }

  lemma MergeAssociates(a: Aggregate, b: Aggregate, c: Aggregate)
    ensures Merge(Merge(a, b), c) == Merge(a, Merge(b, c))
  {
    PlusAssociates(a.excludedReasons, b.excludedReasons, c.excludedReasons);
    PlusAssociates(a.outOfScope, b.outOfScope, c.outOfScope);
    MapAssociates(a.unmeasurable, b.unmeasurable, c.unmeasurable);
  }

  lemma MergeCommutes(a: Aggregate, b: Aggregate)
    requires a.unmeasurable.Keys !! b.unmeasurable.Keys
    ensures Merge(a, b) == Merge(b, a)
  {
    PlusCommutes(a.excludedReasons, b.excludedReasons);
    PlusCommutes(a.outOfScope, b.outOfScope);
    assert a.unmeasurable + b.unmeasurable == b.unmeasurable + a.unmeasurable;
  }

  lemma MergeEmpty(a: Aggregate)
    ensures Merge(a, EMPTY) == a && Merge(EMPTY, a) == a
  {
    PlusEmpty(a.excludedReasons);
    PlusEmpty(a.outOfScope);
    MapEmpty(a.unmeasurable);
  }

  /** Folding is a homomorphism: partial corpora can be folded apart and merged. */
  lemma {:induction false} FoldConcat(a: seq<Record>, b: seq<Record>)
    ensures Fold(a + b) == Merge(Fold(a), Fold(b))
    decreases |b|
  {
    if b == [] {
      assert a + b == a;
      MergeEmpty(Fold(a));
    } else {
      var init, last := b[..|b| - 1], b[|b| - 1];
      assert (a + b)[..|a + b| - 1] == a + init;
      FoldConcat(a, init);
      MergeAssociates(Fold(a), Fold(init), Single(last));
    }
  }

  /** Names of the records the metric could not be measured on, repeated as often as they occur. */
  function UnmeasuredNames(records: seq<Record>): seq<string> {
    if records == [] then []
    else
      var last := records[|records| - 1];
      UnmeasuredNames(records[..|records| - 1]) + if Unmeasured(last).Some? then [last.name] else []
  }

  ghost predicate Distinct(names: seq<string>) {
    forall i, j :: 0 <= i < j < |names| ==> names[i] != names[j]
  }

  lemma {:induction false} FoldCounts(records: seq<Record>)
    ensures var f := Fold(records);
            && f.total == |records| == f.reposMeasured + |UnmeasuredNames(records)|
            && Lists(f.unmeasurable, UnmeasuredNames(records))
    decreases |records|
  {
    if records != [] {
      var init, last := records[..|records| - 1], records[|records| - 1];
      FoldCounts(init);
      if Unmeasured(last).Some? {
        MergeUnmeasured(Fold(init), last);
        OneMoreName(Fold(init).unmeasurable, UnmeasuredNames(init), last.name, Unmeasured(last).value);
      } else {
        MergeMeasured(Fold(init), last);
        assert UnmeasuredNames(records) == UnmeasuredNames(init);
      }
    }
  }

  /** m has an entry for each of the names, and no more entries than names. */
  ghost predicate Lists(m: map<string, string>, names: seq<string>) {
    && (forall name :: name in m <==> name in names)
    && |m| <= |names|
    && (|m| == |names| <==> Distinct(names))
  }

  lemma OneMoreName(m: map<string, string>, names: seq<string>, name: string, reason: string)
    requires Lists(m, names)
    ensures Lists(m[name := reason], names + [name])
  {
    var more := m[name := reason];
    assert more.Keys == m.Keys + {name};
    assert |more| == |more.Keys| && |m| == |m.Keys|;
    DistinctSnoc(names, name);
  }

  lemma DistinctSnoc(names: seq<string>, name: string)
    ensures Distinct(names + [name]) <==> Distinct(names) && name !in names
  {
    var more := names + [name];
    if Distinct(more) {
      forall i, j | 0 <= i < j < |names| ensures names[i] != names[j] { assert more[i] != more[j]; }
      forall i | 0 <= i < |names| ensures names[i] != name { assert more[i] != more[|names|]; }
    }
  }

  /** Every record is counted exactly once, as measured or under its name as unmeasurable, if and only
      if no two unmeasured records share a name. */
  lemma CountedOnceIff(records: seq<Record>)
    ensures Fold(records).reposMeasured + |Fold(records).unmeasurable| == Fold(records).total
            <==> Distinct(UnmeasuredNames(records))
  {
    FoldCounts(records);
  }

  /** The order of the records does not matter when the unmeasured ones have distinct names. */
  lemma {:induction false} FoldPermutation(a: seq<Record>, b: seq<Record>)
    requires multiset(a) == multiset(b) && Distinct(UnmeasuredNames(b))
    ensures Fold(a) == Fold(b)
    decreases |a|
  {
    if a == [] {
      assert |b| == |multiset(b)| == 0;
    } else {
      var init, last := a[..|a| - 1], a[|a| - 1];
      assert a == init + [last];
      assert last in multiset(b);
      var i :| 0 <= i < |b| && b[i] == last;
      var front, back := b[..i], b[i + 1..];
      TakeOut(a, b, i);
      NamesConcat(front + [last], back);
      NamesConcat(front, [last]);
      NamesConcat(front, back);
      DistinctDrop(UnmeasuredNames(front), UnmeasuredNames([last]), UnmeasuredNames(back));
      FoldPermutation(init, front + back);
      MoveToEnd(front, last, back);
    }
  }

  lemma MoveToEnd(front: seq<Record>, last: Record, back: seq<Record>)
    requires Distinct(UnmeasuredNames(front) + UnmeasuredNames([last]) + UnmeasuredNames(back))
    ensures Fold((front + [last]) + back) == Merge(Fold(front + back), Single(last))
  {
    var f, s, b := Fold(front), Single(last), Fold(back);
    FoldConcat(front + [last], back);
    FoldConcat(front, [last]);
    FoldConcat(front, back);
    assert Fold([last]) == s by {
      assert [last][..0] == [];
      MergeEmpty(s);
    }
    assert s.unmeasurable.Keys !! b.unmeasurable.Keys by {
      FoldCounts([last]);
      FoldCounts(back);
      DistinctApart(UnmeasuredNames(front), UnmeasuredNames([last]), UnmeasuredNames(back));
    }
    MergeAssociates(f, s, b);
    MergeCommutes(s, b);
    MergeAssociates(f, b, s);
  }

  lemma {:induction false} NamesConcat(a: seq<Record>, b: seq<Record>)
    ensures UnmeasuredNames(a + b) == UnmeasuredNames(a) + UnmeasuredNames(b)
    decreases |b|
  {
    if b == [] {
      assert a + b == a;
    } else {
      assert (a + b)[..|a + b| - 1] == a + b[..|b| - 1];
      NamesConcat(a, b[..|b| - 1]);
    }
  }

  lemma DistinctApart(a: seq<string>, b: seq<string>, c: seq<string>)
    requires Distinct(a + b + c)
    ensures forall name :: name in b ==> name !in c
  {
    var all := a + b + c;
    forall i, j | 0 <= i < |b| && 0 <= j < |c| ensures b[i] != c[j] {
      assert all[|a| + i] == b[i] && all[|a| + |b| + j] == c[j];
    }
  }

  lemma DistinctDrop(a: seq<string>, b: seq<string>, c: seq<string>)
    requires Distinct(a + b + c)
    ensures Distinct(a + c)
  {
    var all, less := a + b + c, a + c;
    forall i, j | 0 <= i < j < |less| ensures less[i] != less[j] {
      var i', j' := if i < |a| then i else i + |b|, if j < |a| then j else j + |b|;
      assert less[i] == all[i'] && less[j] == all[j'];
    }
  }

  lemma TotalOfPlus(a: Tally, b: Tally)
    ensures Total(Plus(a, b)) == Total(a) + Total(b)
  {
    var keys := a.Keys + b.Keys;
    assert Plus(a, b).Keys == keys;
    SumOverExtend(a.Keys, keys, Entry(a));
    SumOverExtend(b.Keys, keys, Entry(b));
    SumOverPlus(keys, Entry(a), Entry(b), Entry(Plus(a, b)));
  }

  /** The record's suite reported a block that is not marked unmeasurable; an empty mark is none. */
  predicate IsMeasured(r: Record) {
    r.seen.Reported? && (r.seen.block.unmeasurable.None? || r.seen.block.unmeasurable.value == "")
  }

  /** What f gives on the blocks of the measured records, in total. */
  function SumMeasured(records: seq<Record>, f: Block -> int): int {
    if records == [] then 0
    else
      var last := records[|records| - 1];
      SumMeasured(records[..|records| - 1], f) + if IsMeasured(last) then f(last.seen.block) else 0
  }

  /** Each published total is the sum over the measured records, and over no others; reasons and scopes are
      kept apart, key by key. */
  lemma TotalsAre(records: seq<Record>, reason: string)
    ensures var f := Fold(records);
            && f.denominator == SumMeasured(records, (b: Block) => b.denominator)
            && f.measured == SumMeasured(records, (b: Block) => b.measured)
            && At(f.excludedReasons, reason) == SumMeasured(records, (b: Block) => At(b.excludedReasons, reason))
            && At(f.outOfScope, reason) == SumMeasured(records, (b: Block) => At(b.outOfScope, reason))
            && f.reposMeasured == SumMeasured(records, (b: Block) => 1)
  {
    CountsAre(records);
    ExcludedAre(records, reason);
    OutOfScopeAre(records, reason);
  }

  lemma MergeEither(a: Aggregate, r: Record)
    ensures IsMeasured(r) <==> Unmeasured(r).None?
    ensures var m := Merge(a, Single(r));
            if IsMeasured(r)
            then var b := r.seen.block;
                 && m.denominator == a.denominator + b.denominator && m.measured == a.measured + b.measured
                 && m.reposMeasured == a.reposMeasured + 1 && m.unmeasurable == a.unmeasurable
                 && m.excludedReasons == Plus(a.excludedReasons, b.excludedReasons) && m.outOfScope == Plus(a.outOfScope, b.outOfScope)
            else m == a.(total := a.total + 1, unmeasurable := m.unmeasurable)
                 && m.unmeasurable == a.unmeasurable[r.name := Unmeasured(r).value]
  {
    if IsMeasured(r) { MergeMeasured(a, r); } else { MergeUnmeasured(a, r); }
  }

  lemma {:induction false} CountsAre(records: seq<Record>)
    ensures Fold(records).denominator == SumMeasured(records, (b: Block) => b.denominator)
    ensures Fold(records).measured == SumMeasured(records, (b: Block) => b.measured)
    ensures Fold(records).reposMeasured == SumMeasured(records, (b: Block) => 1)
    decreases |records|
  {
    if records != [] {
      var init := records[..|records| - 1];
      CountsAre(init);
      MergeEither(Fold(init), records[|records| - 1]);
    }
  }

  lemma {:induction false} ExcludedAre(records: seq<Record>, reason: string)
    ensures At(Fold(records).excludedReasons, reason) == SumMeasured(records, (b: Block) => At(b.excludedReasons, reason))
    decreases |records|
  {
    if records != [] {
      var init := records[..|records| - 1];
      ExcludedAre(init, reason);
      MergeEither(Fold(init), records[|records| - 1]);
    }
  }

  lemma {:induction false} OutOfScopeAre(records: seq<Record>, reason: string)
    ensures At(Fold(records).outOfScope, reason) == SumMeasured(records, (b: Block) => At(b.outOfScope, reason))
    decreases |records|
  {
    if records != [] {
      var init := records[..|records| - 1];
      OutOfScopeAre(init, reason);
      MergeEither(Fold(init), records[|records| - 1]);
    }
  }

  /** Why a record was not measured: the first eighty characters of the error, or that nothing was reported,
      or the reason the suite gave. */
  predicate IsReason(r: Record, reason: string) {
    match r.seen
    case RunError(message) => reason == "run error: " + if |message| > 80 then message[..80] else message
    case NoReport => reason == "suite did not report"
    case Reported(block) => block.unmeasurable == Some(reason)
  }

  /** Every unmeasured repository is named, with the reason of its last record. */
  lemma {:induction false} ReasonsAre(before: seq<Record>, r: Record, rest: seq<Record>)
    requires !IsMeasured(r) && forall x :: x in rest ==> IsMeasured(x) || x.name != r.name
    ensures var reasons := Fold(before + [r] + rest).unmeasurable;
            r.name in reasons && IsReason(r, reasons[r.name])
    decreases |rest|
  {
    if rest == [] {
      assert before + [r] + rest == before + [r] && (before + [r])[..|before|] == before;
      MergeEither(Fold(before), r);
    } else {
      var init, last := rest[..|rest| - 1], rest[|rest| - 1];
      assert (before + [r] + rest)[..|before + [r] + rest| - 1] == before + [r] + init;
      assert last in rest;
      ReasonsAre(before, r, init);
      MergeEither(Fold(before + [r] + init), last);
    }
  }

  /** Exclusions minus the exclusions that have a reason, over the measured records. */
  ghost function Unexplained(records: seq<Record>): int {
    if records == [] then 0
    else
      var last := records[|records| - 1];
      Unexplained(records[..|records| - 1])
      + if Unmeasured(last).Some? then 0
        else last.seen.block.denominator - last.seen.block.measured - Total(last.seen.block.excludedReasons)
  }

  /** The aggregate's exclusions and reasons differ by exactly what the repositories' own do. */
  lemma {:induction false} ExclusionsAddUp(records: seq<Record>)
    ensures Fold(records).denominator - Fold(records).measured
            == Total(Fold(records).excludedReasons) + Unexplained(records)
    decreases |records|
  {
    if records == [] {
      assert Total(map[]) == 0;
    } else {
      var init, last := records[..|records| - 1], records[|records| - 1];
      ExclusionsAddUp(init);
      TotalOfPlus(Fold(init).excludedReasons, Single(last).excludedReasons);
      if Unmeasured(last).Some? { assert Total(map[]) == 0; }
    }
  }

  /** Hence reasons that account for every exclusion per repository do so in the aggregate. */
  lemma {:induction false} BalanceIsKept(records: seq<Record>)
    requires forall r :: r in records && Unmeasured(r).None? ==> Balanced(r.seen.block)
    ensures Fold(records).denominator - Fold(records).measured == Total(Fold(records).excludedReasons)
  {
    ExclusionsAddUp(records);
    NothingUnexplained(records);
  }

  lemma {:induction false} NothingUnexplained(records: seq<Record>)
    requires forall r :: r in records && Unmeasured(r).None? ==> Balanced(r.seen.block)
    ensures Unexplained(records) == 0
    decreases |records|
  {
    if records != [] {
      var init, last := records[..|records| - 1], records[|records| - 1];
      assert records == init + [last];
      NothingUnexplained(init);
    }
  }
}
