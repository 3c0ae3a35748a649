/** The blast-radius oracle of scripts/bench_diff_impact.py. */
module ReverseClosure {
  import opened Arithmetic
  import opened Rounding

  // expected_closure, full_expectation and prf1, over an arbitrary edge list and an arbitrary relation set.

  /** `source relation target`: the source depends on the target. */
  datatype Edge = Edge(src: string, dst: string, relation: string)

  predicate Allowed(edges: seq<Edge>, relations: set<string>, src: string, dst: string) {
    exists e :: e in edges && e.src == src && e.dst == dst && e.relation in relations
  }

  /** The sources of allowed edges into a node. */
  function Inward(edges: seq<Edge>, relations: set<string>, node: string): set<string> {
    set e | e in edges && e.relation in relations && e.dst == node :: e.src
  }

  // ---- Reachability, by paths ------------------------------------------------------------

  /** A chain of allowed edges, each node depending on the next. */
  predicate IsPath(edges: seq<Edge>, relations: set<string>, path: seq<string>) {
    path != [] && forall i :: 0 <= i < |path| - 1 ==> Allowed(edges, relations, path[i], path[i + 1])
  }

  ghost predicate Reaches(edges: seq<Edge>, relations: set<string>, start: set<string>, depth: nat, node: string) {
    exists path :: IsPath(edges, relations, path) && path[0] == node && path[|path| - 1] in start && |path| <= depth + 1
  }

  /** The nodes within `depth` allowed edges of the start set, the start set included. */
  function Ball(edges: seq<Edge>, relations: set<string>, start: set<string>, depth: nat): set<string> {
    Iterate(Grow(edges, relations), start, depth)
  }

  function Iterate(step: set<string> -> set<string>, start: set<string>, depth: nat): set<string> {
    if depth == 0 then start else step(Iterate(step, start, depth - 1))
  }

  /** One level of the search: the nodes reached so far and the sources of the edges into them. */
  function Grow(edges: seq<Edge>, relations: set<string>): set<string> -> set<string> {
    nodes => nodes + Sources(edges, relations, nodes)
  }

  function Sources(edges: seq<Edge>, relations: set<string>, nodes: set<string>): set<string> {
    set e | e in edges && e.relation in relations && e.dst in nodes :: e.src
  }

  lemma {:induction false} BallHasPath(edges: seq<Edge>, relations: set<string>, start: set<string>, depth: nat, node: string)
    requires node in Ball(edges, relations, start, depth)
    ensures Reaches(edges, relations, start, depth, node)
    decreases depth
  {
    if node in start {
      assert IsPath(edges, relations, [node]);
    } else {
      var inner := Ball(edges, relations, start, depth - 1);
      if node in inner {
        BallHasPath(edges, relations, start, depth - 1, node);
      } else {
        var e :| e in edges && e.relation in relations && e.dst in inner && e.src == node;
        BallHasPath(edges, relations, start, depth - 1, e.dst);
        var path :| IsPath(edges, relations, path) && path[0] == e.dst && path[|path| - 1] in start && |path| <= depth;
        assert Allowed(edges, relations, node, path[0]);
        PathCons(edges, relations, node, path);
      }
    }
  }

  lemma {:induction false} PathEndsInBall(edges: seq<Edge>, relations: set<string>, start: set<string>, depth: nat, path: seq<string>)
    requires IsPath(edges, relations, path) && path[|path| - 1] in start && |path| <= depth + 1
    ensures path[0] in Ball(edges, relations, start, depth)
    decreases depth
  {
    if |path| == 1 {
      StartInBall(edges, relations, start, depth);
    } else {
      PathTail(edges, relations, path);
      PathEndsInBall(edges, relations, start, depth - 1, path[1..]);
      assert Allowed(edges, relations, path[0], path[0 + 1]);
    }
  }

  lemma BallIsReachability(edges: seq<Edge>, relations: set<string>, start: set<string>, depth: nat, node: string)
    ensures node in Ball(edges, relations, start, depth) <==> Reaches(edges, relations, start, depth, node)
  {
    if node in Ball(edges, relations, start, depth) {
      BallHasPath(edges, relations, start, depth, node);
    }
    if Reaches(edges, relations, start, depth, node) {
      var path :| IsPath(edges, relations, path) && path[0] == node && path[|path| - 1] in start && |path| <= depth + 1;
      PathEndsInBall(edges, relations, start, depth, path);
    }
  }

  lemma PathCons(edges: seq<Edge>, relations: set<string>, node: string, path: seq<string>)
    requires IsPath(edges, relations, path) && Allowed(edges, relations, node, path[0])
    ensures IsPath(edges, relations, [node] + path)
  {
    var longer := [node] + path;
    forall i | 0 <= i < |longer| - 1 ensures Allowed(edges, relations, longer[i], longer[i + 1]) {
      if i > 0 { assert Allowed(edges, relations, path[i - 1], path[i - 1 + 1]); }
    }
  }

  lemma PathTail(edges: seq<Edge>, relations: set<string>, path: seq<string>)
    requires IsPath(edges, relations, path) && |path| > 1
    ensures IsPath(edges, relations, path[1..])
  {
    var rest := path[1..];
    forall i | 0 <= i < |rest| - 1 ensures Allowed(edges, relations, rest[i], rest[i + 1]) {
      assert Allowed(edges, relations, path[i + 1], path[i + 1 + 1]);
    }
  }

  lemma {:induction false} StartInBall(edges: seq<Edge>, relations: set<string>, start: set<string>, depth: nat)
    ensures start <= Ball(edges, relations, start, depth)
    decreases depth
  {
    if depth > 0 { StartInBall(edges, relations, start, depth - 1); }
  }

  /** d1 steps after d2 steps are d1 + d2 steps. */
  lemma BallsCompose(edges: seq<Edge>, relations: set<string>, start: set<string>, d1: nat, d2: nat)
    ensures Ball(edges, relations, Ball(edges, relations, start, d1), d2) == Ball(edges, relations, start, d1 + d2)
  {
    IteratesCompose(Grow(edges, relations), start, d1, d2);
  }

  lemma {:induction false} IteratesCompose(step: set<string> -> set<string>, start: set<string>, d1: nat, d2: nat)
    ensures Iterate(step, Iterate(step, start, d1), d2) == Iterate(step, start, d1 + d2)
    decreases d2
  {
    if d2 > 0 { IteratesCompose(step, start, d1, d2 - 1); }
  }

  lemma BallsUnite(edges: seq<Edge>, relations: set<string>, a: set<string>, b: set<string>, depth: nat)
    ensures Ball(edges, relations, a + b, depth) == Ball(edges, relations, a, depth) + Ball(edges, relations, b, depth)
  {
    var step := Grow(edges, relations);
    forall x, y ensures step(x + y) == step(x) + step(y) { SourcesUnite(edges, relations, x, y); }
    IteratesUnite(step, a, b, depth);
  }

  lemma {:induction false} IteratesUnite(step: set<string> -> set<string>, a: set<string>, b: set<string>, depth: nat)
    requires forall x, y :: step(x + y) == step(x) + step(y)
    ensures Iterate(step, a + b, depth) == Iterate(step, a, depth) + Iterate(step, b, depth)
    decreases depth
  {
    if depth > 0 { IteratesUnite(step, a, b, depth - 1); }
  }

  /** Once a step adds nothing, no later step does. */
  lemma Saturated(edges: seq<Edge>, relations: set<string>, start: set<string>, d: nat, depth: nat)
    requires d <= depth
    requires Sources(edges, relations, Ball(edges, relations, start, d)) <= Ball(edges, relations, start, d)
    ensures Ball(edges, relations, start, depth) == Ball(edges, relations, start, d)
  {
    var step, ball := Grow(edges, relations), Ball(edges, relations, start, d);
    assert step(ball) == ball;
    IteratesRest(step, start, d, depth);
  }

  lemma {:induction false} IteratesRest(step: set<string> -> set<string>, start: set<string>, d: nat, depth: nat)
    requires d <= depth && step(Iterate(step, start, d)) == Iterate(step, start, d)
    ensures Iterate(step, start, depth) == Iterate(step, start, d)
    decreases depth
  {
    if d < depth { IteratesRest(step, start, d, depth - 1); }
  }

  // ---- The search ----------------------------------------------------------------------

  predicate IsTestSymbol(symbol: string) {
    StartsWith(symbol, "test") || EndsWith(symbol, "Test") || EndsWith(symbol, "Tests")
    || EndsWith(symbol, "IT") || EndsWith(symbol, "Spec")
  }

  predicate StartsWith(s: string, prefix: string) {
    prefix <= s
  }

  predicate EndsWith(s: string, suffix: string) {
    |suffix| <= |s| && s[|s| - |suffix|..] == suffix
  }

  /** Test symbols are the names that begin or end in one of five ways. */
  ghost predicate NamedAsTest(symbol: string) {
    || Begins(symbol, "test")
    || Ends(symbol, "Test") || Ends(symbol, "Tests") || Ends(symbol, "IT") || Ends(symbol, "Spec")
  }

  ghost predicate Begins(s: string, part: string) {
    exists rest :: s == part + rest
  }

  ghost predicate Ends(s: string, part: string) {
    exists rest :: s == rest + part
  }

  lemma BeginsIff(s: string, part: string)
    ensures StartsWith(s, part) <==> Begins(s, part)
  {
    if StartsWith(s, part) { assert s == part + s[|part|..]; }
  }

  lemma EndsIff(s: string, part: string)
    ensures EndsWith(s, part) <==> Ends(s, part)
  {
    if EndsWith(s, part) { assert s == s[..|s| - |part|] + part; }
  }

  lemma TestsAreNamed(symbol: string)
    ensures IsTestSymbol(symbol) <==> NamedAsTest(symbol)
  {
    BeginsIff(symbol, "test");
    EndsIff(symbol, "Test");
    EndsIff(symbol, "Tests");
    EndsIff(symbol, "IT");
    EndsIff(symbol, "Spec");
  }

  function Tests(nodes: set<string>): set<string> {
    set n | n in nodes && IsTestSymbol(n)
  }

  function NonTests(nodes: set<string>): set<string> {
    set n | n in nodes && !IsTestSymbol(n)
  }

  method IndexInward(edges: seq<Edge>, relations: set<string>) returns (inward: map<string, seq<string>>)
    ensures forall node :: (if node in inward then Elements(inward[node]) else {}) == Inward(edges, relations, node)
  {
    inward := map[];
    for i := 0 to |edges|
      invariant forall node :: (if node in inward then Elements(inward[node]) else {}) == Inward(edges[..i], relations, node)
    {
      var e := edges[i];
      assert edges[..i + 1] == edges[..i] + [e];
      forall node ensures Inward(edges[..i + 1], relations, node)
                          == Inward(edges[..i], relations, node) + if e.relation in relations && e.dst == node then {e.src} else {} {
      }
      if e.relation in relations {
        var before := if e.dst in inward then inward[e.dst] else [];
        assert Elements(before + [e.src]) == Elements(before) + {e.src};
        inward := inward[e.dst := before + [e.src]];
      }
    }
    assert edges[..|edges|] == edges;
  }

  function Elements(xs: seq<string>): set<string> {
    set x | x in xs
  }

  /** Breadth-first search over inward edges, at most `depth` levels, stopping when a level is empty. */
  method ExpectedClosure(edges: seq<Edge>, relations: set<string>, direct: set<string>, depth: nat)
    returns (callers: set<string>, tests: set<string>)
    ensures callers == NonTests(Ball(edges, relations, direct, depth) - direct)
    ensures tests == Tests(Ball(edges, relations, direct, depth) - direct)
    ensures forall n :: n in callers + tests ==> (n in tests <==> NamedAsTest(n)) && (n in callers <==> !NamedAsTest(n))
  {
    forall n { TestsAreNamed(n); }
    var inward := IndexInward(edges, relations);
    callers, tests := {}, {};
    var frontier, visited := direct, direct;
    for level := 0 to depth
      invariant visited == Ball(edges, relations, direct, level)
      invariant frontier <= visited && Sources(edges, relations, visited - frontier) <= visited
      invariant callers == NonTests(visited - direct) && tests == Tests(visited - direct)
      invariant direct <= visited
    {
      ghost var before := visited;
      var next: set<string> := {};
      var todo := frontier;
      while todo != {}
        invariant todo <= frontier
        invariant next !! before && visited == before + next
        invariant next == Sources(edges, relations, frontier - todo) - before
        invariant callers == NonTests(visited - direct) && tests == Tests(visited - direct)
        decreases todo
      {
        var node :| node in todo;
        var sources := if node in inward then inward[node] else [];
        assert Elements(sources) == Inward(edges, relations, node);
        visited, next, callers, tests := Visit(sources, direct, visited, next, callers, tests);
        SourcesOfOneMore(edges, relations, frontier - todo, node);
        assert frontier - (todo - {node}) == frontier - todo + {node};
        todo := todo - {node};
      }
      assert frontier - todo == frontier;
      SourcesUnite(edges, relations, before - frontier, frontier);
      assert before - frontier + frontier == before;
      frontier := next;
      assert visited - frontier == before;
      if frontier == {} {
        Saturated(edges, relations, direct, level, depth);
        break;
      }
    }
  }

  /** The innermost loop: sources not visited yet are visited, filed, and put on the next frontier. */
  method Visit(sources: seq<string>, direct: set<string>, visited0: set<string>, next0: set<string>,
               callers0: set<string>, tests0: set<string>)
    returns (visited: set<string>, next: set<string>, callers: set<string>, tests: set<string>)
    requires callers0 == NonTests(visited0 - direct) && tests0 == Tests(visited0 - direct) && direct <= visited0
    ensures visited == visited0 + Elements(sources) && next == next0 + (Elements(sources) - visited0)
    ensures callers == NonTests(visited - direct) && tests == Tests(visited - direct)
  {
    visited, next, callers, tests := visited0, next0, callers0, tests0;
    for i := 0 to |sources|
      invariant visited == visited0 + Elements(sources[..i]) && next == next0 + (Elements(sources[..i]) - visited0)
      invariant callers == NonTests(visited - direct) && tests == Tests(visited - direct)
    {
      var src := sources[i];
      assert Elements(sources[..i + 1]) == Elements(sources[..i]) + {src};
      if src !in visited {
        visited := visited + {src};
        if IsTestSymbol(src) {
          tests := tests + {src};
        } else {
          callers := callers + {src};
        }
        next := next + {src};
      }
    }
    assert sources[..|sources|] == sources;
  }

  lemma SourcesOfOneMore(edges: seq<Edge>, relations: set<string>, nodes: set<string>, node: string)
    ensures Sources(edges, relations, nodes + {node}) == Sources(edges, relations, nodes) + Inward(edges, relations, node)
  {
  }

  lemma SourcesUnite(edges: seq<Edge>, relations: set<string>, a: set<string>, b: set<string>)
    ensures Sources(edges, relations, a + b) == Sources(edges, relations, a) + Sources(edges, relations, b)
  {
  }

  // ---- What the closure is ------------------------------------------------------------

  /** The closure is exactly the non-direct nodes with a path of at most `depth` allowed edges into
      the direct set, split into callers and tests without overlap. */
  lemma ClosureIsBoundedReachability(edges: seq<Edge>, relations: set<string>, direct: set<string>, depth: nat, node: string)
    ensures var reached := Ball(edges, relations, direct, depth) - direct;
            && (node in NonTests(reached) + Tests(reached) <==>
                  node !in direct && Reaches(edges, relations, direct, depth, node))
            && NonTests(reached) !! Tests(reached)
  {
    BallIsReachability(edges, relations, direct, depth, node);
  }

  /** Searching d1 levels and then d2 levels from everything found is searching d1 + d2 levels. */
  lemma ClosuresCompose(edges: seq<Edge>, relations: set<string>, direct: set<string>, d1: nat, d2: nat)
    ensures var first := Ball(edges, relations, direct, d1);
            var second := Ball(edges, relations, first, d2) - first;
            Ball(edges, relations, direct, d1 + d2) - direct == (first - direct) + second
  {
    BallsCompose(edges, relations, direct, d1, d2);
    StartInBall(edges, relations, direct, d1);
    StartInBall(edges, relations, Ball(edges, relations, direct, d1), d2);
  }

  /** The closure of a union is the union of the closures, less what became direct. */
  lemma ClosuresUnite(edges: seq<Edge>, relations: set<string>, a: set<string>, b: set<string>, depth: nat)
    ensures Ball(edges, relations, a + b, depth) - (a + b)
            == (Ball(edges, relations, a, depth) - a) + (Ball(edges, relations, b, depth) - b) - (a + b)
  {
    BallsUnite(edges, relations, a, b, depth);
  }

  // ---- The full expectation of a scenario -----------------------------------------------

  datatype Expectation = Expectation(files: set<string>, direct: set<string>, callers: set<string>,
                                     tests: set<string>, testFiles: set<string>)

  /** The impacted symbols are those that reach an edited symbol, whether or not they look like tests. */
  function Impacted(x: Expectation): set<string> {
    x.direct + x.callers + x.tests
  }

  /** full_expectation: deleting a file edits every symbol planted in it; a test file is expected
      when it changed or imports an impacted symbol. */
  method FullExpectation(edges: seq<Edge>, relations: set<string>, depth: nat, edited: set<string>, changed: set<string>,
                         deletes: bool, deleted: string, fileSymbols: map<string, set<string>>,
                         testFiles: set<string>, imports: map<string, string>)
    returns (x: Expectation)
    ensures x.files == changed
    ensures x.direct == edited + if deletes && deleted in fileSymbols then fileSymbols[deleted] else {}
    ensures Impacted(x) == Ball(edges, relations, x.direct, depth)
    ensures x.direct !! x.callers && x.direct !! x.tests && x.callers !! x.tests
    ensures forall f :: f in x.testFiles <==> (f in changed && f in testFiles) || (f in imports && imports[f] in Impacted(x))
  {
    var direct := edited;
    if deletes {
      direct := direct + if deleted in fileSymbols then fileSymbols[deleted] else {};
    }
    var callers, tests := ExpectedClosure(edges, relations, direct, depth);
    StartInBall(edges, relations, direct, depth);
    var impacted := direct + callers + tests;
    var files := changed * testFiles + set f | f in imports && imports[f] in impacted;
    x := Expectation(changed, direct, callers, tests, files);
  }

  // ---- Scores ---------------------------------------------------------------------------

  datatype Score = Score(precision: real, recall: real, f1: real)

  /** prf1 before rounding. */
  function Prf1<T>(predicted: set<T>, expected: set<T>): Score {
    var tp := |predicted * expected| as real;
    var precision := if predicted != {} then tp / |predicted| as real else 0.0;
    var recall := if expected != {} then tp / |expected| as real else 1.0;
    Score(precision, recall, F1Of(precision, recall))
  }

  function F1Of(precision: real, recall: real): real {
    if precision + recall != 0.0 then 2.0 * (precision * recall) / (precision + recall) else 0.0
  }

  /** A perfect score is a perfect prediction of something: predicting nothing where nothing is
      expected scores zero. */
  lemma PerfectScoreIff<T>(predicted: set<T>, expected: set<T>)
    ensures Prf1(predicted, expected).f1 == 1.0 <==> predicted == expected && predicted != {}
    ensures 0.0 <= Prf1(predicted, expected).f1 <= 1.0
  {
    var s := Prf1(predicted, expected);
    PrecisionOf(predicted, expected);
    RecallOf(predicted, expected);
    HarmonicMean(s.precision, s.recall);
  }

  lemma PrecisionOf<T>(predicted: set<T>, expected: set<T>)
    ensures var p := Prf1(predicted, expected).precision;
            0.0 <= p <= 1.0 && (p == 1.0 <==> predicted != {} && predicted <= expected)
  {
    var both := predicted * expected;
    SubsetSize(both, predicted);
    if predicted != {} { Ratio(|both|, |predicted|); }
    assert both == predicted <==> predicted <= expected;
  }

  lemma RecallOf<T>(predicted: set<T>, expected: set<T>)
    ensures var r := Prf1(predicted, expected).recall;
            0.0 <= r <= 1.0 && (r == 1.0 <==> expected <= predicted)
  {
    var both := predicted * expected;
    SubsetSize(both, expected);
    if expected != {} { Ratio(|both|, |expected|); }
    assert both == expected <==> expected <= predicted;
  }

  /** Rounding to four decimals, ties to even. */
  function Round4(x: real): real {
    RoundHalfEven(x * 10000.0) as real / 10000.0
  }

  /** What is published is rounded, and reads 1.0 exactly when something was predicted or expected and at
      most one element in 20000 is on one side only; below 20000 elements that is a perfect prediction. */
  lemma PublishedPerfectIff<T>(predicted: set<T>, expected: set<T>)
    ensures var apart, size := |predicted - expected| + |expected - predicted|, |predicted| + |expected|;
            && (Round4(Prf1(predicted, expected).f1) == 1.0 <==> size > 0 && 20000 * apart <= size)
            && (size < 20000 ==> (Round4(Prf1(predicted, expected).f1) == 1.0 <==> predicted == expected && size > 0))
  {
    PerfectScoreIff(predicted, expected);
    RoundsToOneIff(Prf1(predicted, expected).f1);
    SymmetricDifference(predicted, expected);
    NearOneIff(predicted, expected);
  }

  lemma NearOneIff<T>(predicted: set<T>, expected: set<T>)
    ensures var size, both := |predicted| + |expected|, |predicted * expected|;
            Prf1(predicted, expected).f1 * 10000.0 >= 9999.5 <==> size > 0 && 20000 * (size - 2 * both) <= size
  {
    var size, both := |predicted| + |expected|, |predicted * expected|;
    if both > 0 {
      F1IsShare(predicted, expected);
      SubsetSize(predicted * expected, predicted);
      ShareAtLeast(Prf1(predicted, expected).f1, both, size);
    } else {
      NoOverlapScoresZero(predicted, expected);
    }
  }

  lemma NoOverlapScoresZero<T>(predicted: set<T>, expected: set<T>)
    requires |predicted * expected| == 0
    ensures Prf1(predicted, expected).f1 == 0.0
  {
    if predicted != {} { F1OfNothing(|predicted|, 1); }
    if expected != {} { F1OfNothing(1, |expected|); }
  }

  lemma SymmetricDifference<T>(a: set<T>, b: set<T>)
    ensures |a - b| + |b - a| == |a| + |b| - 2 * |a * b|
    ensures |a - b| + |b - a| == 0 <==> a == b
  {
    assert a == (a - b) + a * b && b == (b - a) + a * b;
    assert |a| == |a - b| + |a * b| && |b| == |b - a| + |a * b|;
    if |a - b| + |b - a| == 0 { assert a - b == {} && b - a == {}; }
  }

  lemma RoundsToOneIff(x: real)
    requires x <= 1.0
    ensures Round4(x) == 1.0 <==> x * 10000.0 >= 9999.5
  {
    RoundsToTenThousand(x * 10000.0);
    TenThousandths(RoundHalfEven(x * 10000.0));
  }

  lemma RoundsToTenThousand(y: real)
    requires y <= 10000.0
    ensures RoundHalfEven(y) == 10000 <==> y >= 9999.5
  {
    RoundBelowIff(y, 10000);
    RoundIsMonotone(y, 10000.0);
  }

  /** The harmonic mean of precision and recall is the doubled overlap over the two sizes. */
  lemma F1IsShare<T>(predicted: set<T>, expected: set<T>)
    requires predicted * expected != {}
    ensures Prf1(predicted, expected).f1 * (|predicted| + |expected|) as real == 2.0 * |predicted * expected| as real
  {
    var tp, p, e := |predicted * expected| as real, |predicted| as real, |expected| as real;
    Harmonic(tp, p, e);
  }

  lemma SubsetSize<T>(part: set<T>, whole: set<T>)
    requires part <= whole
    ensures |part| <= |whole| && (|part| == |whole| <==> part == whole)
  {
    assert |whole| == |part| + |whole - part|;
    if |whole - part| == 0 { assert whole - part == {}; }
  }

  lemma HarmonicMean(p: real, r: real)
    requires 0.0 <= p <= 1.0 && 0.0 <= r <= 1.0
    ensures 0.0 <= F1Of(p, r) <= 1.0
    ensures F1Of(p, r) == 1.0 <==> p == 1.0 && r == 1.0
  {
    var m := Product(p, r);
    if p + r != 0.0 { TwiceBelowSum(m, p, r); }
  }
}
