/** The declared category oracle of evaluation/exit_gates/common.py beside the production classifier
    of src/sot_graph/repo_map.py, on canonical paths: a non-empty list of segments. Lower-casing is
    any function, since the oracle uses it in a rule that can only flag more. */
module CategoryOracle {

  datatype Category = Production | Test | Fixture | Vendor | Generated | Docs | Tooling

  /** Directory names rule by rule: those both classifiers know, and those only the oracle knows. */
  datatype Names = Names(
    fixture: set<string>, test: set<string>, vendor: set<string>,
    generated: set<string>, docs: set<string>, tooling: set<string>,
    extraFixture: set<string>, extraVendor: set<string>, extraGenerated: set<string>)

  /** The tables as declared. */
  const NAMES := Names(
    {"fixtures", "fixture", "testdata", "test_data", "evaluation", "evals", "__snapshots__", "__fixtures__"},
    {"tests", "test", "spec", "specs", "__tests__"},
    {"vendor", "_vendor", "vendored", "third_party", "thirdparty", "external", "node_modules"},
    {"dist", "build", "out", "generated", "_generated", "coverage", "__pycache__"},
    {"docs", "doc", "documentation"},
    {"scripts", "tools", "tooling", "benchmark", "benchmarks", "benches", "ci", ".github", ".circleci", ".gitlab"},
    {"testdata_", "golden", "goldens", "samples"},
    {"bower_components"},
    {".tox", ".venv"})

  predicate AnyIn(segments: seq<string>, names: set<string>) {
    exists s :: s in segments && s in names
  }

  predicate EndsWith(s: string, suffix: string) {
    |suffix| <= |s| && s[|s| - |suffix|..] == suffix
  }

  predicate Contains(s: string, part: string) {
    part <= s || (s != "" && Contains(s[1..], part))
  }

  predicate TestFile(base: string) {
    "conftest." <= base || "test_" <= base || Contains(base, "_test.")
  }

  predicate MinifiedFile(base: string) {
    EndsWith(base, ".min.js") || EndsWith(base, ".min.css")
  }

  /** classify_path: segment rules in precedence order, then filename rules. */
  function Classify(n: Names, path: seq<string>): Category
    requires path != []
  {
    var base := path[|path| - 1];
    if AnyIn(path, n.fixture) then Fixture
    else if AnyIn(path, n.test) then Test
    else if AnyIn(path, n.vendor) then Vendor
    else if AnyIn(path, n.generated) then Generated
    else if AnyIn(path, n.docs) then Docs
    else if AnyIn(path, n.tooling) then Tooling
    else if TestFile(base) then Test
    else if MinifiedFile(base) then Vendor
    else if EndsWith(base, "_pb2.py") || EndsWith(base, "_pb2_grpc.py") then Generated
    else Production
  }

  predicate Marked(low: string, mark: string) {
    mark <= low || EndsWith(low, mark)
  }

  predicate LooksVendored(segment: string, lower: string -> string) {
    var low := lower(segment);
    Marked(low, "vendor") || Marked(low, "fixture") || Marked(low, "testdata")
  }

  /** oracle_category's extra rule on directory names: the first that looks vendored decides. */
  function Heuristic(dirs: seq<string>, lower: string -> string): (c: Category)
    ensures c in {Production, Fixture, Vendor}
  {
    if dirs == [] then Production
    else if LooksVendored(dirs[0], lower) then
      if Contains(lower(dirs[0]), "vendor") then Vendor else Fixture
    else Heuristic(dirs[1..], lower)
  }

  function Oracle(n: Names, path: seq<string>, lower: string -> string): Category
    requires path != []
  {
    var base := path[|path| - 1];
    var byName := Heuristic(path[..|path| - 1], lower);
    if AnyIn(path, n.fixture + n.extraFixture) then Fixture
    else if AnyIn(path, n.test) then Test
    else if AnyIn(path, n.vendor + n.extraVendor) then Vendor
    else if AnyIn(path, n.generated + n.extraGenerated) then Generated
    else if AnyIn(path, n.docs) then Docs
    else if AnyIn(path, n.tooling) then Tooling
    else if byName != Production then byName
    else if TestFile(base) || EndsWith(base, "_test.py") then Test
    else if MinifiedFile(base) || EndsWith(base, ".bundle.js") || EndsWith(base, ".bundle.min.js") then Vendor
    else if EndsWith(base, "_pb2.py") || EndsWith(base, "_pb2_grpc.py") || EndsWith(base, ".pyc") || EndsWith(base, ".min.js.map") then Generated
    else Production
  }

  predicate Contaminated(c: Category) {
    c == Fixture || c == Vendor
  }

  /** The oracle is declared a superset that can never under-flag. It does under-flag, on exactly one
      family of paths: minified files that are not test files by name, below a directory only the oracle
      calls generated, with no other name in any table of directories. */
  lemma UnderFlagsIff(n: Names, path: seq<string>, lower: string -> string)
    requires path != []
    ensures Contaminated(Classify(n, path)) && !Contaminated(Oracle(n, path, lower))
            <==> && AnyIn(path, n.extraGenerated) && !AnyIn(path, n.extraFixture) && !AnyIn(path, n.extraVendor)
                 && !AnyIn(path, n.fixture + n.test + n.vendor + n.generated + n.docs + n.tooling)
                 && MinifiedFile(path[|path| - 1]) && !TestFile(path[|path| - 1])
  {
    AnyInUnion(path, n.fixture, n.extraFixture);
    AnyInUnion(path, n.vendor, n.extraVendor);
    AnyInUnion(path, n.generated, n.extraGenerated);
    AnyInTables(n, path);
    var base := path[|path| - 1];
    if EndsWith(base, "_test.py") { TestModuleIsTestFile(base); }
  }

  lemma AnyInTables(n: Names, path: seq<string>)
    ensures AnyIn(path, n.fixture + n.test + n.vendor + n.generated + n.docs + n.tooling)
            <==> || AnyIn(path, n.fixture) || AnyIn(path, n.test) || AnyIn(path, n.vendor)
                 || AnyIn(path, n.generated) || AnyIn(path, n.docs) || AnyIn(path, n.tooling)
  {
    AnyInUnion(path, n.fixture, n.test);
    AnyInUnion(path, n.fixture + n.test, n.vendor);
    AnyInUnion(path, n.fixture + n.test + n.vendor, n.generated);
    AnyInUnion(path, n.fixture + n.test + n.vendor + n.generated, n.docs);
    AnyInUnion(path, n.fixture + n.test + n.vendor + n.generated + n.docs, n.tooling);
  }

  lemma AnyInUnion(path: seq<string>, a: set<string>, b: set<string>)
    ensures AnyIn(path, a + b) <==> AnyIn(path, a) || AnyIn(path, b)
  {
  }

  lemma {:induction false} TestModuleIsTestFile(base: string)
    requires EndsWith(base, "_test.py")
    ensures Contains(base, "_test.")
    decreases |base|
  {
    if |base| > 8 {
      assert base[1..][|base[1..]| - 8..] == base[|base| - 8..];
      TestModuleIsTestFile(base[1..]);
    } else {
      assert base == "_test.py";
    }
  }

  /** Everywhere else the claim holds: what production calls fixture or vendor, the oracle counts as
      contamination, whatever its heuristics on directory names say. */
  lemma NeverUnderFlagsElsewhere(n: Names, path: seq<string>, lower: string -> string)
    requires path != [] && Contaminated(Classify(n, path))
    requires || !AnyIn(path, n.extraGenerated) || AnyIn(path, n.extraFixture) || AnyIn(path, n.extraVendor)
             || AnyIn(path, n.fixture + n.test + n.vendor + n.generated + n.docs + n.tooling)
             || !MinifiedFile(path[|path| - 1]) || TestFile(path[|path| - 1])
    ensures Contaminated(Oracle(n, path, lower))
  {
    UnderFlagsIff(n, path, lower);
    AnyInTables(n, path);
  }

  lemma NotNamed(path: seq<string>)
    requires path == [".venv", "a.min.js"]
    ensures !AnyIn(path, NAMES.fixture) && !AnyIn(path, NAMES.test) && !AnyIn(path, NAMES.vendor)
    ensures !AnyIn(path, NAMES.generated) && !AnyIn(path, NAMES.docs) && !AnyIn(path, NAMES.tooling)
    ensures !AnyIn(path, NAMES.extraFixture) && !AnyIn(path, NAMES.extraVendor) && AnyIn(path, NAMES.extraGenerated)
  {
    assert path[0] in path;
  }

  lemma {:induction false} ContainsFirst(s: string, part: string)
    requires Contains(s, part) && part != ""
    ensures part[0] in s
    decreases |s|
  {
    if !(part <= s) { ContainsFirst(s[1..], part); }
  }

  lemma MinifiedScript(n: Names, path: seq<string>)
    requires path != [] && path[|path| - 1] == "a.min.js"
    requires !AnyIn(path, n.fixture) && !AnyIn(path, n.test) && !AnyIn(path, n.vendor)
    requires !AnyIn(path, n.generated) && !AnyIn(path, n.docs) && !AnyIn(path, n.tooling)
    ensures Classify(n, path) == Vendor
  {
    var base := path[|path| - 1];
    if Contains(base, "_test.") { ContainsFirst(base, "_test."); }
    assert base[1..] == ".min.js";
  }

  /** The family is not empty with the declared tables. */
  lemma UnderFlagsVirtualenvs(lower: string -> string)
    ensures Contaminated(Classify(NAMES, [".venv", "a.min.js"])) && !Contaminated(Oracle(NAMES, [".venv", "a.min.js"], lower))
  {
    var path := [".venv", "a.min.js"];
    NotNamed(path);
    MinifiedScript(NAMES, path);
    UnderFlagsIff(NAMES, path, lower);
  }

  // ---- What counts as contaminated ------------------------------------------------------------

  /** A directory name that begins or ends, lower-cased, with one of the three marks. */
  ghost predicate MarkedDirectory(dir: string, lower: string -> string) {
    exists mark, rest :: mark in {"vendor", "fixture", "testdata"} && (lower(dir) == mark + rest || lower(dir) == rest + mark)
  }

  lemma MarkedIff(dir: string, lower: string -> string)
    ensures LooksVendored(dir, lower) <==> MarkedDirectory(dir, lower)
  {
    var low := lower(dir);
    forall mark ensures Marked(low, mark) <==> exists rest :: low == mark + rest || low == rest + mark {
      if mark <= low { assert low == mark + low[|mark|..]; }
      if EndsWith(low, mark) { assert low == low[..|low| - |mark|] + mark; }
    }
  }

  lemma {:induction false} HeuristicFires(dirs: seq<string>, lower: string -> string)
    ensures Heuristic(dirs, lower) != Production <==> exists dir :: dir in dirs && MarkedDirectory(dir, lower)
    decreases |dirs|
  {
    if dirs != [] {
      MarkedIff(dirs[0], lower);
      HeuristicFires(dirs[1..], lower);
      assert dirs == [dirs[0]] + dirs[1..];
    }
  }

  /** The production classifier finds a path contaminated by a fixture directory, or else by a vendor
      directory without a test directory, or, where no directory decides, by a minified file that is no test. */
  lemma ClassifiedContaminatedIff(n: Names, path: seq<string>)
    requires path != []
    ensures Contaminated(Classify(n, path))
            <==> || AnyIn(path, n.fixture)
                 || (!AnyIn(path, n.test) && AnyIn(path, n.vendor))
                 || (!AnyIn(path, n.test + n.generated + n.docs + n.tooling)
                     && MinifiedFile(path[|path| - 1]) && !TestFile(path[|path| - 1]))
  {
    AnyInUnion(path, n.test, n.generated);
    AnyInUnion(path, n.test + n.generated, n.docs);
    AnyInUnion(path, n.test + n.generated + n.docs, n.tooling);
  }

  /** The oracle does so with its longer tables, by the name of any directory as well, and for bundles. */
  lemma OracleContaminatedIff(n: Names, path: seq<string>, lower: string -> string)
    requires path != []
    ensures Contaminated(Oracle(n, path, lower))
            <==> || AnyIn(path, n.fixture + n.extraFixture)
                 || (!AnyIn(path, n.test) && AnyIn(path, n.vendor + n.extraVendor))
                 || (!AnyIn(path, n.test + (n.generated + n.extraGenerated) + n.docs + n.tooling)
                     && ((exists dir :: dir in path[..|path| - 1] && MarkedDirectory(dir, lower))
                         || (BundledFile(path[|path| - 1]) && !TestFile(path[|path| - 1]))))
  {
    HeuristicFires(path[..|path| - 1], lower);
    AnyInUnion(path, n.test, n.generated + n.extraGenerated);
    AnyInUnion(path, n.test + (n.generated + n.extraGenerated), n.docs);
    AnyInUnion(path, n.test + (n.generated + n.extraGenerated) + n.docs, n.tooling);
    var base := path[|path| - 1];
    if EndsWith(base, "_test.py") { TestModuleIsTestFile(base); }
  }

  predicate BundledFile(base: string) {
    MinifiedFile(base) || EndsWith(base, ".bundle.js") || EndsWith(base, ".bundle.min.js")
  }

  // ---- The rules as tables --------------------------------------------------------------------

  /** A directory rule: a path with one of these names in it is of this category. */
  datatype Rule = Rule(category: Category, names: set<string>)

  function ProductionRules(n: Names): seq<Rule> {
    [Rule(Fixture, n.fixture), Rule(Test, n.test), Rule(Vendor, n.vendor),
     Rule(Generated, n.generated), Rule(Docs, n.docs), Rule(Tooling, n.tooling)]
  }

  function OracleRules(n: Names): seq<Rule> {
    [Rule(Fixture, n.fixture + n.extraFixture), Rule(Test, n.test), Rule(Vendor, n.vendor + n.extraVendor),
     Rule(Generated, n.generated + n.extraGenerated), Rule(Docs, n.docs), Rule(Tooling, n.tooling)]
  }

  predicate NoRule(rules: seq<Rule>, path: seq<string>) {
    forall i :: 0 <= i < |rules| ==> !AnyIn(path, rules[i].names)
  }

  /** The first rule that applies to the path gives the category. */
  predicate FirstRuleGives(rules: seq<Rule>, path: seq<string>, c: Category) {
    exists i :: 0 <= i < |rules| && AnyIn(path, rules[i].names) && rules[i].category == c && NoRule(rules[..i], path)
  }

  /** The position of the first rule that applies, or one past the last. */
  lemma FirstApplying(rules: seq<Rule>, path: seq<string>) returns (i: nat)
    ensures i <= |rules| && (i < |rules| <==> !NoRule(rules, path))
    ensures forall j :: 0 <= j < i ==> !AnyIn(path, rules[j].names)
    ensures i < |rules| ==> AnyIn(path, rules[i].names) && FirstRuleGives(rules, path, rules[i].category)
  {
    i := 0;
    while i < |rules| && !AnyIn(path, rules[i].names)
      invariant i <= |rules| && forall j :: 0 <= j < i ==> !AnyIn(path, rules[j].names)
    {
      i := i + 1;
    }
    assert NoRule(rules[..i], path);
  }

  /** A path is of the category of the first directory rule that applies to it; where none does its file
      name decides, and a file that no name rule knows is production code. */
  lemma ClassifiedByFirstRule(n: Names, path: seq<string>)
    requires path != []
    ensures var c, base := Classify(n, path), path[|path| - 1];
            if !NoRule(ProductionRules(n), path) then FirstRuleGives(ProductionRules(n), path, c)
            else && (c == Test <==> TestFile(base))
                 && (c == Vendor <==> !TestFile(base) && MinifiedFile(base))
                 && (c == Generated <==> !TestFile(base) && !MinifiedFile(base)
                                         && (EndsWith(base, "_pb2.py") || EndsWith(base, "_pb2_grpc.py")))
                 && c in {Test, Vendor, Generated, Production}
  {
    var rules := ProductionRules(n);
    var i := FirstApplying(rules, path);
    assert |rules| == 6 && rules[0].names == n.fixture && rules[1].names == n.test && rules[2].names == n.vendor;
    assert rules[3].names == n.generated && rules[4].names == n.docs && rules[5].names == n.tooling;
  }

  /** The oracle's longer tables, then the directories that look vendored, then its longer name rules. */
  lemma OracleByFirstRule(n: Names, path: seq<string>, lower: string -> string)
    requires path != []
    ensures var c, base, named := Oracle(n, path, lower), path[|path| - 1], Heuristic(path[..|path| - 1], lower);
            var test := TestFile(base) || EndsWith(base, "_test.py");
            if !NoRule(OracleRules(n), path) then FirstRuleGives(OracleRules(n), path, c)
            else if exists dir :: dir in path[..|path| - 1] && MarkedDirectory(dir, lower) then c == named != Production
            else && (c == Test <==> test)
                 && (c == Vendor <==> !test && BundledFile(base))
                 && (c == Generated <==> !test && !BundledFile(base)
                                         && (EndsWith(base, "_pb2.py") || EndsWith(base, "_pb2_grpc.py")
                                             || EndsWith(base, ".pyc") || EndsWith(base, ".min.js.map")))
                 && c in {Test, Vendor, Generated, Production}
  {
    var rules := OracleRules(n);
    var i := FirstApplying(rules, path);
    assert |rules| == 6 && rules[0].names == n.fixture + n.extraFixture && rules[1].names == n.test;
    assert rules[2].names == n.vendor + n.extraVendor && rules[3].names == n.generated + n.extraGenerated;
    assert rules[4].names == n.docs && rules[5].names == n.tooling;
    HeuristicFires(path[..|path| - 1], lower);
  }
}
