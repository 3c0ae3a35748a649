/** The rendered repo map, printed and parsed. */
module RenderedMap {
  import opened Counting

  // The printer of src/sot_graph/repo_map.py and parse_rendered_map of evaluation/exit_gates/common.py,
  // down to the characters at which str.splitlines breaks and that str.strip removes.

  datatype Option<T> = None | Some(value: T)

  /** Files in order of appearance and their stubs. */
  datatype Rendered = Rendered(files: seq<string>, symbols: map<string, seq<string>>)

  // ---- Characters and lines -------------------------------------------------------------

  predicate IsLineBreak(c: char) {
    c in {'\n', '\r', '\U{0B}', '\U{0C}', '\U{1C}', '\U{1D}', '\U{1E}', '\U{85}', '\U{2028}', '\U{2029}'}
  }

  predicate IsSpace(c: char) {
    IsLineBreak(c) || c in {' ', '\t', '\U{1F}', '\U{A0}', '\U{1680}', '\U{202F}', '\U{205F}', '\U{3000}'}
    || '\U{2000}' <= c <= '\U{200A}'
  }

  function FirstBreak(text: string): (i: nat)
    ensures i <= |text| && forall j :: 0 <= j < i ==> !IsLineBreak(text[j])
    ensures i < |text| ==> IsLineBreak(text[i])
  {
    if text == "" || IsLineBreak(text[0]) then 0 else 1 + FirstBreak(text[1..])
  }

  /** str.splitlines: "\r\n" is one break, and a final break adds no empty line. */
  function SplitLines(text: string): seq<string>
    decreases |text|
  {
    if text == "" then []
    else
      var i := FirstBreak(text);
      if i == |text| then [text]
      else
        var width := if text[i] == '\r' && i + 1 < |text| && text[i + 1] == '\n' then 2 else 1;
        [text[..i]] + SplitLines(text[i + width..])
  }

  function JoinLines(lines: seq<string>): string {
    if lines == [] then ""
    else if |lines| == 1 then lines[0]
    else lines[0] + "\n" + JoinLines(lines[1..])
  }

  predicate OneLine(s: string) {
    forall c :: c in s ==> !IsLineBreak(c)
  }

  function StripLeft(s: string): string {
    if s != "" && IsSpace(s[0]) then StripLeft(s[1..]) else s
  }

  function StripRight(s: string): string {
    if s != "" && IsSpace(s[|s| - 1]) then StripRight(s[..|s| - 1]) else s
  }

  function Strip(s: string): string {
    StripRight(StripLeft(s))
  }

  predicate Blank(line: string) {
    forall c :: c in line ==> IsSpace(c)
  }

  // ---- One line ------------------------------------------------------------------------

  datatype Kind = BlankLine | Stub(symbol: string) | Footer | Path(path: string) | Malformed

  /** The tests of parse_rendered_map in their order. */
  function KindOf(line: string): Kind {
    if Blank(line) then BlankLine
    else if "  " <= line then
      if |line| > 2 && !IsSpace(line[2]) then Stub(Strip(line[2..])) else Malformed
    else if line[0] == '(' then Footer
    else if |line| >= 2 && !IsSpace(line[0]) && line[|line| - 1] == ':' then Path(line[..|line| - 1])
    else Malformed
  }

  // ---- The parser ----------------------------------------------------------------------

  datatype Result = Ok(map_: Rendered) | ParseError(lineno: nat)

  datatype State = Good(map_: Rendered, current: Option<string>, read: nat) | Bad(lineno: nat)

  function Step(s: State, line: string): State {
    if s.Bad? then s else StepOn(s, KindOf(line))
  }

  function StepOn(s: State, kind: Kind): State
    requires s.Good?
  {
    match kind
    case BlankLine => s.(read := s.read + 1)
    case Stub(symbol) =>
      if s.current.None? then Bad(s.read + 1)
      else s.(map_ := WithSymbol(s.map_, s.current.value, symbol), read := s.read + 1)
    case Footer => s.(read := s.read + 1)
    case Path(path) => Good(WithFile(s.map_, path), Some(path), s.read + 1)
    case Malformed => Bad(s.read + 1)
  }

  function WithFile(m: Rendered, path: string): Rendered {
    if path in m.symbols then m
    else Rendered(m.files + [path], m.symbols[path := []])
  }

  function WithSymbol(m: Rendered, path: string, symbol: string): Rendered {
    m.(symbols := m.symbols[path := (if path in m.symbols then m.symbols[path] else []) + [symbol]])
  }

  const EMPTY := Rendered([], map[])

  function Scan(start: State, lines: seq<string>): State {
    if lines == [] then start
    else Step(Scan(start, lines[..|lines| - 1]), lines[|lines| - 1])
  }

  function ResultOf(s: State): Result {
    match s
    case Good(m, _, _) => Ok(m)
    case Bad(n) => ParseError(n)
  }

  function Parse(text: string): Result {
    ResultOf(Scan(Good(EMPTY, None, 0), SplitLines(text)))
  }

  /** parse_rendered_map, line by line, raising at the first line outside the grammar. */
  method ParseRenderedMap(text: string) returns (r: Result)
    ensures r == Parse(text)
  {
    r := ParseLines(SplitLines(text));
  }

  method ParseLines(lines: seq<string>) returns (r: Result)
    ensures r == ResultOf(Scan(Good(EMPTY, None, 0), lines))
  {
    var files, symbols, current := [], map[], None;
    for i := 0 to |lines|
      invariant Scan(Good(EMPTY, None, 0), lines[..i]) == Good(Rendered(files, symbols), current, i)
      invariant current.Some? ==> current.value in symbols
    {
      var line := lines[i];
      assert lines[..i + 1][..i] == lines[..i];
      ErrorsPersist(Good(EMPTY, None, 0), lines, i + 1);
      if !Blank(line) {
        if "  " <= line {
          if |line| <= 2 || IsSpace(line[2]) || current.None? {
            return ParseError(i + 1);
          }
          symbols := symbols[current.value := symbols[current.value] + [Strip(line[2..])]];
        } else if line[0] != '(' {
          if |line| < 2 || IsSpace(line[0]) || line[|line| - 1] != ':' {
            return ParseError(i + 1);
          }
          var path := line[..|line| - 1];
          current := Some(path);
          if path !in symbols {
            files := files + [path];
            symbols := symbols[path := []];
          }
        }
      }
    }
    assert lines[..|lines|] == lines;
    r := Ok(Rendered(files, symbols));
  }

  lemma {:induction false} ErrorsPersist(start: State, lines: seq<string>, n: nat)
    requires n <= |lines|
    ensures Scan(start, lines[..n]).Bad? ==> Scan(start, lines) == Scan(start, lines[..n])
    decreases |lines|
  {
    if n == |lines| {
      assert lines[..n] == lines;
    } else {
      assert lines[..|lines| - 1][..n] == lines[..n];
      ErrorsPersist(start, lines[..|lines| - 1], n);
    }
  }

  lemma {:induction false} ScanConcat(start: State, a: seq<string>, b: seq<string>)
    ensures Scan(start, a + b) == Scan(Scan(start, a), b)
    decreases |b|
  {
    if b == [] {
      assert a + b == a;
    } else {
      assert (a + b)[..|a + b| - 1] == a + b[..|b| - 1];
      ScanConcat(start, a, b[..|b| - 1]);
    }
  }

  // ---- What is accepted -----------------------------------------------------------------

  /** The group a line falls under: the last path line before it. */
  function Owner(lines: seq<string>, n: nat): Option<string>
    requires n <= |lines|
  {
    if n == 0 then None
    else match KindOf(lines[n - 1])
      case Path(path) => Some(path)
      case _ => Owner(lines, n - 1)
  }

  predicate LineOk(lines: seq<string>, i: nat)
    requires i < |lines|
  {
    match KindOf(lines[i])
    case Malformed => false
    case Stub(_) => Owner(lines, i).Some?
    case _ => true
  }

  /** Every line is accounted for: the parse fails exactly when some line fits no rule, and it
      reports the first one. */
  lemma {:induction false} RejectsExactlyBadLines(lines: seq<string>)
    ensures var s := Scan(Good(EMPTY, None, 0), lines);
            && (s.Good? <==> forall i :: 0 <= i < |lines| ==> LineOk(lines, i))
            && (s.Good? ==> s.read == |lines| && s.current == Owner(lines, |lines|)
                            && (s.current.Some? ==> s.current.value in s.map_.symbols))
            && (s.Bad? ==> 1 <= s.lineno <= |lines| && !LineOk(lines, s.lineno - 1)
                           && forall i :: 0 <= i < s.lineno - 1 ==> LineOk(lines, i))
    decreases |lines|
  {
    if lines != [] {
      var init, n := lines[..|lines| - 1], |lines| - 1;
      RejectsExactlyBadLines(init);
      forall i | 0 <= i < n ensures LineOk(lines, i) == LineOk(init, i) { OwnerOfPrefix(lines, n, i); }
      OwnerOfPrefix(lines, n, n);
      var before := Scan(Good(EMPTY, None, 0), init);
      if before.Bad? {
        assert !LineOk(lines, before.lineno - 1);
      } else if KindOf(lines[n]).Malformed? || (KindOf(lines[n]).Stub? && before.current.None?) {
        assert !LineOk(lines, n);
      } else {
        forall i | 0 <= i < |lines| ensures LineOk(lines, i) {
          if i < n { assert LineOk(init, i); }
        }
      }
    }
  }

  lemma {:induction false} OwnerOfPrefix(lines: seq<string>, n: nat, i: nat)
    requires i <= n <= |lines|
    ensures Owner(lines, i) == Owner(lines[..n], i)
    decreases i
  {
    if i > 0 { OwnerOfPrefix(lines, n, i - 1); }
  }

  /** Path lines by first appearance. */
  function FilesOf(lines: seq<string>): seq<string> {
    if lines == [] then []
    else
      var before := FilesOf(lines[..|lines| - 1]);
      match KindOf(lines[|lines| - 1])
      case Path(path) => if path in before then before else before + [path]
      case _ => before
  }

  /** The stubs of one file, over all its groups, in order. */
  function StubsOf(lines: seq<string>, file: string): seq<string> {
    if lines == [] then []
    else
      var n := |lines| - 1;
      StubsOf(lines[..n], file)
      + StubFor(KindOf(lines[n]), Owner(lines, n), file)
  }

  function StubFor(kind: Kind, owner: Option<string>, file: string): seq<string> {
    match kind
    case Stub(symbol) => if owner == Some(file) then [symbol] else []
    case _ => []
  }

  /** An accepted text reads as its groups merged by file: files in order of first appearance, each
      with every stub that stands under one of its path lines. */
  lemma MergesGroups(lines: seq<string>)
    requires Scan(Good(EMPTY, None, 0), lines).Good?
    ensures var m := Scan(Good(EMPTY, None, 0), lines).map_;
            && m.files == FilesOf(lines)
            && (forall f :: f in m.symbols <==> f in FilesOf(lines))
            && (forall f :: f in m.symbols ==> m.symbols[f] == StubsOf(lines, f))
            && (forall f :: f !in m.symbols ==> StubsOf(lines, f) == [])
  {
    ListsFiles(lines);
    MergesStubs(lines);
  }

  lemma {:induction false} ListsFiles(lines: seq<string>)
    requires Scan(Good(EMPTY, None, 0), lines).Good?
    ensures var m := Scan(Good(EMPTY, None, 0), lines).map_;
            m.files == FilesOf(lines) && forall f :: f in m.symbols <==> f in FilesOf(lines)
    decreases |lines|
  {
    if lines != [] {
      var init := lines[..|lines| - 1];
      ListsFiles(init);
      RejectsExactlyBadLines(init);
    }
  }

  lemma {:induction false} MergesStubs(lines: seq<string>)
    requires Scan(Good(EMPTY, None, 0), lines).Good?
    ensures StubsListed(Scan(Good(EMPTY, None, 0), lines).map_, lines)
    decreases |lines|
  {
    if lines != [] {
      var init := lines[..|lines| - 1];
      MergesStubs(init);
      RejectsExactlyBadLines(init);
      StubsStep(Scan(Good(EMPTY, None, 0), init), lines);
    }
  }

  ghost predicate StubsListed(m: Rendered, lines: seq<string>) {
    && (forall f :: f in m.symbols ==> m.symbols[f] == StubsOf(lines, f))
    && (forall f :: f !in m.symbols ==> StubsOf(lines, f) == [])
  }

  lemma StubsStep(s: State, lines: seq<string>)
    requires lines != [] && s.Good? && Step(s, lines[|lines| - 1]).Good?
    requires StubsListed(s.map_, lines[..|lines| - 1]) && s.current == Owner(lines[..|lines| - 1], |lines| - 1)
    requires s.current.Some? ==> s.current.value in s.map_.symbols
    ensures StubsListed(Step(s, lines[|lines| - 1]).map_, lines)
  {
    var n := |lines| - 1;
    OwnerOfPrefix(lines, n, n);
    forall f { StubsAfter(s, KindOf(lines[n]), f, StubsOf(lines[..n], f)); }
  }

  predicate Has(m: Rendered, file: string, stubs: seq<string>) {
    if file in m.symbols then m.symbols[file] == stubs else stubs == []
  }

  lemma StubsAfter(s: State, kind: Kind, file: string, stubs: seq<string>)
    requires s.Good? && StepOn(s, kind).Good? && Has(s.map_, file, stubs)
    requires s.current.Some? ==> s.current.value in s.map_.symbols
    ensures Has(StepOn(s, kind).map_, file, stubs + StubFor(kind, s.current, file))
  {
  }

  predicate LooksLikeStub(line: string) {
    !Blank(line) && "  " <= line
  }

  /** RenderedMap.symbol_count. */
  ghost function SymbolCount(m: Rendered): int {
    SumOver(m.symbols.Keys, f => if f in m.symbols then |m.symbols[f]| else 0)
  }

  /** The symbol count of an accepted text is the number of its non-blank lines that start with two spaces. */
  lemma {:induction false} SymbolCountIsStubLines(lines: seq<string>)
    requires Scan(Good(EMPTY, None, 0), lines).Good?
    ensures SymbolCount(Scan(Good(EMPTY, None, 0), lines).map_) == CountIf(lines, LooksLikeStub)
    decreases |lines|
  {
    if lines == [] {
      assert SymbolCount(EMPTY) == 0;
    } else {
      var init, line := lines[..|lines| - 1], lines[|lines| - 1];
      var before := Scan(Good(EMPTY, None, 0), init);
      SymbolCountIsStubLines(init);
      RejectsExactlyBadLines(init);
      match KindOf(line)
      case Stub(symbol) => CountWithSymbol(before.map_, before.current.value, symbol);
      case Path(path) => CountWithFile(before.map_, path);
      case _ =>
    }
  }

  lemma CountWithSymbol(m: Rendered, path: string, symbol: string)
    requires path in m.symbols
    ensures SymbolCount(WithSymbol(m, path, symbol)) == SymbolCount(m) + 1
  {
    var m' := WithSymbol(m, path, symbol);
    var f, g := f => if f in m.symbols then |m.symbols[f]| else 0, f => if f in m'.symbols then |m'.symbols[f]| else 0;
    assert m'.symbols.Keys == m.symbols.Keys;
    SumOverRemove(m.symbols.Keys, f, path);
    SumOverRemove(m.symbols.Keys, g, path);
    SumOverAgree(m.symbols.Keys - {path}, f, g);
  }

  lemma CountWithFile(m: Rendered, path: string)
    ensures SymbolCount(WithFile(m, path)) == SymbolCount(m)
  {
    if path !in m.symbols {
      var m' := WithFile(m, path);
      var f, g := f => if f in m.symbols then |m.symbols[f]| else 0, f => if f in m'.symbols then |m'.symbols[f]| else 0;
      assert m'.symbols.Keys - {path} == m.symbols.Keys;
      SumOverRemove(m'.symbols.Keys, g, path);
      SumOverAgree(m.symbols.Keys, f, g);
    }
  }

  // ---- Printing and reading back --------------------------------------------------------

  predicate GoodPath(path: string) {
    path != "" && !IsSpace(path[0]) && OneLine(path)
  }

  predicate GoodSymbol(symbol: string) {
    symbol != "" && !IsSpace(symbol[0]) && !IsSpace(symbol[|symbol| - 1]) && OneLine(symbol)
  }

  predicate Distinct(xs: seq<string>) {
    forall i, j :: 0 <= i < j < |xs| ==> xs[i] != xs[j]
  }

  /** A map the printer can be given: the parser's own results are such maps. */
  ghost predicate WellFormed(m: Rendered) {
    && Distinct(m.files) && (forall f :: f in m.files <==> f in m.symbols)
    && (forall f :: f in m.symbols ==> GoodPath(f))
    && (forall f, s :: f in m.symbols && s in m.symbols[f] ==> GoodSymbol(s))
  }

  function StubLines(symbols: seq<string>): seq<string> {
    if symbols == [] then [] else StubLines(symbols[..|symbols| - 1]) + ["  " + symbols[|symbols| - 1]]
  }

  function PrintFiles(files: seq<string>, symbols: map<string, seq<string>>): seq<string> {
    if files == [] then []
    else
      var f := files[|files| - 1];
      PrintFiles(files[..|files| - 1], symbols) + [f + ":"] + StubLines(if f in symbols then symbols[f] else [])
  }

  /** The tree of a map followed by its footer lines. */
  function Print(m: Rendered, footer: seq<string>): string {
    JoinLines(PrintFiles(m.files, m.symbols) + footer)
  }

  predicate FooterLine(line: string) {
    line != "" && line[0] == '(' && OneLine(line)
  }

  ghost predicate NoParenthesisedPath(m: Rendered) {
    forall f :: f in m.files && f != "" ==> f[0] != '('
  }

  lemma {:induction false} FirstBreakAt(a: string, b: string)
    requires OneLine(a) && (b == "" || IsLineBreak(b[0]))
    ensures FirstBreak(a + b) == |a|
    decreases |a|
  {
    if a == "" {
      assert a + b == b;
    } else {
      assert a[0] in a;
      assert (a + b)[1..] == a[1..] + b;
      FirstBreakAt(a[1..], b);
    }
  }

  /** Lines survive joining and splitting, as long as none contains a break and the last is not empty. */
  lemma {:induction false} SplitJoin(lines: seq<string>)
    requires forall line :: line in lines ==> OneLine(line)
    requires lines != [] ==> lines[|lines| - 1] != ""
    ensures SplitLines(JoinLines(lines)) == lines
    decreases |lines|
  {
    if |lines| == 1 {
      FirstBreakAt(lines[0], "");
      assert lines[0] + "" == lines[0];
    } else if |lines| > 1 {
      var rest := "\n" + JoinLines(lines[1..]);
      var text := lines[0] + rest;
      assert JoinLines(lines) == text;
      FirstBreakAt(lines[0], rest);
      assert text[..|lines[0]|] == lines[0] && text[|lines[0]| + 1..] == JoinLines(lines[1..]);
      SplitJoin(lines[1..]);
    }
  }

  lemma {:induction false} SplitLinesAreLines(text: string)
    ensures forall line :: line in SplitLines(text) ==> OneLine(line)
    decreases |text|
  {
    if text != "" {
      var i := FirstBreak(text);
      assert OneLine(text[..i]);
      if i < |text| {
        var width := if text[i] == '\r' && i + 1 < |text| && text[i + 1] == '\n' then 2 else 1;
        SplitLinesAreLines(text[i + width..]);
      } else {
        assert text[..i] == text;
      }
    }
  }

  lemma {:induction false} StripLeftKeeps(s: string)
    ensures |StripLeft(s)| <= |s| && StripLeft(s) == s[|s| - |StripLeft(s)|..]
    ensures StripLeft(s) != "" ==> !IsSpace(StripLeft(s)[0])
    decreases |s|
  {
    if s != "" && IsSpace(s[0]) { StripLeftKeeps(s[1..]); }
  }

  lemma {:induction false} StripRightKeeps(s: string)
    ensures StripRight(s) <= s
    ensures StripRight(s) != "" ==> !IsSpace(StripRight(s)[|StripRight(s)| - 1])
    ensures s != "" && !IsSpace(s[0]) ==> StripRight(s) != ""
    decreases |s|
  {
    if s != "" && IsSpace(s[|s| - 1]) { StripRightKeeps(s[..|s| - 1]); }
  }

  /** What the parser takes from a line is fit to be printed, and never starts with a parenthesis. */
  lemma KindsAreGood(line: string)
    requires OneLine(line)
    ensures KindOf(line).Stub? ==> GoodSymbol(KindOf(line).symbol)
    ensures KindOf(line).Path? ==> GoodPath(KindOf(line).path) && KindOf(line).path[0] != '('
  {
    match KindOf(line)
    case Stub(symbol) =>
      var body := line[2..];
      assert body[0] == line[2];
      assert StripLeft(body) == body;
      StripRightKeeps(body);
      assert symbol[0] == body[0];
      assert forall c :: c in symbol ==> c in line;
    case Path(path) =>
      assert path[0] == line[0];
    case _ =>
  }

  lemma {:induction false} ParsedIsWellFormed(lines: seq<string>)
    requires forall line :: line in lines ==> OneLine(line)
    requires Scan(Good(EMPTY, None, 0), lines).Good?
    ensures var m := Scan(Good(EMPTY, None, 0), lines).map_; WellFormed(m) && NoParenthesisedPath(m)
    decreases |lines|
  {
    if lines != [] {
      var init, line := lines[..|lines| - 1], lines[|lines| - 1];
      assert forall l :: l in init ==> l in lines;
      ParsedIsWellFormed(init);
      RejectsExactlyBadLines(init);
      assert line in lines;
      KindsAreGood(line);
    }
  }

  lemma PrintedKinds(path: string, symbol: string)
    ensures GoodPath(path) ==> KindOf(path + ":") == if path[0] == '(' then Footer else Path(path)
    ensures GoodSymbol(symbol) ==> KindOf("  " + symbol) == Stub(symbol)
  {
    var header, stub := path + ":", "  " + symbol;
    if GoodPath(path) {
      assert header[0] == path[0] && header[0] in header;
      assert header[..|header| - 1] == path;
    }
    if GoodSymbol(symbol) {
      assert stub[2] == symbol[0] && stub[2] in stub;
      assert stub[2..] == symbol;
      assert StripLeft(symbol) == symbol && StripRight(symbol) == symbol;
    }
  }

  lemma {:induction false} ScanStubs(m: Rendered, file: string, read: nat, symbols: seq<string>)
    requires file in m.symbols && forall s :: s in symbols ==> GoodSymbol(s)
    ensures Scan(Good(m, Some(file), read), StubLines(symbols))
            == Good(WithStubs(m, file, symbols), Some(file), read + |symbols|)
    decreases |symbols|
  {
    if symbols == [] {
      assert m.symbols[file] + symbols == m.symbols[file];
    } else {
      var init, last := symbols[..|symbols| - 1], symbols[|symbols| - 1];
      ScanStubs(m, file, read, init);
      PrintedKinds("", last);
      OneMoreStub(m, file, init, last);
      assert init + [last] == symbols;
      assert StubLines(symbols)[..|StubLines(symbols)| - 1] == StubLines(init);
    }
  }

  function WithStubs(m: Rendered, file: string, symbols: seq<string>): Rendered
    requires file in m.symbols
  {
    m.(symbols := m.symbols[file := m.symbols[file] + symbols])
  }

  lemma OneMoreStub(m: Rendered, file: string, init: seq<string>, last: string)
    requires file in m.symbols
    ensures WithSymbol(WithStubs(m, file, init), file, last) == WithStubs(m, file, init + [last])
  {
    assert m.symbols[file] + init + [last] == m.symbols[file] + (init + [last]);
  }

  function Restrict(files: seq<string>, symbols: map<string, seq<string>>): Rendered {
    Rendered(files, map f | f in files && f in symbols :: symbols[f])
  }

  lemma ScanHeader(m: Rendered, current: Option<string>, read: nat, f: string)
    requires GoodPath(f)
    ensures Scan(Good(m, current, read), [f + ":"])
            == if f[0] == '(' then Good(m, current, read + 1) else Good(WithFile(m, f), Some(f), read + 1)
  {
    PrintedKinds(f, "");
    assert [f + ":"][..0] == [];
  }

  lemma ScanGroup(m: Rendered, current: Option<string>, read: nat, f: string, symbols: seq<string>)
    requires f !in m.symbols && GoodPath(f) && f[0] != '(' && forall s :: s in symbols ==> GoodSymbol(s)
    ensures Scan(Good(m, current, read), [f + ":"] + StubLines(symbols))
            == Good(Rendered(m.files + [f], m.symbols[f := symbols]), Some(f), read + 1 + |symbols|)
  {
    var added := WithFile(m, f);
    ScanConcat(Good(m, current, read), [f + ":"], StubLines(symbols));
    ScanHeader(m, current, read, f);
    ScanStubs(added, f, read + 1, symbols);
    SymbolsReplaced(m.symbols, f, symbols);
  }

  lemma SymbolsReplaced(m: map<string, seq<string>>, f: string, symbols: seq<string>)
    ensures m[f := []][f := m[f := []][f] + symbols] == m[f := symbols]
  {
    assert m[f := []][f] + symbols == symbols;
  }

  lemma PrintSnoc(files: seq<string>, f: string, symbols: map<string, seq<string>>)
    requires f in symbols
    ensures PrintFiles(files + [f], symbols) == PrintFiles(files, symbols) + ([f + ":"] + StubLines(symbols[f]))
  {
    assert (files + [f])[..|files|] == files;
  }

  lemma RestrictSnoc(files: seq<string>, f: string, symbols: map<string, seq<string>>)
    requires f in symbols && f !in files
    ensures Restrict(files + [f], symbols) == Rendered(files + [f], Restrict(files, symbols).symbols[f := symbols[f]])
    ensures f !in Restrict(files, symbols).symbols
  {
  }

  lemma {:induction false} ScanPrinted(files: seq<string>, symbols: map<string, seq<string>>)
    requires Distinct(files) && forall f :: f in files ==> f in symbols && GoodPath(f) && f[0] != '('
    requires forall f, s :: f in files && s in symbols[f] ==> GoodSymbol(s)
    ensures var s := Scan(Good(EMPTY, None, 0), PrintFiles(files, symbols));
            s.Good? && s.map_ == Restrict(files, symbols)
    decreases |files|
  {
    if files == [] {
      assert Restrict(files, symbols) == EMPTY;
    } else {
      var init, f := files[..|files| - 1], files[|files| - 1];
      assert files == init + [f];
      assert forall g :: g in init ==> g in files;
      ScanPrinted(init, symbols);
      var before := Scan(Good(EMPTY, None, 0), PrintFiles(init, symbols));
      RestrictSnoc(init, f, symbols);
      ScanGroup(before.map_, before.current, before.read, f, symbols[f]);
      PrintSnoc(init, f, symbols);
      ScanConcat(Good(EMPTY, None, 0), PrintFiles(init, symbols), [f + ":"] + StubLines(symbols[f]));
    }
  }

  lemma {:induction false} ScanFooter(s: State, footer: seq<string>)
    requires s.Good? && forall line :: line in footer ==> FooterLine(line)
    ensures Scan(s, footer).Good? && Scan(s, footer).map_ == s.map_
    decreases |footer|
  {
    if footer != [] {
      ScanFooter(s, footer[..|footer| - 1]);
      var line := footer[|footer| - 1];
      assert line in footer && line[0] in line;
    }
  }

  lemma {:induction false} PrintedLines(files: seq<string>, symbols: map<string, seq<string>>)
    requires forall f :: f in files ==> f in symbols && GoodPath(f)
    requires forall f, s :: f in files && s in symbols[f] ==> GoodSymbol(s)
    ensures forall line :: line in PrintFiles(files, symbols) ==> line != "" && OneLine(line)
    decreases |files|
  {
    if files != [] {
      var f := files[|files| - 1];
      PrintedLines(files[..|files| - 1], symbols);
      PrintedStubs(symbols[f]);
    }
  }

  lemma {:induction false} PrintedStubs(symbols: seq<string>)
    requires forall s :: s in symbols ==> GoodSymbol(s)
    ensures forall line :: line in StubLines(symbols) ==> line != "" && OneLine(line)
    decreases |symbols|
  {
    if symbols != [] {
      var last := symbols[|symbols| - 1];
      assert last in symbols && GoodSymbol(last);
      PrintedStubs(symbols[..|symbols| - 1]);
      assert forall c :: c in "  " + last ==> c == ' ' || c in last;
    }
  }

  lemma PrintSplits(m: Rendered, footer: seq<string>)
    requires WellFormed(m) && forall line :: line in footer ==> FooterLine(line)
    ensures SplitLines(Print(m, footer)) == PrintFiles(m.files, m.symbols) + footer
  {
    PrintedLines(m.files, m.symbols);
    var lines := PrintFiles(m.files, m.symbols) + footer;
    if lines != [] { assert lines[|lines| - 1] in lines; }
    SplitJoin(lines);
  }

  /** The parser inverts the printer on a well-formed map, footer included, if and only if no path
      starts with a parenthesis: such a path line is taken for a footer. */
  lemma RoundTripIff(m: Rendered, footer: seq<string>)
    requires WellFormed(m) && forall line :: line in footer ==> FooterLine(line)
    ensures Parse(Print(m, footer)) == Ok(m) <==> NoParenthesisedPath(m)
  {
    PrintSplits(m, footer);
    var lines := PrintFiles(m.files, m.symbols);
    if NoParenthesisedPath(m) {
      ScanPrinted(m.files, m.symbols);
      ScanConcat(Good(EMPTY, None, 0), lines, footer);
      ScanFooter(Scan(Good(EMPTY, None, 0), lines), footer);
      assert Restrict(m.files, m.symbols) == m;
    }
    if Parse(Print(m, footer)) == Ok(m) {
      SplitLinesAreLines(Print(m, footer));
      ParsedIsWellFormed(lines + footer);
    }
  }

  /** Printing what was parsed and parsing it again changes nothing, for every accepted text. */
  lemma ParsePrintParse(text: string, footer: seq<string>)
    requires Parse(text).Ok? && forall line :: line in footer ==> FooterLine(line)
    ensures Parse(Print(Parse(text).map_, footer)) == Parse(text)
  {
    SplitLinesAreLines(text);
    ParsedIsWellFormed(SplitLines(text));
    RoundTripIff(Parse(text).map_, footer);
  }

  /** What becomes of a group whose path starts with a parenthesis: its stubs are credited to the
      group before it, or the text is rejected when there is none. */
  lemma ParenthesisedGroupIsMisread(m: Rendered, current: Option<string>, read: nat, path: string, symbols: seq<string>)
    requires GoodPath(path) && path[0] == '(' && symbols != [] && forall s :: s in symbols ==> GoodSymbol(s)
    requires current.Some? ==> current.value in m.symbols
    ensures var s := Scan(Good(m, current, read), [path + ":"] + StubLines(symbols));
            if current.None? then s == Bad(read + 2)
            else s.Good? && s.map_ == m.(symbols := m.symbols[current.value := m.symbols[current.value] + symbols])
  {
    var start, header := Good(m, current, read), [path + ":"];
    ScanConcat(start, header, StubLines(symbols));
    ScanHeader(m, current, read, path);
    if current.Some? {
      ScanStubs(m, current.value, read + 1, symbols);
    } else {
      FirstStubFails(Good(m, None, read + 1), symbols);
    }
  }

  lemma {:induction false} FirstStubFails(s: State, symbols: seq<string>)
    requires s.Good? && s.current.None? && symbols != [] && forall x :: x in symbols ==> GoodSymbol(x)
    ensures Scan(s, StubLines(symbols)) == Bad(s.read + 1)
    decreases |symbols|
  {
    var lines := StubLines(symbols);
    assert lines[..|lines| - 1] == StubLines(symbols[..|symbols| - 1]);
    PrintedKinds("", symbols[|symbols| - 1]);
    if |symbols| > 1 {
      FirstStubFails(s, symbols[..|symbols| - 1]);
    } else {
      assert lines[..0] == [];
    }
  }
}
