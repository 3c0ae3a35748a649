/** The grammar of parse_rendered_map (evaluation/exit_gates/common.py) by characters: what a path line, a
    stub line, a footer and a blank line look like, what is taken from each, which texts the parser accepts,
    and which line it names in the error otherwise. */
module MapGrammar {
  import opened RenderedMap

  // ---- Lines --------------------------------------------------------------------------------

  /** A path without a leading space or parenthesis, and a colon. */
  predicate PathLine(line: string, path: string) {
    line == path + ":" && path != "" && !IsSpace(path[0]) && path[0] != '('
  }

  /** Two spaces, a symbol that neither begins nor ends in white space, and white space. */
  ghost predicate StubLine(line: string, symbol: string) {
    && symbol != "" && !IsSpace(symbol[0]) && !IsSpace(symbol[|symbol| - 1])
    && exists tail :: Blank(tail) && line == "  " + symbol + tail
  }

  predicate Parenthesised(line: string) {
    line != "" && line[0] == '('
  }

  lemma {:induction false} StripsTail(symbol: string, tail: string)
    requires symbol != "" && !IsSpace(symbol[|symbol| - 1]) && Blank(tail)
    ensures StripRight(symbol + tail) == symbol
    decreases |tail|
  {
    if tail == "" {
      assert symbol + tail == symbol;
    } else {
      var init := tail[..|tail| - 1];
      assert tail[|tail| - 1] in tail;
      assert (symbol + tail)[..|symbol + tail| - 1] == symbol + init;
      StripsTail(symbol, init);
    }
  }

  lemma {:induction false} TailStripped(s: string)
    ensures exists tail :: Blank(tail) && s == StripRight(s) + tail
    decreases |s|
  {
    if s != "" && IsSpace(s[|s| - 1]) {
      var init, last := s[..|s| - 1], s[|s| - 1];
      TailStripped(init);
      var tail :| Blank(tail) && init == StripRight(init) + tail;
      assert s == StripRight(s) + (tail + [last]);
    } else {
      assert Blank("") && s == StripRight(s) + "";
    }
  }

  /** Each kind of line, and what is taken from it. */
  lemma KindsMean(line: string)
    ensures KindOf(line).BlankLine? <==> forall c :: c in line ==> IsSpace(c)
    ensures KindOf(line).Footer? <==> Parenthesised(line)
    ensures forall path :: KindOf(line) == Path(path) <==> PathLine(line, path)
    ensures forall symbol :: KindOf(line) == Stub(symbol) <==> StubLine(line, symbol)
  {
    if Parenthesised(line) { assert line[0] in line && !IsSpace('('); }
    forall path ensures KindOf(line) == Path(path) <==> PathLine(line, path) { PathKind(line, path); }
    forall symbol ensures KindOf(line) == Stub(symbol) <==> StubLine(line, symbol) { StubKind(line, symbol); }
  }

  lemma PathKind(line: string, path: string)
    ensures KindOf(line) == Path(path) <==> PathLine(line, path)
  {
    if PathLine(line, path) {
      assert line[0] == path[0] && line[0] in line;
      assert line[..|line| - 1] == path;
    }
    if KindOf(line) == Path(path) {
      assert line == line[..|line| - 1] + [line[|line| - 1]];
    }
  }

  lemma StubKind(line: string, symbol: string)
    ensures KindOf(line) == Stub(symbol) <==> StubLine(line, symbol)
  {
    if StubLine(line, symbol) {
      var tail :| Blank(tail) && line == "  " + symbol + tail;
      StubRead(symbol, tail);
    }
    if KindOf(line) == Stub(symbol) { StubTaken(line); }
  }

  lemma StubRead(symbol: string, tail: string)
    requires symbol != "" && !IsSpace(symbol[0]) && !IsSpace(symbol[|symbol| - 1]) && Blank(tail)
    ensures KindOf("  " + symbol + tail) == Stub(symbol)
  {
    var line := "  " + symbol + tail;
    assert line[2] == symbol[0] && line[2] in line;
    assert line[2..] == symbol + tail;
    assert StripLeft(symbol + tail) == symbol + tail;
    StripsTail(symbol, tail);
  }

  lemma StubTaken(line: string)
    requires KindOf(line).Stub?
    ensures StubLine(line, KindOf(line).symbol)
  {
    var rest := line[2..];
    assert StripLeft(rest) == rest;
    TailStripped(rest);
    StripRightKeeps(rest);
    var symbol := StripRight(rest);
    assert KindOf(line).symbol == symbol;
    var tail :| Blank(tail) && rest == symbol + tail;
    assert symbol[0] == rest[0] == line[2];
    assert line == "  " + rest;
    assert line == "  " + symbol + tail;
  }

  // ---- Texts --------------------------------------------------------------------------------

  ghost predicate IsPath(line: string) {
    exists path :: PathLine(line, path)
  }

  ghost predicate IsStub(line: string) {
    exists symbol :: StubLine(line, symbol)
  }

  /** The line is blank, or a footer, or a path, or a stub with a path somewhere above it. */
  ghost predicate Allowed(lines: seq<string>, i: nat)
    requires i < |lines|
  {
    || Blank(lines[i]) || Parenthesised(lines[i]) || IsPath(lines[i])
    || (IsStub(lines[i]) && exists j :: 0 <= j < i && IsPath(lines[j]))
  }

  lemma {:induction false} OwnerMeans(lines: seq<string>, n: nat)
    requires n <= |lines|
    ensures Owner(lines, n).Some? <==> exists j :: 0 <= j < n && IsPath(lines[j])
    decreases n
  {
    if n > 0 {
      OwnerMeans(lines, n - 1);
      KindsMean(lines[n - 1]);
      if KindOf(lines[n - 1]).Path? { assert PathLine(lines[n - 1], KindOf(lines[n - 1]).path); }
    }
  }

  lemma LineOkMeans(lines: seq<string>, i: nat)
    requires i < |lines|
    ensures LineOk(lines, i) <==> Allowed(lines, i)
  {
    var line := lines[i];
    KindsMean(line);
    OwnerMeans(lines, i);
    if KindOf(line).Path? { assert PathLine(line, KindOf(line).path); }
    if KindOf(line).Stub? { assert StubLine(line, KindOf(line).symbol); }
  }

  ghost predicate AllAllowed(lines: seq<string>, n: nat)
    requires n <= |lines|
  {
    forall i: nat :: i < n ==> Allowed(lines, i)
  }

  /** A text parses if and only if every line of it is allowed, and otherwise the error names the first
      that is not. */
  lemma ParsesIff(text: string)
    ensures var lines, r := SplitLines(text), Parse(text);
            && (r.Ok? <==> AllAllowed(lines, |lines|))
            && (r.ParseError? ==> 1 <= r.lineno <= |lines| && !Allowed(lines, r.lineno - 1) && AllAllowed(lines, r.lineno - 1))
  {
    var lines := SplitLines(text);
    RejectsExactlyBadLines(lines);
    var s := Scan(Good(EMPTY, None, 0), lines);
    assert Parse(text) == ResultOf(s);
    forall i: nat | i < |lines| ensures LineOk(lines, i) <==> Allowed(lines, i) { LineOkMeans(lines, i); }
    if s.Bad? {
      NotAll(lines, s.lineno - 1);
    }
  }

  lemma NotAll(lines: seq<string>, bad: nat)
    requires bad < |lines| && !Allowed(lines, bad)
    ensures !AllAllowed(lines, |lines|)
  {
  }
}
