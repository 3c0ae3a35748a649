/** The hit classification of the claim linter, src/sot_graph/claims.py. */
module Claims {
  import opened Counting
  import opened Text

  // Substring occurrences, line lookup, and the classification of every absolute phrase in the corpus.
  // Which phrases there are, and what a hedge looks like, are tables and regular expressions, and enter as
  // parameters.

  // ---- Substring search ---------------------------------------------------------------------

  /** The first occurrence at or after start, or -1. */
  method Find(text: string, needle: string, start: nat) returns (i: int)
    ensures i == -1 || (start <= i && OccursAt(text, needle, i))
    ensures forall j :: start <= j && OccursAt(text, needle, j) ==> i != -1 && i <= j
  {
    i := start;
    while i <= |text| - |needle|
      invariant start <= i && forall j :: start <= j < i ==> !OccursAt(text, needle, j)
    {
      if text[i..i + |needle|] == needle {
        return;
      }
      i := i + 1;
    }
    i := -1;
  }

  type Span = (int, int)

  ghost predicate Increasing(spans: seq<Span>) {
    forall i, j :: 0 <= i < j < |spans| ==> spans[i].0 < spans[j].0
  }

  /** The spans of all positions at which a non-empty needle occurs, and no others. */
  ghost predicate AllMatches(spans: seq<Span>, text: string, needle: string) {
    && (forall i :: (i, i + |needle|) in spans <==> needle != "" && OccursAt(text, needle, i))
    && (forall s :: s in spans ==> s.1 == s.0 + |needle|)
  }

  /** _occurrences: every match position, overlapping ones included, in increasing order; none for the
      empty needle. */
  method Occurrences(text: string, needle: string) returns (out: seq<Span>)
    ensures Increasing(out)
    ensures AllMatches(out, text, needle)
  {
    out := [];
    if needle == "" {
      return;
    }
    var start := 0;
    while true
      invariant 0 <= start <= |text|
      invariant Increasing(out) && forall s :: s in out ==> 0 <= s.0 < start && s.1 == s.0 + |needle|
      invariant forall i :: (i, i + |needle|) in out <==> OccursAt(text, needle, i) && i < start
      decreases |text| - start
    {
      var idx := Find(text, needle, start);
      if idx < 0 {
        return;
      }
      out := out + [(idx, idx + |needle|)];
      start := idx + 1;
    }
  }

  // ---- Lines --------------------------------------------------------------------------------

  function Newlines(text: string): nat {
    CountIf(text, (c: char) => c == '\n')
  }

  /** Just after the last newline before the index, or the beginning. */
  function LineStart(text: string, index: nat): (s: nat)
    requires index <= |text|
    ensures s <= index && (forall i :: s <= i < index ==> text[i] != '\n') && (s > 0 ==> text[s - 1] == '\n')
  {
    if index == 0 || text[index - 1] == '\n' then index else LineStart(text, index - 1)
  }

  /** The first newline at or after the index, or the end of the text. */
  function LineEnd(text: string, index: nat): (e: nat)
    requires index <= |text|
    ensures index <= e <= |text| && (forall i :: index <= i < e ==> text[i] != '\n') && (e < |text| ==> text[e] == '\n')
    decreases |text| - index
  {
    if index == |text| || text[index] == '\n' then index else LineEnd(text, index + 1)
  }

  /** The text cut at every newline. */
  function Lines(text: string): (lines: seq<string>)
    ensures |lines| >= 1
  {
    if text == "" then [""]
    else
      var before := Lines(text[..|text| - 1]);
      if text[|text| - 1] == '\n' then before + [""]
      else before[..|before| - 1] + [before[|before| - 1] + [text[|text| - 1]]]
  }

  /** _line_of. */
  function LineOf(text: string, index: nat): (int, string)
    requires index <= |text|
  {
    (Newlines(text[..index]) + 1, text[LineStart(text, index)..LineEnd(text, index)])
  }

  /** The line that holds position n of the text begins at s. */
  ghost predicate StartsLine(text: string, s: nat, n: nat) {
    s <= n <= |text| && (forall i :: s <= i < n ==> text[i] != '\n') && (s > 0 ==> text[s - 1] == '\n')
  }

  lemma LinesSnoc(text: string, c: char)
    ensures var before := Lines(text);
            Lines(text + [c]) == if c == '\n' then before + [""]
                                 else before[..|before| - 1] + [before[|before| - 1] + [c]]
    ensures Newlines(text + [c]) == Newlines(text) + if c == '\n' then 1 else 0
  {
    assert (text + [c])[..|text|] == text;
  }

  lemma {:induction false} LastLine(text: string, s: nat)
    requires StartsLine(text, s, |text|)
    ensures |Lines(text)| == Newlines(text) + 1 && Lines(text)[|Lines(text)| - 1] == text[s..]
    decreases |text|
  {
    if text != "" {
      var init, c := text[..|text| - 1], text[|text| - 1];
      assert text == init + [c];
      LinesSnoc(init, c);
      if c == '\n' {
        LastLine(init, LineStart(init, |init|));
        assert s == |text|;
      } else {
        assert s < |text|;
        LastLine(init, s);
        assert init[s..] + [c] == text[s..];
      }
    }
  }

  /** Up to the newline that ends it, the line of a position is the last line of what was read. */
  lemma OpenLine(text: string, index: nat, s: nat, n: nat)
    requires StartsLine(text, s, index) && index <= n <= |text| && forall i :: index <= i < n ==> text[i] != '\n'
    ensures Newlines(text[..index]) == |Lines(text[..n])| - 1 && Lines(text[..n])[|Lines(text[..n])| - 1] == text[s..n]
  {
    LastLine(text[..n], s);
    assert text[..n][s..] == text[s..n];
    NoNewlineBetween(text, index, n);
  }

  /** Behind that newline it does not change any more. */
  lemma {:induction false} ClosedLine(text: string, e: nat, n: nat)
    requires e < n <= |text| && text[e] == '\n'
    ensures |Lines(text[..e])| < |Lines(text[..n])|
    ensures Lines(text[..n])[|Lines(text[..e])| - 1] == Lines(text[..e])[|Lines(text[..e])| - 1]
    decreases n
  {
    assert text[..n] == text[..n - 1] + [text[n - 1]];
    var k := |Lines(text[..e])| - 1;
    LinesSnoc(text[..n - 1], text[n - 1]);
    if n - 1 > e { ClosedLine(text, e, n - 1); }
    LineAfter(text[..n - 1], text[n - 1], k);
  }

  lemma LineAfter(before: string, c: char, k: nat)
    requires k < |Lines(before)|
    ensures k < |Lines(before + [c])|
    ensures Lines(before + [c])[k] == Lines(before)[k] + if c != '\n' && k == |Lines(before)| - 1 then [c] else []
  {
    LinesSnoc(before, c);
  }

  lemma {:induction false} NoNewlineBetween(text: string, index: nat, n: nat)
    requires index <= n <= |text| && forall i :: index <= i < n ==> text[i] != '\n'
    ensures Newlines(text[..n]) == Newlines(text[..index])
    decreases n - index
  {
    if n > index {
      NoNewlineBetween(text, index, n - 1);
      assert text[..n][..n - 1] == text[..n - 1];
    }
  }

  /** _line_of names the line the index is in: its number counts from one, and its text is that entry
      of the text split at newlines; it has no newline, and holds the character asked about unless
      that is the newline that ends it. */
  lemma LineOfIsTheLine(text: string, index: nat)
    requires index <= |text|
    ensures var (number, line) := LineOf(text, index);
            && 1 <= number <= |Lines(text)| && line == Lines(text)[number - 1]
            && '\n' !in line
            && (index < |text| && text[index] != '\n' ==>
                  LineStart(text, index) <= index < LineEnd(text, index)
                  && line[index - LineStart(text, index)] == text[index])
  {
    LineHolds(text, index);
    var e := LineEnd(text, index);
    OpenLine(text, index, LineStart(text, index), e);
    assert text[..|text|] == text;
    if e < |text| { ClosedLine(text, e, |text|); }
  }

  lemma LineHolds(text: string, index: nat)
    requires index <= |text|
    ensures var line := LineOf(text, index).1;
            && '\n' !in line
            && (index < |text| && text[index] != '\n' ==>
                  LineStart(text, index) <= index < LineEnd(text, index)
                  && line[index - LineStart(text, index)] == text[index])
  {
  }

  // ---- Classification -------------------------------------------------------------------------

  /** One match of a banned pattern. */
  datatype Hit = Hit(file: string, tag: string, start: nat)

  datatype Allow = Allow(file: string, contains: string)

  datatype Class = Hedged | Registered | Allowed | Unregistered

  datatype Stats = Stats(registered: nat, hedged: nat, allowed: nat, bannedHits: nat)

  predicate ContainsText(line: string, part: string) {
    exists i :: 0 <= i <= |line| && OccursAt(line, part, i)
  }

  /** The first of the three excuses that applies, in the order of the code. */
  predicate IsRegistered(spans: map<string, seq<Span>>, h: Hit) {
    h.file in spans && exists s :: s in spans[h.file] && s.0 <= h.start < s.1
  }

  function ClassOf(texts: map<string, string>, hedge: string -> bool, spans: map<string, seq<Span>>, allows: seq<Allow>, h: Hit): Class
    requires h.file in texts && h.start <= |texts[h.file]|
  {
    var line := LineOf(texts[h.file], h.start).1;
    if hedge(line) then Hedged
    else if IsRegistered(spans, h) then Registered
    else if exists a :: a in allows && a.file == h.file && ContainsText(line, a.contains) then Allowed
    else Unregistered
  }

  ghost predicate HitsIn(texts: map<string, string>, hits: seq<Hit>) {
    forall h :: h in hits ==> h.file in texts && h.start <= |texts[h.file]|
  }

  /** The violations the classification raises, in the order of the hits. */
  function Unexcused(texts: map<string, string>, hedge: string -> bool, spans: map<string, seq<Span>>, allows: seq<Allow>, hits: seq<Hit>): seq<Hit>
    requires forall h :: h in hits ==> h.file in texts && h.start <= |texts[h.file]|
  {
    if hits == [] then []
    else
      var last := hits[|hits| - 1];
      Unexcused(texts, hedge, spans, allows, hits[..|hits| - 1])
      + if ClassOf(texts, hedge, spans, allows, last) == Unregistered then [last] else []
  }

  function ClassCount(texts: map<string, string>, hedge: string -> bool, spans: map<string, seq<Span>>, allows: seq<Allow>,
                      hits: seq<Hit>, class_: Class): nat
    requires forall h :: h in hits ==> h.file in texts && h.start <= |texts[h.file]|
  {
    if hits == [] then 0
    else
      var last := hits[|hits| - 1];
      ClassCount(texts, hedge, spans, allows, hits[..|hits| - 1], class_)
      + if ClassOf(texts, hedge, spans, allows, last) == class_ then 1 else 0
  }

  lemma OneMoreHit(texts: map<string, string>, hedge: string -> bool, spans: map<string, seq<Span>>,
                   allows: seq<Allow>, hits: seq<Hit>, i: nat, class_: Class)
    requires i < |hits| && HitsIn(texts, hits)
    ensures ClassCount(texts, hedge, spans, allows, hits[..i + 1], class_)
            == ClassCount(texts, hedge, spans, allows, hits[..i], class_)
               + if ClassOf(texts, hedge, spans, allows, hits[i]) == class_ then 1 else 0
  {
    assert hits[..i + 1][..i] == hits[..i];
  }

  ghost predicate Counted(texts: map<string, string>, hedge: string -> bool, spans: map<string, seq<Span>>,
                          allows: seq<Allow>, hits: seq<Hit>, stats: Stats, violations: seq<Hit>)
    requires HitsIn(texts, hits)
  {
    && stats.bannedHits == |hits| == stats.hedged + stats.registered + stats.allowed + |violations|
    && stats.hedged == ClassCount(texts, hedge, spans, allows, hits, Hedged)
    && stats.registered == ClassCount(texts, hedge, spans, allows, hits, Registered)
    && stats.allowed == ClassCount(texts, hedge, spans, allows, hits, Allowed)
    && violations == Unexcused(texts, hedge, spans, allows, hits)
  }

  function Tallied(stats: Stats, class_: Class): Stats {
    match class_
    case Hedged => stats.(hedged := stats.hedged + 1, bannedHits := stats.bannedHits + 1)
    case Registered => stats.(registered := stats.registered + 1, bannedHits := stats.bannedHits + 1)
    case Allowed => stats.(allowed := stats.allowed + 1, bannedHits := stats.bannedHits + 1)
    case Unregistered => stats.(bannedHits := stats.bannedHits + 1)
  }

  lemma CountedStep(texts: map<string, string>, hedge: string -> bool, spans: map<string, seq<Span>>,
                    allows: seq<Allow>, hits: seq<Hit>, i: nat, stats: Stats, violations: seq<Hit>)
    requires i < |hits| && HitsIn(texts, hits)
    requires Counted(texts, hedge, spans, allows, hits[..i], stats, violations)
    ensures var class_ := ClassOf(texts, hedge, spans, allows, hits[i]);
            Counted(texts, hedge, spans, allows, hits[..i + 1], Tallied(stats, class_),
                    violations + if class_ == Unregistered then [hits[i]] else [])
  {
    PrefixHits(texts, hits, i);
    OneMoreUnexcused(texts, hedge, spans, allows, hits, i);
    OneMoreHit(texts, hedge, spans, allows, hits, i, Hedged);
    OneMoreHit(texts, hedge, spans, allows, hits, i, Registered);
    OneMoreHit(texts, hedge, spans, allows, hits, i, Allowed);
  }

  lemma PrefixHits(texts: map<string, string>, hits: seq<Hit>, i: nat)
    requires i < |hits| && HitsIn(texts, hits)
    ensures HitsIn(texts, hits[..i]) && HitsIn(texts, hits[..i + 1])
    ensures hits[i].file in texts && hits[i].start <= |texts[hits[i].file]|
  {
  }

  lemma OneMoreUnexcused(texts: map<string, string>, hedge: string -> bool, spans: map<string, seq<Span>>,
                         allows: seq<Allow>, hits: seq<Hit>, i: nat)
    requires i < |hits| && HitsIn(texts, hits)
    ensures Unexcused(texts, hedge, spans, allows, hits[..i + 1])
            == Unexcused(texts, hedge, spans, allows, hits[..i])
               + if ClassOf(texts, hedge, spans, allows, hits[i]) == Unregistered then [hits[i]] else []
  {
    assert hits[..i + 1][..i] == hits[..i];
  }

  /** The hit loop of lint_claims: every hit is counted once, and once more under the class that
      excuses it, or else reported; so the four classes add up to all hits, on every corpus. */
  method ClassifyHits(texts: map<string, string>, hedge: string -> bool, spans: map<string, seq<Span>>,
                      allows: seq<Allow>, hits: seq<Hit>)
    returns (stats: Stats, violations: seq<Hit>)
    requires HitsIn(texts, hits)
    ensures stats.bannedHits == |hits| == stats.hedged + stats.registered + stats.allowed + |violations|
    ensures stats.hedged == ClassCount(texts, hedge, spans, allows, hits, Hedged)
    ensures stats.registered == ClassCount(texts, hedge, spans, allows, hits, Registered)
    ensures stats.allowed == ClassCount(texts, hedge, spans, allows, hits, Allowed)
    ensures violations == Unexcused(texts, hedge, spans, allows, hits)
  {
    stats, violations := Stats(0, 0, 0, 0), [];
    for i := 0 to |hits|
      invariant Counted(texts, hedge, spans, allows, hits[..i], stats, violations)
    {
      stats, violations := ClassifyHit(texts, hedge, spans, allows, hits, i, stats, violations);
    }
    assert hits[..|hits|] == hits;
  }

  /** One turn of the loop. */
  method ClassifyHit(texts: map<string, string>, hedge: string -> bool, spans: map<string, seq<Span>>,
                     allows: seq<Allow>, hits: seq<Hit>, i: nat, stats0: Stats, violations0: seq<Hit>)
    returns (stats: Stats, violations: seq<Hit>)
    requires i < |hits| && HitsIn(texts, hits)
    requires Counted(texts, hedge, spans, allows, hits[..i], stats0, violations0)
    ensures Counted(texts, hedge, spans, allows, hits[..i + 1], stats, violations)
  {
    CountedStep(texts, hedge, spans, allows, hits, i, stats0, violations0);
    var excuse := ExcuseOf(texts, hedge, spans, allows, hits[i]);
    stats := Tallied(stats0, excuse);
    violations := violations0 + if excuse == Unregistered then [hits[i]] else [];
  }

  /** The three tests of the loop, each a search: the line for a hedge, the spans of the file for one that
      holds the hit, the exemptions for one that names the line. */
  method ExcuseOf(texts: map<string, string>, hedge: string -> bool, spans: map<string, seq<Span>>,
                  allows: seq<Allow>, h: Hit) returns (class_: Class)
    requires h.file in texts && h.start <= |texts[h.file]|
    ensures class_ == ClassOf(texts, hedge, spans, allows, h)
  {
    var line := LineOf(texts[h.file], h.start).1;
    if hedge(line) {
      return Hedged;
    }
    var inside := if h.file in spans then spans[h.file] else [];
    for i := 0 to |inside|
      invariant forall j :: 0 <= j < i ==> !(inside[j].0 <= h.start < inside[j].1)
    {
      if inside[i].0 <= h.start < inside[i].1 {
        return Registered;
      }
    }
    for i := 0 to |allows|
      invariant forall j :: 0 <= j < i ==> !(allows[j].file == h.file && ContainsText(line, allows[j].contains))
    {
      if allows[i].file == h.file {
        var at := Find(line, allows[i].contains, 0);
        if at != -1 {
          return Allowed;
        }
      }
    }
    return Unregistered;
  }

  /** The part stands somewhere in the line. */
  ghost predicate Within(line: string, part: string) {
    exists front, back :: line == front + part + back
  }

  lemma WithinIff(line: string, part: string)
    ensures ContainsText(line, part) <==> Within(line, part)
  {
    if i :| 0 <= i <= |line| && OccursAt(line, part, i) {
      assert line == line[..i] + part + line[i + |part|..];
    }
    if front, back :| line == front + part + back {
      assert OccursAt(line, part, |front|);
    }
  }

  /** The classes, by their excuses: the hedge comes first, then the registered claim, then the exemption. */
  lemma ClassesMean(texts: map<string, string>, hedge: string -> bool, spans: map<string, seq<Span>>, allows: seq<Allow>, h: Hit)
    requires h.file in texts && h.start <= |texts[h.file]|
    ensures var line, class_ := LineOf(texts[h.file], h.start).1, ClassOf(texts, hedge, spans, allows, h);
            var inside := h.file in spans && exists s :: s in spans[h.file] && s.0 <= h.start < s.1;
            var exempt := exists a :: a in allows && a.file == h.file && Within(line, a.contains);
            && (class_ == Hedged <==> hedge(line))
            && (class_ == Registered <==> !hedge(line) && inside)
            && (class_ == Allowed <==> !hedge(line) && !inside && exempt)
            && (class_ == Unregistered <==> !hedge(line) && !inside && !exempt)
  {
    forall line, part { WithinIff(line, part); }
  }

  /** The report is clean exactly when every hit has an excuse: its line hedges, it lies inside a
      registered claim, or a reviewed exemption names its line. */
  lemma {:induction false} CleanMeansExcused(texts: map<string, string>, hedge: string -> bool, spans: map<string, seq<Span>>,
                                             allows: seq<Allow>, hits: seq<Hit>)
    requires HitsIn(texts, hits)
    ensures Unexcused(texts, hedge, spans, allows, hits) == [] <==>
            forall h :: h in hits ==>
              || hedge(LineOf(texts[h.file], h.start).1)
              || (h.file in spans && exists s :: s in spans[h.file] && s.0 <= h.start < s.1)
              || exists a :: a in allows && a.file == h.file && Within(LineOf(texts[h.file], h.start).1, a.contains)
    decreases |hits|
  {
    forall line, part { WithinIff(line, part); }
    if hits != [] {
      var init := hits[..|hits| - 1];
      assert hits == init + [hits[|hits| - 1]];
      CleanMeansExcused(texts, hedge, spans, allows, init);
    }
  }

  datatype Claim = Claim(pattern: string, files: seq<string>)

  /** registered_spans: a hit is registered exactly when it starts inside an occurrence of a claim's
      pattern in a file that claim names. */
  method RegisterSpans(texts: map<string, string>, claims: seq<Claim>) returns (spans: map<string, seq<Span>>)
    ensures forall h: Hit :: IsRegistered(spans, h) <==> CoveredByClaim(texts, claims, h)
  {
    spans := map[];
    for i := 0 to |claims|
      invariant forall h: Hit :: IsRegistered(spans, h) <==> CoveredByClaim(texts, claims[..i], h)
    {
      var c := claims[i];
      ghost var before := spans;
      for j := 0 to |c.files|
        invariant forall h: Hit :: IsRegistered(spans, h) <==>
                    CoveredByClaim(texts, claims[..i], h) || CoveredBy(texts, c.pattern, c.files[..j], h)
      {
        var f := c.files[j];
        assert c.files[..j + 1] == c.files[..j] + [f];
        if f in texts {
          var found := Occurrences(texts[f], c.pattern);
          ghost var old_ := spans;
          spans := spans[f := (if f in spans then spans[f] else []) + found];
          SpansGrow(old_, f, found, texts[f], c.pattern);
        }
      }
      assert c.files[..|c.files|] == c.files;
      assert claims[..i + 1] == claims[..i] + [c];
    }
    assert claims[..|claims|] == claims;
  }

  ghost predicate CoveredBy(texts: map<string, string>, pattern: string, files: seq<string>, h: Hit) {
    h.file in files && h.file in texts && exists i :: InMatch(texts[h.file], pattern, i, h.start)
  }

  ghost predicate InMatch(text: string, pattern: string, i: int, at: nat) {
    pattern != "" && OccursAt(text, pattern, i) && i <= at < i + |pattern|
  }

  ghost predicate CoveredByClaim(texts: map<string, string>, claims: seq<Claim>, h: Hit) {
    exists c :: c in claims && CoveredBy(texts, c.pattern, c.files, h)
  }

  lemma SpansGrow(spans: map<string, seq<Span>>, f: string, found: seq<Span>, text: string, pattern: string)
    requires AllMatches(found, text, pattern)
    ensures var more := spans[f := (if f in spans then spans[f] else []) + found];
            forall h: Hit :: IsRegistered(more, h) <==>
              IsRegistered(spans, h) || (h.file == f && exists i :: InMatch(text, pattern, i, h.start))
  {
    var more: map<string, seq<Span>> := spans[f := (if f in spans then spans[f] else []) + found];
    forall h: Hit | h.file == f && exists i :: InMatch(text, pattern, i, h.start) ensures IsRegistered(more, h) {
      var i :| InMatch(text, pattern, i, h.start);
      assert (i, i + |pattern|) in more[f];
    }
    forall h: Hit | IsRegistered(spans, h) ensures IsRegistered(more, h) {
      var s: Span :| s in spans[h.file] && s.0 <= h.start < s.1;
      if h.file == f { assert s in more[f]; }
    }
    forall h: Hit | IsRegistered(more, h) && !IsRegistered(spans, h)
      ensures h.file == f && exists i :: InMatch(text, pattern, i, h.start)
    {
      var s: Span :| s in more[h.file] && s.0 <= h.start < s.1;
      assert s in found;
      assert s == (s.0, s.0 + |pattern|);
      assert InMatch(text, pattern, s.0, h.start);
    }
  }
}
