/** Pin integrity of a cached checkout. */
module PinnedCheckout {
  // _worktree_violations and verify_pinned_checkout of scripts/bench_sg201_external_corpus.py. What git
  // prints, and whether it can be run, are inputs.

  datatype Option<T> = None | Some(value: T)

  // ---- Porcelain v1 -z ------------------------------------------------------------------

  /** One status entry: two status letters, a path, and for a rename or a copy the path it came from. */
  datatype Entry = Entry(x: char, y: char, path: string, origin: string)
  {
    predicate Renamed() {
      x == 'R' || y == 'R'
    }

    predicate HasOrigin() {
      Renamed() || x == 'C' || y == 'C'
    }

    predicate Untracked() {
      x == '?' && y == '?'
    }

    /** git emits an entry only for a change, with a path that is not empty and has no NUL in it. */
    predicate Valid() {
      && path != "" && '\0' !in path && '\0' !in origin && x != '\0' && y != '\0'
      && !(IsSpace(x) && IsSpace(y))
    }

    /** What pin integrity tolerates: a cache file below `.sot/` that git does not track. */
    predicate Benign() {
      Untracked() && BENIGN <= path
    }

    function Record(): string {
      [x, y, ' '] + path
    }
  }

  const BENIGN := ".sot/"

  function Encode(entries: seq<Entry>): string {
    if entries == [] then ""
    else
      var e := entries[0];
      e.Record() + "\0" + (if e.HasOrigin() then e.origin + "\0" else "") + Encode(entries[1..])
  }

  /** The output cut at every NUL. */
  function Split(raw: string): seq<string> {
    if raw == "" then [""]
    else
      var rest := Split(raw[1..]);
      if raw[0] == '\0' then [""] + rest
      else if rest == [] then [[raw[0]]]
      else [[raw[0]] + rest[0]] + rest[1..]
  }

  predicate IsSpace(c: char) {
    c in {' ', '\t', '\n', '\r', '\U{0B}', '\U{0C}', '\U{1C}', '\U{1D}', '\U{1E}', '\U{1F}', '\U{85}', '\U{A0}',
          '\U{1680}', '\U{2028}', '\U{2029}', '\U{202F}', '\U{205F}', '\U{3000}'}
    || '\U{2000}' <= c <= '\U{200A}'
  }

  /** Nothing but white space. */
  predicate Blank(r: string) {
    forall c :: c in r ==> IsSpace(c)
  }

  /** The tokens that are not blank. */
  function Records(tokens: seq<string>): seq<string> {
    if tokens == [] then []
    else (if Blank(tokens[0]) then [] else [tokens[0]]) + Records(tokens[1..])
  }

  datatype Violation =
    | NotACheckout | StatusFailed
    | MalformedRecord(record: string) | UntrackedSource(path: string) | TrackedChange(status: string, path: string)

  function OfRecord(record: string): seq<Violation> {
    if |record| < 4 then [MalformedRecord(record)]
    else if record[..2] == "??" then if BENIGN <= record[3..] then [] else [UntrackedSource(record[3..])]
    else [TrackedChange(record[..2], record[3..])]
  }

  /** The scan over the records; the record after a rename is the path it came from. */
  function Violations(records: seq<string>, skip: bool): seq<Violation> {
    if records == [] then []
    else if skip then Violations(records[1..], false)
    else OfRecord(records[0]) + Violations(records[1..], SkipsNext(records[0]))
  }

  predicate SkipsNext(record: string) {
    |record| >= 4 && 'R' in record[..2]
  }

  lemma ViolationsAt(records: seq<string>, i: nat, skip: bool)
    requires i < |records|
    ensures Violations(records[i..], skip)
            == if skip then Violations(records[i + 1..], false)
               else OfRecord(records[i]) + Violations(records[i + 1..], SkipsNext(records[i]))
  {
    assert records[i..][1..] == records[i + 1..];
  }

  method WorktreeViolations(raw: string) returns (violations: seq<Violation>)
    ensures violations == Violations(Records(Split(raw)), false)
  {
    var records := Records(Split(raw));
    violations := [];
    var skipNext := false;
    assert records[0..] == records;
    for i := 0 to |records|
      invariant violations + Violations(records[i..], skipNext) == Violations(records, false)
    {
      var rec := records[i];
      ViolationsAt(records, i, skipNext);
      if skipNext {
        skipNext := false;
      } else {
        var found := Classify(rec);
        Regroup(violations, found, Violations(records[i + 1..], SkipsNext(rec)));
        violations := violations + found;
        skipNext := |rec| >= 4 && 'R' in rec[..2];
      }
    }
    assert records[|records|..] == [];
  }

  lemma Regroup<T>(a: seq<T>, b: seq<T>, c: seq<T>)
    ensures a + (b + c) == (a + b) + c
  {
  }

  method Classify(rec: string) returns (found: seq<Violation>)
    ensures found == OfRecord(rec)
  {
    if |rec| < 4 {
      return [MalformedRecord(rec)];
    }
    var status, path := rec[..2], rec[3..];
    if status == "??" {
      return if BENIGN <= path then [] else [UntrackedSource(path)];
    }
    return [TrackedChange(status, path)];
  }

  // ---- What the scan finds in a real status ---------------------------------------------

  /** The finding an entry deserves, if any. */
  function Finding(e: Entry): seq<Violation> {
    if e.Benign() then []
    else if e.Untracked() then [UntrackedSource(e.path)]
    else [TrackedChange([e.x, e.y], e.path)]
  }

  function Findings(entries: seq<Entry>): seq<Violation> {
    if entries == [] then [] else Finding(entries[0]) + Findings(entries[1..])
  }

  lemma {:induction false} SplitToken(token: string, raw: string)
    requires '\0' !in token
    ensures Split(token + "\0" + raw) == [token] + Split(raw)
    decreases |token|
  {
    var all := token + "\0" + raw;
    if token == "" {
      assert all[1..] == raw;
    } else {
      assert all[1..] == token[1..] + "\0" + raw;
      assert token[0] in token;
      SplitToken(token[1..], raw);
      assert [token[0]] + token[1..] == token;
    }
  }

  lemma RecordsOfToken(token: string, raw: string)
    requires '\0' !in token
    ensures Records(Split(token + "\0" + raw)) == (if Blank(token) then [] else [token]) + Records(Split(raw))
  {
    SplitToken(token, raw);
    assert ([token] + Split(raw))[1..] == Split(raw);
  }

  lemma RecordParts(e: Entry)
    requires e.Valid()
    ensures var r := e.Record();
            '\0' !in r && !Blank(r) && |r| >= 4 && r[..2] == [e.x, e.y] && r[3..] == e.path
  {
    var r := e.Record();
    assert r[0] == e.x && r[1] == e.y && r[0] in r && r[1] in r;
  }

  lemma EntryTokens(e: Entry, raw: string)
    requires e.Valid()
    ensures Records(Split(e.Record() + "\0" + (if e.HasOrigin() then e.origin + "\0" else "") + raw))
            == [e.Record()] + (if e.HasOrigin() && !Blank(e.origin) then [e.origin] else []) + Records(Split(raw))
  {
    RecordParts(e);
    var r := e.Record();
    if e.HasOrigin() {
      var tail := e.origin + "\0" + raw;
      Regroup(r + "\0", e.origin + "\0", raw);
      RecordsOfToken(r, tail);
      RecordsOfToken(e.origin, raw);
      Regroup([r], if Blank(e.origin) then [] else [e.origin], Records(Split(raw)));
    } else {
      assert r + "\0" + "" == r + "\0";
      RecordsOfToken(r, raw);
      assert [r] + [] == [r];
    }
  }

  lemma EntryFinding(e: Entry)
    requires e.Valid()
    ensures OfRecord(e.Record()) == Finding(e) && (SkipsNext(e.Record()) <==> e.Renamed())
    ensures Finding(e) == [] <==> e.Benign()
  {
    RecordParts(e);
  }

  /** On git's own encoding of a status the scan finds exactly what each entry deserves, in order, as long as
      the only entries with an extra token in the records are renames: theirs is skipped. */
  lemma {:induction false} ScanFindsEveryEntry(entries: seq<Entry>)
    requires forall e :: e in entries ==> e.Valid() && (e.HasOrigin() ==> (e.Renamed() <==> !Blank(e.origin)))
    ensures Violations(Records(Split(Encode(entries))), false) == Findings(entries)
    decreases |entries|
  {
    if entries != [] {
      var e, rest := entries[0], entries[1..];
      ScanFindsEveryEntry(rest);
      EntryTokens(e, Encode(rest));
      EntryFinding(e);
      var more := Records(Split(Encode(rest)));
      ViolationsOfEntry(e, more);
    }
  }

  lemma ViolationsOfEntry(e: Entry, more: seq<string>)
    requires e.Valid()
    ensures e.Renamed() ==> Violations([e.Record()] + [e.origin] + more, false) == Finding(e) + Violations(more, false)
    ensures !e.Renamed() ==> Violations([e.Record()] + [] + more, false) == Finding(e) + Violations(more, false)
  {
    EntryFinding(e);
    if e.Renamed() {
      var all := [e.Record()] + [e.origin] + more;
      assert all[1..] == [e.origin] + more && all[1..][1..] == more;
    } else {
      var all := [e.Record()] + [] + more;
      assert all[1..] == more;
    }
  }

  /** The extra token of a copy is not skipped: the path it names is read as a record of its own. */
  lemma CopyOriginIsScanned(e: Entry, rest: seq<Entry>)
    requires e.Valid() && e.HasOrigin() && !e.Renamed() && !Blank(e.origin)
    ensures Violations(Records(Split(Encode([e] + rest))), false)
            == Finding(e) + (OfRecord(e.origin) + Violations(Records(Split(Encode(rest))), SkipsNext(e.origin)))
  {
    assert ([e] + rest)[1..] == rest;
    EntryTokens(e, Encode(rest));
    EntryFinding(e);
    var more := Records(Split(Encode(rest)));
    ScanPastFirst(e.Record(), [e.origin] + more);
    ScanPastFirst(e.origin, more);
    assert [e.Record()] + [e.origin] + more == [e.Record()] + ([e.origin] + more);
  }

  lemma ScanPastFirst(record: string, more: seq<string>)
    ensures Violations([record] + more, false) == OfRecord(record) + Violations(more, SkipsNext(record))
  {
    assert ([record] + more)[1..] == more;
  }

  const COPY := Entry('C', ' ', "b", "Rx a")

  const NEW_FILE := Entry('?', '?', "new.py", "")

  /** So a copy from a path that reads as the record of a rename swallows the entry after it. */
  lemma CopySwallows(e: Entry, next: Entry)
    requires e.Valid() && e.HasOrigin() && !e.Renamed() && !Blank(e.origin) && SkipsNext(e.origin)
    requires next.Valid() && !next.HasOrigin()
    ensures Violations(Records(Split(Encode([e, next]))), false) == Finding(e) + OfRecord(e.origin)
    ensures Findings([e, next]) == Finding(e) + Finding(next)
  {
    assert [e] + [next] == [e, next];
    assert [e, next][1..] == [next] && [next][1..] == [];
    CopyOriginIsScanned(e, [next]);
    OneRecord(next);
    assert Findings([next]) == Finding(next) + [];
  }

  /** There is such a path, and an entry that is a change and goes unreported. */
  lemma CopyCanSwallowAnEntry()
    ensures COPY.Valid() && NEW_FILE.Valid()
    ensures UntrackedSource("new.py") in Findings([COPY, NEW_FILE])
    ensures UntrackedSource("new.py") !in Violations(Records(Split(Encode([COPY, NEW_FILE]))), false)
  {
    OriginReadAsRecord();
    NewFileIsAFinding();
    CopySwallows(COPY, NEW_FILE);
  }

  lemma NewFileIsAFinding()
    ensures Finding(NEW_FILE) == [UntrackedSource("new.py")]
  {
    assert BENIGN[0] != NEW_FILE.path[0];
  }

  lemma OneRecord(e: Entry)
    requires e.Valid() && !e.HasOrigin()
    ensures Violations(Records(Split(Encode([e]))), true) == []
  {
    EntryTokens(e, "");
    assert [e][1..] == [];
    assert Encode([e]) == e.Record() + "\0" + "" + "";
    var records := Records(Split(Encode([e])));
    assert Split("")[1..] == [] && Records(Split("")) == [];
    assert records == [e.Record()] && records[1..] == [];
  }

  lemma OriginReadAsRecord()
    ensures OfRecord(COPY.origin) == [TrackedChange("Rx", "a")] && SkipsNext(COPY.origin) && !Blank(COPY.origin)
  {
    assert COPY.origin[0] in COPY.origin;
    assert COPY.origin[..2] == "Rx" && COPY.origin[3..] == "a";
    assert "Rx"[0] in "Rx";
  }

  /** Whatever the entries are, the scan finds nothing if and only if every one of them is an untracked
      cache file; a swallowed record cannot hide a change, because a rename or a copy is one itself. */
  lemma {:induction false} CleanIff(entries: seq<Entry>)
    requires forall e :: e in entries ==> e.Valid()
    ensures Violations(Records(Split(Encode(entries))), false) == [] <==> forall e :: e in entries ==> e.Benign()
    decreases |entries|
  {
    if entries != [] {
      var e, rest := entries[0], entries[1..];
      CleanIff(rest);
      EntryTokens(e, Encode(rest));
      EntryFinding(e);
      assert entries == [e] + rest;
      var records := Records(Split(Encode(entries)));
      assert records[0] == e.Record();
      if e.Benign() {
        ViolationsOfEntry(e, Records(Split(Encode(rest))));
      } else {
        assert |Violations(records, false)| >= |OfRecord(records[0])| > 0;
      }
    }
  }

  // ---- Verifying the pin ------------------------------------------------------------------

  /** What git answers about one checkout; None where the command fails. */
  datatype Checkout = Checkout(cached: bool, timesOut: bool, head: Option<string>, status: Option<string>,
                               presenceTimesOut: bool, present: bool)

  datatype Error = NotCached | TimedOut | Structural | CommitMissing | HeadMoved

  datatype Verification = Verification(head: Option<string>, verified: bool, violations: seq<Violation>, error: Option<Error>)

  /** verify_pinned_checkout; None when the check for the pinned commit itself times out and raises. */
  method VerifyPinnedCheckout(c: Checkout, sha: string) returns (v: Option<Verification>)
    ensures v == Verified(c, sha)
  {
    if !c.cached {
      return Some(Verification(None, false, [], Some(NotCached)));
    }
    if c.timesOut {
      return Some(Verification(None, false, [], Some(TimedOut)));
    }
    var head, violations := "", [NotACheckout];
    if c.head.Some? {
      head := c.head.value;
      if c.status.Some? {
        violations := WorktreeViolations(c.status.value);
      } else {
        violations := [StatusFailed];
      }
    }
    if violations != [] && (head == "" || NotACheckout in violations || StatusFailed in violations) {
      return Some(Verification(Some(head), false, [], Some(Structural)));
    }
    if c.presenceTimesOut {
      return None;
    }
    if !c.present {
      return Some(Verification(Some(head), false, violations, Some(CommitMissing)));
    }
    if head != sha {
      return Some(Verification(Some(head), false, violations, Some(HeadMoved)));
    }
    return Some(Verification(Some(head), violations == [], violations, None));
  }

  function Findable(c: Checkout): seq<Violation> {
    if c.head.None? then [NotACheckout]
    else if c.status.None? then [StatusFailed]
    else Violations(Records(Split(c.status.value)), false)
  }

  function Verified(c: Checkout, sha: string): Option<Verification> {
    var head := if c.head.Some? then c.head.value else "";
    var found := Findable(c);
    if !c.cached then Some(Verification(None, false, [], Some(NotCached)))
    else if c.timesOut then Some(Verification(None, false, [], Some(TimedOut)))
    else if found != [] && (head == "" || NotACheckout in found || StatusFailed in found)
    then Some(Verification(Some(head), false, [], Some(Structural)))
    else if c.presenceTimesOut then None
    else if !c.present then Some(Verification(Some(head), false, found, Some(CommitMissing)))
    else if head != sha then Some(Verification(Some(head), false, found, Some(HeadMoved)))
    else Some(Verification(Some(head), found == [], found, None))
  }

  /** A checkout is verified exactly when it is cached, git could be asked, HEAD is the pinned commit,
      that commit is present, and git reports nothing but untracked cache files. */
  lemma VerifiedIff(c: Checkout, sha: string, entries: seq<Entry>)
    requires sha != "" && (c.status.Some? ==> c.status.value == Encode(entries)) && forall e :: e in entries ==> e.Valid()
    ensures Verified(c, sha).Some? && Verified(c, sha).value.verified
            <==> c.cached && !c.timesOut && !c.presenceTimesOut && c.present
                 && c.head == Some(sha) && c.status.Some? && forall e :: e in entries ==> e.Benign()
  {
    CleanIff(entries);
  }

  /** "No error and no violation" and "verified" are the same verdict. */
  lemma VerifiedMeansNoFinding(c: Checkout, sha: string)
    requires Verified(c, sha).Some?
    ensures var v := Verified(c, sha).value;
            && (v.verified <==> v.error.None? && v.violations == [])
            && (v.verified ==> v.head == Some(sha) && c.head == Some(sha))
  {
  }

  /** git can be asked at all. */
  predicate Answers(c: Checkout) {
    c.cached && !c.timesOut
  }

  /** git says where HEAD is and what the status is; an empty HEAD will do if the scan finds nothing. */
  predicate Sound(c: Checkout) {
    && Answers(c) && c.head.Some? && c.status.Some?
    && (c.head.value != "" || Violations(Records(Split(c.status.value)), false) == [])
  }

  lemma {:induction false} ScanNeverStructural(records: seq<string>, skip: bool)
    ensures NotACheckout !in Violations(records, skip) && StatusFailed !in Violations(records, skip)
    decreases |records|
  {
    if records != [] { ScanNeverStructural(records[1..], if skip then false else SkipsNext(records[0])); }
  }

  /** Why a checkout is refused: each error, and the exception, exactly when no earlier cause applies. */
  lemma ErrorsMean(c: Checkout, sha: string)
    ensures var v := Verified(c, sha);
            && (v.None? <==> Sound(c) && c.presenceTimesOut)
            && (v.Some? ==>
                  var error := v.value.error;
                  && (error == Some(NotCached) <==> !c.cached)
                  && (error == Some(TimedOut) <==> c.cached && c.timesOut)
                  && (error == Some(Structural) <==> Answers(c) && !Sound(c))
                  && (error == Some(CommitMissing) <==> Sound(c) && !c.present)
                  && (error == Some(HeadMoved) <==> Sound(c) && c.present && c.head != Some(sha))
                  && (error.None? <==> Sound(c) && c.present && c.head == Some(sha)))
  {
    if c.head.Some? && c.status.Some? { ScanNeverStructural(Records(Split(c.status.value)), false); }
  }
}
