/** Corpus-relative paths: normalize_corpus_path and normalize_payload_paths of scripts/sot_evaluator.py.
    Reports must not depend on where the corpus was unpacked, so everything up to and including the last
    corpus directory is cut off and the separators of the rest become slashes. Both styles of separator
    are looked for, whatever the platform, and that is why the two may meet in one path. */
module CorpusPath {
  import opened Text

  const CORPUS_REPO_ID := "oracle-corpus-v1"

  // ---- One path -----------------------------------------------------------------------------

  /** The last occurrence of the marker at or before position `from`, or -1. */
  function RFind(path: string, marker: string, from: int): (i: int)
    ensures i == -1 || (0 <= i <= from && OccursAt(path, marker, i))
    ensures forall j :: i < j <= from ==> !OccursAt(path, marker, j)
    decreases from + 1
  {
    if from < 0 then -1 else if OccursAt(path, marker, from) then from else RFind(path, marker, from - 1)
  }

  function Last(path: string, marker: string): (i: int)
    ensures i == -1 || OccursAt(path, marker, i)
    ensures forall j :: i < j ==> !OccursAt(path, marker, j)
  {
    RFind(path, marker, |path|)
  }

  predicate Has(path: string, marker: string) {
    Last(path, marker) != -1
  }

  /** What follows the last marker. */
  function After(path: string, marker: string): string
    requires Has(path, marker)
  {
    path[Last(path, marker) + |marker|..]
  }

  function Slashed(c: char): char {
    if c == '\\' then '/' else c
  }

  /** The path with every backslash turned into a slash. */
  function Slashes(path: string): string {
    seq(|path|, i requires 0 <= i < |path| => Slashed(path[i]))
  }

  /** normalize_corpus_path on a string. */
  function Normalize(path: string, id: string): string {
    if path == "" then path
    else if Has(path, id + "/") then Slashes(After(path, id + "/"))
    else if Has(path, id + "\\") then Slashes(After(path, id + "\\"))
    else path
  }

  /** A repository id is a directory name. */
  predicate Name(id: string) {
    '/' !in id && '\\' !in id
  }

  /** The path mixes separator styles: a backslash marker follows the last slash marker. */
  predicate Mixed(path: string, id: string) {
    Has(path, id + "/") && Has(After(path, id + "/"), id + "\\")
  }

  /** Exactly the paths without a marker are left alone. */
  lemma UnchangedIff(path: string, id: string)
    ensures Normalize(path, id) == path <==> !Has(path, id + "/") && !Has(path, id + "\\")
  {
    if Has(path, id + "/") {
      assert |Normalize(path, id)| < |path|;
    } else if Has(path, id + "\\") {
      assert |Normalize(path, id)| < |path|;
    }
  }

  /** An occurrence of a marker is the name followed by the separator. */
  predicate MarkAt(path: string, id: string, sep: char, i: int) {
    && 0 <= i < |path| - |id|
    && (forall k :: 0 <= k < |id| ==> path[i + k] == id[k])
    && path[i + |id|] == sep
  }

  lemma MarkIsOccurrence(path: string, id: string, sep: char, i: int)
    ensures OccursAt(path, id + [sep], i) <==> MarkAt(path, id, sep, i)
  {
    var marker := id + [sep];
    if OccursAt(path, marker, i) {
      forall k | 0 <= k < |id| ensures path[i + k] == id[k] {
        assert path[i + k] == path[i..i + |marker|][k];
      }
      assert path[i + |id|] == path[i..i + |marker|][|id|];
    }
    if MarkAt(path, id, sep, i) {
      assert path[i..i + |marker|] == marker;
    }
  }

  /** Turning the backslashes of a path round turns both kinds of marker into slash markers. */
  lemma MarksOfSlashes(path: string, id: string, i: int)
    requires Name(id)
    ensures OccursAt(Slashes(path), id + "/", i) <==> OccursAt(path, id + "/", i) || OccursAt(path, id + "\\", i)
    ensures !OccursAt(Slashes(path), id + "\\", i)
  {
    var out := Slashes(path);
    MarkIsOccurrence(out, id, '/', i);
    MarkIsOccurrence(out, id, '\\', i);
    MarkIsOccurrence(path, id, '/', i);
    MarkIsOccurrence(path, id, '\\', i);
    if MarkAt(out, id, '/', i) {
      forall k | 0 <= k < |id| ensures path[i + k] == id[k] {
        assert out[i + k] == id[k] && id[k] in id;
      }
    }
    if MarkAt(path, id, '/', i) || MarkAt(path, id, '\\', i) {
      forall k | 0 <= k < |id| ensures out[i + k] == id[k] {
        assert path[i + k] == id[k] && id[k] in id;
      }
    }
  }

  /** A marker in what follows position n is a marker of the whole path. */
  lemma MarksOfSuffix(path: string, marker: string, n: nat, i: int)
    requires n <= |path| && 0 <= i
    ensures OccursAt(path[n..], marker, i) <==> OccursAt(path, marker, n + i)
  {
    if 0 <= i <= |path| - n - |marker| {
      assert path[n..][i..i + |marker|] == path[n + i..n + i + |marker|];
    }
  }

  lemma NothingAfterTheLast(path: string, marker: string)
    requires Has(path, marker) && marker != ""
    ensures !Has(After(path, marker), marker)
  {
    var n := Last(path, marker) + |marker|;
    var i := Last(After(path, marker), marker);
    if i != -1 {
      MarksOfSuffix(path, marker, n, i);
      assert false;
    }
  }

  /** A marker can be looked for in the turned path. */
  lemma HasOfSlashes(path: string, id: string)
    requires Name(id)
    ensures Has(Slashes(path), id + "/") <==> Has(path, id + "/") || Has(path, id + "\\")
    ensures !Has(Slashes(path), id + "\\")
  {
    MarksOfSlashes(path, id, Last(Slashes(path), id + "/"));
    MarksOfSlashes(path, id, Last(Slashes(path), id + "\\"));
    MarksOfSlashes(path, id, Last(path, id + "/"));
    MarksOfSlashes(path, id, Last(path, id + "\\"));
  }

  /** Normalising again changes nothing, except on exactly the paths that mix the separator styles. */
  lemma IdempotentIff(path: string, id: string)
    requires Name(id)
    ensures Normalize(Normalize(path, id), id) == Normalize(path, id) <==> !Mixed(path, id)
  {
    var slash, back := id + "/", id + "\\";
    UnchangedIff(Normalize(path, id), id);
    if Has(path, slash) {
      NothingAfterTheLast(path, slash);
      HasOfSlashes(After(path, slash), id);
    } else if Has(path, back) {
      NothingAfterTheLast(path, back);
      var n, i := Last(path, back) + |back|, Last(After(path, back), slash);
      if i != -1 {
        MarksOfSuffix(path, slash, n, i);
        assert false;
      }
      HasOfSlashes(After(path, back), id);
    }
  }

  const MIXED_PATH := "/tmp/" + CORPUS_REPO_ID + "/" + CORPUS_REPO_ID + "\\" + "a.py"

  /** The unrestricted promise of idempotence fails. */
  lemma MixedStylesAreNotIdempotent()
    ensures Mixed(MIXED_PATH, CORPUS_REPO_ID)
    ensures Normalize(Normalize(MIXED_PATH, CORPUS_REPO_ID), CORPUS_REPO_ID) != Normalize(MIXED_PATH, CORPUS_REPO_ID)
  {
    MixedMarkers("/tmp/", CORPUS_REPO_ID, "a.py");
    IdempotentIff(MIXED_PATH, CORPUS_REPO_ID);
  }

  /** Any path of this shape is mixed. */
  lemma MixedMarkers(root: string, id: string, rest: string)
    requires Name(id) && '/' !in rest
    ensures Mixed(root + id + "/" + id + "\\" + rest, id)
  {
    var path, n := root + id + "/" + id + "\\" + rest, |root| + |id| + 1;
    assert path == root + (id + "/") + (id + "\\" + rest) == (root + id + "/") + (id + "\\") + rest;
    OccursBetween(root, id + "/", id + "\\" + rest);
    OccursBetween(root + id + "/", id + "\\", rest);
    NoMarkAfter(root + id + "/", id + "\\" + rest, id);
    assert path == (root + id + "/") + (id + "\\" + rest);
    assert Last(path, id + "/") <= |root| < n <= Last(path, id + "\\");
    MixedIsLater(path, id);
  }

  lemma OccursBetween(before: string, marker: string, rest: string)
    ensures OccursAt(before + marker + rest, marker, |before|)
  {
    assert (before + marker + rest)[|before|..|before| + |marker|] == marker;
  }

  lemma NoMarkAfter(before: string, tail: string, id: string)
    requires '/' !in tail
    ensures var i := Last(before + tail, id + "/"); i == -1 || i + |id| < |before|
  {
    var path := before + tail;
    forall k | |before| <= k < |path| ensures path[k] != '/' { assert path[k] == tail[k - |before|]; }
    MarkIsOccurrence(path, id, '/', Last(path, id + "/"));
  }

  /** Where the corpus was unpacked does not matter: everything up to and including its directory goes. */
  lemma StripsTheRoot(root: string, relative: string, id: string)
    requires Name(id)
    ensures Normalize(root + id + "/" + relative, id)
            == if Has(relative, id + "/") then Normalize(relative, id) else Slashes(relative)
  {
    var path := root + id + "/" + relative;
    assert path == root + (id + "/") + relative;
    OccursBetween(root, id + "/", relative);
    DropFront(root + id + "/", relative);
    StripsAt(path, id, |root|);
  }

  /** What stands before a marker, and the marker, have no influence. */
  lemma StripsAt(path: string, id: string, i: nat)
    requires Name(id) && OccursAt(path, id + "/", i)
    ensures var rest := path[i + |id| + 1..];
            Normalize(path, id) == if Has(rest, id + "/") then Normalize(rest, id) else Slashes(rest)
  {
    LastIsInSuffix(path, id, i);
    TakesAfterLast(path, id);
    if Has(path[i + |id| + 1..], id + "/") {
      SameRest(path, id, i + |id| + 1);
    }
  }

  lemma SameRest(path: string, id: string, n: nat)
    requires n <= |path| && Has(path[n..], id + "/")
    ensures Normalize(path[n..], id) == Slashes(path[n + Last(path[n..], id + "/") + |id| + 1..])
  {
    TakesAfterLast(path[n..], id);
    DropMore(path, n, Last(path[n..], id + "/") + |id| + 1);
  }

  lemma TakesAfterLast(path: string, id: string)
    requires Has(path, id + "/")
    ensures Normalize(path, id) == Slashes(path[Last(path, id + "/") + |id| + 1..])
  {
  }

  lemma DropFront(front: string, rest: string)
    ensures (front + rest)[|front|..] == rest
  {
  }

  lemma DropMore(path: string, n: nat, k: nat)
    requires n + k <= |path|
    ensures path[n + k..] == path[n..][k..]
  {
  }

  /** The last marker is the one at position i, or else the last of what follows that one. */
  lemma LastIsInSuffix(path: string, id: string, i: nat)
    requires Name(id) && OccursAt(path, id + "/", i)
    ensures var n := i + |id| + 1;
            Last(path, id + "/") == if Has(path[n..], id + "/") then n + Last(path[n..], id + "/") else i
  {
    var marker, n := id + "/", i + |id| + 1;
    var last, inner := Last(path, marker), Last(path[n..], marker);
    if inner != -1 {
      MarksOfSuffix(path, marker, n, inner);
    }
    if last > i {
      NoOverlap(path, id, i, last);
      MarksOfSuffix(path, marker, n, last - n);
    }
  }

  lemma NameHasNoSeparator(path: string, id: string, sep: char, i: int)
    requires Name(id) && MarkAt(path, id, sep, i)
    ensures forall p :: i <= p < i + |id| ==> path[p] != '/' && path[p] != '\\'
  {
    forall p | i <= p < i + |id| ensures path[p] != '/' && path[p] != '\\' {
      assert path[i + (p - i)] == id[p - i] && id[p - i] in id;
    }
  }

  lemma NoOverlap(path: string, id: string, i: int, j: int)
    requires Name(id) && i < j && OccursAt(path, id + "/", i) && OccursAt(path, id + "/", j)
    ensures i + |id| + 1 <= j
  {
    MarkIsOccurrence(path, id, '/', i);
    MarkIsOccurrence(path, id, '/', j);
    NameHasNoSeparator(path, id, '/', j);
  }

  /** A path and its forward-slash spelling become the same corpus path, again except for mixed ones. */
  lemma StyleDoesNotMatterIff(path: string, id: string)
    requires Name(id) && (Has(path, id + "/") || Has(path, id + "\\"))
    ensures Normalize(path, id) == Normalize(Slashes(path), id) <==> !Mixed(path, id)
  {
    HasOfSlashes(path, id);
    LastOfSlashes(path, id);
    var last := Last(Slashes(path), id + "/");
    assert Normalize(Slashes(path), id) == Slashes(path[last + |id| + 1..]);
    if Has(path, id + "/") {
      MixedIsLater(path, id);
    }
  }

  /** The last marker of the turned path is the later of the last markers of either kind. */
  lemma LastOfSlashes(path: string, id: string)
    requires Name(id)
    ensures var s, b := Last(path, id + "/"), Last(path, id + "\\");
            Last(Slashes(path), id + "/") == if s > b then s else b
  {
    MarksOfSlashes(path, id, Last(Slashes(path), id + "/"));
    MarksOfSlashes(path, id, Last(path, id + "/"));
    MarksOfSlashes(path, id, Last(path, id + "\\"));
  }

  lemma MixedIsLater(path: string, id: string)
    requires Name(id) && Has(path, id + "/")
    ensures Mixed(path, id) <==> Last(path, id + "/") < Last(path, id + "\\")
  {
    var slash, back := id + "/", id + "\\";
    var s, b, n := Last(path, slash), Last(path, back), Last(path, slash) + |slash|;
    var inner := Last(After(path, slash), back);
    if inner != -1 {
      MarksOfSuffix(path, back, n, inner);
    }
    if s < b {
      MarkIsOccurrence(path, id, '/', s);
      MarkIsOccurrence(path, id, '\\', b);
      NameHasNoSeparator(path, id, '\\', b);
      MarksOfSuffix(path, back, n, b - n);
    }
  }

  // ---- Payloads -------------------------------------------------------------------------------

  datatype Json =
    | Null
    | Bool(b: bool)
    | Number(n: real)
    | Str(s: string)
    | List(items: seq<Json>)
    | Dict(fields: map<string, Json>)

  /** normalize_payload_paths: every string of the payload, keys excepted. */
  function NormalizePayload(payload: Json, id: string): Json {
    match payload
    case Str(s) => Str(Normalize(s, id))
    case List(items) => List(seq(|items|, i requires 0 <= i < |items| => NormalizePayload(items[i], id)))
    case Dict(fields) => Dict(map key | key in fields :: NormalizePayload(fields[key], id))
    case _ => payload
  }

  /** Every string of the payload, keys excepted, has the property. */
  predicate EveryString(payload: Json, p: string -> bool) {
    match payload
    case Str(s) => p(s)
    case List(items) => forall i :: 0 <= i < |items| ==> EveryString(items[i], p)
    case Dict(fields) => forall key :: key in fields ==> EveryString(fields[key], p)
    case _ => true
  }

  function Unmixed(id: string): string -> bool {
    s => !Mixed(s, id)
  }

  function Markerless(id: string): string -> bool {
    s => !Has(s, id + "/") && !Has(s, id + "\\")
  }

  /** A payload is left alone exactly when no string in it holds a marker. */
  lemma {:induction false} PayloadUnchangedIff(payload: Json, id: string)
    ensures NormalizePayload(payload, id) == payload <==> EveryString(payload, Markerless(id))
  {
    match payload
    case Str(s) => UnchangedIff(s, id);
    case List(items) =>
      forall i | 0 <= i < |items| {
        PayloadUnchangedIff(items[i], id);
      }
      SameItems(NormalizePayload(payload, id).items, items);
    case Dict(fields) =>
      forall key | key in fields {
        PayloadUnchangedIff(fields[key], id);
      }
      SameFields(NormalizePayload(payload, id).fields, fields);
    case _ =>
  }

  /** A payload may be normalised twice exactly when no string in it mixes the separator styles. */
  lemma {:induction false} PayloadIdempotentIff(payload: Json, id: string)
    requires Name(id)
    ensures NormalizePayload(NormalizePayload(payload, id), id) == NormalizePayload(payload, id)
            <==> EveryString(payload, Unmixed(id))
  {
    var once := NormalizePayload(payload, id);
    match payload
    case Str(s) => IdempotentIff(s, id);
    case List(items) =>
      forall i | 0 <= i < |items| {
        PayloadIdempotentIff(items[i], id);
      }
      var twice := NormalizePayload(once, id).items;
      SameItems(twice, once.items);
      assert forall i :: 0 <= i < |items| ==>
               once.items[i] == NormalizePayload(items[i], id) && twice[i] == NormalizePayload(once.items[i], id);
    case Dict(fields) =>
      forall key | key in fields {
        PayloadIdempotentIff(fields[key], id);
      }
      var twice := NormalizePayload(once, id).fields;
      SameFields(twice, once.fields);
      assert forall key :: key in fields ==>
               once.fields[key] == NormalizePayload(fields[key], id) && twice[key] == NormalizePayload(once.fields[key], id);
    case _ =>
  }

  lemma SameItems(a: seq<Json>, b: seq<Json>)
    requires |a| == |b|
    ensures List(a) == List(b) <==> forall i :: 0 <= i < |a| ==> a[i] == b[i]
  {
    if forall i :: 0 <= i < |a| ==> a[i] == b[i] {
      assert a == b;
    }
  }

  lemma SameFields(a: map<string, Json>, b: map<string, Json>)
    requires a.Keys == b.Keys
    ensures Dict(a) == Dict(b) <==> forall key :: key in a ==> a[key] == b[key]
  {
    if forall key :: key in a ==> a[key] == b[key] {
      assert a == b;
    }
  }
}
