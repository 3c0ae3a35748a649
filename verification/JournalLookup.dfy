/** Which rows Database.get_file_journal (src/sot_graph/db.py) may return for a path, where the path
    separator is the slash. It takes any one row that matches: the path's own, one spelled differently, or
    one of another file whose location ends in the path. The model leaves open which of them it is, as the
    query does. */
module JournalLookup {
  import opened CbmStore

  /** SQLite's LIKE folds the case of ASCII letters, and of no others. */
  function FoldChar(c: char): char {
    if 'A' <= c <= 'Z' then ((c as int) + 32) as char else c
  }

  function Fold(s: string): string {
    seq(|s|, i requires 0 <= i < |s| => FoldChar(s[i]))
  }

  predicate EndsLike(row: string, suffix: string) {
    |suffix| <= |row| && Fold(row[|row| - |suffix|..]) == Fold(suffix)
  }

  function Turned(s: string, old_: char, new_: char): string {
    seq(|s|, i requires 0 <= i < |s| => if s[i] == old_ then new_ else s[i])
  }

  function StripLeft(s: string, c: char): string {
    if s != "" && s[0] == c then StripLeft(s[1..], c) else s
  }

  function StripRight(s: string, c: char): string {
    if s != "" && s[|s| - 1] == c then StripRight(s[..|s| - 1], c) else s
  }

  function Strip(s: string, c: char): string {
    StripRight(StripLeft(s, c), c)
  }

  /** The seven alternatives of the query, of which two pairs coincide. */
  predicate Matches(fs: FileSystem, row: string, path: string) {
    || row == path
    || row == fs.realpath(path)
    || EndsLike(row, "/" + Strip(Turned(path, '\\', '/'), '/'))
    || EndsLike(row, "\\" + Strip(Turned(path, '/', '\\'), '\\'))
    || EndsLike(row, "/" + StripLeft(path, '/'))
  }

  /** A row that ends in the path, letter case apart, matches it, whatever stands before. */
  lemma FoldedSuffixMatches(fs: FileSystem, before: string, rel: string, folded: string)
    requires rel != "" && rel[0] != '/' && Fold(rel) == Fold(folded)
    ensures Matches(fs, before + "/" + folded, "/" + rel)
  {
    var row, path := before + "/" + folded, "/" + rel;
    assert path[1..] == rel;
    assert StripLeft(path, '/') == rel;
    assert |Fold(rel)| == |rel| && |Fold(folded)| == |folded|;
    assert row[|row| - |path|..] == "/" + folded;
    forall i | 0 <= i < |path| ensures Fold("/" + folded)[i] == Fold(path)[i] {
      if i > 0 { assert Fold(folded)[i - 1] == Fold(rel)[i - 1]; }
    }
    assert Fold("/" + folded) == Fold(path);
  }
}
