/** Substrings, shared by the claim linter and the corpus paths. */
module Text {
  predicate OccursAt(text: string, needle: string, i: int) {
    0 <= i <= |text| - |needle| && text[i..i + |needle|] == needle
  }
}
