/** Substring search, as `std::string::find`. */
module Texts {
  import opened Base

  predicate OccursAt(text: string, pattern: string, k: nat) {
    k + |pattern| <= |text| && text[k..k + |pattern|] == pattern
  }

  /** The first position at or after `from` where `pattern` occurs in `text`. */
  function Find(text: string, pattern: string, from: nat): (r: Option<nat>)
    ensures r.Some? ==> from <= r.value && OccursAt(text, pattern, r.value)
    ensures r.Some? ==> forall k | from <= k < r.value :: !OccursAt(text, pattern, k)
    ensures r.None? ==> forall k: nat | from <= k :: !OccursAt(text, pattern, k)
    decreases |text| - from
  {
    if from + |pattern| > |text| then None
    else if OccursAt(text, pattern, from) then Some(from)
    else Find(text, pattern, from + 1)
  }

  /** Text without the pattern's first character cannot hold a match, so the search passes over it. */
  lemma FindSkips(text: string, pattern: string, from: nat, at: nat)
    requires pattern != [] && from <= at <= |text|
    requires pattern[0] !in text[from..at]
    ensures OccursAt(text, pattern, at) ==> Find(text, pattern, from) == Some(at)
    ensures at + |pattern| > |text| ==> Find(text, pattern, from).None?
  {
    forall k: nat | from <= k < at ensures !OccursAt(text, pattern, k) {
      assert text[k] == text[from..at][k - from] != pattern[0];
    }
  }
}
