/**
 * Prefix, suffix and substring tests on text, as Python's `str.startswith`,
 * `str.endswith` and a literal `re.search` perform them. The prefix and suffix
 * tests are defined by an occurrence at a fixed position; the substring search
 * is computed by a scan and proved equal to "occurs at some position".
 */
module Strings {

  /** `pat` occurs in `s` starting at position `k`. */
  predicate OccursAt(s: string, pat: string, k: int)
  {
    0 <= k && k + |pat| <= |s| && s[k..k + |pat|] == pat
  }

  /** The specification of a substring search: some position holds `pat`. */
  ghost predicate HasSubstring(s: string, pat: string)
  {
    exists k :: OccursAt(s, pat, k)
  }

  /** Scans the positions from `i` on for an occurrence of `pat`. */
  function ContainsFrom(s: string, pat: string, i: nat): (found: bool)
    ensures found <==> exists k :: i <= k && OccursAt(s, pat, k)
    decreases |s| - i
  {
    if i + |pat| > |s| then false
    else if s[i..i + |pat|] == pat then assert OccursAt(s, pat, i); true
    else ContainsFrom(s, pat, i + 1)
  }

  /** A literal search of `pat` in `s` (Python's `pat in s`, or `re.search` of an escaped literal). */
  function Contains(s: string, pat: string): (found: bool)
    ensures found <==> HasSubstring(s, pat)
  {
    ContainsFrom(s, pat, 0)
  }

  /** Python's `s.startswith(prefix)`. */
  predicate StartsWith(s: string, prefix: string)
  {
    OccursAt(s, prefix, 0)
  }

  /** Python's `s.endswith(suffix)`. */
  predicate EndsWith(s: string, suffix: string)
  {
    OccursAt(s, suffix, |s| - |suffix|)
  }

  /** `EndsWith` agrees with the algebraic reading: `s` is some text followed by `suffix`. */
  lemma EndsWithIsConcatenation(s: string, suffix: string)
    ensures EndsWith(s, suffix) <==> |suffix| <= |s| && s == s[..|s| - |suffix|] + suffix
  {
    if |suffix| <= |s| && s == s[..|s| - |suffix|] + suffix {
      assert s[|s| - |suffix|..] == suffix;
    }
  }

  /** A text ending with `suffix` agrees with it `k` characters from the end. */
  lemma EndsWithCharFromEnd(s: string, suffix: string, k: nat)
    requires k < |suffix| && EndsWith(s, suffix)
    ensures k < |s| && s[|s| - 1 - k] == suffix[|suffix| - 1 - k]
  {
    assert s[|s| - |suffix|..][|suffix| - 1 - k] == s[|s| - 1 - k];
  }
}
