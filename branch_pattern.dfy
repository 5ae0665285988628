/**
 * The branch-name pattern `ref: refs/heads/([\w-]+)` applied with a
 * single first-match search, as `re.search(...).group(1)` does.
 *
 * A match at position i needs the literal prefix at i and at least one
 * branch character right after it; the greedy `+` then takes the longest
 * run of branch characters, and since nothing follows the group in the
 * pattern no backtracking ever shortens it. `\w` is taken as the ASCII
 * word characters.
 */
module BranchPattern {
  import opened Wrappers
  import opened Strings

  /** The literal part of the pattern that precedes the captured group. */
  const REF_PREFIX: string := "ref: refs/heads/"

  /** `\w` restricted to ASCII: letters, digits and underscore. */
  predicate IsWordChar(c: char)
  {
    ('a' <= c <= 'z') || ('A' <= c <= 'Z') || ('0' <= c <= '9') || c == '_'
  }

  /** The character class `[\w-]`. */
  predicate IsBranchChar(c: char)
  {
    IsWordChar(c) || c == '-'
  }

  /** The whole pattern matches at position `i` of `s`. */
  predicate MatchesAt(s: string, i: int)
  {
    OccursAt(s, REF_PREFIX, i) && i + |REF_PREFIX| < |s| && IsBranchChar(s[i + |REF_PREFIX|])
  }

  /** `b` is a longest non-empty run of branch characters starting at `j` in `s`. */
  ghost predicate IsMaximalRunAt(s: string, j: int, b: string)
  {
    && 0 <= j
    && |b| > 0
    && j + |b| <= |s|
    && s[j..j + |b|] == b
    && (forall k :: 0 <= k < |b| ==> IsBranchChar(b[k]))
    && (j + |b| == |s| || !IsBranchChar(s[j + |b|]))
  }

  /**
   * The specification of the captured group: `b` is the maximal run after the
   * prefix of the FIRST position at which the whole pattern matches.
   */
  ghost predicate IsBranchCapture(s: string, b: string)
  {
    exists i ::
      && MatchesAt(s, i)
      && (forall k :: 0 <= k < i ==> !MatchesAt(s, k))
      && IsMaximalRunAt(s, i + |REF_PREFIX|, b)
  }

  /** The length of the run of branch characters starting at `j`. */
  function BranchRun(s: string, j: nat): (n: nat)
    requires j <= |s|
    ensures j + n <= |s|
    ensures forall k :: j <= k < j + n ==> IsBranchChar(s[k])
    ensures j + n == |s| || !IsBranchChar(s[j + n])
    decreases |s| - j
  {
    if j < |s| && IsBranchChar(s[j]) then 1 + BranchRun(s, j + 1) else 0
  }

  /** The regex engine's scan: the first position from `i` on where the pattern matches. */
  function FirstMatch(s: string, i: nat): (r: Option<nat>)
    ensures r.Some? ==> i <= r.value && MatchesAt(s, r.value)
    ensures r.Some? ==> forall k :: i <= k < r.value ==> !MatchesAt(s, k)
    ensures r.None? ==> forall k :: i <= k ==> !MatchesAt(s, k)
    decreases |s| - i
  {
    if i >= |s| then None
    else if MatchesAt(s, i) then Some(i)
    else FirstMatch(s, i + 1)
  }

  /** `re.search(REGEX_PATTERNS["HEAD"], s)` followed by `.group(1)` when it matched. */
  function BranchSearch(s: string): (r: Option<string>)
    ensures r.Some? <==> exists i :: MatchesAt(s, i)
    ensures r.Some? ==> IsBranchCapture(s, r.value)
  {
    match FirstMatch(s, 0)
    case None => None
    case Some(i) =>
      var j := i + |REF_PREFIX|;
      var b := s[j..j + BranchRun(s, j)];
      assert |b| > 0 && b[0] == s[j];
      assert IsMaximalRunAt(s, j, b);
      Some(b)
  }

  /** A maximal run is exactly the run that `BranchRun` measures. */
  lemma {:induction false} MaximalRunLength(s: string, j: int, b: string)
    requires IsMaximalRunAt(s, j, b)
    ensures |b| == BranchRun(s, j)
    decreases |b|
  {
    assert s[j] == b[0];
    if |b| > 1 {
      var t := b[1..];
      assert IsMaximalRunAt(s, j + 1, t) by {
        assert s[j + 1..j + 1 + |t|] == t;
      }
      MaximalRunLength(s, j + 1, t);
    }
  }

  /** Two maximal runs from the same start are the same text. */
  lemma MaximalRunUnique(s: string, j: int, b1: string, b2: string)
    requires IsMaximalRunAt(s, j, b1) && IsMaximalRunAt(s, j, b2)
    ensures b1 == b2
  {
    MaximalRunLength(s, j, b1);
    MaximalRunLength(s, j, b2);
  }

  /** The captured group is determined by the text: at most one string satisfies the specification. */
  lemma {:induction false} BranchCaptureUnique(s: string, b1: string, b2: string)
    requires IsBranchCapture(s, b1) && IsBranchCapture(s, b2)
    ensures b1 == b2
  {
    var i1 :| MatchesAt(s, i1) && (forall k :: 0 <= k < i1 ==> !MatchesAt(s, k))
              && IsMaximalRunAt(s, i1 + |REF_PREFIX|, b1);
    var i2 :| MatchesAt(s, i2) && (forall k :: 0 <= k < i2 ==> !MatchesAt(s, k))
              && IsMaximalRunAt(s, i2 + |REF_PREFIX|, b2);
    assert i1 == i2;
    MaximalRunUnique(s, i1 + |REF_PREFIX|, b1, b2);
  }

  /** So the search returns exactly the specified capture, whenever one exists. */
  lemma {:induction false} BranchSearchExact(s: string, b: string)
    requires IsBranchCapture(s, b)
    ensures BranchSearch(s) == Some(b)
  {
    var i :| MatchesAt(s, i) && (forall k :: 0 <= k < i ==> !MatchesAt(s, k))
             && IsMaximalRunAt(s, i + |REF_PREFIX|, b);
    BranchCaptureUnique(s, BranchSearch(s).value, b);
  }

  /** A HEAD file pointing at `main` yields the branch name `main`. */
  lemma BranchSearchMain()
    ensures BranchSearch("ref: refs/heads/main\n") == Some("main")
  {
    var s := "ref: refs/heads/main\n";
    assert MatchesAt(s, 0);
    assert IsMaximalRunAt(s, 16, "main") by {
      assert s[16..20] == "main";
    }
    BranchSearchExact(s, "main");
  }

  /** A HEAD file pointing at `dev`, with no trailing newline, yields `dev`. */
  lemma BranchSearchDev()
    ensures BranchSearch("ref: refs/heads/dev") == Some("dev")
  {
    var s := "ref: refs/heads/dev";
    assert MatchesAt(s, 0);
    assert IsMaximalRunAt(s, 16, "dev") by {
      assert s[16..19] == "dev";
    }
    BranchSearchExact(s, "dev");
  }

  /** Where the prefix occurs, its first character is 'r' and its fourth is ':'. */
  lemma PrefixLandmarks(s: string, k: int)
    ensures OccursAt(s, REF_PREFIX, k) ==> s[k] == 'r' && s[k + 3] == ':'
  {
    if OccursAt(s, REF_PREFIX, k) {
      assert REF_PREFIX[0] == 'r' && REF_PREFIX[3] == ':';
      assert s[k..k + |REF_PREFIX|][0] == s[k];
      assert s[k..k + |REF_PREFIX|][3] == s[k + 3];
    }
  }

  /** The prefix holds a second 'r' only at position 5, where it is followed by "efs", not "ef:". */
  lemma PrefixInnerLetters()
    ensures forall k :: 0 < k < |REF_PREFIX| && REF_PREFIX[k] == 'r' ==> k == 5
    ensures REF_PREFIX[8] == 's'
  {
  }

  /**
   * An occurrence of the prefix that is not followed by a branch character is
   * skipped, and the search goes on to the next one.
   */
  lemma BranchSearchSkipsEmptyCapture()
    ensures BranchSearch(REF_PREFIX + " " + REF_PREFIX + "x") == Some("x")
  {
    var s := REF_PREFIX + " " + REF_PREFIX + "x";
    assert |s| == 34 && s[16] == ' ' && s[33] == 'x';
    assert s[17..33] == REF_PREFIX;
    assert MatchesAt(s, 17);
    PrefixInnerLetters();
    assert s[8] == REF_PREFIX[8];
    forall k | 0 <= k < 17 ensures !MatchesAt(s, k) {
      PrefixLandmarks(s, k);
      if k < 16 {
        assert s[k] == REF_PREFIX[k];
      }
    }
    assert IsMaximalRunAt(s, 33, "x") by {
      assert s[33..34] == "x";
    }
    BranchSearchExact(s, "x");
  }
}
