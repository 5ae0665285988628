/** The fixed list of control-directory paths that a scan probes. */
module Catalog {
  import opened Strings
  import opened Probe

  /** `PATHS`, in the order the scan submits its probes. */
  const PATHS: seq<string> := [
    "/.git/",
    "/.git/HEAD",
    "/.git/config",
    "/.git/index",
    "/.git/logs/HEAD",
    "/.git/refs/heads/master",
    "/.git/refs/heads/main",
    "/.git/description",
    "/.git/hooks/",
    "/.git/info/exclude"
  ]

  /** No element of `s` occurs twice. */
  predicate Distinct<T(==)>(s: seq<T>)
  {
    forall i, j :: 0 <= i < j < |s| ==> s[i] != s[j]
  }

  /** The catalog lists every path once, so it names ten different paths. */
  lemma CatalogDistinct()
    ensures Distinct(PATHS)
    ensures |set p | p in PATHS| == |PATHS| == 10
  {
    DistinctElementsCount(PATHS);
  }

  /** A sequence without repetitions has as many distinct elements as entries. */
  lemma {:induction false} DistinctElementsCount<T>(s: seq<T>)
    requires Distinct(s)
    ensures |set x | x in s| == |s|
  {
    if s != [] {
      var rest := s[1..];
      assert Distinct(rest) by {
        forall i, j | 0 <= i < j < |rest| ensures rest[i] != rest[j] {
          assert rest[i] == s[i + 1] && rest[j] == s[j + 1];
        }
      }
      DistinctElementsCount(rest);
      assert (set x | x in s) == {s[0]} + (set x | x in rest);
      assert s[0] !in (set x | x in rest) by {
        forall k | 0 <= k < |rest| ensures rest[k] != s[0] {
          assert rest[k] == s[k + 1];
        }
      }
    }
  }

  /*
   * Which catalog entries carry which classifier rule: the two HEAD files get the
   * branch rule, `/.git/config` the config rule and `/.git/description` the
   * description rule; every other entry is reported without annotation.
   */

  /** The branch rule applies to exactly the two HEAD files of the catalog. */
  lemma CatalogHeadEntries()
    ensures forall p :: p in PATHS ==> (EndsWith(p, HEAD_SUFFIX) <==> p == "/.git/HEAD" || p == "/.git/logs/HEAD")
  {
    forall p | p in PATHS && EndsWith(p, HEAD_SUFFIX) ensures p == "/.git/HEAD" || p == "/.git/logs/HEAD" {
      EndsWithCharFromEnd(p, HEAD_SUFFIX, 0);
    }
    assert EndsWith("/.git/HEAD", HEAD_SUFFIX) && EndsWith("/.git/logs/HEAD", HEAD_SUFFIX);
  }

  /** The config rule applies to `/.git/config` alone. */
  lemma CatalogConfigEntries()
    ensures forall p :: p in PATHS ==> (EndsWith(p, CONFIG_SUFFIX) <==> p == "/.git/config")
  {
    forall p | p in PATHS && EndsWith(p, CONFIG_SUFFIX) ensures p == "/.git/config" {
      EndsWithCharFromEnd(p, CONFIG_SUFFIX, 0);
    }
    assert EndsWith("/.git/config", CONFIG_SUFFIX);
  }

  /** The description rule applies to `/.git/description` alone. */
  lemma CatalogDescriptionEntries()
    ensures forall p :: p in PATHS ==> (EndsWith(p, DESCRIPTION_SUFFIX) <==> p == "/.git/description")
  {
    forall p | p in PATHS && EndsWith(p, DESCRIPTION_SUFFIX) ensures p == "/.git/description" {
      // `/.git/refs/heads/main` also ends in 'n'; the character before tells them apart.
      EndsWithCharFromEnd(p, DESCRIPTION_SUFFIX, 0);
      EndsWithCharFromEnd(p, DESCRIPTION_SUFFIX, 1);
    }
    assert EndsWith("/.git/description", DESCRIPTION_SUFFIX);
  }
}
