/** The entry point's guard: a scan starts only for an http:// or https:// target. */
module Cli {
  import opened Wrappers
  import opened Strings
  import opened Probe
  import opened Catalog
  import opened Scanner

  /** The target URL names one of the two accepted schemes. */
  predicate IsValidTarget(url: string)
  {
    StartsWith(url, "http://") || StartsWith(url, "https://")
  }

  /**
   * Validates the target and, only if it is valid, runs the scan; an invalid
   * target yields no results and no probe. `replies` and `completionOrder`
   * stand for the network and the worker pool, as for `ScanTarget`.
   */
  method RunScanner(url: string, replies: string -> HttpResult, completionOrder: seq<string>)
    returns (results: Option<map<string, Outcome>>)
    requires multiset(completionOrder) == multiset(PATHS)
    ensures results.Some? <==> IsValidTarget(url)
    ensures results.Some? ==> results.value == ExpectedResults(replies)
  {
    if !IsValidTarget(url) {
      return None;
    }
    var scanned := ScanTarget(replies, completionOrder);
    results := Some(scanned);
  }

  /** The scheme test is a case-sensitive prefix test, nothing more. */
  lemma ValidTargetExamples()
    ensures IsValidTarget("http://example.com") && IsValidTarget("https://example.com")
    ensures IsValidTarget("http://")
    ensures !IsValidTarget("example.com") && !IsValidTarget("ftp://example.com")
    ensures !IsValidTarget("HTTP://example.com") && !IsValidTarget("http:/example.com")
  {
    assert "example.com"[0] != "http://"[0];
    assert "ftp://example.com"[0] != "http://"[0];
    assert "HTTP://example.com"[0] != "http://"[0];
    assert "http:/example.com"[6] != "http://"[6] && "http:/example.com"[4] != "https://"[4];
  }
}
