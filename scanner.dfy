/**
 * The scan's aggregation: every catalog path is probed once, and the outcomes
 * are recorded into a dictionary keyed by path as they complete, in whatever
 * order the worker pool finishes them.
 */
module Scanner {
  import opened Strings
  import opened Probe
  import opened Catalog

  /** Each path of `paths` mapped to the outcome of its own probe. */
  function ProbedMap(paths: seq<string>, replies: string -> HttpResult): map<string, Outcome>
  {
    map p | p in paths :: CheckGitExposure(p, replies(p)).1
  }

  /** The mapping a scan must produce: the catalog's paths, each mapped to its own probe's outcome. */
  function ExpectedResults(replies: string -> HttpResult): map<string, Outcome>
  {
    ProbedMap(PATHS, replies)
  }

  /** Recording one more completed probe is a single dictionary write. */
  lemma ProbedMapAppend(paths: seq<string>, path: string, replies: string -> HttpResult)
    ensures ProbedMap(paths + [path], replies)
            == ProbedMap(paths, replies)[path := CheckGitExposure(path, replies(path)).1]
  {
    var outcome := CheckGitExposure(path, replies(path)).1;
    assert (ProbedMap(paths + [path], replies)).Keys == ProbedMap(paths, replies)[path := outcome].Keys;
  }

  /** The recorded mapping depends only on which paths completed, not on their order. */
  lemma ProbedMapOrderFree(a: seq<string>, b: seq<string>, replies: string -> HttpResult)
    requires multiset(a) == multiset(b)
    ensures ProbedMap(a, replies) == ProbedMap(b, replies)
  {
    forall p ensures p in a <==> p in b {
      assert p in a <==> p in multiset(a);
      assert p in b <==> p in multiset(b);
    }
    assert ProbedMap(a, replies).Keys == ProbedMap(b, replies).Keys;
  }

  /**
   * A scan's result has exactly one entry per catalog path, ten in all, and
   * each entry is the outcome that path's own probe produced.
   */
  lemma ExpectedResultsShape(replies: string -> HttpResult)
    ensures ExpectedResults(replies).Keys == set p | p in PATHS
    ensures |ExpectedResults(replies)| == |PATHS| == 10
    ensures forall p :: p in PATHS ==>
      && p in ExpectedResults(replies)
      && ExpectedResults(replies)[p] == CheckGitExposure(p, replies(p)).1
  {
    CatalogDistinct();
    assert ExpectedResults(replies).Keys == set p | p in PATHS;
    assert (set p | p in PATHS) == ExpectedResults(replies).Keys;
  }

  /**
   * Records the probe outcomes as they complete. `completionOrder` is the order
   * in which the worker pool finishes the probes, any permutation of the catalog;
   * `replies` gives what the GET request of each path returned. The key written
   * is the path the probe hands back with its outcome.
   */
  method ScanTarget(replies: string -> HttpResult, completionOrder: seq<string>)
    returns (results: map<string, Outcome>)
    requires multiset(completionOrder) == multiset(PATHS)
    ensures results == ExpectedResults(replies)
    ensures results.Keys == set p | p in PATHS
  {
    results := map[];
    var i := 0;
    while i < |completionOrder|
      invariant 0 <= i <= |completionOrder|
      invariant results == ProbedMap(completionOrder[..i], replies)
    {
      var (path, outcome) := CheckGitExposure(completionOrder[i], replies(completionOrder[i]));
      assert completionOrder[..i + 1] == completionOrder[..i] + [completionOrder[i]];
      ProbedMapAppend(completionOrder[..i], completionOrder[i], replies);
      results := results[path := outcome];
      i := i + 1;
    }
    assert completionOrder[..i] == completionOrder;
    CompletedScan(completionOrder, replies);
  }

  /** Once every catalog path has completed, in whatever order, the recorded mapping is the expected one. */
  lemma CompletedScan(completionOrder: seq<string>, replies: string -> HttpResult)
    requires multiset(completionOrder) == multiset(PATHS)
    ensures ProbedMap(completionOrder, replies) == ExpectedResults(replies)
    ensures ProbedMap(completionOrder, replies).Keys == set p | p in PATHS
  {
    ProbedMapOrderFree(completionOrder, PATHS, replies);
    ExpectedResultsShape(replies);
  }

  /** A server whose `/.git/HEAD` names branch `dev` and which answers 404 for everything else. */
  function HeadOnlyServer(path: string): HttpResult
  {
    if path == "/.git/HEAD" then Reply(Response(HTTP_OK, "ref: refs/heads/dev"))
    else Reply(Response(404, ""))
  }

  /** Against that server only `/.git/HEAD` is exposed, with branch `dev`; the nine others are 404. */
  lemma HeadOnlyServerScan()
    ensures "/.git/HEAD" in ExpectedResults(HeadOnlyServer)
    ensures ExpectedResults(HeadOnlyServer)["/.git/HEAD"]
            == Exposed("ref: refs/heads/dev", map[BRANCH_KEY := "dev"])
    ensures forall p :: p in PATHS && p != "/.git/HEAD" ==> ExpectedResults(HeadOnlyServer)[p] == NotExposed(404)
  {
    ExpectedResultsShape(HeadOnlyServer);
    BranchPattern.BranchSearchDev();
    assert EndsWith("/.git/HEAD", HEAD_SUFFIX);
  }
}
