# gitfinder, modelled in Dafny

gitfinder probes a web host for an exposed `.git` control directory. It
requests ten well-known paths (`PATHS`), one GET per path, and classifies
each answer. A 200 response is "exposed" and keeps the body verbatim. Any
other status is "not exposed" with its status code. A transport failure is
"error" with the exception's message. An exposed `HEAD`, `config` or
`description` file is annotated, by a regular-expression search on the
body, with the branch name it points at, with "Git config exposed", or with
"Default Git description exposed". The scan runs the probes on a thread
pool and writes each outcome into a dictionary keyed by path as the probes
complete. The entry point refuses a target that does not begin with
`http://` or `https://`.

The model has one module per component:

- `Strings` (strings.dfy): `endswith`, `startswith` and literal substring search, each tied to a definition by occurrence position.
- `BranchPattern` (branch_pattern.dfy): the pattern `ref: refs/heads/([\w-]+)` under `re.search` semantics. It has a specification of the captured group (first matching position, longest run) and a proof that the search returns exactly that group.
- `Probe` (probe.dfy): the request's result as an input value, the outcome record, the classifier (the `if/elif/elif` chain) and `check_git_exposure`.
- `Catalog` (catalog.dfy): `PATHS` and which of its entries each classifier rule applies to.
- `Scanner` (scanner.dfy): `scan_target`'s aggregation loop, as a method over an arbitrary completion order.
- `Cli` (cli.dfy): the URL-scheme guard in `main`.
- `Wrappers` (wrappers.dfy): the `Option` type.

The outcome dictionary is the datatype `Probe.Outcome`. `Probe.Status`
gives its `"status"` value and `Probe.Fields` its key set. Annotations are
a `map<string, string>` inside `Exposed`, which is how the source adds them
to the dictionary.

The classifier's rules can also be read as independent, each gated only by
its own suffix, with their annotations merged. The code instead uses an
`elif` chain, and the model follows the code. `Probe.ClassifyIsIndependentRules`
proves that the two readings agree on every path. They agree because
`HEAD`, `config` and `description` end in different characters, so no path
ends with two of them. When the target is invalid, `main` simply returns;
it does not exit with an error status. `Cli.RunScanner` models this as
"no scan, no results".

## Model

| member | source | states |
|---|---|---|
| `Strings.Contains` | gitfinder.py:59-66 | the literal search for `[core]` / `Unnamed repository` is true exactly when the pattern occurs at some position of the body |
| `Strings.EndsWithIsConcatenation` | gitfinder.py:55-63 | `endswith(suffix)` holds exactly when the path is some text followed by the suffix |
| `BranchPattern.BranchRun` | gitfinder.py:27 | the greedy `[\w-]+` run from a position: all branch characters, and it stops at the end of the body or at a non-branch character |
| `BranchPattern.FirstMatch` | gitfinder.py:56 | `re.search` finds the least position at which the whole branch pattern matches, or reports that no position matches |
| `BranchPattern.BranchSearch` | gitfinder.py:56-58 | a branch is found iff some occurrence of `ref: refs/heads/` is followed by a branch character; the group it returns is the maximal non-empty run after the first such occurrence |
| `BranchPattern.MaximalRunLength` | gitfinder.py:27 | any maximal run of branch characters from a position has the length that the greedy scan measures |
| `BranchPattern.MaximalRunUnique` | gitfinder.py:27 | two maximal runs from the same position are equal |
| `BranchPattern.BranchCaptureUnique` | gitfinder.py:27 | at most one string satisfies the capture specification (first match, maximal run) |
| `BranchPattern.BranchSearchExact` | gitfinder.py:56-58 | whenever a string satisfies the capture specification, the search returns exactly that string |
| `BranchPattern.BranchSearchMain` | gitfinder.py:56-58 | the body `ref: refs/heads/main\n` yields branch `main` |
| `BranchPattern.BranchSearchDev` | gitfinder.py:56-58 | the body `ref: refs/heads/dev` yields branch `dev` |
| `BranchPattern.BranchSearchSkipsEmptyCapture` | gitfinder.py:56-58 | a prefix occurrence with no branch character after it is skipped, and the next occurrence supplies the branch |
| `Probe.Classify` | gitfinder.py:54-66 | the annotations hold at most one key. `branch` appears iff the path ends with HEAD and the pattern matches, and its value is the first, maximal capture. `config` appears iff the path does not end with HEAD, ends with config and the body contains `[core]`. `description` appears iff neither of those suffixes applies, the path ends with description and the body contains `Unnamed repository`. The values are the fixed texts |
| `Probe.CheckGitExposure` | gitfinder.py:44-71 | the path is returned unchanged. Status 200 gives "exposed", with the body verbatim as content and the classifier's annotations. Any other status gives "not exposed" carrying that code. A transport failure gives "error" carrying its message, returned rather than raised |
| `Probe.ProbeFields` | gitfinder.py:52-71 | the record's keys: "status" and "content" plus at most one annotation key (three keys at most, never "status_code" or "error"); or exactly "status" and "status_code"; or exactly "status" and "error" |
| `Probe.SuffixesExclusive` | gitfinder.py:55-63 | no path ends with two of HEAD, config and description |
| `Probe.ClassifyIsIndependentRules` | gitfinder.py:54-66 | the `elif` chain gives the same annotations as three independent suffix-gated rules merged together |
| `Probe.ClassifyHeadExample` | gitfinder.py:55-58 | `/.git/HEAD` with body `ref: refs/heads/main\n` is annotated `branch = main` |
| `Probe.ClassifyConfigExample` | gitfinder.py:59-62 | `/.git/config` whose body opens with `[core]` is annotated `config = Git config exposed` |
| `Probe.ClassifyDescriptionExample` | gitfinder.py:63-66 | `/.git/description` whose body opens with `Unnamed repository` is annotated `description = Default Git description exposed` |
| `Probe.NotFoundExample` | gitfinder.py:68-69 | a 404 yields the record with only "status" = "not exposed" and "status_code" = 404 |
| `Catalog.CatalogDistinct` | gitfinder.py:12-23 | the ten catalog paths are pairwise different, so they are ten distinct keys |
| `Catalog.DistinctElementsCount` | gitfinder.py:12-23 | a list without repetitions has as many distinct elements as entries |
| `Catalog.CatalogHeadEntries` | gitfinder.py:12-23 | of the catalog, exactly `/.git/HEAD` and `/.git/logs/HEAD` end with HEAD |
| `Catalog.CatalogConfigEntries` | gitfinder.py:12-23 | of the catalog, exactly `/.git/config` ends with config |
| `Catalog.CatalogDescriptionEntries` | gitfinder.py:12-23 | of the catalog, exactly `/.git/description` ends with description |
| `Scanner.ProbedMapAppend` | gitfinder.py:81-82 | recording one more completed probe is the single write `results[path] = result` |
| `Scanner.ProbedMapOrderFree` | gitfinder.py:80-82 | the path-to-outcome mapping (keys and values) recorded from a set of completed probes does not depend on the order of completion |
| `Scanner.ExpectedResultsShape` | gitfinder.py:77-84 | a scan's result has exactly the catalog paths as keys, ten entries, each path mapped to its own probe's outcome |
| `Scanner.CompletedScan` | gitfinder.py:79-84 | after every catalog path has completed once, in any order, the recorded dictionary is the expected result |
| `Scanner.ScanTarget` | gitfinder.py:73-84 | the loop over completions in any order leaves exactly one entry per catalog path. Each entry is that path's own outcome; the path-to-outcome mapping is the same whatever the order |
| `Scanner.HeadOnlyServerScan` | gitfinder.py:73-84 | against a server exposing only `/.git/HEAD` (body `ref: refs/heads/dev`) and answering 404 otherwise, `/.git/HEAD` is exposed with branch `dev` and the nine other paths are not exposed with code 404 |
| `Cli.RunScanner` | gitfinder.py:122-127 | a scan happens, and results exist, iff the target begins with `http://` or `https://`; the results are then the scan's |
| `Cli.ValidTargetExamples` | gitfinder.py:122-124 | the scheme test is a case-sensitive prefix test: `http://…` and `https://…` pass; a bare host, `ftp://`, `HTTP://` and `http:/` fail |

## Left out

- The HTTP request itself is not modelled: `requests.get`, its 10-second timeout and the exception hierarchy. Each probe takes its `HttpResult` (a response or a transport error) as input; in a scan these come from a function from path to result.
- `urljoin` and the target URL's role in each request are left out: each probe's result is an input, and `Scanner.ScanTarget` has no URL parameter. What this loses is stated on the `Cli.RunScanner` line below.
- The decoding of the body into `response.text` is left out; the body is a given string.
- The random `User-Agent` header (`USER_AGENTS`, `get_random_headers`) is left out, because it does not affect any outcome.
- The thread pool, `max_workers`, `as_completed`, `time.sleep(delay)` and the `tqdm` progress bar are left out. Concurrency is reduced to one arbitrary completion order, a permutation of the catalog, and results are written one at a time.
- `print_results`, `save_results` (the JSON file) and `argparse` are left out as console and file I/O. So are the messages `main` prints.
- BranchPattern.IsWordChar: `\w` is taken as the ASCII letters, digits and `_`. Python 3's `re` on `str` also accepts Unicode letters and digits. A branch name containing a non-ASCII word character is cut short at it in the model. When that character comes first after `ref: refs/heads/`, the model finds no match at that occurrence at all: `BranchSearch` of `ref: refs/heads/été` is `None`, where Python captures `été`. The `branch` annotation is then missing, or is taken from a later occurrence.
- Probe.CheckGitExposure: the error text is whatever message the failure carries. `str(e)` is not guaranteed to be non-empty, and the model does not claim it is.
- Scanner.ScanTarget: the insertion order of the results dictionary is not modelled; a `map` has no order. In the source that order is the completion order, because each write happens as a probe completes (gitfinder.py:80-82). The console report and the JSON file list the entries in that order (gitfinder.py:90, 108), so those outputs depend on the completion order even though the path-to-outcome mapping does not.
- Cli.RunScanner: exceptions that escape `check_git_exposure` are not modelled. `urljoin` runs outside the `try` (gitfinder.py:48-49), so a target such as `http://[::1` passes the scheme test but makes `urljoin` raise `ValueError`. Any exception that is not a `requests.RequestException` also escapes. `future.result()` (gitfinder.py:81) re-raises it, and the whole scan aborts with no results. The model's `results.Some? <==> IsValidTarget(url)` therefore holds only when every probe ends in a response or a `RequestException`.
- Status codes are unbounded integers. The source compares them with 200 and copies them, so no width matters.
