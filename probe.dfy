/**
 * One probe of one path: the HTTP exchange is an input value (a response or a
 * transport failure), and the outcome record is built from it and, for an
 * exposed path, annotated by the classifier rule that the path's suffix selects.
 */
module Probe {
  import opened Wrappers
  import opened Strings
  import opened BranchPattern

  /** What `requests.get` returned: the status code and the decoded body text. */
  datatype Response = Response(statusCode: int, text: string)

  /** The result of the single GET request: a response, or a `requests.RequestException` with its message. */
  datatype HttpResult = Reply(response: Response) | TransportError(message: string)

  /**
   * The outcome record of one path. `Exposed` carries the body verbatim and the
   * annotation keys the classifier added; the other two cases carry only the
   * status code or the error message.
   */
  datatype Outcome =
    | Exposed(content: string, annotations: map<string, string>)
    | NotExposed(statusCode: int)
    | Failed(error: string)

  const HTTP_OK: int := 200

  /** Path suffixes that select a rule; they are also the keys of the pattern table. */
  const HEAD_SUFFIX: string := "HEAD"
  const CONFIG_SUFFIX: string := "config"
  const DESCRIPTION_SUFFIX: string := "description"

  /** The literal patterns of the config and description rules. */
  const CORE_SECTION: string := "[core]"
  const DEFAULT_DESCRIPTION: string := "Unnamed repository"

  /** Annotation keys and the fixed annotation texts. */
  const BRANCH_KEY: string := "branch"
  const CONFIG_KEY: string := "config"
  const DESCRIPTION_KEY: string := "description"
  const CONFIG_NOTE: string := "Git config exposed"
  const DESCRIPTION_NOTE: string := "Default Git description exposed"

  /** The value under the record's "status" key. */
  function Status(o: Outcome): string
  {
    match o
    case Exposed(_, _) => "exposed"
    case NotExposed(_) => "not exposed"
    case Failed(_) => "error"
  }

  /** The set of keys of the record as a dictionary. */
  function Fields(o: Outcome): set<string>
  {
    match o
    case Exposed(_, notes) => {"status", "content"} + notes.Keys
    case NotExposed(_) => {"status", "status_code"}
    case Failed(_) => {"status", "error"}
  }

  /**
   * The classifier: an if/elif/elif chain on the path suffix, each branch
   * running its own search on the body and adding its key only on a match.
   */
  function Classify(path: string, text: string): (notes: map<string, string>)
    ensures notes.Keys <= {BRANCH_KEY, CONFIG_KEY, DESCRIPTION_KEY} && |notes| <= 1
    ensures BRANCH_KEY in notes <==> EndsWith(path, HEAD_SUFFIX) && exists i :: MatchesAt(text, i)
    ensures BRANCH_KEY in notes ==> IsBranchCapture(text, notes[BRANCH_KEY])
    ensures CONFIG_KEY in notes <==>
      !EndsWith(path, HEAD_SUFFIX) && EndsWith(path, CONFIG_SUFFIX) && HasSubstring(text, CORE_SECTION)
    ensures CONFIG_KEY in notes ==> notes[CONFIG_KEY] == CONFIG_NOTE
    ensures DESCRIPTION_KEY in notes <==>
      && !EndsWith(path, HEAD_SUFFIX) && !EndsWith(path, CONFIG_SUFFIX)
      && EndsWith(path, DESCRIPTION_SUFFIX) && HasSubstring(text, DEFAULT_DESCRIPTION)
    ensures DESCRIPTION_KEY in notes ==> notes[DESCRIPTION_KEY] == DESCRIPTION_NOTE
  {
    if EndsWith(path, HEAD_SUFFIX) then
      match BranchSearch(text)
      case Some(branch) => map[BRANCH_KEY := branch]
      case None => map[]
    else if EndsWith(path, CONFIG_SUFFIX) then
      if Contains(text, CORE_SECTION) then map[CONFIG_KEY := CONFIG_NOTE] else map[]
    else if EndsWith(path, DESCRIPTION_SUFFIX) then
      if Contains(text, DEFAULT_DESCRIPTION) then map[DESCRIPTION_KEY := DESCRIPTION_NOTE] else map[]
    else
      map[]
  }

  /**
   * Probes `path`, given what the GET request for it returned. The path comes
   * back unchanged beside the outcome, and a transport failure becomes an
   * outcome rather than escaping.
   */
  function CheckGitExposure(path: string, reply: HttpResult): (r: (string, Outcome))
    ensures r.0 == path
    ensures Status(r.1) == "exposed" <==> reply.Reply? && reply.response.statusCode == HTTP_OK
    ensures Status(r.1) == "not exposed" <==> reply.Reply? && reply.response.statusCode != HTTP_OK
    ensures Status(r.1) == "error" <==> reply.TransportError?
    ensures r.1.Exposed? ==>
      r.1.content == reply.response.text && r.1.annotations == Classify(path, reply.response.text)
    ensures r.1.NotExposed? ==> r.1.statusCode == reply.response.statusCode
    ensures r.1.Failed? ==> r.1.error == reply.message
  {
    match reply
    case Reply(response) =>
      if response.statusCode == HTTP_OK then
        (path, Exposed(response.text, Classify(path, response.text)))
      else
        (path, NotExposed(response.statusCode))
    case TransportError(message) =>
      (path, Failed(message))
  }

  /**
   * The shape of every record a probe returns: its keys are exactly "status"
   * plus "content" and at most one annotation key, or "status_code", or "error".
   */
  lemma ProbeFields(path: string, reply: HttpResult)
    ensures var o := CheckGitExposure(path, reply).1;
      match o
      case Exposed(_, notes) =>
        && Fields(o) == {"status", "content"} + notes.Keys
        && "status_code" !in Fields(o) && "error" !in Fields(o)
        && |Fields(o)| <= 3
      case NotExposed(_) => Fields(o) == {"status", "status_code"}
      case Failed(_) => Fields(o) == {"status", "error"}
  {
    var o := CheckGitExposure(path, reply).1;
    if o.Exposed? {
      var notes := o.annotations;
      assert {"status", "content"} !! notes.Keys;
      assert |{"status", "content"}| == 2;
    }
  }

  /** No text ends with two of the three rule suffixes: their last characters differ. */
  lemma SuffixesExclusive(path: string)
    ensures !(EndsWith(path, HEAD_SUFFIX) && EndsWith(path, CONFIG_SUFFIX))
    ensures !(EndsWith(path, HEAD_SUFFIX) && EndsWith(path, DESCRIPTION_SUFFIX))
    ensures !(EndsWith(path, CONFIG_SUFFIX) && EndsWith(path, DESCRIPTION_SUFFIX))
  {
    if EndsWith(path, HEAD_SUFFIX) { EndsWithCharFromEnd(path, HEAD_SUFFIX, 0); }
    if EndsWith(path, CONFIG_SUFFIX) { EndsWithCharFromEnd(path, CONFIG_SUFFIX, 0); }
    if EndsWith(path, DESCRIPTION_SUFFIX) { EndsWithCharFromEnd(path, DESCRIPTION_SUFFIX, 0); }
  }

  /**
   * The classifier read as a table of independent rules, each gated only by its
   * own suffix, whose annotations are merged.
   */
  function IndependentRules(path: string, text: string): map<string, string>
  {
    var head := if EndsWith(path, HEAD_SUFFIX) && BranchSearch(text).Some?
                then map[BRANCH_KEY := BranchSearch(text).value] else map[];
    var config := if EndsWith(path, CONFIG_SUFFIX) && Contains(text, CORE_SECTION)
                  then map[CONFIG_KEY := CONFIG_NOTE] else map[];
    var description := if EndsWith(path, DESCRIPTION_SUFFIX) && Contains(text, DEFAULT_DESCRIPTION)
                       then map[DESCRIPTION_KEY := DESCRIPTION_NOTE] else map[];
    head + config + description
  }

  /**
   * The elif chain and the independent rule table classify every path alike,
   * because no path can end with two of the suffixes.
   */
  lemma ClassifyIsIndependentRules(path: string, text: string)
    ensures Classify(path, text) == IndependentRules(path, text)
  {
    SuffixesExclusive(path);
  }

  /** A HEAD file naming branch `main`. */
  lemma ClassifyHeadExample()
    ensures Classify("/.git/HEAD", "ref: refs/heads/main\n") == map[BRANCH_KEY := "main"]
  {
    BranchSearchMain();
  }

  /** A config file that opens with its `[core]` section, as `git init` writes it. */
  lemma ClassifyConfigExample(rest: string)
    ensures Classify("/.git/config", CORE_SECTION + rest) == map[CONFIG_KEY := CONFIG_NOTE]
  {
    assert EndsWith("/.git/config", CONFIG_SUFFIX);
    SuffixesExclusive("/.git/config");
    assert OccursAt(CORE_SECTION + rest, CORE_SECTION, 0);
  }

  /** The description file that `git init` writes, which opens with the default text. */
  lemma ClassifyDescriptionExample(rest: string)
    ensures Classify("/.git/description", DEFAULT_DESCRIPTION + rest) == map[DESCRIPTION_KEY := DESCRIPTION_NOTE]
  {
    assert EndsWith("/.git/description", DESCRIPTION_SUFFIX);
    SuffixesExclusive("/.git/description");
    assert OccursAt(DEFAULT_DESCRIPTION + rest, DEFAULT_DESCRIPTION, 0);
  }

  /** A 404 is a normal "not exposed" outcome with no annotations or content. */
  lemma NotFoundExample(path: string, text: string)
    ensures CheckGitExposure(path, Reply(Response(404, text))) == (path, NotExposed(404))
    ensures Fields(NotExposed(404)) == {"status", "status_code"}
  {
  }
}
