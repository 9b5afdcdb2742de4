/**
 * The offline `google_web_search` tool: a search of the cached web entries, answered with one
 * record per matching entry, or with a single miss record when nothing matches.
 */
module OfflineWebSearch {
  import opened Wrappers
  import opened Strings
  import opened Json
  import opened CacheManifest
  import opened ToolsBase

  /** The tool's arguments, as its input schema declares them. */
  datatype WebArgs = WebArgs(searchQuery: Arg<string>, topNResults: Arg<int>)

  /**
   * One dict of the tool's result: `{offline_miss: True, query, results: []}`, or the
   * fields `title`, `link`, `source_id`, `local_path` and `metadata` of a matching entry.
   */
  datatype WebRecord =
    | OfflineMiss(query: string)
    | WebResult(title: Json, link: Json, sourceId: Json, localPath: Json, metadata: Json)

  /** The number of results when `top_n_results` is absent, null or zero. */
  const DefaultTopN := 10

  /** The record of one matching entry: its URL goes under `link`. */
  function Format(e: CacheEntry): WebRecord {
    WebResult(e.title, e.url, e.sourceId, e.localPath, e.metadata)
  }

  /** The tool's answer for the search results. */
  function Respond(query: string, results: seq<CacheEntry>): seq<WebRecord> {
    if results == [] then [OfflineMiss(query)]
    else seq(|results|, i requires 0 <= i < |results| => Format(results[i]))
  }

  /**
   * What `call_tool` returns or raises for the manifest's entries; `render` stands for
   * `str()` of a list or a dict.
   */
  function WebSearch(args: WebArgs, entries: seq<CacheEntry>, render: Json -> string): (r: Result<seq<WebRecord>, Raised>)
    ensures args.searchQuery.Null? ==> r.Err?
    ensures r.Ok? ==> |r.value| >= 1
    ensures r.Ok? ==> forall i :: 0 <= i < |r.value| && r.value[i].OfflineMiss? ==> r.value == [r.value[i]]
  {
    var topN := IntOr(args.topNResults, DefaultTopN);
    match LowerableArg(args.searchQuery)
    case Err(e) => Err(e)
    case Ok(query) =>
      match Searched(entries, WebMatch(Lower(query), render), topN)
      case Err(e) => Err(e)
      case Ok(results) => Ok(Respond(query, results))
  }

  /** The tool object: it holds the manifest it searches. */
  class WebSearchTool {
    var manifest: Manifest

    /** `__init__`, with the manifest already loaded. */
    constructor(m: Manifest)
      ensures manifest == m
    {
      manifest := m;
    }

    /** `call_tool`, with its loop formatting the results. */
    method CallTool(args: WebArgs, render: Json -> string) returns (r: Result<seq<WebRecord>, Raised>)
      ensures r == WebSearch(args, manifest.entries, render)
    {
      var topN := IntOr(args.topNResults, DefaultTopN);
      var query := LowerableArg(args.searchQuery);
      if query.Err? {
        return Err(query.error);
      }
      var found := manifest.SearchWeb(query.value, topN, render);
      if found.Err? {
        return Err(found.error);
      }
      var results := found.value;
      if results == [] {
        return Ok([OfflineMiss(query.value)]);
      }
      var formatted: seq<WebRecord> := [];
      for i := 0 to |results|
        invariant |formatted| == i
        invariant forall j :: 0 <= j < i ==> formatted[j] == Format(results[j])
      {
        formatted := formatted + [Format(results[i])];
      }
      assert formatted == Respond(query.value, results);
      return Ok(formatted);
    }
  }

  // ---------------------------------------------------------------- properties

  /**
   * With a positive `top_n` and a search that does not raise, the answer is the single miss
   * record, carrying the query, exactly when no web entry matches.
   */
  lemma MissIffNoMatch(args: WebArgs, entries: seq<CacheEntry>, render: Json -> string)
    requires LowerableArg(args.searchQuery).Ok? && IntOr(args.topNResults, DefaultTopN) > 0
    requires WebSearch(args, entries, render).Ok?
    ensures var query := LowerableArg(args.searchQuery).value;
      var r := WebSearch(args, entries, render).value;
      && (r == [OfflineMiss(query)] <==>
            forall e :: e in entries ==> WebMatch(Lower(query), render)(e) != Ok(true))
      && (forall k :: 0 <= k < |r| ==> r[k].OfflineMiss? ==> r == [OfflineMiss(query)])
  {
    var query := LowerableArg(args.searchQuery).value;
    var p := WebMatch(Lower(query), render);
    var n := IntOr(args.topNResults, DefaultTopN);
    SearchOutcome(entries, p, n);
    var hits := Filter(entries, Holds(p));
    FilterMembers(entries, Holds(p));
    PyPrefixFacts(hits, n);
    if hits != [] {
      assert hits[0] in hits;
      var results := PyPrefix(hits, n);
      assert |results| > 0;
      assert WebSearch(args, entries, render).value[0] == Format(results[0]);
    }
  }

  /**
   * Otherwise there is one record per result, in order, each copying its entry's title, URL
   * (as `link`), source id, local path and metadata; the entries are matching web entries,
   * in manifest order.
   */
  lemma RecordsFollowResults(args: WebArgs, entries: seq<CacheEntry>, render: Json -> string)
    requires LowerableArg(args.searchQuery).Ok?
    requires WebSearch(args, entries, render).Ok?
    ensures var query := LowerableArg(args.searchQuery).value;
      var results := Searched(entries, WebMatch(Lower(query), render), IntOr(args.topNResults, DefaultTopN)).value;
      var r := WebSearch(args, entries, render).value;
      && (results != [] ==> |r| == |results| && forall k :: 0 <= k < |r| ==>
            (&& r[k] == WebResult(results[k].title, results[k].url, results[k].sourceId,
                                  results[k].localPath, results[k].metadata)
             && results[k].sourceType == JStr("web") && TextMatch(results[k], Lower(query), render) == Ok(true)))
      && exists idx :: Embeds(idx, results, entries) && Increasing(idx)
  {
    var query := LowerableArg(args.searchQuery).value;
    var topN := IntOr(args.topNResults, DefaultTopN);
    SearchWebOnlyWeb(entries, query, topN, render);
    SearchSubsequence(entries, WebMatch(Lower(query), render), topN);
  }

  /**
   * The search raises exactly when some web entry's title, URL or queries cannot be read
   * before it matches, with the error of the first such entry.
   */
  lemma SearchErrors(args: WebArgs, entries: seq<CacheEntry>, render: Json -> string)
    requires LowerableArg(args.searchQuery).Ok?
    ensures var ql := Lower(LowerableArg(args.searchQuery).value);
      && (WebSearch(args, entries, render).Err? <==>
            exists i :: 0 <= i < |entries| && entries[i].sourceType == JStr("web") && TextMatch(entries[i], ql, render).Err?)
      && (WebSearch(args, entries, render).Err? ==>
            exists i :: 0 <= i < |entries| && entries[i].sourceType == JStr("web") && TextMatch(entries[i], ql, render).Err?
              && WebSearch(args, entries, render).error == TextMatch(entries[i], ql, render).error)
  {
    var query := LowerableArg(args.searchQuery).value;
    var topN := IntOr(args.topNResults, DefaultTopN);
    var p := WebMatch(Lower(query), render);
    SearchWebRaises(entries, query, topN, render);
    SearchOutcome(entries, p, topN);
  }

  /** An absent, null or zero `top_n_results` means 10. */
  lemma TopNDefault(query: Arg<string>, entries: seq<CacheEntry>, render: Json -> string)
    ensures WebSearch(WebArgs(query, Absent), entries, render) == WebSearch(WebArgs(query, Given(10)), entries, render)
    ensures WebSearch(WebArgs(query, Null), entries, render) == WebSearch(WebArgs(query, Given(10)), entries, render)
    ensures WebSearch(WebArgs(query, Given(0)), entries, render) == WebSearch(WebArgs(query, Given(10)), entries, render)
  {
  }

  /**
   * A missing `search_query` is the empty query, which every web entry with a readable title
   * matches.
   */
  lemma MissingQueryMatchesAllWeb(topN: Arg<int>, entries: seq<CacheEntry>, render: Json -> string)
    requires forall i :: 0 <= i < |entries| && entries[i].sourceType == JStr("web") ==> LowerText(entries[i].title).Ok?
    ensures var n := IntOr(topN, DefaultTopN);
      WebSearch(WebArgs(Absent, topN), entries, render)
      == Ok(Respond("", PyPrefix(Filter(entries, (e: CacheEntry) => e.sourceType == JStr("web")), n)))
  {
    var p := WebMatch(Lower(""), render);
    forall i | 0 <= i < |entries|
      ensures p(entries[i]).Ok? && Holds(p)(entries[i]) == (entries[i].sourceType == JStr("web"))
    {
      EmptyQueryMatchesAll(entries[i], render);
    }
    SearchOutcome(entries, p, IntOr(topN, DefaultTopN));
    FilterAgrees(entries, Holds(p), (e: CacheEntry) => e.sourceType == JStr("web"));
  }

  /** A null `search_query` fails at `.lower()`. */
  lemma NullQueryFails(topN: Arg<int>, entries: seq<CacheEntry>, render: Json -> string)
    ensures WebSearch(WebArgs(Null, topN), entries, render)
      == Err(NoAttribute(JNull, "lower"))
  {
  }

  /**
   * Searching for a query recorded in a web entry's list, with no matching web entry before
   * it, answers with that entry's record first, unless the search raises.
   */
  lemma RecordedQueryAnswersFirst(entries: seq<CacheEntry>, k: nat, q: nat, topN: int, render: Json -> string)
    requires k < |entries| && entries[k].sourceType == JStr("web")
    requires entries[k].queries.JList? && q < |entries[k].queries.items|
    requires LowerText(entries[k].title).Ok? && LowerText(entries[k].url).Ok? && topN >= 1
    requires var query := Str(entries[k].queries.items[q], render);
      forall j :: 0 <= j < k ==> WebMatch(Lower(query), render)(entries[j]) != Ok(true)
    requires WebSearch(WebArgs(Given(Str(entries[k].queries.items[q], render)), Given(topN)), entries, render).Ok?
    ensures var r := WebSearch(WebArgs(Given(Str(entries[k].queries.items[q], render)), Given(topN)), entries, render);
      |r.value| > 0 && r.value[0].WebResult? && r.value[0].sourceId == entries[k].sourceId
  {
    RecordedQueryFirst(entries, k, q, topN, render);
  }
}
