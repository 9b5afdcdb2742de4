/**
 * The offline `edgar_search` tool: a search of the cached SEC filings with optional form-type
 * and CIK filters, answered with one record per matching filing, or with a single miss record.
 */
module OfflineEdgarSearch {
  import opened Wrappers
  import opened Strings
  import opened Json
  import opened CacheManifest
  import opened ToolsBase

  /** The tool's arguments, as its input schema declares them; the dates and page are read by nothing. */
  datatype EdgarArgs = EdgarArgs(
    query: Arg<string>, formTypes: Arg<seq<string>>, ciks: Arg<seq<string>>,
    startDate: Arg<string>, endDate: Arg<string>, page: Arg<string>, topNResults: Arg<int>)

  /**
   * One dict of the tool's result: `{offline_miss: True, query, results: []}`, or the fields
   * `source_id`, `title`, `url`, `local_path` and `metadata` of a matching filing.
   */
  datatype EdgarRecord =
    | OfflineMiss(query: string)
    | FilingResult(sourceId: Json, title: Json, url: Json, localPath: Json, metadata: Json)

  /** The number of results when `top_n_results` is absent, null or zero. */
  const DefaultTopN := 10

  /** The record of one matching filing. */
  function Format(e: CacheEntry): EdgarRecord {
    FilingResult(e.sourceId, e.title, e.url, e.localPath, e.metadata)
  }

  /** The tool's answer for the search results. */
  function Respond(query: string, results: seq<CacheEntry>): seq<EdgarRecord> {
    if results == [] then [OfflineMiss(query)]
    else seq(|results|, i requires 0 <= i < |results| => Format(results[i]))
  }

  /**
   * What `call_tool` returns or raises for the manifest's entries; `render` stands for
   * `str()` of a list or a dict.
   */
  function EdgarSearch(args: EdgarArgs, entries: seq<CacheEntry>, render: Json -> string)
    : (r: Result<seq<EdgarRecord>, Raised>)
    ensures args.query.Null? ==> r.Err?
    ensures r.Ok? ==> |r.value| >= 1
    ensures r.Ok? ==> forall i :: 0 <= i < |r.value| && r.value[i].OfflineMiss? ==> r.value == [r.value[i]]
  {
    var formTypes := ListOr(args.formTypes);
    var ciks := ListOr(args.ciks);
    var topN := IntOr(args.topNResults, DefaultTopN);
    match LowerableArg(args.query)
    case Err(e) => Err(e)
    case Ok(query) =>
      match Searched(entries, SecMatch(Lower(query), formTypes, ciks, render), topN)
      case Err(e) => Err(e)
      case Ok(results) => Ok(Respond(query, results))
  }

  /** The tool object: it holds the manifest it searches. */
  class EdgarSearchTool {
    var manifest: Manifest

    /** `__init__`, with the manifest already loaded. */
    constructor(m: Manifest)
      ensures manifest == m
    {
      manifest := m;
    }

    /** `call_tool`, with its loop formatting the results. */
    method CallTool(args: EdgarArgs, render: Json -> string) returns (r: Result<seq<EdgarRecord>, Raised>)
      ensures r == EdgarSearch(args, manifest.entries, render)
    {
      var formTypes := ListOr(args.formTypes);
      var ciks := ListOr(args.ciks);
      var topN := IntOr(args.topNResults, DefaultTopN);
      var query := LowerableArg(args.query);
      if query.Err? {
        return Err(query.error);
      }
      var found := manifest.SearchSec(query.value, formTypes, ciks, topN, render);
      if found.Err? {
        return Err(found.error);
      }
      var results := found.value;
      if results == [] {
        return Ok([OfflineMiss(query.value)]);
      }
      var formatted: seq<EdgarRecord> := [];
      for i := 0 to |results|
        invariant |formatted| == i
        invariant forall j :: 0 <= j < i ==> formatted[j] == Format(results[j])
      {
        formatted := formatted + [Format(results[i])];
      }
      assert formatted == Respond(query.value, results);
      return Ok(formatted);
    }
  }

  // ---------------------------------------------------------------- properties

  /**
   * With a positive `top_n` and a search that does not raise, the answer is the single miss
   * record, carrying the query, exactly when no filing passes the filters and matches.
   */
  lemma MissIffNoMatch(args: EdgarArgs, entries: seq<CacheEntry>, render: Json -> string)
    requires LowerableArg(args.query).Ok? && IntOr(args.topNResults, DefaultTopN) > 0
    requires EdgarSearch(args, entries, render).Ok?
    ensures var query := LowerableArg(args.query).value;
      var p := SecMatch(Lower(query), ListOr(args.formTypes), ListOr(args.ciks), render);
      var r := EdgarSearch(args, entries, render).value;
      && (r == [OfflineMiss(query)] <==> forall e :: e in entries ==> p(e) != Ok(true))
      && (forall k :: 0 <= k < |r| ==> r[k].OfflineMiss? ==> r == [OfflineMiss(query)])
  {
    var query := LowerableArg(args.query).value;
    var p := SecMatch(Lower(query), ListOr(args.formTypes), ListOr(args.ciks), render);
    var n := IntOr(args.topNResults, DefaultTopN);
    SearchOutcome(entries, p, n);
    var hits := Filter(entries, Holds(p));
    FilterMembers(entries, Holds(p));
    PyPrefixFacts(hits, n);
    if hits != [] {
      assert hits[0] in hits;
      var results := PyPrefix(hits, n);
      assert |results| > 0;
      assert EdgarSearch(args, entries, render).value[0] == Format(results[0]);
    }
  }

  /**
   * Otherwise there is one record per result, in order, each copying its filing's source id,
   * title, URL, local path and metadata; the filings pass both filters and match, in
   * manifest order.
   */
  lemma RecordsFollowResults(args: EdgarArgs, entries: seq<CacheEntry>, render: Json -> string)
    requires LowerableArg(args.query).Ok?
    requires EdgarSearch(args, entries, render).Ok?
    ensures var query := LowerableArg(args.query).value;
      var formTypes := ListOr(args.formTypes);
      var ciks := ListOr(args.ciks);
      var results := Searched(entries, SecMatch(Lower(query), formTypes, ciks, render),
                              IntOr(args.topNResults, DefaultTopN)).value;
      var r := EdgarSearch(args, entries, render).value;
      && (results != [] ==> |r| == |results| && forall k :: 0 <= k < |r| ==>
            (&& r[k] == FilingResult(results[k].sourceId, results[k].title, results[k].url,
                                     results[k].localPath, results[k].metadata)
             && results[k].sourceType == JStr("sec") && SecLists(results[k], render).Ok?
             && FormsPass(formTypes, SecLists(results[k], render).value.0)
             && CiksPass(ciks, SecLists(results[k], render).value.1)
             && TextMatch(results[k], Lower(query), render) == Ok(true)))
      && exists idx :: Embeds(idx, results, entries) && Increasing(idx)
  {
    var query := LowerableArg(args.query).value;
    var topN := IntOr(args.topNResults, DefaultTopN);
    SearchSecOnlySec(entries, query, ListOr(args.formTypes), ListOr(args.ciks), topN, render);
    SearchSubsequence(entries, SecMatch(Lower(query), ListOr(args.formTypes), ListOr(args.ciks), render), topN);
  }

  /**
   * Absent, null and empty filters all mean no filtering, and an absent, null or zero
   * `top_n_results` means 10.
   */
  lemma Defaults(args: EdgarArgs, entries: seq<CacheEntry>, render: Json -> string)
    requires !args.formTypes.Given? || args.formTypes.value == []
    requires !args.ciks.Given? || args.ciks.value == []
    requires !args.topNResults.Given? || args.topNResults.value == 0
    ensures EdgarSearch(args, entries, render)
      == EdgarSearch(args.(formTypes := Absent, ciks := Absent, topNResults := Given(10)), entries, render)
    ensures LowerableArg(args.query).Ok? ==>
      var ql := Lower(LowerableArg(args.query).value);
      forall e: CacheEntry :: e.sourceType == JStr("sec") && SecLists(e, render).Ok? ==>
        SecMatch(ql, ListOr(args.formTypes), ListOr(args.ciks), render)(e) == TextMatch(e, ql, render)
  {
  }

  /** `start_date`, `end_date` and `page` have no effect on the answer. */
  lemma DatesIgnored(args: EdgarArgs, startDate: Arg<string>, endDate: Arg<string>, page: Arg<string>,
                     entries: seq<CacheEntry>, render: Json -> string)
    ensures EdgarSearch(args.(startDate := startDate, endDate := endDate, page := page), entries, render)
      == EdgarSearch(args, entries, render)
  {
  }

  /**
   * A filing whose readable metadata lists the requested form type and CIK, searched for by a
   * query recorded in its list with no matching filing before it, comes first, unless the
   * search raises.
   */
  lemma FilingAnswersFirst(entries: seq<CacheEntry>, k: nat, q: nat, form: string, cik: string, topN: int,
                           render: Json -> string)
    requires k < |entries| && entries[k].sourceType == JStr("sec") && SecLists(entries[k], render).Ok?
    requires Lower(form) in SecLists(entries[k], render).value.0 && cik in SecLists(entries[k], render).value.1
    requires entries[k].queries.JList? && q < |entries[k].queries.items| && topN >= 1
    requires LowerText(entries[k].title).Ok? && LowerText(entries[k].url).Ok?
    requires var ql := Lower(Str(entries[k].queries.items[q], render));
      forall j :: 0 <= j < k ==> SecMatch(ql, [form], [cik], render)(entries[j]) != Ok(true)
    requires var args := EdgarArgs(Given(Str(entries[k].queries.items[q], render)), Given([form]), Given([cik]),
                                   Absent, Absent, Absent, Given(topN));
      EdgarSearch(args, entries, render).Ok?
    ensures var args := EdgarArgs(Given(Str(entries[k].queries.items[q], render)), Given([form]), Given([cik]),
                                  Absent, Absent, Absent, Given(topN));
      var r := EdgarSearch(args, entries, render);
      |r.value| > 0 && r.value[0].FilingResult? && r.value[0].sourceId == entries[k].sourceId
  {
    var ql := Lower(Str(entries[k].queries.items[q], render));
    FilingMatches(entries[k], form, cik, q, render);
    FirstHitFirst(entries, SecMatch(ql, [form], [cik], render), k, topN);
  }
}
