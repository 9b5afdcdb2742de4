# GreenAgentFinance, modelled in Dafny

GreenAgentFinance is an offline harness that evaluates finance question-answering agents.
It models a cache of web pages and SEC filings described by a manifest. Over that cache it
offers search tools, a tool that parses cached HTML, and a tool that fills `{{key}}`
placeholders from scratch storage. It asks each participant agent every question of a dataset
over the Agent2Agent (A2A) protocol, and scores the replies. Each answer's cited source ids are
checked against the manifest. The answer is scored against a rubric of `correctness` and
`contradiction` criteria, after a fixed chain of unit rewrites. The harness then summarises each
participant and names the winner.

This project models that core and proves its properties. Each source file has one Dafny module:

| module | file | models |
|---|---|---|
| `UnitNormalizer` | `unit_normalizer.dfy` | `normalize_text` |
| `Rubric` | `rubric.dfy` | `_parse_rubric`, `evaluate_answer` |
| `CitationValidator` | `citation_validator.dfy` | `extract_citations`, `validate_citations` |
| `CacheManifest` | `cache_manifest.dfy` | `CacheEntry`, `_load`, `search_web`, `search_sec` |
| `OfflineWebSearch` | `offline_web_search.dfy` | `OfflineGoogleWebSearch.call_tool` |
| `OfflineEdgarSearch` | `offline_edgar_search.dfy` | `OfflineEdgarSearch.call_tool` |
| `ParseCachedHtml` | `parse_cached_html.dfy` | `ParseCachedHtml.call_tool` |
| `ToolsBase` | `tools_base.dfy` | `Tool.__call__`, `RetrieveInformation.call_tool` and the `data_storage` dict |
| `GreenEval` | `green_eval.dfy` | configuration, reply text, per-question records, summaries, winner |
| `A2aSchemas` | `a2a_schemas.dfy` | `_to_camel`, `Role`, `TaskState`, the protocol records and their validators |
| `TaskStore` | `task_store.dfy` | `InMemoryTaskStore` |

`Wrappers`, `Strings` and `Json` hold shared helpers:

- `Option` and `Result`. A Python exception is a `Result.Err` carrying a `Raised` value.
- Python's `str` methods (`lower`, `strip`, `split`, `splitlines`, `join`, `in`).
- Python slicing, with its clamping of out-of-range bounds.
- A JSON value type for the `dict[str, Any]` payloads.

The source's imperative code is written as classes and methods with loops:

- the manifest, the search tools and the HTML tool;
- the scratch storage and the task store;
- the loops of `evaluate_answer`, `validate_citations`, `merge_parts`,
  `extract_text_from_task`, `evaluate_participant` and `run_assessment`.

Each method is proved equal to a function. The properties are proved as lemmas about that
function.

A manifest entry keeps the raw JSON value of each field, as the loader copies it without
checking types. The searches and the HTML tool therefore raise where Python raises on a value
of an unexpected type, such as a `title` that is a number or `metadata` that is a list.

## Model

| member | source | states |
|---|---|---|
| UnitNormalizer.NormalizeText | src/finance_green_agent/tools/unit_normalizer.py:4-19 | `None` normalises to the empty string. |
| UnitNormalizer.NormalizeEmpty | src/finance_green_agent/tools/unit_normalizer.py:4-19 | The empty text normalises to the empty text. |
| UnitNormalizer.NormalizedShape | src/finance_green_agent/tools/unit_normalizer.py:7-18 | No normalised text holds `,`, `$`, `%` or an ASCII capital. None has whitespace at either end or two whitespace characters in a row, and every whitespace is a space. |
| UnitNormalizer.NoUnitAbbreviations | src/finance_green_agent/tools/unit_normalizer.py:11-17 | No `bp`, `bn` or `mn` survives normalisation, wherever it stood, even inside a word. |
| UnitNormalizer.NormalizeIdempotent | src/finance_green_agent/tools/unit_normalizer.py:4-19 | Normalising a normalised text gives it back unchanged, for every input, `None` included. |
| UnitNormalizer.SecondPassWholeWords | src/finance_green_agent/tools/unit_normalizer.py:14-18 | After the second rewrites, every `billion` and `million` stands between whitespace or the ends of the text. |
| UnitNormalizer.FirstPassFixes | src/finance_green_agent/tools/unit_normalizer.py:7-13 | The first pass leaves unchanged any stripped, single-spaced text that has no `,`, `$`, `%`, capital or `bp`. |
| UnitNormalizer.SecondPassFixes | src/finance_green_agent/tools/unit_normalizer.py:14-18 | The second pass leaves unchanged any stripped, single-spaced text that has no `bn` or `mn` and whose magnitude words are whole. Padding them only adds spaces, and the collapse and strip remove them again. |
| UnitNormalizer.BasisPointsExample | src/finance_green_agent/tools/unit_normalizer.py:11-13 | `<number>bps` normalises to `<number> basis points`: `bps` is rewritten before `bp`. |
| UnitNormalizer.BillionExample | src/finance_green_agent/tools/unit_normalizer.py:14-18 | `<number>billion` normalises to `<number> billion`, because the magnitude word is padded. |
| UnitNormalizer.MillionExample | src/finance_green_agent/tools/unit_normalizer.py:14-18 | `<number>million` normalises to `<number> million`. |
| UnitNormalizer.BnExample | src/finance_green_agent/tools/unit_normalizer.py:14-18 | `<number>bn` normalises to `<number> billion`: `bn` is spelled out after the magnitude words are padded. |
| UnitNormalizer.MnExample | src/finance_green_agent/tools/unit_normalizer.py:14-18 | `<number>mn` normalises to `<number> million`. |
| UnitNormalizer.DollarExample | src/finance_green_agent/tools/unit_normalizer.py:9-13 | `$<number>` normalises to `usd <number>`. |
| UnitNormalizer.PercentExample | src/finance_green_agent/tools/unit_normalizer.py:10-13 | `<number>%` normalises to `<number> percent`. |
| UnitNormalizer.SecondPassKeeps | src/finance_green_agent/tools/unit_normalizer.py:14-18 | The second rewrites change nothing in a stripped, single-spaced text without magnitude words or `bn`/`mn`. |
| Rubric.ParseRubric | src/finance_green_agent/eval/rubric.py:7-14 | An empty string, a literal that does not parse, and a value that is not a list all give no items. A parsed list is kept. |
| Rubric.EvaluateAnswer | src/finance_green_agent/eval/rubric.py:17-48 | The loop over the items returns what `Evaluate` describes. |
| Rubric.EmptyRubric | src/finance_green_agent/eval/rubric.py:18-20 | An empty, unparsable or non-list rubric gives exactly `{passed: false, score: 0, details: []}`. |
| Rubric.DetailsFollowItems | src/finance_green_agent/eval/rubric.py:26-45 | There is one detail per item, in order. The evaluation raises exactly when some item does, with the first item's exception. |
| Rubric.DetailFields | src/finance_green_agent/eval/rubric.py:27-44 | A detail records the lower-cased operator, the criterion as given, and its verdict. |
| Rubric.CorrectnessIff | src/finance_green_agent/eval/rubric.py:29-32 | `correctness` passes exactly when the normalised criterion occurs in the normalised answer. |
| Rubric.ContradictionNegatesCorrectness | src/finance_green_agent/eval/rubric.py:31-34 | On the same criterion, `contradiction` is the negation of `correctness`. |
| Rubric.OperatorMatching | src/finance_green_agent/eval/rubric.py:27-36 | Operators are compared after lower-casing. Every other operator fails. |
| Rubric.MissingOperatorFails | src/finance_green_agent/eval/rubric.py:27-36 | A missing, `None` or empty operator fails. |
| Rubric.EmptyCriteria | src/finance_green_agent/eval/rubric.py:28-34 | An empty criterion makes `correctness` pass and `contradiction` fail. |
| Rubric.CountPassed | src/finance_green_agent/eval/rubric.py:47 | The passing count lies between 0 and the number of details. |
| Rubric.AllPassedIffFullCount | src/finance_green_agent/eval/rubric.py:47-48 | `all(passes)` holds exactly when the passing count equals the item count. |
| Rubric.SummaryFacts | src/finance_green_agent/eval/rubric.py:47-48 | The score is passes over items and lies in [0, 1]. `passed` holds exactly when every item passed, and exactly when the score is 1. |
| Rubric.ScoreFacts | src/finance_green_agent/eval/rubric.py:17-48 | For any rubric, a returned score lies in [0, 1]. `passed` holds exactly when the rubric is non-empty and every item passed, and exactly when the score is 1. |
| CitationValidator.SkipSpaces | src/finance_green_agent/tools/citation_validator.py:9 | The position reached is the first non-whitespace character at or after the start. |
| CitationValidator.FirstHeader | src/finance_green_agent/tools/citation_validator.py:9 | Finds the first `{` followed by optional whitespace and `"sources"`. There is no earlier one. |
| CitationValidator.LastClose | src/finance_green_agent/tools/citation_validator.py:9 | Finds the last `}` of the prefix. There is no later one. |
| CitationValidator.ExtractCitations | src/finance_green_agent/tools/citation_validator.py:8-17 | A non-empty list of citations is the `sources` list of the dict decoded from the span the pattern finds. |
| CitationValidator.MatchHeader | src/finance_green_agent/tools/citation_validator.py:9 | A match of the pattern begins at a header: the whitespace before the key is determined. |
| CitationValidator.HeadersApart | src/finance_green_agent/tools/citation_validator.py:9 | A later header starts after the end of an earlier one. |
| CitationValidator.ExtractSpanIsSearch | src/finance_green_agent/tools/citation_validator.py:9-11 | A span exists exactly when the pattern matches. It runs from the leftmost matching `{` to the last `}` of the text. |
| CitationValidator.CitationsCases | src/finance_green_agent/tools/citation_validator.py:8-17 | The citations are the decoded dict's `sources` list. They are empty when nothing matches, the span does not decode, or there is no `sources` list. |
| CitationValidator.ValidateCitations | src/finance_green_agent/tools/citation_validator.py:20-29 | The manifest ids are built, then the cited entries are walked. The call returns what `Validate` describes. |
| CitationValidator.CollectMissing | src/finance_green_agent/tools/citation_validator.py:24-28 | The loop over the cited entries returns the `missing` list, or the first exception, as `Missing` describes. |
| CitationValidator.ValidateWith | src/finance_green_agent/tools/citation_validator.py:23-29 | Once the manifest ids are built, validation is the walk of `Missing` over the citations. |
| CitationValidator.MissingOfShape | src/finance_green_agent/tools/citation_validator.py:26-28 | One cited entry adds nothing or its own id. |
| CitationValidator.MissingAppend | src/finance_green_agent/tools/citation_validator.py:24-28 | `missing` is built entry after entry, keeping order and duplicates. |
| CitationValidator.MissingSingle | src/finance_green_agent/tools/citation_validator.py:26-28 | A citation adds its id exactly when the id is truthy and not in the manifest. |
| CitationValidator.IgnoredCitations | src/finance_green_agent/tools/citation_validator.py:26-27 | Non-dict entries, and ids that are missing or empty, add nothing. |
| CitationValidator.MissingMembers | src/finance_green_agent/tools/citation_validator.py:23-28 | Every missing id is truthy, not a manifest id, and the id of some cited dict. Every such cited id is missing. |
| CitationValidator.Validate | src/finance_green_agent/tools/citation_validator.py:20-29 | `valid` holds exactly when `missing` is empty. `cited` is what `extract_citations` returns. No citations is valid. |
| CitationValidator.ValidationRaises | src/finance_green_agent/tools/citation_validator.py:26-27 | Validation raises exactly when a cited id is a truthy list or dict, which cannot be looked up in a set. |
| CitationValidator.ManifestIdsCases | src/finance_green_agent/tools/citation_validator.py:23 | The id set is built exactly when every manifest id is hashable, and then holds exactly the entries' ids. A list or dict id raises `TypeError`. |
| CitationValidator.NumbersMatchBooleans | src/finance_green_agent/tools/citation_validator.py:27 | `not in` uses Python equality. With `True` among the manifest ids, a cited `1` is not missing, and a cited `"1"` is missing unless it is listed itself. |
| CacheManifest.Manifest.constructor | src/finance_green_agent/tools/cache_manifest.py:19-23 | A new manifest has no entries. |
| CacheManifest.Manifest.Load | src/finance_green_agent/tools/cache_manifest.py:25-45 | The entries become `LoadEntries` of the file. A failure leaves them unchanged. |
| CacheManifest.Manifest.SearchWeb | src/finance_green_agent/tools/cache_manifest.py:47-63 | The loop returns what `Searched` gives for the web test: the first `top_n` web entries that match, in manifest order, or the exception of the first entry whose text cannot be read. |
| CacheManifest.Manifest.SearchSec | src/finance_green_agent/tools/cache_manifest.py:65-98 | The loop returns what `Searched` gives for the SEC test: the first `top_n` SEC entries that pass both filters and match, in manifest order, or the first exception raised. |
| CacheManifest.AnyQueryHit | src/finance_green_agent/tools/cache_manifest.py:59-62 | The scan with `break` returns what `QueriesHit` describes. A list is walked by item, a string by character and a dict by key. Any other value raises `TypeError`. |
| CacheManifest.MatchText | src/finance_green_agent/tools/cache_manifest.py:53-62 | The title, URL and query tests run in that order and stop at the first hit. The result is what `TextMatch` describes. |
| CacheManifest.LowerText | src/finance_green_agent/tools/cache_manifest.py:53 | `(v or "").lower()`: a falsy value gives "", a string is lowered, and any other truthy value raises `AttributeError`. |
| CacheManifest.EntryOf | src/finance_green_agent/tools/cache_manifest.py:35-43 | An item that is not a dict fails at `item.get`. Otherwise each field with a default is truthy or that default. |
| CacheManifest.LoadEntries | src/finance_green_agent/tools/cache_manifest.py:25-45 | A missing file gives no entries. A manifest that loads gives one entry per item. |
| CacheManifest.MissingManifest | src/finance_green_agent/tools/cache_manifest.py:26-28 | A missing manifest file gives no entries. |
| CacheManifest.NonDictManifestFails | src/finance_green_agent/tools/cache_manifest.py:33 | A manifest that is not a dict, such as a bare list, fails at `raw.get`. |
| CacheManifest.LoadPerItem | src/finance_green_agent/tools/cache_manifest.py:33-44 | An `entries` list loads exactly when every item is a dict, giving one entry per item, in order. Otherwise the first item that is not a dict raises `AttributeError`. |
| CacheManifest.EntryFallbacks | src/finance_green_agent/tools/cache_manifest.py:35-42 | Fields fall back in order: `source_id`/`id`/"", `type`/`source_type`/"", `url`/`original_url`, `local_path`/`path`, metadata/`{}`. |
| CacheManifest.SearchSelected | src/finance_green_agent/tools/cache_manifest.py:50-63 | Every result is a manifest entry that the selection keeps. |
| CacheManifest.SearchSubsequence | src/finance_green_agent/tools/cache_manifest.py:50-63 | The results are a subsequence of the manifest: manifest order, each entry at most once. |
| CacheManifest.SearchBound | src/finance_green_agent/tools/cache_manifest.py:47-63 | There are at most `top_n` results, and every selected entry is a result when there are no more than `top_n`. |
| CacheManifest.SearchOutcome | src/finance_green_agent/tools/cache_manifest.py:47-63 | A search succeeds exactly when no entry's test raises, and then gives the first `top_n` selected entries. Otherwise it raises the first failing entry's exception. |
| CacheManifest.SearchWebOnlyWeb | src/finance_green_agent/tools/cache_manifest.py:51-62 | `search_web` returns only `web` entries that match. |
| CacheManifest.SearchWebRaises | src/finance_green_agent/tools/cache_manifest.py:50-62 | `search_web` raises exactly when some web entry's title, URL or queries cannot be read. Entries of other types are never read. |
| CacheManifest.SearchSecOnlySec | src/finance_green_agent/tools/cache_manifest.py:75-97 | `search_sec` returns only `sec` entries that pass both filters and match. |
| CacheManifest.NonDictMetadataRaises | src/finance_green_agent/tools/cache_manifest.py:77-78 | A truthy `metadata` that is not a dict raises `AttributeError` at `.get`. |
| CacheManifest.StringFormTypesNeverPass | src/finance_green_agent/tools/cache_manifest.py:78-83 | A string `form_types` is walked by character, so a requested form type whose length is not 1 never passes. |
| CacheManifest.EmptyQueryMatchesAll | src/finance_green_agent/tools/cache_manifest.py:48-53 | The empty query matches every entry whose title can be lowered. Otherwise the title's error is raised. |
| CacheManifest.EmptyFiltersPass | src/finance_green_agent/tools/cache_manifest.py:77-86 | Once the metadata lists can be read, empty form-type and CIK filters impose nothing. |
| CacheManifest.RecordedQueryHits | src/finance_green_agent/tools/cache_manifest.py:53-62 | A query recorded in an entry's list matches it, when its title and URL can be read. |
| CacheManifest.FirstHitFirst | src/finance_green_agent/tools/cache_manifest.py:50-63 | The first selected entry heads every search with `top_n >= 1`. |
| CacheManifest.RecordedQueryFirst | src/finance_green_agent/tools/cache_manifest.py:47-63 | A web entry searched by one of its recorded queries, with no match before it, comes first when the search does not raise. |
| CacheManifest.FilingMatches | src/finance_green_agent/tools/cache_manifest.py:77-97 | A filing that lists the requested form type and CIK and records the query is selected. |
| OfflineWebSearch.WebSearchTool.CallTool | src/finance_green_agent/tools/offline_web_search.py:24-43 | The formatting loop returns what `WebSearch` describes. |
| OfflineWebSearch.WebSearch | src/finance_green_agent/tools/offline_web_search.py:24-43 | A null `search_query` raises. An answer holds at least one record, and a miss record only on its own. |
| OfflineWebSearch.MissIffNoMatch | src/finance_green_agent/tools/offline_web_search.py:28-30 | With a positive `top_n`, the answer is the single miss record with the query exactly when no web entry matches. |
| OfflineWebSearch.RecordsFollowResults | src/finance_green_agent/tools/offline_web_search.py:32-43 | Each result gives one record, in order, copying title, `link` = url, source id, local path and metadata. |
| OfflineWebSearch.SearchErrors | src/finance_green_agent/tools/offline_web_search.py:24-31 | With a readable query the tool raises exactly when some web entry's text cannot be read, and then with such an entry's error. |
| OfflineWebSearch.TopNDefault | src/finance_green_agent/tools/offline_web_search.py:26 | An absent, null or zero `top_n_results` means 10. |
| OfflineWebSearch.MissingQueryMatchesAllWeb | src/finance_green_agent/tools/offline_web_search.py:25-28 | A missing `search_query` is "", which matches every web entry whose title can be lowered. |
| OfflineWebSearch.NullQueryFails | src/finance_green_agent/tools/offline_web_search.py:25-28 | A null `search_query` fails at `.lower()`. |
| OfflineWebSearch.RecordedQueryAnswersFirst | src/finance_green_agent/tools/offline_web_search.py:24-43 | A recorded query answers with its entry first. |
| OfflineEdgarSearch.EdgarSearchTool.CallTool | src/finance_green_agent/tools/offline_edgar_search.py:54-76 | The formatting loop returns what `EdgarSearch` describes. |
| OfflineEdgarSearch.EdgarSearch | src/finance_green_agent/tools/offline_edgar_search.py:54-76 | A null query raises. An answer holds at least one record, and a miss record only on its own. |
| OfflineEdgarSearch.MissIffNoMatch | src/finance_green_agent/tools/offline_edgar_search.py:60-62 | With a positive `top_n`, the answer is the single miss record exactly when no filing passes the filters and matches. |
| OfflineEdgarSearch.RecordsFollowResults | src/finance_green_agent/tools/offline_edgar_search.py:64-75 | Each result gives one record, in order, copying source id, title, url, local path and metadata. The filings pass the filters, in manifest order. |
| OfflineEdgarSearch.Defaults | src/finance_green_agent/tools/offline_edgar_search.py:56-58 | Null or empty filters mean no filtering. An absent or zero `top_n_results` means 10. |
| OfflineEdgarSearch.DatesIgnored | src/finance_green_agent/tools/offline_edgar_search.py:40-60 | `start_date`, `end_date` and `page` do not affect the answer. |
| OfflineEdgarSearch.FilingAnswersFirst | src/finance_green_agent/tools/offline_edgar_search.py:54-76 | A matching form type and CIK return that filing first. |
| ParseCachedHtml.FirstWithId | src/finance_green_agent/tools/parse_cached_html.py:28-31 | Finds the index of the first entry with the source id. |
| ParseCachedHtml.FirstWithIdFacts | src/finance_green_agent/tools/parse_cached_html.py:28-31 | No entry before the found index has that source id. When none is found, no entry from the start on has it. |
| ParseCachedHtml.ParseCachedHtmlTool.LookUpPath | src/finance_green_agent/tools/parse_cached_html.py:23-31 | The loop with `break` returns the path `ResolvePath` describes. |
| ParseCachedHtml.ParseCachedHtmlTool.CallTool | src/finance_green_agent/tools/parse_cached_html.py:22-60 | On an error the storage is unchanged. On success only the chosen key is written, and the two report lines are returned. |
| ParseCachedHtml.PathArgumentWins | src/finance_green_agent/tools/parse_cached_html.py:27 | A truthy `path` is used as given. |
| ParseCachedHtml.SourceIdLookup | src/finance_green_agent/tools/parse_cached_html.py:27-31 | Without a path, the first entry with the source id supplies `local_path`. |
| ParseCachedHtml.Errors | src/finance_green_agent/tools/parse_cached_html.py:33-37 | `ValueError` exactly when there is no truthy path. A list or dict path raises `TypeError`. Otherwise `FileNotFoundError` exactly when the file does not exist. |
| ParseCachedHtml.Stored | src/finance_green_agent/tools/parse_cached_html.py:42-55 | The key is `key`, else `source_id`, else the basename. Non-HTML content is stored verbatim, HTML as its cleaned text. |
| ParseCachedHtml.KeyNeverRaises | src/finance_green_agent/tools/parse_cached_html.py:54 | With a truthy path the key is always found. A non-string path comes only from an entry found by its source id, which is then the key. |
| ParseCachedHtml.ChunkShape | src/finance_green_agent/tools/parse_cached_html.py:47-52 | Every chunk is non-empty and stripped, and holds no line break and no double space. |
| ParseCachedHtml.CleanTextSplits | src/finance_green_agent/tools/parse_cached_html.py:47-52 | The cleaned text splits back at `\n` into exactly its chunks. |
| ParseCachedHtml.CleanTextOfChunk | src/finance_green_agent/tools/parse_cached_html.py:47-52 | A single stripped chunk cleans to itself. |
| Strings.Basename | src/finance_green_agent/tools/parse_cached_html.py:54 | The basename is the suffix after the last `/` and holds no `/`. |
| ToolsBase.LowerableArg | src/finance_green_agent/tools/offline_web_search.py:25 | An absent argument is "". A null argument fails at `.lower()`. |
| ToolsBase.IntOr | src/finance_green_agent/tools/offline_web_search.py:26 | An absent, null or zero argument gives the default. |
| ToolsBase.ListOr | src/finance_green_agent/tools/offline_edgar_search.py:56-57 | A null or absent list argument is []. |
| ToolsBase.EnvelopeCases | src/finance_green_agent/agent_core/tools_base.py:36-60 | Every exception becomes `{success: false, result: str(e)}`. Other tools' results are serialised. A retrieval succeeds exactly when its dict has both keys. |
| ToolsBase.Envelope | src/finance_green_agent/agent_core/tools_base.py:36-60 | A call succeeds exactly when `call_tool` returns and, for the retrieval tool, its dict holds both `retrieval` and `usage`. |
| ToolsBase.DataStorage.Put | src/finance_green_agent/tools/parse_cached_html.py:55 | One key is written. A new key goes last; an existing one keeps its place. |
| ToolsBase.MatchAtIsPattern | src/finance_green_agent/agent_core/tools_base.py:88-93 | `{{([^{}]+)}}` matches at a position in at most one way. |
| ToolsBase.ScanUnscan | src/finance_green_agent/agent_core/tools_base.py:93-118 | Cutting the prompt into pieces loses nothing. |
| ToolsBase.ScanKeys | src/finance_green_agent/agent_core/tools_base.py:93 | Every key is a non-empty run of non-brace characters. |
| ToolsBase.NoHoleIffNoMatch | src/finance_green_agent/agent_core/tools_base.py:88 | The scan finds no placeholder exactly when the pattern matches nowhere. |
| ToolsBase.SearchIffFindall | src/finance_green_agent/agent_core/tools_base.py:88-93 | `re.search` finds the pattern exactly when `re.findall` returns a key. |
| ToolsBase.SubstituteIdentity | src/finance_green_agent/agent_core/tools_base.py:118-120 | Replacing each placeholder with its own `{{key}}` gives the prompt back. |
| ToolsBase.SubstituteAgrees | src/finance_green_agent/agent_core/tools_base.py:118-120 | Tables that agree on the prompt's keys give the same prompt. |
| ToolsBase.RetrieveInformation | src/finance_green_agent/agent_core/tools_base.py:84-130 | The call returns what `RetrieveResult` describes. |
| ToolsBase.FormatPrompt | src/finance_green_agent/agent_core/tools_base.py:85-91 | A `None` prompt raises `TypeError`. A prompt without a placeholder raises `ValueError`. |
| ToolsBase.FillTable | src/finance_green_agent/agent_core/tools_base.py:96-116 | The loop fills each key's text or stops at the first failure. |
| ToolsBase.NoPlaceholderFirst | src/finance_green_agent/agent_core/tools_base.py:88-91 | A prompt without a placeholder raises `ValueError` before storage is read. |
| ToolsBase.KeysChecked | src/finance_green_agent/agent_core/tools_base.py:96-100 | A filled prompt had every key in storage. A missing key fails with `KeyError`. |
| ToolsBase.RangeCases | src/finance_green_agent/agent_core/tools_base.py:102-116 | No range or an empty range gives the whole text. `[a, b]` gives the slice. Any other length raises `ValueError`. |
| ToolsBase.OtherRangesIgnored | src/finance_green_agent/agent_core/tools_base.py:96-103 | Ranges for keys not in the prompt change nothing. |
| ToolsBase.FilledPrompt | src/finance_green_agent/agent_core/tools_base.py:118-120 | The filled prompt replaces each placeholder by its key's text. |
| ToolsBase.RetrieveEnvelope | src/finance_green_agent/agent_core/tools_base.py:45-50 | Through the envelope, a retrieval returns the model's text and usage, or the exception's text. |
| ToolsBase.MissingKeyText | src/finance_green_agent/agent_core/tools_base.py:98-100 | `str()` of a missing-key error whose message holds a single quote, no double quote and no character that needs escaping is that message in double quotes. |
| GreenEval.GetConfigValueFirst | src/finance_green_agent/green_eval.py:45-49 | Returns the value under the first key present, by presence rather than truthiness, else the default. |
| GreenEval.DatasetPath | src/finance_green_agent/green_eval.py:52-58 | A missing or falsy configured path gives the packaged dataset, and a non-empty string is made absolute. Any other truthy value raises the TypeError of `os.fspath`, and only such a value raises. |
| GreenEval.IntDatasetPathRaises | src/finance_green_agent/green_eval.py:53-55 | `{"dataset_path": 5}` raises `TypeError("expected str, bytes or os.PathLike object, not int")`, with the type name unquoted. |
| GreenEval.Clamp | src/finance_green_agent/green_eval.py:68 | The clamped count lies in [1, 50], and a count already in range is kept. |
| GreenEval.ParseEvalConfig | src/finance_green_agent/green_eval.py:61-84 | A configuration that parses has `max_questions` in [1, 50]. |
| GreenEval.ConfigDefaults | src/finance_green_agent/green_eval.py:61-84 | An empty config gives network off, 50 questions, seed 42, 120 seconds and role `participant`. |
| GreenEval.QuestionsClamped | src/finance_green_agent/green_eval.py:65-68 | `max_questions` lies in [1, 50], and a value already in range is kept. |
| GreenEval.CamelKeyWins | src/finance_green_agent/green_eval.py:62-64 | A present camel-case key wins over the snake-case one. |
| GreenEval.BadSeedRaises | src/finance_green_agent/green_eval.py:69 | A seed that `int` cannot read raises that error. |
| GreenEval.PartChunks | src/finance_green_agent/green_eval.py:95-106 | There is at most one chunk per part. |
| GreenEval.MergeParts | src/finance_green_agent/green_eval.py:93-107 | The loop with `continue` returns what `MergeText` describes. |
| GreenEval.PartChunksAppend | src/finance_green_agent/green_eval.py:95-106 | The chunks of a concatenation are the chunks of both halves. |
| GreenEval.NonDictPartsSkipped | src/finance_green_agent/green_eval.py:96-97 | Parts that are not dicts do not change the text. |
| GreenEval.PartChunkCases | src/finance_green_agent/green_eval.py:98-104 | A string `text` wins over `data`. `data`'s inner `data` field is used, else the whole map. |
| GreenEval.EmptyChunksDropped | src/finance_green_agent/green_eval.py:107 | Empty chunks do not change the text. |
| GreenEval.MergedTextStripped | src/finance_green_agent/green_eval.py:107 | The merged text has no whitespace at either end. |
| GreenEval.ContentBeforeParts | src/finance_green_agent/green_eval.py:110-116 | `content` is read, and `parts` only when `content` is missing or `None`. |
| GreenEval.CollectArtifacts | src/finance_green_agent/green_eval.py:126-128 | The artifact loop returns what `ArtifactTexts` describes. |
| GreenEval.ExtractTextFromTask | src/finance_green_agent/green_eval.py:119-129 | The task's text is what `TaskText` describes. |
| GreenEval.StatusOnlyTask | src/finance_green_agent/green_eval.py:122-129 | The status message's text comes before the artifacts' texts. |
| GreenEval.NonDictHasNoText | src/finance_green_agent/green_eval.py:110-121 | A non-dict message or task has no text. |
| GreenEval.Envelope | src/finance_green_agent/green_eval.py:177-181 | The envelope is the body itself or the body's dict `result`. |
| GreenEval.Dispatch | src/finance_green_agent/green_eval.py:183-197 | A non-dict envelope gives no text and no context id. Only a dict envelope can raise. |
| GreenEval.Answer | src/finance_green_agent/green_eval.py:166-203 | A transport failure gives an empty answer with the error. A delivered reply gives an answer exactly when its envelope can be read, with the body and no error. |
| GreenEval.AnswerCases | src/finance_green_agent/green_eval.py:166-203 | A transport failure gives an empty answer with the error and the sent context id. A reply carries no error, and its context id unless that is falsy. |
| GreenEval.ResultPreferred | src/finance_green_agent/green_eval.py:177-181 | A dict `result` is the envelope; otherwise the body is. |
| GreenEval.DispatchOrder | src/finance_green_agent/green_eval.py:183-197 | `message`, then `task`, then `kind == "message"`, then `kind == "task"`, in that order. |
| GreenEval.MessageOverTask | src/finance_green_agent/green_eval.py:185-191 | An envelope with both a dict `message` and a dict `task` is read as its message: text and context id. |
| GreenEval.IdsDistinct | src/finance_green_agent/green_eval.py:252-253 | `eval-`/`msg-` ids differ between questions and never coincide with each other. |
| GreenEval.TrimSlashes | src/finance_green_agent/green_eval.py:139 | The trimmed URL is a prefix of the URL and does not end in `/`. |
| GreenEval.Indexed | src/finance_green_agent/green_eval.py:249 | `enumerate` pairs each row with its index. |
| GreenEval.RecordAsWritten | src/finance_green_agent/green_eval.py:262-284 | As written, with `if answer.error:`, only a non-empty error gives a failed record. The record keeps the question. |
| GreenEval.Record | src/finance_green_agent/green_eval.py:262-284 | With the error tested against `None`, a failed request always gives a failed record carrying the error. The record keeps the question. |
| GreenEval.SummarizeResults | src/finance_green_agent/green_eval.py:206-220 | `total` is the number of records, every count is at most the total, and the average is 0 when there are none. |
| GreenEval.ScoreSumBounds | src/finance_green_agent/green_eval.py:209 | With scores in [0, 1], the score sum lies in [0, n]. |
| GreenEval.SummaryBounds | src/finance_green_agent/green_eval.py:206-220 | The counts are at most the total. The average is in [0, 1], and 0 when there are no results. |
| GreenEval.ScoreInUnitInterval | src/finance_green_agent/eval/rubric.py:47 | Every rubric score lies in [0, 1]. |
| GreenEval.EvaluateParticipant | src/finance_green_agent/green_eval.py:223-293 | With the corrected error test, the call returns what `ParticipantOutcome` describes. |
| GreenEval.AskAll | src/finance_green_agent/green_eval.py:249-284 | With the corrected error test, the question loop walks the questions in order. |
| GreenEval.CardFailure | src/finance_green_agent/green_eval.py:238-248 | A card failure gives no results, one error and the error text. |
| GreenEval.CardAgentUrl | src/finance_green_agent/green_eval.py:132-140 | A failed fetch passes its error on. A fetched card gives a URL exactly when it is a dict, and that URL does not end in `/`. |
| GreenEval.OneRecordPerQuestion | src/finance_green_agent/green_eval.py:249-284 | With the corrected error test, there is one record per question, in order. A transport failure gives the zero record and the batch goes on. |
| GreenEval.StepCases | src/finance_green_agent/green_eval.py:250-284 | With the corrected error test, one step's record carries the stripped question. A failed request gives the zero record with the error text. A delivered answer gives a record without error. The record counts as failed exactly when the request failed. |
| GreenEval.ErrorsCountFailures | src/finance_green_agent/green_eval.py:206-213 | `errors` is the number of questions whose request failed, whatever the error text. |
| GreenEval.EmptyTransportErrorAsWritten | src/finance_green_agent/green_eval.py:174-175 | As written, a failure with empty text is scored as an answer and not counted. Corrected, it is recorded and counted. |
| GreenEval.FirstMax | src/finance_green_agent/green_eval.py:318-321 | The index found is in range. |
| GreenEval.FirstMaxIsFirstMaximum | src/finance_green_agent/green_eval.py:318-321 | The value there is at least every value and greater than every earlier one. |
| GreenEval.Averages | src/finance_green_agent/green_eval.py:320 | Each participant's `average_score`. |
| GreenEval.EvaluateAll | src/finance_green_agent/green_eval.py:310-316 | With the corrected error test, the participant loop evaluates every participant in order. |
| GreenEval.RunAssessment | src/finance_green_agent/green_eval.py:296-331 | With the corrected error test, the call returns what `AssessmentOutcome` describes. |
| GreenEval.MissingRoleRaises | src/finance_green_agent/green_eval.py:303-306 | A missing participant role raises `ValueError` before anyone is evaluated. |
| GreenEval.AssessmentShape | src/finance_green_agent/green_eval.py:302-308 | A successful run has the role among the participants and at most 50 questions. |
| GreenEval.AssessUnfolds | src/finance_green_agent/green_eval.py:308-329 | The reports are the participants' evaluations, and the winner is read off them. |
| GreenEval.ReportsFollowParticipants | src/finance_green_agent/green_eval.py:308-316 | There is one report per participant, in order, over the first `max_questions` rows. |
| GreenEval.WinnerIsFirstBest | src/finance_green_agent/green_eval.py:318-324 | The winner is the first participant with the highest average score. |
| GreenEval.WinnerOfReports | src/finance_green_agent/green_eval.py:318-321 | `max` with a key picks the first report with the highest average. |
| A2aSchemas.ToCamelIdentity | src/finance_green_agent/a2a_schemas.py:10-12 | A name without `_` is its own alias. |
| A2aSchemas.ToCamel | src/finance_green_agent/a2a_schemas.py:10-12 | An alias holds no `_`. |
| A2aSchemas.ToCamelAppend | src/finance_green_agent/a2a_schemas.py:10-12 | An added segment is capitalised; what comes before it is as before. |
| A2aSchemas.ToCamelIdempotent | src/finance_green_agent/a2a_schemas.py:10-12 | An alias has no `_`, so aliasing twice changes nothing. |
| A2aSchemas.FileWithUriAlias | src/finance_green_agent/a2a_schemas.py:10-12 | `file_with_uri` has the alias `fileWithUri`. |
| A2aSchemas.RoleRoundTrip | src/finance_green_agent/a2a_schemas.py:23-26 | A role's wire string reads back as that role, and only the three wire strings are roles. |
| A2aSchemas.StateRoundTrip | src/finance_green_agent/a2a_schemas.py:29-38 | The same holds for the nine task states. |
| A2aSchemas.WireInjective | src/finance_green_agent/a2a_schemas.py:23-38 | Distinct roles or states have distinct wire strings. |
| A2aSchemas.ValidateFilePart | src/finance_green_agent/a2a_schemas.py:66-72 | Valid exactly when exactly one of uri and bytes is truthy; otherwise `ValueError`. |
| A2aSchemas.ValidatePart | src/finance_green_agent/a2a_schemas.py:85-90 | Valid exactly when the file part is valid and exactly one of text, file and data is present. |
| A2aSchemas.ValidateSendMessageResponse | src/finance_green_agent/a2a_schemas.py:154-158 | Valid exactly when exactly one of task and message is set. |
| A2aSchemas.ValidateStreamResponse | src/finance_green_agent/a2a_schemas.py:167-177 | Valid exactly when exactly one of the four payloads is set. |
| A2aSchemas.EmptyUriIsUnset | src/finance_green_agent/a2a_schemas.py:68 | An empty uri counts as unset. |
| A2aSchemas.EmptyTextIsSet | src/finance_green_agent/a2a_schemas.py:87-88 | An empty text counts as set. |
| A2aSchemas.NewTextPart | src/finance_green_agent/a2a_schemas.py:235-236 | `new_text_part` gives a valid part carrying the text. |
| A2aSchemas.NewDataPart | src/finance_green_agent/a2a_schemas.py:239-240 | `new_data_part` gives a valid part carrying the data. |
| TaskStore.NewTask | src/finance_green_agent/task_store.py:19-24 | A new task is submitted, has no status message and no artifacts, and has the given history or []. |
| TaskStore.WithStatus | src/finance_green_agent/task_store.py:35 | Only the status changes, to the given state and message. |
| TaskStore.WithArtifact | src/finance_green_agent/task_store.py:40 | One artifact is added at the end; nothing else changes. |
| TaskStore.WithHistory | src/finance_green_agent/task_store.py:45 | One message is added at the end; nothing else changes. |
| TaskStore.InMemoryTaskStore.constructor | src/finance_green_agent/task_store.py:10-11 | A new store is empty. |
| TaskStore.InMemoryTaskStore.CreateTask | src/finance_green_agent/task_store.py:13-26 | Stores the new task under its id. A fresh id adds one task; the other tasks stay. |
| TaskStore.InMemoryTaskStore.GetTask | src/finance_green_agent/task_store.py:28-29 | Returns the stored task, or nothing when there is none. Nothing changes. In a valid store the task returned has the requested id. |
| TaskStore.InMemoryTaskStore.UpdateStatus | src/finance_green_agent/task_store.py:31-36 | Replaces that task's status. An unknown id raises `KeyError`, and no task is added or removed. |
| TaskStore.InMemoryTaskStore.AddArtifact | src/finance_green_agent/task_store.py:38-41 | Appends one artifact to that task. An unknown id raises `KeyError`. Other tasks are unchanged. |
| TaskStore.InMemoryTaskStore.AddHistory | src/finance_green_agent/task_store.py:43-46 | Appends one message to that task's history. An unknown id raises `KeyError`. Other tasks are unchanged. |
| TaskStore.StatusOverrides | src/finance_green_agent/task_store.py:31-36 | Any state may follow any state. A later update overrides an earlier one. Artifacts and history stay. |
| TaskStore.ArtifactsInOrder | src/finance_green_agent/task_store.py:38-41 | Artifacts are kept in the order they were added. |
| TaskStore.HistoryExtends | src/finance_green_agent/task_store.py:23-46 | History given at creation is kept and appended after. An empty history is no history. |

## Left out

- The LLM call of `retrieve_information`. The model's answer and its usage are parameters.
- Agent construction, the public-evaluation driver, the logger, the prompt constant and the gate script.
- File I/O. The following are parameters or input values:
  - the manifest JSON;
  - the dataset CSV;
  - file reads and `os.path.exists`;
  - `os.path.abspath`.
- Network and async transport:
  - The agent card fetch and the message post are `Remote` parameters, each returning a value or the exception's text.
  - Timeouts, aiohttp sessions and the request id (`uuid4`) are not modelled.
- Library internals are function parameters:
  - `ast.literal_eval`;
  - `json.loads` and `json.dumps`;
  - BeautifulSoup's visible text. Dropping scripts and styles is part of the parameter.
  - `int()`, `float()` and `str()` of configuration values.
- `json.dumps` raising `TypeError` in `merge_parts` is not modelled. It cannot happen for a decoded JSON value.
- JSON floating-point values are not part of the JSON type. Scores and averages are exact reals, so float rounding is not modelled.
- `duration_seconds`, `time.perf_counter` and `set_determinism` are not modelled.
- `uuid4` ids in the task store and the protocol records are parameters.
- Case mapping is ASCII only. `lower` and `capitalize` leave other characters alone.
- ToolsBase.FormatPrompt: the `str.format` step is the direct replacement of each `{{key}}` by its text. These `str.format` cases are not modelled:
  - format specs and keys containing `:` `!` `.` `[`;
  - stray single braces;
  - a `{{` or `}}` outside a placeholder, which `format` turns into one brace;
  - a key of digits only, such as `{{0}}`, which `format` reads as a position and fails on with `IndexError`.
- ToolsBase.Envelope: the traceback appended to the error text when `FINANCE_GREEN_VERBOSE` is `1` is not modelled. The error text is always `str(e)`.
- CacheManifest.LoadEntries: the manifest is an already decoded JSON value, so `json.load` raising on a malformed file is not modelled.
- Failed reads of the dataset or of a cached file, such as a directory or an unreadable file, are not modelled. The dataset rows are a parameter, and `ParseCachedHtml` reads through the `Files` parameter.
- `str()` of a list or dict, such as a recorded query, a CIK or a configuration value, is the `render` parameter, because the JSON dict type keeps no key order.
- ParseCachedHtml.ParseOutcome: `os.path.exists` and `open` take an integer or boolean path as a file descriptor. The `Files` parameter answers for such a path like for any other.
- `repr` of non-ASCII and non-printable characters beyond ASCII control escapes is not modelled.
- Pydantic machinery beyond `_to_camel` and the four validators is not modelled:
  - request validation in `run_assessment`, where the request arrives already validated;
  - serialisation and field defaults;
  - `new_message` and `new_artifact`.
- `get_tool_definition` is not modelled.
- A dict's key order is modelled as a sequence: the participants of a request and the storage keys.
- The typed tool arguments:
  - Arguments are absent, null, or a value of the declared type.
  - A value of another type is not modelled.
- TaskStore.InMemoryTaskStore: tasks are values in a map. A `Task` that `get_task` returned is therefore a snapshot, and later updates through the store do not show in it as they would through Python's shared object.
- TaskStore.InMemoryTaskStore.CreateTask: the id is a parameter instead of a fresh `uuid4`. Reusing an id overwrites the task, as the Python dict would.
- GreenEval.EvaluateParticipant: a transport error is tested with `is not None` instead of the truthiness test `if answer.error:`, so an exception with empty text is recorded as a failure. The code as written is `GreenEval.RecordAsWritten` (see Findings).
- GreenEval.AskAll: uses the same corrected error test.
- GreenEval.OneRecordPerQuestion: is stated for the corrected error test.
- GreenEval.StepCases: is stated for the corrected error test.
- GreenEval.EvaluateAll: evaluates each participant with the corrected error test.
- GreenEval.RunAssessment: evaluates with the corrected error test.
- GreenEval.SummarizeResults: counts an error when it is not `None` instead of when it is truthy, matching the corrected record (see Findings).
- GreenEval.CardAgentUrl: a card that is not a dict fails at `.get`. A card whose `url` is not a string goes through the `str` parameter.

## Findings

| source | as written | input that shows it | evidently intended | confidence | as-written member | corrected member |
|---|---|---|---|---|---|---|
| src/finance_green_agent/green_eval.py:174-175 | A transport exception is recorded as `error=str(exc)`. The loop then tests `if answer.error:` and the summary counts `if item.get("error")`, both by truthiness. | A request that raises an exception whose `str` is empty, such as a bare `asyncio.TimeoutError`. It is scored as an empty answer with valid (empty) citations and `error: None`, and `errors` stays 0. | Every transport failure is recorded as a failed question (`passed false`, score 0, invalid citations, the error) and counted in `errors`. | not executed; medium | GreenEval.EmptyTransportErrorAsWritten (with GreenEval.RecordAsWritten, GreenEval.ErrorsAsWritten) | GreenEval.Record, GreenEval.SummarizeResults, GreenEval.ErrorsCountFailures |
