/**
 * The local cache manifest: a list of cached web pages and SEC filings, loaded from the
 * manifest's JSON, and the two keyword searches over it.
 */
module CacheManifest {
  import opened Wrappers
  import opened Strings
  import opened Json

  /**
   * One cached source. The loader stores whatever value the manifest holds under each key,
   * after its `or` fallbacks, and checks no type, so every field is a JSON value; the searches
   * raise when they reach a value they cannot lower or iterate.
   */
  datatype CacheEntry = CacheEntry(
    sourceId: Json,
    sourceType: Json,
    title: Json,
    url: Json,
    queries: Json,
    localPath: Json,
    metadata: Json)

  // ---------------------------------------------------------------- loading

  /** The dict value of `item.get(key)`, `None` when absent. */
  function Field(item: Json, key: string): Json
    requires item.JDict?
  {
    GetOrNull(item, key)
  }

  /** The field fallbacks of the loader, each an `or` chain. */
  function RawSourceId(item: Json): Json requires item.JDict? {
    Or(Or(Field(item, "source_id"), Field(item, "id")), JStr(""))
  }
  function RawSourceType(item: Json): Json requires item.JDict? {
    Or(Or(Field(item, "type"), Field(item, "source_type")), JStr(""))
  }
  function RawUrl(item: Json): Json requires item.JDict? {
    Or(Field(item, "url"), Field(item, "original_url"))
  }
  function RawQueries(item: Json): Json requires item.JDict? {
    Or(Or(Field(item, "queries"), Field(item, "query")), JList([]))
  }
  function RawLocalPath(item: Json): Json requires item.JDict? {
    Or(Field(item, "local_path"), Field(item, "path"))
  }
  function RawMetadata(item: Json): Json requires item.JDict? {
    Or(Field(item, "metadata"), JDict(map[]))
  }

  /**
   * One manifest item made into an entry. Only an item that is not a dict fails, at
   * `item.get`; the fields with a default are then truthy or that default.
   */
  function EntryOf(item: Json): (r: Result<CacheEntry, Raised>)
    ensures r.Err? <==> !item.JDict?
    ensures r.Err? ==> r.error == NoAttribute(item, "get")
    ensures r.Ok? ==>
      && (Truthy(r.value.sourceId) || r.value.sourceId == JStr(""))
      && (Truthy(r.value.sourceType) || r.value.sourceType == JStr(""))
      && (Truthy(r.value.queries) || r.value.queries == JList([]))
      && (Truthy(r.value.metadata) || r.value.metadata == JDict(map[]))
  {
    if !item.JDict? then Err(NoAttribute(item, "get"))
    else Ok(CacheEntry(
      RawSourceId(item),
      RawSourceType(item),
      Field(item, "title"),
      RawUrl(item),
      RawQueries(item),
      RawLocalPath(item),
      RawMetadata(item)))
  }

  /**
   * What `for item in raw.get("entries", [])` walks over: the manifest must be a dict; a list
   * is walked element by element, a dict by its (string) keys, a string by its characters.
   */
  function ManifestItems(raw: Json): Result<seq<Json>, Raised> {
    if !raw.JDict? then Err(NoAttribute(raw, "get"))
    else
      var v := if "entries" in raw.fields then raw.fields["entries"] else JList([]);
      match v
      case JList(items) => Ok(items)
      case JDict(f) => if |f| == 0 then Ok([]) else Err(NoAttribute(JStr(""), "get"))
      case JStr(s) => if s == "" then Ok([]) else Err(NoAttribute(JStr(""), "get"))
      case _ => Err(NotIterable(v))
  }

  /**
   * The entries `_load` produces, one per manifest item; `None` stands for a manifest file
   * that does not exist.
   */
  function LoadEntries(raw: Option<Json>): (r: Result<seq<CacheEntry>, Raised>)
    ensures raw.None? ==> r == Ok([])
    ensures raw.Some? && r.Ok? ==>
      ManifestItems(raw.value).Ok? && |r.value| == |ManifestItems(raw.value).value|
  {
    match raw
    case None => Ok([])
    case Some(j) =>
      match ManifestItems(j)
      case Err(e) => Err(e)
      case Ok(items) => Traverse(items, EntryOf)
  }

  // ---------------------------------------------------------------- matching

  /**
   * `(v or "").lower()`: a falsy value reads as the empty text, a string is lowered, and any
   * other truthy value has no `lower`.
   */
  function LowerText(v: Json): (r: Result<string, Raised>)
    ensures v.JStr? ==> r == Ok(Lower(v.s))
    ensures !Truthy(v) ==> r == Ok("")
    ensures r.Err? <==> Truthy(v) && !v.JStr?
  {
    var t := Or(v, JStr(""));
    if t.JStr? then Ok(Lower(t.s)) else Err(NoAttribute(t, "lower"))
  }

  /** `query_lower in str(q).lower()` for one recorded query `q`. */
  predicate QueryIn(q: Json, ql: string, render: Json -> string) {
    Contains(Lower(Str(q, render)), ql)
  }

  /**
   * The scan `for q in entry.queries`, which succeeds at the first recorded query holding the
   * lower-cased query: a list is scanned by item, a string by character, a dict by key; any
   * other value cannot be iterated.
   */
  function QueriesHit(queries: Json, ql: string, render: Json -> string): Result<bool, Raised> {
    match queries
    case JList(items) => Ok(exists k :: 0 <= k < |items| && QueryIn(items[k], ql, render))
    case JStr(s) => Ok(exists k :: 0 <= k < |s| && Contains(Lower([s[k]]), ql))
    case JDict(f) => Ok(exists key :: key in f && Contains(Lower(key), ql))
    case _ => Err(NotIterable(queries))
  }

  /**
   * The text test both searches share, in the source's order: the title, then the URL, then
   * the recorded queries; the first text holding the lower-cased query decides, and a value
   * that cannot be lowered or iterated raises once it is reached.
   */
  function TextMatch(e: CacheEntry, ql: string, render: Json -> string): Result<bool, Raised> {
    match LowerText(e.title)
    case Err(x) => Err(x)
    case Ok(t) =>
      if Contains(t, ql) then Ok(true)
      else
        match LowerText(e.url)
        case Err(x) => Err(x)
        case Ok(u) => if Contains(u, ql) then Ok(true) else QueriesHit(e.queries, ql, render)
  }

  /** `search_web`'s test of one entry, for the lower-cased query `ql`. */
  function WebMatch(ql: string, render: Json -> string): CacheEntry -> Result<bool, Raised> {
    (e: CacheEntry) => if e.sourceType != JStr("web") then Ok(false) else TextMatch(e, ql, render)
  }

  /** `entry_meta.get(key, [])` on a dict. */
  function MetaList(meta: Json, key: string): Json
    requires meta.JDict?
  {
    if key in meta.fields then meta.fields[key] else JList([])
  }

  /** `ft.lower()` for one listed form type: only a string has `lower`. */
  function LowerForm(v: Json): Result<string, Raised> {
    if v.JStr? then Ok(Lower(v.s)) else Err(NoAttribute(v, "lower"))
  }

  /**
   * The values of `[ft.lower() for ft in v]`, which the filter only tests membership in: a
   * list fails at its first element that is not a string, a string gives its characters, a
   * dict its keys, and nothing else can be iterated.
   */
  function FormsOf(v: Json): Result<set<string>, Raised> {
    match v
    case JList(items) =>
      (match Traverse(items, LowerForm)
       case Err(x) => Err(x)
       case Ok(forms) => Ok(set k | 0 <= k < |forms| :: forms[k]))
    case JStr(s) => Ok(set k | 0 <= k < |s| :: Lower([s[k]]))
    case JDict(f) => Ok(set key | key in f :: Lower(key))
    case _ => Err(NotIterable(v))
  }

  /** The values of `[str(cik) for cik in v]`, iterated as `FormsOf` iterates. */
  function CiksOf(v: Json, render: Json -> string): Result<set<string>, Raised> {
    match v
    case JList(items) => Ok(set k | 0 <= k < |items| :: Str(items[k], render))
    case JStr(s) => Ok(set k | 0 <= k < |s| :: [s[k]])
    case JDict(f) => Ok(f.Keys)
    case _ => Err(NotIterable(v))
  }

  /**
   * An SEC entry's form types and CIKs, computed for every SEC entry before either filter:
   * `entry.metadata or {}` must be a dict, and both listed values must iterate.
   */
  function SecLists(e: CacheEntry, render: Json -> string): Result<(set<string>, set<string>), Raised> {
    var meta := Or(e.metadata, JDict(map[]));
    if !meta.JDict? then Err(NoAttribute(meta, "get"))
    else
      match FormsOf(MetaList(meta, "form_types"))
      case Err(x) => Err(x)
      case Ok(forms) =>
        match CiksOf(MetaList(meta, "ciks"), render)
        case Err(x) => Err(x)
        case Ok(cs) => Ok((forms, cs))
  }

  /** An empty filter passes everything; otherwise some requested form type must be listed. */
  predicate FormsPass(formTypes: seq<string>, forms: set<string>) {
    formTypes == [] || exists k :: 0 <= k < |formTypes| && Lower(formTypes[k]) in forms
  }

  /** An empty filter passes everything; otherwise some requested CIK must be listed. */
  predicate CiksPass(ciks: seq<string>, cs: set<string>) {
    ciks == [] || exists k :: 0 <= k < |ciks| && ciks[k] in cs
  }

  /** `search_sec`'s test of one entry. */
  function SecMatch(ql: string, formTypes: seq<string>, ciks: seq<string>, render: Json -> string)
    : CacheEntry -> Result<bool, Raised>
  {
    (e: CacheEntry) =>
      if e.sourceType != JStr("sec") then Ok(false)
      else
        match SecLists(e, render)
        case Err(x) => Err(x)
        case Ok(lists) =>
          if !FormsPass(formTypes, lists.0) || !CiksPass(ciks, lists.1) then Ok(false)
          else TextMatch(e, ql, render)
  }

  /** What a search returns or raises: the kept entries cut to `top_n`. */
  function Searched(entries: seq<CacheEntry>, p: CacheEntry -> Result<bool, Raised>, topN: int)
    : Result<seq<CacheEntry>, Raised>
  {
    match FilterResult(entries, p)
    case Err(x) => Err(x)
    case Ok(m) => Ok(PyPrefix(m, topN))
  }

  /** The inner scan over the recorded queries, stopping at the first that matches. */
  method AnyQueryHit(queries: Json, ql: string, render: Json -> string) returns (r: Result<bool, Raised>)
    ensures r == QueriesHit(queries, ql, render)
  {
    match queries {
      case JList(items) =>
        for k := 0 to |items|
          invariant forall j :: 0 <= j < k ==> !QueryIn(items[j], ql, render)
        {
          if Contains(Lower(Str(items[k], render)), ql) {
            return Ok(true);
          }
        }
        return Ok(false);
      case JStr(s) =>
        for k := 0 to |s|
          invariant forall j :: 0 <= j < k ==> !Contains(Lower([s[j]]), ql)
        {
          if Contains(Lower([s[k]]), ql) {
            return Ok(true);
          }
        }
        return Ok(false);
      case JDict(f) =>
        var left := f.Keys;
        while left != {}
          invariant left <= f.Keys
          invariant forall key :: key in f && key !in left ==> !Contains(Lower(key), ql)
          decreases |left|
        {
          var key :| key in left;
          if Contains(Lower(key), ql) {
            return Ok(true);
          }
          left := left - {key};
        }
        return Ok(false);
      case _ =>
        return Err(NotIterable(queries));
    }
  }

  /** The title, URL and query tests of one entry, each raising where the source raises. */
  method MatchText(e: CacheEntry, ql: string, render: Json -> string) returns (r: Result<bool, Raised>)
    ensures r == TextMatch(e, ql, render)
  {
    var title := LowerText(e.title);
    if title.Err? {
      return Err(title.error);
    }
    if Contains(title.value, ql) {
      return Ok(true);
    }
    var url := LowerText(e.url);
    if url.Err? {
      return Err(url.error);
    }
    if Contains(url.value, ql) {
      return Ok(true);
    }
    r := AnyQueryHit(e.queries, ql, render);
  }

  /** The manifest object: its entries are set once, by loading. */
  class Manifest {
    var entries: seq<CacheEntry>

    /** `self.entries = []`, before loading. */
    constructor()
      ensures entries == []
    {
      entries := [];
    }

    /**
     * `_load`: the entries built item by item; a failure leaves the entries as they were, as
     * the exception leaves the object unfinished.
     */
    method Load(raw: Option<Json>) returns (err: Option<Raised>)
      modifies this
      ensures LoadEntries(raw).Ok? ==> err == None && entries == LoadEntries(raw).value
      ensures LoadEntries(raw).Err? ==> err == Some(LoadEntries(raw).error) && entries == old(entries)
    {
      if raw.None? {
        entries := [];
        return None;
      }
      var items := ManifestItems(raw.value);
      if items.Err? {
        return Some(items.error);
      }
      var loaded: seq<CacheEntry> := [];
      for i := 0 to |items.value|
        invariant Traverse(items.value[..i], EntryOf) == Ok(loaded)
      {
        assert items.value[..i + 1][..i] == items.value[..i];
        var entry := EntryOf(items.value[i]);
        if entry.Err? {
          TraverseErrSticks(items.value, i + 1, EntryOf);
          return Some(entry.error);
        }
        loaded := loaded + [entry.value];
      }
      assert items.value[..|items.value|] == items.value;
      entries := loaded;
      return None;
    }

    /**
     * `search_web`: the web entries that match, in manifest order, cut to `top_n`, or the
     * error of the first web entry whose title, URL or queries cannot be read.
     */
    method SearchWeb(query: string, topN: int, render: Json -> string) returns (r: Result<seq<CacheEntry>, Raised>)
      ensures r == Searched(entries, WebMatch(Lower(query), render), topN)
    {
      var ql := Lower(query);
      ghost var p := WebMatch(ql, render);
      var matches: seq<CacheEntry> := [];
      for i := 0 to |entries|
        invariant FilterResult(entries[..i], p) == Ok(matches)
      {
        FilterResultStep(entries, i, p, matches);
        var entry := entries[i];
        if entry.sourceType != JStr("web") {
          assert p(entry) == Ok(false) && matches + [] == matches;
          continue;
        }
        var hit := MatchText(entry, ql, render);
        assert p(entry) == hit;
        if hit.Err? {
          FilterResultErrSticks(entries, i + 1, p);
          return Err(hit.error);
        }
        if hit.value {
          matches := matches + [entry];
        } else {
          assert matches + [] == matches;
        }
      }
      assert entries[..|entries|] == entries;
      return Ok(PyPrefix(matches, topN));
    }

    /**
     * `search_sec`: as `search_web` for SEC entries, after the form-type and CIK filters; an
     * SEC entry whose metadata cannot be read raises before the filters.
     */
    method SearchSec(query: string, formTypes: seq<string>, ciks: seq<string>, topN: int, render: Json -> string)
      returns (r: Result<seq<CacheEntry>, Raised>)
      ensures r == Searched(entries, SecMatch(Lower(query), formTypes, ciks, render), topN)
    {
      var ql := Lower(query);
      ghost var p := SecMatch(ql, formTypes, ciks, render);
      var matches: seq<CacheEntry> := [];
      for i := 0 to |entries|
        invariant FilterResult(entries[..i], p) == Ok(matches)
      {
        FilterResultStep(entries, i, p, matches);
        var entry := entries[i];
        if entry.sourceType != JStr("sec") {
          assert p(entry) == Ok(false) && matches + [] == matches;
          continue;
        }
        var lists := SecLists(entry, render);
        if lists.Err? {
          FilterResultErrSticks(entries, i + 1, p);
          return Err(lists.error);
        }
        var (entryForms, entryCiks) := lists.value;
        assert p(entry) == if !FormsPass(formTypes, entryForms) || !CiksPass(ciks, entryCiks) then Ok(false)
                           else TextMatch(entry, ql, render);
        if formTypes != [] {
          if !exists k :: 0 <= k < |formTypes| && Lower(formTypes[k]) in entryForms {
            assert matches + [] == matches;
            continue;
          }
        }
        if ciks != [] {
          if !exists k :: 0 <= k < |ciks| && ciks[k] in entryCiks {
            assert matches + [] == matches;
            continue;
          }
        }
        var hit := MatchText(entry, ql, render);
        if hit.Err? {
          FilterResultErrSticks(entries, i + 1, p);
          return Err(hit.error);
        }
        if hit.value {
          matches := matches + [entry];
        } else {
          assert matches + [] == matches;
        }
      }
      assert entries[..|entries|] == entries;
      return Ok(PyPrefix(matches, topN));
    }
  }

  // ---------------------------------------------------------------- properties

  /** A manifest file that does not exist gives no entries. */
  lemma MissingManifest()
    ensures LoadEntries(None) == Ok([])
  {
  }

  /** A manifest that is not a dict (a bare list, say) fails at `raw.get`. */
  lemma NonDictManifestFails(raw: Json)
    requires !raw.JDict?
    ensures LoadEntries(Some(raw)).Err? && LoadEntries(Some(raw)).error.AttributeError?
  {
  }

  /**
   * A manifest's `entries` list loads exactly when every item is a dict, one entry per item in
   * order; otherwise the load fails at the first item that is not a dict.
   */
  lemma LoadPerItem(raw: Json)
    requires raw.JDict? && "entries" in raw.fields && raw.fields["entries"].JList?
    ensures var items := raw.fields["entries"].items;
      && (LoadEntries(Some(raw)).Ok? <==> forall i :: 0 <= i < |items| ==> items[i].JDict?)
      && (LoadEntries(Some(raw)).Ok? ==>
           (&& |LoadEntries(Some(raw)).value| == |items|
            && forall i :: 0 <= i < |items| ==> LoadEntries(Some(raw)).value[i] == EntryOf(items[i]).value))
      && (LoadEntries(Some(raw)).Err? ==>
           exists k :: 0 <= k < |items| && !items[k].JDict?
             && LoadEntries(Some(raw)).error == NoAttribute(items[k], "get")
             && forall i :: 0 <= i < k ==> items[i].JDict?)
  {
    TraversePerElement(raw.fields["entries"].items, EntryOf);
  }

  /**
   * The field fallbacks: `source_id`, then `id`, then ""; `type`, then `source_type`, then "";
   * `url`, then `original_url`; `queries`, then `query`, then `[]`; `local_path`, then `path`;
   * the metadata, else `{}`. A falsy value (None, "", 0, an empty list) falls through to the
   * next key, and the title is kept as it is.
   */
  lemma EntryFallbacks(item: Json)
    requires item.JDict?
    ensures var e := EntryOf(item).value;
      var sid := Field(item, "source_id");
      var id := Field(item, "id");
      && (Truthy(sid) ==> e.sourceId == sid)
      && (!Truthy(sid) && Truthy(id) ==> e.sourceId == id)
      && (!Truthy(sid) && !Truthy(id) ==> e.sourceId == JStr(""))
      && (Truthy(Field(item, "type")) ==> e.sourceType == Field(item, "type"))
      && (!Truthy(Field(item, "type")) ==>
            e.sourceType == if Truthy(Field(item, "source_type")) then Field(item, "source_type") else JStr(""))
      && e.title == Field(item, "title")
      && e.url == (if Truthy(Field(item, "url")) then Field(item, "url") else Field(item, "original_url"))
      && (Truthy(Field(item, "queries")) ==> e.queries == Field(item, "queries"))
      && (!Truthy(Field(item, "queries")) ==>
            e.queries == if Truthy(Field(item, "query")) then Field(item, "query") else JList([]))
      && e.localPath == (if Truthy(Field(item, "local_path")) then Field(item, "local_path") else Field(item, "path"))
      && e.metadata == (if Truthy(Field(item, "metadata")) then Field(item, "metadata") else JDict(map[]))
  {
  }

  /**
   * A search succeeds exactly when no entry's test raises, and then returns the first `top_n`
   * entries whose test holds; otherwise it raises the error of the first entry whose test
   * raises.
   */
  lemma SearchOutcome(entries: seq<CacheEntry>, p: CacheEntry -> Result<bool, Raised>, topN: int)
    ensures Searched(entries, p, topN).Ok? <==> forall i :: 0 <= i < |entries| ==> p(entries[i]).Ok?
    ensures Searched(entries, p, topN).Ok? ==>
      Searched(entries, p, topN).value == PyPrefix(Filter(entries, Holds(p)), topN)
    ensures Searched(entries, p, topN).Err? ==>
      exists k :: 0 <= k < |entries| && p(entries[k]).Err? && Searched(entries, p, topN).error == p(entries[k]).error
        && forall i :: 0 <= i < k ==> p(entries[i]).Ok?
  {
    FilterResultPerElement(entries, p);
  }

  /** A search returns only entries of the manifest whose test holds. */
  lemma SearchSelected(entries: seq<CacheEntry>, p: CacheEntry -> Result<bool, Raised>, topN: int)
    requires Searched(entries, p, topN).Ok?
    ensures var r := Searched(entries, p, topN).value;
      forall k :: 0 <= k < |r| ==> p(r[k]) == Ok(true) && r[k] in entries
  {
    SearchOutcome(entries, p, topN);
    var hits := Filter(entries, Holds(p));
    FilterMembers(entries, Holds(p));
    PyPrefixFacts(hits, topN);
    var r := PyPrefix(hits, topN);
    forall k | 0 <= k < |r| ensures p(r[k]) == Ok(true) && r[k] in entries {
      assert r[k] == hits[k] && hits[k] in hits;
      assert Holds(p)(r[k]);
    }
  }

  /** A search returns a subsequence of the manifest: manifest order, each entry at most once. */
  lemma SearchSubsequence(entries: seq<CacheEntry>, p: CacheEntry -> Result<bool, Raised>, topN: int)
    requires Searched(entries, p, topN).Ok?
    ensures exists idx :: Embeds(idx, Searched(entries, p, topN).value, entries) && Increasing(idx)
  {
    SearchOutcome(entries, p, topN);
    var hits := Filter(entries, Holds(p));
    FilterSelects(entries, Holds(p));
    PyPrefixFacts(hits, topN);
    var r := PyPrefix(hits, topN);
    var idx :| Selects(idx, hits, entries, Holds(p));
    assert Embeds(idx[..|r|], r, entries);
    assert Increasing(idx[..|r|]);
  }

  /**
   * A search returns at most `top_n` entries, and every entry whose test holds when there are
   * no more than `top_n` of them.
   */
  lemma SearchBound(entries: seq<CacheEntry>, p: CacheEntry -> Result<bool, Raised>, topN: int)
    requires Searched(entries, p, topN).Ok?
    ensures topN >= 0 ==> |Searched(entries, p, topN).value| <= topN
    ensures topN >= |Filter(entries, Holds(p))| ==>
      forall e :: e in entries && p(e) == Ok(true) ==> e in Searched(entries, p, topN).value
  {
    SearchOutcome(entries, p, topN);
    FilterMembers(entries, Holds(p));
    PyPrefixFacts(Filter(entries, Holds(p)), topN);
  }

  /** `search_web` returns only web entries whose title, URL or a recorded query holds the query. */
  lemma SearchWebOnlyWeb(entries: seq<CacheEntry>, query: string, topN: int, render: Json -> string)
    requires Searched(entries, WebMatch(Lower(query), render), topN).Ok?
    ensures var r := Searched(entries, WebMatch(Lower(query), render), topN).value;
      forall k :: 0 <= k < |r| ==> r[k].sourceType == JStr("web") && TextMatch(r[k], Lower(query), render) == Ok(true)
  {
    SearchSelected(entries, WebMatch(Lower(query), render), topN);
  }

  /**
   * `search_web` raises exactly when some web entry's title, URL or queries cannot be read
   * before a match is found in it; entries of other types are never read.
   */
  lemma SearchWebRaises(entries: seq<CacheEntry>, query: string, topN: int, render: Json -> string)
    ensures Searched(entries, WebMatch(Lower(query), render), topN).Err? <==>
      exists i :: 0 <= i < |entries| && entries[i].sourceType == JStr("web")
        && TextMatch(entries[i], Lower(query), render).Err?
  {
    var p := WebMatch(Lower(query), render);
    SearchOutcome(entries, p, topN);
    assert forall i :: 0 <= i < |entries| ==>
      (p(entries[i]).Err? <==> entries[i].sourceType == JStr("web") && TextMatch(entries[i], Lower(query), render).Err?);
  }

  /** `search_sec` returns only SEC entries that pass both filters and match the query. */
  lemma SearchSecOnlySec(entries: seq<CacheEntry>, query: string, formTypes: seq<string>,
                         ciks: seq<string>, topN: int, render: Json -> string)
    requires Searched(entries, SecMatch(Lower(query), formTypes, ciks, render), topN).Ok?
    ensures var r := Searched(entries, SecMatch(Lower(query), formTypes, ciks, render), topN).value;
      forall k :: 0 <= k < |r| ==>
        (&& r[k].sourceType == JStr("sec") && SecLists(r[k], render).Ok?
         && FormsPass(formTypes, SecLists(r[k], render).value.0)
         && CiksPass(ciks, SecLists(r[k], render).value.1)
         && TextMatch(r[k], Lower(query), render) == Ok(true))
  {
    SearchSelected(entries, SecMatch(Lower(query), formTypes, ciks, render), topN);
  }

  /**
   * An SEC entry whose metadata is truthy but not a dict fails at `.get`, whatever the
   * filters, even when it would not pass them.
   */
  lemma NonDictMetadataRaises(e: CacheEntry, ql: string, formTypes: seq<string>, ciks: seq<string>,
                              render: Json -> string)
    requires e.sourceType == JStr("sec") && Truthy(e.metadata) && !e.metadata.JDict?
    ensures SecMatch(ql, formTypes, ciks, render)(e) == Err(NoAttribute(e.metadata, "get"))
  {
  }

  /**
   * A `form_types` stored as one string is iterated by character, so a filing whose
   * `form_types` is "10-K" passes no "10-K" filter.
   */
  lemma StringFormTypesNeverPass(e: CacheEntry, ql: string, form: string, render: Json -> string)
    requires e.sourceType == JStr("sec") && e.metadata == JDict(map["form_types" := JStr(form)])
    requires |form| != 1
    ensures SecMatch(ql, [form], [], render)(e) == Ok(false)
  {
    var meta := JDict(map["form_types" := JStr(form)]);
    assert Or(e.metadata, JDict(map[])) == meta;
    var forms := set k | 0 <= k < |form| :: Lower([form[k]]);
    assert FormsOf(MetaList(meta, "form_types")) == Ok(forms);
    assert MetaList(meta, "ciks") == JList([]);
    assert Lower(form) !in forms by {
      LowerFacts(form);
      forall k | 0 <= k < |form| ensures |Lower([form[k]])| == 1 {
        LowerFacts([form[k]]);
      }
    }
    assert !FormsPass([form], forms) by {
      assert forall k :: 0 <= k < |[form]| ==> [form][k] == form;
    }
  }

  /**
   * The empty query holds in every text, so it matches every entry whose title can be read
   * (and raises on the others).
   */
  lemma EmptyQueryMatchesAll(e: CacheEntry, render: Json -> string)
    ensures LowerText(e.title).Ok? ==> TextMatch(e, Lower(""), render) == Ok(true)
    ensures LowerText(e.title).Err? ==> TextMatch(e, Lower(""), render) == Err(LowerText(e.title).error)
    ensures e.sourceType == JStr("web") && LowerText(e.title).Ok? ==> WebMatch(Lower(""), render)(e) == Ok(true)
  {
    assert Lower("") == "";
    if LowerText(e.title).Ok? {
      assert IsPrefix("", LowerText(e.title).value);
    }
  }

  /** Empty form-type and CIK filters impose nothing: a readable SEC entry is tested on its text. */
  lemma EmptyFiltersPass(ql: string, e: CacheEntry, render: Json -> string)
    requires e.sourceType == JStr("sec") && SecLists(e, render).Ok?
    ensures SecMatch(ql, [], [], render)(e) == TextMatch(e, ql, render)
  {
  }

  /**
   * A query recorded in an entry's query list matches that entry, once its title and URL can
   * be read.
   */
  lemma RecordedQueryHits(e: CacheEntry, q: nat, render: Json -> string)
    requires e.queries.JList? && q < |e.queries.items|
    requires LowerText(e.title).Ok? && LowerText(e.url).Ok?
    ensures TextMatch(e, Lower(Str(e.queries.items[q], render)), render) == Ok(true)
  {
    var ql := Lower(Str(e.queries.items[q], render));
    assert IsPrefix(ql, ql);
    assert QueryIn(e.queries.items[q], ql, render);
  }

  /** When the first entry whose test holds is at position `k`, it heads every search with `top_n >= 1`. */
  lemma FirstHitFirst(entries: seq<CacheEntry>, p: CacheEntry -> Result<bool, Raised>, k: nat, topN: int)
    requires k < |entries| && p(entries[k]) == Ok(true) && topN >= 1
    requires forall j :: 0 <= j < k ==> p(entries[j]) != Ok(true)
    requires Searched(entries, p, topN).Ok?
    ensures var r := Searched(entries, p, topN).value;
      |r| > 0 && r[0] == entries[k]
  {
    SearchOutcome(entries, p, topN);
    var h := Holds(p);
    var before := entries[..k];
    var after := entries[k + 1..];
    assert entries == before + [entries[k]] + after;
    FilterNone(before, h);
    FilterAppend(before + [entries[k]], after, h);
    FilterAppend(before, [entries[k]], h);
    assert Filter([entries[k]], h) == [entries[k]] by {
      assert [entries[k]][..0] == [];
    }
    PyPrefixFacts(Filter(entries, h), topN);
  }

  /**
   * A web entry searched by a query recorded in its list, with no matching web entry before
   * it, comes first, unless some entry cannot be read and the search raises.
   */
  lemma RecordedQueryFirst(entries: seq<CacheEntry>, k: nat, q: nat, topN: int, render: Json -> string)
    requires k < |entries| && entries[k].sourceType == JStr("web")
    requires entries[k].queries.JList? && q < |entries[k].queries.items|
    requires LowerText(entries[k].title).Ok? && LowerText(entries[k].url).Ok? && topN >= 1
    requires var p := WebMatch(Lower(Str(entries[k].queries.items[q], render)), render);
      forall j :: 0 <= j < k ==> p(entries[j]) != Ok(true)
    requires Searched(entries, WebMatch(Lower(Str(entries[k].queries.items[q], render)), render), topN).Ok?
    ensures var r := Searched(entries, WebMatch(Lower(Str(entries[k].queries.items[q], render)), render), topN).value;
      |r| > 0 && r[0] == entries[k]
  {
    RecordedQueryHits(entries[k], q, render);
    FirstHitFirst(entries, WebMatch(Lower(Str(entries[k].queries.items[q], render)), render), k, topN);
  }

  /**
   * An SEC entry whose readable metadata lists the requested form type and CIK, searched by a
   * query recorded in its list, is selected.
   */
  lemma FilingMatches(e: CacheEntry, form: string, cik: string, q: nat, render: Json -> string)
    requires e.sourceType == JStr("sec") && SecLists(e, render).Ok?
    requires Lower(form) in SecLists(e, render).value.0 && cik in SecLists(e, render).value.1
    requires e.queries.JList? && q < |e.queries.items|
    requires LowerText(e.title).Ok? && LowerText(e.url).Ok?
    ensures SecMatch(Lower(Str(e.queries.items[q], render)), [form], [cik], render)(e) == Ok(true)
  {
    RecordedQueryHits(e, q, render);
    var lists := SecLists(e, render).value;
    assert FormsPass([form], lists.0) by {
      assert Lower([form][0]) in lists.0;
    }
    assert CiksPass([cik], lists.1) by {
      assert [cik][0] in lists.1;
    }
  }
}
