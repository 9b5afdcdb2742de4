/**
 * Citation checking: the answer's `{"sources": [...]}` block is located, decoded, and every
 * cited id is looked up among the cache manifest's source ids.
 */
module CitationValidator {
  import opened Wrappers
  import opened Strings
  import opened Json
  import opened CacheManifest

  // ---------------------------------------------------------------- locating the block

  /** The quoted key the pattern looks for. */
  const SourcesKey := "\"sources\""

  /**
   * A match of the pattern `(\{\s*"sources".*\})` (dot matching newlines): an opening brace at
   * `i`, whitespace up to `j`, the quoted key at `j`, and a closing brace at `k` after the key.
   */
  predicate RegexMatch(s: string, i: int, j: int, k: int) {
    && 0 <= i < j <= |s| && s[i] == '{'
    && (forall m :: i < m < j ==> IsSpace(s[m]))
    && IsPrefix(SourcesKey, s[j..])
    && j + |SourcesKey| <= k < |s| && s[k] == '}'
  }

  /** The first position at or after `j` that is not whitespace. */
  function SkipSpaces(s: string, j: nat): (r: nat)
    requires j <= |s|
    ensures j <= r <= |s|
    ensures forall m :: j <= m < r ==> IsSpace(s[m])
    ensures r == |s| || !IsSpace(s[r])
    decreases |s| - j
  {
    if j < |s| && IsSpace(s[j]) then SkipSpaces(s, j + 1) else j
  }

  /** An opening brace at `i` followed by optional whitespace and the quoted key. */
  predicate IsHeader(s: string, i: nat) {
    i < |s| && s[i] == '{' && IsPrefix(SourcesKey, s[SkipSpaces(s, i + 1)..])
  }

  /** The end of the header at `i`. */
  function HeaderEnd(s: string, i: nat): nat
    requires i < |s|
  {
    SkipSpaces(s, i + 1) + |SourcesKey|
  }

  /** The first header at or after `from`. */
  function FirstHeader(s: string, from: nat): (r: Option<nat>)
    ensures r.Some? ==> from <= r.value && IsHeader(s, r.value)
    ensures r.Some? ==> forall i :: from <= i < r.value ==> !IsHeader(s, i)
    ensures r.None? ==> forall i :: from <= i ==> !IsHeader(s, i)
    decreases |s| - from
  {
    if from >= |s| then None
    else if IsHeader(s, from) then Some(from)
    else FirstHeader(s, from + 1)
  }

  /** The last closing brace of the first `n` characters. */
  function LastClose(s: string, n: nat): (r: Option<nat>)
    requires n <= |s|
    ensures r.Some? ==> r.value < n && s[r.value] == '}'
    ensures r.Some? ==> forall k :: r.value < k < n ==> s[k] != '}'
    ensures r.None? ==> forall k :: 0 <= k < n ==> s[k] != '}'
  {
    if n == 0 then None
    else if s[n - 1] == '}' then Some(n - 1)
    else LastClose(s, n - 1)
  }

  /** The text the pattern's group captures, or `None` with no match. */
  function ExtractSpan(s: string): Option<string> {
    match FirstHeader(s, 0)
    case None => None
    case Some(i) =>
      match LastClose(s, |s|)
      case None => None
      case Some(k) => if HeaderEnd(s, i) <= k then Some(s[i..k + 1]) else None
  }

  /** The whitespace before the key is determined: a header is a match's opening. */
  lemma MatchHeader(s: string, i: int, j: int, k: int)
    requires RegexMatch(s, i, j, k)
    ensures IsHeader(s, i) && SkipSpaces(s, i + 1) == j && HeaderEnd(s, i) == j + |SourcesKey|
  {
    var r := SkipSpaces(s, i + 1);
    assert s[j] == '"' by { assert s[j..][0] == SourcesKey[0]; }
  }

  /** No second opening brace inside a header: a later header starts after this one ends. */
  lemma HeadersApart(s: string, i: nat, i2: nat)
    requires IsHeader(s, i) && IsHeader(s, i2) && i < i2
    ensures HeaderEnd(s, i) <= i2
  {
  }

  /**
   * `ExtractSpan` is the leftmost-longest match of the pattern: there is a span exactly when
   * the pattern matches, and then it runs from the leftmost matching brace to the last closing
   * brace that completes it.
   */
  lemma ExtractSpanIsSearch(s: string)
    ensures ExtractSpan(s).None? <==> forall i, j, k :: !RegexMatch(s, i, j, k)
    ensures ExtractSpan(s).Some? ==> exists i, j, k ::
      && RegexMatch(s, i, j, k) && ExtractSpan(s).value == s[i..k + 1]
      && forall i2, j2, k2 :: RegexMatch(s, i2, j2, k2) ==> i <= i2 && (i2 == i ==> k2 <= k)
  {
    forall i, j, k | RegexMatch(s, i, j, k)
      ensures ExtractSpan(s).Some?
    {
      MatchHeader(s, i, j, k);
      var i0 := FirstHeader(s, 0).value;
      if i0 < i {
        HeadersApart(s, i0, i);
      }
      assert HeaderEnd(s, i0) <= k;
    }
    if ExtractSpan(s).Some? {
      var i := FirstHeader(s, 0).value;
      var k := LastClose(s, |s|).value;
      var j := SkipSpaces(s, i + 1);
      assert RegexMatch(s, i, j, k);
      forall i2, j2, k2 | RegexMatch(s, i2, j2, k2)
        ensures i <= i2 && (i2 == i ==> k2 <= k)
      {
        MatchHeader(s, i2, j2, k2);
      }
    }
  }

  // ---------------------------------------------------------------- decoding

  /**
   * `extract_citations`: `decode` stands for `json.loads`, `None` for the decode error. Only a
   * dict's `sources` list is kept.
   */
  function ExtractCitations(answerText: string, decode: string -> Option<Json>): (r: seq<Json>)
    ensures |r| > 0 ==>
      && ExtractSpan(answerText).Some? && decode(ExtractSpan(answerText).value).Some?
      && Get(decode(ExtractSpan(answerText).value).value, "sources") == Some(JList(r))
  {
    match ExtractSpan(answerText)
    case None => []
    case Some(span) =>
      match decode(span)
      case None => []
      case Some(data) =>
        var sources := if data.JDict? && "sources" in data.fields then data.fields["sources"] else JList([]);
        if sources.JList? then sources.items else []
  }

  /**
   * The citations are the `sources` list of the decoded span when there is one, and empty when
   * the pattern does not match, the span does not decode, or it holds no `sources` list.
   */
  lemma CitationsCases(answerText: string, decode: string -> Option<Json>)
    ensures var r := ExtractCitations(answerText, decode);
      var span := ExtractSpan(answerText);
      && (span.None? ==> r == [])
      && (span.Some? && decode(span.value).None? ==> r == [])
      && (span.Some? && decode(span.value).Some? ==>
            var data := decode(span.value).value;
            r == if data.JDict? && "sources" in data.fields && data.fields["sources"].JList?
                 then data.fields["sources"].items else [])
  {
  }

  // ---------------------------------------------------------------- validation

  /** The dict `validate_citations` returns. */
  datatype Validation = Validation(cited: seq<Json>, missing: seq<Json>, valid: bool)

  /** One manifest id as a set element: a list or a dict cannot be hashed. */
  function IdKey(e: CacheEntry): Result<Json, Raised> {
    if IsScalar(e.sourceId) then Ok(e.sourceId)
    else Err(TypeError("unhashable type: '" + TypeName(e.sourceId) + "'"))
  }

  /** `{entry.source_id for entry in manifest.entries}`, which raises at the first unhashable id. */
  function ManifestIds(entries: seq<CacheEntry>): Result<set<Json>, Raised> {
    match Traverse(entries, IdKey)
    case Err(e) => Err(e)
    case Ok(keys) => Ok(set k | k in keys)
  }

  /** `source_id not in manifest_ids` for a hashable id: no manifest id compares equal to it. */
  predicate Unknown(id: Json, ids: set<Json>) {
    !exists y :: y in ids && SameValue(id, y)
  }

  /**
   * What one cited entry adds to `missing`: its id when it is a dict with a truthy id outside
   * the manifest; nothing otherwise. A truthy list or dict id cannot be looked up in a set.
   */
  function MissingOf(ids: set<Json>): Json -> Result<seq<Json>, Raised> {
    (source: Json) =>
      var id := if source.JDict? then GetOrNull(source, "id") else JNull;
      if !Truthy(id) then Ok([])
      else if !IsScalar(id) then Err(TypeError("unhashable type: '" + TypeName(id) + "'"))
      else if Unknown(id, ids) then Ok([id])
      else Ok([])
  }

  /** The `missing` list, or the exception of the first id that cannot be looked up. */
  function Missing(cited: seq<Json>, ids: set<Json>): Result<seq<Json>, Raised> {
    match Traverse(cited, MissingOf(ids))
    case Err(e) => Err(e)
    case Ok(parts) => Ok(Flatten(parts))
  }

  /**
   * What `validate_citations` returns for the manifest's entries: `cited` as extracted,
   * `valid` exactly when `missing` is empty, so an answer without citations is valid.
   */
  function Validate(answerText: string, entries: seq<CacheEntry>, decode: string -> Option<Json>)
    : (r: Result<Validation, Raised>)
    ensures r.Ok? ==>
      && (r.value.valid <==> r.value.missing == [])
      && r.value.cited == ExtractCitations(answerText, decode)
      && (r.value.cited == [] ==> r.value.valid)
  {
    var cited := ExtractCitations(answerText, decode);
    match ManifestIds(entries)
    case Err(e) => Err(e)
    case Ok(ids) =>
      match Missing(cited, ids)
      case Err(e) => Err(e)
      case Ok(m) => Ok(Validation(cited, m, |m| == 0))
  }

  /** `validate_citations`: the manifest ids, then the walk over the cited entries. */
  method ValidateCitations(answerText: string, entries: seq<CacheEntry>, decode: string -> Option<Json>)
    returns (r: Result<Validation, Raised>)
    ensures r == Validate(answerText, entries, decode)
  {
    var cited := ExtractCitations(answerText, decode);
    var manifestIds := ManifestIds(entries);
    if manifestIds.Err? {
      return Err(manifestIds.error);
    }
    ValidateWith(answerText, entries, decode, manifestIds.value);
    var missing := CollectMissing(cited, manifestIds.value);
    if missing.Err? {
      return Err(missing.error);
    }
    r := Ok(Validation(cited, missing.value, |missing.value| == 0));
  }

  /** The loop of `validate_citations` over the cited entries, building `missing`. */
  method CollectMissing(cited: seq<Json>, ids: set<Json>) returns (r: Result<seq<Json>, Raised>)
    ensures r == Missing(cited, ids)
  {
    var missing: seq<Json> := [];
    ghost var parts: seq<seq<Json>> := [];
    for i := 0 to |cited|
      invariant Traverse(cited[..i], MissingOf(ids)) == Ok(parts)
      invariant missing == Flatten(parts)
    {
      var source := cited[i];
      TraverseStep(cited, i, MissingOf(ids), parts);
      var sourceId := if source.JDict? then GetOrNull(source, "id") else JNull;
      if Truthy(sourceId) {
        if !IsScalar(sourceId) {
          TraverseErrSticks(cited, i + 1, MissingOf(ids));
          return Err(TypeError("unhashable type: '" + TypeName(sourceId) + "'"));
        }
        if Unknown(sourceId, ids) {
          missing := missing + [sourceId];
          parts := parts + [[sourceId]];
          continue;
        }
      }
      parts := parts + [[]];
    }
    assert cited[..|cited|] == cited;
    r := Ok(missing);
  }

  /** With the manifest ids built, the validation is the walk over the citations. */
  lemma ValidateWith(answerText: string, entries: seq<CacheEntry>, decode: string -> Option<Json>, ids: set<Json>)
    requires ManifestIds(entries) == Ok(ids)
    ensures var cited := ExtractCitations(answerText, decode);
      Validate(answerText, entries, decode) ==
        if Missing(cited, ids).Err? then Err(Missing(cited, ids).error)
        else Ok(Validation(cited, Missing(cited, ids).value, |Missing(cited, ids).value| == 0))
  {
  }

  /**
   * The manifest ids are the source ids of the entries when every one is hashable; otherwise
   * the set cannot be built and the first list or dict id raises.
   */
  lemma ManifestIdsCases(entries: seq<CacheEntry>)
    ensures ManifestIds(entries).Ok? <==> forall i :: 0 <= i < |entries| ==> IsScalar(entries[i].sourceId)
    ensures ManifestIds(entries).Ok? ==>
      forall x :: x in ManifestIds(entries).value <==> exists i :: 0 <= i < |entries| && entries[i].sourceId == x
    ensures ManifestIds(entries).Err? ==> ManifestIds(entries).error.TypeError?
  {
    TraversePerElement(entries, IdKey);
    if ManifestIds(entries).Ok? {
      var keys := Traverse(entries, IdKey).value;
      assert forall i :: 0 <= i < |entries| ==> keys[i] == entries[i].sourceId;
    }
  }

  /** A cited id is known when a manifest id equals it as Python compares: `1` finds `True`. */
  lemma NumbersMatchBooleans(ids: set<Json>)
    requires JBool(true) in ids
    ensures !Unknown(JInt(1), ids)
    ensures Unknown(JStr("1"), ids) <==> JStr("1") !in ids
  {
    assert SameValue(JInt(1), JBool(true));
  }

  /** The ids one cited entry can contribute: none, or its own id. */
  lemma MissingOfShape(ids: set<Json>, source: Json)
    ensures MissingOf(ids)(source).Ok? ==>
      (|| MissingOf(ids)(source).value == []
       || (&& source.JDict? && MissingOf(ids)(source).value == [GetOrNull(source, "id")]))
  {
  }

  /**
   * `missing` is built entry by entry: the ids of a concatenation of citation lists are the
   * ids of the first followed by those of the second, so order and duplicates are kept.
   */
  lemma MissingAppend(a: seq<Json>, b: seq<Json>, ids: set<Json>)
    requires Missing(a, ids).Ok? && Missing(b, ids).Ok?
    ensures Missing(a + b, ids) == Ok(Missing(a, ids).value + Missing(b, ids).value)
  {
    TraverseAppend(a, b, MissingOf(ids));
    FlattenAppend(Traverse(a, MissingOf(ids)).value, Traverse(b, MissingOf(ids)).value);
  }

  /** A single citation contributes its id exactly when that id is truthy and not in the manifest. */
  lemma MissingSingle(source: Json, ids: set<Json>)
    requires source.JDict? ==> IsScalar(GetOrNull(source, "id"))
    ensures Missing([source], ids) == Ok(
      if source.JDict? && Truthy(GetOrNull(source, "id")) && Unknown(GetOrNull(source, "id"), ids)
      then [GetOrNull(source, "id")] else [])
  {
    OneCitation(source, ids);
  }

  /** Walking one citation is applying `MissingOf` to it. */
  lemma OneCitation(source: Json, ids: set<Json>)
    ensures var x := MissingOf(ids)(source);
      Missing([source], ids) == if x.Ok? then Ok(x.value) else Err(x.error)
  {
    var f := MissingOf(ids);
    TraverseSingle(source, f);
    if f(source).Ok? {
      FlattenSingle(f(source).value);
    }
  }

  /** Cited entries that are not dicts, or whose id is missing or empty, add nothing. */
  lemma IgnoredCitations(source: Json, ids: set<Json>)
    requires !source.JDict? || !Truthy(GetOrNull(source, "id"))
    ensures Missing([source], ids) == Ok([])
  {
    OneCitation(source, ids);
  }

  /**
   * Every id in `missing` is truthy, absent from the manifest ids, and the id of some cited
   * dict; and every cited dict with such an id has it in `missing`.
   */
  lemma MissingMembers(cited: seq<Json>, ids: set<Json>)
    requires Missing(cited, ids).Ok?
    ensures forall x :: x in Missing(cited, ids).value <==>
      exists i :: 0 <= i < |cited| && cited[i].JDict? && GetOrNull(cited[i], "id") == x
        && Truthy(x) && Unknown(x, ids)
  {
    var parts := Traverse(cited, MissingOf(ids)).value;
    TraversePerElement(cited, MissingOf(ids));
    FlattenMembers(parts);
    forall i | 0 <= i < |cited|
      ensures forall x :: x in parts[i] <==>
        cited[i].JDict? && GetOrNull(cited[i], "id") == x && Truthy(x) && Unknown(x, ids)
    {
      assert parts[i] == MissingOf(ids)(cited[i]).value;
    }
  }

  /** The validation raises exactly when some cited dict has a truthy list or dict id. */
  lemma ValidationRaises(cited: seq<Json>, ids: set<Json>)
    ensures Missing(cited, ids).Err? <==>
      exists i :: 0 <= i < |cited| && cited[i].JDict? && Truthy(GetOrNull(cited[i], "id"))
        && !IsScalar(GetOrNull(cited[i], "id"))
  {
    TraversePerElement(cited, MissingOf(ids));
  }
}
