/**
 * The tool base: how tool arguments are read, the success/failure envelope every tool call is
 * wrapped in, the scratch storage the tools share, and `retrieve_information`, which fills
 * `{{key}}` placeholders of a prompt from that storage before the prompt goes to a model.
 */
module ToolsBase {
  import opened Wrappers
  import opened Strings
  import opened Json

  // ---------------------------------------------------------------- arguments

  /**
   * A declared tool argument as `arguments.get(name)` sees it: absent, a JSON null, or a value
   * of the type the tool's input schema declares.
   */
  datatype Arg<T> = Absent | Null | Given(value: T)

  /** `arguments.get(name)`: `None` for an absent argument and for a null one. */
  function ArgValue<T>(a: Arg<T>): Option<T> {
    if a.Given? then Some(a.value) else None
  }

  /**
   * `arguments.get(name, "")` handed to `.lower()`: the default for an absent argument, and
   * `None.lower()` failing for a null one.
   */
  function LowerableArg(a: Arg<string>): (r: Result<string, Raised>)
    ensures a.Absent? ==> r == Ok("")
    ensures a.Null? ==> r == Err(NoAttribute(JNull, "lower"))
    ensures a.Given? ==> r == Ok(a.value)
  {
    match a
    case Absent => Ok("")
    case Null => Err(NoAttribute(JNull, "lower"))
    case Given(s) => Ok(s)
  }

  /** `int(arguments.get(name) or default)`: absent, null and zero all give the default. */
  function IntOr(a: Arg<int>, default: int): (r: int)
    ensures a.Given? && a.value != 0 ==> r == a.value
    ensures !a.Given? || a.value == 0 ==> r == default
  {
    if a.Given? && a.value != 0 then a.value else default
  }

  /** `arguments.get(name) or []`. */
  function ListOr<T>(a: Arg<seq<T>>): (r: seq<T>)
    ensures a.Given? ==> r == a.value
    ensures !a.Given? ==> r == []
  {
    if a.Given? then a.value else []
  }

  // ---------------------------------------------------------------- the envelope

  /** A hexadecimal digit, lower case as Python writes it. */
  function HexDigit(d: nat): char
    requires d < 16
  {
    if d < 10 then '0' + d as char else 'a' + (d - 10) as char
  }

  /** A character Python's `repr` writes as itself (ASCII control characters are escaped). */
  predicate ReprVerbatim(c: char) {
    ' ' <= c && c != '\U{7f}' && c != '\\'
  }

  /** One character of a string literal quoted with `q`. */
  function EscapeChar(c: char, q: char): (r: string)
    ensures |r| > 0
  {
    if c == '\\' then "\\\\"
    else if c == q then ['\\', q]
    else if c == '\n' then "\\n"
    else if c == '\r' then "\\r"
    else if c == '\t' then "\\t"
    else if c < ' ' || c == '\U{7f}' then ['\\', 'x', HexDigit(c as int / 16), HexDigit(c as int % 16)]
    else [c]
  }

  /** The body of a string literal quoted with `q`. */
  function EscapeAll(s: string, q: char): string
    decreases |s|
  {
    if s == [] then [] else EscapeAll(s[..|s| - 1], q) + EscapeChar(s[|s| - 1], q)
  }

  /**
   * Python's `repr` of a string: single quotes, unless the text holds a single quote and no
   * double quote.
   */
  function Repr(s: string): (r: string)
    ensures |r| >= 2 && r[0] == r[|r| - 1] && (r[0] == '\'' || r[0] == '"')
  {
    var q := if '\'' in s && '"' !in s then '"' else '\'';
    [q] + EscapeAll(s, q) + [q]
  }

  /** A text without the quote `q`, backslashes or control characters is its own literal body. */
  lemma {:induction false} EscapeAllVerbatim(s: string, q: char)
    requires forall c :: c in s ==> ReprVerbatim(c) && c != q
    ensures EscapeAll(s, q) == s
    decreases |s|
  {
    if s != [] {
      var init := s[..|s| - 1];
      assert forall c :: c in init ==> c in s;
      EscapeAllVerbatim(init, q);
      var c := s[|s| - 1];
      assert c in s;
      EscapeCharVerbatim(c, q);
      assert s == init + [c];
    }
  }

  /** A character that needs no escape stands for itself. */
  lemma EscapeCharVerbatim(c: char, q: char)
    requires ReprVerbatim(c) && c != q
    ensures EscapeChar(c, q) == [c]
  {
  }

  /** The two quotings `repr` chooses for text that needs no escapes. */
  lemma ReprQuoting(s: string)
    requires forall c :: c in s ==> ReprVerbatim(c)
    ensures '\'' !in s ==> Repr(s) == "'" + s + "'"
    ensures '\'' in s && '"' !in s ==> Repr(s) == "\"" + s + "\""
  {
    if '\'' !in s {
      EscapeAllVerbatim(s, '\'');
    } else if '"' !in s {
      EscapeAllVerbatim(s, '"');
    }
  }

  /** `str(e)`: the message, except that a KeyError shows the repr of its argument. */
  function ErrorText(e: Raised): string {
    match e
    case KeyError(m) => Repr(m)
    case ValueError(m) => m
    case FileNotFoundError(m) => m
    case TypeError(m) => m
    case AttributeError(m) => m
  }

  /** The dict `Tool.__call__` returns; `usage` is present only for a retrieval. */
  datatype Reply = Reply(success: bool, result: Json, usage: Option<Json>)

  /** The tool whose result carries the model's answer and its usage. */
  const RetrieveName := "retrieve_information"

  /** `v[key]` for a string key. */
  function Subscript(v: Json, key: string): Result<Json, Raised> {
    match v
    case JDict(fields) => if key in fields then Ok(fields[key]) else Err(KeyError(key))
    case JList(_) => Err(TypeError("list indices must be integers or slices, not str"))
    case JStr(_) => Err(TypeError("string indices must be integers, not 'str'"))
    case _ => Err(TypeError("'" + TypeName(v) + "' object is not subscriptable"))
  }

  /** The failure envelope for an exception. */
  function Failure(e: Raised): Reply {
    Reply(false, JStr(ErrorText(e)), None)
  }

  /**
   * `Tool.__call__` around the outcome of `call_tool`; `dumps` stands for `json.dumps`. The
   * retrieval tool's dict is unpacked, inside the same `try`; any other result is serialised.
   */
  function Envelope(name: string, outcome: Result<Json, Raised>, dumps: Json -> string): (r: Reply)
    ensures r.success <==> outcome.Ok? && (name == RetrieveName ==>
      outcome.value.JDict? && "retrieval" in outcome.value.fields && "usage" in outcome.value.fields)
  {
    match outcome
    case Err(e) => Failure(e)
    case Ok(v) =>
      if name == RetrieveName then
        match Subscript(v, "retrieval")
        case Err(e) => Failure(e)
        case Ok(text) =>
          match Subscript(v, "usage")
          case Err(e) => Failure(e)
          case Ok(u) => Reply(true, text, Some(u))
      else Reply(true, JStr(dumps(v)), None)
  }

  /**
   * Every exception becomes `{success: false, result: str(e)}`; any other tool's result is
   * serialised; a retrieval succeeds exactly when its dict has both keys, and passes them on.
   */
  lemma EnvelopeCases(name: string, outcome: Result<Json, Raised>, dumps: Json -> string)
    ensures var r := Envelope(name, outcome, dumps);
      && (outcome.Err? ==> r == Reply(false, JStr(ErrorText(outcome.error)), None))
      && (outcome.Ok? && name != RetrieveName ==> r == Reply(true, JStr(dumps(outcome.value)), None))
      && (outcome.Ok? && name == RetrieveName ==>
            (r.success <==> outcome.value.JDict? && "retrieval" in outcome.value.fields
                            && "usage" in outcome.value.fields))
      && (r.success && name == RetrieveName ==>
            r == Reply(true, outcome.value.fields["retrieval"], Some(outcome.value.fields["usage"])))
      && (!r.success ==> r.result.JStr? && r.usage.None?)
  {
  }

  // ---------------------------------------------------------------- scratch storage

  /** The `data_storage` dict: texts by key, with the keys in insertion order. */
  class DataStorage {
    var keys: seq<string>
    var data: map<string, string>

    /** The key list is the dict's key set, without repetition. */
    predicate Valid()
      reads this
    {
      && (forall i, j :: 0 <= i < j < |keys| ==> keys[i] != keys[j])
      && (forall k :: k in data ==> k in keys)
      && (forall i :: 0 <= i < |keys| ==> keys[i] in data)
    }

    /** An empty storage. */
    constructor()
      ensures keys == [] && data == map[] && Valid()
    {
      keys := [];
      data := map[];
    }

    /** `data_storage[key] = text`: a new key goes last, an existing one keeps its place. */
    method Put(key: string, text: string)
      requires Valid()
      modifies this
      ensures Valid()
      ensures data == old(data)[key := text]
      ensures keys == if key in old(data) then old(keys) else old(keys) + [key]
    {
      if key !in data {
        keys := keys + [key];
      }
      data := data[key := text];
    }
  }

  // ---------------------------------------------------------------- placeholders

  predicate IsBrace(c: char) { c == '{' || c == '}' }

  /** The length of the run of non-brace characters starting at `i`. */
  function NonBraceRun(s: string, i: nat): (n: nat)
    requires i <= |s|
    ensures i + n <= |s|
    decreases |s| - i
  {
    if i < |s| && !IsBrace(s[i]) then 1 + NonBraceRun(s, i + 1) else 0
  }

  /** The run has no brace and ends at a brace or at the end of the text. */
  lemma {:induction false} NonBraceRunFacts(s: string, i: nat)
    requires i <= |s|
    ensures var n := NonBraceRun(s, i);
      && (forall m :: i <= m < i + n ==> !IsBrace(s[m]))
      && (i + n == |s| || IsBrace(s[i + n]))
    decreases |s| - i
  {
    if i < |s| && !IsBrace(s[i]) {
      NonBraceRunFacts(s, i + 1);
    }
  }

  /**
   * The pattern `{{([^{}]+)}}` matches at `i`: two opening braces, a non-empty run without
   * braces (necessarily the whole run, as a shorter one is followed by a non-brace), two
   * closing braces.
   */
  predicate MatchAt(s: string, i: nat) {
    && i + 2 <= |s| && s[i] == '{' && s[i + 1] == '{'
    && var n := NonBraceRun(s, i + 2);
       n > 0 && i + n + 4 <= |s| && s[i + n + 2] == '}' && s[i + n + 3] == '}'
  }

  /** The pattern with its group of length `n` matches at `i`, read off the pattern itself. */
  predicate PatternAt(s: string, i: nat, n: nat) {
    && i + n + 4 <= |s| && n > 0
    && s[i] == '{' && s[i + 1] == '{'
    && (forall m :: i + 2 <= m < i + 2 + n ==> !IsBrace(s[m]))
    && s[i + n + 2] == '}' && s[i + n + 3] == '}'
  }

  /** At any position the pattern matches in at most one way, and `MatchAt` is that match. */
  lemma MatchAtIsPattern(s: string, i: nat)
    ensures MatchAt(s, i) <==> exists n :: PatternAt(s, i, n)
    ensures forall n :: PatternAt(s, i, n) ==> n == NonBraceRun(s, i + 2)
  {
    if i + 2 <= |s| {
      NonBraceRunFacts(s, i + 2);
    }
    if MatchAt(s, i) {
      assert PatternAt(s, i, NonBraceRun(s, i + 2));
    }
  }

  /** A piece of a prompt: a literal character, or a placeholder with its key. */
  datatype Piece = Lit(c: char) | Hole(key: string)

  /** The prompt from `i` on, cut into pieces as `re.findall`/`re.sub` walk it. */
  function Scan(s: string, i: nat): seq<Piece>
    requires i <= |s|
    decreases |s| - i
  {
    if i == |s| then []
    else if MatchAt(s, i) then
      var n := NonBraceRun(s, i + 2);
      [Hole(s[i + 2..i + 2 + n])] + Scan(s, i + n + 4)
    else [Lit(s[i])] + Scan(s, i + 1)
  }

  /** The keys of the placeholders, in order. */
  function HoleKeys(ps: seq<Piece>): (r: seq<string>)
    ensures forall k :: k in r <==> Hole(k) in ps
  {
    if ps == [] then []
    else if ps[0].Hole? then [ps[0].key] + HoleKeys(ps[1..])
    else HoleKeys(ps[1..])
  }

  /** `re.findall(r"{{([^{}]+)}}", prompt)`. */
  function Placeholders(s: string): seq<string> {
    HoleKeys(Scan(s, 0))
  }

  /** The text a piece stands for in the prompt. */
  function Unscan(ps: seq<Piece>): string {
    if ps == [] then []
    else (match ps[0] case Lit(c) => [c] case Hole(k) => "{{" + k + "}}") + Unscan(ps[1..])
  }

  lemma UnscanCons(p: Piece, ps: seq<Piece>)
    ensures Unscan([p] + ps) == Unscan([p]) + Unscan(ps)
  {
    assert ([p] + ps)[1..] == ps;
    assert [p][1..] == [];
  }

  /** Cutting into pieces loses nothing: the pieces spell the prompt again. */
  lemma {:induction false} ScanUnscan(s: string, i: nat)
    requires i <= |s|
    ensures Unscan(Scan(s, i)) == s[i..]
    decreases |s| - i
  {
    if i < |s| {
      if MatchAt(s, i) {
        ScanUnscan(s, i + NonBraceRun(s, i + 2) + 4);
        UnscanHoleStep(s, i);
      } else {
        ScanUnscan(s, i + 1);
        UnscanLitStep(s, i);
      }
    }
  }

  lemma UnscanHoleStep(s: string, i: nat)
    requires MatchAt(s, i)
    requires var n := NonBraceRun(s, i + 2); Unscan(Scan(s, i + n + 4)) == s[i + n + 4..]
    ensures Unscan(Scan(s, i)) == s[i..]
  {
    var n := NonBraceRun(s, i + 2);
    var k := s[i + 2..i + 2 + n];
    var rest := Scan(s, i + n + 4);
    ScanHoleHead(s, i);
    UnscanHole(k, rest);
    HoleText(s, i);
  }

  /** At a match the scan emits the placeholder and goes on after its closing braces. */
  lemma ScanHoleHead(s: string, i: nat)
    requires MatchAt(s, i)
    ensures var n := NonBraceRun(s, i + 2);
      Scan(s, i) == [Hole(s[i + 2..i + 2 + n])] + Scan(s, i + n + 4)
  {
  }

  lemma UnscanHole(k: string, ps: seq<Piece>)
    ensures Unscan([Hole(k)] + ps) == "{{" + k + "}}" + Unscan(ps)
  {
    assert ([Hole(k)] + ps)[1..] == ps;
  }

  lemma UnscanLitStep(s: string, i: nat)
    requires i < |s| && !MatchAt(s, i) && Unscan(Scan(s, i + 1)) == s[i + 1..]
    ensures Unscan(Scan(s, i)) == s[i..]
  {
    UnscanCons(Lit(s[i]), Scan(s, i + 1));
    assert s[i..] == [s[i]] + s[i + 1..];
  }

  /** The text of a match is its key between double braces. */
  lemma HoleText(s: string, i: nat)
    requires MatchAt(s, i)
    ensures var n := NonBraceRun(s, i + 2);
      s[i..] == "{{" + s[i + 2..i + 2 + n] + "}}" + s[i + n + 4..]
  {
    var n := NonBraceRun(s, i + 2);
    assert s[i..i + 2] == "{{";
    assert s[i + n + 2..i + n + 4] == "}}";
    assert s[i..] == s[i..i + 2] + s[i + 2..i + 2 + n] + s[i + n + 2..i + n + 4] + s[i + n + 4..];
  }

  /** The key of a match is a non-empty run of non-brace characters. */
  lemma MatchKey(s: string, i: nat)
    requires MatchAt(s, i)
    ensures var k := s[i + 2..i + 2 + NonBraceRun(s, i + 2)];
      |k| > 0 && forall c :: c in k ==> !IsBrace(c)
  {
    var n := NonBraceRun(s, i + 2);
    var k := s[i + 2..i + 2 + n];
    NonBraceRunFacts(s, i + 2);
    forall c | c in k ensures !IsBrace(c) {
      var m :| 0 <= m < |k| && k[m] == c;
      assert c == s[i + 2 + m];
    }
  }

  /** Every key is a non-empty run of non-brace characters of the prompt. */
  lemma {:induction false} ScanKeys(s: string, i: nat)
    requires i <= |s|
    ensures forall k :: Hole(k) in Scan(s, i) ==> |k| > 0 && forall c :: c in k ==> !IsBrace(c)
    decreases |s| - i
  {
    if i < |s| {
      if MatchAt(s, i) {
        var n := NonBraceRun(s, i + 2);
        ScanKeys(s, i + n + 4);
        MatchKey(s, i);
        assert Scan(s, i) == [Hole(s[i + 2..i + 2 + n])] + Scan(s, i + n + 4);
      } else {
        ScanKeys(s, i + 1);
        assert Scan(s, i) == [Lit(s[i])] + Scan(s, i + 1);
      }
    }
  }

  /** The scan finds no placeholder exactly when the pattern matches nowhere. */
  lemma {:induction false} NoHoleIffNoMatch(s: string, i: nat)
    requires i <= |s|
    ensures HoleKeys(Scan(s, i)) == [] <==> forall j :: i <= j < |s| ==> !MatchAt(s, j)
    decreases |s| - i
  {
    if i < |s| {
      if MatchAt(s, i) {
        HoleHeadKeys(s, i);
        assert i <= i < |s| && MatchAt(s, i);
      } else {
        NoHoleIffNoMatch(s, i + 1);
        LitHeadKeys(s, i);
        assert (forall j :: i <= j < |s| ==> !MatchAt(s, j)) <==> (forall j :: i + 1 <= j < |s| ==> !MatchAt(s, j));
      }
    }
  }

  /** A scan that starts at a match has a key. */
  lemma HoleHeadKeys(s: string, i: nat)
    requires MatchAt(s, i)
    ensures HoleKeys(Scan(s, i)) != []
  {
    var ps := Scan(s, i);
    assert ps[0] == Hole(s[i + 2..i + 2 + NonBraceRun(s, i + 2)]);
    assert HoleKeys(ps) == [ps[0].key] + HoleKeys(ps[1..]);
  }

  /** A scan that starts at a plain character has the keys of the rest. */
  lemma LitHeadKeys(s: string, i: nat)
    requires i < |s| && !MatchAt(s, i)
    ensures HoleKeys(Scan(s, i)) == HoleKeys(Scan(s, i + 1))
  {
    var ps := Scan(s, i);
    assert ps[0] == Lit(s[i]) && ps[1..] == Scan(s, i + 1);
  }

  /** `re.search` finds the pattern exactly when `re.findall` returns a key. */
  lemma SearchIffFindall(s: string)
    ensures Placeholders(s) == [] <==> forall j :: 0 <= j < |s| ==> !MatchAt(s, j)
  {
    NoHoleIffNoMatch(s, 0);
  }

  /** The pieces with every placeholder replaced by the text stored for its key. */
  function Substitute(ps: seq<Piece>, texts: map<string, string>): string
    requires forall k :: k in HoleKeys(ps) ==> k in texts
  {
    if ps == [] then []
    else
      assert forall k :: k in HoleKeys(ps[1..]) ==> k in HoleKeys(ps);
      (match ps[0] case Lit(c) => [c] case Hole(k) => texts[k]) + Substitute(ps[1..], texts)
  }

  /** Replacing every placeholder by its own `{{key}}` text gives the prompt back. */
  lemma {:induction false} SubstituteIdentity(ps: seq<Piece>, texts: map<string, string>)
    requires forall k :: k in HoleKeys(ps) ==> k in texts && texts[k] == "{{" + k + "}}"
    ensures Substitute(ps, texts) == Unscan(ps)
  {
    if ps != [] {
      assert forall k :: k in HoleKeys(ps[1..]) ==> k in HoleKeys(ps);
      SubstituteIdentity(ps[1..], texts);
    }
  }

  /** Two tables that agree on the placeholder keys give the same text. */
  lemma {:induction false} SubstituteAgrees(ps: seq<Piece>, t1: map<string, string>, t2: map<string, string>)
    requires forall k :: k in HoleKeys(ps) ==> k in t1 && k in t2 && t1[k] == t2[k]
    ensures Substitute(ps, t1) == Substitute(ps, t2)
  {
    if ps != [] {
      assert forall k :: k in HoleKeys(ps[1..]) ==> k in HoleKeys(ps);
      SubstituteAgrees(ps[1..], t1, t2);
    }
  }

  // ---------------------------------------------------------------- retrieve_information

  /** The exception for a placeholder key that is not in storage. */
  function MissingKey(key: string, storageKeys: seq<string>): Raised {
    KeyError("Key '" + key + "' not found in data storage. Available keys: " + Join(storageKeys, ", "))
  }

  /** The exception for a range that is neither empty nor a pair. */
  function BadRange(key: string): Raised {
    ValueError("Character range for key '" + key + "' must be two integers or empty list.")
  }

  /** The exception for a prompt without any placeholder. */
  const NoPlaceholder := ValueError("Prompt must include at least one key in the format {{key}}.")

  /** `re.search(pattern, None)`. */
  const NonePrompt := TypeError("expected string or bytes-like object, got 'NoneType'")

  /** The text filled in for one key: the stored text, or the requested slice of it. */
  function Resolve(key: string, storageKeys: seq<string>, data: map<string, string>,
                   ranges: map<string, seq<int>>): Result<string, Raised>
  {
    if key !in data then Err(MissingKey(key, storageKeys))
    else if key in ranges && |ranges[key]| != 0 then
      if |ranges[key]| != 2 then Err(BadRange(key))
      else Ok(PySlice(data[key], ranges[key][0], ranges[key][1]))
    else Ok(data[key])
  }

  function Resolver(storageKeys: seq<string>, data: map<string, string>, ranges: map<string, seq<int>>)
    : string -> Result<string, Raised>
  {
    (key: string) => Resolve(key, storageKeys, data, ranges)
  }

  /** `formatted_data` once the listed keys are done. */
  function Formatted(keys: seq<string>, storageKeys: seq<string>, data: map<string, string>,
                     ranges: map<string, seq<int>>): map<string, string>
  {
    map k | k in keys && Resolve(k, storageKeys, data, ranges).Ok? :: Resolve(k, storageKeys, data, ranges).value
  }

  /** When every key resolves, the table holds each key's text. */
  lemma FormattedHolds(keys: seq<string>, storageKeys: seq<string>, data: map<string, string>,
                       ranges: map<string, seq<int>>)
    requires Traverse(keys, Resolver(storageKeys, data, ranges)).Ok?
    ensures forall k :: k in keys ==>
      && Resolve(k, storageKeys, data, ranges).Ok?
      && k in Formatted(keys, storageKeys, data, ranges)
      && Formatted(keys, storageKeys, data, ranges)[k] == Resolve(k, storageKeys, data, ranges).value
  {
    TraversePerElement(keys, Resolver(storageKeys, data, ranges));
    forall k | k in keys
      ensures Resolve(k, storageKeys, data, ranges).Ok?
    {
      var i :| 0 <= i < |keys| && keys[i] == k;
      assert Resolver(storageKeys, data, ranges)(keys[i]).Ok?;
    }
  }

  /** The character-range argument as the tool reads it: `arguments.get(name, {}) or {}`. */
  function RangesOf(a: Arg<map<string, seq<int>>>): map<string, seq<int>> {
    if a.Given? then a.value else map[]
  }

  /**
   * The prompt `call_tool` sends to the model, or the exception it raises first. The
   * rewrite of each `{{key}}` to `{key}` followed by `str.format` is taken as the direct
   * substitution of the key's text.
   */
  function FormatPrompt(prompt: Arg<string>, rangesArg: Arg<map<string, seq<int>>>,
                        storageKeys: seq<string>, data: map<string, string>): (r: Result<string, Raised>)
    ensures !prompt.Given? ==> r == Err(NonePrompt)
    ensures prompt.Given? && Placeholders(prompt.value) == [] ==> r == Err(NoPlaceholder)
  {
    var ranges := RangesOf(rangesArg);
    if !prompt.Given? then Err(NonePrompt)
    else
      var keys := Placeholders(prompt.value);
      if keys == [] then Err(NoPlaceholder)
      else match Traverse(keys, Resolver(storageKeys, data, ranges))
        case Err(e) => Err(e)
        case Ok(_) =>
          FormattedHolds(keys, storageKeys, data, ranges);
          Ok(Substitute(Scan(prompt.value, 0), Formatted(keys, storageKeys, data, ranges)))
  }

  /** The dict `call_tool` returns: `model` stands for the LLM's answer, `usage` for its metadata. */
  function RetrieveResult(prompt: Arg<string>, rangesArg: Arg<map<string, seq<int>>>,
                          storageKeys: seq<string>, data: map<string, string>,
                          model: string -> string, usage: Json): Result<Json, Raised>
  {
    match FormatPrompt(prompt, rangesArg, storageKeys, data)
    case Err(e) => Err(e)
    case Ok(text) => Ok(JDict(map["retrieval" := JStr(model(text)), "usage" := usage]))
  }

  /** One more key examined by the retrieval loop: the table grows by that key alone. */
  lemma FormattedStep(keys: seq<string>, i: nat, storageKeys: seq<string>, data: map<string, string>,
                      ranges: map<string, seq<int>>)
    requires i < |keys| && Resolve(keys[i], storageKeys, data, ranges).Ok?
    ensures Formatted(keys[..i + 1], storageKeys, data, ranges)
      == Formatted(keys[..i], storageKeys, data, ranges)[keys[i] := Resolve(keys[i], storageKeys, data, ranges).value]
  {
    assert forall k :: k in keys[..i + 1] <==> k in keys[..i] || k == keys[i] by {
      assert keys[..i + 1] == keys[..i] + [keys[i]];
    }
  }

  /** `RetrieveInformation.call_tool`: the prompt checked, its keys filled in, the model asked. */
  method RetrieveInformation(prompt: Arg<string>, rangesArg: Arg<map<string, seq<int>>>,
                             storage: DataStorage, model: string -> string, usage: Json)
    returns (r: Result<Json, Raised>)
    ensures r == RetrieveResult(prompt, rangesArg, storage.keys, storage.data, model, usage)
  {
    var ranges := RangesOf(rangesArg);
    if !prompt.Given? {
      return Err(NonePrompt);
    }
    var text := prompt.value;
    var keys := Placeholders(text);
    if keys == [] {
      return Err(NoPlaceholder);
    }
    var table := FillTable(keys, storage, ranges);
    if table.Err? {
      return Err(table.error);
    }
    FilledFromTable(text, storage.keys, storage.data, ranges, table.value);
    var filled := Substitute(Scan(text, 0), table.value);
    r := Ok(JDict(map["retrieval" := JStr(model(filled)), "usage" := usage]));
  }

  /** The loop of `call_tool` filling `formatted_data` key by key; the first failure ends it. */
  method FillTable(keys: seq<string>, storage: DataStorage, ranges: map<string, seq<int>>)
    returns (r: Result<map<string, string>, Raised>)
    ensures var t := Traverse(keys, Resolver(storage.keys, storage.data, ranges));
      && (t.Err? ==> r == Err(t.error))
      && (t.Ok? ==> (&& r.Ok?
                     && (forall k :: k in r.value <==> k in keys)
                     && forall k :: k in r.value ==> Resolve(k, storage.keys, storage.data, ranges) == Ok(r.value[k])))
  {
    ghost var resolver := Resolver(storage.keys, storage.data, ranges);
    var formatted: map<string, string> := map[];
    ghost var done: seq<string> := [];
    for i := 0 to |keys|
      invariant Traverse(keys[..i], resolver) == Ok(done)
      invariant forall k :: k in formatted <==> k in keys[..i]
      invariant forall k :: k in formatted ==> Resolve(k, storage.keys, storage.data, ranges) == Ok(formatted[k])
    {
      var key := keys[i];
      TraverseStep(keys, i, resolver, done);
      assert resolver(key) == Resolve(key, storage.keys, storage.data, ranges);
      if key !in storage.data {
        TraverseErrSticks(keys, i + 1, resolver);
        return Err(MissingKey(key, storage.keys));
      }
      var doc := storage.data[key];
      var value := doc;
      if key in ranges {
        var charRange := ranges[key];
        if |charRange| == 0 {
          value := doc;
        } else if |charRange| != 2 {
          TraverseErrSticks(keys, i + 1, resolver);
          return Err(BadRange(key));
        } else {
          value := PySlice(doc, charRange[0], charRange[1]);
        }
      }
      PrefixGrows(keys, i);
      formatted := formatted[key := value];
      done := done + [value];
    }
    assert keys[..|keys|] == keys;
    return Ok(formatted);
  }

  /** The keys before `i + 1` are those before `i` and the key at `i`. */
  lemma PrefixGrows(keys: seq<string>, i: nat)
    requires i < |keys|
    ensures forall k :: k in keys[..i + 1] <==> k in keys[..i] || k == keys[i]
  {
    assert keys[..i + 1] == keys[..i] + [keys[i]];
  }

  /** A table the loop has filled for every key gives the prompt `FormatPrompt` describes. */
  lemma FilledFromTable(text: string, storageKeys: seq<string>, data: map<string, string>,
                        ranges: map<string, seq<int>>, table: map<string, string>)
    requires Traverse(Placeholders(text), Resolver(storageKeys, data, ranges)).Ok?
    requires forall k :: k in table <==> k in Placeholders(text)
    requires forall k :: k in table ==> Resolve(k, storageKeys, data, ranges) == Ok(table[k])
    ensures forall k :: k in HoleKeys(Scan(text, 0)) ==> k in table
    ensures forall k :: k in HoleKeys(Scan(text, 0)) ==> k in Formatted(Placeholders(text), storageKeys, data, ranges)
    ensures Substitute(Scan(text, 0), table)
      == Substitute(Scan(text, 0), Formatted(Placeholders(text), storageKeys, data, ranges))
  {
    var keys := Placeholders(text);
    FormattedHolds(keys, storageKeys, data, ranges);
    SubstituteAgrees(Scan(text, 0), table, Formatted(keys, storageKeys, data, ranges));
  }

  // ---------------------------------------------------------------- properties

  /** A prompt without a placeholder fails before storage and ranges are looked at. */
  lemma NoPlaceholderFirst(prompt: string, rangesArg: Arg<map<string, seq<int>>>,
                           storageKeys: seq<string>, data: map<string, string>)
    requires forall j :: 0 <= j < |prompt| ==> !MatchAt(prompt, j)
    ensures FormatPrompt(Given(prompt), rangesArg, storageKeys, data) == Err(NoPlaceholder)
  {
    SearchIffFindall(prompt);
  }

  /**
   * A filled prompt had every key in storage; a key missing from storage makes the call fail,
   * with the exception of the first key that fails.
   */
  lemma KeysChecked(prompt: string, rangesArg: Arg<map<string, seq<int>>>,
                    storageKeys: seq<string>, data: map<string, string>)
    requires Placeholders(prompt) != []
    ensures var keys := Placeholders(prompt);
      var ranges := RangesOf(rangesArg);
      var r := FormatPrompt(Given(prompt), rangesArg, storageKeys, data);
      && (r.Ok? ==> forall k :: k in keys ==> k in data)
      && ((exists k :: k in keys && k !in data) ==> r.Err?)
      && (r.Err? ==> exists j :: (&& 0 <= j < |keys|
                                  && Resolve(keys[j], storageKeys, data, ranges).Err?
                                  && r.error == Resolve(keys[j], storageKeys, data, ranges).error
                                  && forall i :: 0 <= i < j ==> Resolve(keys[i], storageKeys, data, ranges).Ok?))
  {
    var keys := Placeholders(prompt);
    var ranges := RangesOf(rangesArg);
    var f := Resolver(storageKeys, data, ranges);
    FormatPromptTraverses(prompt, rangesArg, storageKeys, data);
    TraversePerElement(keys, f);
    assert forall i :: 0 <= i < |keys| ==> f(keys[i]) == Resolve(keys[i], storageKeys, data, ranges);
    if exists k :: k in keys && k !in data {
      var k :| k in keys && k !in data;
      var i :| 0 <= i < |keys| && keys[i] == k;
      assert f(keys[i]).Err?;
    }
  }

  /** With a placeholder in the prompt, formatting fails exactly as resolving the keys does. */
  lemma FormatPromptTraverses(prompt: string, rangesArg: Arg<map<string, seq<int>>>,
                              storageKeys: seq<string>, data: map<string, string>)
    requires Placeholders(prompt) != []
    ensures var t := Traverse(Placeholders(prompt), Resolver(storageKeys, data, RangesOf(rangesArg)));
      var r := FormatPrompt(Given(prompt), rangesArg, storageKeys, data);
      (r.Ok? <==> t.Ok?) && (r.Err? ==> r.error == t.error)
  {
  }

  /**
   * A key without a range, or with an empty one, gets its whole text; a pair `[a, b]` the
   * slice `text[a:b]` (the plain slice for bounds inside the text); any other length fails.
   */
  lemma RangeCases(key: string, storageKeys: seq<string>, data: map<string, string>,
                   ranges: map<string, seq<int>>)
    requires key in data
    ensures var r := Resolve(key, storageKeys, data, ranges);
      && (key !in ranges || ranges[key] == [] ==> r == Ok(data[key]))
      && (key in ranges && |ranges[key]| == 2 ==> r == Ok(PySlice(data[key], ranges[key][0], ranges[key][1])))
      && ((key in ranges && |ranges[key]| == 2 && 0 <= ranges[key][0] <= ranges[key][1] <= |data[key]|)
          ==> r == Ok(data[key][ranges[key][0]..ranges[key][1]]))
      && (key in ranges && |ranges[key]| != 0 && |ranges[key]| != 2 ==> r == Err(BadRange(key)))
  {
    if key in ranges && |ranges[key]| == 2 {
      PySliceFacts(data[key], ranges[key][0], ranges[key][1]);
    }
  }

  /** Ranges given for keys that the prompt does not use change nothing. */
  lemma OtherRangesIgnored(prompt: string, r1: map<string, seq<int>>, r2: map<string, seq<int>>,
                           storageKeys: seq<string>, data: map<string, string>)
    requires forall k :: k in Placeholders(prompt) ==> (k in r1 <==> k in r2) && (k in r1 ==> r1[k] == r2[k])
    ensures FormatPrompt(Given(prompt), Given(r1), storageKeys, data)
         == FormatPrompt(Given(prompt), Given(r2), storageKeys, data)
  {
    var keys := Placeholders(prompt);
    var f1 := Resolver(storageKeys, data, r1);
    var f2 := Resolver(storageKeys, data, r2);
    assert forall i :: 0 <= i < |keys| ==> f1(keys[i]) == f2(keys[i]) by {
      forall i | 0 <= i < |keys| ensures f1(keys[i]) == f2(keys[i]) {
        assert keys[i] in keys;
      }
    }
    TraverseAgrees(keys, f1, f2);
    if keys != [] && Traverse(keys, f1).Ok? {
      FormattedHolds(keys, storageKeys, data, r1);
      FormattedHolds(keys, storageKeys, data, r2);
      SubstituteAgrees(Scan(prompt, 0), Formatted(keys, storageKeys, data, r1), Formatted(keys, storageKeys, data, r2));
    }
  }

  /** Two functions that agree on every element walk a sequence alike. */
  lemma {:induction false} TraverseAgrees<A, B, E>(xs: seq<A>, f: A -> Result<B, E>, g: A -> Result<B, E>)
    requires forall i :: 0 <= i < |xs| ==> f(xs[i]) == g(xs[i])
    ensures Traverse(xs, f) == Traverse(xs, g)
    decreases |xs|
  {
    if xs != [] {
      TraverseAgrees(xs[..|xs| - 1], f, g);
    }
  }

  /**
   * A filled prompt is the original one with each placeholder replaced by its key's text;
   * where each text is the placeholder itself the prompt comes back unchanged.
   */
  lemma FilledPrompt(prompt: string, rangesArg: Arg<map<string, seq<int>>>,
                     storageKeys: seq<string>, data: map<string, string>)
    requires FormatPrompt(Given(prompt), rangesArg, storageKeys, data).Ok?
    ensures var ranges := RangesOf(rangesArg);
      var keys := Placeholders(prompt);
      && Unscan(Scan(prompt, 0)) == prompt
      && (forall k :: k in keys ==> Resolve(k, storageKeys, data, ranges).Ok?)
      && FormatPrompt(Given(prompt), rangesArg, storageKeys, data).value
         == Substitute(Scan(prompt, 0), Formatted(keys, storageKeys, data, ranges))
      && ((forall k :: k in keys ==> Resolve(k, storageKeys, data, ranges) == Ok("{{" + k + "}}"))
          ==> FormatPrompt(Given(prompt), rangesArg, storageKeys, data).value == prompt)
  {
    var ranges := RangesOf(rangesArg);
    var keys := Placeholders(prompt);
    ScanUnscan(prompt, 0);
    FormattedHolds(keys, storageKeys, data, ranges);
    if forall k :: k in keys ==> Resolve(k, storageKeys, data, ranges) == Ok("{{" + k + "}}") {
      SubstituteIdentity(Scan(prompt, 0), Formatted(keys, storageKeys, data, ranges));
    }
  }

  /**
   * Through the envelope a retrieval answers with the model's text and usage, and a failure
   * with the exception's text.
   */
  lemma RetrieveEnvelope(prompt: Arg<string>, rangesArg: Arg<map<string, seq<int>>>,
                         storageKeys: seq<string>, data: map<string, string>,
                         model: string -> string, usage: Json, dumps: Json -> string)
    ensures var f := FormatPrompt(prompt, rangesArg, storageKeys, data);
      var r := Envelope(RetrieveName, RetrieveResult(prompt, rangesArg, storageKeys, data, model, usage), dumps);
      && (f.Ok? ==> r == Reply(true, JStr(model(f.value)), Some(usage)))
      && (f.Err? ==> r == Reply(false, JStr(ErrorText(f.error)), None))
  {
  }

  /** A text `repr` puts in double quotes unchanged, once it holds a single quote. */
  predicate Quotable(s: string) {
    forall i :: 0 <= i < |s| ==> ReprVerbatim(s[i]) && s[i] != '"'
  }

  /**
   * A missing key is reported in double quotes: its message holds single quotes, which makes
   * `repr` switch quotes.
   */
  lemma MissingKeyText(key: string, storageKeys: seq<string>)
    requires Quotable(MissingKey(key, storageKeys).message)
    ensures ErrorText(MissingKey(key, storageKeys)) == "\"" + MissingKey(key, storageKeys).message + "\""
  {
    var m := MissingKey(key, storageKeys).message;
    assert m[4] == '\'';
    assert forall c :: c in m ==> ReprVerbatim(c) && c != '"' by {
      forall c | c in m ensures ReprVerbatim(c) && c != '"' {
        var i :| 0 <= i < |m| && m[i] == c;
      }
    }
    ReprQuoting(m);
  }
}
