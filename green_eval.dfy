/**
 * The green agent's evaluation driver: it reads the run configuration, sends every dataset
 * question to each participant agent, extracts the answer text from the reply, scores it
 * against the rubric, checks its citations, summarises each participant and names a winner.
 */
module GreenEval {
  import opened Wrappers
  import opened Strings
  import opened Json
  import opened CacheManifest
  import Rubric
  import CitationValidator
  import ToolsBase
  import UnitNormalizer

  // ---------------------------------------------------------------- configuration

  /** The upper bound, and the default, of `max_questions`. */
  const DefaultMaxQuestions := 50

  /** `_get_config_value`: the value under the first listed key present, else the default. */
  function GetConfigValue(config: map<string, Json>, keys: seq<string>, default: Json): Json
    decreases |keys|
  {
    if keys == [] then default
    else if keys[0] in config then config[keys[0]]
    else GetConfigValue(config, keys[1..], default)
  }

  /**
   * The value is the one under the first key present (presence, not truthiness, decides),
   * and the default when no key is present.
   */
  lemma {:induction false} GetConfigValueFirst(config: map<string, Json>, keys: seq<string>, default: Json)
    ensures forall k :: 0 <= k < |keys| && keys[k] in config && (forall j :: 0 <= j < k ==> keys[j] !in config)
                        ==> GetConfigValue(config, keys, default) == config[keys[k]]
    ensures (forall j :: 0 <= j < |keys| ==> keys[j] !in config) ==> GetConfigValue(config, keys, default) == default
    decreases |keys|
  {
    if keys != [] && keys[0] !in config {
      GetConfigValueFirst(config, keys[1..], default);
      forall k | 0 <= k < |keys| && keys[k] in config && (forall j :: 0 <= j < k ==> keys[j] !in config)
        ensures GetConfigValue(config, keys, default) == config[keys[k]]
      {
        assert k > 0;
        assert keys[1..][k - 1] == keys[k];
        assert forall j :: 0 <= j < k - 1 ==> keys[1..][j] == keys[j + 1];
      }
      assert forall j :: 0 <= j < |keys| - 1 ==> keys[1..][j] == keys[j + 1];
    }
  }

  /**
   * The library conversions the configuration goes through: `int(s)` and `float(s)` of a
   * string (`None` when the text is not a number), `str(v)` of a list or dict,
   * `os.path.abspath`, and the absolute path of the packaged `public.csv`.
   */
  datatype Conversions = Conversions(
    parseInt: string -> Option<int>, parseFloat: string -> Option<real>,
    render: Json -> string, absPath: string -> string, defaultDataset: string)

  /** `int(v)`. */
  function PyInt(v: Json, conv: Conversions): Result<int, Raised> {
    match v
    case JInt(i) => Ok(i)
    case JBool(b) => Ok(if b then 1 else 0)
    case JStr(s) =>
      if conv.parseInt(s).Some? then Ok(conv.parseInt(s).value)
      else Err(ValueError("invalid literal for int() with base 10: " + ToolsBase.Repr(s)))
    case _ => Err(TypeError("int() argument must be a string, a bytes-like object or a real number, not '"
                            + TypeName(v) + "'"))
  }

  /** `float(v)`. */
  function PyFloat(v: Json, conv: Conversions): Result<real, Raised> {
    match v
    case JInt(i) => Ok(i as real)
    case JBool(b) => Ok(if b then 1.0 else 0.0)
    case JStr(s) =>
      if conv.parseFloat(s).Some? then Ok(conv.parseFloat(s).value)
      else Err(ValueError("could not convert string to float: " + ToolsBase.Repr(s)))
    case _ => Err(TypeError("float() argument must be a string or a real number, not '" + TypeName(v) + "'"))
  }

  /** `str(v)`. */
  function PyStr(v: Json, conv: Conversions): string {
    Str(v, conv.render)
  }

  /** The error `os.fspath` raises inside `os.path.abspath` for a value that is not a path. */
  function NotAPath(v: Json): Raised {
    TypeError("expected str, bytes or os.PathLike object, not " + TypeName(v))
  }

  /**
   * `_resolve_dataset_path`: a truthy configured path made absolute, else the packaged file;
   * any truthy value other than a string fails in `os.path.abspath`.
   */
  function DatasetPath(config: map<string, Json>, conv: Conversions): (r: Result<string, Raised>)
    ensures var candidate := GetConfigValue(config, ["datasetPath", "dataset_path"], JNull);
      && (r.Err? <==> Truthy(candidate) && !candidate.JStr?)
      && (r.Err? ==> r.error == NotAPath(candidate) && r.error.TypeError?)
      && (!Truthy(candidate) ==> r == Ok(conv.defaultDataset))
      && (candidate.JStr? && candidate.s != "" ==> r == Ok(conv.absPath(candidate.s)))
  {
    var candidate := GetConfigValue(config, ["datasetPath", "dataset_path"], JNull);
    if !Truthy(candidate) then Ok(conv.defaultDataset)
    else if candidate.JStr? then Ok(conv.absPath(candidate.s))
    else Err(NotAPath(candidate))
  }

  /** An integer dataset path raises `os.fspath`'s TypeError, which names the type unquoted. */
  lemma IntDatasetPathRaises(conv: Conversions)
    ensures DatasetPath(map["dataset_path" := JInt(5)], conv)
      == Err(TypeError("expected str, bytes or os.PathLike object, not int"))
  {
    assert GetConfigValue(map["dataset_path" := JInt(5)], ["datasetPath", "dataset_path"], JNull) == JInt(5);
    assert "expected str, bytes or os.PathLike object, not " + "int"
      == "expected str, bytes or os.PathLike object, not int";
  }

  /** `max(1, min(n, DEFAULT_MAX_QUESTIONS))`. */
  function Clamp(n: int): (r: int)
    ensures 1 <= r <= DefaultMaxQuestions
    ensures 1 <= n <= DefaultMaxQuestions ==> r == n
  {
    if n < 1 then 1 else if n > DefaultMaxQuestions then DefaultMaxQuestions else n
  }

  datatype EvalConfig = EvalConfig(
    allowNetwork: bool, maxQuestions: int, seed: int, datasetPath: string,
    timeoutSeconds: real, participantRole: string)

  /** `parse_eval_config`, raising the first conversion error in the order the fields are read. */
  function ParseEvalConfig(config: map<string, Json>, conv: Conversions): (r: Result<EvalConfig, Raised>)
    ensures r.Ok? ==> 1 <= r.value.maxQuestions <= DefaultMaxQuestions
  {
    var allowNetwork := Truthy(GetConfigValue(config, ["allowNetwork", "allow_network"], JBool(false)));
    match PyInt(GetConfigValue(config, ["maxQuestions", "max_questions"], JInt(DefaultMaxQuestions)), conv)
    case Err(e) => Err(e)
    case Ok(maxQuestions) =>
      match PyInt(GetConfigValue(config, ["seed"], JInt(42)), conv)
      case Err(e) => Err(e)
      case Ok(seed) =>
        match PyFloat(GetConfigValue(config, ["timeoutSeconds", "timeout_seconds"], JInt(120)), conv)
        case Err(e) => Err(e)
        case Ok(timeout) =>
          var role := PyStr(GetConfigValue(config, ["participantRole", "participant_role"], JStr("participant")), conv);
          match DatasetPath(config, conv)
          case Err(e) => Err(e)
          case Ok(path) => Ok(EvalConfig(allowNetwork, Clamp(maxQuestions), seed, path, timeout, role))
  }

  /** An empty configuration gives the defaults: no network, 50 questions, seed 42, 120 seconds. */
  lemma ConfigDefaults(conv: Conversions)
    ensures var c := ParseEvalConfig(map[], conv);
      && c.Ok? && !c.value.allowNetwork && c.value.maxQuestions == DefaultMaxQuestions
      && c.value.seed == 42 && c.value.timeoutSeconds == 120.0
      && c.value.participantRole == "participant" && c.value.datasetPath == conv.defaultDataset
  {
  }

  /** `max_questions` always lies in [1, 50], and a value in that range is kept. */
  lemma QuestionsClamped(config: map<string, Json>, conv: Conversions)
    requires ParseEvalConfig(config, conv).Ok?
    ensures var c := ParseEvalConfig(config, conv).value;
      var asked := PyInt(GetConfigValue(config, ["maxQuestions", "max_questions"], JInt(DefaultMaxQuestions)), conv);
      && 1 <= c.maxQuestions <= DefaultMaxQuestions
      && asked.Ok?
      && (1 <= asked.value <= DefaultMaxQuestions ==> c.maxQuestions == asked.value)
      && (asked.value < 1 ==> c.maxQuestions == 1)
      && (asked.value > DefaultMaxQuestions ==> c.maxQuestions == DefaultMaxQuestions)
  {
  }

  /**
   * The camel-case key wins over the snake-case one, by presence: a present but false
   * `allowNetwork` keeps the network off whatever `allow_network` says.
   */
  lemma CamelKeyWins(config: map<string, Json>, conv: Conversions)
    requires "allowNetwork" in config && !Truthy(config["allowNetwork"])
    requires ParseEvalConfig(config, conv).Ok?
    ensures !ParseEvalConfig(config, conv).value.allowNetwork
  {
  }

  /** A `seed` that `int` cannot read stops the parse with that error. */
  lemma BadSeedRaises(config: map<string, Json>, conv: Conversions)
    requires "seed" in config && PyInt(config["seed"], conv).Err?
    requires PyInt(GetConfigValue(config, ["maxQuestions", "max_questions"], JInt(DefaultMaxQuestions)), conv).Ok?
    ensures ParseEvalConfig(config, conv) == Err(PyInt(config["seed"], conv).error)
  {
  }

  // ---------------------------------------------------------------- reply text

  /**
   * The chunk one part contributes: its string `text`, else the JSON text of its dict `data`
   * (the inner `data` field when there is one); nothing for any other part. `dumps` stands for
   * `json.dumps(..., ensure_ascii=False)`, which cannot fail on a decoded JSON value.
   */
  function PartChunk(part: Json, dumps: Json -> string): Option<string> {
    if !part.JDict? then None
    else if "text" in part.fields && part.fields["text"].JStr? then Some(part.fields["text"].s)
    else if "data" in part.fields && part.fields["data"].JDict? then
      var data := part.fields["data"];
      Some(dumps(if "data" in data.fields then data.fields["data"] else data))
    else None
  }

  /** The chunks of the parts, in order. */
  function PartChunks(parts: seq<Json>, dumps: Json -> string): (r: seq<string>)
    ensures |r| <= |parts|
    decreases |parts|
  {
    if parts == [] then []
    else
      var c := PartChunk(parts[|parts| - 1], dumps);
      PartChunks(parts[..|parts| - 1], dumps) + (if c.Some? then [c.value] else [])
  }

  /** `"\n".join(chunk for chunk in chunks if chunk).strip()`. */
  function JoinText(chunks: seq<string>): string {
    Strip(Join(Filter(chunks, (c: string) => c != ""), "\n"))
  }

  /** What `merge_parts` returns for a list of parts. */
  function MergeText(parts: seq<Json>, dumps: Json -> string): string {
    JoinText(PartChunks(parts, dumps))
  }

  /** `merge_parts`, with its loop collecting the chunks. */
  method MergeParts(parts: seq<Json>, dumps: Json -> string) returns (r: string)
    ensures r == MergeText(parts, dumps)
  {
    var chunks: seq<string> := [];
    for i := 0 to |parts|
      invariant chunks == PartChunks(parts[..i], dumps)
    {
      assert parts[..i + 1][..i] == parts[..i];
      var part := parts[i];
      if !part.JDict? {
        continue;
      }
      if "text" in part.fields && part.fields["text"].JStr? {
        chunks := chunks + [part.fields["text"].s];
        continue;
      }
      if "data" in part.fields && part.fields["data"].JDict? {
        var data := part.fields["data"];
        var payload := if "data" in data.fields then data.fields["data"] else data;
        chunks := chunks + [dumps(payload)];
      }
    }
    assert parts[..|parts|] == parts;
    r := JoinText(chunks);
  }

  /**
   * `merge_parts` of any value: a list merges its parts; iterating a string or a dict yields
   * no dict, so no chunk; anything else cannot be iterated.
   */
  function MergeAny(v: Json, dumps: Json -> string): Result<string, Raised> {
    match v
    case JList(items) => Ok(MergeText(items, dumps))
    case JStr(_) => Ok("")
    case JDict(_) => Ok("")
    case _ => Err(NotIterable(v))
  }

  /** `extract_text_from_message`: the `content` parts unless that is `None`, else `parts`. */
  function MessageText(message: Json, dumps: Json -> string): Result<string, Raised> {
    if !message.JDict? then Ok("")
    else
      var content := GetOrNull(message, "content");
      var parts := if content == JNull then GetOrNull(message, "parts") else content;
      MergeAny(Or(parts, JList([])), dumps)
  }

  /** The status message's text, when the task's status has a dict message. */
  function StatusChunks(task: Json, dumps: Json -> string): Result<seq<string>, Raised>
    requires task.JDict?
  {
    var status := if "status" in task.fields then task.fields["status"] else JDict(map[]);
    if !status.JDict? then Err(NoAttribute(status, "get"))
    else
      var message := GetOrNull(status, "message");
      if !message.JDict? then Ok([])
      else match MessageText(message, dumps)
        case Err(e) => Err(e)
        case Ok(t) => Ok([t])
  }

  /** The values `task.get("artifacts", []) or []` iterates over that can be dicts. */
  function Artifacts(task: Json): Result<seq<Json>, Raised>
    requires task.JDict?
  {
    var artifacts := Or(if "artifacts" in task.fields then task.fields["artifacts"] else JList([]), JList([]));
    match artifacts
    case JList(items) => Ok(items)
    case JStr(_) => Ok([])
    case JDict(_) => Ok([])
    case _ => Err(NotIterable(artifacts))
  }

  /** The chunk of one artifact: the merged text of its `parts` when it is a dict. */
  function ArtifactChunks(dumps: Json -> string): Json -> Result<seq<string>, Raised> {
    (a: Json) =>
      if !a.JDict? then Ok([])
      else match MergeAny(if "parts" in a.fields then a.fields["parts"] else JList([]), dumps)
        case Err(e) => Err(e)
        case Ok(t) => Ok([t])
  }

  /** The artifacts' chunks, flattened, or the first artifact's error. */
  function ArtifactTexts(artifacts: seq<Json>, dumps: Json -> string): Result<seq<string>, Raised> {
    match Traverse(artifacts, ArtifactChunks(dumps))
    case Err(e) => Err(e)
    case Ok(rest) => Ok(Flatten(rest))
  }

  /** What `extract_text_from_task` returns or raises. */
  function TaskText(task: Json, dumps: Json -> string): Result<string, Raised> {
    if !task.JDict? then Ok("")
    else match StatusChunks(task, dumps)
      case Err(e) => Err(e)
      case Ok(first) =>
        match Artifacts(task)
        case Err(e) => Err(e)
        case Ok(artifacts) =>
          match ArtifactTexts(artifacts, dumps)
          case Err(e) => Err(e)
          case Ok(rest) => Ok(JoinText(first + rest))
  }

  /** The loop of `extract_text_from_task` over the artifacts, appending their texts. */
  method CollectArtifacts(items: seq<Json>, dumps: Json -> string) returns (r: Result<seq<string>, Raised>)
    ensures r == ArtifactTexts(items, dumps)
  {
    var chunks: seq<string> := [];
    ghost var parts: seq<seq<string>> := [];
    for i := 0 to |items|
      invariant Traverse(items[..i], ArtifactChunks(dumps)) == Ok(parts)
      invariant chunks == Flatten(parts)
    {
      var artifact := items[i];
      TraverseStep(items, i, ArtifactChunks(dumps), parts);
      if artifact.JDict? {
        var text := MergeAny(if "parts" in artifact.fields then artifact.fields["parts"] else JList([]), dumps);
        if text.Err? {
          TraverseErrSticks(items, i + 1, ArtifactChunks(dumps));
          return Err(text.error);
        }
        chunks := chunks + [text.value];
        parts := parts + [[text.value]];
      } else {
        parts := parts + [[]];
      }
    }
    assert items[..|items|] == items;
    return Ok(chunks);
  }

  /** `extract_text_from_task`: the status message first, then the artifacts in order. */
  method ExtractTextFromTask(task: Json, dumps: Json -> string) returns (r: Result<string, Raised>)
    ensures r == TaskText(task, dumps)
  {
    if !task.JDict? {
      return Ok("");
    }
    var first := StatusChunks(task, dumps);
    if first.Err? {
      return Err(first.error);
    }
    var artifacts := Artifacts(task);
    if artifacts.Err? {
      return Err(artifacts.error);
    }
    var rest := CollectArtifacts(artifacts.value, dumps);
    if rest.Err? {
      return Err(rest.error);
    }
    return Ok(JoinText(first.value + rest.value));
  }

  /** The chunks of a concatenation are the chunks of both halves. */
  lemma {:induction false} PartChunksAppend(xs: seq<Json>, ys: seq<Json>, dumps: Json -> string)
    ensures PartChunks(xs + ys, dumps) == PartChunks(xs, dumps) + PartChunks(ys, dumps)
    decreases |ys|
  {
    if ys == [] {
      assert xs + ys == xs;
    } else {
      var init := ys[..|ys| - 1];
      PartChunksAppend(xs, init, dumps);
      assert (xs + ys)[..|xs + ys| - 1] == xs + init;
      assert (xs + ys)[|xs + ys| - 1] == ys[|ys| - 1];
    }
  }

  /**
   * Parts that are not dicts contribute nothing: dropping them leaves the merged text as it
   * is; every chunk comes from a dict part.
   */
  lemma {:induction false} NonDictPartsSkipped(parts: seq<Json>, dumps: Json -> string)
    ensures PartChunks(parts, dumps) == PartChunks(Filter(parts, (p: Json) => p.JDict?), dumps)
    ensures MergeText(parts, dumps) == MergeText(Filter(parts, (p: Json) => p.JDict?), dumps)
    decreases |parts|
  {
    var isDict := (p: Json) => p.JDict?;
    if parts != [] {
      var init := parts[..|parts| - 1];
      var last := parts[|parts| - 1];
      NonDictPartsSkipped(init, dumps);
      assert init + [last] == parts;
      FilterAppend(init, [last], isDict);
      PartChunksAppend(Filter(init, isDict), Filter([last], isDict), dumps);
      if last.JDict? {
        assert Filter([last], isDict) == [last];
        assert PartChunks([last], dumps) == PartChunks([], dumps) + (if PartChunk(last, dumps).Some? then [PartChunk(last, dumps).value] else []);
      } else {
        assert Filter([last], isDict) == [];
        assert Filter(init, isDict) + [] == Filter(init, isDict);
      }
    }
  }

  /**
   * A part's chunk: a string `text` wins over `data`; otherwise a dict `data` gives the JSON
   * text of its inner `data` field when present, else of the whole `data` dict.
   */
  lemma PartChunkCases(part: Json, dumps: Json -> string)
    requires part.JDict?
    ensures "text" in part.fields && part.fields["text"].JStr? ==>
      PartChunk(part, dumps) == Some(part.fields["text"].s)
    ensures !("text" in part.fields && part.fields["text"].JStr?) && "data" in part.fields
            && part.fields["data"].JDict? ==>
      var data := part.fields["data"];
      && ("data" in data.fields ==> PartChunk(part, dumps) == Some(dumps(data.fields["data"])))
      && ("data" !in data.fields ==> PartChunk(part, dumps) == Some(dumps(data)))
    ensures (!("text" in part.fields && part.fields["text"].JStr?)
             && !("data" in part.fields && part.fields["data"].JDict?)) ==> PartChunk(part, dumps).None?
  {
  }

  /** Joining drops the empty chunks: their presence does not change the text. */
  lemma EmptyChunksDropped(xs: seq<string>, ys: seq<string>)
    ensures JoinText(xs + [""] + ys) == JoinText(xs + ys)
  {
    var nonEmpty := (c: string) => c != "";
    FilterAppend(xs + [""], ys, nonEmpty);
    FilterAppend(xs, [""], nonEmpty);
    FilterAppend(xs, ys, nonEmpty);
    assert Filter([""], nonEmpty) == [];
    assert Filter(xs, nonEmpty) + [] == Filter(xs, nonEmpty);
  }

  /** A message's text is read from `content`, and from `parts` only when `content` is missing or null. */
  lemma ContentBeforeParts(message: Json, dumps: Json -> string)
    requires message.JDict?
    ensures "content" in message.fields && message.fields["content"] != JNull ==>
      MessageText(message, dumps) == MergeAny(Or(message.fields["content"], JList([])), dumps)
    ensures !("content" in message.fields && message.fields["content"] != JNull) ==>
      MessageText(message, dumps) == MergeAny(Or(GetOrNull(message, "parts"), JList([])), dumps)
  {
  }

  /** The merged text has no whitespace at either end. */
  lemma MergedTextStripped(chunks: seq<string>)
    ensures var t := JoinText(chunks); |t| > 0 ==> !IsSpace(t[0]) && !IsSpace(t[|t| - 1])
  {
    StripFacts(Join(Filter(chunks, (c: string) => c != ""), "\n"));
  }

  /**
   * A task with a dict status message and no artifacts reads as that message's text; the
   * status text comes first, before the artifacts' texts.
   */
  lemma StatusOnlyTask(task: Json, dumps: Json -> string)
    requires task.JDict? && "artifacts" !in task.fields
    requires "status" in task.fields && task.fields["status"].JDict?
    requires GetOrNull(task.fields["status"], "message").JDict?
    ensures TaskText(task, dumps) == MessageText(GetOrNull(task.fields["status"], "message"), dumps)
  {
    var message := GetOrNull(task.fields["status"], "message");
    var m := MessageText(message, dumps);
    if m.Ok? {
      var t := m.value;
      assert Flatten<string>([]) == [];
      assert [t] + [] == [t];
      var nonEmpty := (c: string) => c != "";
      if t == "" {
        assert Filter([t], nonEmpty) == [];
      } else {
        assert Filter([t], nonEmpty) == [t];
        assert t == Strip(t) by {
          if message.JDict? {
            var content := GetOrNull(message, "content");
            var parts := if content == JNull then GetOrNull(message, "parts") else content;
            var v := Or(parts, JList([]));
            if v.JList? {
              StripIdempotent(Join(Filter(PartChunks(v.items, dumps), nonEmpty), "\n"));
            }
          }
        }
      }
    }
  }

  /** A value that is not a dict has no text, as a message and as a task. */
  lemma NonDictHasNoText(v: Json, dumps: Json -> string)
    requires !v.JDict?
    ensures MessageText(v, dumps) == Ok("") && TaskText(v, dumps) == Ok("")
  {
  }

  // ---------------------------------------------------------------- one reply

  /** `ParticipantAnswer`: the reply's text, its raw body, the conversation id, and the transport error. */
  datatype ParticipantAnswer = ParticipantAnswer(text: string, raw: Option<Json>, contextId: Json, error: Option<string>)

  /**
   * The text and context id of a reply envelope, by the first shape it has: a dict `message`,
   * a dict `task`, a bare message (`kind` "message"), a bare task (`kind` "task"); none matching
   * gives no text and no context id.
   */
  function Dispatch(envelope: Json, dumps: Json -> string): (r: Result<(string, Json), Raised>)
    ensures !envelope.JDict? ==> r == Ok(("", JNull))
    ensures r.Err? ==> envelope.JDict?
  {
    if !envelope.JDict? then Ok(("", JNull))
    else
      var f := envelope.fields;
      if "message" in f && f["message"].JDict? then
        match MessageText(f["message"], dumps)
        case Err(e) => Err(e)
        case Ok(t) => Ok((t, GetOrNull(f["message"], "contextId")))
      else if "task" in f && f["task"].JDict? then
        match TaskText(f["task"], dumps)
        case Err(e) => Err(e)
        case Ok(t) => Ok((t, GetOrNull(f["task"], "contextId")))
      else if Get(envelope, "kind") == Some(JStr("message")) then
        match MergeAny(Or(Or(GetOrNull(envelope, "parts"), GetOrNull(envelope, "content")), JList([])), dumps)
        case Err(e) => Err(e)
        case Ok(t) => Ok((t, GetOrNull(envelope, "contextId")))
      else if Get(envelope, "kind") == Some(JStr("task")) then
        match TaskText(envelope, dumps)
        case Err(e) => Err(e)
        case Ok(t) => Ok((t, GetOrNull(envelope, "contextId")))
      else Ok(("", JNull))
  }

  /** The envelope of a decoded reply body: its dict `result`, else the body itself. */
  function Envelope(data: Json): (r: Json)
    ensures r == data || (data.JDict? && r.JDict? && Get(data, "result") == Some(r))
  {
    var result := if data.JDict? then GetOrNull(data, "result") else JNull;
    if result.JDict? then result else data
  }

  /**
   * What `send_message` returns for the transport's outcome, which is the decoded reply body,
   * or the text of the exception the request raised.
   */
  function Answer(outcome: Result<Json, string>, contextId: string, dumps: Json -> string)
    : (r: Result<ParticipantAnswer, Raised>)
    ensures outcome.Err? ==> r == Ok(ParticipantAnswer("", None, JStr(contextId), Some(outcome.error)))
    ensures outcome.Ok? ==> (r.Ok? <==> Dispatch(Envelope(outcome.value), dumps).Ok?)
    ensures outcome.Ok? && r.Ok? ==> r.value.error.None? && r.value.raw == Some(outcome.value)
  {
    match outcome
    case Err(message) => Ok(ParticipantAnswer("", None, JStr(contextId), Some(message)))
    case Ok(data) =>
      match Dispatch(Envelope(data), dumps)
      case Err(e) => Err(e)
      case Ok(reply) => Ok(ParticipantAnswer(reply.0, Some(data), Or(reply.1, JStr(contextId)), None))
  }

  /**
   * A transport failure gives an empty answer carrying the error and the sent context id; a
   * delivered reply carries no error, its body, and the reply's context id unless that is
   * falsy, when the sent one stands.
   */
  lemma AnswerCases(outcome: Result<Json, string>, contextId: string, dumps: Json -> string)
    ensures outcome.Err? ==> Answer(outcome, contextId, dumps) == Ok(ParticipantAnswer("", None, JStr(contextId), Some(outcome.error)))
    ensures outcome.Ok? && Answer(outcome, contextId, dumps).Ok? ==>
      var a := Answer(outcome, contextId, dumps).value;
      var reply := Dispatch(Envelope(outcome.value), dumps).value;
      && a.error.None? && a.raw == Some(outcome.value) && a.text == reply.0
      && (Truthy(reply.1) ==> a.contextId == reply.1)
      && (!Truthy(reply.1) ==> a.contextId == JStr(contextId))
    ensures contextId != "" && Answer(outcome, contextId, dumps).Ok? ==> Truthy(Answer(outcome, contextId, dumps).value.contextId)
  {
  }

  /** A dict `result` is the envelope; otherwise the whole body is. */
  lemma ResultPreferred(data: Json)
    ensures data.JDict? && "result" in data.fields && data.fields["result"].JDict? ==> Envelope(data) == data.fields["result"]
    ensures !(data.JDict? && "result" in data.fields && data.fields["result"].JDict?) ==> Envelope(data) == data
  {
  }

  /**
   * The envelope shapes are tried in order: a dict `message` wins over a dict `task`, both
   * over `kind`; a bare message reads `parts` before `content`.
   */
  lemma DispatchOrder(envelope: Json, dumps: Json -> string)
    requires envelope.JDict?
    ensures var f := envelope.fields;
      && ("message" in f && f["message"].JDict? ==>
            Dispatch(envelope, dumps).Ok? == MessageText(f["message"], dumps).Ok?
            && (Dispatch(envelope, dumps).Ok? ==> Dispatch(envelope, dumps).value.0 == MessageText(f["message"], dumps).value))
      && (!("message" in f && f["message"].JDict?) && "task" in f && f["task"].JDict? ==>
            Dispatch(envelope, dumps).Ok? == TaskText(f["task"], dumps).Ok?
            && (Dispatch(envelope, dumps).Ok? ==> Dispatch(envelope, dumps).value.0 == TaskText(f["task"], dumps).value))
      && (!("message" in f && f["message"].JDict?) && !("task" in f && f["task"].JDict?)
          && Get(envelope, "kind") != Some(JStr("message")) && Get(envelope, "kind") != Some(JStr("task")) ==>
            Dispatch(envelope, dumps) == Ok(("", JNull)))
  {
  }

  /**
   * A reply envelope holding both a dict `message` and a dict `task` is read as its message:
   * the text and the context id come from the message, and the task is never looked at.
   */
  lemma MessageOverTask(data: Json, contextId: string, dumps: Json -> string)
    requires Envelope(data).JDict?
    requires var f := Envelope(data).fields;
      "message" in f && f["message"].JDict? && "task" in f && f["task"].JDict?
    ensures var m := Envelope(data).fields["message"];
      var a := Answer(Ok(data), contextId, dumps);
      && (a.Ok? <==> MessageText(m, dumps).Ok?)
      && (a.Ok? ==> a.value.text == MessageText(m, dumps).value
                    && a.value.contextId == Or(GetOrNull(m, "contextId"), JStr(contextId)))
  {
  }

  // ---------------------------------------------------------------- one question

  /** A dataset row as `csv.DictReader` reads it; a missing or `None` field is an absent key. */
  type Row = map<string, string>

  /** `(row.get("Question") or "").strip()`. */
  function QuestionOf(row: Row): string {
    Strip(if "Question" in row then row["Question"] else "")
  }

  /** `row.get("Rubric") or ""`. */
  function RubricOf(row: Row): string {
    if "Rubric" in row then row["Rubric"] else ""
  }

  /** `f"eval-{seed}-{role}-{idx}"`, the conversation id of a question. */
  function ContextIdFor(seed: int, role: string, idx: nat): string {
    "eval-" + IntToString(seed) + "-" + role + "-" + NatToString(idx)
  }

  /** `f"msg-{seed}-{role}-{idx}"`, the message id of a question. */
  function MessageIdFor(seed: int, role: string, idx: nat): string {
    "msg-" + IntToString(seed) + "-" + role + "-" + NatToString(idx)
  }

  /**
   * The ids depend on the seed, the role and the index alone; different questions of one run
   * get different ids, and a conversation id is never a message id.
   */
  lemma IdsDistinct(seed: int, role: string, i: nat, j: nat)
    ensures i != j ==> ContextIdFor(seed, role, i) != ContextIdFor(seed, role, j)
    ensures i != j ==> MessageIdFor(seed, role, i) != MessageIdFor(seed, role, j)
    ensures ContextIdFor(seed, role, i) != MessageIdFor(seed, role, j)
  {
    var p := "eval-" + IntToString(seed) + "-" + role + "-";
    var q := "msg-" + IntToString(seed) + "-" + role + "-";
    if ContextIdFor(seed, role, i) == ContextIdFor(seed, role, j) {
      assert (p + NatToString(i))[|p|..] == NatToString(i);
      assert (p + NatToString(j))[|p|..] == NatToString(j);
      NatToStringInjective(i, j);
    }
    if MessageIdFor(seed, role, i) == MessageIdFor(seed, role, j) {
      assert (q + NatToString(i))[|q|..] == NatToString(i);
      assert (q + NatToString(j))[|q|..] == NatToString(j);
      NatToStringInjective(i, j);
    }
    assert ContextIdFor(seed, role, i)[0] == 'e' && MessageIdFor(seed, role, j)[0] == 'm';
  }

  /** One entry of `results`. */
  datatype QuestionResult = QuestionResult(
    question: string, answer: string, score: Rubric.Evaluation,
    citations: CitationValidator.Validation, error: Option<string>)

  /** The record of a question whose request failed: no answer, zero score, invalid citations. */
  function FailedRecord(question: string, error: string): QuestionResult {
    QuestionResult(question, "", Rubric.Evaluation(false, 0.0, []), CitationValidator.Validation([], [], false), Some(error))
  }

  /**
   * What scoring needs besides the answer: the manifest's entries, `json.loads` for the
   * citation block, and `ast.literal_eval` for the rubric.
   */
  datatype Grading = Grading(entries: seq<CacheEntry>, decode: string -> Option<Json>, literalEval: string -> Option<Json>)

  /** The record of an answered question: citations checked first, then the rubric applied. */
  function Scored(question: string, text: string, rubric: string, g: Grading): Result<QuestionResult, Raised> {
    match CitationValidator.Validate(text, g.entries, g.decode)
    case Err(e) => Err(e)
    case Ok(citations) =>
      match Rubric.Evaluate(text, rubric, g.literalEval)
      case Err(e) => Err(e)
      case Ok(scoring) => Ok(QuestionResult(question, text, scoring, citations, None))
  }

  /**
   * The record of one question as the loop body writes it: `if answer.error:` tests the
   * error's truthiness, so an exception whose text is empty passes as an answer.
   */
  function RecordAsWritten(question: string, rubric: string, answer: ParticipantAnswer, g: Grading)
    : (r: Result<QuestionResult, Raised>)
    ensures r.Ok? ==> r.value.question == question
    ensures r.Ok? ==> (r.value.error.Some? <==> answer.error.Some? && answer.error.value != "")
    ensures r.Ok? && r.value.error.Some? ==> r.value.error == answer.error && !r.value.score.passed
  {
    if answer.error.Some? && answer.error.value != "" then Ok(FailedRecord(question, answer.error.value))
    else Scored(question, answer.text, rubric, g)
  }

  /** The record of one question when every transport failure is recorded as one. */
  function Record(question: string, rubric: string, answer: ParticipantAnswer, g: Grading)
    : (r: Result<QuestionResult, Raised>)
    ensures answer.error.Some? ==> r.Ok?
    ensures r.Ok? ==> r.value.question == question
    ensures r.Ok? ==> (r.value.error.Some? <==> answer.error.Some?)
    ensures r.Ok? && r.value.error.Some? ==> r.value.error == answer.error && !r.value.score.passed
  {
    if answer.error.Some? then Ok(FailedRecord(question, answer.error.value))
    else Scored(question, answer.text, rubric, g)
  }

  /** `agent_url.rstrip("/")`. */
  function TrimSlashes(s: string): (r: string)
    ensures |r| <= |s| && r == s[..|r|]
    ensures |r| > 0 ==> r[|r| - 1] != '/'
    decreases |s|
  {
    if |s| > 0 && s[|s| - 1] == '/' then TrimSlashes(s[..|s| - 1]) else s
  }

  /** The remote participants: the agent card fetched from a URL, and the reply to a message. */
  datatype Remote = Remote(
    card: string -> Result<Json, string>,
    send: (string, string, string, string) -> Result<Json, string>)

  /** The URL `send_message` posts to. */
  function SendUrl(agentUrl: string): string {
    TrimSlashes(agentUrl) + "/"
  }

  /** What one question of the loop produces or raises, given its index and row. */
  function QuestionStep(seed: int, role: string, agentUrl: string, remote: Remote, dumps: Json -> string,
                        g: Grading): ((nat, Row)) -> Result<QuestionResult, Raised>
  {
    (p: (nat, Row)) =>
      var question := QuestionOf(p.1);
      var contextId := ContextIdFor(seed, role, p.0);
      var outcome := remote.send(SendUrl(agentUrl), question, contextId, MessageIdFor(seed, role, p.0));
      match Answer(outcome, contextId, dumps)
      case Err(e) => Err(e)
      case Ok(answer) => Record(question, RubricOf(p.1), answer, g)
  }

  /** `enumerate(rows)`. */
  function Indexed(rows: seq<Row>): (r: seq<(nat, Row)>)
    ensures |r| == |rows| && forall i :: 0 <= i < |rows| ==> r[i] == (i, rows[i])
  {
    seq(|rows|, i requires 0 <= i < |rows| => (i, rows[i]))
  }

  // ---------------------------------------------------------------- summaries

  datatype Summary = Summary(total: nat, passed: nat, averageScore: real, citationValid: nat, errors: nat)

  predicate Passed(r: QuestionResult) { r.score.passed }
  predicate CitationsValid(r: QuestionResult) { r.citations.valid }
  /** A record with an error, by `is not None`. */
  predicate Failed(r: QuestionResult) { r.error.Some? }
  /** A record with an error, by truthiness as `summarize_results` counts it. */
  predicate FailedAsWritten(r: QuestionResult) { r.error.Some? && r.error.value != "" }

  /** `sum(float(item["score"]["score"]) for item in results)`. */
  function ScoreSum(rs: seq<QuestionResult>): real
    decreases |rs|
  {
    if rs == [] then 0.0 else ScoreSum(rs[..|rs| - 1]) + rs[|rs| - 1].score.score
  }

  /** `summarize_results`, counting every record whose error is not `None`. */
  function SummarizeResults(rs: seq<QuestionResult>): (s: Summary)
    ensures s.total == |rs| && s.passed <= s.total && s.citationValid <= s.total && s.errors <= s.total
    ensures rs == [] ==> s.averageScore == 0.0
  {
    Summary(|rs|, |Filter(rs, Passed)|, if |rs| > 0 then ScoreSum(rs) / |rs| as real else 0.0,
            |Filter(rs, CitationsValid)|, |Filter(rs, Failed)|)
  }

  /** The error count as `summarize_results` computes it. */
  function ErrorsAsWritten(rs: seq<QuestionResult>): nat {
    |Filter(rs, FailedAsWritten)|
  }

  /** With every score in [0, 1] the score sum lies in [0, n]. */
  lemma {:induction false} ScoreSumBounds(rs: seq<QuestionResult>)
    requires forall i :: 0 <= i < |rs| ==> 0.0 <= rs[i].score.score <= 1.0
    ensures 0.0 <= ScoreSum(rs) <= |rs| as real
    decreases |rs|
  {
    if rs != [] {
      ScoreSumBounds(rs[..|rs| - 1]);
    }
  }

  /**
   * The counts never exceed the total, and with every score in [0, 1] so is the average;
   * an empty run averages 0.
   */
  lemma SummaryBounds(rs: seq<QuestionResult>)
    ensures var s := SummarizeResults(rs);
      && s.total == |rs| && s.passed <= s.total && s.citationValid <= s.total && s.errors <= s.total
      && (rs == [] ==> s.averageScore == 0.0)
    ensures (forall i :: 0 <= i < |rs| ==> 0.0 <= rs[i].score.score <= 1.0) ==>
      0.0 <= SummarizeResults(rs).averageScore <= 1.0
  {
    if (forall i :: 0 <= i < |rs| ==> 0.0 <= rs[i].score.score <= 1.0) && rs != [] {
      ScoreSumBounds(rs);
      MeanBounds(ScoreSum(rs), |rs| as real);
    }
  }

  lemma MeanBounds(sum: real, n: real)
    requires 0.0 < n && 0.0 <= sum <= n
    ensures 0.0 <= sum / n <= 1.0
  {
    var a := sum / n;
    assert a * n == sum;
    assert (a - 1.0) * n == sum - n;
  }

  /** The rubric's score lies in [0, 1]. */
  lemma ScoreInUnitInterval(text: string, rubric: string, literalEval: string -> Option<Json>)
    requires Rubric.Evaluate(text, rubric, literalEval).Ok?
    ensures 0.0 <= Rubric.Evaluate(text, rubric, literalEval).value.score <= 1.0
  {
    var items := Rubric.ParseRubric(rubric, literalEval);
    if items != [] {
      var ds := Traverse(items, Rubric.Judge(UnitNormalizer.NormalizeText(Some(text)))).value;
      Rubric.SummaryFacts(ds);
    }
  }

  // ---------------------------------------------------------------- one participant

  /** The per-participant result; `error` is set only when the agent card could not be read. */
  datatype ParticipantReport = ParticipantReport(
    role: string, url: string, summary: Summary, results: seq<QuestionResult>, error: Option<string>)

  /** Where `fetch_agent_card` looks for the card. */
  function CardUrl(url: string): string {
    TrimSlashes(url) + "/.well-known/agent-card.json"
  }

  /**
   * The agent URL `fetch_agent_card` resolves from the fetched card: its `url`, else the base
   * URL, without trailing slashes; a card that is not a dict fails at `.get`.
   */
  function CardAgentUrl(card: Result<Json, string>, url: string, conv: Conversions): (r: Result<string, string>)
    ensures card.Err? ==> r == Err(card.error)
    ensures card.Ok? ==> (r.Ok? <==> card.value.JDict?)
    ensures r.Ok? && |r.value| > 0 ==> r.value[|r.value| - 1] != '/'
  {
    match card
    case Err(message) => Err(message)
    case Ok(c) =>
      if !c.JDict? then Err(NoAttribute(c, "get").message)
      else Ok(TrimSlashes(PyStr(Or(GetOrNull(c, "url"), JStr(url)), conv)))
  }

  /** What `evaluate_participant` returns or raises, without its wall-clock duration. */
  function ParticipantOutcome(role: string, url: string, questions: seq<Row>, config: EvalConfig,
                              remote: Remote, conv: Conversions, dumps: Json -> string, g: Grading)
    : Result<ParticipantReport, Raised>
  {
    match CardAgentUrl(remote.card(CardUrl(url)), url, conv)
    case Err(message) =>
      Ok(ParticipantReport(role, url, SummarizeResults([]).(errors := 1), [], Some(message)))
    case Ok(agentUrl) =>
      match Traverse(Indexed(questions), QuestionStep(config.seed, role, agentUrl, remote, dumps, g))
      case Err(e) => Err(e)
      case Ok(rs) => Ok(ParticipantReport(role, url, SummarizeResults(rs), rs, None))
  }

  /** `evaluate_participant`, with its loop over the questions. */
  method EvaluateParticipant(role: string, url: string, questions: seq<Row>, config: EvalConfig,
                             remote: Remote, conv: Conversions, dumps: Json -> string, g: Grading)
    returns (r: Result<ParticipantReport, Raised>)
    ensures r == ParticipantOutcome(role, url, questions, config, remote, conv, dumps, g)
  {
    var agent := CardAgentUrl(remote.card(CardUrl(url)), url, conv);
    if agent.Err? {
      var summary := SummarizeResults([]);
      summary := summary.(errors := 1);
      return Ok(ParticipantReport(role, url, summary, [], Some(agent.error)));
    }
    var agentUrl := agent.value;
    var results := AskAll(role, agentUrl, questions, config.seed, remote, dumps, g);
    if results.Err? {
      return Err(results.error);
    }
    return Ok(ParticipantReport(role, url, SummarizeResults(results.value), results.value, None));
  }

  /** The loop of `evaluate_participant`: one record per question, in order. */
  method AskAll(role: string, agentUrl: string, questions: seq<Row>, seed: int, remote: Remote,
                dumps: Json -> string, g: Grading)
    returns (r: Result<seq<QuestionResult>, Raised>)
    ensures r == Traverse(Indexed(questions), QuestionStep(seed, role, agentUrl, remote, dumps, g))
  {
    ghost var rows := Indexed(questions);
    ghost var step := QuestionStep(seed, role, agentUrl, remote, dumps, g);
    var results: seq<QuestionResult> := [];
    for idx := 0 to |questions|
      invariant Traverse(rows[..idx], step) == Ok(results)
    {
      var row := questions[idx];
      var question := QuestionOf(row);
      var rubric := RubricOf(row);
      var contextId := ContextIdFor(seed, role, idx);
      var messageId := MessageIdFor(seed, role, idx);
      var answer := Answer(remote.send(SendUrl(agentUrl), question, contextId, messageId), contextId, dumps);
      assert rows[idx] == (idx, row);
      TraverseStep(rows, idx, step, results);
      if answer.Err? {
        TraverseErrSticks(rows, idx + 1, step);
        return Err(answer.error);
      }
      if answer.value.error.Some? {
        results := results + [FailedRecord(question, answer.value.error.value)];
        continue;
      }
      var citations := CitationValidator.ValidateCitations(answer.value.text, g.entries, g.decode);
      if citations.Err? {
        TraverseErrSticks(rows, idx + 1, step);
        return Err(citations.error);
      }
      var scoring := Rubric.EvaluateAnswer(answer.value.text, rubric, g.literalEval);
      if scoring.Err? {
        TraverseErrSticks(rows, idx + 1, step);
        return Err(scoring.error);
      }
      results := results + [QuestionResult(question, answer.value.text, scoring.value, citations.value, None)];
    }
    assert rows[..|questions|] == rows;
    return Ok(results);
  }

  /** Whether the request for a question failed in transport. */
  function SendFails(seed: int, role: string, agentUrl: string, remote: Remote): ((nat, Row)) -> bool {
    (p: (nat, Row)) =>
      remote.send(SendUrl(agentUrl), QuestionOf(p.1), ContextIdFor(seed, role, p.0), MessageIdFor(seed, role, p.0)).Err?
  }

  /** An agent card that cannot be read gives no results and one error. */
  lemma CardFailure(role: string, url: string, questions: seq<Row>, config: EvalConfig,
                    remote: Remote, conv: Conversions, dumps: Json -> string, g: Grading)
    requires CardAgentUrl(remote.card(CardUrl(url)), url, conv).Err?
    ensures var r := ParticipantOutcome(role, url, questions, config, remote, conv, dumps, g);
      && r.Ok? && r.value.results == [] && r.value.summary.total == 0 && r.value.summary.errors == 1
      && r.value.error == Some(CardAgentUrl(remote.card(CardUrl(url)), url, conv).error)
  {
  }

  /**
   * Otherwise there is one record per question, in order, for its stripped question text;
   * a question whose request failed gets the zero record carrying the error, and the batch
   * goes on.
   */
  lemma OneRecordPerQuestion(role: string, url: string, questions: seq<Row>, config: EvalConfig,
                             remote: Remote, conv: Conversions, dumps: Json -> string, g: Grading)
    requires CardAgentUrl(remote.card(CardUrl(url)), url, conv).Ok?
    requires ParticipantOutcome(role, url, questions, config, remote, conv, dumps, g).Ok?
    ensures var agentUrl := CardAgentUrl(remote.card(CardUrl(url)), url, conv).value;
      var report := ParticipantOutcome(role, url, questions, config, remote, conv, dumps, g).value;
      && report.error.None? && report.role == role && report.url == url
      && |report.results| == |questions|
      && report.summary == SummarizeResults(report.results)
      && forall i :: 0 <= i < |questions| ==>
           var outcome := remote.send(SendUrl(agentUrl), QuestionOf(questions[i]),
                                      ContextIdFor(config.seed, role, i), MessageIdFor(config.seed, role, i));
           && report.results[i].question == QuestionOf(questions[i])
           && (outcome.Err? ==> report.results[i] == FailedRecord(QuestionOf(questions[i]), outcome.error))
           && (outcome.Ok? ==> report.results[i].error.None?)
  {
    var agentUrl := CardAgentUrl(remote.card(CardUrl(url)), url, conv).value;
    var rows := Indexed(questions);
    var step := QuestionStep(config.seed, role, agentUrl, remote, dumps, g);
    TraversePerElement(rows, step);
    forall i | 0 <= i < |questions|
      ensures StepFacts(config.seed, role, agentUrl, remote, dumps, g, i, questions[i])
    {
      StepCases(config.seed, role, agentUrl, remote, dumps, g, i, questions[i]);
    }
  }

  /** What one successful step's record says. */
  predicate StepFacts(seed: int, role: string, agentUrl: string, remote: Remote, dumps: Json -> string,
                      g: Grading, i: nat, row: Row)
  {
    var outcome := remote.send(SendUrl(agentUrl), QuestionOf(row), ContextIdFor(seed, role, i), MessageIdFor(seed, role, i));
    var r := QuestionStep(seed, role, agentUrl, remote, dumps, g)((i, row));
    r.Ok? ==>
      && r.value.question == QuestionOf(row)
      && (outcome.Err? ==> r.value == FailedRecord(QuestionOf(row), outcome.error))
      && (outcome.Ok? ==> r.value.error.None?)
      && (Failed(r.value) <==> outcome.Err?)
  }

  lemma StepCases(seed: int, role: string, agentUrl: string, remote: Remote, dumps: Json -> string,
                  g: Grading, i: nat, row: Row)
    ensures StepFacts(seed, role, agentUrl, remote, dumps, g, i, row)
  {
    var question := QuestionOf(row);
    var contextId := ContextIdFor(seed, role, i);
    var outcome := remote.send(SendUrl(agentUrl), question, contextId, MessageIdFor(seed, role, i));
    AnswerCases(outcome, contextId, dumps);
  }

  /**
   * The summary's error count is the number of questions whose request failed in transport,
   * whatever the text of the failure.
   */
  lemma ErrorsCountFailures(role: string, url: string, questions: seq<Row>, config: EvalConfig,
                            remote: Remote, conv: Conversions, dumps: Json -> string, g: Grading)
    requires CardAgentUrl(remote.card(CardUrl(url)), url, conv).Ok?
    requires ParticipantOutcome(role, url, questions, config, remote, conv, dumps, g).Ok?
    ensures var agentUrl := CardAgentUrl(remote.card(CardUrl(url)), url, conv).value;
      ParticipantOutcome(role, url, questions, config, remote, conv, dumps, g).value.summary.errors
        == |Filter(Indexed(questions), SendFails(config.seed, role, agentUrl, remote))|
  {
    var agentUrl := CardAgentUrl(remote.card(CardUrl(url)), url, conv).value;
    var rows := Indexed(questions);
    var step := QuestionStep(config.seed, role, agentUrl, remote, dumps, g);
    TraversePerElement(rows, step);
    var rs := Traverse(rows, step).value;
    forall i | 0 <= i < |rs|
      ensures Failed(rs[i]) == SendFails(config.seed, role, agentUrl, remote)(rows[i])
    {
      StepCases(config.seed, role, agentUrl, remote, dumps, g, i, questions[i]);
    }
    FilterCountAgrees(rs, rows, Failed, SendFails(config.seed, role, agentUrl, remote));
  }

  /**
   * Finding: a request that fails with an exception whose text is empty (a bare timeout)
   * passes the loop's truthiness test, is scored as an empty answer and is not counted as an
   * error; with the failure tested by `is not None` it is recorded and counted.
   */
  lemma EmptyTransportErrorAsWritten(question: string, contextId: string, dumps: Json -> string, g: Grading)
    requires CitationValidator.ManifestIds(g.entries).Ok?
    ensures var a := Answer(Err(""), contextId, dumps).value;
      && a.error == Some("")
      && RecordAsWritten(question, "", a, g).Ok?
      && RecordAsWritten(question, "", a, g).value.error.None?
      && ErrorsAsWritten([RecordAsWritten(question, "", a, g).value]) == 0
      && Record(question, "", a, g) == Ok(FailedRecord(question, ""))
      && SummarizeResults([Record(question, "", a, g).value]).errors == 1
  {
    Rubric.EmptyRubric("", "", g.literalEval);
    CitationValidator.ExtractSpanIsSearch("");
    CitationValidator.CitationsCases("", g.decode);
    assert CitationValidator.ExtractCitations("", g.decode) == [];
    var ids := CitationValidator.ManifestIds(g.entries).value;
    assert CitationValidator.Missing([], ids) == Ok([]) by {
      assert Flatten<Json>([]) == [];
    }
    var a := Answer(Err(""), contextId, dumps).value;
    var rec := RecordAsWritten(question, "", a, g).value;
    assert Filter([rec], FailedAsWritten) == Filter([], FailedAsWritten) + [];
    var fixed := FailedRecord(question, "");
    assert Filter([fixed], Failed) == Filter([], Failed) + [fixed];
  }

  // ---------------------------------------------------------------- the assessment

  /** The validated request: the participants' roles and URLs in order, and the configuration. */
  datatype EvalRequest = EvalRequest(participants: seq<(string, string)>, config: map<string, Json>)

  /** The result dict of `run_assessment`. */
  datatype Assessment = Assessment(
    winner: string, participants: seq<ParticipantReport>, dataset: string, maxQuestions: int, seed: int)

  /** `role in request.participants`. */
  predicate HasRole(participants: seq<(string, string)>, role: string) {
    exists i :: 0 <= i < |participants| && participants[i].0 == role
  }

  /** The index of the first maximum: `max` keeps the earlier of equal values. */
  function FirstMax(xs: seq<real>): (k: nat)
    requires |xs| > 0
    ensures k < |xs|
    decreases |xs|
  {
    if |xs| == 1 then 0
    else
      var k := FirstMax(xs[..|xs| - 1]);
      if xs[|xs| - 1] > xs[k] then |xs| - 1 else k
  }

  /** The first maximum is at least every value and greater than every earlier one. */
  lemma {:induction false} FirstMaxIsFirstMaximum(xs: seq<real>)
    requires |xs| > 0
    ensures forall j :: 0 <= j < |xs| ==> xs[j] <= xs[FirstMax(xs)]
    ensures forall j :: 0 <= j < FirstMax(xs) ==> xs[j] < xs[FirstMax(xs)]
    decreases |xs|
  {
    if |xs| > 1 {
      var init := xs[..|xs| - 1];
      FirstMaxIsFirstMaximum(init);
      assert forall j :: 0 <= j < |init| ==> init[j] == xs[j];
    }
  }

  /** Each participant's average score. */
  function Averages(reports: seq<ParticipantReport>): (r: seq<real>)
    ensures |r| == |reports| && forall i :: 0 <= i < |reports| ==> r[i] == reports[i].summary.averageScore
  {
    seq(|reports|, i requires 0 <= i < |reports| => reports[i].summary.averageScore)
  }

  /** The evaluation of one participant, as the loop of `run_assessment` calls it. */
  function Evaluator(questions: seq<Row>, config: EvalConfig, remote: Remote, conv: Conversions,
                     dumps: Json -> string, g: Grading): ((string, string)) -> Result<ParticipantReport, Raised>
  {
    (p: (string, string)) => ParticipantOutcome(p.0, p.1, questions, config, remote, conv, dumps, g)
  }

  /** The error `run_assessment` raises when the configured role has no participant. */
  function MissingRole(role: string): Raised {
    ValueError("Missing required participant role '" + role + "'.")
  }

  /** The participants' evaluations and the winner, once the configuration is read. */
  function Assess(ps: seq<(string, string)>, config: EvalConfig, load: string -> seq<Row>, remote: Remote,
                  conv: Conversions, dumps: Json -> string, g: Grading): Result<Assessment, Raised>
    requires |ps| > 0
  {
    var questions := PyPrefix(load(config.datasetPath), config.maxQuestions);
    match Traverse(ps, Evaluator(questions, config, remote, conv, dumps, g))
    case Err(e) => Err(e)
    case Ok(reports) =>
      var winner := reports[FirstMax(Averages(reports))].role;
      Ok(Assessment(winner, reports, Basename(config.datasetPath), config.maxQuestions, config.seed))
  }

  /**
   * What `run_assessment` returns or raises for a validated request; `load` stands for
   * reading the dataset's rows from a path.
   */
  function AssessmentOutcome(request: EvalRequest, load: string -> seq<Row>, remote: Remote,
                             conv: Conversions, dumps: Json -> string, g: Grading)
    : Result<(Assessment, EvalConfig), Raised>
  {
    match ParseEvalConfig(request.config, conv)
    case Err(e) => Err(e)
    case Ok(config) =>
      if !HasRole(request.participants, config.participantRole) then Err(MissingRole(config.participantRole))
      else
        match Assess(request.participants, config, load, remote, conv, dumps, g)
        case Err(e) => Err(e)
        case Ok(a) => Ok((a, config))
  }

  /** The loop of `run_assessment` over the participants, in order. */
  method EvaluateAll(ps: seq<(string, string)>, questions: seq<Row>, config: EvalConfig, remote: Remote,
                     conv: Conversions, dumps: Json -> string, g: Grading)
    returns (r: Result<seq<ParticipantReport>, Raised>)
    ensures r == Traverse(ps, Evaluator(questions, config, remote, conv, dumps, g))
  {
    ghost var evaluate := Evaluator(questions, config, remote, conv, dumps, g);
    var reports: seq<ParticipantReport> := [];
    for i := 0 to |ps|
      invariant Traverse(ps[..i], evaluate) == Ok(reports)
    {
      TraverseStep(ps, i, evaluate, reports);
      var report := EvaluateParticipant(ps[i].0, ps[i].1, questions, config, remote, conv, dumps, g);
      if report.Err? {
        TraverseErrSticks(ps, i + 1, evaluate);
        return Err(report.error);
      }
      reports := reports + [report.value];
    }
    assert ps[..|ps|] == ps;
    return Ok(reports);
  }

  /** `run_assessment`: the configuration, the role check, every participant, the winner. */
  method RunAssessment(request: EvalRequest, load: string -> seq<Row>, remote: Remote,
                       conv: Conversions, dumps: Json -> string, g: Grading)
    returns (r: Result<(Assessment, EvalConfig), Raised>)
    ensures r == AssessmentOutcome(request, load, remote, conv, dumps, g)
  {
    var parsed := ParseEvalConfig(request.config, conv);
    if parsed.Err? {
      return Err(parsed.error);
    }
    var config := parsed.value;
    if !HasRole(request.participants, config.participantRole) {
      return Err(MissingRole(config.participantRole));
    }
    var questions := PyPrefix(load(config.datasetPath), config.maxQuestions);
    var reports := EvaluateAll(request.participants, questions, config, remote, conv, dumps, g);
    if reports.Err? {
      return Err(reports.error);
    }
    var winner := reports.value[FirstMax(Averages(reports.value))].role;
    return Ok((Assessment(winner, reports.value, Basename(config.datasetPath), config.maxQuestions, config.seed), config));
  }

  /** A missing participant role raises before any participant is evaluated. */
  lemma MissingRoleRaises(request: EvalRequest, load: string -> seq<Row>, remote: Remote,
                          conv: Conversions, dumps: Json -> string, g: Grading)
    requires ParseEvalConfig(request.config, conv).Ok?
    requires forall i :: 0 <= i < |request.participants| ==>
               request.participants[i].0 != ParseEvalConfig(request.config, conv).value.participantRole
    ensures AssessmentOutcome(request, load, remote, conv, dumps, g)
      == Err(MissingRole(ParseEvalConfig(request.config, conv).value.participantRole))
  {
  }

  /**
   * A successful run read the configuration, found the role among the participants, and
   * asked at most 50 questions.
   */
  lemma AssessmentShape(request: EvalRequest, load: string -> seq<Row>, remote: Remote,
                        conv: Conversions, dumps: Json -> string, g: Grading)
    requires AssessmentOutcome(request, load, remote, conv, dumps, g).Ok?
    ensures var (a, config) := AssessmentOutcome(request, load, remote, conv, dumps, g).value;
      && ParseEvalConfig(request.config, conv) == Ok(config)
      && HasRole(request.participants, config.participantRole)
      && 1 <= config.maxQuestions <= DefaultMaxQuestions
      && Assess(request.participants, config, load, remote, conv, dumps, g) == Ok(a)
  {
    QuestionsClamped(request.config, conv);
  }

  /** The reports are the participants' evaluations, and the winner is read off them. */
  lemma AssessUnfolds(ps: seq<(string, string)>, config: EvalConfig, load: string -> seq<Row>, remote: Remote,
                      conv: Conversions, dumps: Json -> string, g: Grading)
    requires |ps| > 0 && Assess(ps, config, load, remote, conv, dumps, g).Ok?
    ensures var a := Assess(ps, config, load, remote, conv, dumps, g).value;
      var questions := PyPrefix(load(config.datasetPath), config.maxQuestions);
      && Traverse(ps, Evaluator(questions, config, remote, conv, dumps, g)) == Ok(a.participants)
      && |a.participants| == |ps|
      && a.winner == a.participants[FirstMax(Averages(a.participants))].role
  {
  }

  /**
   * The evaluation gives one report per participant, in order, each asked the first
   * `max_questions` rows.
   */
  lemma ReportsFollowParticipants(ps: seq<(string, string)>, config: EvalConfig, load: string -> seq<Row>,
                                  remote: Remote, conv: Conversions, dumps: Json -> string, g: Grading)
    requires |ps| > 0 && Assess(ps, config, load, remote, conv, dumps, g).Ok?
    ensures var a := Assess(ps, config, load, remote, conv, dumps, g).value;
      var questions := PyPrefix(load(config.datasetPath), config.maxQuestions);
      && |a.participants| == |ps|
      && (config.maxQuestions >= 0 ==> |questions| <= config.maxQuestions)
      && forall i :: 0 <= i < |ps| ==>
           ParticipantOutcome(ps[i].0, ps[i].1, questions, config, remote, conv, dumps, g) == Ok(a.participants[i])
  {
    var questions := PyPrefix(load(config.datasetPath), config.maxQuestions);
    PyPrefixFacts(load(config.datasetPath), config.maxQuestions);
    var evaluate := Evaluator(questions, config, remote, conv, dumps, g);
    AssessUnfolds(ps, config, load, remote, conv, dumps, g);
    TraversePerElement(ps, evaluate);
    var reports := Traverse(ps, evaluate).value;
    forall i | 0 <= i < |ps|
      ensures ParticipantOutcome(ps[i].0, ps[i].1, questions, config, remote, conv, dumps, g) == Ok(reports[i])
    {
      assert evaluate(ps[i]) == ParticipantOutcome(ps[i].0, ps[i].1, questions, config, remote, conv, dumps, g);
    }
  }

  /** Report `w` has the highest average score, and every report before it a lower one. */
  predicate FirstBest(reports: seq<ParticipantReport>, w: nat)
  {
    && w < |reports|
    && (forall j :: 0 <= j < |reports| ==> reports[j].summary.averageScore <= reports[w].summary.averageScore)
    && (forall j :: 0 <= j < w ==> reports[j].summary.averageScore < reports[w].summary.averageScore)
  }

  /** The winner is the first participant with the highest average score. */
  lemma WinnerIsFirstBest(ps: seq<(string, string)>, config: EvalConfig, load: string -> seq<Row>, remote: Remote,
                          conv: Conversions, dumps: Json -> string, g: Grading)
    requires |ps| > 0 && Assess(ps, config, load, remote, conv, dumps, g).Ok?
    ensures var a := Assess(ps, config, load, remote, conv, dumps, g).value;
      exists w: nat :: FirstBest(a.participants, w) && a.winner == a.participants[w].role
  {
    AssessUnfolds(ps, config, load, remote, conv, dumps, g);
    var a := Assess(ps, config, load, remote, conv, dumps, g).value;
    WinnerOfReports(a.participants);
  }

  /** `max(range(n), key=lambda i: averages[i])` picks the first report with the highest average. */
  lemma WinnerOfReports(reports: seq<ParticipantReport>)
    requires |reports| > 0
    ensures FirstBest(reports, FirstMax(Averages(reports)))
  {
    FirstMaxIsFirstMaximum(Averages(reports));
  }
}
