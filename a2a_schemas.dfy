/**
 * The Agent2Agent protocol objects the evaluator exchanges: the snake_case to camelCase alias
 * of every field, the wire strings of `Role` and `TaskState`, the message, task and event
 * records, and the "exactly one of" validators that run after a model is built.
 */
module A2aSchemas {
  import opened Wrappers
  import opened Strings
  import opened Json

  // ---------------------------------------------------------------- field aliases

  /**
   * `part.capitalize()` of every segment, concatenated; `CapitalizeEachAppend` and
   * `ToCamelAppend` give its contents.
   */
  function CapitalizeEach(parts: seq<string>): (r: string)
    ensures |r| == TotalLength(parts)
  {
    if parts == [] then "" else Capitalize(parts[0]) + CapitalizeEach(parts[1..])
  }

  /** The total length of the segments. */
  function TotalLength(parts: seq<string>): nat {
    if parts == [] then 0 else |parts[0]| + TotalLength(parts[1..])
  }

  /** `_to_camel`: the first `_`-segment as it is, then every later segment capitalised. */
  function ToCamel(value: string): (r: string)
    ensures '_' !in r
  {
    var parts := Split(value, "_");
    SplitPiecesLack(value, '_');
    assert forall i :: 0 <= i < |parts[1..]| ==> parts[1..][i] == parts[i + 1];
    CapitalizeEachNoUnderscore(parts[1..]);
    parts[0] + CapitalizeEach(parts[1..])
  }

  /** Capitalising one more segment appends its capitalisation. */
  lemma {:induction false} CapitalizeEachAppend(parts: seq<string>, x: string)
    ensures CapitalizeEach(parts + [x]) == CapitalizeEach(parts) + Capitalize(x)
    decreases |parts|
  {
    if parts == [] {
      assert [x][1..] == [];
    } else {
      var ys := parts + [x];
      assert ys[0] == parts[0] && ys[1..] == parts[1..] + [x];
      CapitalizeEachAppend(parts[1..], x);
      calc {
        CapitalizeEach(ys);
        Capitalize(parts[0]) + CapitalizeEach(parts[1..] + [x]);
        Capitalize(parts[0]) + (CapitalizeEach(parts[1..]) + Capitalize(x));
        (Capitalize(parts[0]) + CapitalizeEach(parts[1..])) + Capitalize(x);
      }
    }
  }

  /** Splitting `s + c + x`, where `x` has no `c`, adds `x` as the last piece. */
  lemma {:induction false} SplitAppend(s: string, c: char, x: string)
    requires c !in x
    ensures Split(s + [c] + x, [c]) == Split(s, [c]) + [x]
    decreases |s|
  {
    var t := s + [c] + x;
    if IsPrefix([c], s) {
      assert t[1..] == s[1..] + [c] + x;
      SplitAppend(s[1..], c, x);
      assert IsPrefix([c], t);
    } else if |s| == 0 {
      assert t == [c] + x && t[1..] == x;
      SplitAbsent(x, c);
    } else {
      assert t[1..] == s[1..] + [c] + x;
      SplitAppend(s[1..], c, x);
      assert t[0] == s[0];
      assert !IsPrefix([c], t);
    }
  }

  /** No piece of a split at `c` holds `c`. */
  lemma {:induction false} SplitPiecesLack(s: string, c: char)
    ensures forall i :: 0 <= i < |Split(s, [c])| ==> c !in Split(s, [c])[i]
    decreases |s|
  {
    if |s| > 0 {
      SplitPiecesLack(s[1..], c);
    }
  }

  /** Capitalisation neither removes nor introduces an underscore, which is no letter. */
  lemma CapitalizeKeepsUnderscore(x: string)
    ensures ('_' in Capitalize(x)) == ('_' in x)
  {
    if x != [] {
      LowerFacts(x[1..]);
      var r := Capitalize(x);
      assert r == [r[0]] + r[1..] && x == [x[0]] + x[1..];
      assert ('_' in r[1..]) == ('_' in x[1..]) by {
        forall i | 0 <= i < |x[1..]|
          ensures (r[1..][i] == '_') == (x[1..][i] == '_')
        {
          assert r[1..][i] == LowerChar(x[1..][i]);
        }
      }
    }
  }

  /** The segments' capitalisations hold no underscore when the segments hold none. */
  lemma {:induction false} CapitalizeEachNoUnderscore(parts: seq<string>)
    requires forall i :: 0 <= i < |parts| ==> '_' !in parts[i]
    ensures '_' !in CapitalizeEach(parts)
    decreases |parts|
  {
    if parts != [] {
      CapitalizeKeepsUnderscore(parts[0]);
      CapitalizeEachNoUnderscore(parts[1..]);
    }
  }

  /** A name without `_` is its own alias. */
  lemma ToCamelIdentity(value: string)
    requires '_' !in value
    ensures ToCamel(value) == value
  {
    SplitAbsent(value, '_');
  }

  /**
   * Adding a segment after an underscore adds that segment capitalised: the first segment is
   * kept and every later one is capitalised, whatever comes before it.
   */
  lemma ToCamelAppend(value: string, segment: string)
    requires '_' !in segment
    ensures ToCamel(value + "_" + segment) == ToCamel(value) + Capitalize(segment)
  {
    var parts := Split(value, "_");
    var ps := parts + [segment];
    SplitUnderscoreAppend(value, segment);
    assert ps[0] == parts[0] && ps[1..] == parts[1..] + [segment];
    CapitalizeEachAppend(parts[1..], segment);
    calc {
      ToCamel(value + "_" + segment);
      ps[0] + CapitalizeEach(ps[1..]);
      parts[0] + (CapitalizeEach(parts[1..]) + Capitalize(segment));
      (parts[0] + CapitalizeEach(parts[1..])) + Capitalize(segment);
    }
  }

  lemma SplitUnderscoreAppend(value: string, segment: string)
    requires '_' !in segment
    ensures Split(value + "_" + segment, "_") == Split(value, "_") + [segment]
  {
    SplitAppend(value, '_', segment);
  }

  /** An alias holds no underscore, so aliasing an alias changes nothing. */
  lemma ToCamelIdempotent(value: string)
    ensures '_' !in ToCamel(value)
    ensures ToCamel(ToCamel(value)) == ToCamel(value)
  {
    ToCamelIdentity(ToCamel(value));
  }

  /** The alias of `file_with_uri` on the wire is `fileWithUri`. */
  lemma FileWithUriAlias()
    ensures ToCamel("file" + "_" + "with" + "_" + "uri") == "file" + "With" + "Uri"
  {
    ToCamelIdentity("file");
    ToCamelAppend("file", "with");
    ToCamelAppend("file" + "_" + "with", "uri");
    CapitalizeWith();
    CapitalizeUri();
  }

  lemma CapitalizeWith()
    ensures Capitalize("with") == "With"
  {
    assert Lower("ith") == "ith";
  }

  lemma CapitalizeUri()
    ensures Capitalize("uri") == "Uri"
  {
    assert Lower("ri") == "ri";
  }

  // ---------------------------------------------------------------- enumerations

  /** `Role`, a string enumeration. */
  datatype Role = RoleUnspecified | User | Agent

  function RoleWire(r: Role): string {
    match r
    case RoleUnspecified => "ROLE_UNSPECIFIED"
    case User => "ROLE_USER"
    case Agent => "ROLE_AGENT"
  }

  /** Validation of a wire string into a `Role`; any other string is rejected. */
  function RoleOf(s: string): (r: Option<Role>) {
    if s == "ROLE_UNSPECIFIED" then Some(RoleUnspecified)
    else if s == "ROLE_USER" then Some(User)
    else if s == "ROLE_AGENT" then Some(Agent)
    else None
  }

  /** A role's wire string reads back as that role, and only wire strings are roles. */
  lemma RoleRoundTrip(r: Role, s: string)
    ensures RoleOf(RoleWire(r)) == Some(r)
    ensures RoleOf(s).Some? ==> RoleWire(RoleOf(s).value) == s
  {
  }

  /** `TaskState`, a string enumeration. */
  datatype TaskState =
    | StateUnspecified | Submitted | Working | Completed | Failed | Cancelled
    | InputRequired | Rejected | AuthRequired

  function StateWire(t: TaskState): string {
    match t
    case StateUnspecified => "TASK_STATE_UNSPECIFIED"
    case Submitted => "TASK_STATE_SUBMITTED"
    case Working => "TASK_STATE_WORKING"
    case Completed => "TASK_STATE_COMPLETED"
    case Failed => "TASK_STATE_FAILED"
    case Cancelled => "TASK_STATE_CANCELLED"
    case InputRequired => "TASK_STATE_INPUT_REQUIRED"
    case Rejected => "TASK_STATE_REJECTED"
    case AuthRequired => "TASK_STATE_AUTH_REQUIRED"
  }

  /** Validation of a wire string into a `TaskState`; any other string is rejected. */
  function StateOf(s: string): (r: Option<TaskState>) {
    if s == "TASK_STATE_UNSPECIFIED" then Some(StateUnspecified)
    else if s == "TASK_STATE_SUBMITTED" then Some(Submitted)
    else if s == "TASK_STATE_WORKING" then Some(Working)
    else if s == "TASK_STATE_COMPLETED" then Some(Completed)
    else if s == "TASK_STATE_FAILED" then Some(Failed)
    else if s == "TASK_STATE_CANCELLED" then Some(Cancelled)
    else if s == "TASK_STATE_INPUT_REQUIRED" then Some(InputRequired)
    else if s == "TASK_STATE_REJECTED" then Some(Rejected)
    else if s == "TASK_STATE_AUTH_REQUIRED" then Some(AuthRequired)
    else None
  }

  /** A state's wire string reads back as that state, and only wire strings are states. */
  lemma StateRoundTrip(t: TaskState, s: string)
    ensures StateOf(StateWire(t)) == Some(t)
    ensures StateOf(s).Some? ==> StateWire(StateOf(s).value) == s
  {
  }

  /** Distinct roles and distinct states have distinct wire strings. */
  lemma WireInjective(r1: Role, r2: Role, t1: TaskState, t2: TaskState)
    ensures RoleWire(r1) == RoleWire(r2) ==> r1 == r2
    ensures StateWire(t1) == StateWire(t2) ==> t1 == t2
  {
    RoleRoundTrip(r1, RoleWire(r2));
    StateRoundTrip(t1, StateWire(t2));
  }

  // ---------------------------------------------------------------- records

  type Metadata = map<string, Json>

  datatype FilePart = FilePart(fileWithUri: Option<string>, fileWithBytes: Option<string>,
                               mimeType: Option<string>, name: Option<string>)

  datatype DataPart = DataPart(data: Metadata)

  datatype Part = Part(text: Option<string>, file: Option<FilePart>, data: Option<DataPart>,
                       metadata: Option<Metadata>)

  datatype Message = Message(messageId: string, contextId: Option<string>, taskId: Option<string>,
                             role: Role, content: seq<Part>, metadata: Option<Metadata>,
                             extensions: Option<seq<string>>)

  datatype TaskStatus = TaskStatus(state: TaskState, message: Option<Message>, timestamp: Option<Metadata>)

  datatype Artifact = Artifact(artifactId: string, name: Option<string>, description: Option<string>,
                               parts: seq<Part>, metadata: Option<Metadata>, extensions: Option<seq<string>>)

  datatype Task = Task(id: string, contextId: Option<string>, status: TaskStatus,
                       artifacts: seq<Artifact>, history: seq<Message>, metadata: Option<Metadata>)

  datatype TaskStatusUpdateEvent = TaskStatusUpdateEvent(
    taskId: string, contextId: Option<string>, status: TaskStatus, final: Option<bool>, metadata: Option<Metadata>)

  datatype TaskArtifactUpdateEvent = TaskArtifactUpdateEvent(
    taskId: string, contextId: Option<string>, artifact: Artifact, append: Option<bool>,
    lastChunk: Option<bool>, metadata: Option<Metadata>)

  datatype SendMessageResponse = SendMessageResponse(task: Option<Task>, message: Option<Message>)

  datatype StreamResponse = StreamResponse(
    task: Option<Task>, message: Option<Message>,
    statusUpdate: Option<TaskStatusUpdateEvent>, artifactUpdate: Option<TaskArtifactUpdateEvent>)

  // ---------------------------------------------------------------- validators

  /** 1 for a flag that holds, else 0; `sum(variants)` adds these. */
  function Bit(b: bool): nat {
    if b then 1 else 0
  }

  const FileVariantMessage: string := "File part must set exactly one of file_with_uri or file_with_bytes"

  const PartVariantMessage: string := "Part must include exactly one of text, file, or data"

  const ResponsePayloadMessage: string := "SendMessageResponse must contain exactly one of task or message"

  const StreamPayloadMessage: string := "StreamResponse must contain exactly one payload variant"

  /** The after-validator of `FilePart`: the two sources are compared by truthiness. */
  function ValidateFilePart(f: FilePart): (r: Result<FilePart, Raised>)
    ensures r.Ok? <==> (TruthyText(f.fileWithUri) && !TruthyText(f.fileWithBytes))
                       || (!TruthyText(f.fileWithUri) && TruthyText(f.fileWithBytes))
    ensures r.Ok? ==> r.value == f
    ensures r.Err? ==> r.error == ValueError(FileVariantMessage)
  {
    if TruthyText(f.fileWithUri) == TruthyText(f.fileWithBytes) then Err(ValueError(FileVariantMessage))
    else Ok(f)
  }

  /**
   * The validation of a `Part`: a nested file part is validated first, as it is built before
   * the part; then exactly one of `text`, `file` and `data` must be present.
   */
  function ValidatePart(p: Part): (r: Result<Part, Raised>)
    ensures r.Ok? <==> && (p.file.Some? ==> ValidateFilePart(p.file.value).Ok?)
                       && (|| (p.text.Some? && p.file.None? && p.data.None?)
                           || (p.text.None? && p.file.Some? && p.data.None?)
                           || (p.text.None? && p.file.None? && p.data.Some?))
    ensures r.Ok? ==> r.value == p
  {
    if p.file.Some? && ValidateFilePart(p.file.value).Err? then Err(ValidateFilePart(p.file.value).error)
    else if Bit(p.text.Some?) + Bit(p.file.Some?) + Bit(p.data.Some?) != 1 then Err(ValueError(PartVariantMessage))
    else Ok(p)
  }

  /** The after-validator of `SendMessageResponse`. */
  function ValidateSendMessageResponse(m: SendMessageResponse): (r: Result<SendMessageResponse, Raised>)
    ensures r.Ok? <==> (m.task.Some? && m.message.None?) || (m.task.None? && m.message.Some?)
    ensures r.Ok? ==> r.value == m
    ensures r.Err? ==> r.error == ValueError(ResponsePayloadMessage)
  {
    if m.task.None? == m.message.None? then Err(ValueError(ResponsePayloadMessage)) else Ok(m)
  }

  /** The after-validator of `StreamResponse`. */
  function ValidateStreamResponse(m: StreamResponse): (r: Result<StreamResponse, Raised>)
    ensures r.Ok? <==>
      || (m.task.Some? && m.message.None? && m.statusUpdate.None? && m.artifactUpdate.None?)
      || (m.task.None? && m.message.Some? && m.statusUpdate.None? && m.artifactUpdate.None?)
      || (m.task.None? && m.message.None? && m.statusUpdate.Some? && m.artifactUpdate.None?)
      || (m.task.None? && m.message.None? && m.statusUpdate.None? && m.artifactUpdate.Some?)
    ensures r.Ok? ==> r.value == m
    ensures r.Err? ==> r.error == ValueError(StreamPayloadMessage)
  {
    var variants := Bit(m.task.Some?) + Bit(m.message.Some?) + Bit(m.statusUpdate.Some?) + Bit(m.artifactUpdate.Some?);
    if variants != 1 then Err(ValueError(StreamPayloadMessage)) else Ok(m)
  }

  /** An empty file source counts as unset, so an empty URI beside bytes is one source. */
  lemma EmptyUriIsUnset(bytes: string, mimeType: Option<string>, name: Option<string>)
    requires bytes != ""
    ensures ValidateFilePart(FilePart(Some(""), Some(bytes), mimeType, name)).Ok?
    ensures ValidateFilePart(FilePart(Some(""), Some(""), mimeType, name)).Err?
    ensures ValidateFilePart(FilePart(None, None, mimeType, name)).Err?
  {
  }

  /** An empty text is present: it counts as the part's one variant. */
  lemma EmptyTextIsSet(metadata: Option<Metadata>, data: DataPart)
    ensures ValidatePart(Part(Some(""), None, None, metadata)).Ok?
    ensures ValidatePart(Part(Some(""), None, Some(data), metadata)).Err?
    ensures ValidatePart(Part(None, None, None, metadata)).Err?
  {
  }

  // ---------------------------------------------------------------- constructors

  /** `new_text_part`: a valid part carrying the text. */
  function NewTextPart(text: string): (p: Part)
    ensures ValidatePart(p) == Ok(p) && p.text == Some(text)
  {
    Part(Some(text), None, None, None)
  }

  /** `new_data_part`: a valid part carrying the data map. */
  function NewDataPart(data: Metadata): (p: Part)
    ensures ValidatePart(p) == Ok(p) && p.data == Some(DataPart(data))
  {
    Part(None, None, Some(DataPart(data)), None)
  }
}
