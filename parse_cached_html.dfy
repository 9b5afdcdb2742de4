/**
 * The offline `parse_cached_html` tool: it finds a cached file by path or by source id,
 * reduces an HTML page to its visible text, one stripped chunk per line, and stores the
 * result in the data storage under a key.
 */
module ParseCachedHtml {
  import opened Wrappers
  import opened Strings
  import opened Json
  import opened CacheManifest
  import opened ToolsBase

  /** The tool's arguments, as its input schema declares them; none is required. */
  datatype ParseArgs = ParseArgs(sourceId: Arg<string>, path: Arg<string>, key: Arg<string>)

  const NoPathMessage := "No path or source_id provided for cached parsing"

  /**
   * The file system, as `os.path.exists` and `open(...).read()` see a path value: a string,
   * or an integer (a boolean counts as one) taken as a file descriptor.
   */
  datatype Files = Files(present: Json -> bool, read: Json -> string)

  /** The raised error for a path that does not exist: the message holds `str(path)`. */
  function NotFound(path: Json): Raised
    requires IsScalar(path)
  {
    FileNotFoundError("Cached file not found: " + ScalarStr(path))
  }

  /** `os.stat`'s error for a path value that is a list or a dict. */
  function BadPathType(path: Json): Raised {
    TypeError("stat: path should be string, bytes, os.PathLike or integer, not " + TypeName(path))
  }

  /** The path argument as the value `arguments.get("path")` gives. */
  function ArgJson(a: Arg<string>): Json {
    if a.Given? then JStr(a.value) else JNull
  }

  /** The index of the first entry whose source id equals the given string, if any. */
  function FirstWithId(entries: seq<CacheEntry>, sourceId: string, from: nat): (r: Option<nat>)
    requires from <= |entries|
    ensures r.Some? ==> from <= r.value < |entries| && entries[r.value].sourceId == JStr(sourceId)
    decreases |entries| - from
  {
    if from == |entries| then None
    else if entries[from].sourceId == JStr(sourceId) then Some(from)
    else FirstWithId(entries, sourceId, from + 1)
  }

  /** No entry in `[from, k)` is skipped over: `k` is the first match at or after `from`. */
  lemma {:induction false} FirstWithIdFacts(entries: seq<CacheEntry>, sourceId: string, from: nat)
    requires from <= |entries|
    ensures var r := FirstWithId(entries, sourceId, from);
      && (r.Some? ==> forall j :: from <= j < r.value ==> entries[j].sourceId != JStr(sourceId))
      && (r.None? ==> forall j :: from <= j < |entries| ==> entries[j].sourceId != JStr(sourceId))
    decreases |entries| - from
  {
    if from < |entries| && entries[from].sourceId != JStr(sourceId) {
      FirstWithIdFacts(entries, sourceId, from + 1);
    }
  }

  /**
   * The path value the tool reads: the `path` argument, or, when that is falsy and a source id
   * is given, the `local_path` of the first manifest entry with that id, whatever its type.
   */
  function ResolvePath(args: ParseArgs, entries: seq<CacheEntry>): Json {
    var path := ArgJson(args.path);
    var sourceId := ArgValue(args.sourceId);
    if !Truthy(path) && TruthyText(sourceId) then
      match FirstWithId(entries, sourceId.value, 0)
      case Some(k) => entries[k].localPath
      case None => path
    else path
  }

  /**
   * `key or source_id or os.path.basename(path)`; only a string path has a base name, so a
   * descriptor path with neither key nor source id raises.
   */
  function StorageKey(args: ParseArgs, path: Json): Result<string, Raised> {
    if TruthyText(ArgValue(args.key)) then Ok(args.key.value)
    else if TruthyText(ArgValue(args.sourceId)) then Ok(args.sourceId.value)
    else if path.JStr? then Ok(Basename(path.s))
    else Err(TypeError("expected str, bytes or os.PathLike object, not " + TypeName(path)))
  }

  /** The content is taken for HTML when its lower-cased text holds `<html` or `<body`. */
  predicate LooksLikeHtml(content: string) {
    Contains(Lower(content), "<html") || Contains(Lower(content), "<body")
  }

  /** The stripped, non-blank pieces of one line split at double spaces. */
  function LineChunks(line: string): seq<string> {
    var pieces := Filter(Split(line, "  "), (p: string) => Strip(p) != "");
    seq(|pieces|, i requires 0 <= i < |pieces| => Strip(pieces[i]))
  }

  /** The chunks of every line of the text, line by line. */
  function Chunks(text: string): seq<string> {
    var lines := SplitLines(text);
    Flatten(seq(|lines|, i requires 0 <= i < |lines| => LineChunks(lines[i])))
  }

  /** The cleaned text: the chunks, one per line. */
  function CleanText(text: string): string {
    Join(Chunks(text), "\n")
  }

  /**
   * What is stored for a file's content: an HTML page becomes the cleaned form of its visible
   * text (`visibleText` stands for the parser's `get_text` after dropping scripts and styles),
   * anything else is stored as read.
   */
  function StoredText(content: string, visibleText: string -> string): string {
    if LooksLikeHtml(content) then CleanText(visibleText(content)) else content
  }

  /** The key and the text `call_tool` stores, or the error it raises. */
  function ParseOutcome(args: ParseArgs, entries: seq<CacheEntry>, fs: Files,
                        visibleText: string -> string): Result<(string, string), Raised>
  {
    var path := ResolvePath(args, entries);
    if !Truthy(path) then Err(ValueError(NoPathMessage))
    else if !IsScalar(path) then Err(BadPathType(path))
    else if !fs.present(path) then Err(NotFound(path))
    else
      match StorageKey(args, path)
      case Err(e) => Err(e)
      case Ok(k) => Ok((k, StoredText(fs.read(path), visibleText)))
  }

  /** The two lines the tool returns once it has stored under `key`. */
  function Report(key: string, keys: seq<string>): seq<string> {
    ["SUCCESS: Stored parsed content under key '" + key + "'.", "Keys available: " + Join(keys, ", ")]
  }

  /** The tool object: it holds the manifest it looks source ids up in. */
  class ParseCachedHtmlTool {
    var manifest: Manifest

    /** `__init__`, with the manifest already loaded. */
    constructor(m: Manifest)
      ensures manifest == m
    {
      manifest := m;
    }

    /** The path `call_tool` reads, with its loop over the manifest stopping at the first id match. */
    method LookUpPath(args: ParseArgs) returns (path: Json)
      ensures path == ResolvePath(args, manifest.entries)
    {
      var sourceId := ArgValue(args.sourceId);
      path := ArgJson(args.path);
      if !Truthy(path) && TruthyText(sourceId) {
        var entries := manifest.entries;
        FirstWithIdFacts(entries, sourceId.value, 0);
        for i := 0 to |entries|
          invariant path == ArgJson(args.path)
          invariant forall j :: 0 <= j < i ==> entries[j].sourceId != JStr(sourceId.value)
        {
          if entries[i].sourceId == JStr(sourceId.value) {
            path := entries[i].localPath;
            break;
          }
        }
      }
    }

    /**
     * `call_tool`: the storage changes only on success, by the one key written; the result
     * lists every key, the new one included.
     */
    method CallTool(args: ParseArgs, storage: DataStorage, fs: Files, visibleText: string -> string)
      returns (r: Result<seq<string>, Raised>)
      requires storage.Valid()
      modifies storage
      ensures storage.Valid()
      ensures var o := ParseOutcome(args, manifest.entries, fs, visibleText);
        && (o.Err? ==> r == Err(o.error) && storage.keys == old(storage.keys) && storage.data == old(storage.data))
        && (o.Ok? ==>
              && storage.data == old(storage.data)[o.value.0 := o.value.1]
              && storage.keys == (if o.value.0 in old(storage.data) then old(storage.keys)
                                  else old(storage.keys) + [o.value.0])
              && r == Ok(Report(o.value.0, storage.keys)))
    {
      var path := LookUpPath(args);
      if !Truthy(path) {
        return Err(ValueError(NoPathMessage));
      }
      if !IsScalar(path) {
        return Err(BadPathType(path));
      }
      if !fs.present(path) {
        return Err(NotFound(path));
      }
      var content := fs.read(path);
      var text := content;
      if Contains(Lower(content), "<html") || Contains(Lower(content), "<body") {
        text := CleanText(visibleText(content));
      }
      var storageKey := StorageKey(args, path);
      if storageKey.Err? {
        return Err(storageKey.error);
      }
      storage.Put(storageKey.value, text);
      return Ok(Report(storageKey.value, storage.keys));
    }
  }

  // ---------------------------------------------------------------- properties

  /** A truthy `path` argument is read as given; the source id is then not looked up. */
  lemma PathArgumentWins(args: ParseArgs, entries: seq<CacheEntry>)
    requires args.path.Given? && args.path.value != ""
    ensures ResolvePath(args, entries) == JStr(args.path.value)
  {
  }

  /**
   * Without a path, a source id resolves to the local path of the first entry carrying it;
   * with no such entry there is no path.
   */
  lemma SourceIdLookup(args: ParseArgs, entries: seq<CacheEntry>)
    requires !Truthy(ArgJson(args.path)) && args.sourceId.Given? && args.sourceId.value != ""
    ensures forall k :: 0 <= k < |entries| && entries[k].sourceId == JStr(args.sourceId.value)
                        && (forall j :: 0 <= j < k ==> entries[j].sourceId != JStr(args.sourceId.value))
                        ==> ResolvePath(args, entries) == entries[k].localPath
    ensures (forall e :: e in entries ==> e.sourceId != JStr(args.sourceId.value)) ==> !Truthy(ResolvePath(args, entries))
  {
    FirstWithIdFacts(entries, args.sourceId.value, 0);
  }

  /**
   * The errors: a `ValueError` exactly when no truthy path results; otherwise a `TypeError`
   * when the path is a list or a dict, and a `FileNotFoundError` naming the path exactly when
   * a path of another type does not exist.
   */
  lemma Errors(args: ParseArgs, entries: seq<CacheEntry>, fs: Files, visibleText: string -> string)
    ensures var o := ParseOutcome(args, entries, fs, visibleText);
      var path := ResolvePath(args, entries);
      && (o == Err(ValueError(NoPathMessage)) <==> !Truthy(path))
      && (Truthy(path) && !IsScalar(path) ==> o == Err(BadPathType(path)))
      && (o.Err? && o.error.FileNotFoundError? <==> Truthy(path) && IsScalar(path) && !fs.present(path))
      && (o.Err? && o.error.FileNotFoundError? ==> o.error.message == "Cached file not found: " + ScalarStr(path))
  {
  }

  /**
   * On success the key is the `key` argument, else the source id, else the last component of
   * the (string) path, and the stored text is the file's content, cleaned when it is HTML.
   */
  lemma Stored(args: ParseArgs, entries: seq<CacheEntry>, fs: Files, visibleText: string -> string)
    requires ParseOutcome(args, entries, fs, visibleText).Ok?
    ensures var (k, text) := ParseOutcome(args, entries, fs, visibleText).value;
      var path := ResolvePath(args, entries);
      var content := fs.read(path);
      && (args.key.Given? && args.key.value != "" ==> k == args.key.value)
      && (!TruthyText(ArgValue(args.key)) && args.sourceId.Given? && args.sourceId.value != "" ==> k == args.sourceId.value)
      && (!TruthyText(ArgValue(args.key)) && !TruthyText(ArgValue(args.sourceId)) ==>
            path.JStr? && '/' !in k && |k| <= |path.s| && path.s[|path.s| - |k|..] == k)
      && (!LooksLikeHtml(content) ==> text == content)
      && (LooksLikeHtml(content) ==> text == CleanText(visibleText(content)))
  {
  }

  /**
   * Taking the key never raises: a path that is not a string comes from a manifest entry,
   * found by a source id, which is then the key when no `key` is given.
   */
  lemma KeyNeverRaises(args: ParseArgs, entries: seq<CacheEntry>)
    requires Truthy(ResolvePath(args, entries))
    ensures StorageKey(args, ResolvePath(args, entries)).Ok?
  {
  }

  /**
   * Every chunk is non-empty, has no whitespace at either end, holds no line break and
   * no double space, and consists of characters of the text.
   */
  lemma {:induction false} ChunkShape(text: string)
    ensures forall c :: c in Chunks(text) ==>
      && |c| > 0 && !IsSpace(c[0]) && !IsSpace(c[|c| - 1])
      && NoPair(c, ' ', ' ')
      && (forall ch :: ch in c ==> ch in text && !IsLineBreak(ch))
  {
    var lines := SplitLines(text);
    var parts := seq(|lines|, i requires 0 <= i < |lines| => LineChunks(lines[i]));
    SplitLinesFacts(text);
    FlattenMembers(parts);
    forall i | 0 <= i < |lines|
      ensures forall c :: c in parts[i] ==>
        && |c| > 0 && !IsSpace(c[0]) && !IsSpace(c[|c| - 1])
        && NoPair(c, ' ', ' ')
        && (forall ch :: ch in c ==> ch in text && !IsLineBreak(ch))
    {
      assert lines[i] in lines;
      LineChunkShape(lines[i]);
    }
  }

  /** A chunk of `src`: non-empty, no whitespace at either end, no double space, only characters of `src`. */
  predicate ChunkOf(c: string, src: string) {
    && |c| > 0 && !IsSpace(c[0]) && !IsSpace(c[|c| - 1])
    && NoPair(c, ' ', ' ')
    && (forall ch :: ch in c ==> ch in src)
  }

  lemma LineChunkShape(line: string)
    ensures forall c :: c in LineChunks(line) ==> ChunkOf(c, line)
  {
    var keep := (p: string) => Strip(p) != "";
    var pieces := Filter(Split(line, "  "), keep);
    FilterMembers(Split(line, "  "), keep);
    var chunks := LineChunks(line);
    assert |chunks| == |pieces| && forall i :: 0 <= i < |pieces| ==> chunks[i] == Strip(pieces[i]);
    forall c | c in chunks
      ensures ChunkOf(c, line)
    {
      var i :| 0 <= i < |chunks| && chunks[i] == c;
      assert pieces[i] in pieces;
      PieceOfLine(pieces[i], line);
    }
  }

  /** A non-blank piece of a line split at double spaces, stripped. */
  lemma PieceOfLine(p: string, line: string)
    requires p in Split(line, "  ") && Strip(p) != ""
    ensures ChunkOf(Strip(p), line)
  {
    SplitNoPair(line, ' ', ' ');
    PieceShape(p, line);
  }

  /** One kept piece of a line, stripped. */
  lemma PieceShape(p: string, line: string)
    requires Strip(p) != "" && NoPair(p, ' ', ' ')
    requires forall ch :: ch in p ==> ch in line
    ensures var c := Strip(p);
      && |c| > 0 && !IsSpace(c[0]) && !IsSpace(c[|c| - 1])
      && NoPair(c, ' ', ' ')
      && (forall ch :: ch in c ==> ch in line)
  {
    StripFacts(p);
    StripKeepsNoPair(p, ' ', ' ');
    StripChars(p);
  }

  /** The cleaned text splits back, at its line feeds, into exactly the chunks. */
  lemma CleanTextSplits(text: string)
    requires Chunks(text) != []
    ensures Split(CleanText(text), "\n") == Chunks(text)
  {
    var cs := Chunks(text);
    ChunkShape(text);
    forall i | 0 <= i < |cs|
      ensures '\n' !in cs[i]
    {
      assert cs[i] in cs;
    }
    SplitJoin(cs, '\n');
  }

  /** A text that is already one stripped chunk per line is its own cleaned form. */
  lemma {:induction false} CleanTextOfChunk(c: string)
    requires |c| > 0 && !IsSpace(c[0]) && !IsSpace(c[|c| - 1]) && NoPair(c, ' ', ' ')
    requires forall ch :: ch in c ==> !IsLineBreak(ch)
    ensures CleanText(c) == c
  {
    LineEndFacts(c, 0);
    assert SplitLines(c) == [c];
    OneChunk(c);
    var parts := seq(1, i requires 0 <= i < 1 => LineChunks([c][i]));
    assert parts == [[c]];
    assert Flatten(parts) == Flatten(parts[..0]) + [c] == [c];
  }

  lemma OneChunk(c: string)
    requires |c| > 0 && !IsSpace(c[0]) && !IsSpace(c[|c| - 1]) && NoPair(c, ' ', ' ')
    ensures LineChunks(c) == [c]
  {
    NoDoubleSpaceSplit(c);
    assert LStrip(c) == c && RStrip(c) == c;
    assert Filter([c], (p: string) => Strip(p) != "") == [c];
  }

  lemma {:induction false} NoDoubleSpaceSplit(c: string)
    requires NoPair(c, ' ', ' ')
    ensures Split(c, "  ") == [c]
    decreases |c|
  {
    if |c| > 0 {
      assert !IsPrefix("  ", c);
      NoDoubleSpaceSplit(c[1..]);
      assert [c[0]] + c[1..] == c;
    }
  }
}
