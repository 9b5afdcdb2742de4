/**
 * The Python values that flow through the harness as parsed JSON or `literal_eval` results:
 * `None`, booleans, integers, strings, lists and string-keyed dicts.
 */
module Json {
  import opened Wrappers
  import opened Strings

  datatype Json =
    | JNull
    | JBool(b: bool)
    | JInt(i: int)
    | JStr(s: string)
    | JList(items: seq<Json>)
    | JDict(fields: map<string, Json>)

  /** Python truthiness: `None`, `False`, `0` and empty strings, lists and dicts are false. */
  predicate Truthy(v: Json) {
    match v
    case JNull => false
    case JBool(b) => b
    case JInt(i) => i != 0
    case JStr(s) => |s| > 0
    case JList(items) => |items| > 0
    case JDict(fields) => |fields| > 0
  }

  /** Python truthiness of an optional string: present and non-empty. */
  predicate TruthyText(s: Option<string>) {
    s.Some? && s.value != ""
  }

  /** Python's name for the type of a value, as interpreter messages spell it. */
  function TypeName(v: Json): string {
    match v
    case JNull => "NoneType"
    case JBool(_) => "bool"
    case JInt(_) => "int"
    case JStr(_) => "str"
    case JList(_) => "list"
    case JDict(_) => "dict"
  }

  /** The interpreter's error for `v.name` when `v` has no such attribute. */
  function NoAttribute(v: Json, name: string): Raised {
    AttributeError("'" + TypeName(v) + "' object has no attribute '" + name + "'")
  }

  /** The interpreter's error for iterating over a value that cannot be iterated. */
  function NotIterable(v: Json): Raised {
    TypeError("'" + TypeName(v) + "' object is not iterable")
  }

  /** A value other than a list or a dict; exactly these can be hashed (looked up in a set). */
  predicate IsScalar(v: Json) {
    !v.JList? && !v.JDict?
  }

  /** `str(v)` for a value other than a list or a dict. */
  function ScalarStr(v: Json): string
    requires IsScalar(v)
  {
    match v
    case JNull => "None"
    case JBool(b) => if b then "True" else "False"
    case JInt(i) => IntToString(i)
    case JStr(s) => s
  }

  /**
   * `str(v)`: exact for the scalars; `render` stands for the text of a list or a dict, which
   * depends on the key order a dict was written in.
   */
  function Str(v: Json, render: Json -> string): string {
    if IsScalar(v) then ScalarStr(v) else render(v)
  }

  /** The number a boolean or an integer stands for in comparisons (`True == 1`). */
  function AsNumber(v: Json): Option<int> {
    match v
    case JBool(b) => Some(if b then 1 else 0)
    case JInt(i) => Some(i)
    case _ => None
  }

  /** Python's `==` on hashable values: equal values, or a boolean and the integer it stands for. */
  predicate SameValue(a: Json, b: Json) {
    a == b || (AsNumber(a).Some? && AsNumber(a) == AsNumber(b))
  }

  /** `d.get(key)` on a dict; `None` for an absent key and for a value that is not a dict. */
  function Get(v: Json, key: string): Option<Json> {
    if v.JDict? && key in v.fields then Some(v.fields[key]) else None
  }

  /** `d.get(key)`, with an absent key read as `None` as Python does. */
  function GetOrNull(v: Json, key: string): Json
    requires v.JDict?
  {
    if key in v.fields then v.fields[key] else JNull
  }

  /** `a or b`: the first operand when it is truthy, else the second. */
  function Or(a: Json, b: Json): Json {
    if Truthy(a) then a else b
  }
}
