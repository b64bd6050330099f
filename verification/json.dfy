/** JSON values as `json.loads` produces them, Python truthiness over them, and the JSON text
    codec (RFC 8259) as an abstract pair of functions. */
module JsonValues {
  import opened Bytes
  import opened Wrappers

  /** A decoded JSON value. Objects are maps from member names to values. */
  datatype Json =
    | JNull
    | JBool(b: bool)
    | JInt(i: int)
    | JFloat(r: real)
    | JStr(s: string)
    | JArr(items: seq<Json>)
    | JObj(fields: map<string, Json>)

  type Object = map<string, Json>

  /** Python truthiness (`if x:`): None, False, zero, and empty strings, lists and dicts are false. */
  predicate Truthy(j: Json) {
    match j
    case JNull => false
    case JBool(b) => b
    case JInt(i) => i != 0
    case JFloat(r) => r != 0.0
    case JStr(s) => s != ""
    case JArr(a) => a != []
    case JObj(m) => m != map[]
  }

  /** Whether the value may be used as a Python dict key; lists and dicts raise TypeError. */
  predicate Hashable(j: Json) {
    !j.JArr? && !j.JObj?
  }

  /** `d.get(key)`: the member, or None when it is missing. */
  function Get(d: Object, key: string): Json {
    if key in d then d[key] else JNull
  }

  /** `d.get(key, default)`: the default is used only when the member is missing, not when it is null. */
  function GetOr(d: Object, key: string, default: Json): Json {
    if key in d then d[key] else default
  }

  /** `a or b`. */
  function Or(a: Json, b: Json): Json {
    if Truthy(a) then a else b
  }

  /** Python's `str(x)`: the string itself for a string, otherwise a rendering the model does not fix. */
  function PyStr(j: Json, render: Json -> string): string {
    if j.JStr? then j.s else render(j)
  }

  /** The result of `json.loads(payload.decode('utf-8'))`: a value, or one of the two exceptions. */
  datatype Loaded = Parsed(value: Json) | JsonDecodeError | UnicodeDecodeError

  /** The JSON text codec: `dumps(value, ensure_ascii)` encoded as UTF-8, and the inverse. */
  datatype Codec = Codec(dumps: (Json, bool) -> bytes, loads: bytes -> Loaded)

  /** A codec that reads back every value it writes, whichever `ensure_ascii` mode wrote it, and
      never writes an empty text (every JSON text has at least one character, RFC 8259 section 2). */
  ghost predicate Lawful(c: Codec) {
    forall j: Json, asciiOnly: bool ::
      c.loads(c.dumps(j, asciiOnly)) == Parsed(j) && |c.dumps(j, asciiOnly)| > 0
  }

  /** Text-level parsing, `json.loads(text)` on a `str`: None stands for JSONDecodeError. */
  type TextParser = string -> Option<Json>

}
