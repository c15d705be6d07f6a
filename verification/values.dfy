/**
 Values shared by every part of the model: an optional value, the JSON
 values that travel in request and response bodies, bytes, and Python's
 notion of truthiness for those values.
 */
module Values {

  datatype Option<+T> = None | Some(value: T)

  /** An octet, as written to a socket. */
  newtype byte = b: int | 0 <= b < 256

  /** A decoded JSON document. Numbers are integers only. */
  datatype Json =
    | JNull
    | JBool(b: bool)
    | JNum(n: int)
    | JStr(s: string)
    | JArr(items: seq<Json>)
    | JObj(fields: map<string, Json>)

  /** Python's `bool(value)` for a decoded JSON value: `None`, `False`, `0`,
      and empty strings, lists and dicts are falsy; everything else is truthy. */
  predicate Truthy(v: Json) {
    match v
    case JNull => false
    case JBool(b) => b
    case JNum(n) => n != 0
    case JStr(s) => |s| > 0
    case JArr(items) => |items| > 0
    case JObj(fields) => |fields| > 0
  }

  /** Python's `dict.get(key, default)`. */
  function Get(m: map<string, Json>, key: string, default: Json): Json {
    if key in m then m[key] else default
  }

  /** Which reading of a faulty step of the source an operation follows: the
      code as written, or the correction of it. */
  datatype Version = AsWritten | Corrected

  /** The concatenation of a list of lists, in order (`list.extend` in a loop). */
  function Concat<T>(ss: seq<seq<T>>): seq<T>
    decreases |ss|
  {
    if ss == [] then [] else Concat(ss[..|ss| - 1]) + ss[|ss| - 1]
  }
}
