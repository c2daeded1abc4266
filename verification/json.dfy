/** The optional value the model uses for JavaScript's `undefined` / `null` results. */
module Wrappers {

  datatype Option<+T> = None | Some(value: T) {

    /** The value, or the given default when absent (JavaScript's `??`). */
    function GetOr(default: T): T {
      match this
      case Some(v) => v
      case None => default
    }
  }
}

/**
 * Decoded JSON values and the states a file of the store directory can be in once it has been
 * read and handed to `JSON.parse`.
 */
module JsonValues {

  import opened Wrappers

  /** A value produced by `JSON.parse`. Numbers are integers here: only their truthiness matters. */
  datatype JsonValue =
    | JNull
    | JBool(b: bool)
    | JNum(n: int)
    | JStr(str: string)
    | JArr(elems: seq<JsonValue>)
    | JObj(fields: map<string, JsonValue>)

  /**
   * What reading one file yields: the read failed, the file is empty, its text is not JSON,
   * or it parsed to a value.
   */
  datatype Content = Unreadable | Empty | BadJson | Json(value: JsonValue)

  /** JavaScript truthiness of a parsed value (`NaN` cannot come out of `JSON.parse`). */
  predicate Truthy(v: JsonValue) {
    match v
    case JNull => false
    case JBool(b) => b
    case JNum(n) => n != 0
    case JStr(s) => s != ""
    case JArr(_) => true
    case JObj(_) => true
  }

  /**
   * `v?.name` for a parsed value: only an object can carry a property; an absent property and
   * `null` both read as missing (so that `?? default` replaces them).
   */
  function Property(v: JsonValue, name: string): Option<JsonValue>
  {
    if v.JObj? && name in v.fields && v.fields[name] != JNull then Some(v.fields[name]) else None
  }
}
