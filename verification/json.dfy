/** JSON values as the configurator stores and serves them, and the Python operators
    (`in`, `len`) the request handlers apply to them. */
module Json {
  import opened Wrappers

  /** A JSON value. Object keys are strings; numbers are integers (see README). */
  datatype Json =
    | JNull
    | JBool(b: bool)
    | JNum(n: int)
    | JStr(s: string)
    | JArr(items: seq<Json>)
    | JObj(fields: map<string, Json>)

  /** The text-level collaborators: `json.loads` (None when the text is not JSON) and the
      digest of `json.dumps(value, sort_keys=True)` used to compare two copies. */
  datatype Codec = Codec(parse: string -> Option<Json>, canon: Json -> string)

  /** The digest distinguishes every pair of different values. */
  ghost predicate Injective(canon: Json -> string)
  {
    forall a: Json, b: Json {:trigger canon(a), canon(b)} :: canon(a) == canon(b) ==> a == b
  }

  /** `needle` occurs as a contiguous piece of `hay` (Python's `in` on two strings). */
  predicate IsSubstring(needle: string, hay: string)
  {
    exists i | 0 <= i <= |hay| - |needle| :: OccursAt(needle, hay, i)
  }

  predicate OccursAt(needle: string, hay: string, i: int)
    requires 0 <= i <= |hay| - |needle|
  {
    hay[i..i + |needle|] == needle
  }

  /** Python `key in value` for a string `key`: key membership on objects, element
      membership on arrays, substring on strings; None where Python raises TypeError. */
  function Contains(value: Json, key: string): Option<bool>
  {
    match value
    case JObj(m) => Some(key in m)
    case JArr(items) => Some(JStr(key) in items)
    case JStr(s) => Some(IsSubstring(key, s))
    case _ => None
  }

  /** Python `len(value)`; None where Python raises TypeError. */
  function Length(value: Json): Option<nat>
  {
    match value
    case JStr(s) => Some(|s|)
    case JArr(items) => Some(|items|)
    case JObj(m) => Some(|m|)
    case _ => None
  }

  /** The JSON array of strings that encodes a list of names. */
  function StrArray(names: seq<string>): (r: seq<Json>)
    ensures |r| == |names|
    ensures forall i :: 0 <= i < |names| ==> r[i] == JStr(names[i])
  {
    if names == [] then [] else [JStr(names[0])] + StrArray(names[1..])
  }
}
