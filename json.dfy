/**
 * JSON values as Python's `json.loads` hands them back, and the decoder
 * itself, which the model takes as a parameter rather than defining the
 * whole JSON grammar.
 */
module Json {

  datatype Option<+T> = None | Some(value: T)

  /** A decoded JSON value. A number keeps its literal text, so no floating
      point is involved; an object is a dictionary from keys to values. */
  datatype Value =
    | Null
    | Bool(b: bool)
    | Num(literal: string)
    | Str(s: string)
    | Arr(elems: seq<Value>)
    | Obj(fields: map<string, Value>)

  /** `json.loads`: the decoded value, or None where it raises
      `json.JSONDecodeError`. It is deterministic, so a function. */
  type Decoder = string -> Option<Value>
}
