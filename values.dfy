/** Option and Result, the failure-carrying wrappers used throughout the model. */
module Wrappers {
  datatype Option<+T> = None | Some(value: T)

  datatype Result<+T, +E> = Ok(value: T) | Err(error: E)
}

/**
 * The values that flow through an agent pipeline: JSON values (RFC 8259) as
 * Python's json module hands them over, pipeline state, and the outcome of
 * running an agent.
 */
module Values {

  /**
   * A JSON value. Python's `None` and JSON `null` are the same value, so `Null`
   * also stands for "no value" wherever the source returns `None`. Integers and
   * floats are distinct Python types, so they are distinct constructors.
   */
  datatype Json =
    | Null
    | Bool(b: bool)
    | Int(i: int)
    | Float(x: real)
    | Str(s: string)
    | Arr(items: seq<Json>)
    | Obj(fields: map<string, Json>)

  /** Pipeline state: a dictionary from string keys to JSON values. */
  type State = map<string, Json>

  /**
   * What calling an agent's `run` yields: the returned dictionary, or the
   * exception it raised, represented by its `str(e)` text.
   */
  datatype Outcome = Returned(out: State) | Raised(message: string)

  /** Python's name for the type of a JSON value, as it appears in error messages. */
  function TypeName(v: Json): string
  {
    match v
    case Null => "NoneType"
    case Bool(_) => "bool"
    case Int(_) => "int"
    case Float(_) => "float"
    case Str(_) => "str"
    case Arr(_) => "list"
    case Obj(_) => "dict"
  }

  /** True iff `v` is a dictionary holding every key of `required`. */
  predicate HasAll(v: Json, required: seq<string>)
  {
    v.Obj? && forall k :: k in required ==> k in v.fields
  }
}
