/** Optional values and the exceptions the modelled Python code can raise. */
module Wrappers {

  datatype Option<+T> = None | Some(value: T) {
    function GetOr(default: T): T {
      match this
      case Some(v) => v
      case None => default
    }
  }

  /** The Python exception classes that the modelled code can raise on reachable paths (`ValidationError` is pydantic's). */
  datatype Exc = AttributeError | IndexError | ValueError | TypeError | ValidationError

  /** The outcome of a Python call: it returns a value or raises. */
  datatype Result<+T> = Ok(value: T) | Err(error: Exc) {
    predicate IsFailure() { Err? }

    function PropagateFailure<U>(): Result<U>
      requires Err?
    {
      Err(error)
    }

    function Extract(): T
      requires Ok?
    {
      value
    }
  }

  /** Python truthiness of an optional string: present and non-empty. */
  predicate Truthy(s: Option<string>) {
    s.Some? && s.value != ""
  }

  /** Python truthiness of an optional boolean flag. */
  predicate IsSet(b: Option<bool>) {
    b == Some(true)
  }

  /** Python truthiness of an optional list. */
  predicate NonEmpty<T>(l: Option<seq<T>>) {
    l.Some? && l.value != []
  }
}
