/** Option and Result wrappers shared by every module. */
module Common {

  /** An optional value: `None` stands for an absent (undefined) field. */
  datatype Option<+T> = None | Some(value: T) {
    function GetOr(default: T): (r: T)
      ensures Some? ==> r == value
      ensures None? ==> r == default
    {
      match this
      case Some(v) => v
      case None => default
    }
  }

  /** JavaScript truthiness of an optional string: `undefined` and `""` are falsy. */
  predicate Truthy(s: Option<string>) {
    s.Some? && s.value != []
  }

  /** The outcome of an operation that either returns a value or throws a typed error. */
  datatype Result<+T, +E> = Ok(value: T) | Err(error: E)

  /** A JSON value, as far as the serialised records need one. */
  datatype Json = JString(s: string) | JNumber(n: int) | JBool(b: bool) | JNull

  /** A JSON object: field name to value. */
  type JsonObject = map<string, Json>

  /** A failed schema validator: the path and its message. */
  datatype FieldError = FieldError(path: string, message: string)
}
