/** Request bodies as parsed JSON, and the string formats the validators rely on. */
module Body {
  import opened Wrappers

  /**
   * A JSON value. Arrays and objects are one case: no schema of the application accepts one
   * where it expects a scalar.
   */
  datatype Value = Str(s: string) | Num(n: real) | Bool(b: bool) | Null | Composite

  /** A UUID primary or foreign key, as its text. */
  type Uuid = string

  /** A parsed JSON object body. */
  type Body = map<string, Value>

  /** The string formats Joi checks with `email()`, `uri()` and `uuid()`, left abstract. */
  datatype Formats = Formats(isEmail: string -> bool, isUri: string -> bool, isUuid: string -> bool)

  /** A JSON number with no fractional part. */
  predicate IsInteger(v: Value) {
    v.Num? && v.n.Floor as real == v.n
  }

  /** The integer a body field holds. */
  function IntOf(v: Value): (i: int)
    requires IsInteger(v)
    ensures i as real == v.n
  {
    v.n.Floor
  }

  /** JavaScript truthiness of a body field that may be absent. */
  predicate Truthy(v: Option<Value>) {
    match v
    case None => false
    case Some(Str(s)) => s != []
    case Some(Num(n)) => n != 0.0
    case Some(Bool(b)) => b
    case Some(Null) => false
    case Some(Composite) => true
  }

  /** The field `key` of the body, or `None` when it is absent (`undefined`). */
  function Field(b: Body, key: string): Option<Value> {
    if key in b then Some(b[key]) else None
  }
}
