/**
 Shared vocabulary of the claim pipeline model: optional values, the outcome of a call
 that may raise, the dynamically typed values that external services hand back, and the
 HTTP-level response of an endpoint.
 */
module Base {

  /** Python's `X | None`. */
  datatype Option<+T> = None | Some(value: T) {
    function GetOr(default: T): T {
      match this
      case Some(v) => v
      case None => default
    }
  }

  /** The outcome of a call that either returns a value or raises an exception. */
  datatype Attempt<+T> = Returned(value: T) | Raised

  /**
   The JSON-like values handed back by the external services (the sentiment API,
   the chat-completion service, a translation pipeline), as Python sees them after
   decoding: `None`, booleans, numbers, strings, lists and string-keyed dicts.
   */
  datatype PyValue =
    | PyNull
    | PyBool(b: bool)
    | PyNumber(n: int)
    | PyStr(s: string)
    | PyList(items: seq<PyValue>)
    | PyDict(fields: map<string, PyValue>)

  /** Python's `d.get(key)`: the value under `key`, or `None` when it is absent. */
  function DictGet(fields: map<string, PyValue>, key: string): (r: PyValue)
    ensures key !in fields ==> r == PyNull
    ensures key in fields ==> r == fields[key]
  {
    if key in fields then fields[key] else PyNull
  }

  /** Python's truthiness of an optional string: `None` and `""` are falsy. */
  predicate IsTruthy(s: Option<string>) {
    s.Some? && s.value != ""
  }

  const BadRequest: nat := 400
  const NotFound: nat := 404
  const InternalServerError: nat := 500

  /** What an endpoint answers: a value, or an HTTP error status. */
  datatype Response<+T> = Ok(value: T) | HttpError(status: nat)
}
