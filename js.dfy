/**
 * JavaScript values as the scheduler meets them: decoded JSON properties,
 * numbers computed by the program (which may be NaN), and the outcome of a
 * request to the reward API.
 */
module Js {
  import opened Wrappers

  /**
   * A JSON-decoded property value, or `undefined` for a property that is
   * absent. `Structured` stands for any array or object. Numbers are
   * integers in this model.
   */
  datatype Value = Undefined | Null | Boolean(b: bool) | Number(n: int) | Text(s: string) | Structured

  /** JavaScript truthiness: `!v` is false exactly when `Truthy(v)`. */
  predicate Truthy(v: Value) {
    match v
    case Undefined => false
    case Null => false
    case Boolean(b) => b
    case Number(n) => n != 0
    case Text(s) => s != ""
    case Structured => true
  }

  /** A number the program computes: an integer, or NaN. */
  datatype Num = NaN | Int(value: int)

  /**
   * A nullable number (`None` is `null` or `undefined`) that passes the
   * source's guard `!x || isNaN(x)`: present, not NaN and not 0.
   */
  predicate Present(x: Option<Num>) {
    x.Some? && x.value.Int? && x.value.value != 0
  }

  /**
   * The decoded body of a 2xx response. `NullBody` is the JSON literal
   * `null`, whose properties cannot be read; every other body is read
   * through its fields (a body that is not an object has none). `json` is
   * the text `JSON.stringify` gives for it.
   */
  datatype Body = NullBody | Record(fields: map<string, Value>, json: string)

  /** Property access `data[key]` on a readable body. */
  function Get(fields: map<string, Value>, key: string): Value {
    if key in fields then fields[key] else Undefined
  }

  /**
   * The outcome of one request: the decoded body, or the message of the
   * error raised by the transport, by the status test or by `response.json()`.
   */
  datatype Fetched = Received(body: Body) | Failed(message: string)

  /** The message of the TypeError raised by reading property `key` of `null`. */
  function NullAccessMessage(key: string): string {
    "Cannot read properties of null (reading '" + key + "')"
  }
}
