/**
 * What every handler shares: the JSON reply `{ success, message, data }` with
 * its status code, and the truthiness tests the handlers apply to body fields.
 */
module Http {
  import opened Wrappers
  import Text

  /** A handler's reply: a success status with its message and data, or an
      error status with `success: false` and a message. A success reply
      without a message carries the empty string. */
  datatype Reply<+T> = Ok(code: nat, message: string, data: T) | Fail(code: nat, message: string)

  /** What a page's `fetch` of an endpoint comes to: an exception (the
      network failed or the body was not JSON), with its message when it has
      one, or the endpoint's reply. */
  datatype Fetched<+T> = Threw(message: Option<string>) | Replied(reply: Reply<T>)

  /** A body or query string field is truthy: present, not null, not "". */
  predicate Given(field: Option<string>) {
    field.Some? && field.value != ""
  }

  /** `a || b` on two optional strings. */
  function OrElse(field: Option<string>, fallback: string): (r: string)
    ensures Given(field) ==> r == field.value
    ensures !Given(field) ==> r == fallback
    ensures fallback != "" ==> r != ""
  {
    if Given(field) then field.value else fallback
  }

  /** `field || null`: the empty string becomes null. */
  function OrNull(field: Option<string>): (r: Option<string>)
    ensures r.Some? <==> Given(field)
    ensures r.Some? ==> r == field
  {
    if Given(field) then field else None
  }

  /** A JSON scalar that a client may send for an id: a number or a string. */
  datatype Scalar = Num(n: int) | Str(s: string)

  /** JavaScript truthiness of an optional scalar: 0 and "" are false. */
  predicate Truthy(v: Option<Scalar>) {
    match v
    case None => false
    case Some(Num(n)) => n != 0
    case Some(Str(s)) => s != ""
  }

  /** How a template literal writes the value: `undefined` when absent. */
  function Render(v: Option<Scalar>): string {
    match v
    case None => "undefined"
    case Some(Num(n)) => Text.IntToString(n)
    case Some(Str(s)) => s
  }

  /** `parseInt(v)`: the value is first turned into its text. `None` is NaN. */
  function ParseIntOf(v: Option<Scalar>): (r: Option<int>)
    ensures v.Some? && v.value.Num? ==> r == Some(v.value.n)
    ensures v.None? ==> r.None?
  {
    match v
    case None =>
      Text.ParseNonNumeric("undefined");
      Text.ParseInt("undefined")
    case Some(Num(n)) =>
      Text.ParseIntToString(n);
      Text.ParseInt(Text.IntToString(n))
    case Some(Str(s)) => Text.ParseInt(s)
  }
}
