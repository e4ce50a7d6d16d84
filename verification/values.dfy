/**
 The values an issue field or a request-body field can hold, and the two
 JavaScript conversions the handlers rely on: truthiness (used for the
 optional fields of a new issue) and `toString` (used by filtering and by
 id matching).
 */
module Values {

  datatype Option<+T> = None | Some(value: T)

  /** A field value. `Str` and `Bool` arrive in request bodies, `Time` is a
      server-stamped `Date` (milliseconds since the epoch) and `Null` is a
      JSON `null`. An `undefined` field is a key that is absent from its map. */
  datatype Value = Str(s: string) | Bool(b: bool) | Time(ms: nat) | Null

  /** JavaScript truthiness: empty string, `false` and `null` are falsy;
      a `Date` is an object and always truthy. */
  predicate Truthy(v: Value) {
    match v
    case Str(s) => s != ""
    case Bool(b) => b
    case Time(_) => true
    case Null => false
  }

  /** Calling `toString()` on `null` throws, so only non-null values render. */
  predicate Renders(v: Value) {
    !v.Null?
  }

  /** The string form of a value. A `Date` is rendered as its decimal
      millisecond count, standing in for the calendar text of
      `Date.prototype.toString`. */
  function ToStr(v: Value): string
    requires Renders(v)
  {
    match v
    case Str(s) => s
    case Bool(b) => if b then "true" else "false"
    case Time(ms) => Decimal(ms)
  }

  /** JavaScript `==` between a stored value and a submitted one, where the
      stored side is `Null` for an undefined property: `null` and
      `undefined` equal each other and nothing else; other values compare
      structurally (type coercions between strings and booleans are not
      modelled). */
  predicate LooselyEqual(a: Value, b: Value) {
    if a.Null? || b.Null? then a.Null? && b.Null? else a == b
  }

  function DigitChar(d: nat): char
    requires d < 10
  {
    "0123456789"[d]
  }

  /** The decimal numeral of `n`, most significant digit first. */
  function Decimal(n: nat): string
  {
    if n < 10 then [DigitChar(n)] else Decimal(n / 10) + [DigitChar(n % 10)]
  }
}
