/** JavaScript values as the plugin sees them in request bodies and in a store's
    metadata map, with the two pieces of JavaScript semantics the core relies on:
    truthiness (`if (x)`, `!x`) and the `Date` constructor (`new Date(x)`). */
module JsValues {

  datatype Option<+T> = None | Some(value: T)

  datatype Result<+T, +E> = Success(value: T) | Failure(error: E)

  datatype Outcome<+E> = Pass | Fail(error: E)

  /** A JSON value, plus `Date` for a JavaScript Date object (what date coercion
      produces and what the workflow step writes back into metadata).
      Numbers are modelled as integers. */
  datatype Value =
    | Null
    | Bool(b: bool)
    | Num(n: int)
    | Str(s: string)
    | Date(ms: int)
    | Obj(fields: map<string, Value>)

  /** A store's metadata bag: an arbitrary JSON object. */
  type Metadata = map<string, Value>

  /** A date-string parser: the milliseconds since the epoch the string names,
      or None where JavaScript's parser yields NaN. */
  type DateParser = string -> Option<int>

  /** JavaScript truthiness: null, false, 0 and "" are falsy; every object,
      Date included, is truthy. */
  predicate Truthy(v: Value)
  {
    match v
    case Null => false
    case Bool(b) => b
    case Num(n) => n != 0
    case Str(s) => s != ""
    case Date(_) => true
    case Obj(_) => true
  }

  /** The largest time value a Date can hold (ECMAScript TimeClip). */
  const MaxTime: int := 8_640_000_000_000_000

  /** ECMAScript TimeClip: out-of-range time values become NaN (None). */
  function TimeClip(t: int): Option<int>
  {
    if -MaxTime <= t <= MaxTime then Some(t) else None
  }

  /** The time value of `new Date(v)`; None stands for an invalid date (NaN).
      null converts to 0 and booleans to 0 or 1; a string goes through the
      date parser; a plain object converts to "[object Object]", which no
      date parser accepts. */
  function NewDate(v: Value, parse: DateParser): (r: Option<int>)
    ensures r.Some? ==> -MaxTime <= r.value <= MaxTime
    ensures v.Date? ==> (r.Some? <==> -MaxTime <= v.ms <= MaxTime)
    ensures v.Date? && r.Some? ==> r.value == v.ms
    ensures v.Obj? ==> r.None?
  {
    match v
    case Null => Some(0)
    case Bool(b) => Some(if b then 1 else 0)
    case Num(n) => TimeClip(n)
    case Str(s) => (match parse(s) case Some(t) => TimeClip(t) case None => None)
    case Date(ms) => TimeClip(ms)
    case Obj(_) => None
  }

  /** `m[key]`, with None for a missing key (JavaScript's undefined). */
  function Lookup(m: Metadata, key: string): Option<Value>
  {
    if key in m then Some(m[key]) else None
  }
}
