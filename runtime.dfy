/** What the core takes from its JavaScript runtime and libraries, made
    explicit: the clock, `Number(..)`, `new Date(..)`, the string form of a
    date, the pattern check of `new RegExp(..)`, and the format checks of
    zod and mongoose. Each is a parameter of
    the model, so nothing here decides how those libraries parse. */
module Runtime {
  import opened Wrappers

  /** Milliseconds in a day (the unit of `OLDER_THAN_DAYS` / `IN_LAST_DAYS`). */
  const MsPerDay: int := 86_400_000

  /** The largest magnitude of a JavaScript time value; `new Date(n)` with a
      larger |n| is an Invalid Date. */
  const MaxTimeValue: int := 8_640_000_000_000_000

  datatype Env = Env(
    now: int,                           // `new Date()` / `Date.now()`, in ms
    numberOf: string -> Option<int>,    // `Number(s)`; None when it is NaN
    dateOf: string -> Option<int>,      // `new Date(s).getTime()`; None for Invalid Date
    isoDateOf: string -> Option<int>,   // zod `.datetime({ offset: true })` then `new Date(s)`
    dateText: int -> string,            // `String(date)`
    isEmail: string -> bool,            // zod `.email()`
    objectIdOf: string -> Option<nat>,  // `ObjectId.isValid(s)` and the id it names
    regExpOk: string -> bool)           // `new RegExp(p, 'i')` does not throw a SyntaxError

  /** A JSON value as a route reads it from a parsed request body. Numbers
      are integral here; objects and arrays that a schema does not descend
      into are `Composite`; an absent key is `Missing`. */
  datatype JsonValue = Missing | Null | Bool(b: bool) | Number(n: int) | Str(s: string) | Composite

  /** JavaScript truthiness, as the source's `!x` tests use it. */
  predicate Truthy(j: JsonValue) {
    match j
    case Missing => false
    case Null => false
    case Bool(b) => b
    case Number(n) => n != 0
    case Str(s) => s != ""
    case Composite => true
  }

  /** `new Date(t)` for a number: valid only inside the time-value range. */
  function DateOfNumber(n: int): (r: Option<int>)
    ensures r.Some? <==> -MaxTimeValue <= n <= MaxTimeValue
    ensures r.Some? ==> r.value == n
  {
    if -MaxTimeValue <= n <= MaxTimeValue then Some(n) else None
  }
}
