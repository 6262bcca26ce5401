/** Failure-aware values shared by the whole model. */
module Outcome {

  datatype Option<+T> = None | Some(value: T)

  /** The outcome of an operation that may throw. An `Err` carries the
      `message` of the thrown `Error`. */
  datatype Result<+T> = Ok(value: T) | Err(error: string)

  /** A JavaScript value that may be missing (`undefined`), `null`, or present. */
  datatype Nullish<+T> = Missing | Null | Present(value: T)

  /** JavaScript truthiness of a string that may be absent: `null` and `""`
      are both falsy. */
  predicate Truthy(s: Option<string>)
  {
    s.Some? && s.value != ""
  }
}

/** The date library, abstracted. Instants are milliseconds since the Unix
    epoch (the value of `Date.prototype.getTime`). */
module Time {

  /** A zero-based month index, as `getUTCMonth` returns it. */
  type Month = m: int | 0 <= m < 12

  /** `new Date(text).getTime()`, and `getUTCFullYear`, `getUTCMonth` and
      `setHours(23, 59, 59, 999)` (in the server's local zone) on an
      instant, left abstract. */
  datatype Calendar = Calendar(
    parse: string -> int,
    utcYear: int -> int,
    utcMonth: int -> Month,
    endOfLocalDay: int -> int)

  /** The clock as the services read it: the current instant, and the
      instant of January 1st, 00:00 local time, of the current year
      (`new Date(now.getFullYear(), 0, 1)`). */
  datatype Clock = Clock(nowMs: int, localYearStartMs: int)

  /** `Math.floor(ms / 1000)`: an instant in whole epoch seconds. */
  function EpochSeconds(ms: int): (s: int)
    ensures s * 1000 <= ms < s * 1000 + 1000
  {
    ms / 1000
  }
}

/** Distances are integer metres; the user interface shows kilometres. */
module Units {

  const MetresPerKm: int := 1000

  /** `Math.round(metres / 1000)`: kilometres, halves rounded up. */
  function RoundKm(metres: int): (km: int)
    ensures km * MetresPerKm - 500 <= metres < km * MetresPerKm + 500
  {
    (metres + 500) / MetresPerKm
  }

  lemma RoundKmPositive(metres: int)
    ensures RoundKm(metres) > 0 <==> metres >= 500
  {
  }
}
