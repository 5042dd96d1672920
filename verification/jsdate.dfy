/**
 * The parts of JavaScript's `Date` that the storage layer calls. Their
 * internals (lenient parsing, rollover of impossible days, ISO rendering)
 * are platform-defined, so they are parameters of the model.
 */
module JsDate {
  import opened Wrappers

  /** The time value of a valid Date: milliseconds since the epoch. */
  type Instant = int

  /** `parse(s)` is the Date constructed from the text `s`: Some(time value)
      when that Date is valid, None when its time value is NaN. `toIsoString`
      renders a valid Date as ISO 8601 text. */
  datatype DateApi = DateApi(parse: string -> Option<Instant>, toIsoString: Instant -> string)

  /** The Date constructed from `s` has a time value (is not NaN). */
  predicate IsValidDateString(api: DateApi, s: string) {
    api.parse(s).Some?
  }

  /** Rendering an instant as ISO text and parsing that text gives the instant back. */
  predicate IsoReparses(api: DateApi, t: Instant) {
    api.parse(api.toIsoString(t)) == Some(t)
  }
}
