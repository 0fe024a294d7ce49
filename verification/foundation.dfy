/**
 * The Foundation values the client stores but never computes with: dates and
 * URLs. Parsing them (ISO 8601 timestamps, `URL(string:)`) and formatting dates
 * depend on Foundation and on the clock, so they enter the model as functions
 * supplied by the caller.
 */
module Foundation {
  import opened Optional

  /** A point in time, as seconds since Foundation's reference date. */
  datatype Date = Date(timeIntervalSinceReferenceDate: real)

  /** A parsed URL, reduced to the parts the client reads. */
  datatype Url = Url(absoluteString: string, pathExtension: string)

  /** The parsers the extractors call on attribute values. */
  datatype Decoders = Decoders(
    date: string -> Option<Date>,   // ISO8601DateFormatter().date(from:)
    url: string -> Option<Url>)     // URL(string:)

  /**
   * `date?.shortFormattedString() ?? "-"`: the relative age of an optional
   * date, rendered by the caller-supplied `short`, or a dash when absent.
   */
  function ShortOrDash(date: Option<Date>, short: Date -> string): (r: string)
    ensures date.None? ==> r == "-"
    ensures date.Some? ==> r == short(date.value)
  {
    match date
    case None => "-"
    case Some(d) => short(d)
  }
}
