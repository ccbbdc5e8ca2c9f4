/** Confidence levels and the per-field result the resolvers produce. */
module Records {

  /** How far a resolved value can be trusted; `Undetected` is the source's NONE. */
  datatype Confidence = High | Medium | Low | Undetected

  /** Confidence of a value derived from another: HIGH gives MEDIUM, anything else LOW. */
  function Downgrade(c: Confidence): (r: Confidence)
    ensures r == Medium || r == Low
    ensures r == Medium <==> c == High
  {
    if c == High then Medium else Low
  }

  /**
   * Which resolvers a conversion runs: the ones sire_converter.py calls, or the
   * corrected ones (country keys normalised like the input, exact document keys
   * before containment, dates read whole before the first-word cut).
   */
  datatype Resolvers = AsWritten | Corrected

  /** The resolved value of one canonical field on one record. */
  datatype FieldResult = FieldResult(value: string, confidence: Confidence, source: string, notes: string)
}
