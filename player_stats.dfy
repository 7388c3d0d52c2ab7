/**
 * The stat record a scraped player carries under each English stat key, as
 * the pages that show or compare players read it.
 */
module PlayerStats {
  import opened JsText

  /** One line of a player's club career: the period when the line has one, and the club. */
  datatype CareerEntry = CareerEntry(period: Option<string>, club: string)

  /** A stat's `value`: the parsed number, or the raw text when it parsed to 0 or NaN. */
  datatype StatValue = Number(n: int) | Text(s: string)

  /**
   * `parseInt(stat.value) || 0`: a number reads back as itself (its decimal
   * rendering parses to it), a text as its leading integer, NaN as 0.
   */
  function NumericValue(v: StatValue): int {
    match v
    case Number(n) => n
    case Text(s) => match ParseInt(s) case NaN => 0 case Int(n) => n
  }
}
