/**
 * A parsed "YYYY-MM-DD HH:MM:SS" time, as `datetime.strptime` yields it.
 * Calendar validation is not modelled: a timestamp is a tuple of six fields,
 * and two timestamps compare field by field, most significant first, which is
 * how Python orders valid `datetime` values.
 */
module Timestamps {

  datatype Timestamp = Timestamp(year: int, month: int, day: int, hour: int, minute: int, second: int)

  /** Strict lexicographic order on the six fields. */
  predicate Before(a: Timestamp, b: Timestamp)
  {
    if a.year != b.year then a.year < b.year
    else if a.month != b.month then a.month < b.month
    else if a.day != b.day then a.day < b.day
    else if a.hour != b.hour then a.hour < b.hour
    else if a.minute != b.minute then a.minute < b.minute
    else a.second < b.second
  }

  /** `a <= b` on datetimes. */
  predicate AtOrBefore(a: Timestamp, b: Timestamp)
  {
    a == b || Before(a, b)
  }

  /** The order is total, so every stored time is either due or in the future. */
  lemma AtOrBeforeTotal(a: Timestamp, b: Timestamp)
    ensures AtOrBefore(a, b) || Before(b, a)
    ensures !(AtOrBefore(a, b) && Before(b, a))
  {
  }

  /** A time that is due stays due as the clock moves forward. */
  lemma AtOrBeforeTransitive(a: Timestamp, b: Timestamp, c: Timestamp)
    requires AtOrBefore(a, b) && AtOrBefore(b, c)
    ensures AtOrBefore(a, c)
  {
  }
}
