/** Local calendar arithmetic as the core uses it: JavaScript `Date` with a
    0-based month, where setting month 12 rolls over into January of the
    next year. Time zones and daylight saving are not modelled. */
module Calendar {

  const DayMs: int := 24 * 60 * 60 * 1000

  /** A calendar month; `month` is 0-based (0 is January) as in `Date`. */
  datatype YearMonth = YearMonth(year: int, month: int) {
    predicate Valid() { 0 <= month < 12 }
    /** Months since January of year 0: consecutive months differ by one. */
    function Index(): int { year * 12 + month }
  }

  /** `new Date(y, m + 1, ...)` / `setMonth(getMonth() + 1)`: the following
      month, December rolling into January of the next year. */
  function NextMonth(ym: YearMonth): (r: YearMonth)
    requires ym.Valid()
    ensures r.Valid() && r.Index() == ym.Index() + 1
    ensures ym.month == 11 ==> r == YearMonth(ym.year + 1, 0)
    ensures ym.month < 11 ==> r.year == ym.year
  {
    if ym.month == 11 then YearMonth(ym.year + 1, 0) else YearMonth(ym.year, ym.month + 1)
  }

  /** A calendar month is determined by its index. */
  lemma IndexInjective(a: YearMonth, b: YearMonth)
    requires a.Valid() && b.Valid() && a.Index() == b.Index()
    ensures a == b
  {
  }

  /** A local date-time: the month, the day of the month and the
      milliseconds since local midnight. */
  datatype LocalDateTime = LocalDateTime(ym: YearMonth, day: int, msOfDay: int) {
    predicate Valid() { ym.Valid() && 1 <= day <= 31 && 0 <= msOfDay < DayMs }
  }

  /** `a.getTime() < b.getTime()` for two local date-times: the order of
      month, then day, then time of day. */
  predicate Before(a: LocalDateTime, b: LocalDateTime) {
    a.ym.Index() < b.ym.Index()
    || (a.ym.Index() == b.ym.Index() && (a.day < b.day
        || (a.day == b.day && a.msOfDay < b.msOfDay)))
  }

  /** `Before` is a strict total order on date-times. */
  lemma BeforeIrreflexive(a: LocalDateTime)
    ensures !Before(a, a)
  {
  }

  lemma BeforeTransitive(a: LocalDateTime, b: LocalDateTime, c: LocalDateTime)
    requires Before(a, b) && Before(b, c)
    ensures Before(a, c)
  {
  }

  lemma BeforeTotal(a: LocalDateTime, b: LocalDateTime)
    requires a.Valid() && b.Valid()
    ensures Before(a, b) || Before(b, a) || a == b
  {
    if a.ym.Index() == b.ym.Index() {
      IndexInjective(a.ym, b.ym);
    }
  }
}
