/** Calendar months as the ledger reads them from JavaScript `Date` values. */
module Calendar {

  /** A calendar month: `month0` counts from 0 for January to 11 for December,
      as `Date.prototype.getMonth` does. */
  datatype YearMonth = YearMonth(year: int, month0: int)

  predicate Valid(m: YearMonth) {
    0 <= m.month0 < 12
  }

  /** Months elapsed since January of year 0. */
  function Index(m: YearMonth): int {
    m.year * 12 + m.month0
  }

  /** The month `new Date(year, month)` falls in: a month outside 0..11 carries into the year,
      so month -1 is December of the year before. */
  function Normalize(year: int, month: int): (r: YearMonth)
    ensures Valid(r)
    ensures Index(r) == year * 12 + month
  {
    YearMonth(year + month / 12, month % 12)
  }

  /** Two valid months with the same index are the same month. */
  lemma IndexInjective(a: YearMonth, b: YearMonth)
    requires Valid(a) && Valid(b) && Index(a) == Index(b)
    ensures a == b
  {
  }

  /** The month before `now`, computed as `new Date(now.getFullYear(), now.getMonth() - 1)`. */
  function PreviousMonth(now: YearMonth): (r: YearMonth)
    ensures Valid(r)
    ensures Index(r) == Index(now) - 1
  {
    Normalize(now.year, now.month0 - 1)
  }

  /** The month after `m`. */
  function NextMonth(m: YearMonth): (r: YearMonth)
    ensures Valid(r)
    ensures Index(r) == Index(m) + 1
  {
    Normalize(m.year, m.month0 + 1)
  }

  /** The previous month is the calendar predecessor: January rolls back to December of the
      year before, and any other month steps back one within the year. */
  lemma PreviousMonthRollsOver(now: YearMonth)
    requires Valid(now)
    ensures PreviousMonth(now) == if now.month0 == 0 then YearMonth(now.year - 1, 11)
                                  else YearMonth(now.year, now.month0 - 1)
  {
    var expected := if now.month0 == 0 then YearMonth(now.year - 1, 11) else YearMonth(now.year, now.month0 - 1);
    IndexInjective(PreviousMonth(now), expected);
  }

  /** Stepping back a month and then forward again returns to the month itself. */
  lemma NextOfPrevious(now: YearMonth)
    requires Valid(now)
    ensures NextMonth(PreviousMonth(now)) == now
  {
    IndexInjective(NextMonth(PreviousMonth(now)), now);
  }
}
