// The window of every calendar read: what the caller asked for, or the current Bangkok month.
module BookingWindow {
  import opened Wrappers
  import opened EcmaDate
  import opened BookingCode

  const MAX_DAYS := 366

  datatype WindowResult = Window(range: Range) | RangeInvalid | RangeTooWide

  function MonthStartInstant(now: int): int {
    var d := LocalDay(now);
    DateUtc(YearOf(d), MonthOf(d), 1) - BANGKOK_OFFSET_MS
  }

  function MonthEndInstant(now: int): int {
    var d := LocalDay(now);
    DateUtc(YearOf(d), MonthOf(d) + 1, 1) - BANGKOK_OFFSET_MS
  }

  function ResolveWindow(now: int, from: Option<int>, to: Option<int>): (r: WindowResult)
    ensures r.Window? ==> 0 <= r.range.end - r.range.start <= MAX_DAYS * MS_PER_DAY
    ensures r.Window? && from.Some? ==> r.range.start == from.value
    ensures r.Window? && to.Some? ==> r.range.end == to.value
  {
    var start := if from.Some? then from.value else MonthStartInstant(now);
    var end := if to.Some? then to.value else MonthEndInstant(now);
    if end < start then RangeInvalid
    else if end - start > MAX_DAYS * MS_PER_DAY then RangeTooWide
    else Window(Range(start, end))
  }

  predicate SameMonth(t: int, now: int) {
    YearOf(LocalDay(t)) == YearOf(LocalDay(now)) && MonthOf(LocalDay(t)) == MonthOf(LocalDay(now))
  }

  // The default is never refused, and holds now exactly when Date.UTC leaves the year alone.
  lemma DefaultHoldsNow(now: int)
    ensures var r := ResolveWindow(now, None, None);
      r.Window? && (Within(r.range, now) <==> !TwoDigitYear(now))
  {
    var d := LocalDay(now);
    var y, m := FullYear(YearOf(d)), MonthOf(d);
    MonthIsInterval(y, m, d);
    if TwoDigitYear(now) {
      MonthIsInterval(YearOf(d), m, d);
      assert !(MakeDay(y, m, 1) <= d < MakeDay(y, m + 1, 1));
    }
  }

  // The default window starts and ends at Bangkok midnights, first day of this month to first of the next.
  lemma DefaultBounds(now: int)
    requires !TwoDigitYear(now)
    ensures var y, m := YearOf(LocalDay(now)), MonthOf(LocalDay(now));
      ResolveWindow(now, None, None) == Window(Range(
        MakeDay(y, m, 1) * MS_PER_DAY - BANGKOK_OFFSET_MS, MakeDay(y, m + 1, 1) * MS_PER_DAY - BANGKOK_OFFSET_MS))
    ensures var r := ResolveWindow(now, None, None);
      r.Window? && 28 * MS_PER_DAY <= r.range.end - r.range.start <= 31 * MS_PER_DAY
  {
    MonthIsInterval(YearOf(LocalDay(now)), MonthOf(LocalDay(now)), LocalDay(now));
  }

  lemma DaysOfRange(first: int, last: int, t: int)
    ensures Within(Range(first * MS_PER_DAY - BANGKOK_OFFSET_MS, last * MS_PER_DAY - BANGKOK_OFFSET_MS), t)
       <==> first <= LocalDay(t) < last
  {
  }

  lemma DayInside(first: int, last: int, t: int)
    requires first <= LocalDay(t) < last && !TwoDigitYear(t)
    ensures first * MS_PER_DAY - BANGKOK_OFFSET_MS <= DayRange(t).start
    ensures DayRange(t).end <= last * MS_PER_DAY - BANGKOK_OFFSET_MS
  {
    DayRangeStart(t);
  }

  // A window cut at Bangkok midnights holds whole days.
  lemma WholeDays(r: WindowResult, first: int, last: int, t: int)
    requires r == Window(Range(first * MS_PER_DAY - BANGKOK_OFFSET_MS, last * MS_PER_DAY - BANGKOK_OFFSET_MS))
    ensures Within(r.range, t) <==> first <= LocalDay(t) < last
    ensures Within(r.range, t) && !TwoDigitYear(t) ==> r.range.start <= DayRange(t).start && DayRange(t).end <= r.range.end
  {
    DaysOfRange(first, last, t);
    if first <= LocalDay(t) < last && !TwoDigitYear(t) { DayInside(first, last, t); }
  }

  // The default window is the Bangkok month of now: its instants are exactly that month's, and it is
  // cut at day boundaries, so it is made of whole days.
  lemma DefaultIsBangkokMonth(now: int, t: int)
    requires !TwoDigitYear(now)
    ensures var r := ResolveWindow(now, None, None);
      && r.Window?
      && (Within(r.range, t) <==> SameMonth(t, now))
      && (Within(r.range, t) ==> r.range.start <= DayRange(t).start && DayRange(t).end <= r.range.end)
  {
    var y, m := YearOf(LocalDay(now)), MonthOf(LocalDay(now));
    DefaultBounds(now);
    InMonth(y, m, now, t);
    WholeDays(ResolveWindow(now, None, None), MakeDay(y, m, 1), MakeDay(y, m + 1, 1), t);
  }

  lemma InMonth(y: int, m: int, now: int, t: int)
    requires y == YearOf(LocalDay(now)) && m == MonthOf(LocalDay(now)) && !TwoDigitYear(now)
    ensures MakeDay(y, m, 1) <= LocalDay(t) < MakeDay(y, m + 1, 1) <==> SameMonth(t, now)
    ensures SameMonth(t, now) ==> !TwoDigitYear(t)
  {
    MonthIsInterval(y, m, LocalDay(t));
  }
}
