// Calendar arithmetic of section 21.4.1 of ECMA-262, on unbounded integer time values.
module EcmaDate {

  const MS_PER_DAY := 86_400_000

  // `/` and `%` by a positive constant are floor and modulo here, as the standard asks.
  function Day(t: int): int {
    t / MS_PER_DAY
  }

  predicate IsLeap(y: int) {
    y % 4 == 0 && (y % 100 != 0 || y % 400 == 0)
  }

  function DaysInYear(y: int): int {
    if IsLeap(y) then 366 else 365
  }

  // The day number of 1 January, counted year by year from the epoch.
  function DayFromYear(y: int): int
    decreases if y < 1970 then 1970 - y else y - 1970
  {
    if y == 1970 then 0
    else if y > 1970 then DayFromYear(y - 1) + DaysInYear(y - 1)
    else DayFromYear(y + 1) - DaysInYear(y)
  }

  lemma YearLength(y: int)
    ensures DayFromYear(y + 1) == DayFromYear(y) + DaysInYear(y)
  {
  }

  // The standard's closed form of DayFromYear.
  function DayFromYearFormula(y: int): int {
    365 * (y - 1970) + (y - 1969) / 4 - (y - 1901) / 100 + (y - 1601) / 400
  }

  lemma QuotientStep(x: int, m: int)
    requires m == 4 || m == 100 || m == 400
    ensures (x + 1) / m == x / m + if (x + 1) % m == 0 then 1 else 0
  {
  }

  lemma FormulaStep(y: int)
    ensures DayFromYearFormula(y + 1) == DayFromYearFormula(y) + DaysInYear(y)
  {
    QuotientStep(y - 1969, 4);
    QuotientStep(y - 1901, 100);
    QuotientStep(y - 1601, 400);
  }

  lemma {:induction false} DayFromYearIsFormula(y: int)
    ensures DayFromYear(y) == DayFromYearFormula(y)
    decreases if y < 1970 then 1970 - y else y - 1970
  {
    if y > 1970 {
      FormulaStep(y - 1);
      DayFromYearIsFormula(y - 1);
    } else if y < 1970 {
      FormulaStep(y);
      DayFromYearIsFormula(y + 1);
    }
  }

  lemma {:induction false} LaterYear(y: int, z: int)
    requires y <= z
    ensures DayFromYear(z) >= DayFromYear(y) + 365 * (z - y)
    decreases z - y
  {
    if y < z {
      LaterYear(y, z - 1);
      YearLength(z - 1);
    }
  }

  // YearFromTime, by search: the year whose days contain the day.
  function YearOf(d: int): (y: int)
    ensures DayFromYear(y) <= d < DayFromYear(y + 1)
  {
    YearNear(d, 1970)
  }

  function YearNear(d: int, guess: int): (y: int)
    ensures DayFromYear(y) <= d < DayFromYear(y + 1)
    decreases if d < DayFromYear(guess) then DayFromYear(guess) - d else d - DayFromYear(guess)
  {
    YearLength(guess - 1);
    YearLength(guess);
    if d < DayFromYear(guess) then
      // The standard's year is one lower whenever the day lies before this one begins.
      if d >= DayFromYear(guess - 1) then guess - 1 else YearNear(d, guess - 1)
    else if d >= DayFromYear(guess + 1) then YearNear(d, guess + 1)
    else guess
  }

  // The standard's definition: the largest year that has begun by then.
  lemma YearOfIsLargest(d: int, y: int)
    ensures y <= YearOf(d) <==> DayFromYear(y) <= d
  {
    if y <= YearOf(d) { LaterYear(y, YearOf(d)); } else { LaterYear(YearOf(d) + 1, y); }
  }

  lemma YearOfUnique(d: int, y: int)
    requires DayFromYear(y) <= d < DayFromYear(y + 1)
    ensures YearOf(d) == y
  {
    YearOfIsLargest(d, y);
    YearOfIsLargest(d, y + 1);
  }

  function MonthLength(m: int, leap: bool): (n: int)
    requires 0 <= m < 12
    ensures 28 <= n <= 31
  {
    if m == 1 then (if leap then 29 else 28) else if m == 3 || m == 5 || m == 8 || m == 10 then 30 else 31
  }

  // Days before month m (0 = January, 12 = the next January).
  function MonthStart(m: int, leap: bool): (n: int)
    requires 0 <= m <= 12
    ensures n >= 28 * m
  {
    if m == 0 then 0 else MonthStart(m - 1, leap) + MonthLength(m - 1, leap)
  }

  lemma TwelveMonths(leap: bool)
    ensures MonthStart(12, leap) == if leap then 366 else 365
  {
    if leap { assert MonthStart(12, true) == 366; } else { assert MonthStart(12, false) == 365; }
  }

  function DayInYear(d: int): (n: int)
    ensures 0 <= n < DaysInYear(YearOf(d))
  {
    YearLength(YearOf(d));
    d - DayFromYear(YearOf(d))
  }

  // MonthFromTime, 0-based.
  function MonthOf(d: int): (m: int)
    ensures 0 <= m < 12
    ensures MonthStart(m, IsLeap(YearOf(d))) <= DayInYear(d) < MonthStart(m + 1, IsLeap(YearOf(d)))
  {
    TwelveMonths(IsLeap(YearOf(d)));
    MonthFrom(DayInYear(d), IsLeap(YearOf(d)), 0)
  }

  function MonthFrom(n: int, leap: bool, m: int): (r: int)
    requires 0 <= m < 12 && MonthStart(m, leap) <= n < MonthStart(12, leap)
    ensures m <= r < 12 && MonthStart(r, leap) <= n < MonthStart(r + 1, leap)
    decreases 12 - m
  {
    if n < MonthStart(m + 1, leap) then m else MonthFrom(n, leap, m + 1)
  }

  // DateFromTime, 1-based.
  function DateOf(d: int): (n: int)
    ensures 1 <= n <= 31
  {
    DayInYear(d) - MonthStart(MonthOf(d), IsLeap(YearOf(d))) + 1
  }

  // MakeDay: a month outside 0..11 carries into the year.
  function MakeDay(y: int, m: int, date: int): int {
    FirstOfMonth(y + m / 12, m % 12) + date - 1
  }

  function FirstOfMonth(y: int, m: int): int
    requires 0 <= m < 12
  {
    DayFromYear(y) + MonthStart(m, IsLeap(y))
  }

  // MakeFullYear, which Date.UTC applies: years 0 to 99 mean 1900 to 1999.
  function FullYear(y: int): int {
    if 0 <= y <= 99 then 1900 + y else y
  }

  function DateUtc(y: int, m: int, date: int): int {
    MakeDay(FullYear(y), m, date) * MS_PER_DAY
  }

  lemma MonthInRange(m: int)
    requires 0 <= m < 12
    ensures m / 12 == 0 && m % 12 == m
  {
  }

  // A day is rebuilt from its calendar fields, so the fields name the day.
  lemma FieldsNameDay(d: int)
    ensures MakeDay(YearOf(d), MonthOf(d), DateOf(d)) == d
  {
    MonthInRange(MonthOf(d));
  }

  // Date.UTC rebuilds the same day, except that years 0 to 99 land in a later century.
  lemma DateUtcOfFields(d: int)
    ensures var day := MakeDay(FullYear(YearOf(d)), MonthOf(d), DateOf(d));
      if 0 <= YearOf(d) <= 99 then day > d else day == d
  {
    FieldsNameDay(d);
    if 0 <= YearOf(d) <= 99 {
      LaterYear(YearOf(d) + 1, 1900 + YearOf(d));
      MonthInRange(MonthOf(d));
    }
  }

  lemma SameFieldsSameDay(a: int, b: int)
    requires YearOf(a) == YearOf(b) && MonthOf(a) == MonthOf(b) && DateOf(a) == DateOf(b)
    ensures a == b
  {
    FieldsNameDay(a);
    FieldsNameDay(b);
  }

  lemma {:induction false} MonthsInOrder(m: int, n: int, leap: bool)
    requires 0 <= m <= n <= 12
    ensures MonthStart(m, leap) <= MonthStart(n, leap)
    decreases n - m
  {
    if m < n {
      MonthsInOrder(m, n - 1, leap);
    }
  }

  lemma MonthBounds(y: int, m: int)
    requires 0 <= m < 12
    ensures MakeDay(y, m, 1) == DayFromYear(y) + MonthStart(m, IsLeap(y))
    ensures MakeDay(y, m + 1, 1) == DayFromYear(y) + MonthStart(m + 1, IsLeap(y))
    ensures MakeDay(y, m, 1) + 28 <= MakeDay(y, m + 1, 1) <= MakeDay(y, m, 1) + 31
  {
    if m == 11 {
      YearLength(y);
      TwelveMonths(IsLeap(y));
      assert (m + 1) / 12 == 1 && (m + 1) % 12 == 0;
    } else {
      assert (m + 1) / 12 == 0 && (m + 1) % 12 == m + 1;
    }
    MonthInRange(m);
  }

  // The days of one calendar month are an interval.
  lemma MonthIsInterval(y: int, m: int, d: int)
    requires 0 <= m < 12
    ensures YearOf(d) == y && MonthOf(d) == m <==> MakeDay(y, m, 1) <= d < MakeDay(y, m + 1, 1)
    ensures MakeDay(y, m, 1) + 28 <= MakeDay(y, m + 1, 1) <= MakeDay(y, m, 1) + 31
  {
    MonthBounds(y, m);
    if MakeDay(y, m, 1) <= d < MakeDay(y, m + 1, 1) {
      MonthOfUnique(y, m, d - DayFromYear(y), d);
    }
  }

  lemma MonthOfUnique(y: int, m: int, n: int, d: int)
    requires 0 <= m < 12 && d == DayFromYear(y) + n
    requires MonthStart(m, IsLeap(y)) <= n < MonthStart(m + 1, IsLeap(y))
    ensures YearOf(d) == y && MonthOf(d) == m
  {
    var leap := IsLeap(y);
    MonthsInOrder(0, m, leap);
    MonthsInOrder(m + 1, 12, leap);
    TwelveMonths(leap);
    YearLength(y);
    YearOfUnique(d, y);
    MonthFromUnique(m, n, MonthOf(d), leap);
  }

  lemma MonthFromUnique(m: int, n: int, k: int, leap: bool)
    requires 0 <= m < 12 && MonthStart(m, leap) <= n < MonthStart(m + 1, leap)
    requires 0 <= k < 12 && MonthStart(k, leap) <= n < MonthStart(k + 1, leap)
    ensures m == k
  {
    if k < m {
      MonthsInOrder(k + 1, m, leap);
    } else if m < k {
      MonthsInOrder(m + 1, k, leap);
    }
  }
}
