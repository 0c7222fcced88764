// The human-readable booking number and the Bangkok day it is counted within.
module BookingCode {
  import opened Decimal
  import opened EcmaDate

  const BANGKOK_OFFSET_MS := 420 * 60_000
  const BUDDHIST_ERA_OFFSET := 543
  const SEQUENCE_WIDTH := 3

  // The Bangkok calendar day an instant falls on, as a day number.
  function LocalDay(at: int): int {
    Day(at + BANGKOK_OFFSET_MS)
  }

  function Pad2(n: nat): string {
    PadZero(FromNat(n), 2)
  }

  function DayLabel(d: int): string {
    FromInt(YearOf(d) + BUDDHIST_ERA_OFFSET) + Pad2(MonthOf(d) + 1) + Pad2(DateOf(d))
  }

  // `bookingCodeDatePart`: Buddhist year, month and date of the Bangkok day.
  function DatePart(at: int): string {
    DayLabel(LocalDay(at))
  }

  datatype Range = Range(start: int, end: int)

  predicate Within(r: Range, t: int) {
    r.start <= t < r.end
  }

  // `bangkokDayRange`: it rebuilds midnight through Date.UTC.
  function DayRange(at: int): Range {
    var d := LocalDay(at);
    var start := DateUtc(YearOf(d), MonthOf(d), DateOf(d)) - BANGKOK_OFFSET_MS;
    Range(start, start + MS_PER_DAY)
  }

  // What a code says: a Bangkok day and how many of its rows were counted. CodesDiffer shows that the
  // string says no less.
  datatype Code = Code(day: int, count: nat)

  function CodeString(c: Code): string {
    "BR-" + DayLabel(c.day) + "-" + PadZero(FromNat(c.count + 1), SEQUENCE_WIDTH)
  }

  // `formatBookingCode`.
  function FormatCode(at: int, sameDayCount: nat): string {
    "BR-" + DatePart(at) + "-" + PadZero(FromNat(sameDayCount + 1), SEQUENCE_WIDTH)
  }

  // The Bangkok year is one Date.UTC reads as 19xx.
  predicate TwoDigitYear(at: int) {
    0 <= YearOf(LocalDay(at)) <= 99
  }

  // ---- The date part names the day ----

  lemma Pad2Shape(n: nat)
    requires n < 100
    ensures |Pad2(n)| == 2 && AllDigits(Pad2(n)) && Value(Pad2(n)) == n
  {
    PadZeroValue(FromNat(n), 2);
    assert n < 10 || (FromNat(n) == FromNat(n / 10) + [DigitChar(n % 10)] && |FromNat(n / 10)| == 1);
  }

  lemma SplitFixedWidth(a: string, b: string, c: string, a': string, b': string, c': string)
    requires |b| == |b'| == |c| == |c'| == 2 && a + b + c == a' + b' + c'
    ensures a == a' && b == b' && c == c'
  {
    var w, n := a + b + c, |a|;
    assert n == |a'|;
    assert w[..n] == a && w[n..n + 2] == b && w[n + 2..] == c;
    assert (a' + b' + c')[..n] == a' && (a' + b' + c')[n..n + 2] == b' && (a' + b' + c')[n + 2..] == c';
  }

  lemma Pad2Injective(m: nat, n: nat)
    requires m < 100 && n < 100 && Pad2(m) == Pad2(n)
    ensures m == n
  {
    Pad2Shape(m);
    Pad2Shape(n);
  }

  lemma DatePartNamesDay(a: int, b: int)
    ensures DatePart(a) == DatePart(b) <==> LocalDay(a) == LocalDay(b)
  {
    if DatePart(a) == DatePart(b) {
      DatePartFields(LocalDay(a), LocalDay(b));
      SameFieldsSameDay(LocalDay(a), LocalDay(b));
    }
  }

  lemma DatePartFields(d: int, e: int)
    requires DayLabel(d) == DayLabel(e)
    ensures YearOf(d) == YearOf(e) && MonthOf(d) == MonthOf(e) && DateOf(d) == DateOf(e)
  {
    var y, m, n := YearOf(d) + BUDDHIST_ERA_OFFSET, MonthOf(d) + 1, DateOf(d);
    var y', m', n' := YearOf(e) + BUDDHIST_ERA_OFFSET, MonthOf(e) + 1, DateOf(e);
    FieldsFromLabel(y, m, n, y', m', n');
  }

  lemma FieldsFromLabel(y: int, m: nat, n: nat, y': int, m': nat, n': nat)
    requires m < 100 && n < 100 && m' < 100 && n' < 100
    requires FromInt(y) + Pad2(m) + Pad2(n) == FromInt(y') + Pad2(m') + Pad2(n')
    ensures y == y' && m == m' && n == n'
  {
    Pad2Shape(m);
    Pad2Shape(n);
    Pad2Shape(m');
    Pad2Shape(n');
    SplitFixedWidth(FromInt(y), Pad2(m), Pad2(n), FromInt(y'), Pad2(m'), Pad2(n'));
    FromIntInjective(y, y');
    Pad2Injective(m, m');
    Pad2Injective(n, n');
  }

  // Two codes are the same string only for the same Bangkok day and the same position in it, past 999 too.
  lemma CodesDiffer(a: int, i: nat, b: int, j: nat)
    ensures FormatCode(a, i) == FormatCode(b, j) <==> LocalDay(a) == LocalDay(b) && i == j
  {
    DatePartNamesDay(a, b);
    if FormatCode(a, i) == FormatCode(b, j) {
      var s, t := PadZero(FromNat(i + 1), SEQUENCE_WIDTH), PadZero(FromNat(j + 1), SEQUENCE_WIDTH);
      PadZeroValue(FromNat(i + 1), SEQUENCE_WIDTH);
      PadZeroValue(FromNat(j + 1), SEQUENCE_WIDTH);
      SplitAtLastDash("BR-" + DatePart(a), "BR-" + DatePart(b), s, t);
      assert ("BR-" + DatePart(a))[3..] == DatePart(a);
      assert ("BR-" + DatePart(b))[3..] == DatePart(b);
    }
  }

  lemma CodeStringIs(at: int, n: nat)
    ensures CodeString(Code(LocalDay(at), n)) == FormatCode(at, n)
  {
  }

  lemma CodeStringInjective(c: Code, d: Code)
    requires CodeString(c) == CodeString(d)
    ensures c == d
  {
    SameCodeString(Midnight(c.day), c, Midnight(d.day), d);
  }

  function Midnight(d: int): (at: int)
    ensures LocalDay(at) == d
  {
    d * MS_PER_DAY - BANGKOK_OFFSET_MS
  }

  lemma SameCodeString(a: int, c: Code, b: int, d: Code)
    requires CodeString(c) == CodeString(d) && c.day == LocalDay(a) && d.day == LocalDay(b)
    ensures c == d
  {
    CodeStringIs(a, c.count);
    CodeStringIs(b, d.count);
    CodesDiffer(a, c.count, b, d.count);
  }

  // ---- The day range agrees with it ----

  lemma DayRangeStart(at: int)
    ensures !TwoDigitYear(at) ==> DayRange(at).start == LocalDay(at) * MS_PER_DAY - BANGKOK_OFFSET_MS
    ensures TwoDigitYear(at) ==> DayRange(at).start > at
  {
    DateUtcOfFields(LocalDay(at));
  }

  // The range holds the instant it was computed for, except in the years Date.UTC moves by 1900.
  lemma DayRangeHoldsItsInstant(at: int)
    ensures Within(DayRange(at), at) <==> !TwoDigitYear(at)
  {
    DayRangeStart(at);
  }

  // Outside those years the ranges are exactly the Bangkok days: half-open, equal or disjoint, no gap.
  lemma DayRangesTile(at: int, t: int)
    requires !TwoDigitYear(at)
    ensures Within(DayRange(at), t) <==> LocalDay(t) == LocalDay(at)
    ensures LocalDay(DayRange(at).end) == LocalDay(at) + 1
    ensures !TwoDigitYear(DayRange(at).end) ==> DayRange(DayRange(at).end).start == DayRange(at).end
  {
    DayRangeStart(at);
    DayRangeStart(DayRange(at).end);
  }

  // Labelling and counting use the same day, where neither instant lies in a year Date.UTC moves.
  lemma LabelAgreesWithRange(a: int, b: int)
    requires !TwoDigitYear(a) && !TwoDigitYear(b)
    ensures DatePart(a) == DatePart(b) <==> DayRange(a) == DayRange(b)
  {
    DatePartNamesDay(a, b);
    DayRangeStart(a);
    DayRangeStart(b);
  }

  // ---- Exactly when labelling and counting agree ----

  // The years 1900 to 1999, on which the ranges of the years 0 to 99 land.
  predicate LandedOn(at: int) {
    1900 <= YearOf(LocalDay(at)) <= 1999
  }

  lemma DateMayCarry(y: int, m: int, date: int)
    requires 0 <= m < 12 && 1 <= date <= 31
    requires date <= MonthLength(m, IsLeap(y)) || (m == 1 && date <= 29)
    ensures YearOf(MakeDay(y, m, date)) == y
  {
    MonthInRange(m);
    if date <= MonthLength(m, IsLeap(y)) {
      MonthIsInterval(y, m, MakeDay(y, m, date));
      MonthBounds(y, m);
    } else {
      MonthIsInterval(y, 2, MakeDay(y, m, date));
      MonthBounds(y, 2);
    }
  }

  // The day whose midnight Date.UTC gives for the fields of `d`.
  function MovedDay(d: int): int {
    MakeDay(FullYear(YearOf(d)), MonthOf(d), DateOf(d))
  }

  lemma DayRangeIs(at: int)
    ensures DayRange(at) == Range(Midnight(MovedDay(LocalDay(at))), Midnight(MovedDay(LocalDay(at))) + MS_PER_DAY)
  {
  }

  // A February that loses its 29th carries it into March of the same year.
  lemma MovedYear(d: int)
    requires 0 <= YearOf(d) <= 99
    ensures YearOf(MovedDay(d)) == 1900 + YearOf(d) && MovedDay(MovedDay(d)) == MovedDay(d)
  {
    MonthLengthOf(d);
    DateMayCarry(1900 + YearOf(d), MonthOf(d), DateOf(d));
    DateUtcOfFields(MovedDay(d));
  }

  lemma MonthLengthOf(d: int)
    ensures DateOf(d) <= MonthLength(MonthOf(d), IsLeap(YearOf(d)))
  {
  }

  // The range of a day in a moved year is that of its own start, in the year it is moved to.
  lemma MovedStart(at: int)
    requires TwoDigitYear(at)
    ensures YearOf(LocalDay(DayRange(at).start)) == 1900 + YearOf(LocalDay(at))
    ensures DayRange(DayRange(at).start) == DayRange(at)
  {
    MovedYear(LocalDay(at));
    DayRangeIs(at);
    DayRangeIs(DayRange(at).start);
  }

  lemma NoShorter(y: int, m: int)
    requires 0 <= y <= 99 && 0 <= m < 12
    ensures MonthLength(m, IsLeap(1900 + y)) <= MonthLength(m, IsLeap(y))
  {
    assert IsLeap(1900 + y) ==> IsLeap(y);
  }

  // Back from 19xx: every date of such a year exists in the year it takes ranges from.
  function MovedFrom(d: int): int {
    MakeDay(YearOf(d) - 1900, MonthOf(d), DateOf(d))
  }

  lemma DateFits(y: int, m: int, date: int)
    requires 0 <= m < 12 && 1 <= date <= MonthLength(m, IsLeap(y))
    ensures var e := MakeDay(y, m, date); YearOf(e) == y && MonthOf(e) == m && DateOf(e) == date
  {
    MonthInRange(m);
    MonthBounds(y, m);
    MonthIsInterval(y, m, MakeDay(y, m, date));
    FieldsNameDay(MakeDay(y, m, date));
  }

  lemma DateExists(d: int)
    requires 1900 <= YearOf(d) <= 1999
    ensures DateOf(d) <= MonthLength(MonthOf(d), IsLeap(YearOf(d) - 1900))
  {
    MonthLengthOf(d);
    NoShorter(YearOf(d) - 1900, MonthOf(d));
  }

  lemma MovedByFields(e: int, y: int, m: int, date: int)
    requires YearOf(e) == y && MonthOf(e) == m && DateOf(e) == date && 0 <= y <= 99
    ensures MovedDay(e) == MakeDay(1900 + y, m, date)
  {
  }

  lemma MovedFromMoves(d: int)
    requires 1900 <= YearOf(d) <= 1999
    ensures 0 <= YearOf(MovedFrom(d)) <= 99 && MovedDay(MovedFrom(d)) == d
  {
    var y, m, date := YearOf(d) - 1900, MonthOf(d), DateOf(d);
    DateExists(d);
    DateFits(y, m, date);
    MovedByFields(MovedFrom(d), y, m, date);
    FieldsNameDay(d);
  }

  lemma LandedFrom(at: int)
    requires LandedOn(at)
    ensures var b := Midnight(MovedFrom(LocalDay(at))); TwoDigitYear(b) && DayRange(b) == DayRange(at)
  {
    var d := LocalDay(at);
    MovedFromMoves(d);
    DayRangeIs(Midnight(MovedFrom(d)));
    DayRangeIs(at);
    DateUtcOfFields(d);
  }

  // The label of an instant tells its day range from every other if and only if its year neither is one
  // that Date.UTC moves nor one that it moves to.
  lemma AgreementExactly(a: int)
    ensures (forall b :: DatePart(a) == DatePart(b) <==> DayRange(a) == DayRange(b)) <==> !TwoDigitYear(a) && !LandedOn(a)
  {
    if TwoDigitYear(a) {
      MovedStart(a);
      DatePartNamesDay(a, DayRange(a).start);
    } else if LandedOn(a) {
      LandedFrom(a);
      DatePartNamesDay(a, Midnight(MovedFrom(LocalDay(a))));
    } else {
      forall b ensures DatePart(a) == DatePart(b) <==> DayRange(a) == DayRange(b) { Agrees(a, b); }
    }
  }

  lemma StartsOnDay(at: int)
    requires !TwoDigitYear(at)
    ensures LocalDay(DayRange(at).start) == LocalDay(at)
  {
    DayRangeStart(at);
  }

  lemma MovedElsewhere(a: int, b: int)
    requires !TwoDigitYear(a) && !LandedOn(a) && TwoDigitYear(b)
    ensures DayRange(a) != DayRange(b)
  {
    StartsOnDay(a);
    MovedStart(b);
  }

  lemma Agrees(a: int, b: int)
    requires !TwoDigitYear(a) && !LandedOn(a)
    ensures DatePart(a) == DatePart(b) <==> DayRange(a) == DayRange(b)
  {
    if TwoDigitYear(b) {
      DatePartNamesDay(a, b);
      MovedElsewhere(a, b);
    } else {
      LabelAgreesWithRange(a, b);
    }
  }
}
