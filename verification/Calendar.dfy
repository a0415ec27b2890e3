/** Proleptic Gregorian day arithmetic (cpp-redirect/src/core.hpp). Leap years are those of
    RFC 3339, Appendix C. */
module Calendar {

  datatype Date = Date(year: int, month: int, day: int)

  predicate IsLeapYear(y: int) {
    y % 4 == 0 && (y % 100 != 0 || y % 400 == 0)
  }

  function DaysInMonth(y: int, m: int): int
    requires 1 <= m <= 12
  {
    if m == 2 then (if IsLeapYear(y) then 29 else 28)
    else if m == 4 || m == 6 || m == 9 || m == 11 then 30
    else 31
  }

  predicate IsDate(t: Date) {
    1 <= t.month <= 12 && 1 <= t.day <= DaysInMonth(t.year, t.month)
  }

  function NextDate(t: Date): (r: Date)
    requires IsDate(t)
    ensures IsDate(r)
  {
    if t.day < DaysInMonth(t.year, t.month) then t.(day := t.day + 1)
    else if t.month < 12 then Date(t.year, t.month + 1, 1)
    else Date(t.year + 1, 1, 1)
  }

  predicate Before(a: Date, b: Date) {
    a.year < b.year || (a.year == b.year && (a.month < b.month || (a.month == b.month && a.day < b.day)))
  }

  /** The naive count: year by year from 1970, then month by month, then the day. */
  function YearLength(y: int): int {
    if IsLeapYear(y) then 366 else 365
  }

  function YearStart(y: int): int
    decreases if y >= 1970 then y - 1970 else 1970 - y
  {
    if y == 1970 then 0
    else if y > 1970 then YearStart(y - 1) + YearLength(y - 1)
    else YearStart(y + 1) - YearLength(y)
  }

  function MonthStart(y: int, m: int): int
    requires 1 <= m <= 12
  {
    if m == 1 then 0 else MonthStart(y, m - 1) + DaysInMonth(y, m - 1)
  }

  function DayNumber(t: Date): int
    requires IsDate(t)
  {
    YearStart(t.year) + MonthStart(t.year, t.month) + t.day - 1
  }

  /** 32-bit unsigned arithmetic, and division as C++ rounds it. */
  function U32(x: int): int {
    x % 0x1_0000_0000
  }

  function Quotient(a: int, b: int): int
    requires b > 0
  {
    if a >= 0 then a / b else -((-a) / b)
  }

  function DayOfMarchYear(m: int, d: int): int {
    var shifted := if m > 2 then U32(m - 3) else U32(m + 9);
    U32(U32(U32(153 * shifted) + 2) / 5 + d - 1)
  }

  function DaysFromCivil(year: int, m: int, d: int): int {
    var y := if m <= 2 then year - 1 else year;
    DaysFromMarch(y, DayOfMarchYear(m, d))
  }

  function DaysFromMarch(y: int, doy: int): int {
    var era := Quotient(if y >= 0 then y else y - 399, 400);
    var yoe := U32(y - era * 400);
    var doe := U32(U32(U32(yoe * 365) + yoe / 4 - yoe / 100) + doy);
    era * 146097 + doe - 719468
  }

  /** The same formula over the integers: nothing wraps around for a real month and day. */
  function MarchYearStart(y: int): int {
    365 * y + y / 4 - y / 100 + y / 400
  }

  function MarchMonthStart(m: int): int {
    (153 * (if m > 2 then m - 3 else m + 9) + 2) / 5
  }

  lemma EraOf(y: int)
    ensures Quotient(if y >= 0 then y else y - 399, 400) == y / 400
    ensures y - (y / 400) * 400 == y % 400
  {
  }

  lemma CenturyParts(era: int, yoe: int)
    requires 0 <= yoe < 400
    ensures MarchYearStart(400 * era + yoe) == era * 146097 + yoe * 365 + yoe / 4 - yoe / 100
  {
    assert (400 * era + yoe) / 4 == 100 * era + yoe / 4;
    assert (400 * era + yoe) / 100 == 4 * era + yoe / 100;
    assert (400 * era + yoe) / 400 == era;
  }

  lemma Unwrapped(x: int)
    requires 0 <= x < 0x1_0000_0000
    ensures U32(x) == x
  {
  }

  lemma DayOfMarchYearUnwrapped(m: int, d: int)
    requires 1 <= m <= 12 && 1 <= d <= 31
    ensures DayOfMarchYear(m, d) == MarchMonthStart(m) + d - 1
    ensures 0 <= DayOfMarchYear(m, d) <= 367
  {
    var shifted := if m > 2 then m - 3 else m + 9;
    Unwrapped(shifted);
    Unwrapped(153 * shifted);
    Unwrapped(153 * shifted + 2);
    Unwrapped((153 * shifted + 2) / 5 + d - 1);
  }

  lemma YearOfEraUnwrapped(yoe: int, doy: int)
    requires 0 <= yoe < 400 && 0 <= doy <= 367
    ensures U32(U32(U32(yoe * 365) + yoe / 4 - yoe / 100) + doy) == yoe * 365 + yoe / 4 - yoe / 100 + doy
  {
    Unwrapped(yoe * 365);
    assert yoe / 100 <= yoe / 4 <= 100;
    Unwrapped(yoe * 365 + yoe / 4 - yoe / 100);
    Unwrapped(yoe * 365 + yoe / 4 - yoe / 100 + doy);
  }

  lemma DaysFromMarchUnwrapped(y: int, doy: int)
    requires 0 <= doy <= 367
    ensures DaysFromMarch(y, doy) == MarchYearStart(y) + doy - 719468
  {
    var era, yoe := y / 400, y % 400;
    EraOf(y);
    Unwrapped(yoe);
    YearOfEraUnwrapped(yoe, doy);
    CenturyParts(era, yoe);
    assert y == 400 * era + yoe;
  }

  /** Every unsigned value that the formula computes on its way, over the integers. */
  function Intermediates(y: int, m: int, d: int): seq<int> {
    var shifted, yoe := if m > 2 then m - 3 else m + 9, y % 400;
    var doy := (153 * shifted + 2) / 5 + d - 1;
    [shifted, 153 * shifted, 153 * shifted + 2, (153 * shifted + 2) / 5, doy + 1, doy,
     yoe, yoe * 365, yoe * 365 + yoe / 4, yoe * 365 + yoe / 4 - yoe / 100, yoe * 365 + yoe / 4 - yoe / 100 + doy]
  }

  lemma IntermediatesFit(y: int, m: int, d: int)
    requires 1 <= m <= 12 && 1 <= d <= 31
    ensures forall x :: x in Intermediates(y, m, d) ==> 0 <= x < 0x1_0000_0000
  {
    DayOfMarchYearUnwrapped(m, d);
    var yoe := y % 400;
    assert 0 <= yoe / 100 <= yoe / 4 <= 100;
  }

  /** No intermediate value leaves the unsigned range, and so the formula is that of the integers. */
  lemma NoWrapAround(year: int, m: int, d: int)
    requires 1 <= m <= 12 && 1 <= d <= 31
    ensures var y := if m <= 2 then year - 1 else year;
            && (forall x :: x in Intermediates(y, m, d) ==> 0 <= x < 0x1_0000_0000)
            && DaysFromCivil(year, m, d) == MarchYearStart(y) + MarchMonthStart(m) + d - 1 - 719468
  {
    IntermediatesFit(if m <= 2 then year - 1 else year, m, d);
    DayOfMarchYearUnwrapped(m, d);
    DaysFromMarchUnwrapped(if m <= 2 then year - 1 else year, DayOfMarchYear(m, d));
  }

  /** Stepping a year steps every quotient that divides it, which is the leap year rule. */
  lemma QuotientStep(y: int, k: int)
    requires k == 4 || k == 100 || k == 400
    ensures y / k == (y - 1) / k + (if y % k == 0 then 1 else 0)
  {
  }

  lemma LeapParts(y: int)
    ensures y % 100 == 0 ==> y % 4 == 0
    ensures y % 400 == 0 ==> y % 100 == 0
  {
    if y % 100 == 0 {
      assert y == 4 * (25 * (y / 100));
    }
    if y % 400 == 0 {
      assert y == 100 * (4 * (y / 400));
    }
  }

  lemma MarchYearLength(y: int)
    ensures MarchYearStart(y) == MarchYearStart(y - 1) + YearLength(y)
  {
    QuotientStep(y, 4);
    QuotientStep(y, 100);
    QuotientStep(y, 400);
    LeapParts(y);
  }

  /** March years start after the February of their own calendar year. */
  lemma {:induction false} YearStartIsMarchBased(y: int)
    ensures YearStart(y) == MarchYearStart(y - 1) + 306 - 719468
    decreases if y >= 1970 then y - 1970 else 1970 - y
  {
    if y > 1970 {
      YearStartIsMarchBased(y - 1);
      MarchYearLength(y - 1);
    } else if y < 1970 {
      YearStartIsMarchBased(y + 1);
      MarchYearLength(y);
    }
  }

  lemma MonthStartIsMarchBased(y: int, m: int)
    requires 1 <= m <= 12
    ensures MonthStart(y, m)
         == MarchMonthStart(m) - 306 + (if m > 2 then YearLength(y) else 0)
  {
    assert MonthStart(y, 2) == 31;
    assert MonthStart(y, 3) == 59 + YearLength(y) - 365;
    assert MonthStart(y, 4) == MonthStart(y, 3) + 31;
    assert MonthStart(y, 5) == MonthStart(y, 4) + 30;
    assert MonthStart(y, 6) == MonthStart(y, 5) + 31;
    assert MonthStart(y, 7) == MonthStart(y, 6) + 30;
    assert MonthStart(y, 8) == MonthStart(y, 7) + 31;
    assert MonthStart(y, 9) == MonthStart(y, 8) + 31;
    assert MonthStart(y, 10) == MonthStart(y, 9) + 30;
    assert MonthStart(y, 11) == MonthStart(y, 10) + 31;
    assert MonthStart(y, 12) == MonthStart(y, 11) + 30;
  }

  /** A day up to 31 counts on from the first of its month, even past the month's end. */
  lemma DaysFromCivilOverflows(y: int, m: int, d: int)
    requires 1 <= m <= 12 && 1 <= d <= 31
    ensures DaysFromCivil(y, m, d) == YearStart(y) + MonthStart(y, m) + d - 1
  {
    NoWrapAround(y, m, d);
    YearStartIsMarchBased(y);
    MonthStartIsMarchBased(y, m);
    MarchYearLength(y);
  }

  /** The closed form is the naive count, for every date of every year. */
  lemma DaysFromCivilCounts(t: Date)
    requires IsDate(t)
    ensures DaysFromCivil(t.year, t.month, t.day) == DayNumber(t)
  {
    DaysFromCivilOverflows(t.year, t.month, t.day);
  }

  /** A day that its month lacks counts as a day of the next month; no month lacks one in December. */
  lemma MissingDayIsLaterDay(t: Date, next: Date)
    requires 1 <= t.month <= 12 && DaysInMonth(t.year, t.month) < t.day <= 31
    requires next == Date(t.year, t.month + 1, t.day - DaysInMonth(t.year, t.month))
    ensures IsDate(next) && DaysFromCivil(t.year, t.month, t.day) == DayNumber(next)
  {
    DaysFromCivilOverflows(t.year, t.month, t.day);
  }

  lemma NextYearStart(y: int)
    ensures YearStart(y + 1) == YearStart(y) + MonthStart(y, 12) + 31
  {
    MonthStartIsMarchBased(y, 12);
    YearStartIsMarchBased(y);
    YearStartIsMarchBased(y + 1);
    MarchYearLength(y);
  }

  lemma NextDayNumber(t: Date)
    requires IsDate(t)
    ensures DayNumber(NextDate(t)) == DayNumber(t) + 1
  {
    NextYearStart(t.year);
  }

  /** Each day is one more than the day before it, from 1970-01-01 as day 0. */
  lemma NextDayIsOneMore(t: Date)
    requires IsDate(t)
    ensures DaysFromCivil(1970, 1, 1) == 0
    ensures var n := NextDate(t);
            DaysFromCivil(n.year, n.month, n.day) == DaysFromCivil(t.year, t.month, t.day) + 1
  {
    DaysFromCivilCounts(Date(1970, 1, 1));
    DaysFromCivilCounts(t);
    DaysFromCivilCounts(NextDate(t));
    NextDayNumber(t);
  }

  /** The years that have four digits. */
  lemma YearBeforeFirst(y: int)
    requires y == -1
    ensures MarchYearStart(y) == -366
  {
    assert y / 4 == -1 && y / 100 == -1 && y / 400 == -1;
  }

  lemma FirstFourDigitYear(y: int)
    requires y == 0
    ensures YearStart(y) == -719528
  {
    YearStartIsMarchBased(y);
    YearBeforeFirst(y - 1);
  }

  lemma EndOfFourDigitYears(y: int)
    requires y == 10000
    ensures YearStart(y) == 2932897
  {
    assert MarchYearStart(y - 1) == 3652059;
    YearStartIsMarchBased(y);
  }

  lemma {:induction false} YearsGrow(a: int, b: int)
    requires a <= b
    ensures YearStart(b) >= YearStart(a) + 365 * (b - a)
    ensures a < b ==> YearStart(b) >= YearStart(a) + YearLength(a)
    decreases b - a
  {
    if a < b {
      YearsGrow(a + 1, b);
      YearStartIsMarchBased(a);
      YearStartIsMarchBased(a + 1);
      MarchYearLength(a);
    }
  }

  lemma {:induction false} MonthsGrow(y: int, m: int, n: int)
    requires 1 <= m < n <= 12
    ensures MonthStart(y, n) >= MonthStart(y, m) + DaysInMonth(y, m)
    decreases n - m
  {
    if m < n - 1 {
      MonthsGrow(y, m, n - 1);
    }
  }

  /** Earlier dates have smaller day numbers; with totality of the order, the day number also
      determines the date. */
  lemma DaysFromCivilOrders(a: Date, b: Date)
    requires IsDate(a) && IsDate(b)
    ensures Before(a, b) <==> DaysFromCivil(a.year, a.month, a.day) < DaysFromCivil(b.year, b.month, b.day)
    ensures a == b <==> DaysFromCivil(a.year, a.month, a.day) == DaysFromCivil(b.year, b.month, b.day)
  {
    DaysFromCivilCounts(a);
    DaysFromCivilCounts(b);
    if Before(a, b) {
      EarlierIsLess(a, b);
    } else if a != b {
      EarlierIsLess(b, a);
    }
  }

  lemma EarlierIsLess(a: Date, b: Date)
    requires IsDate(a) && IsDate(b) && Before(a, b)
    ensures DayNumber(a) < DayNumber(b)
  {
    MonthStartIsMarchBased(a.year, a.month);
    MonthStartIsMarchBased(b.year, b.month);
    if a.year < b.year {
      YearsGrow(a.year, b.year);
    } else if a.month < b.month {
      MonthsGrow(a.year, a.month, b.month);
    }
  }
}
