/** The proleptic Gregorian calendar: days counted from 0001-01-01. */
module Calendar {
  datatype Date = Date(year: nat, month: nat, day: nat)

  predicate IsLeap(year: nat) {
    year % 4 == 0 && (year % 100 != 0 || year % 400 == 0)
  }

  function YearLength(year: nat): nat {
    if IsLeap(year) then 366 else 365
  }

  function MonthLength(year: nat, month: nat): nat
    requires 1 <= month <= 12
  {
    if month == 2 then (if IsLeap(year) then 29 else 28)
    else if month in {4, 6, 9, 11} then 30 else 31
  }

  function DaysBeforeYear(year: nat): nat
    requires year >= 1
  {
    var y := year - 1;
    365 * y + y / 4 - y / 100 + y / 400
  }

  function DaysBeforeMonth(year: nat, month: nat): nat
    requires 1 <= month <= 13
  {
    if month == 1 then 0 else DaysBeforeMonth(year, month - 1) + MonthLength(year, month - 1)
  }

  predicate ValidDate(d: Date) {
    1 <= d.year && 1 <= d.month <= 12 && 1 <= d.day <= MonthLength(d.year, d.month)
  }

  /** Days from 0001-01-01 to this date. */
  function Ordinal(d: Date): nat
    requires ValidDate(d)
  {
    DaysBeforeYear(d.year) + DaysBeforeMonth(d.year, d.month) + (d.day - 1)
  }

  lemma NextYear(year: nat)
    requires year >= 1
    ensures DaysBeforeYear(year + 1) == DaysBeforeYear(year) + YearLength(year)
  {
    Quotients(year - 1);
    Multiples(year);
  }

  lemma Quotients(y: nat)
    ensures (y + 1) / 4 == y / 4 + if (y + 1) % 4 == 0 then 1 else 0
    ensures (y + 1) / 100 == y / 100 + if (y + 1) % 100 == 0 then 1 else 0
    ensures (y + 1) / 400 == y / 400 + if (y + 1) % 400 == 0 then 1 else 0
  {
  }

  lemma Multiples(year: nat)
    ensures year % 400 == 0 ==> year % 100 == 0
    ensures year % 100 == 0 ==> year % 4 == 0
  {
    assert year == 400 * (year / 400) + year % 400;
    assert year == 100 * (year / 100) + year % 100;
    if year % 400 == 0 {
      assert year == 100 * (4 * (year / 400));
    }
    if year % 100 == 0 {
      assert year == 4 * (25 * (year / 100));
    }
  }

  lemma MonthsMakeAYear(year: nat)
    ensures DaysBeforeMonth(year, 13) == YearLength(year)
  {
    var leap := if IsLeap(year) then 1 else 0;
    assert DaysBeforeMonth(year, 2) == 31;
    assert DaysBeforeMonth(year, 4) == 90 + leap;
    assert DaysBeforeMonth(year, 6) == 151 + leap;
    assert DaysBeforeMonth(year, 8) == 212 + leap;
    assert DaysBeforeMonth(year, 10) == 273 + leap;
    assert DaysBeforeMonth(year, 12) == 334 + leap;
  }

  /** The year of day `n`, searched from `year` on. */
  function YearFrom(n: nat, year: nat): (y: nat)
    requires 1 <= year && DaysBeforeYear(year) <= n
    ensures 1 <= y && DaysBeforeYear(y) <= n < DaysBeforeYear(y) + YearLength(y)
    decreases n - DaysBeforeYear(year)
  {
    NextYear(year);
    if n < DaysBeforeYear(year) + YearLength(year) then year else YearFrom(n, year + 1)
  }

  /** The month of the day `n` of its year, searched from `month` on. */
  function MonthFrom(year: nat, n: nat, month: nat): (m: nat)
    requires 1 <= month <= 12 && DaysBeforeMonth(year, month) <= n < YearLength(year)
    ensures 1 <= m <= 12 && DaysBeforeMonth(year, m) <= n < DaysBeforeMonth(year, m) + MonthLength(year, m)
    decreases 12 - month
  {
    MonthsMakeAYear(year);
    if n < DaysBeforeMonth(year, month) + MonthLength(year, month) then month else MonthFrom(year, n, month + 1)
  }

  /** The date of day `n`. */
  function DateOf(n: nat): (d: Date)
    ensures ValidDate(d) && Ordinal(d) == n
  {
    var year := YearFrom(n, 1);
    var rest := n - DaysBeforeYear(year);
    var month := MonthFrom(year, rest, 1);
    Date(year, month, rest - DaysBeforeMonth(year, month) + 1)
  }

  /** Days are counted from the first of January of the year 1, one by one through the months and leap years. */
  lemma DayAfter(year: nat, month: nat, day: nat)
    ensures ValidDate(Date(1, 1, 1)) && Ordinal(Date(1, 1, 1)) == 0
    ensures var leap := year % 4 == 0 && (year % 100 != 0 || year % 400 == 0);
            var length := if month == 2 then (if leap then 29 else 28) else if month in {4, 6, 9, 11} then 30 else 31;
            && (ValidDate(Date(year, month, day)) <==> year >= 1 && 1 <= month <= 12 && 1 <= day <= length)
            && (ValidDate(Date(year, month, day)) ==>
                  var next := if day < length then Date(year, month, day + 1)
                              else if month < 12 then Date(year, month + 1, 1)
                              else Date(year + 1, 1, 1);
                  ValidDate(next) && Ordinal(next) == Ordinal(Date(year, month, day)) + 1)
  {
    if ValidDate(Date(year, month, day)) && month == 12 && day == 31 {
      NextYear(year);
      MonthsMakeAYear(year);
      hide DaysBeforeYear, YearLength;
    }
  }
}
