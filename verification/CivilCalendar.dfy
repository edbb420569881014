/** Civil days as ordinals (day 1 is 0001-01-01, a Monday), months as running indices. */
module CivilCalendar {

  predicate LeapYear(year: nat) {
    year % 4 == 0 && (year % 100 != 0 || year % 400 == 0)
  }

  /** Month `m` counts from January of year 1. */
  function MonthLength(m: nat): nat {
    var year, month := m / 12 + 1, m % 12 + 1;
    if month == 2 then (if LeapYear(year) then 29 else 28)
    else if month in {4, 6, 9, 11} then 30
    else 31
  }

  function MonthStart(m: nat): (first: nat)
    ensures first >= 1
  {
    if m == 0 then 1 else MonthStart(m - 1) + MonthLength(m - 1)
  }

  /** The month a day lies in, looking from month `from` on. */
  function MonthFrom(day: nat, from: nat): (m: nat)
    requires MonthStart(from) <= day
    ensures MonthStart(m) <= day < MonthStart(m + 1)
    decreases day - MonthStart(from)
  {
    if day < MonthStart(from + 1) then from else MonthFrom(day, from + 1)
  }

  function MonthOf(day: nat): (m: nat)
    requires day >= 1
    ensures MonthStart(m) <= day < MonthStart(m + 1)
  {
    MonthFrom(day, 0)
  }

  /** Monday is 0. */
  function Weekday(day: nat): (w: nat)
    ensures w < 7
  {
    (day + 6) % 7
  }

  function Monday(day: nat): int {
    day - Weekday(day)
  }

  function FirstOfMonth(day: nat): (first: nat)
    requires day >= 1
    ensures 1 <= first <= day
  {
    MonthStart(MonthOf(day))
  }

  /** The day with the same month and day number 28, plus four days, back to its day 1. */
  function FirstOfNextMonth(day: nat): nat
    requires day >= 1
  {
    FirstOfMonth(FirstOfMonth(day) + 27 + 4)
  }

  lemma {:induction false} MonthStartsGrow(a: nat, b: nat)
    requires a <= b
    ensures MonthStart(a) + 28 * (b - a) <= MonthStart(b) <= MonthStart(a) + 31 * (b - a)
    decreases b - a
  {
    if a < b { MonthStartsGrow(a, b - 1); }
  }

  lemma MonthStartsAscend(a: nat, b: nat)
    requires a <= b
    ensures MonthStart(a) <= MonthStart(b)
  {
    MonthStartsGrow(a, b);
  }

  /** A day after the end of month m lies in a later month than m. */
  lemma MonthsAscend(day: nat, m: nat)
    requires day >= 1
    ensures MonthOf(day) <= m <==> day < MonthStart(m + 1)
  {
    var own := MonthOf(day);
    if own <= m { MonthStartsAscend(own + 1, m + 1); } else { MonthStartsAscend(m + 1, own); }
  }

  /** Each day lies in exactly one month. */
  lemma MonthIsUnique(day: nat, m: nat)
    requires day >= 1
    ensures MonthStart(m) <= day < MonthStart(m + 1) <==> m == MonthOf(day)
  {
    MonthsAscend(day, m);
    if m > 0 { MonthsAscend(day, m - 1); }
  }

  /** Day 28 plus four days always lands in the following month, whatever the month's length. */
  lemma NextMonthStart(day: nat)
    requires day >= 1
    ensures FirstOfNextMonth(day) == MonthStart(MonthOf(day) + 1)
    ensures day < FirstOfNextMonth(day) <= FirstOfMonth(day) + 31
  {
    var m := MonthOf(day);
    MonthIsUnique(MonthStart(m) + 31, m + 1);
  }

  lemma MonthsFollowDays(a: nat, b: nat)
    requires 1 <= a <= b
    ensures MonthOf(a) <= MonthOf(b)
    ensures FirstOfMonth(a) <= FirstOfMonth(b) && FirstOfNextMonth(a) <= FirstOfNextMonth(b)
  {
    if MonthOf(b) < MonthOf(a) { MonthStartsGrow(MonthOf(b) + 1, MonthOf(a)); }
    MonthStartsGrow(MonthOf(a), MonthOf(b));
    MonthStartsGrow(MonthOf(a) + 1, MonthOf(b) + 1);
    NextMonthStart(a);
    NextMonthStart(b);
  }

  // ---------------------------------------------------------------- the Gregorian calendar, in closed form

  /** The next month of a year: what is looked up for its length. */
  lemma MonthStep(year: nat, k: nat)
    requires year >= 1 && k < 12
    ensures MonthStart(12 * (year - 1) + k + 1) == MonthStart(12 * (year - 1) + k)
      + if k == 1 then (if year % 4 == 0 && (year % 100 != 0 || year % 400 == 0) then 29 else 28)
        else if k in {3, 5, 8, 10} then 30 else 31
  {
    var m := 12 * (year - 1) + k;
    assert m / 12 == year - 1 && m % 12 == k;
    assert MonthLength(m) == MonthStart(m + 1) - MonthStart(m);
  }

  /** A month of a year begins 0, 31, 59, ... days after January, and one more after a leap day. */
  lemma MonthsOfYear(year: nat, k: nat)
    requires year >= 1 && k <= 12
    ensures MonthStart(12 * (year - 1) + k) == MonthStart(12 * (year - 1))
      + [0, 31, 59, 90, 120, 151, 181, 212, 243, 273, 304, 334, 365][k]
      + if k >= 2 && year % 4 == 0 && (year % 100 != 0 || year % 400 == 0) then 1 else 0
    decreases k
  {
    if k > 0 {
      MonthsOfYear(year, k - 1);
      MonthStep(year, k - 1);
    }
  }

  /** A year begins after 365 days for every year before it and a day for each of their leap years. */
  lemma {:induction false} YearsByCount(year: nat)
    requires year >= 1
    ensures MonthStart(12 * (year - 1)) == 1 + 365 * (year - 1) + (year - 1) / 4 - (year - 1) / 100 + (year - 1) / 400
    decreases year
  {
    if year > 1 {
      YearsByCount(year - 1);
      NextYear(year - 1);
      LeapDays(year - 1);
    }
  }

  lemma NextYear(year: nat)
    requires year >= 1
    ensures MonthStart(12 * year) == MonthStart(12 * (year - 1)) + 365
      + if year % 4 == 0 && (year % 100 != 0 || year % 400 == 0) then 1 else 0
  {
    MonthsOfYear(year, 12);
    assert 12 * (year - 1) + 12 == 12 * year;
  }

  lemma FourthYears(y: nat)
    requires y >= 1
    ensures y / 4 == (y - 1) / 4 + if y % 4 == 0 then 1 else 0
  {
  }

  lemma Centuries(y: nat)
    requires y >= 1
    ensures y / 100 == (y - 1) / 100 + if y % 100 == 0 then 1 else 0
  {
  }

  lemma FourthCenturies(y: nat)
    requires y >= 1
    ensures y / 400 == (y - 1) / 400 + if y % 400 == 0 then 1 else 0
  {
  }

  lemma FourTimes(n: nat)
    ensures 4 * n % 4 == 0
  {
  }

  lemma HundredTimes(n: nat)
    ensures 100 * n % 100 == 0
  {
  }

  lemma CenturiesAreFourths(y: nat)
    ensures y % 100 == 0 ==> y % 4 == 0
  {
    if y % 100 == 0 {
      var n := 25 * (y / 100);
      FourTimes(n);
      assert y == 4 * n;
    }
  }

  lemma FourthsOfCenturies(y: nat)
    ensures y % 400 == 0 ==> y % 100 == 0
  {
    if y % 400 == 0 {
      var n := 4 * (y / 400);
      HundredTimes(n);
      assert y == 100 * n;
    }
  }

  lemma LeapDays(y: nat)
    requires y >= 1
    ensures y / 4 - y / 100 + y / 400 == (y - 1) / 4 - (y - 1) / 100 + (y - 1) / 400
      + if y % 4 == 0 && (y % 100 != 0 || y % 400 == 0) then 1 else 0
  {
    FourthYears(y);
    Centuries(y);
    FourthCenturies(y);
    CenturiesAreFourths(y);
    FourthsOfCenturies(y);
  }

  /** A week begins on a Monday not more than six days back, and later days have later weeks. */
  lemma WeeksFollowDays(a: nat, b: nat)
    requires 1 <= a <= b
    ensures 1 <= Monday(a) <= a <= Monday(a) + 6 && Monday(a) <= Monday(b)
    ensures Monday(a) == Monday(b) <==> b <= Monday(a) + 6
  {
    assert Monday(a) == 7 * ((a + 6) / 7) - 6;
    assert Monday(b) == 7 * ((b + 6) / 7) - 6;
  }
}
