/** Assembly of a run's calendar from single-day facts: the open days of the run, the first open day
    after it, and each one's place in its complete natural week and month. */
module CalendarAssembly {
  import opened Collections
  import opened RuntimeContracts
  import opened CivilCalendar

  datatype Interval = Interval(start: int, end: int)

  datatype Fact = Fact(isOpen: bool, intervals: seq<Interval>)

  /** The point-in-time reader: a day's resolved fact, or nothing when it refuses. */
  type Facts = int -> Option<Fact>

  predicate Open(facts: Facts, day: int) {
    facts(day).Some? && facts(day).value.isOpen
  }

  /** The open days in `from..until`, in order. */
  function OpenDays(facts: Facts, from: int, until: int): seq<int>
    decreases until - from
  {
    if until <= from then []
    else OpenDays(facts, from, until - 1) + if Open(facts, until - 1) then [until - 1] else []
  }

  datatype Period = Period(id: int, tradingDay: nat, totalTradingDays: nat)

  datatype Row = Row(
    date: int, openNs: int, closeNs: int, beforeOpenNs: int, afterCloseNs: int, windows: seq<Interval>,
    week: Period, month: Period)

  /** A day's place among the open days of a period. */
  function PlaceIn(facts: Facts, id: int, from: int, day: int, until: int): Period {
    Period(id, |OpenDays(facts, from, day + 1)|, |OpenDays(facts, from, until)|)
  }

  /** Its place in its complete natural week. */
  function WeekOf(facts: Facts, day: nat): Period {
    PlaceIn(facts, Monday(day), Monday(day), day, Monday(day) + 7)
  }

  /** Its place in its complete natural month. */
  function MonthPlace(facts: Facts, day: nat): Period
    requires day >= 1
  {
    PlaceIn(facts, MonthOf(day), FirstOfMonth(day), day, MonthStart(MonthOf(day) + 1))
  }

  function SessionRow(day: int, windows: seq<Interval>, week: Period, month: Period): Row
    requires windows != []
  {
    var openNs, closeNs := windows[0].start, windows[|windows| - 1].end;
    Row(day, openNs, closeNs, openNs - 1, closeNs + 1, windows, week, month)
  }

  /** What a row must say. */
  function RowFor(facts: Facts, day: nat): Row
    requires day >= 1 && Open(facts, day) && facts(day).value.intervals != []
  {
    SessionRow(day, facts(day).value.intervals, WeekOf(facts, day), MonthPlace(facts, day))
  }

  /** `rows` are the rows of `days`. */
  ghost predicate RowsAre(facts: Facts, rows: seq<Row>, days: seq<int>) {
    |rows| == |days| && forall i :: 0 <= i < |rows| ==> IsRow(facts, rows[i], days[i])
  }

  ghost predicate IsRow(facts: Facts, row: Row, day: int) {
    day >= 1 && Open(facts, day) && facts(day).value.intervals != [] && row == RowFor(facts, day)
  }

  datatype Calendar = Calendar(rows: seq<Row>, following: Row, subsequent: int, from: int, reference: seq<Fact>)

  datatype Failure =
    | SingleReferenceCalendarRequired
    | FactUnavailable
    | NextOpenSessionCoverageMissing
    | OpenSessionWindowsMissing
    | OpenRunSessionsMissing

  datatype Assembled = Assembled(calendar: Option<Calendar>) | Refused(failure: Failure)

  // ---------------------------------------------------------------- open days

  lemma {:induction false} OpenMembers(facts: Facts, from: int, until: int, day: int)
    ensures day in OpenDays(facts, from, until) <==> from <= day < until && Open(facts, day)
    decreases until - from
  {
    if from < until { OpenMembers(facts, from, until - 1, day); }
  }

  lemma {:induction false} OpenSplit(facts: Facts, from: int, mid: int, until: int)
    requires from <= mid <= until
    ensures OpenDays(facts, from, until) == OpenDays(facts, from, mid) + OpenDays(facts, mid, until)
    decreases until - mid
  {
    if mid < until { OpenSplit(facts, from, mid, until - 1); }
  }

  predicate Ascending(days: seq<int>) {
    forall i, j :: 0 <= i < j < |days| ==> days[i] < days[j]
  }

  lemma {:induction false} OpenAscending(facts: Facts, from: int, until: int)
    ensures Ascending(OpenDays(facts, from, until))
    decreases until - from
  {
    if from < until {
      var front := OpenDays(facts, from, until - 1);
      OpenAscending(facts, from, until - 1);
      forall i | 0 <= i < |front| ensures front[i] < until - 1 { OpenMembers(facts, from, until - 1, front[i]); }
    }
  }

  /** The list comprehensions over the open days. */
  function Between(days: seq<int>, from: int, until: int): seq<int> {
    if days == [] then []
    else
      var last := days[|days| - 1];
      Between(days[..|days| - 1], from, until) + if from <= last < until then [last] else []
  }

  function InMonth(days: seq<int>, m: nat): seq<int> {
    if days == [] then []
    else
      var last := days[|days| - 1];
      InMonth(days[..|days| - 1], m) + if last >= 1 && MonthOf(last) == m then [last] else []
  }

  lemma BetweenAppend(days: seq<int>, day: int, a: int, b: int)
    ensures Between(days + [day], a, b) == Between(days, a, b) + if a <= day < b then [day] else []
  {
    assert (days + [day])[..|days|] == days;
  }

  /** One more day of the range, and what the cut makes of it. */
  lemma BetweenOneMore(facts: Facts, from: int, until: int, a: int, b: int)
    requires from < until
    ensures Between(OpenDays(facts, from, until), a, b)
      == Between(OpenDays(facts, from, until - 1), a, b)
        + if Open(facts, until - 1) && a <= until - 1 < b then [until - 1] else []
  {
    var front := OpenDays(facts, from, until - 1);
    if Open(facts, until - 1) {
      BetweenAppend(front, until - 1, a, b);
    } else {
      assert front + [] == front;
    }
  }

  lemma {:induction false} InMonthIsBetween(days: seq<int>, m: nat)
    ensures InMonth(days, m) == Between(days, MonthStart(m), MonthStart(m + 1))
    decreases |days|
  {
    if days != [] {
      InMonthIsBetween(days[..|days| - 1], m);
      if days[|days| - 1] >= 1 { MonthIsUnique(days[|days| - 1], m); }
    }
  }

  /** Cutting the open days of a range to an inner range gives the open days of the inner range. */
  lemma {:induction false} BetweenIsOpen(facts: Facts, from: int, a: int, b: int, until: int)
    requires from <= a <= b && a <= until
    ensures Between(OpenDays(facts, from, until), a, b) == OpenDays(facts, a, if b < until then b else until)
    decreases until - from
  {
    if from < until {
      BetweenOneMore(facts, from, until, a, b);
      if a <= until - 1 {
        BetweenIsOpen(facts, from, a, b, until - 1);
      } else {
        NothingBefore(facts, from, until, a, b);
      }
    }
  }

  lemma {:induction false} NothingBefore(facts: Facts, from: int, until: int, a: int, b: int)
    requires until <= a
    ensures Between(OpenDays(facts, from, until), a, b) == []
    decreases until - from
  {
    if from < until {
      NothingBefore(facts, from, until - 1, a, b);
      BetweenOneMore(facts, from, until, a, b);
    }
  }

  /** list.index */
  function IndexOf(days: seq<int>, day: int): (i: nat)
    requires day in days
    ensures i < |days| && days[i] == day
  {
    if days[0] == day then 0 else 1 + IndexOf(days[1..], day)
  }

  /** The position of an open day among the open days of its period is how many precede it. */
  lemma OrdinalIsCount(facts: Facts, from: int, day: int, until: int)
    requires from <= day < until && Open(facts, day)
    ensures day in OpenDays(facts, from, until)
    ensures IndexOf(OpenDays(facts, from, until), day) + 1 == |OpenDays(facts, from, day + 1)|
  {
    var all, before := OpenDays(facts, from, until), OpenDays(facts, from, day);
    OpenSplit(facts, from, day + 1, until);
    OpenMembers(facts, from, until, day);
    OpenAscending(facts, from, until);
    assert all[|before|] == day;
  }

  // ---------------------------------------------------------------- which days are consulted

  /** Complete natural weeks and months of the run: first and last day. */
  function Lower(start: nat): int
    requires start >= 1
  {
    Min(FirstOfMonth(start), Monday(start))
  }

  function Upper(end: nat): int
    requires end >= 1
  {
    Max(FirstOfNextMonth(end) - 1, Monday(end) + 6)
  }

  /** One past the last day consulted. */
  function Top(end: nat, next: nat, subsequent: int): int
    requires end >= 1 && next >= 1
  {
    Max(Max(Upper(end), subsequent), Upper(next)) + 1
  }

  const GUARD_BEFORE := 31
  const GUARD_AFTER := 101

  /** The natural days whose session facts the run's fingerprint covers. */
  predicate Guarded(start: int, end: int, day: int): (guarded: bool)
    ensures guarded <==> start - 31 <= day && day <= end + 101
  {
    start - GUARD_BEFORE <= day <= end + GUARD_AFTER
  }

  /** Every natural day consulted lies well inside the guarded window. */
  lemma ConsultedDays(start: nat, end: nat, next: nat, subsequent: int)
    requires 1 <= start <= end < next < subsequent <= Upper(end) + 31
    ensures start - 30 <= Lower(start) <= Lower(next) && Top(end, next, subsequent) <= end + 91
    ensures forall day :: Lower(start) <= day < Top(end, next, subsequent) ==> Guarded(start, end, day)
  {
    MonthsFollowDays(start, next);
    WeeksFollowDays(start, next);
  }

  /** A day of the run has its whole week and month among the consulted days. */
  lemma PeriodsInside(start: nat, end: nat, day: nat)
    requires 1 <= start <= day <= end
    ensures Lower(start) <= Lower(day) && Upper(day) <= Upper(end)
  {
    MonthsFollowDays(start, day);
    MonthsFollowDays(day, end);
    WeeksFollowDays(start, day);
    WeeksFollowDays(day, end);
  }

  // ---------------------------------------------------------------- what an assembled calendar says

  /** `next` is the first open day after `end`, `subsequent` the second. */
  ghost predicate NextOpen(facts: Facts, end: int, next: int, subsequent: int) {
    && end < next < subsequent && Open(facts, next) && Open(facts, subsequent)
    && (forall d :: end < d < next ==> !Open(facts, d))
    && (forall d :: next < d < subsequent ==> !Open(facts, d))
  }

  ghost predicate RowsDescribe(facts: Facts, start: nat, end: nat, c: Calendar) {
    && c.rows != [] && RowsAre(facts, c.rows, OpenDays(facts, start, end + 1))
    && IsRow(facts, c.following, c.following.date)
  }

  ghost predicate SessionsFollow(facts: Facts, end: nat, c: Calendar) {
    1 <= end && NextOpen(facts, end, c.following.date, c.subsequent) && c.subsequent <= Upper(end) + 31
  }

  ghost predicate FactsAre(facts: Facts, from: int, until: int, reference: seq<Fact>) {
    |reference| == until - from && forall i :: 0 <= i < |reference| ==> facts(from + i) == Some(reference[i])
  }

  /** The reference holds the facts of every day consulted. */
  ghost predicate ReferenceHolds(facts: Facts, start: nat, end: nat, c: Calendar) {
    && 1 <= start <= end < c.following.date && c.from == Lower(start)
    && FactsAre(facts, c.from, Top(end, c.following.date, c.subsequent), c.reference)
  }

  ghost predicate Describes(facts: Facts, start: nat, end: nat, c: Calendar) {
    RowsDescribe(facts, start, end, c) && SessionsFollow(facts, end, c) && ReferenceHolds(facts, start, end, c)
  }

  // ---------------------------------------------------------------- the same, field by field

  lemma {:induction false} OpenCount(facts: Facts, from: int, until: int)
    ensures |OpenDays(facts, from, until)| == |set d | from <= d < until && facts(d).Some? && facts(d).value.isOpen|
    decreases until - from
  {
    var all := set d | from <= d < until && facts(d).Some? && facts(d).value.isOpen;
    if until <= from {
      assert all == {};
    } else {
      OpenCount(facts, from, until - 1);
      var front := set d | from <= d < until - 1 && facts(d).Some? && facts(d).value.isOpen;
      assert all == if Open(facts, until - 1) then front + {until - 1} else front;
    }
  }

  /** A period counts the open days of `from..until` and, as the day's own number, those up to the day. */
  ghost predicate Counts(facts: Facts, p: Period, from: int, day: int, until: int) {
    && p.tradingDay == |set d | from <= d <= day && facts(d).Some? && facts(d).value.isOpen|
    && p.totalTradingDays == |set d | from <= d < until && facts(d).Some? && facts(d).value.isOpen|
  }

  lemma PlaceCounts(facts: Facts, id: int, from: int, day: int, until: int)
    ensures Counts(facts, PlaceIn(facts, id, from, day, until), from, day, until)
  {
    OpenCount(facts, from, day + 1);
    OpenCount(facts, from, until);
    assert (set d | from <= d <= day && facts(d).Some? && facts(d).value.isOpen)
      == set d | from <= d < day + 1 && facts(d).Some? && facts(d).value.isOpen;
  }

  /** A row says of its day: the fact's own windows, the session from the first window's start to the last
      one's end with a nanosecond around it, and which of how many open days it is in its natural week and
      month. Day 1 is a Monday, so weeks begin where day - 1 is a multiple of seven. */
  lemma RowByFields(facts: Facts, row: Row, day: int)
    requires IsRow(facts, row, day)
    ensures row.date == day && day >= 1 && facts(day).Some? && facts(day).value.isOpen
    ensures row.windows == facts(day).value.intervals && |row.windows| >= 1
    ensures row.openNs == row.windows[0].start && row.closeNs == row.windows[|row.windows| - 1].end
    ensures row.beforeOpenNs == row.openNs - 1 && row.afterCloseNs == row.closeNs + 1
    ensures row.week.id <= day < row.week.id + 7 && (row.week.id - 1) % 7 == 0
    ensures Counts(facts, row.week, row.week.id, day, row.week.id + 7)
    ensures row.month.id >= 0 && MonthStart(row.month.id) <= day < MonthStart(row.month.id + 1)
    ensures Counts(facts, row.month, MonthStart(row.month.id), day, MonthStart(row.month.id + 1))
  {
    PlaceCounts(facts, Monday(day), Monday(day), day, Monday(day) + 7);
    PlaceCounts(facts, MonthOf(day), FirstOfMonth(day), day, MonthStart(MonthOf(day) + 1));
  }

  predicate OneCalendar<T>(ids: set<T>) {
    forall a, b :: a in ids && b in ids ==> a == b
  }

  // ---------------------------------------------------------------- the assembly

  type Selected = map<int, Fact>

  /** The selected facts are exactly those of `from..until`. */
  ghost predicate Covers(selected: Selected, facts: Facts, from: int, until: int) {
    && (forall d :: d in selected <==> from <= d < until)
    && (forall d :: d in selected ==> facts(d) == Some(selected[d]))
  }

  method LoadRange(facts: Facts, from: int, until: int) returns (r: Option<Selected>)
    requires from <= until
    ensures r.Some? ==> Covers(r.value, facts, from, until)
    ensures r.None? ==> exists d :: from <= d < until && facts(d).None?
  {
    var selected: Selected := map[];
    var day := from;
    while day < until
      invariant from <= day <= until && Covers(selected, facts, from, day)
    {
      var fact := facts(day);
      if fact.None? { return None; }
      selected := selected[day := fact.value];
      day := day + 1;
    }
    r := Some(selected);
  }

  /** The selected open days of a range, in order. */
  method OpenSelected(facts: Facts, selected: Selected, lower: int, top: int, from: int, until: int)
    returns (days: seq<int>)
    requires Covers(selected, facts, lower, top) && lower <= from <= until <= top
    ensures days == OpenDays(facts, from, until)
  {
    days := [];
    var day := from;
    while day < until
      invariant from <= day <= until && days == OpenDays(facts, from, day)
    {
      if selected[day].isOpen { days := days + [day]; }
      day := day + 1;
    }
  }

  /** Searches on, day by day, until two open days after the run are known or 31 days have passed. */
  method FindFollowing(facts: Facts, before: Selected, lower: int, upper: int, end: int)
    returns (r: Option<Selected>, following: seq<int>, stop: int)
    requires Covers(before, facts, lower, upper + 1) && lower <= end <= upper
    ensures following == OpenDays(facts, end + 1, stop) && upper < stop <= upper + 32
    ensures r.Some? ==> Covers(r.value, facts, lower, stop) && (|following| >= 2 || stop == upper + 32)
    ensures r.Some? && stop > upper + 1 ==> |OpenDays(facts, end + 1, stop - 1)| < 2
    ensures r.None? ==> upper < stop <= upper + 31 && facts(stop).None? && |following| < 2
  {
    var selected := before;
    following := OpenSelected(facts, selected, lower, upper + 1, end + 1, upper + 1);
    stop := upper + 1;
    while |following| < 2 && stop <= upper + 31
      invariant upper < stop <= upper + 32 && Covers(selected, facts, lower, stop)
      invariant following == OpenDays(facts, end + 1, stop)
      invariant stop > upper + 1 ==> |OpenDays(facts, end + 1, stop - 1)| < 2
    {
      var fact := facts(stop);
      if fact.None? { r := None; return; }
      selected := selected[stop := fact.value];
      if fact.value.isOpen { following := following + [stop]; }
      stop := stop + 1;
    }
    r := Some(selected);
  }

  /** Adds the days of the next session's week and month that are still missing. */
  method CompletePeriods(facts: Facts, before: Selected, lower: int, stop: int, next: nat)
    returns (r: Option<Selected>)
    requires next >= 1 && Covers(before, facts, lower, stop) && lower <= Lower(next) <= next < stop
    ensures r.Some? ==> Covers(r.value, facts, lower, Max(stop, Upper(next) + 1))
    ensures r.None? ==> exists d :: stop <= d <= Upper(next) && facts(d).None?
  {
    var selected := before;
    var day := Lower(next);
    while day <= Upper(next)
      invariant Lower(next) <= day <= Upper(next) + 1 && Covers(selected, facts, lower, Max(stop, day))
    {
      if day !in selected {
        var fact := facts(day);
        if fact.None? { return None; }
        selected := selected[day := fact.value];
      }
      day := day + 1;
    }
    r := Some(selected);
  }

  function PeriodOf(id: int, days: seq<int>, day: int): Period
    requires day in days
  {
    Period(id, IndexOf(days, day) + 1, |days|)
  }

  lemma PeriodIsTrue(facts: Facts, id: int, from: int, day: int, until: int)
    requires from <= day < until && Open(facts, day)
    ensures day in OpenDays(facts, from, until)
    ensures PeriodOf(id, OpenDays(facts, from, until), day) == PlaceIn(facts, id, from, day, until)
  {
    OrdinalIsCount(facts, from, day, until);
  }

  lemma CutIsTrue(facts: Facts, lower: int, top: int, id: int, from: int, day: int, until: int)
    requires lower <= from <= day < until <= top && Open(facts, day)
    ensures var days := Between(OpenDays(facts, lower, top), from, until);
      day in days && PeriodOf(id, days, day) == PlaceIn(facts, id, from, day, until)
  {
    BetweenIsOpen(facts, lower, from, until, top);
    PeriodIsTrue(facts, id, from, day, until);
  }

  /** The week computed from the selected open days is that of the whole natural week. */
  lemma WeekIsTrue(facts: Facts, lower: int, top: int, day: nat)
    requires day >= 1 && lower <= Monday(day) && Monday(day) + 7 <= top && Open(facts, day)
    ensures var week := Between(OpenDays(facts, lower, top), Monday(day), Monday(day) + 7);
      day in week && PeriodOf(Monday(day), week, day) == WeekOf(facts, day)
  {
    WeeksFollowDays(day, day);
    CutIsTrue(facts, lower, top, Monday(day), Monday(day), day, Monday(day) + 7);
  }

  /** Likewise the month. */
  lemma MonthIsTrue(facts: Facts, lower: int, top: int, day: nat)
    requires day >= 1 && lower <= FirstOfMonth(day) && MonthStart(MonthOf(day) + 1) <= top && Open(facts, day)
    ensures var month := InMonth(OpenDays(facts, lower, top), MonthOf(day));
      day in month && PeriodOf(MonthOf(day), month, day) == MonthPlace(facts, day)
  {
    InMonthIsBetween(OpenDays(facts, lower, top), MonthOf(day));
    CutIsTrue(facts, lower, top, MonthOf(day), FirstOfMonth(day), day, MonthStart(MonthOf(day) + 1));
  }

  lemma EnclosedPeriods(day: nat, lower: int, top: int)
    requires day >= 1 && lower <= Lower(day) && Upper(day) < top
    ensures lower <= Monday(day) && Monday(day) + 7 <= top
    ensures lower <= FirstOfMonth(day) && MonthStart(MonthOf(day) + 1) <= top
  {
    NextMonthStart(day);
  }

  method BuildRow(facts: Facts, fact: Fact, open: seq<int>, lower: int, top: int, day: nat) returns (row: Row)
    requires day >= 1 && facts(day) == Some(fact) && fact.isOpen && fact.intervals != []
    requires open == OpenDays(facts, lower, top) && lower <= Lower(day) && Upper(day) < top
    ensures row == RowFor(facts, day)
  {
    EnclosedPeriods(day, lower, top);
    WeekIsTrue(facts, lower, top, day);
    MonthIsTrue(facts, lower, top, day);
    var weekDays := Between(open, Monday(day), Monday(day) + 7);
    var monthDays := InMonth(open, MonthOf(day));
    var week, month := PeriodOf(Monday(day), weekDays, day), PeriodOf(MonthOf(day), monthDays, day);
    row := SessionRow(day, fact.intervals, week, month);
  }

  /** The days that get a row: those of the run and the next one. */
  function Kept(days: seq<int>, start: int, end: int, next: int): seq<int> {
    if days == [] then []
    else
      var last := days[|days| - 1];
      Kept(days[..|days| - 1], start, end, next) + if start <= last <= end || last == next then [last] else []
  }

  lemma KeptOneMore(facts: Facts, lower: int, top: int, start: int, end: int, next: int)
    requires lower < top
    ensures Kept(OpenDays(facts, lower, top), start, end, next)
      == Kept(OpenDays(facts, lower, top - 1), start, end, next)
        + if Open(facts, top - 1) && (start <= top - 1 <= end || top - 1 == next) then [top - 1] else []
  {
    var front := OpenDays(facts, lower, top - 1);
    if Open(facts, top - 1) {
      assert (front + [top - 1])[..|front|] == front;
    } else {
      assert front + [] == front;
    }
  }

  lemma {:induction false} KeptIsRunAndNext(facts: Facts, lower: int, top: int, start: int, end: int, next: int)
    requires lower <= start <= end < next && Open(facts, next)
    ensures Kept(OpenDays(facts, lower, top), start, end, next)
      == OpenDays(facts, start, Min(end + 1, top)) + if next < top then [next] else []
    decreases top - lower
  {
    if lower < top {
      KeptIsRunAndNext(facts, lower, top - 1, start, end, next);
      KeptOneMore(facts, lower, top, start, end, next);
      RunAndNextOneMore(facts, top, start, end, next);
    }
  }

  lemma RunAndNextOneMore(facts: Facts, top: int, start: int, end: int, next: int)
    requires start <= end < next && Open(facts, next)
    ensures OpenDays(facts, start, Min(end + 1, top)) + (if next < top then [next] else [])
      == (OpenDays(facts, start, Min(end + 1, top - 1)) + if next < top - 1 then [next] else [])
        + if Open(facts, top - 1) && (start <= top - 1 <= end || top - 1 == next) then [top - 1] else []
  {
  }

  /** Every day that gets a row has its periods among the selected days. */
  ghost predicate Enclosing(start: int, end: int, next: int, lower: int, top: int) {
    forall d :: lower <= d < top && (start <= d <= end || d == next) ==> EnclosedDay(d, lower, top)
  }

  ghost predicate EnclosedDay(day: int, lower: int, top: int) {
    day >= 1 && lower <= Lower(day) && Upper(day) < top
  }

  predicate RowWithoutWindows(facts: Facts, start: int, end: int, next: int, d: int) {
    (start <= d <= end || d == next) && Open(facts, d) && facts(d).value.intervals == []
  }

  method BuildRows(facts: Facts, selected: Selected, lower: int, top: int, start: int, end: int, next: int)
    returns (r: Option<seq<Row>>)
    requires Covers(selected, facts, lower, top) && lower <= top
    requires Enclosing(start, end, next, lower, top)
    ensures r.Some? ==> RowsAre(facts, r.value, Kept(OpenDays(facts, lower, top), start, end, next))
    ensures r.None? ==> exists d :: lower <= d < top && RowWithoutWindows(facts, start, end, next, d)
  {
    var open := OpenSelected(facts, selected, lower, top, lower, top);
    var rows: seq<Row> := [];
    for i := 0 to |open|
      invariant RowsAre(facts, rows, Kept(open[..i], start, end, next))
    {
      var day := open[i];
      OpenMembers(facts, lower, top, day);
      assert open[..i + 1][..i] == open[..i];
      if start <= day <= end || day == next {
        assert EnclosedDay(day, lower, top);
        if selected[day].intervals == [] {
          assert RowWithoutWindows(facts, start, end, next, day);
          return None;
        }
        var row := BuildRow(facts, selected[day], open, lower, top, day);
        rows := rows + [row];
      }
    }
    assert open[..|open|] == open;
    r := Some(rows);
  }

  /** Two open days were found: the first two after the run. */
  lemma FirstTwo(facts: Facts, end: int, stop: int)
    requires |OpenDays(facts, end + 1, stop)| >= 2
    ensures NextOpen(facts, end, OpenDays(facts, end + 1, stop)[0], OpenDays(facts, end + 1, stop)[1])
    ensures OpenDays(facts, end + 1, stop)[1] < stop
  {
    var days := OpenDays(facts, end + 1, stop);
    OpenAscending(facts, end + 1, stop);
    OpenMembers(facts, end + 1, stop, days[0]);
    OpenMembers(facts, end + 1, stop, days[1]);
    forall d | end < d < days[1] && Open(facts, d) ensures d == days[0] {
      OpenMembers(facts, end + 1, stop, d);
      var i :| 0 <= i < |days| && days[i] == d;
      assert i >= 2 ==> days[1] < days[i];
    }
  }

  /** Whether some of the days the assembly may ask for is refused by the reader. */
  ghost predicate SomeFactMissing(facts: Facts, start: int, end: int) {
    exists d :: Guarded(start, end, d) && facts(d).None?
  }

  /** Fewer than two open days in the run's periods and the 31 days after them. */
  predicate CoverageMissing(facts: Facts, end: nat) {
    end >= 1 && |OpenDays(facts, end + 1, Upper(end) + 32)| < 2
  }

  ghost predicate WindowlessDay(facts: Facts, end: int, d: int) {
    Open(facts, d) && facts(d).value.intervals == [] && forall x :: end < x < d ==> !Open(facts, x)
  }

  /** Some open day of the run, or the first one after it, has no trading window. */
  ghost predicate WindowsMissing(facts: Facts, start: int, end: int) {
    exists d :: start <= d && WindowlessDay(facts, end, d)
  }

  lemma WindowsAreMissing(facts: Facts, start: int, end: int, next: int, subsequent: int, d: int)
    requires start <= end && NextOpen(facts, end, next, subsequent) && RowWithoutWindows(facts, start, end, next, d)
    ensures WindowsMissing(facts, start, end)
  {
    assert start <= d && WindowlessDay(facts, end, d);
  }

  method AssembleCalendar<Id(==)>(facts: Facts, ids: set<Id>, start: nat, end: nat) returns (r: Assembled)
    requires 1 <= start <= end
    ensures r == Assembled(None) <==> ids == {}
    ensures r == Refused(SingleReferenceCalendarRequired) <==> !OneCalendar(ids)
    ensures r.Assembled? && r.calendar.Some? ==> Describes(facts, start, end, r.calendar.value)
    ensures r == Refused(FactUnavailable) ==> SomeFactMissing(facts, start, end)
    ensures r == Refused(NextOpenSessionCoverageMissing) ==> CoverageMissing(facts, end)
    ensures r == Refused(OpenSessionWindowsMissing) ==> WindowsMissing(facts, start, end)
    ensures r == Refused(OpenRunSessionsMissing) ==> OpenDays(facts, start, end + 1) == []
    // the days, and what is said of each of them
    ensures r.Assembled? && r.calendar.Some? ==> DaysAre(facts, start, end, r.calendar.value)
    ensures r.Assembled? && r.calendar.Some? ==>
      forall row :: row in r.calendar.value.rows + [r.calendar.value.following] ==>
        && row.date >= 1 && facts(row.date).Some? && facts(row.date).value.isOpen
        && row.windows == facts(row.date).value.intervals && |row.windows| >= 1
        && row.openNs == row.windows[0].start && row.closeNs == row.windows[|row.windows| - 1].end
        && row.beforeOpenNs == row.openNs - 1 && row.afterCloseNs == row.closeNs + 1
        && row.week.id <= row.date < row.week.id + 7 && (row.week.id - 1) % 7 == 0
        && Counts(facts, row.week, row.week.id, row.date, row.week.id + 7)
        && row.month.id >= 0 && MonthStart(row.month.id) <= row.date < MonthStart(row.month.id + 1)
        && Counts(facts, row.month, MonthStart(row.month.id), row.date, MonthStart(row.month.id + 1))
    ensures r.Assembled? && r.calendar.Some? ==> ConsultedAre(facts, start, end, r.calendar.value)
    // and the refusals
    ensures r == Refused(FactUnavailable) ==> exists d :: start - 31 <= d <= end + 101 && facts(d).None?
    ensures r == Refused(NextOpenSessionCoverageMissing) ==> FewerThanTwoFollow(facts, end)
    ensures r == Refused(OpenSessionWindowsMissing) ==>
      exists d ::
        && start <= d && facts(d).Some? && facts(d).value.isOpen && facts(d).value.intervals == []
        && forall x :: end < x < d && facts(x).Some? ==> !facts(x).value.isOpen
    ensures r == Refused(OpenRunSessionsMissing) ==>
      forall d :: start <= d <= end && facts(d).Some? ==> !facts(d).value.isOpen
  {
    if ids == {} { return Assembled(None); }
    if exists a, b :: a in ids && b in ids && a != b { return Refused(SingleReferenceCalendarRequired); }
    r := AssembleOne(facts, start, end);
    if r.Assembled? {
      CalendarByFields(facts, start, end, r.calendar.value);
      ConsultedByFields(facts, start, end, r.calendar.value);
    }
    RefusedByFields(facts, start, end, r);
  }

  lemma DaysOfRun(facts: Facts, start: nat, end: nat, rows: seq<Row>)
    requires RowsAre(facts, rows, OpenDays(facts, start, end + 1))
    ensures forall i :: 0 <= i < |rows| ==> start <= rows[i].date <= end
    ensures forall i, j :: 0 <= i < j < |rows| ==> rows[i].date < rows[j].date
    ensures forall d :: start <= d <= end && Open(facts, d) ==> exists i :: 0 <= i < |rows| && rows[i].date == d
  {
    var days := OpenDays(facts, start, end + 1);
    OpenAscending(facts, start, end + 1);
    forall i | 0 <= i < |rows| ensures rows[i].date == days[i] && start <= days[i] <= end {
      assert IsRow(facts, rows[i], days[i]);
      OpenMembers(facts, start, end + 1, days[i]);
    }
    forall d | start <= d <= end && Open(facts, d) ensures exists i :: 0 <= i < |rows| && rows[i].date == d {
      OpenMembers(facts, start, end + 1, d);
      var i :| 0 <= i < |days| && days[i] == d;
      assert rows[i].date == d;
    }
  }

  lemma RowsOfCalendar(facts: Facts, start: nat, end: nat, c: Calendar)
    requires RowsDescribe(facts, start, end, c)
    ensures forall row :: row in c.rows + [c.following] ==> IsRow(facts, row, row.date)
  {
    forall row | row in c.rows + [c.following] ensures IsRow(facts, row, row.date) {
      if row in c.rows {
        var i :| 0 <= i < |c.rows| && c.rows[i] == row;
        assert IsRow(facts, c.rows[i], OpenDays(facts, start, end + 1)[i]);
      }
    }
  }

  /** One row for every open day of the run, in order; then the two open days that follow the run. */
  ghost predicate DaysAre(facts: Facts, start: nat, end: nat, c: Calendar) {
    && (forall d :: start <= d <= end && facts(d).Some? && facts(d).value.isOpen ==>
          exists i :: 0 <= i < |c.rows| && c.rows[i].date == d)
    && (forall i :: 0 <= i < |c.rows| ==> start <= c.rows[i].date <= end)
    && (forall i, j :: 0 <= i < j < |c.rows| ==> c.rows[i].date < c.rows[j].date)
    && |c.rows| > 0 && end < c.following.date < c.subsequent
    && facts(c.subsequent).Some? && facts(c.subsequent).value.isOpen
    && (forall d :: end < d < c.subsequent && d != c.following.date && facts(d).Some? ==> !facts(d).value.isOpen)
  }

  lemma DaysOfCalendar(facts: Facts, start: nat, end: nat, c: Calendar)
    requires RowsDescribe(facts, start, end, c) && SessionsFollow(facts, end, c)
    ensures DaysAre(facts, start, end, c)
  {
    DaysOfRun(facts, start, end, c.rows);
    forall d | end < d < c.subsequent && d != c.following.date && facts(d).Some? ensures !facts(d).value.isOpen {
      assert !Open(facts, d);
    }
    forall d | start <= d <= end && facts(d).Some? && facts(d).value.isOpen
      ensures exists i :: 0 <= i < |c.rows| && c.rows[i].date == d
    {
      assert Open(facts, d);
    }
  }

  lemma CalendarByFields(facts: Facts, start: nat, end: nat, c: Calendar)
    requires RowsDescribe(facts, start, end, c) && SessionsFollow(facts, end, c)
    ensures DaysAre(facts, start, end, c)
    ensures forall row :: row in c.rows + [c.following] ==>
      && row.date >= 1 && facts(row.date).Some? && facts(row.date).value.isOpen
      && row.windows == facts(row.date).value.intervals && |row.windows| >= 1
      && row.openNs == row.windows[0].start && row.closeNs == row.windows[|row.windows| - 1].end
      && row.beforeOpenNs == row.openNs - 1 && row.afterCloseNs == row.closeNs + 1
      && row.week.id <= row.date < row.week.id + 7 && (row.week.id - 1) % 7 == 0
      && Counts(facts, row.week, row.week.id, row.date, row.week.id + 7)
      && row.month.id >= 0 && MonthStart(row.month.id) <= row.date < MonthStart(row.month.id + 1)
      && Counts(facts, row.month, MonthStart(row.month.id), row.date, MonthStart(row.month.id + 1))
  {
    DaysOfCalendar(facts, start, end, c);
    RowsOfCalendar(facts, start, end, c);
    forall row | row in c.rows + [c.following]
      ensures row.date >= 1 && facts(row.date).Some? && facts(row.date).value.isOpen
      ensures row.windows == facts(row.date).value.intervals && |row.windows| >= 1
      ensures row.openNs == row.windows[0].start && row.closeNs == row.windows[|row.windows| - 1].end
      ensures row.beforeOpenNs == row.openNs - 1 && row.afterCloseNs == row.closeNs + 1
      ensures row.week.id <= row.date < row.week.id + 7 && (row.week.id - 1) % 7 == 0
      ensures Counts(facts, row.week, row.week.id, row.date, row.week.id + 7)
      ensures row.month.id >= 0 && MonthStart(row.month.id) <= row.date < MonthStart(row.month.id + 1)
      ensures Counts(facts, row.month, MonthStart(row.month.id), row.date, MonthStart(row.month.id + 1))
    {
      RowByFields(facts, row, row.date);
    }
  }

  /** The last day of the later of a day's week and month. */
  function PeriodsEnd(day: nat): int
    requires day >= 1
  {
    Max(MonthStart(MonthOf(day) + 1) - 1, day - (day - 1) % 7 + 6)
  }

  lemma PeriodsExactly(day: nat)
    requires day >= 1
    ensures Lower(day) == Min(MonthStart(MonthOf(day)), day - (day - 1) % 7)
    ensures Upper(day) == PeriodsEnd(day)
  {
    NextMonthStart(day);
    assert Monday(day) == day - (day - 1) % 7;
  }

  /** The reference holds the fact of every day from the first week and month of the run to the end of the
      last week and month of the run and of the session after it, and to the open day after that. */
  ghost predicate ConsultedAre(facts: Facts, start: nat, end: nat, c: Calendar) {
    && start >= 1 && end >= 1 && c.following.date >= 1
    && c.from == Min(MonthStart(MonthOf(start)), start - (start - 1) % 7)
    && c.from + |c.reference| == Max(Max(PeriodsEnd(end), c.subsequent), PeriodsEnd(c.following.date)) + 1
    && (forall i :: 0 <= i < |c.reference| ==> facts(c.from + i) == Some(c.reference[i]))
  }

  lemma ConsultedByFields(facts: Facts, start: nat, end: nat, c: Calendar)
    requires ReferenceHolds(facts, start, end, c)
    ensures ConsultedAre(facts, start, end, c)
  {
    FromExactly(start);
    TopExactly(end, c.following.date, c.subsequent);
  }

  lemma FromExactly(start: nat)
    requires start >= 1
    ensures Lower(start) == Min(MonthStart(MonthOf(start)), start - (start - 1) % 7)
  {
    PeriodsExactly(start);
  }

  lemma TopExactly(end: nat, next: nat, subsequent: int)
    requires end >= 1 && next >= 1
    ensures Top(end, next, subsequent) == Max(Max(PeriodsEnd(end), subsequent), PeriodsEnd(next)) + 1
  {
    PeriodsExactly(end);
    PeriodsExactly(next);
  }

  /** Fewer than two open days up to 31 days after the end of the last week and of the last month of the run. */
  ghost predicate FewerThanTwoFollow(facts: Facts, end: nat) {
    end >= 1 && |set d | end < d <= PeriodsEnd(end) + 31 && facts(d).Some? && facts(d).value.isOpen| < 2
  }

  lemma CoverageByFields(facts: Facts, end: nat)
    requires CoverageMissing(facts, end)
    ensures FewerThanTwoFollow(facts, end)
  {
    PeriodsExactly(end);
    OpenCount(facts, end + 1, Upper(end) + 32);
    assert (set d | end < d <= PeriodsEnd(end) + 31 && facts(d).Some? && facts(d).value.isOpen)
      == set d | end + 1 <= d < Upper(end) + 32 && facts(d).Some? && facts(d).value.isOpen;
  }

  lemma RefusedByFields(facts: Facts, start: nat, end: nat, r: Assembled)
    requires 1 <= start <= end
    requires r == Refused(FactUnavailable) ==> SomeFactMissing(facts, start, end)
    requires r == Refused(NextOpenSessionCoverageMissing) ==> CoverageMissing(facts, end)
    requires r == Refused(OpenSessionWindowsMissing) ==> WindowsMissing(facts, start, end)
    requires r == Refused(OpenRunSessionsMissing) ==> OpenDays(facts, start, end + 1) == []
    ensures r == Refused(FactUnavailable) ==> exists d :: start - 31 <= d <= end + 101 && facts(d).None?
    ensures r == Refused(NextOpenSessionCoverageMissing) ==> FewerThanTwoFollow(facts, end)
    ensures r == Refused(OpenSessionWindowsMissing) ==>
      exists d ::
        && start <= d && facts(d).Some? && facts(d).value.isOpen && facts(d).value.intervals == []
        && forall x :: end < x < d && facts(x).Some? ==> !facts(x).value.isOpen
    ensures r == Refused(OpenRunSessionsMissing) ==>
      forall d :: start <= d <= end && facts(d).Some? ==> !facts(d).value.isOpen
  {
    if r == Refused(NextOpenSessionCoverageMissing) {
      CoverageByFields(facts, end);
    } else if r == Refused(OpenSessionWindowsMissing) {
      WindowsByFields(facts, start, end);
    } else if r == Refused(OpenRunSessionsMissing) {
      NothingOpen(facts, start, end);
    }
  }

  lemma WindowsByFields(facts: Facts, start: nat, end: nat)
    requires WindowsMissing(facts, start, end)
    ensures exists d ::
      && start <= d && facts(d).Some? && facts(d).value.isOpen && facts(d).value.intervals == []
      && forall x :: end < x < d && facts(x).Some? ==> !facts(x).value.isOpen
  {
    var d :| start <= d && WindowlessDay(facts, end, d);
    forall x | end < x < d && facts(x).Some? ensures !facts(x).value.isOpen { assert !Open(facts, x); }
  }

  lemma NothingOpen(facts: Facts, start: nat, end: nat)
    requires OpenDays(facts, start, end + 1) == []
    ensures forall d :: start <= d <= end && facts(d).Some? ==> !facts(d).value.isOpen
  {
    forall d | start <= d <= end && facts(d).Some? ensures !facts(d).value.isOpen {
      OpenMembers(facts, start, end + 1, d);
    }
  }

  method AssembleOne(facts: Facts, start: nat, end: nat) returns (r: Assembled)
    requires 1 <= start <= end
    ensures r != Assembled(None) && r != Refused(SingleReferenceCalendarRequired)
    ensures r.Assembled? && r.calendar.Some? ==> Describes(facts, start, end, r.calendar.value)
    ensures r == Refused(FactUnavailable) ==> SomeFactMissing(facts, start, end)
    ensures r == Refused(NextOpenSessionCoverageMissing) ==> CoverageMissing(facts, end)
    ensures r == Refused(OpenSessionWindowsMissing) ==> WindowsMissing(facts, start, end)
    ensures r == Refused(OpenRunSessionsMissing) ==> OpenDays(facts, start, end + 1) == []
  {
    var lower, upper := Lower(start), Upper(end);
    RunBounds(start, end);
    var first := LoadRange(facts, lower, upper + 1);
    if first.None? { return Refused(FactUnavailable); }
    var second, following, stop := FindFollowing(facts, first.value, lower, upper, end);
    if second.None? { return Refused(FactUnavailable); }
    if |following| < 2 { return Refused(NextOpenSessionCoverageMissing); }
    FoundNext(facts, start, end, stop);
    r := AssembleWith(facts, second.value, start, end, following[0], following[1], stop);
  }

  /** With the two open days after the run found, whose facts up to `stop` are selected. */
  method AssembleWith(
      facts: Facts, selected: Selected, start: nat, end: nat, next: int, subsequent: int, stop: int)
    returns (r: Assembled)
    requires 1 <= start <= end < next < subsequent < stop <= Upper(end) + 32
    requires stop == Max(Upper(end), subsequent) + 1 && NextOpen(facts, end, next, subsequent)
    requires Covers(selected, facts, Lower(start), stop)
    ensures r != Assembled(None) && r != Refused(SingleReferenceCalendarRequired)
    ensures r != Refused(NextOpenSessionCoverageMissing)
    ensures r.Assembled? ==> Describes(facts, start, end, r.calendar.value)
    ensures r == Refused(FactUnavailable) ==> SomeFactMissing(facts, start, end)
    ensures r == Refused(OpenSessionWindowsMissing) ==> WindowsMissing(facts, start, end)
    ensures r == Refused(OpenRunSessionsMissing) ==> OpenDays(facts, start, end + 1) == []
  {
    FoundRange(start, end, next, subsequent, stop);
    var completed := CompletePeriods(facts, selected, Lower(start), stop, next);
    if completed.None? {
      assert SomeFactMissing(facts, start, end);
      return Refused(FactUnavailable);
    }
    r := RowsAndReference(facts, completed.value, start, end, next, subsequent);
  }

  /** The rows of the run and of the next session, unless one of them has no trading window. */
  method RunRows(
      facts: Facts, selected: Selected, start: nat, end: nat, next: int, subsequent: int, top: int)
    returns (r: Option<seq<Row>>)
    requires 1 <= start <= end && NextOpen(facts, end, next, subsequent) && Lower(start) <= start && next < top
    requires Covers(selected, facts, Lower(start), top) && Enclosing(start, end, next, Lower(start), top)
    ensures r.Some? ==> RowsAre(facts, r.value, OpenDays(facts, start, end + 1) + [next])
    ensures r.None? ==> WindowsMissing(facts, start, end)
  {
    r := BuildRows(facts, selected, Lower(start), top, start, end, next);
    if r.None? {
      ghost var d :| Lower(start) <= d < top && RowWithoutWindows(facts, start, end, next, d);
      WindowsAreMissing(facts, start, end, next, subsequent, d);
    } else {
      KeptIsRunAndNext(facts, Lower(start), top, start, end, next);
    }
  }

  /** Rows of the selected facts, and the facts themselves for the reference. */
  method RowsAndReference(
      facts: Facts, selected: Selected, start: nat, end: nat, next: int, subsequent: int)
    returns (r: Assembled)
    requires 1 <= start <= end && NextOpen(facts, end, next, subsequent) && subsequent <= Upper(end) + 31
    requires Covers(selected, facts, Lower(start), Top(end, next, subsequent))
    requires Enclosing(start, end, next, Lower(start), Top(end, next, subsequent))
    ensures r != Assembled(None)
    ensures r.Assembled? ==> Describes(facts, start, end, r.calendar.value)
    ensures r.Refused? ==> r.failure == OpenSessionWindowsMissing || r.failure == OpenRunSessionsMissing
    ensures r == Refused(OpenSessionWindowsMissing) ==> WindowsMissing(facts, start, end)
    ensures r == Refused(OpenRunSessionsMissing) ==> OpenDays(facts, start, end + 1) == []
  {
    var found := RunRows(facts, selected, start, end, next, subsequent, Top(end, next, subsequent));
    if found.None? { return Refused(OpenSessionWindowsMissing); }
    var rows := found.value;
    NoRunRows(facts, rows, OpenDays(facts, start, end + 1), next);
    if |rows| < 2 { return Refused(OpenRunSessionsMissing); }
    var reference := Reference(facts, selected, Lower(start), Top(end, next, subsequent));
    r := Assembled(Some(CalendarOf(rows, subsequent, Lower(start), reference)));
  }

  lemma NoRunRows(facts: Facts, rows: seq<Row>, days: seq<int>, next: int)
    requires RowsAre(facts, rows, days + [next])
    ensures |rows| == |days| + 1
  {
  }

  /** The selected facts in day order. */
  method Reference(facts: Facts, selected: Selected, lower: int, top: int) returns (reference: seq<Fact>)
    requires Covers(selected, facts, lower, top) && lower <= top
    ensures FactsAre(facts, lower, top, reference)
  {
    reference := seq(top - lower, i requires 0 <= i < top - lower => selected[lower + i]);
  }

  lemma RunBounds(start: nat, end: nat)
    requires 1 <= start <= end
    ensures Lower(start) <= start <= end <= Upper(end)
    ensures forall d :: Lower(start) <= d <= Upper(end) + 31 ==> Guarded(start, end, d)
  {
  }

  /** What the search found, and how far the consulted days reach. */
  lemma FoundNext(facts: Facts, start: nat, end: nat, stop: int)
    requires 1 <= start <= end && Upper(end) < stop <= Upper(end) + 32
    requires |OpenDays(facts, end + 1, stop)| >= 2
    requires stop > Upper(end) + 1 ==> |OpenDays(facts, end + 1, stop - 1)| < 2
    ensures var days := OpenDays(facts, end + 1, stop);
      && NextOpen(facts, end, days[0], days[1]) && end < days[0] < days[1] < stop
      && stop == Max(Upper(end), days[1]) + 1
  {
    RunBounds(start, end);
    FirstTwo(facts, end, stop);
  }

  lemma FoundRange(start: nat, end: nat, next: nat, subsequent: int, stop: int)
    requires 1 <= start <= end < next < subsequent < stop <= Upper(end) + 32 && stop == Max(Upper(end), subsequent) + 1
    ensures Lower(start) <= Lower(next) <= next < stop && Top(end, next, subsequent) == Max(stop, Upper(next) + 1)
    ensures forall d :: Lower(start) <= d < Top(end, next, subsequent) ==> Guarded(start, end, d)
    ensures Enclosing(start, end, next, Lower(start), Top(end, next, subsequent))
  {
    ConsultedDays(start, end, next, subsequent);
    RunIsEnclosed(start, end, next, Lower(start), Top(end, next, subsequent));
  }

  /** All rows but the last are the run's; the last one is the following session. */
  function CalendarOf(rows: seq<Row>, subsequent: int, from: int, reference: seq<Fact>): Calendar
    requires rows != []
  {
    Calendar(rows[..|rows| - 1], rows[|rows| - 1], subsequent, from, reference)
  }

  lemma RunIsEnclosed(start: nat, end: nat, next: nat, lower: int, top: int)
    requires 1 <= start <= end < next && lower == Lower(start) && lower <= Lower(next)
    requires Upper(end) < top && Upper(next) < top
    ensures Enclosing(start, end, next, lower, top)
  {
    forall d | lower <= d < top && start <= d <= end ensures EnclosedDay(d, lower, top) {
      PeriodsInside(start, end, d);
    }
  }

  // ---------------------------------------------------------------- what the fingerprint is enough for

  /** Two readers give the same facts in `from..until`. */
  ghost predicate Agree(a: Facts, b: Facts, from: int, until: int) {
    forall d :: from <= d < until ==> a(d) == b(d)
  }

  lemma {:induction false} SameOpenDays(a: Facts, b: Facts, from: int, until: int)
    requires Agree(a, b, from, until)
    ensures OpenDays(a, from, until) == OpenDays(b, from, until)
    decreases until - from
  {
    if from < until { SameOpenDays(a, b, from, until - 1); }
  }

  lemma SamePlace(a: Facts, b: Facts, id: int, from: int, day: int, until: int)
    requires from <= day < until && Agree(a, b, from, until)
    ensures PlaceIn(a, id, from, day, until) == PlaceIn(b, id, from, day, until)
  {
    SameOpenDays(a, b, from, day + 1);
    SameOpenDays(a, b, from, until);
  }

  lemma SameWeek(a: Facts, b: Facts, day: nat)
    requires Agree(a, b, Monday(day), Monday(day) + 7)
    ensures WeekOf(a, day) == WeekOf(b, day)
  {
    SamePlace(a, b, Monday(day), Monday(day), day, Monday(day) + 7);
  }

  lemma SameMonth(a: Facts, b: Facts, day: nat)
    requires day >= 1 && Agree(a, b, FirstOfMonth(day), MonthStart(MonthOf(day) + 1))
    ensures MonthPlace(a, day) == MonthPlace(b, day)
  {
    SamePlace(a, b, MonthOf(day), FirstOfMonth(day), day, MonthStart(MonthOf(day) + 1));
  }

  lemma SameRow(a: Facts, b: Facts, row: Row, day: int)
    requires IsRow(a, row, day) && Agree(a, b, Lower(day), Upper(day) + 1)
    ensures IsRow(b, row, day)
  {
    EnclosedPeriods(day, Lower(day), Upper(day) + 1);
    SameWeek(a, b, day);
    SameMonth(a, b, day);
    assert a(day) == b(day);
  }

  lemma SameRows(a: Facts, b: Facts, start: nat, end: nat, rows: seq<Row>)
    requires 1 <= start <= end && RowsAre(a, rows, OpenDays(a, start, end + 1))
    requires Agree(a, b, Lower(start), Upper(end) + 1)
    ensures RowsAre(b, rows, OpenDays(b, start, end + 1))
  {
    RunBounds(start, end);
    SameOpenDays(a, b, start, end + 1);
    var days := OpenDays(a, start, end + 1);
    forall i | 0 <= i < |rows| ensures IsRow(b, rows[i], days[i]) {
      assert IsRow(a, rows[i], days[i]);
      OpenMembers(a, start, end + 1, days[i]);
      PeriodsInside(start, end, days[i]);
      SameRow(a, b, rows[i], days[i]);
    }
  }

  lemma SameNext(a: Facts, b: Facts, end: int, next: int, subsequent: int)
    requires NextOpen(a, end, next, subsequent) && Agree(a, b, end + 1, subsequent + 1)
    ensures NextOpen(b, end, next, subsequent)
  {
    forall d | end < d <= subsequent ensures Open(a, d) == Open(b, d) { assert a(d) == b(d); }
  }

  lemma SameRowsDescribe(a: Facts, b: Facts, start: nat, end: nat, c: Calendar)
    requires 1 <= start <= end && RowsDescribe(a, start, end, c)
    requires Agree(a, b, Lower(start), Upper(end) + 1)
    requires Agree(a, b, Lower(c.following.date), Upper(c.following.date) + 1)
    ensures RowsDescribe(b, start, end, c)
  {
    SameRows(a, b, start, end, c.rows);
    SameRow(a, b, c.following, c.following.date);
  }

  /** Every range an assembled calendar rests on is guarded. */
  lemma GuardedRanges(a: Facts, b: Facts, start: nat, end: nat, next: nat, subsequent: int)
    requires 1 <= start <= end < next < subsequent <= Upper(end) + 31
    requires Agree(a, b, start - GUARD_BEFORE, end + GUARD_AFTER + 1)
    ensures Agree(a, b, Lower(start), Upper(end) + 1) && Agree(a, b, Lower(next), Upper(next) + 1)
    ensures Agree(a, b, end + 1, subsequent + 1) && Agree(a, b, Lower(start), Top(end, next, subsequent))
  {
    ConsultedDays(start, end, next, subsequent);
  }

  /** Facts that agree on the guarded window have the same calendar: as long as the fingerprint does
      not change, an assembled calendar stays the right one. */
  lemma GuardSuffices(a: Facts, b: Facts, start: nat, end: nat, c: Calendar)
    requires 1 <= start <= end && Describes(a, start, end, c)
    requires forall d :: start - 31 <= d <= end + 101 ==> a(d) == b(d)
    ensures Describes(b, start, end, c)
  {
    var next := c.following.date;
    assert Agree(a, b, start - GUARD_BEFORE, end + GUARD_AFTER + 1) by {
      forall d | start - GUARD_BEFORE <= d < end + GUARD_AFTER + 1 ensures a(d) == b(d) {
      }
    }
    GuardedRanges(a, b, start, end, next, c.subsequent);
    SameRowsDescribe(a, b, start, end, c);
    SameNext(a, b, end, next, c.subsequent);
  }

  lemma SameRowsUnique(facts: Facts, a: seq<Row>, b: seq<Row>, days: seq<int>)
    requires RowsAre(facts, a, days) && RowsAre(facts, b, days)
    ensures a == b
  {
    forall i | 0 <= i < |a| ensures a[i] == b[i] {
      assert IsRow(facts, a[i], days[i]) && IsRow(facts, b[i], days[i]);
    }
  }

  lemma NextUnique(facts: Facts, end: int, n: int, s: int, n': int, s': int)
    requires NextOpen(facts, end, n, s) && NextOpen(facts, end, n', s')
    ensures n == n' && s == s'
  {
  }

  lemma ReferenceUnique(facts: Facts, start: nat, end: nat, c: Calendar, d: Calendar)
    requires 1 <= start <= end < c.following.date
    requires c.following.date == d.following.date && c.subsequent == d.subsequent
    requires ReferenceHolds(facts, start, end, c) && ReferenceHolds(facts, start, end, d)
    ensures c.from == d.from && c.reference == d.reference
  {
    forall i | 0 <= i < |c.reference| ensures c.reference[i] == d.reference[i] {
      assert facts(c.from + i) == facts(d.from + i);
    }
  }

  /** The facts leave no choice: at most one calendar describes them. */
  lemma CalendarIsUnique(facts: Facts, start: nat, end: nat, c: Calendar, d: Calendar)
    requires 1 <= start <= end && Describes(facts, start, end, c) && Describes(facts, start, end, d)
    ensures c == d
  {
    NextUnique(facts, end, c.following.date, c.subsequent, d.following.date, d.subsequent);
    SameRowsUnique(facts, c.rows, d.rows, OpenDays(facts, start, end + 1));
    SameRowsUnique(facts, [c.following], [d.following], [c.following.date]);
    assert [c.following][0] == [d.following][0];
    ReferenceUnique(facts, start, end, c, d);
  }
}
