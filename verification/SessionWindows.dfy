/** Session windows of a calendar day: the typed normalisation that sorts, and the strict parser of
    stored payloads that never sorts. */
module SessionWindows {
  import opened RuntimeContracts
  import opened ClockTime

  const MAX_WINDOWS := 16

  datatype Window = Window(start: Time, end: Time) {
    predicate Valid() {
      start.Valid() && end.Valid() && start.Micros() < end.Micros()
    }
  }

  /** Sort key of the typed helper: start, then end. */
  predicate Before(a: Window, b: Window) {
    a.start.Micros() < b.start.Micros() || (a.start.Micros() == b.start.Micros() && a.end.Micros() < b.end.Micros())
  }

  predicate Overlap(a: Window, b: Window) {
    a.start.Micros() < b.end.Micros() && b.start.Micros() < a.end.Micros()
  }

  ghost predicate AllValid(ws: seq<Window>) {
    forall i :: 0 <= i < |ws| ==> ws[i].Valid()
  }

  predicate SortedWindows(ws: seq<Window>) {
    forall i, j :: 0 <= i < j < |ws| ==> !Before(ws[j], ws[i])
  }

  /** Every window ends before every later one begins. */
  predicate Apart(ws: seq<Window>) {
    forall i, j :: 0 <= i < j < |ws| ==> ws[i].end.Micros() <= ws[j].start.Micros()
  }

  predicate Neighbours(ws: seq<Window>) {
    forall i :: 0 < i < |ws| ==> ws[i - 1].end.Micros() <= ws[i].start.Micros()
  }

  /** Comparing neighbours only is enough. */
  lemma NeighboursAreApart(ws: seq<Window>)
    requires AllValid(ws)
    ensures Neighbours(ws) <==> Apart(ws)
  {
    if Neighbours(ws) {
      forall i, j | 0 <= i < j < |ws| ensures ws[i].end.Micros() <= ws[j].start.Micros() { ChainApart(ws, i, j); }
    }
  }

  lemma {:induction false} ChainApart(ws: seq<Window>, i: nat, j: nat)
    requires AllValid(ws) && Neighbours(ws) && i < j < |ws|
    ensures ws[i].end.Micros() <= ws[j].start.Micros()
    decreases j
  {
    if i < j - 1 { ChainApart(ws, i, j - 1); }
  }

  // ---------------------------------------------------------------- typed normalisation

  datatype Item = Typed(window: Window) | Pair(start: Time, end: Time) | OtherItem

  datatype Fault = DomainError | JsonInvalid | LimitExceeded | CrossMidnight | Unsorted | Overlapping

  datatype Parsed = Accepted(windows: seq<Window>) | Rejected(fault: Fault)

  /** What one item contributes: a window as it is, or a constructed one. */
  function Construct(item: Item): Option<Window> {
    match item
    case Typed(w) => Some(w)
    case Pair(a, b) => if a.Micros() < b.Micros() then Some(Window(a, b)) else None
    case OtherItem => None
  }

  predicate ItemWellTyped(item: Item) {
    match item
    case Typed(w) => w.Valid()
    case Pair(a, b) => a.Valid() && b.Valid()
    case OtherItem => true
  }

  function WindowsOf(items: seq<Item>): (r: seq<Window>)
    requires forall i :: 0 <= i < |items| ==> Construct(items[i]).Some?
    ensures |r| == |items|
    ensures forall i :: 0 <= i < |items| ==>
      || items[i] == Typed(r[i])
      || (items[i] == Pair(r[i].start, r[i].end) && r[i].start.Micros() < r[i].end.Micros())
  {
    seq(|items|, i requires 0 <= i < |items| => Construct(items[i]).value)
  }

  predicate SomeOverlap(ws: seq<Window>) {
    exists i, j :: 0 <= i < j < |ws| && Overlap(ws[i], ws[j])
  }

  method InsertSorted(ws: seq<Window>, w: Window) returns (r: seq<Window>)
    requires SortedWindows(ws)
    ensures SortedWindows(r) && multiset(r) == multiset(ws) + multiset{w}
  {
    var k := |ws|;
    while k > 0 && Before(w, ws[k - 1])
      invariant 0 <= k <= |ws|
      invariant forall i :: k <= i < |ws| ==> Before(w, ws[i])
    {
      k := k - 1;
    }
    r := ws[..k] + [w] + ws[k..];
    assert ws == ws[..k] + ws[k..];
    InsertKeepsOrder(ws, w, k, r);
  }

  lemma InsertKeepsOrder(ws: seq<Window>, w: Window, k: nat, r: seq<Window>)
    requires SortedWindows(ws) && k <= |ws| && r == ws[..k] + [w] + ws[k..]
    requires k > 0 ==> !Before(w, ws[k - 1])
    requires forall i :: k <= i < |ws| ==> Before(w, ws[i])
    ensures SortedWindows(r)
  {
    forall i, j | 0 <= i < j < |r| ensures !Before(r[j], r[i]) {
      if j == k {
        assert r[i] == ws[i];
        assert i < k - 1 ==> !Before(ws[k - 1], ws[i]);
      } else if j > k {
        assert r[j] == ws[j - 1];
        if i == k { assert Before(w, ws[j - 1]); } else { assert r[i] == if i < k then ws[i] else ws[i - 1]; }
      } else {
        assert r[i] == ws[i] && r[j] == ws[j];
      }
    }
  }

  /** The library sort by (start, end). */
  method SortWindows(ws: seq<Window>) returns (r: seq<Window>)
    ensures SortedWindows(r) && multiset(r) == multiset(ws)
  {
    r := [];
    for i := 0 to |ws|
      invariant SortedWindows(r) && multiset(r) == multiset(ws[..i])
    {
      assert ws[..i + 1] == ws[..i] + [ws[i]];
      r := InsertSorted(r, ws[i]);
    }
    assert ws[..|ws|] == ws;
  }

  lemma {:induction false} MultisetIndex(a: seq<Window>, b: seq<Window>, i: nat)
    requires multiset(a) == multiset(b) && i < |a|
    ensures exists k :: 0 <= k < |b| && b[k] == a[i]
  {
    assert a[i] in multiset(b);
  }

  lemma ApartHasNoOverlap(ws: seq<Window>)
    requires Apart(ws)
    ensures !SomeOverlap(ws)
  {
  }

  lemma NextOverlaps(a: Window, b: Window)
    requires a.Valid() && b.Valid() && !Before(b, a) && b.start.Micros() < a.end.Micros()
    ensures Overlap(a, b)
  {
  }

  lemma SomeNeighbourOverlaps(ws: seq<Window>)
    requires AllValid(ws) && SortedWindows(ws) && !Neighbours(ws)
    ensures SomeOverlap(ws)
  {
    var i :| 0 < i < |ws| && ws[i].start.Micros() < ws[i - 1].end.Micros();
    var a, b := ws[i - 1], ws[i];
    NextOverlaps(a, b);
    assert Overlap(ws[i - 1], ws[i]);
  }

  /** In a sorted list some two windows overlap exactly when two neighbours do. */
  lemma SortedOverlap(ws: seq<Window>)
    requires AllValid(ws) && SortedWindows(ws)
    ensures SomeOverlap(ws) <==> !Neighbours(ws)
  {
    if Neighbours(ws) {
      NeighboursAreApart(ws);
      ApartHasNoOverlap(ws);
    } else {
      SomeNeighbourOverlaps(ws);
    }
  }

  lemma SameLength(a: seq<Window>, b: seq<Window>)
    requires multiset(a) == multiset(b)
    ensures |a| == |b|
  {
    assert |multiset(a)| == |a| && |multiset(b)| == |b|;
  }

  /** Whether two entries of a list overlap does not depend on its order. */
  lemma OverlapIsOrderFree(a: seq<Window>, b: seq<Window>)
    requires AllValid(a) && multiset(a) == multiset(b) && SomeOverlap(a)
    ensures SomeOverlap(b)
  {
    var i, j :| 0 <= i < j < |a| && Overlap(a[i], a[j]);
    if a[i] == a[j] {
      Repeated(a, i, j);
      assert multiset(b)[a[i]] >= 2;
      TwoPlaces(b, a[i]);
      var k, l :| 0 <= k < l < |b| && b[k] == a[i] && b[l] == a[i];
      assert Overlap(b[k], b[l]);
    } else {
      MultisetIndex(a, b, i);
      MultisetIndex(a, b, j);
      var k :| 0 <= k < |b| && b[k] == a[i];
      var l :| 0 <= l < |b| && b[l] == a[j];
      assert Overlap(b[k], b[l]) && Overlap(b[l], b[k]);
    }
  }

  lemma Repeated(a: seq<Window>, i: nat, j: nat)
    requires i < j < |a| && a[i] == a[j]
    ensures multiset(a)[a[i]] >= 2
  {
    assert a == a[..j] + a[j..];
    assert a[..j][i] == a[i] && a[j..][0] == a[j];
    assert a[i] in multiset(a[..j]) && a[i] in multiset(a[j..]);
  }

  lemma {:induction false} TwoPlaces(b: seq<Window>, w: Window)
    requires multiset(b)[w] >= 2
    ensures exists k, l :: 0 <= k < l < |b| && b[k] == w && b[l] == w
    decreases |b|
  {
    var front, last := b[..|b| - 1], b[|b| - 1];
    assert b == front + [last];
    if last == w {
      assert w in multiset(front);
      var k :| 0 <= k < |front| && front[k] == w;
      assert b[k] == w && b[|b| - 1] == w;
    } else {
      TwoPlaces(front, w);
      var k, l :| 0 <= k < l < |front| && front[k] == w && front[l] == w;
      assert b[k] == w && b[l] == w;
    }
  }

  predicate AllConstruct(items: seq<Item>) {
    forall i :: 0 <= i < |items| ==> Construct(items[i]).Some?
  }

  /** The window itself, or its two times. */
  predicate Gives(item: Item, w: Window) {
    item == Typed(w) || item == Pair(w.start, w.end)
  }

  /** Neither a window nor a pair of times of which the first is the earlier. */
  predicate NoWindow(item: Item) {
    item.OtherItem? || (item.Pair? && item.start.Micros() >= item.end.Micros())
  }

  method ConstructAll(items: seq<Item>) returns (r: Parsed)
    requires forall i :: 0 <= i < |items| ==> ItemWellTyped(items[i])
    ensures r.Accepted? <==> AllConstruct(items)
    ensures r.Accepted? ==> r.windows == WindowsOf(items) && AllValid(r.windows)
    ensures r.Rejected? ==> r.fault in {DomainError, CrossMidnight}
    ensures r.Rejected? ==>
      exists i ::
        && 0 <= i < |items| && NoWindow(items[i]) && (forall j :: 0 <= j < i ==> !NoWindow(items[j]))
        && r.fault == if items[i].OtherItem? then DomainError else CrossMidnight
  {
    var windows: seq<Window> := [];
    for i := 0 to |items|
      invariant |windows| == i && AllValid(windows)
      invariant forall j :: 0 <= j < i ==> Construct(items[j]) == Some(windows[j]) && !NoWindow(items[j])
    {
      match items[i]
      case Typed(w) => windows := windows + [w];
      case Pair(a, b) =>
        if a.Micros() >= b.Micros() {
          assert Construct(items[i]).None? && NoWindow(items[i]);
          return Rejected(CrossMidnight);
        }
        windows := windows + [Window(a, b)];
      case OtherItem =>
        assert Construct(items[i]).None? && NoWindow(items[i]);
        return Rejected(DomainError);
    }
    assert windows == WindowsOf(items);
    r := Accepted(windows);
  }

  /** What sorting a list of valid windows tells about it. */
  lemma SortedTells(sorted: seq<Window>, windows: seq<Window>)
    requires multiset(sorted) == multiset(windows) && SortedWindows(sorted) && AllValid(windows)
    ensures |sorted| == |windows| && AllValid(sorted)
    ensures SomeOverlap(windows) <==> !Neighbours(sorted)
    ensures Neighbours(sorted) ==> Apart(sorted)
  {
    SameLength(sorted, windows);
    forall i | 0 <= i < |sorted| ensures sorted[i].Valid() { MultisetIndex(sorted, windows, i); }
    SortedOverlap(sorted);
    NeighboursAreApart(sorted);
    if SomeOverlap(windows) { OverlapIsOrderFree(windows, sorted); }
    if SomeOverlap(sorted) { OverlapIsOrderFree(sorted, windows); }
  }

  /** zip(windows, windows[1:]) */
  method CompareNeighbours(ws: seq<Window>) returns (apart: bool)
    ensures apart <==> Neighbours(ws)
  {
    var i := 1;
    while i < |ws|
      invariant forall j :: 0 < j < i && j < |ws| ==> ws[j - 1].end.Micros() <= ws[j].start.Micros()
    {
      if ws[i].start.Micros() < ws[i - 1].end.Micros() { return false; }
      i := i + 1;
    }
    apart := true;
  }

  /** Sorting and comparing neighbours: an accepted list is the items' windows in canonical order with
      none overlapping another, and a list is rejected for overlap exactly when two of its windows do. */
  method NormalizeSessionWindows(items: seq<Item>) returns (r: Parsed)
    requires forall i :: 0 <= i < |items| ==> ItemWellTyped(items[i])
    ensures r == Rejected(LimitExceeded) <==> |items| > MAX_WINDOWS
    ensures r == Rejected(Overlapping) <==>
      |items| <= MAX_WINDOWS && AllConstruct(items) && SomeOverlap(WindowsOf(items))
    ensures r.Accepted? <==> |items| <= MAX_WINDOWS && AllConstruct(items) && !SomeOverlap(WindowsOf(items))
    ensures r.Accepted? ==> multiset(r.windows) == multiset(WindowsOf(items)) && |r.windows| == |items|
    ensures r.Accepted? ==> AllValid(r.windows) && SortedWindows(r.windows) && Apart(r.windows)
    // item by item
    ensures r == Rejected(LimitExceeded) <==> |items| > 16
    ensures r.Accepted? ==>
      && |items| == |r.windows| <= 16
      && (forall w :: w in r.windows <==> exists i :: 0 <= i < |items| && Gives(items[i], w))
      && (forall k :: 0 <= k < |r.windows| ==> r.windows[k].start.Micros() < r.windows[k].end.Micros())
      && (forall k :: 0 < k < |r.windows| ==> r.windows[k - 1].end.Micros() <= r.windows[k].start.Micros())
    ensures r == Rejected(Overlapping) ==>
      exists i, j, a, b ::
        && 0 <= i < j < |items| <= 16
        && Gives(items[i], a) && Gives(items[j], b)
        && a.start.Micros() < b.end.Micros() && b.start.Micros() < a.end.Micros()
    ensures r.Rejected? && r.fault !in {LimitExceeded, Overlapping} ==>
      exists i ::
        && 0 <= i < |items| && NoWindow(items[i]) && (forall j :: 0 <= j < i ==> !NoWindow(items[j]))
        && r.fault == if items[i].OtherItem? then DomainError else CrossMidnight
  {
    if |items| > MAX_WINDOWS { return Rejected(LimitExceeded); }
    var built := ConstructAll(items);
    if built.Rejected? { return built; }
    var sorted := SortWindows(built.windows);
    SortedTells(sorted, built.windows);
    var apart := CompareNeighbours(sorted);
    r := if apart then Accepted(sorted) else Rejected(Overlapping);
    if apart { SameWindows(items, sorted); } else { OverlapByItems(items); }
  }

  lemma SameWindows(items: seq<Item>, sorted: seq<Window>)
    requires AllConstruct(items) && multiset(sorted) == multiset(WindowsOf(items))
    ensures forall w :: w in sorted <==> exists i :: 0 <= i < |items| && Gives(items[i], w)
  {
    var windows := WindowsOf(items);
    forall w ensures w in sorted <==> exists i :: 0 <= i < |items| && Gives(items[i], w) {
      assert w in sorted <==> w in multiset(sorted);
      assert w in windows <==> w in multiset(windows);
      if w in windows {
        var i :| 0 <= i < |windows| && windows[i] == w;
        assert Gives(items[i], w);
      }
      if i :| 0 <= i < |items| && Gives(items[i], w) {
        assert windows[i] == w;
      }
    }
  }

  lemma OverlapByItems(items: seq<Item>)
    requires AllConstruct(items) && SomeOverlap(WindowsOf(items))
    ensures exists i, j, a, b ::
      && 0 <= i < j < |items|
      && Gives(items[i], a) && Gives(items[j], b)
      && a.start.Micros() < b.end.Micros() && b.start.Micros() < a.end.Micros()
  {
    var ws := WindowsOf(items);
    var i, j :| 0 <= i < j < |ws| && Overlap(ws[i], ws[j]);
    assert Gives(items[i], ws[i]);
    assert Gives(items[j], ws[j]);
  }

  // ---------------------------------------------------------------- stored payloads

  datatype TextField = Text(s: string) | NotText

  datatype OffsetField = Offset(n: int) | NotInteger

  /** One array entry: its fields, or what makes its shape wrong (not an object, unknown or missing
      fields, a label that is not text). */
  datatype Raw = Entry(start: TextField, end: TextField, dayOffset: OffsetField, endDayOffset: OffsetField) | Misshapen

  datatype Json = Array(entries: seq<Raw>) | NotAnArray

  function Clock(f: TextField): Option<Time> {
    if f.Text? then Parse(f.s) else None
  }

  /** What is wrong with one entry, looked at field by field. */
  function EntryFault(raw: Raw): Option<Fault> {
    if raw.Misshapen? then Some(JsonInvalid)
    else if Clock(raw.start).None? || Clock(raw.end).None? then Some(JsonInvalid)
    else if raw.dayOffset.NotInteger? || raw.endDayOffset.NotInteger? then Some(JsonInvalid)
    else if raw.dayOffset.n != 0 || raw.endDayOffset.n != 0 then Some(CrossMidnight)
    else if Clock(raw.start).value.Micros() >= Clock(raw.end).value.Micros() then Some(CrossMidnight)
    else None
  }

  /** An entry that names a valid same-day window. */
  predicate Names(raw: Raw, w: Window) {
    && raw.Entry? && Clock(raw.start) == Some(w.start) && Clock(raw.end) == Some(w.end)
    && raw.dayOffset == Offset(0) && raw.endDayOffset == Offset(0) && w.Valid()
  }

  ghost predicate NamesAll(entries: seq<Raw>, ws: seq<Window>) {
    |entries| == |ws| && forall i :: 0 <= i < |ws| ==> Names(entries[i], ws[i])
  }

  predicate Shaped(value: Json) {
    value.Array? && forall i :: 0 <= i < |value.entries| ==> value.entries[i].Entry?
  }

  /** What the strict parser answers. Shape faults of any entry come before the count, the count before
      the entries' own faults in array order, those before the order, and the order before overlap. */
  ghost predicate StrictAnswer(value: Json, r: Parsed) {
    if !Shaped(value) then r == Rejected(JsonInvalid)
    else if |value.entries| > MAX_WINDOWS then r == Rejected(LimitExceeded)
    else if FirstFault(value.entries).Some? then r == Rejected(FirstFault(value.entries).value)
    else exists ws :: NamesAll(value.entries, ws) && r == InOrder(ws)
  }

  lemma NamesOneMore(entries: seq<Raw>, i: nat, ws: seq<Window>, w: Window)
    requires i < |entries| && NamesAll(entries[..i], ws) && Names(entries[i], w)
    ensures NamesAll(entries[..i + 1], ws + [w])
  {
    forall k | 0 <= k < i ensures Names(entries[..i + 1][k], (ws + [w])[k]) { assert Names(entries[..i][k], ws[k]); }
  }

  method ParseEntries(entries: seq<Raw>) returns (r: Parsed)
    requires forall i :: 0 <= i < |entries| ==> entries[i].Entry?
    ensures if FirstFault(entries).Some? then r == Rejected(FirstFault(entries).value)
            else r.Accepted? && NamesAll(entries, r.windows)
  {
    var windows: seq<Window> := [];
    ghost var faults := Faults(entries);
    for i := 0 to |entries|
      invariant NamesAll(entries[..i], windows) && FirstOf(faults[..i]).None?
    {
      var raw := entries[i];
      assert faults[..i + 1][..i] == faults[..i] && faults[i] == EntryFault(raw);
      var start, end := Clock(raw.start), Clock(raw.end);
      if start.None? || end.None? || raw.dayOffset.NotInteger? || raw.endDayOffset.NotInteger? {
        FaultStays(faults, i);
        return Rejected(JsonInvalid);
      }
      if raw.dayOffset.n != 0 || raw.endDayOffset.n != 0 || start.value.Micros() >= end.value.Micros() {
        FaultStays(faults, i);
        return Rejected(CrossMidnight);
      }
      NamesOneMore(entries, i, windows, Window(start.value, end.value));
      windows := windows + [Window(start.value, end.value)];
    }
    assert entries[..|entries|] == entries && faults[..|entries|] == faults;
    r := Accepted(windows);
  }

  // ---------------------------------------------------------------- entry by entry

  /** A label that is not a time, or an offset that is not an integer. */
  predicate Unreadable(raw: Raw)
  {
    raw.Entry? &&
      (|| raw.start.NotText? || Parse(raw.start.s).None? || raw.end.NotText? || Parse(raw.end.s).None?
       || raw.dayOffset.NotInteger? || raw.endDayOffset.NotInteger?)
  }

  /** Another day, or an end that is not after the start. */
  predicate Crosses(raw: Raw) {
    && raw.Entry? && !Unreadable(raw)
    && (|| raw.dayOffset.n != 0 || raw.endDayOffset.n != 0
        || Parse(raw.start.s).value.Micros() >= Parse(raw.end.s).value.Micros())
  }

  /** The first entry that is the one or the other. */
  predicate FirstBad(entries: seq<Raw>, i: int) {
    && 0 <= i < |entries| && (Unreadable(entries[i]) || Crosses(entries[i]))
    && forall j :: 0 <= j < i ==> !Unreadable(entries[j]) && !Crosses(entries[j])
  }

  predicate Says(raw: Raw, w: Window) {
    && raw.Entry? && raw.start.Text? && raw.end.Text?
    && Parse(raw.start.s) == Some(w.start) && Parse(raw.end.s) == Some(w.end)
    && raw.dayOffset == Offset(0) && raw.endDayOffset == Offset(0) && w.start.Micros() < w.end.Micros()
  }

  predicate ComesFirst(a: Window, b: Window) {
    || a.start.Micros() < b.start.Micros()
    || (a.start.Micros() == b.start.Micros() && a.end.Micros() < b.end.Micros())
  }

  lemma {:induction false} FirstOfIsFirst(faults: seq<Option<Fault>>)
    ensures FirstOf(faults).Some? ==>
      exists i :: 0 <= i < |faults| && faults[i] == FirstOf(faults) && forall j :: 0 <= j < i ==> faults[j].None?
    ensures FirstOf(faults).None? ==> forall j :: 0 <= j < |faults| ==> faults[j].None?
    decreases |faults|
  {
    if faults != [] { FirstOfIsFirst(faults[..|faults| - 1]); }
  }

  lemma FaultOf(raw: Raw)
    requires raw.Entry?
    ensures EntryFault(raw) == if Unreadable(raw) then Some(JsonInvalid)
                               else if Crosses(raw) then Some(CrossMidnight) else None
  {
  }

  lemma FaultsByEntries(entries: seq<Raw>)
    requires forall i :: 0 <= i < |entries| ==> entries[i].Entry?
    ensures FirstFault(entries) == Some(JsonInvalid) <==> exists i :: FirstBad(entries, i) && Unreadable(entries[i])
    ensures FirstFault(entries) == Some(CrossMidnight) <==> exists i :: FirstBad(entries, i) && !Unreadable(entries[i])
    ensures FirstFault(entries) in {None, Some(JsonInvalid), Some(CrossMidnight)}
  {
    var faults := Faults(entries);
    forall i | 0 <= i < |entries|
      ensures faults[i] == if Unreadable(entries[i]) then Some(JsonInvalid)
                           else if Crosses(entries[i]) then Some(CrossMidnight) else None
    {
      FaultOf(entries[i]);
    }
    FirstOfIsFirst(faults);
    if FirstOf(faults).Some? {
      var i :| 0 <= i < |faults| && faults[i] == FirstOf(faults) && forall j :: 0 <= j < i ==> faults[j].None?;
      assert FirstBad(entries, i);
      forall k | FirstBad(entries, k) ensures k == i { assert faults[k].Some?; }
    } else {
      forall k ensures !FirstBad(entries, k) { }
    }
  }

  lemma RefusedByEntries(value: Json, r: Parsed)
    requires StrictAnswer(value, r)
    ensures r == Rejected(JsonInvalid) <==>
      || value.NotAnArray?
      || (exists i :: 0 <= i < |value.entries| && value.entries[i].Misshapen?)
      || (|value.entries| <= 16 && exists i :: FirstBad(value.entries, i) && Unreadable(value.entries[i]))
    ensures r == Rejected(LimitExceeded) <==>
      value.Array? && |value.entries| > 16 && forall i :: 0 <= i < |value.entries| ==> value.entries[i].Entry?
    ensures r == Rejected(CrossMidnight) <==>
      && value.Array? && |value.entries| <= 16
      && (forall i :: 0 <= i < |value.entries| ==> value.entries[i].Entry?)
      && exists i :: FirstBad(value.entries, i) && !Unreadable(value.entries[i])
    ensures r.Rejected? ==> r.fault in {JsonInvalid, LimitExceeded, CrossMidnight, Unsorted, Overlapping}
  {
    if Shaped(value) { FaultsByEntries(value.entries); }
  }

  lemma NamesSay(entries: seq<Raw>, ws: seq<Window>)
    requires NamesAll(entries, ws)
    ensures forall k :: 0 <= k < |ws| ==> Says(entries[k], ws[k])
  {
    forall k | 0 <= k < |ws| ensures Says(entries[k], ws[k]) { assert Names(entries[k], ws[k]); }
  }

  lemma AcceptedByEntries(value: Json, ws: seq<Window>)
    requires StrictAnswer(value, Accepted(ws))
    ensures value.Array? && |value.entries| == |ws| <= 16
    ensures forall k :: 0 <= k < |ws| ==> Says(value.entries[k], ws[k])
    ensures forall k :: 0 < k < |ws| ==> ws[k - 1].end.Micros() <= ws[k].start.Micros()
  {
    StrictAcceptance(value, ws);
    NamesSay(value.entries, ws);
  }

  lemma DisorderByEntries(value: Json, r: Parsed)
    requires StrictAnswer(value, r) && r in {Rejected(Unsorted), Rejected(Overlapping)}
    ensures value.Array? && |value.entries| <= 16
    ensures exists ws: seq<Window> ::
      && |ws| == |value.entries| && (forall k :: 0 <= k < |ws| ==> Says(value.entries[k], ws[k]))
      && (r == Rejected(Unsorted) <==> exists i, j :: 0 <= i < j < |ws| && ComesFirst(ws[j], ws[i]))
      && exists i, j :: 0 <= i < j < |ws| && ws[j].start.Micros() < ws[i].end.Micros()
  {
    assert Shaped(value);
    FaultsByEntries(value.entries);
    assert FirstFault(value.entries).None?;
    var ws: seq<Window> :| NamesAll(value.entries, ws) && r == InOrder(ws);
    NamesSay(value.entries, ws);
    Disorder(value.entries, ws, r);
  }

  lemma Disorder(entries: seq<Raw>, ws: seq<Window>, r: Parsed)
    requires NamesAll(entries, ws) && r == InOrder(ws) && r.Rejected?
    ensures r == Rejected(Unsorted) <==> exists i, j :: 0 <= i < j < |ws| && ComesFirst(ws[j], ws[i])
    ensures exists i, j :: 0 <= i < j < |ws| && ws[j].start.Micros() < ws[i].end.Micros()
  {
    if !SortedWindows(ws) {
      var i, j :| 0 <= i < j < |ws| && Before(ws[j], ws[i]);
      assert ComesFirst(ws[j], ws[i]);
      assert Names(entries[i], ws[i]) && ws[j].start.Micros() < ws[i].end.Micros();
    } else {
      forall i, j | 0 <= i < j < |ws| ensures !ComesFirst(ws[j], ws[i]) { assert !Before(ws[j], ws[i]); }
      var i, j :| 0 <= i < j < |ws| && ws[j].start.Micros() < ws[i].end.Micros();
    }
  }

  /** The strict parser never sorts. */
  method NormalizeWindowPayloads(value: Json) returns (r: Parsed)
    ensures StrictAnswer(value, r)
    // entry by entry
    ensures r == Rejected(JsonInvalid) <==>
      || value.NotAnArray?
      || (exists i :: 0 <= i < |value.entries| && value.entries[i].Misshapen?)
      || (|value.entries| <= 16 && exists i :: FirstBad(value.entries, i) && Unreadable(value.entries[i]))
    ensures r == Rejected(LimitExceeded) <==>
      value.Array? && |value.entries| > 16 && forall i :: 0 <= i < |value.entries| ==> value.entries[i].Entry?
    ensures r == Rejected(CrossMidnight) <==>
      && value.Array? && |value.entries| <= 16
      && (forall i :: 0 <= i < |value.entries| ==> value.entries[i].Entry?)
      && exists i :: FirstBad(value.entries, i) && !Unreadable(value.entries[i])
    ensures r.Accepted? ==>
      && value.Array? && |value.entries| == |r.windows| <= 16
      && (forall k :: 0 <= k < |r.windows| ==> Says(value.entries[k], r.windows[k]))
      && forall k :: 0 < k < |r.windows| ==> r.windows[k - 1].end.Micros() <= r.windows[k].start.Micros()
    ensures r in {Rejected(Unsorted), Rejected(Overlapping)} ==>
      && value.Array? && |value.entries| <= 16
      && exists ws: seq<Window> ::
           && |ws| == |value.entries| && (forall k :: 0 <= k < |ws| ==> Says(value.entries[k], ws[k]))
           && (r == Rejected(Unsorted) <==> exists i, j :: 0 <= i < j < |ws| && ComesFirst(ws[j], ws[i]))
           && exists i, j :: 0 <= i < j < |ws| && ws[j].start.Micros() < ws[i].end.Micros()
    ensures r.Rejected? ==> r.fault in {JsonInvalid, LimitExceeded, CrossMidnight, Unsorted, Overlapping}
  {
    r := ParsePayloads(value);
    RefusedByEntries(value, r);
    if r.Accepted? { AcceptedByEntries(value, r.windows); }
    if r in {Rejected(Unsorted), Rejected(Overlapping)} { DisorderByEntries(value, r); }
  }

  method ParsePayloads(value: Json) returns (r: Parsed)
    ensures StrictAnswer(value, r)
  {
    if value.NotAnArray? { return Rejected(JsonInvalid); }
    if exists i :: 0 <= i < |value.entries| && value.entries[i].Misshapen? { return Rejected(JsonInvalid); }
    if |value.entries| > MAX_WINDOWS { return Rejected(LimitExceeded); }
    var parsed := ParseEntries(value.entries);
    if parsed.Rejected? { return parsed; }
    NeighboursAreApart(parsed.windows);
    if !SortedWindows(parsed.windows) { return Rejected(Unsorted); }
    var apart := CompareNeighbours(parsed.windows);
    r := if apart then parsed else Rejected(Overlapping);
  }

  function Faults(entries: seq<Raw>): seq<Option<Fault>> {
    seq(|entries|, i requires 0 <= i < |entries| => EntryFault(entries[i]))
  }

  function FirstOf(faults: seq<Option<Fault>>): Option<Fault> {
    if faults == [] then None
    else
      var earlier := FirstOf(faults[..|faults| - 1]);
      if earlier.Some? then earlier else faults[|faults| - 1]
  }

  /** The fault of the first faulty entry. */
  function FirstFault(entries: seq<Raw>): Option<Fault> {
    FirstOf(Faults(entries))
  }

  lemma {:induction false} FaultStays(faults: seq<Option<Fault>>, i: nat)
    requires i < |faults| && FirstOf(faults[..i]).None? && faults[i].Some?
    ensures FirstOf(faults) == faults[i]
    decreases |faults|
  {
    var n := |faults| - 1;
    if i < n {
      assert faults[..n][..i] == faults[..i];
      FaultStays(faults[..n], i);
    }
  }

  /** The last two checks of the strict parser. */
  function InOrder(ws: seq<Window>): Parsed {
    if !SortedWindows(ws) then Rejected(Unsorted)
    else if !Apart(ws) then Rejected(Overlapping)
    else Accepted(ws)
  }

  /** The strict parser accepts exactly the arrays of at most 16 entries that each name a valid window
      and of which every one ends before all later ones begin; overlap-freedom already implies order. */
  lemma StrictAcceptance(value: Json, ws: seq<Window>)
    ensures StrictAnswer(value, Accepted(ws))
      <==> value.Array? && |value.entries| <= MAX_WINDOWS && NamesAll(value.entries, ws) && Apart(ws)
  {
    if StrictAnswer(value, Accepted(ws)) {
      var named :| NamesAll(value.entries, named) && Accepted(ws) == InOrder(named);
    }
    if value.Array? && |value.entries| <= MAX_WINDOWS && NamesAll(value.entries, ws) && Apart(ws) {
      NamedIsFaultless(value.entries, ws);
      assert NamesAll(value.entries, ws) && InOrder(ws) == Accepted(ws);
    }
  }

  lemma NamedIsFaultless(entries: seq<Raw>, ws: seq<Window>)
    requires NamesAll(entries, ws)
    ensures Shaped(Array(entries)) && FirstFault(entries).None?
  {
    forall i | 0 <= i < |ws| ensures entries[i].Entry? && EntryFault(entries[i]).None? {
      assert Names(entries[i], ws[i]);
    }
    NoFault(Faults(entries));
  }

  lemma {:induction false} NoFault(faults: seq<Option<Fault>>)
    requires forall i :: 0 <= i < |faults| ==> faults[i].None?
    ensures FirstOf(faults).None?
    decreases |faults|
  {
    if faults != [] { NoFault(faults[..|faults| - 1]); }
  }

  /** The stored form of a window list. */
  function Payload(ws: seq<Window>): seq<Raw> {
    seq(|ws|, i requires 0 <= i < |ws| =>
      Entry(Text(Format(ws[i].start)), Text(Format(ws[i].end)), Offset(0), Offset(0)))
  }

  lemma PayloadNames(ws: seq<Window>)
    requires AllValid(ws)
    ensures NamesAll(Payload(ws), ws)
  {
    forall i | 0 <= i < |ws| ensures Names(Payload(ws)[i], ws[i]) {
      ParseOfFormat(ws[i].start);
      ParseOfFormat(ws[i].end);
    }
  }

  /** The stored form of any normalised list is parsed back to the same windows, and to nothing else. */
  lemma StoredFormIsAccepted(ws: seq<Window>, r: Parsed)
    requires AllValid(ws) && Apart(ws) && |ws| <= MAX_WINDOWS
    ensures StrictAnswer(Array(Payload(ws)), r) <==> r == Accepted(ws)
  {
    PayloadNames(ws);
    if StrictAnswer(Array(Payload(ws)), r) {
      NamedIsFaultless(Payload(ws), ws);
      var named :| NamesAll(Payload(ws), named) && r == InOrder(named);
      NamedOnce(Payload(ws), ws, named);
      ApartIsInOrder(ws);
    } else {
      StrictAcceptance(Array(Payload(ws)), ws);
    }
  }

  lemma NamedOnce(entries: seq<Raw>, a: seq<Window>, b: seq<Window>)
    requires NamesAll(entries, a) && NamesAll(entries, b)
    ensures a == b
  {
    forall i | 0 <= i < |a| ensures a[i] == b[i] { assert Names(entries[i], a[i]) && Names(entries[i], b[i]); }
  }

  /** Windows of which each ends before all later ones begin are in order already. */
  lemma ApartIsInOrder(ws: seq<Window>)
    requires AllValid(ws) && Apart(ws)
    ensures InOrder(ws) == Accepted(ws)
  {
  }
}
