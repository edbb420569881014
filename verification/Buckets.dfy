/** The calendar buckets of a target bar frequency, enumerated lazily by closed-form first and
    last indices instead of generating every bucket and testing it. */
module Buckets {
  import opened Collections

  // ---------------------------------------------------------------- frequencies

  const MINUTE_NS := 60_000_000_000

  datatype Frequency = Minutes(n: int) | Other

  predicate Listed(f: Frequency) {
    f.Minutes? && f.n in {1, 5, 15, 30, 60}
  }

  predicate CanResample(source: Frequency, target: Frequency) {
    Listed(source) && Listed(target) && source.n < target.n && target.n % source.n == 0
  }

  /** A coarse bound, counted from the start of a window, that is also a fine one. */
  ghost predicate IsFineBound(source: Frequency, target: Frequency, index: int)
    requires source.Minutes? && target.Minutes?
  {
    exists k :: k * (source.n * MINUTE_NS) == index * (target.n * MINUTE_NS)
  }

  /** An accepted pair of frequencies never cuts a fine bar. */
  lemma FineBarsAreNotCut(source: Frequency, target: Frequency, index: int)
    requires CanResample(source, target)
    ensures IsFineBound(source, target, index)
  {
    var ratio := target.n / source.n;
    assert ratio * source.n == target.n;
    var k := index * ratio;
    assert k * (source.n * MINUTE_NS) == index * (ratio * source.n) * MINUTE_NS;
  }

  /** Of the listed frequencies exactly those pairs are accepted whose source is finer and whose coarse
      bounds never fall inside a fine bar. */
  lemma AcceptedExactlyWhenNotCut(source: Frequency, target: Frequency)
    requires Listed(source) && Listed(target)
    ensures CanResample(source, target) <==>
      source.n < target.n && forall index :: IsFineBound(source, target, index)
  {
    if CanResample(source, target) {
      forall index ensures IsFineBound(source, target, index) { FineBarsAreNotCut(source, target, index); }
    }
    ResamplePairs(source, target);
  }

  /** The pairs are exactly the proper divisors among the five minute frequencies. */
  lemma ResamplePairs(source: Frequency, target: Frequency)
    ensures CanResample(source, target) <==>
      source.Minutes? && target.Minutes? && (source.n, target.n) in
        {(1, 5), (1, 15), (1, 30), (1, 60), (5, 15), (5, 30), (5, 60), (15, 30), (15, 60), (30, 60)}
  {
  }

  // ---------------------------------------------------------------- rounding

  /** Python's (x + d - 1) // d. */
  function Ceil(x: int, d: int): int
    requires d > 0
  {
    (x + d - 1) / d
  }

  lemma {:induction false} MulMonotone(a: int, b: int, d: int)
    requires a <= b && d > 0
    ensures a * d <= b * d
    decreases b - a
  {
    if a < b { MulMonotone(a, b - 1, d); }
  }

  lemma FloorAtLeast(x: int, d: int, k: int)
    requires d > 0
    ensures k <= x / d <==> k * d <= x
  {
    var q := x / d;
    assert q * d <= x < q * d + d;
    if k <= q {
      MulMonotone(k, q, d);
    } else {
      MulMonotone(q + 1, k, d);
      assert (q + 1) * d == q * d + d;
    }
  }

  lemma CeilAtMost(x: int, d: int, k: int)
    requires d > 0
    ensures Ceil(x, d) <= k <==> x <= k * d
  {
    FloorAtLeast(x + d - 1, d, k + 1);
    assert (k + 1) * d == k * d + d;
  }

  // ---------------------------------------------------------------- buckets

  datatype Window = Window(begin: int, stop: int)

  datatype Session = Session(key: int, windows: seq<Window>)

  datatype Bucket = Bucket(session: int, lower: int, finish: int)

  /** What a request asks of a bucket. */
  datatype Range = Range(start: int, end: int, grant: int) {
    predicate Wants(b: Bucket) {
      start <= b.finish <= end && b.lower >= grant
    }
  }

  /** How many buckets a window has. */
  function Count(w: Window, d: int): int
    requires d > 0
  {
    Ceil(w.stop - w.begin, d)
  }

  function At(key: int, w: Window, d: int, index: int): Bucket {
    Bucket(key, w.begin + index * d, Min(w.begin + index * d + d, w.stop))
  }

  predicate Skipped(w: Window, r: Range) {
    w.stop < r.start || w.begin >= r.end || w.stop <= r.grant
  }

  function FirstIndex(w: Window, d: int, r: Range): int
    requires d > 0
  {
    Max(0, Max(Ceil(r.start - w.begin, d) - 1, Ceil(r.grant - w.begin, d)))
  }

  function LastIndex(w: Window, d: int, r: Range): int
    requires d > 0
  {
    if w.stop <= r.end then Count(w, d) - 1 else Min(Count(w, d) - 1, (r.end - w.begin) / d - 1)
  }

  lemma BucketShape(key: int, w: Window, d: int, index: int)
    requires d > 0
    ensures index < Count(w, d) <==> w.begin + index * d < w.stop
    ensures (index + 1) * d == index * d + d
  {
    CeilAtMost(w.stop - w.begin, d, index);
  }

  /** The closed-form indices are exactly the buckets the inner test would accept: it never rejects
      one of them and it would accept no other bucket of the window. */
  lemma IndicesExact(key: int, w: Window, d: int, r: Range, index: int)
    requires d > 0
    ensures !Skipped(w, r) && FirstIndex(w, d, r) <= index <= LastIndex(w, d, r)
      <==> 0 <= index < Count(w, d) && r.Wants(At(key, w, d, index))
  {
    BucketShape(key, w, d, index);
    CeilAtMost(r.start - w.begin, d, index + 1);
    CeilAtMost(r.grant - w.begin, d, index);
    FloorAtLeast(r.end - w.begin, d, index + 1);
    if index >= 0 { MulMonotone(0, index, d); }
  }

  /** The same, instant by instant. */
  lemma IndicesByInstants(w: Window, d: int, start: int, end: int, grant: int, index: int)
    requires d > 0
    ensures var r := Range(start, end, grant);
      !Skipped(w, r) && FirstIndex(w, d, r) <= index <= LastIndex(w, d, r) <==>
      var lower := w.begin + index * d;
      var finish := if lower + d <= w.stop then lower + d else w.stop;
      0 <= index && lower < w.stop && start <= finish && finish <= end && grant <= lower
  {
    IndicesExact(0, w, d, Range(start, end, grant), index);
    BucketShape(0, w, d, index);
  }

  /** Buckets tile their window: each is non-empty and as long as the duration allows, the first
      begins where the window begins, the last ends where it ends, and each ends where the next begins. */
  lemma BucketsTile(key: int, w: Window, d: int, index: int)
    requires d > 0 && 0 <= index < Count(w, d)
    ensures var b := At(key, w, d, index);
      && w.begin <= b.lower < b.finish <= w.stop
      && (index == 0 ==> b.lower == w.begin)
      && (if index == Count(w, d) - 1 then b.finish == w.stop
          else b.finish == b.lower + d && At(key, w, d, index + 1).lower == b.finish)
  {
    BucketShape(key, w, d, index);
    BucketShape(key, w, d, index + 1);
    MulMonotone(0, index, d);
  }

  /** Every instant of a window lies in exactly one of its buckets. */
  lemma EveryInstantHasOneBucket(key: int, w: Window, d: int, t: int)
    requires d > 0 && w.begin <= t < w.stop
    ensures var own := (t - w.begin) / d;
      && 0 <= own < Count(w, d)
      && forall index :: 0 <= index < Count(w, d) ==>
           (At(key, w, d, index).lower <= t < At(key, w, d, index).finish <==> index == own)
  {
    var own := (t - w.begin) / d;
    FloorAtLeast(t - w.begin, d, 0);
    FloorAtLeast(t - w.begin, d, own);
    BucketShape(key, w, d, own);
    forall index | 0 <= index < Count(w, d)
      ensures At(key, w, d, index).lower <= t < At(key, w, d, index).finish <==> index == own
    {
      FloorAtLeast(t - w.begin, d, index);
      FloorAtLeast(t - w.begin, d, index + 1);
      BucketShape(key, w, d, index);
    }
  }

  // ---------------------------------------------------------------- the plain enumeration

  /** Generate every bucket of a window and keep the wanted ones. */
  function OfWindow(key: int, w: Window, d: int, r: Range, n: int): seq<Bucket>
    decreases n
  {
    if n <= 0 then []
    else OfWindow(key, w, d, r, n - 1) + (if r.Wants(At(key, w, d, n - 1)) then [At(key, w, d, n - 1)] else [])
  }

  function OfSession(s: Session, d: int, r: Range, k: nat): seq<Bucket>
    requires d > 0 && k <= |s.windows|
  {
    if k == 0 then []
    else OfSession(s, d, r, k - 1) + OfWindow(s.key, s.windows[k - 1], d, r, Count(s.windows[k - 1], d))
  }

  function OfCalendar(calendar: seq<Session>, d: int, r: Range, k: nat): seq<Bucket>
    requires d > 0 && k <= |calendar|
  {
    if k == 0 then []
    else OfCalendar(calendar, d, r, k - 1) + OfSession(calendar[k - 1], d, r, |calendar[k - 1].windows|)
  }

  function Selected(calendar: seq<Session>, d: int, r: Range): seq<Bucket>
    requires d > 0
  {
    OfCalendar(calendar, d, r, |calendar|)
  }

  function Reverse<T>(s: seq<T>): seq<T> {
    if s == [] then [] else [s[|s| - 1]] + Reverse(s[..|s| - 1])
  }

  lemma {:induction false} ReverseAt<T>(s: seq<T>, k: nat)
    requires k < |s|
    ensures |Reverse(s)| == |s| && Reverse(s)[k] == s[|s| - 1 - k]
    decreases |s|
  {
    if |s| == 1 {
      assert Reverse(s[..0]) == [];
    } else if k > 0 {
      ReverseAt(s[..|s| - 1], k - 1);
    } else {
      ReverseAt(s[..|s| - 1], 0);
    }
  }

  lemma ReverseTwice<T>(s: seq<T>)
    ensures |Reverse(s)| == |s| && Reverse(Reverse(s)) == s
  {
    if s != [] { ReverseAt(s, 0); ReverseAt(Reverse(s), 0); }
    forall k | 0 <= k < |s| ensures Reverse(Reverse(s))[k] == s[k] {
      ReverseAt(s, |s| - 1 - k);
      ReverseAt(Reverse(s), k);
    }
  }

  lemma {:induction false} ReverseAppend<T>(s: seq<T>, x: T)
    ensures Reverse(s + [x]) == [x] + Reverse(s)
  {
    assert (s + [x])[..|s|] == s;
  }

  /** Indices outside the closed-form range contribute nothing. */
  lemma {:induction false} NothingBelow(key: int, w: Window, d: int, r: Range, n: int)
    requires d > 0 && n <= Count(w, d)
    requires Skipped(w, r) || n <= FirstIndex(w, d, r)
    ensures OfWindow(key, w, d, r, n) == []
    decreases n
  {
    if n > 0 {
      IndicesExact(key, w, d, r, n - 1);
      NothingBelow(key, w, d, r, n - 1);
    }
  }

  lemma {:induction false} NothingAbove(key: int, w: Window, d: int, r: Range, n: int)
    requires d > 0 && LastIndex(w, d, r) + 1 <= n <= Count(w, d)
    ensures OfWindow(key, w, d, r, n) == OfWindow(key, w, d, r, LastIndex(w, d, r) + 1)
    decreases n - LastIndex(w, d, r)
  {
    if n > LastIndex(w, d, r) + 1 && n > 0 {
      IndicesExact(key, w, d, r, n - 1);
      NothingAbove(key, w, d, r, n - 1);
    }
  }

  /** A window contributes exactly its closed-form range, and nothing when it is skipped or the
      range is empty. */
  lemma WindowRange(key: int, w: Window, d: int, r: Range)
    requires d > 0
    ensures var all := OfWindow(key, w, d, r, Count(w, d));
      if Skipped(w, r) || FirstIndex(w, d, r) > LastIndex(w, d, r) then all == []
      else OfWindow(key, w, d, r, FirstIndex(w, d, r)) == [] && OfWindow(key, w, d, r, LastIndex(w, d, r) + 1) == all
  {
    var first, last, n := FirstIndex(w, d, r), LastIndex(w, d, r), Count(w, d);
    if Skipped(w, r) || n <= first {
      NothingBelow(key, w, d, r, n);
    }
    if !Skipped(w, r) {
      NothingAbove(key, w, d, r, n);
      if first <= last { NothingBelow(key, w, d, r, first); } else { NothingBelow(key, w, d, r, last + 1); }
    }
  }

  // ---------------------------------------------------------------- the enumeration of the gateway

  method WindowForward(key: int, w: Window, d: int, r: Range) returns (found: seq<Bucket>)
    requires d > 0
    ensures found == OfWindow(key, w, d, r, Count(w, d))
  {
    WindowRange(key, w, d, r);
    found := [];
    if w.stop < r.start || w.begin >= r.end || w.stop <= r.grant { return; }
    var first, last := FirstIndex(w, d, r), LastIndex(w, d, r);
    var index := first;
    while index <= last
      invariant first <= index && (first <= last ==> index <= last + 1)
      invariant first <= last ==> found == OfWindow(key, w, d, r, index)
      invariant first > last ==> found == []
    {
      IndicesExact(key, w, d, r, index);
      var bucket := Bucket(key, w.begin + index * d, Min(w.begin + index * d + d, w.stop));
      assert r.Wants(bucket);
      if r.start <= bucket.finish <= r.end && bucket.lower >= r.grant {
        found := found + [bucket];
      }
      index := index + 1;
    }
  }

  /** Visiting one more index backwards moves its bucket from the unvisited prefix to the result. */
  lemma BackwardStep(key: int, w: Window, d: int, r: Range, index: int, found: seq<Bucket>, all: seq<Bucket>)
    requires d > 0 && index >= 0 && r.Wants(At(key, w, d, index))
    requires OfWindow(key, w, d, r, index + 1) + Reverse(found) == all
    ensures OfWindow(key, w, d, r, index) + Reverse(found + [At(key, w, d, index)]) == all
  {
    ReverseAppend(found, At(key, w, d, index));
    assert OfWindow(key, w, d, r, index + 1) == OfWindow(key, w, d, r, index) + [At(key, w, d, index)];
  }

  lemma ReversedBack<T>(found: seq<T>, all: seq<T>)
    requires [] + Reverse(found) == all
    ensures found == Reverse(all)
  {
    assert [] + Reverse(found) == Reverse(found);
    ReverseTwice(found);
  }

  method WindowBackward(key: int, w: Window, d: int, r: Range) returns (found: seq<Bucket>)
    requires d > 0
    ensures found == Reverse(OfWindow(key, w, d, r, Count(w, d)))
  {
    WindowRange(key, w, d, r);
    found := [];
    if w.stop < r.start || w.begin >= r.end || w.stop <= r.grant { return; }
    var first, last := FirstIndex(w, d, r), LastIndex(w, d, r);
    if first > last { return; }
    ghost var all := OfWindow(key, w, d, r, Count(w, d));
    var index := last;
    assert Reverse(found) == [] && all + [] == all;
    while index >= first
      invariant first - 1 <= index <= last
      invariant OfWindow(key, w, d, r, index + 1) + Reverse(found) == all
    {
      IndicesExact(key, w, d, r, index);
      var bucket := Bucket(key, w.begin + index * d, Min(w.begin + index * d + d, w.stop));
      assert bucket == At(key, w, d, index);
      BackwardStep(key, w, d, r, index, found, all);
      if r.start <= bucket.finish <= r.end && bucket.lower >= r.grant {
        found := found + [bucket];
      }
      index := index - 1;
    }
    ReversedBack(found, all);
  }

  lemma {:induction false} ReverseConcat<T>(a: seq<T>, b: seq<T>)
    ensures Reverse(a + b) == Reverse(b) + Reverse(a)
    decreases |b|
  {
    if b == [] {
      assert a + b == a;
    } else {
      assert (a + b)[..|a + b| - 1] == a + b[..|b| - 1];
      ReverseConcat(a, b[..|b| - 1]);
    }
  }

  /** Prefix + window + visited, with the window moved over to the visited part. */
  lemma MoveOver<T>(prefix: seq<T>, window: seq<T>, found: seq<T>, all: seq<T>)
    requires (prefix + window) + Reverse(found) == all
    ensures prefix + Reverse(found + Reverse(window)) == all
  {
    ReverseConcat(found, Reverse(window));
    ReverseTwice(window);
    assert (prefix + window) + Reverse(found) == prefix + (window + Reverse(found));
  }

  method EnumerateForward(calendar: seq<Session>, d: int, r: Range) returns (found: seq<Bucket>)
    requires d > 0
    ensures found == Selected(calendar, d, r)
  {
    found := [];
    for i := 0 to |calendar|
      invariant found == OfCalendar(calendar, d, r, i)
    {
      var s := calendar[i];
      ghost var before := found;
      for k := 0 to |s.windows|
        invariant found == before + OfSession(s, d, r, k)
      {
        var part := WindowForward(s.key, s.windows[k], d, r);
        found := found + part;
      }
    }
  }

  method EnumerateBackward(calendar: seq<Session>, d: int, r: Range) returns (found: seq<Bucket>)
    requires d > 0
    ensures found == Reverse(Selected(calendar, d, r))
  {
    ghost var all := Selected(calendar, d, r);
    found := [];
    assert Reverse(found) == [] && all + [] == all;
    for i := |calendar| downto 0
      invariant OfCalendar(calendar, d, r, i) + Reverse(found) == all
    {
      var s := calendar[i];
      ghost var before := OfCalendar(calendar, d, r, i);
      for k := |s.windows| downto 0
        invariant (before + OfSession(s, d, r, k)) + Reverse(found) == all
      {
        var part := WindowBackward(s.key, s.windows[k], d, r);
        ghost var window := OfWindow(s.key, s.windows[k], d, r, Count(s.windows[k], d));
        assert before + OfSession(s, d, r, k + 1) == (before + OfSession(s, d, r, k)) + window;
        MoveOver(before + OfSession(s, d, r, k), window, found, all);
        found := found + part;
      }
      assert before + OfSession(s, d, r, 0) == before;
    }
    ReversedBack(found, all);
  }

  /** The buckets of a request in the order they are visited: calendar order for a time range, and
      the exact reverse of it for a count window. */
  method Enumerate(calendar: seq<Session>, d: int, r: Range, newestFirst: bool) returns (found: seq<Bucket>)
    requires d > 0
    ensures found == if newestFirst then Reverse(Selected(calendar, d, r)) else Selected(calendar, d, r)
  {
    if newestFirst { found := EnumerateBackward(calendar, d, r); } else { found := EnumerateForward(calendar, d, r); }
  }

  // ---------------------------------------------------------------- which buckets, and their order

  ghost predicate Holds(calendar: seq<Session>, d: int, b: Bucket, i: nat, k: nat, index: nat)
    requires d > 0
  {
    && i < |calendar| && k < |calendar[i].windows| && index < Count(calendar[i].windows[k], d)
    && b == At(calendar[i].key, calendar[i].windows[k], d, index)
  }

  ghost predicate IsBucket(calendar: seq<Session>, d: int, b: Bucket)
    requires d > 0
  {
    exists i: nat, k: nat, index: nat :: Holds(calendar, d, b, i, k, index)
  }

  lemma {:induction false} WindowMembers(key: int, w: Window, d: int, r: Range, n: int, b: Bucket)
    requires d > 0 && n <= Count(w, d)
    ensures b in OfWindow(key, w, d, r, n) <==>
      r.Wants(b) && exists index: nat :: index < n && b == At(key, w, d, index)
    decreases n
  {
    if n > 0 { WindowMembers(key, w, d, r, n - 1, b); }
  }

  lemma {:induction false} SessionMembers(s: Session, d: int, r: Range, k: nat, b: Bucket)
    requires d > 0 && k <= |s.windows|
    ensures b in OfSession(s, d, r, k) <==>
      (r.Wants(b) && exists j: nat, index: nat ::
          j < k && index < Count(s.windows[j], d) && b == At(s.key, s.windows[j], d, index))
  {
    if k > 0 {
      SessionMembers(s, d, r, k - 1, b);
      WindowMembers(s.key, s.windows[k - 1], d, r, Count(s.windows[k - 1], d), b);
    }
  }

  lemma {:induction false} CalendarMembers(calendar: seq<Session>, d: int, r: Range, n: nat, b: Bucket)
    requires d > 0 && n <= |calendar|
    ensures b in OfCalendar(calendar, d, r, n) <==>
      (r.Wants(b) && exists i: nat, k: nat, index: nat :: i < n && Holds(calendar, d, b, i, k, index))
  {
    if n > 0 {
      var s := calendar[n - 1];
      CalendarMembers(calendar, d, r, n - 1, b);
      SessionMembers(s, d, r, |s.windows|, b);
      if b in OfSession(s, d, r, |s.windows|) {
        var k: nat, index: nat :|
          k < |s.windows| && index < Count(s.windows[k], d) && b == At(s.key, s.windows[k], d, index);
        assert Holds(calendar, d, b, n - 1, k, index);
      }
    }
  }

  /** The enumeration visits exactly the calendar's wanted buckets. */
  lemma SelectedMembers(calendar: seq<Session>, d: int, r: Range, b: Bucket)
    requires d > 0
    ensures b in Selected(calendar, d, r) <==> r.Wants(b) && IsBucket(calendar, d, b)
  {
    CalendarMembers(calendar, d, r, |calendar|, b);
  }

  lemma {:induction false} MultipleExactly(n: int, d: int, x: int)
    requires d > 0 && x == n * d
    ensures x % d == 0 && x / d == n
  {
    FloorAtLeast(x, d, n);
    FloorAtLeast(x, d, n + 1);
    assert (n + 1) * d == n * d + d;
  }

  lemma AtExactly(key: int, w: Window, d: int, index: int, b: Bucket)
    requires d > 0 && 0 <= index < Count(w, d) && b == At(key, w, d, index)
    ensures b.session == key && w.begin <= b.lower < w.stop && (b.lower - w.begin) % d == 0
    ensures b.finish == if b.lower + d <= w.stop then b.lower + d else w.stop
  {
    BucketsTile(key, w, d, index);
    MultipleExactly(index, d, b.lower - w.begin);
  }

  lemma AtItsIndex(key: int, w: Window, d: int, b: Bucket)
    requires d > 0
    requires b.session == key && w.begin <= b.lower < w.stop && (b.lower - w.begin) % d == 0
    requires b.finish == if b.lower + d <= w.stop then b.lower + d else w.stop
    ensures var index := (b.lower - w.begin) / d;
      0 <= index < Count(w, d) && b == At(key, w, d, index)
  {
    var index := (b.lower - w.begin) / d;
    FloorAtLeast(b.lower - w.begin, d, 0);
    BucketShape(key, w, d, index);
    assert index * d == b.lower - w.begin;
  }

  /** Where a bucket of the calendar lies: at a whole number of durations from the start of its window,
      and as long as one duration, or up to the window's end when less is left. */
  lemma BucketExactly(calendar: seq<Session>, d: int, b: Bucket)
    requires d > 0
    ensures IsBucket(calendar, d, b) <==>
      exists i, k ::
        && 0 <= i < |calendar| && 0 <= k < |calendar[i].windows|
        && b.session == calendar[i].key
        && calendar[i].windows[k].begin <= b.lower < calendar[i].windows[k].stop
        && (b.lower - calendar[i].windows[k].begin) % d == 0
        && b.finish == if b.lower + d <= calendar[i].windows[k].stop then b.lower + d else calendar[i].windows[k].stop
  {
    forall i: nat, k: nat, index: nat | Holds(calendar, d, b, i, k, index)
      ensures b.session == calendar[i].key
      ensures calendar[i].windows[k].begin <= b.lower < calendar[i].windows[k].stop
      ensures (b.lower - calendar[i].windows[k].begin) % d == 0
      ensures b.finish
        == if b.lower + d <= calendar[i].windows[k].stop then b.lower + d else calendar[i].windows[k].stop
    {
      AtExactly(calendar[i].key, calendar[i].windows[k], d, index, b);
    }
    forall i, k |
      && 0 <= i < |calendar| && 0 <= k < |calendar[i].windows|
      && b.session == calendar[i].key
      && calendar[i].windows[k].begin <= b.lower < calendar[i].windows[k].stop
      && (b.lower - calendar[i].windows[k].begin) % d == 0
      && b.finish == (if b.lower + d <= calendar[i].windows[k].stop then b.lower + d else calendar[i].windows[k].stop)
      ensures IsBucket(calendar, d, b)
    {
      var w := calendar[i].windows[k];
      AtItsIndex(b.session, w, d, b);
      assert Holds(calendar, d, b, i, k, (b.lower - w.begin) / d);
    }
  }

  /** The buckets of a request, without the enumeration: those that end within it and begin within the grant. */
  lemma SelectedExactly(calendar: seq<Session>, d: int, start: int, end: int, grant: int, b: Bucket)
    requires d > 0
    ensures b in Selected(calendar, d, Range(start, end, grant)) <==>
      && start <= b.finish && b.finish <= end && grant <= b.lower
      && exists i, k ::
           && 0 <= i < |calendar| && 0 <= k < |calendar[i].windows|
           && b.session == calendar[i].key
           && calendar[i].windows[k].begin <= b.lower < calendar[i].windows[k].stop
           && (b.lower - calendar[i].windows[k].begin) % d == 0
           && b.finish
              == if b.lower + d <= calendar[i].windows[k].stop then b.lower + d else calendar[i].windows[k].stop
  {
    SelectedMembers(calendar, d, Range(start, end, grant), b);
    BucketExactly(calendar, d, b);
  }

  predicate After(i: nat, k: nat, i': nat, k': nat) { i < i' || (i == i' && k < k') }

  predicate IsWindow(calendar: seq<Session>, i: nat, k: nat) {
    i < |calendar| && k < |calendar[i].windows|
  }

  /** Trading windows follow each other in calendar order without overlap. */
  ghost predicate Ordered(calendar: seq<Session>) {
    forall i: nat, k: nat, i': nat, k': nat ::
      IsWindow(calendar, i, k) && IsWindow(calendar, i', k') && After(i, k, i', k') ==>
        calendar[i].windows[k].stop <= calendar[i'].windows[k'].begin
  }

  /** Buckets one after another. */
  ghost predicate InOrder(bs: seq<Bucket>) {
    && (forall i :: 0 <= i < |bs| ==> bs[i].lower < bs[i].finish)
    && (forall i, j :: 0 <= i < j < |bs| ==> bs[i].finish <= bs[j].lower)
  }

  lemma HoldsShape(calendar: seq<Session>, d: int, b: Bucket, i: nat, k: nat, index: nat)
    requires d > 0 && Holds(calendar, d, b, i, k, index)
    ensures calendar[i].windows[k].begin <= b.lower < b.finish <= calendar[i].windows[k].stop
  {
    BucketsTile(calendar[i].key, calendar[i].windows[k], d, index);
  }

  lemma {:induction false} WindowInOrder(key: int, w: Window, d: int, r: Range, n: int)
    requires d > 0 && n <= Count(w, d)
    ensures InOrder(OfWindow(key, w, d, r, n))
    ensures n > 0 ==> forall b :: b in OfWindow(key, w, d, r, n - 1) ==> b.finish <= At(key, w, d, n - 1).lower
    decreases n
  {
    if n > 0 {
      WindowInOrder(key, w, d, r, n - 1);
      BucketsTile(key, w, d, n - 1);
      forall b | b in OfWindow(key, w, d, r, n - 1) ensures b.finish <= At(key, w, d, n - 1).lower {
        BucketShape(key, w, d, n - 2);
        if b in OfWindow(key, w, d, r, n - 2) { BucketsTile(key, w, d, n - 2); }
      }
    }
  }

  lemma ConcatInOrder(a: seq<Bucket>, b: seq<Bucket>, t: int)
    requires InOrder(a) && InOrder(b)
    requires forall x :: x in a ==> x.finish <= t
    requires forall y :: y in b ==> t <= y.lower
    ensures InOrder(a + b)
  {
    forall i, j | 0 <= i < |a| && |a| <= j < |a + b| ensures (a + b)[i].finish <= (a + b)[j].lower {
      assert a[i] in a && b[j - |a|] in b;
    }
  }

  lemma AppendWindow(a: seq<Bucket>, key: int, w: Window, d: int, r: Range)
    requires d > 0 && InOrder(a) && forall x :: x in a ==> x.finish <= w.begin
    ensures InOrder(a + OfWindow(key, w, d, r, Count(w, d)))
  {
    var part := OfWindow(key, w, d, r, Count(w, d));
    WindowInOrder(key, w, d, r, Count(w, d));
    forall y | y in part ensures w.begin <= y.lower {
      WindowMembers(key, w, d, r, Count(w, d), y);
      var index: nat :| index < Count(w, d) && y == At(key, w, d, index);
      BucketsTile(key, w, d, index);
    }
    ConcatInOrder(a, part, w.begin);
  }

  lemma NextWindow(calendar: seq<Session>, d: int, r: Range, i: nat, k: nat)
    requires d > 0 && Ordered(calendar) && i < |calendar| && 0 < k <= |calendar[i].windows|
    requires InOrder(OfCalendar(calendar, d, r, i) + OfSession(calendar[i], d, r, k - 1))
    ensures InOrder(OfCalendar(calendar, d, r, i) + OfSession(calendar[i], d, r, k))
  {
    var s := calendar[i];
    var a, w := OfCalendar(calendar, d, r, i) + OfSession(s, d, r, k - 1), s.windows[k - 1];
    forall x | x in a ensures x.finish <= w.begin { EarlierWindow(calendar, d, r, i, k - 1, x); }
    AppendWindow(a, s.key, w, d, r);
    Regroup(OfCalendar(calendar, d, r, i), OfSession(s, d, r, k - 1), OfWindow(s.key, w, d, r, Count(w, d)));
  }

  lemma Regroup<T>(a: seq<T>, b: seq<T>, c: seq<T>)
    ensures (a + b) + c == a + (b + c)
  {
  }

  lemma {:induction false} CalendarInOrder(calendar: seq<Session>, d: int, r: Range, i: nat, k: nat)
    requires d > 0 && Ordered(calendar) && i < |calendar| && k <= |calendar[i].windows|
    ensures InOrder(OfCalendar(calendar, d, r, i) + OfSession(calendar[i], d, r, k))
    decreases i, k
  {
    if k > 0 {
      CalendarInOrder(calendar, d, r, i, k - 1);
      NextWindow(calendar, d, r, i, k);
    } else if i > 0 {
      CalendarInOrder(calendar, d, r, i - 1, |calendar[i - 1].windows|);
      var done := OfCalendar(calendar, d, r, i);
      assert done + [] == done;
    }
  }

  lemma EarlierWindow(calendar: seq<Session>, d: int, r: Range, i: nat, k: nat, x: Bucket)
    requires d > 0 && Ordered(calendar) && i < |calendar| && k < |calendar[i].windows|
    requires x in OfCalendar(calendar, d, r, i) + OfSession(calendar[i], d, r, k)
    ensures x.finish <= calendar[i].windows[k].begin
  {
    if x in OfCalendar(calendar, d, r, i) {
      CalendarMembers(calendar, d, r, i, x);
      var i0: nat, k0: nat, index: nat :| i0 < i && Holds(calendar, d, x, i0, k0, index);
      HoldsShape(calendar, d, x, i0, k0, index);
      assert After(i0, k0, i, k);
    } else {
      SessionMembers(calendar[i], d, r, k, x);
      var s := calendar[i];
      var k0: nat, index: nat :| k0 < k && index < Count(s.windows[k0], d) && x == At(s.key, s.windows[k0], d, index);
      BucketsTile(calendar[i].key, calendar[i].windows[k0], d, index);
      assert After(i, k0, i, k);
    }
  }

  /** In an ordered calendar the enumeration is in time order, without overlap. */
  lemma SelectedInOrder(calendar: seq<Session>, d: int, r: Range)
    requires d > 0 && Ordered(calendar)
    ensures InOrder(Selected(calendar, d, r))
  {
    var n := |calendar|;
    if n > 0 { CalendarInOrder(calendar, d, r, n - 1, |calendar[n - 1].windows|); }
  }

  lemma NotAfter(calendar: seq<Session>, d: int, a: Bucket, b: Bucket, i: nat, k: nat, x: nat, i': nat, k': nat, y: nat)
    requires d > 0 && Ordered(calendar) && a.finish == b.finish
    requires Holds(calendar, d, a, i, k, x) && Holds(calendar, d, b, i', k', y)
    ensures !After(i, k, i', k')
  {
    HoldsShape(calendar, d, a, i, k, x);
    HoldsShape(calendar, d, b, i', k', y);
  }

  /** In an ordered calendar the finish alone identifies a bucket, so it can key a cache. */
  lemma FinishIdentifies(calendar: seq<Session>, d: int, a: Bucket, b: Bucket)
    requires d > 0 && Ordered(calendar) && IsBucket(calendar, d, a) && IsBucket(calendar, d, b) && a.finish == b.finish
    ensures a == b
  {
    var i: nat, k: nat, x: nat :| Holds(calendar, d, a, i, k, x);
    var i': nat, k': nat, y: nat :| Holds(calendar, d, b, i', k', y);
    NotAfter(calendar, d, a, b, i, k, x, i', k', y);
    NotAfter(calendar, d, b, a, i', k', y, i, k, x);
    var key, w := calendar[i].key, calendar[i].windows[k];
    HoldsShape(calendar, d, a, i, k, x);
    EveryInstantHasOneBucket(key, w, d, a.finish - 1);
    BucketsTile(key, w, d, x);
    BucketsTile(key, w, d, y);
  }
}
