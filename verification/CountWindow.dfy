/** Bars of a coarser frequency, computed bucket by bucket: the backward search that gives every
    security of a count window its newest bars, and the bucket and query caches beside it. */
module CountWindow {
  import opened Collections
  import opened RuntimeContracts
  import opened Events
  import opened Lookback
  import opened Buckets

  /** What the resampler makes of the finer stream, for every bucket and the whole universe. */
  datatype Stream = Stream(bars: Bucket -> set<Event>, damaged: (Bucket, Security) -> bool)

  /** At most one bar per security per bucket, stamped with the bucket's end. */
  ghost predicate BarsOf(b: Bucket, bars: set<Event>) {
    && (forall e :: e in bars ==> e.time == b.finish)
    && (forall e, x :: e in bars && x in bars && e.security == x.security ==> e == x)
  }

  ghost predicate Resampled(stream: Stream) {
    forall b: Bucket :: BarsOf(b, stream.bars(b))
  }

  function Wanted(bars: set<Event>, securities: set<Security>): set<Event> {
    set e | e in bars && e.security in securities
  }

  /** All bars of some buckets for some securities. */
  function Gather(stream: Stream, bs: seq<Bucket>, securities: set<Security>): set<Event> {
    if bs == [] then {}
    else Gather(stream, bs[..|bs| - 1], securities) + Wanted(stream.bars(bs[|bs| - 1]), securities)
  }

  lemma GatherStep(stream: Stream, bs: seq<Bucket>, i: nat, securities: set<Security>)
    requires i < |bs|
    ensures Gather(stream, bs[..i + 1], securities)
      == Gather(stream, bs[..i], securities) + Wanted(stream.bars(bs[i]), securities)
  {
    assert bs[..i + 1][..i] == bs[..i];
  }

  lemma {:induction false} GatherMembers(stream: Stream, bs: seq<Bucket>, securities: set<Security>, e: Event)
    ensures e in Gather(stream, bs, securities) <==>
      e.security in securities && exists b :: b in bs && e in stream.bars(b)
    decreases |bs|
  {
    if bs != [] {
      var front, last := bs[..|bs| - 1], bs[|bs| - 1];
      GatherMembers(stream, front, securities, e);
      assert bs == front + [last];
    }
  }

  /** The order buckets are visited in does not change what they hold. */
  lemma GatherReversed(stream: Stream, bs: seq<Bucket>, securities: set<Security>)
    ensures Gather(stream, Reverse(bs), securities) == Gather(stream, bs, securities)
  {
    forall b ensures b in Reverse(bs) <==> b in bs {
      ReverseTwice(bs);
      if b in bs { var k :| 0 <= k < |bs| && bs[k] == b; ReverseAt(bs, |bs| - 1 - k); }
      if b in Reverse(bs) { var k :| 0 <= k < |bs| && Reverse(bs)[k] == b; ReverseAt(bs, k); }
    }
    forall e ensures e in Gather(stream, Reverse(bs), securities) <==> e in Gather(stream, bs, securities) {
      GatherMembers(stream, bs, securities, e);
      GatherMembers(stream, Reverse(bs), securities, e);
    }
  }

  // ---------------------------------------------------------------- one older bucket

  /** `bs` lists buckets from new to old. */
  ghost predicate NewestFirst(bs: seq<Bucket>) {
    forall i, j :: 0 <= i < j < |bs| ==> bs[j].finish < bs[i].finish
  }

  lemma ReversedIsNewestFirst(bs: seq<Bucket>)
    requires InOrder(bs)
    ensures NewestFirst(Reverse(bs))
  {
    ReverseTwice(bs);
    forall i, j | 0 <= i < j < |bs| ensures Reverse(bs)[j].finish < Reverse(bs)[i].finish {
      ReverseAt(bs, i);
      ReverseAt(bs, j);
    }
  }

  lemma OlderThanSeen(stream: Stream, bs: seq<Bucket>, i: nat, securities: set<Security>)
    requires Resampled(stream) && NewestFirst(bs) && i < |bs|
    ensures forall e, x :: e in Gather(stream, bs[..i], securities) && x in stream.bars(bs[i]) ==> x.time < e.time
  {
    forall e, x | e in Gather(stream, bs[..i], securities) && x in stream.bars(bs[i]) ensures x.time < e.time {
      GatherMembers(stream, bs[..i], securities, e);
      var b :| b in bs[..i] && e in stream.bars(b);
      assert BarsOf(b, stream.bars(b)) && BarsOf(bs[i], stream.bars(bs[i]));
    }
  }

  lemma {:induction false} GatherKeyed(stream: Stream, bs: seq<Bucket>, securities: set<Security>)
    requires Resampled(stream) && NewestFirst(bs)
    ensures Keyed(Gather(stream, bs, securities))
    decreases |bs|
  {
    if bs != [] {
      var n := |bs| - 1;
      GatherKeyed(stream, bs[..n], securities);
      OlderThanSeen(stream, bs, n, securities);
      assert BarsOf(bs[n], stream.bars(bs[n]));
    }
  }

  /** Bars older than everything seen enter the tail exactly for the securities whose tail is not
      full yet, and change nothing else. */
  lemma OlderBars(count: nat, seen: set<Event>, older: set<Event>)
    requires Keyed(seen)
    requires forall e, x :: e in seen && x in older ==> x.time < e.time
    requires forall e, x :: e in older && x in older && e.security == x.security ==> e == x
    ensures Tail(count, seen + older)
      == Tail(count, seen) + set e | e in older && |Of(e.security, Tail(count, seen))| < count
  {
    forall e | e in seen ensures Above(e, seen + older) == Above(e, seen) {}
    forall e | e in older ensures |Above(e, seen + older)| < count <==> |Of(e.security, Tail(count, seen))| < count {
      assert Above(e, seen + older) == Of(e.security, seen);
      TailIsLast(count, seen, e.security);
    }
  }

  // ---------------------------------------------------------------- the countdown

  type Remaining = map<Security, nat>

  /** `remaining` is what each security still lacks; a security that lacks nothing is absent. */
  ghost predicate Lacks(remaining: Remaining, securities: set<Security>, count: nat, kept: set<Event>) {
    && remaining.Keys <= securities
    && (forall s :: s in securities ==> (s in remaining <==> |Of(s, kept)| < count))
    && (forall s :: s in remaining ==> remaining[s] == count - |Of(s, kept)|)
  }

  /** One less for every security in the table; those that reach zero leave. */
  function Countdown(remaining: Remaining, sold: set<Security>): Remaining
    requires forall s :: s in remaining ==> remaining[s] > 0
  {
    map s | s in remaining && !(s in sold && remaining[s] == 1) ::
      if s in sold then (remaining[s] - 1) as nat else remaining[s]
  }

  function SecuritiesOf(table: set<Event>): set<Security> {
    set e | e in table :: e.security
  }

  lemma CountdownLacks(remaining: Remaining, securities: set<Security>, count: nat, kept: set<Event>, table: set<Event>)
    requires Lacks(remaining, securities, count, kept)
    requires forall e :: e in table ==> e !in kept && e.security in remaining
    requires forall e, x :: e in table && x in table && e.security == x.security ==> e == x
    ensures Lacks(Countdown(remaining, SecuritiesOf(table)), securities, count, kept + table)
  {
    forall s | s in securities
      ensures |Of(s, kept + table)| == |Of(s, kept)| + if s in SecuritiesOf(table) then 1 else 0
    {
      if s in SecuritiesOf(table) {
        var e :| e in table && e.security == s;
        assert Of(s, kept + table) == Of(s, kept) + {e};
      } else {
        assert Of(s, kept + table) == Of(s, kept);
      }
    }
  }

  /** The loop over the security column of one table. */
  method Take(remaining: Remaining, table: seq<Event>) returns (left: Remaining)
    requires forall s :: s in remaining ==> remaining[s] > 0
    requires forall e :: e in table ==> e.security in remaining
    requires OnePerSecurity(table)
    ensures left == Countdown(remaining, SecuritiesOf(Rows(table)))
  {
    left := remaining;
    for i := 0 to |table|
      invariant left == Countdown(remaining, SecuritiesOf(Rows(table[..i])))
    {
      var s := table[i].security;
      ghost var sold := SecuritiesOf(Rows(table[..i]));
      assert Rows(table[..i + 1]) == Rows(table[..i]) + {table[i]};
      assert SecuritiesOf(Rows(table[..i + 1])) == sold + {s};
      assert s !in sold;
      left := left[s := (left[s] - 1) as nat];
      if left[s] == 0 {
        left := left - {s};
      }
    }
    assert table[..|table|] == table;
  }

  /** Once nothing is lacking, older buckets add nothing. */
  lemma {:induction false} FullToTheEnd(stream: Stream, bs: seq<Bucket>, i: nat, securities: set<Security>, count: nat)
    requires Resampled(stream) && NewestFirst(bs) && i <= |bs|
    requires forall s :: s in securities ==> |Of(s, Tail(count, Gather(stream, bs[..i], securities)))| >= count
    ensures Tail(count, Gather(stream, bs[..i], securities)) == Tail(count, Gather(stream, bs, securities))
    decreases |bs| - i
  {
    if i == |bs| {
      assert bs[..i] == bs;
    } else {
      OneMoreBucket(stream, bs, i, securities, count);
      var kept := Tail(count, Gather(stream, bs[..i], securities));
      assert (set e | e in Wanted(stream.bars(bs[i]), securities) && |Of(e.security, kept)| < count) == {};
      assert Tail(count, Gather(stream, bs[..i + 1], securities)) == kept;
      FullToTheEnd(stream, bs, i + 1, securities, count);
    }
  }

  /** The tail after one more bucket: its bars of the securities that still lack some. */
  lemma OneMoreBucket(stream: Stream, bs: seq<Bucket>, i: nat, securities: set<Security>, count: nat)
    requires Resampled(stream) && NewestFirst(bs) && i < |bs|
    ensures var kept := Tail(count, Gather(stream, bs[..i], securities));
      Tail(count, Gather(stream, bs[..i + 1], securities))
        == kept + set e | e in Wanted(stream.bars(bs[i]), securities) && |Of(e.security, kept)| < count
  {
    var seen := Gather(stream, bs[..i], securities);
    GatherStep(stream, bs, i, securities);
    GatherKeyed(stream, bs[..i], securities);
    OlderThanSeen(stream, bs, i, securities);
    assert BarsOf(bs[i], stream.bars(bs[i]));
    OlderBars(count, seen, Wanted(stream.bars(bs[i]), securities));
  }

  /** Reading only the securities that still lack bars gives the tail of one more bucket, and the
      countdown stays what they lack. */
  lemma SearchStep(stream: Stream, bs: seq<Bucket>, i: nat, securities: set<Security>, count: nat, remaining: Remaining)
    requires Resampled(stream) && NewestFirst(bs) && i < |bs|
    requires Lacks(remaining, securities, count, Tail(count, Gather(stream, bs[..i], securities)))
    ensures var table := Wanted(stream.bars(bs[i]), remaining.Keys);
      var kept := Tail(count, Gather(stream, bs[..i + 1], securities));
      && kept == Tail(count, Gather(stream, bs[..i], securities)) + table
      && Lacks(Countdown(remaining, SecuritiesOf(table)), securities, count, kept)
  {
    var kept, table := Tail(count, Gather(stream, bs[..i], securities)), Wanted(stream.bars(bs[i]), remaining.Keys);
    OneMoreBucket(stream, bs, i, securities, count);
    assert table == set e | e in Wanted(stream.bars(bs[i]), securities) && |Of(e.security, kept)| < count;
    OlderThanSeen(stream, bs, i, securities);
    assert BarsOf(bs[i], stream.bars(bs[i]));
    CountdownLacks(remaining, securities, count, kept, table);
  }

  /** The state of the search after the first `i` buckets. */
  ghost predicate Found(
      stream: Stream, bs: seq<Bucket>, i: nat, securities: set<Security>, count: nat, parts: seq<Event>,
      remaining: Remaining)
  {
    && i <= |bs| && Rows(parts) == Tail(count, Gather(stream, bs[..i], securities))
    && Lacks(remaining, securities, count, Rows(parts))
  }

  lemma FoundStep(
      stream: Stream, bs: seq<Bucket>, i: nat, securities: set<Security>, count: nat, parts: seq<Event>,
      remaining: Remaining, table: seq<Event>)
    requires Resampled(stream) && NewestFirst(bs) && i < |bs|
    requires Found(stream, bs, i, securities, count, parts, remaining)
    requires Rows(table) == Wanted(stream.bars(bs[i]), remaining.Keys)
    ensures Found(stream, bs, i + 1, securities, count, parts + table, Countdown(remaining, SecuritiesOf(Rows(table))))
  {
    SearchStep(stream, bs, i, securities, count, remaining);
    assert Rows(parts + table) == Rows(parts) + Rows(table);
  }

  /** Stopping when nothing is lacking, or at the beginning, is stopping with the whole answer. */
  lemma FoundAll(
      stream: Stream, bs: seq<Bucket>, i: nat, securities: set<Security>, count: nat, parts: seq<Event>,
      remaining: Remaining)
    requires Resampled(stream) && NewestFirst(bs) && Found(stream, bs, i, securities, count, parts, remaining)
    requires i == |bs| || !exists s :: s in remaining
    ensures Rows(parts) == Tail(count, Gather(stream, bs, securities))
  {
    if i < |bs| { FullToTheEnd(stream, bs, i, securities, count); } else { assert bs[..i] == bs; }
  }

  // ---------------------------------------------------------------- tables

  predicate OnePerSecurity(table: seq<Event>) {
    forall i, j :: 0 <= i < j < |table| ==> table[i].security != table[j].security
  }

  function Pick(table: seq<Event>, securities: set<Security>): seq<Event> {
    if table == [] then []
    else
      var last := table[|table| - 1];
      Pick(table[..|table| - 1], securities) + (if last.security in securities then [last] else [])
  }

  lemma {:induction false} PickRows(table: seq<Event>, securities: set<Security>)
    requires OnePerSecurity(table)
    ensures Rows(Pick(table, securities)) == Wanted(Rows(table), securities) && OnePerSecurity(Pick(table, securities))
    decreases |table|
  {
    if table != [] {
      var front, last := table[..|table| - 1], table[|table| - 1];
      PickRows(front, securities);
      assert table == front + [last];
      var picked := Pick(front, securities);
      forall e ensures e in Rows(Pick(table, securities)) <==> e in Wanted(Rows(table), securities) {
        assert e in picked <==> e in Rows(picked);
        assert e in table <==> e in front || e == last;
      }
      forall i | 0 <= i < |picked| ensures picked[i].security != last.security {
        assert picked[i] in Rows(picked);
        var k :| 0 <= k < |front| && front[k] == picked[i];
      }
    }
  }

  datatype Cached = Cached(finish: int, table: seq<Event>)

  datatype Query = Query(securities: seq<Security>, end: int, count: int)

  datatype Memo = Memo(query: Query, table: seq<Event>)

  function Lookup(cache: seq<Cached>, finish: int): (r: Option<seq<Event>>)
    ensures r.Some? ==> Cached(finish, r.value) in cache
    ensures r.None? ==> forall i :: 0 <= i < |cache| ==> cache[i].finish != finish
  {
    if cache == [] then None
    else if cache[0].finish == finish then Some(cache[0].table)
    else Lookup(cache[1..], finish)
  }

  function TableRows(cache: seq<Cached>): nat {
    if cache == [] then 0 else |cache[0].table| + TableRows(cache[1..])
  }

  lemma {:induction false} TableRowsIsSum(cache: seq<Cached>, sizes: seq<int>)
    requires |sizes| == |cache| && forall i :: 0 <= i < |cache| ==> sizes[i] == |cache[i].table|
    ensures TableRows(cache) == Sum(sizes)
    decreases |cache|
  {
    if cache != [] { TableRowsIsSum(cache[1..], sizes[1..]); }
  }

  /** The empty set of securities asks for nothing, and so does a count that is already met. */
  function Initially(securities: set<Security>, count: nat): Remaining {
    map s | s in securities :: count
  }

  lemma InitiallyLacks(securities: set<Security>, count: nat)
    requires count > 0
    ensures Lacks(Initially(securities, count), securities, count, {})
  {
    forall s ensures Of(s, {}) == {} {}
  }

  class ResampledBarGateway {
    const stream: Stream
    const calendar: seq<Session>
    const duration: int
    const universe: set<Security>
    const grantStart: int
    const grantEnd: int
    const cacheRows: nat
    const queryRows: nat
    /** Bucket tables of the full universe, oldest insertion first. */
    var cache: seq<Cached>
    var query: Option<Memo>
    /** Rows held by the window cache this gateway inherits. */
    var baseRows: nat

    constructor (stream: Stream, calendar: seq<Session>, duration: int, universe: set<Security>,
                 grantStart: int, grantEnd: int, cacheRows: nat, queryRows: nat)
      requires duration > 0 && Ordered(calendar) && Resampled(stream)
      ensures Valid() && cache == [] && query == None
      ensures this.stream == stream && this.calendar == calendar && this.duration == duration
      ensures this.universe == universe && this.grantStart == grantStart && this.grantEnd == grantEnd
      ensures this.cacheRows == cacheRows && this.queryRows == queryRows
    {
      this.stream, this.calendar, this.duration, this.universe := stream, calendar, duration, universe;
      this.grantStart, this.grantEnd, this.cacheRows, this.queryRows := grantStart, grantEnd, cacheRows, queryRows;
      cache, query, baseRows := [], None, 0;
    }

    /** A table of the whole universe for one undamaged bucket. */
    ghost predicate FullTable(b: Bucket, table: seq<Event>) {
      && Rows(table) == Wanted(stream.bars(b), universe) && OnePerSecurity(table)
      && (forall s :: s in universe ==> !stream.damaged(b, s))
    }

    ghost predicate CachedOk(c: Cached) {
      duration > 0 && exists b :: IsBucket(calendar, duration, b) && b.finish == c.finish && FullTable(b, c.table)
    }

    /** Every bar of some securities up to `end`. */
    ghost function History(securities: set<Security>, end: int): set<Event>
      requires duration > 0
    {
      Gather(stream, Selected(calendar, duration, Range(grantStart, end, grantStart)), securities)
    }

    /** The bars a count window may answer with, instant by instant. */
    lemma HistoryExactly(securities: set<Security>, end: int, e: Event)
      requires duration > 0
      ensures e in History(securities, end) <==>
        && e.security in securities
        && exists b :: b in Selected(calendar, duration, Range(grantStart, end, grantStart)) && e in stream.bars(b)
    {
      GatherMembers(stream, Selected(calendar, duration, Range(grantStart, end, grantStart)), securities, e);
    }

    ghost predicate AnswerOk(m: Memo) {
      && duration > 0 && m.query.count > 0 && Sorted(TimeFirst, m.table)
      && Rows(m.table) == Tail(m.query.count, History(Members(m.query.securities), m.query.end))
    }

    ghost predicate Valid()
      reads this
    {
      && duration > 0 && Ordered(calendar) && Resampled(stream)
      && (forall c :: c in cache ==> CachedOk(c))
      && (forall i, j :: 0 <= i < j < |cache| ==> cache[i].finish != cache[j].finish)
      && (query.Some? ==> AnswerOk(query.value))
    }

    /** Reads the finer bars of one bucket and resamples them; a damaged bar refuses the bucket, and
        so may a budget. */
    method Compute(b: Bucket, wanted: set<Security>) returns (r: Result<seq<Event>>)
      requires Valid()
      ensures r.Ok? ==> Rows(r.value) == Wanted(stream.bars(b), wanted) && OnePerSecurity(r.value)
      ensures r.Ok? ==> forall s :: s in wanted ==> !stream.damaged(b, s)
      ensures r.Err? ==>
        || r.fault == ResourceLimit
        || (r.fault == CapabilityUnavailable && exists s :: s in wanted && stream.damaged(b, s))
    {
      var overBudget: bool := *;
      if overBudget { return Err(ResourceLimit); }
      if exists s :: s in wanted && stream.damaged(b, s) { return Err(CapabilityUnavailable); }
      assert BarsOf(b, stream.bars(b));
      var rows := Wanted(stream.bars(b), wanted);
      var table := Arrange(TimeFirst, rows);
      SortedHasNoDup(TimeFirst, table);
      forall i, j | 0 <= i < j < |table| ensures table[i].security != table[j].security {
        assert table[i] in Rows(table) && table[j] in Rows(table);
      }
      r := Ok(table);
    }

    /** One bucket's bars, from the cache when its finish is there. */
    method TableFor(b: Bucket, wanted: set<Security>) returns (r: Result<seq<Event>>)
      requires Valid() && IsBucket(calendar, duration, b) && wanted <= universe
      ensures r.Ok? ==> Rows(r.value) == Wanted(stream.bars(b), wanted) && OnePerSecurity(r.value)
      ensures r.Ok? ==> forall s :: s in wanted ==> !stream.damaged(b, s)
      ensures r.Err? ==>
        || r.fault == ResourceLimit
        || (r.fault == CapabilityUnavailable && exists s :: s in wanted && stream.damaged(b, s))
    {
      var found := Lookup(cache, b.finish);
      if found.Some? {
        assert CachedOk(Cached(b.finish, found.value));
        ghost var full :| IsBucket(calendar, duration, full) && full.finish == b.finish && FullTable(full, found.value);
        FinishIdentifies(calendar, duration, full, b);
        PickRows(found.value, wanted);
        r := Ok(Pick(found.value, wanted));
      } else {
        r := Compute(b, wanted);
      }
    }

    /** The buckets before `end`, newest first. */
    ghost function Backward(end: int): seq<Bucket>
      requires duration > 0
    {
      Reverse(Selected(calendar, duration, Range(grantStart, end, grantStart)))
    }

    /** The j-th newest bucket is needed for a security that has fewer than `count` bars in the newer ones. */
    ghost predicate Needs(securities: set<Security>, end: int, count: int, j: int, s: Security)
      requires duration > 0
    {
      && 0 <= j < |Backward(end)| && s in securities
      && |set e | e in Gather(stream, Backward(end)[..j], securities) && e.security == s| < count
    }

    ghost predicate NeededIsDamaged(securities: set<Security>, end: int, count: int)
      requires duration > 0
    {
      exists j, s :: Needs(securities, end, count, j, s) && stream.damaged(Backward(end)[j], s)
    }

    /** What a search lacks before a bucket is what needs it. */
    lemma LackingNeeds(securities: set<Security>, end: int, count: nat, j: int, s: Security, kept: set<Event>)
      requires duration > 0 && Resampled(stream) && Ordered(calendar)
      requires 0 <= j < |Backward(end)| && kept == Tail(count, Gather(stream, Backward(end)[..j], securities))
      requires s in securities
      ensures Needs(securities, end, count, j, s) <==> |Of(s, kept)| < count
    {
      var bs, seen := Backward(end), Gather(stream, Backward(end)[..j], securities);
      SearchOrder(Range(grantStart, end, grantStart), securities);
      GatherKeyed(stream, bs[..j], securities);
      TailIsLast(count, seen, s);
      assert Of(s, seen) == set e | e in seen && e.security == s;
    }

    lemma NothingNeedsOlder(securities: set<Security>, end: int, count: nat, i: nat, j: int, s: Security)
      requires duration > 0 && Resampled(stream) && Ordered(calendar)
      requires i <= j && i <= |Backward(end)|
      requires forall x :: x in securities ==>
        |Of(x, Tail(count, Gather(stream, Backward(end)[..i], securities)))| >= count
      ensures !Needs(securities, end, count, j, s)
    {
      var bs := Backward(end);
      SearchOrder(Range(grantStart, end, grantStart), securities);
      if 0 <= j < |bs| && s in securities {
        assert bs[..j][..i] == bs[..i];
        FullToTheEnd(stream, bs[..j], i, securities, count);
        LackingNeeds(securities, end, count, j, s, Tail(count, Gather(stream, bs[..j], securities)));
      }
    }

    /** The backward search of a count window. It reads a bucket for exactly the securities that need it, so
        damage matters only there. */
    method Search(securities: set<Security>, end: int, count: nat) returns (r: Result<seq<Event>>)
      requires Valid() && count > 0 && securities <= universe
      ensures r.Ok? ==> Sorted(TimeFirst, r.value) && Rows(r.value) == Tail(count, History(securities, end))
      ensures r.Ok? ==> !NeededIsDamaged(securities, end, count)
      ensures r.Err? ==>
        || r.fault == ResourceLimit
        || (r.fault == CapabilityUnavailable && NeededIsDamaged(securities, end, count))
    {
      var range := Range(grantStart, end, grantStart);
      var bs := Enumerate(calendar, duration, range, true);
      SearchOrder(range, securities);
      InitiallyLacks(securities, count);
      var remaining := Initially(securities, count);
      var parts: seq<Event> := [];
      var i := 0;
      assert Rows(parts) == {} && Tail(count, {}) == {};
      while i < |bs| && exists s :: s in remaining
        invariant 0 <= i <= |bs|
        invariant Found(stream, bs, i, securities, count, parts, remaining)
        invariant forall j, s :: j < i && Needs(securities, end, count, j, s) ==> !stream.damaged(bs[j], s)
      {
        var b := bs[i];
        VisitedBucket(range, b);
        forall s | s in securities ensures s in remaining <==> Needs(securities, end, count, i, s) {
          LackingNeeds(securities, end, count, i, s, Rows(parts));
        }
        var overBudget: bool := *;
        if i >= queryRows || overBudget { return Err(ResourceLimit); }
        var t := TableFor(b, remaining.Keys);
        if t.Err? { return Err(t.fault); }
        assert forall e :: e in t.value ==> e in Rows(t.value);
        FoundStep(stream, bs, i, securities, count, parts, remaining, t.value);
        remaining := Take(remaining, t.value);
        parts := parts + t.value;
        if |parts| > cacheRows { return Err(ResourceLimit); }
        i := i + 1;
      }
      forall j, s | Needs(securities, end, count, j, s) ensures !stream.damaged(bs[j], s) {
        if i <= j { NothingNeedsOlder(securities, end, count, i, j, s); }
      }
      FoundAll(stream, bs, i, securities, count, parts, remaining);
      var table := Arrange(TimeFirst, Rows(parts));
      r := Ok(table);
    }

    lemma SearchOrder(range: Range, securities: set<Security>)
      requires Resampled(stream) && duration > 0 && Ordered(calendar)
      ensures var bs := Reverse(Selected(calendar, duration, range));
        && NewestFirst(bs) && Keyed(Gather(stream, bs, securities))
        && Gather(stream, bs, securities) == Gather(stream, Selected(calendar, duration, range), securities)
    {
      SelectedInOrder(calendar, duration, range);
      ReversedIsNewestFirst(Selected(calendar, duration, range));
      GatherReversed(stream, Selected(calendar, duration, range), securities);
      GatherKeyed(stream, Reverse(Selected(calendar, duration, range)), securities);
    }

    lemma VisitedBucket(range: Range, b: Bucket)
      requires duration > 0 && b in Reverse(Selected(calendar, duration, range))
      ensures b in Selected(calendar, duration, range) && IsBucket(calendar, duration, b)
    {
      var all := Selected(calendar, duration, range);
      ReverseTwice(all);
      var k :| 0 <= k < |Reverse(all)| && Reverse(all)[k] == b;
      ReverseAt(all, k);
      SelectedMembers(calendar, duration, range, b);
    }

    function Usage(tables: seq<Cached>): nat
      reads this
    {
      TableRows(tables) + (if query.Some? then |query.value.table| else 0) + baseRows
    }

    predicate Fits(tables: seq<Cached>)
      reads this
    {
      |tables| <= 32 && Usage(tables) <= cacheRows
    }

    /** Drops the oldest tables until the rest fits: the longest fitting suffix stays. When even an
        empty bucket cache does not fit, the remembered query goes too. */
    method TrimCache() returns (ok: bool, ghost dropped: nat)
      requires Valid()
      modifies this
      ensures Valid() && baseRows == old(baseRows)
      ensures ok <==> old(Usage([])) <= cacheRows
      ensures dropped <= |old(cache)| && cache == old(cache)[dropped..] && (cache == [] || old(Fits(cache[dropped..])))
      ensures forall j :: 0 <= j < dropped ==> !old(Fits(cache[j..]))
      ensures query == if ok then old(query) else None
      ensures var others := baseRows + if old(query).Some? then |old(query).value.table| else 0;
        && (cache == [] || (|cache| <= 32 && TableRows(cache) + others <= cacheRows))
        && (forall j :: 0 <= j < dropped ==>
              32 < |old(cache)[j..]| || cacheRows < TableRows(old(cache)[j..]) + others)
        && (ok <==> others <= cacheRows)
    {
      dropped := 0;
      while cache != []
        invariant dropped <= |old(cache)| && cache == old(cache)[dropped..]
        invariant query == old(query) && baseRows == old(baseRows)
        invariant forall j :: 0 <= j < dropped ==> !old(Fits(cache[j..]))
        decreases |cache|
      {
        if |cache| <= 32 && Usage(cache) <= cacheRows { break; }
        cache := cache[1..];
        dropped := dropped + 1;
      }
      ok := Usage(cache) <= cacheRows;
      if !ok { query := None; }
    }

    /** A count window, answered from the remembered query when it is the same one. */
    method ReadCount(securities: seq<Security>, end: int, count: int) returns (r: Result<seq<Event>>)
      requires Valid()
      modifies this
      ensures Valid() && baseRows == old(baseRows)
      ensures var refusal := CountRefusal(universe, grantStart, grantEnd, cacheRows, securities, end, count);
        refusal.Some? ==> r == Err(refusal.value) && cache == old(cache) && query == old(query)
      ensures r.Ok? ==> (count > 0 && Sorted(TimeFirst, r.value)
        && Rows(r.value) == Tail(count, History(Members(securities), end))
        && query == Some(Memo(Query(securities, end, count), r.value)))
      // what is asked of a request
      ensures r == Err(DataRestricted) <==>
        || (exists i, j :: 0 <= i < j < |securities| && securities[i] == securities[j])
        || (exists i :: 0 <= i < |securities| && securities[i] !in universe)
        || (1 <= count <= cacheRows && (end < grantStart || grantEnd < end))
      ensures r.Ok? ==>
        && (forall i, j :: 0 <= i < j < |securities| ==> securities[i] != securities[j])
        && (forall i :: 0 <= i < |securities| ==> securities[i] in universe)
        && 1 <= count <= cacheRows && grantStart <= end <= grantEnd && count * |securities| <= cacheRows
      ensures r == Err(DataRestricted) ==> cache == old(cache) && query == old(query)
      ensures !(1 <= count <= cacheRows) || count * |securities| > cacheRows ==>
        cache == old(cache) && query == old(query)
      ensures r.Err? && r != Err(DataRestricted) ==>
        || r.fault == ResourceLimit
        || (r.fault == CapabilityUnavailable && NeededIsDamaged(Members(securities), end, count))
      // what it is answered
      ensures r.Ok? ==> forall e :: e in r.value ==>
        && e.security in securities
        && exists b :: b in Selected(calendar, duration, Range(grantStart, end, grantStart)) && e in stream.bars(b)
      ensures r.Ok? ==>
        var whole := History(Members(securities), end);
        && (forall e :: e in whole ==>
              var all := set x | x in whole && x.security == e.security;
              var got := set x | x in r.value && x.security == e.security;
              |got| == if |all| < count then |all| else count)
        && forall kept, left ::
             kept in r.value && left in whole && left !in r.value && left.security == kept.security ==>
               Lexicographic([left.time, left.session, left.channel, left.sequence, left.stable],
                             [kept.time, kept.session, kept.channel, kept.sequence, kept.stable])
      ensures r.Ok? ==> forall i, j :: 0 <= i < j < |r.value| ==>
        var a, b := r.value[i], r.value[j];
        Lexicographic([a.time, a.security.n, a.session, a.channel, a.sequence, a.stable],
                      [b.time, b.security.n, b.session, b.channel, b.sequence, b.stable])
    {
      var refusal := CountRefusal(universe, grantStart, grantEnd, cacheRows, securities, end, count);
      if refusal.Some? { return Err(refusal.value); }
      var key := Query(securities, end, count);
      var table: seq<Event>;
      if query.Some? && query.value.query == key {
        table := query.value.table;
      } else {
        var found := Search(Members(securities), end, count);
        if found.Err? { return found; }
        table := found.value;
      }
      ghost var whole := History(Members(securities), end);
      SearchOrder(Range(grantStart, end, grantStart), Members(securities));
      NewestPerSecurity(whole, count, table);
      forall e | e in table ensures e in whole { }
      forall e | e in whole
        ensures e.security in securities
        ensures exists b :: b in Selected(calendar, duration, Range(grantStart, end, grantStart)) && e in stream.bars(b)
      {
        HistoryExactly(Members(securities), end, e);
      }
      query := Some(Memo(key, table));
      var ok, _ := TrimCache();
      if !ok { return Err(ResourceLimit); }
      r := Ok(table);
    }

    /** One bucket of a plain window; a new bucket of the replay is kept. */
    method BucketTable(b: Bucket, wanted: set<Security>, source: bool) returns (r: Result<seq<Event>>)
      requires Valid() && IsBucket(calendar, duration, b) && wanted <= universe && (source ==> wanted == universe)
      modifies this
      ensures Valid() && baseRows == old(baseRows)
      ensures r.Ok? ==> Rows(r.value) == Wanted(stream.bars(b), wanted) && OnePerSecurity(r.value)
      ensures r.Err? ==>
        || r.fault == ResourceLimit
        || (r.fault == CapabilityUnavailable && exists s :: s in wanted && stream.damaged(b, s))
      ensures !source || (exists i :: 0 <= i < |old(cache)| && old(cache)[i].finish == b.finish) ==>
        cache == old(cache) && query == old(query)
    {
      var cached := Lookup(cache, b.finish);
      r := TableFor(b, wanted);
      if r.Ok? && source && cached.None? {
        assert FullTable(b, r.value);
        cache := cache + [Cached(b.finish, r.value)];
        var ok, _ := TrimCache();
        if !ok { return Err(ResourceLimit); }
      }
    }

    /** What a plain window is refused for. */
    function RangeRefusal(securities: seq<Security>, start: int, end: int): Option<Fault> {
      if exists i, j :: 0 <= i < j < |securities| && securities[i] == securities[j] then Some(DataRestricted)
      else if exists x :: x in securities && x !in universe then Some(DataRestricted)
      else if !(grantStart <= start <= end <= grantEnd) then Some(DataRestricted)
      else None
    }

    /** A plain window, bucket by bucket in calendar order. Only the replay of the whole universe
        over the whole grant fills the bucket cache. */
    method ReadRange(securities: seq<Security>, start: int, end: int) returns (r: Result<seq<Event>>)
      requires Valid()
      modifies this
      ensures Valid() && baseRows == old(baseRows)
      ensures RangeRefusal(securities, start, end).Some? ==>
        r == Err(RangeRefusal(securities, start, end).value) && cache == old(cache) && query == old(query)
      ensures r.Ok? ==>
        var buckets := Selected(calendar, duration, Range(start, end, grantStart));
        Rows(r.value) == Gather(stream, buckets, Members(securities))
      ensures r.Ok? ==> forall i, j :: 0 <= i < j < |r.value| ==>
        TimeThenSecurity(r.value[i], r.value[j])
      ensures !(start == grantStart && end == grantEnd && Members(securities) == universe) ==>
        cache == old(cache) && query == old(query)
      ensures r == Err(DataRestricted) <==>
        || (exists i, j :: 0 <= i < j < |securities| && securities[i] == securities[j])
        || (exists i :: 0 <= i < |securities| && securities[i] !in universe)
        || start < grantStart || end < start || grantEnd < end
      ensures r == Err(DataRestricted) ==> cache == old(cache) && query == old(query)
      ensures r.Ok? ==> forall e :: e in r.value <==>
        && e.security in securities
        && exists b :: b in Selected(calendar, duration, Range(start, end, grantStart)) && e in stream.bars(b)
      ensures r.Ok? ==> forall i, j :: 0 <= i < j < |r.value| ==>
        || r.value[i].time < r.value[j].time
        || (r.value[i].time == r.value[j].time && r.value[i].security != r.value[j].security)
    {
      var refusal := RangeRefusal(securities, start, end);
      if refusal.Some? { return Err(refusal.value); }
      var source := start == grantStart && end == grantEnd && Members(securities) == universe;
      var bs := Enumerate(calendar, duration, Range(start, end, grantStart), false);
      SelectedInOrder(calendar, duration, Range(start, end, grantStart));
      var rows: seq<Event> := [];
      for i := 0 to |bs|
        invariant Valid() && baseRows == old(baseRows)
        invariant Delivered(stream, bs, i, Members(securities), rows)
        invariant !source ==> cache == old(cache) && query == old(query)
      {
        var b := bs[i];
        SelectedMembers(calendar, duration, Range(start, end, grantStart), b);
        var t := BucketTable(b, Members(securities), source);
        if t.Err? { return Err(t.fault); }
        DeliveredStep(stream, bs, i, Members(securities), rows, t.value);
        rows := rows + t.value;
      }
      assert bs[..|bs|] == bs;
      DeliveredMembers(stream, bs, Members(securities), rows);
      r := Ok(rows);
    }
  }

  /** Rows of the first `i` buckets, oldest bucket first. */
  ghost predicate Delivered(stream: Stream, bs: seq<Bucket>, i: nat, securities: set<Security>, rows: seq<Event>) {
    && i <= |bs| && Rows(rows) == Gather(stream, bs[..i], securities)
    && (forall k, j :: 0 <= k < j < |rows| ==> TimeThenSecurity(rows[k], rows[j]))
  }

  lemma DeliveredMembers(stream: Stream, bs: seq<Bucket>, securities: set<Security>, rows: seq<Event>)
    requires Rows(rows) == Gather(stream, bs, securities)
    ensures forall e :: e in rows <==> e.security in securities && exists b :: b in bs && e in stream.bars(b)
  {
    forall e ensures e in rows <==> e.security in securities && exists b :: b in bs && e in stream.bars(b) {
      assert e in rows <==> e in Rows(rows);
      GatherMembers(stream, bs, securities, e);
    }
  }

  predicate TimeThenSecurity(a: Event, b: Event) {
    a.time < b.time || (a.time == b.time && a.security != b.security)
  }

  lemma DeliveredStep(
      stream: Stream, bs: seq<Bucket>, i: nat, securities: set<Security>, rows: seq<Event>, table: seq<Event>)
    requires Resampled(stream) && InOrder(bs) && i < |bs| && Delivered(stream, bs, i, securities, rows)
    requires Rows(table) == Wanted(stream.bars(bs[i]), securities) && OnePerSecurity(table)
    ensures Delivered(stream, bs, i + 1, securities, rows + table)
  {
    GatherStep(stream, bs, i, securities);
    assert Rows(rows + table) == Rows(rows) + Rows(table);
    assert BarsOf(bs[i], stream.bars(bs[i]));
    forall j | 0 <= j < |table| ensures table[j].time == bs[i].finish { assert table[j] in Rows(table); }
    forall k | 0 <= k < |rows| ensures rows[k].time < bs[i].finish {
      assert rows[k] in Rows(rows);
      GatherMembers(stream, bs[..i], securities, rows[k]);
      var b :| b in bs[..i] && rows[k] in stream.bars(b);
      assert BarsOf(b, stream.bars(b));
    }
    var all := rows + table;
    forall k, j | 0 <= k < j < |all| ensures TimeThenSecurity(all[k], all[j]) {
      if k >= |rows| { assert all[k] == table[k - |rows|] && all[j] == table[j - |rows|]; }
      else if j < |rows| { assert TimeThenSecurity(rows[k], rows[j]); }
    }
  }
}
