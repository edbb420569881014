/** The bounded count window of the data gateway: an incremental cache that reads only what is
    newer than its previous end and is compacted page by page. */
module Lookback {
  import opened Collections
  import opened RuntimeContracts
  import opened Events

  // ---------------------------------------------------------------- sorting a table

  datatype Order = SecurityFirst | TimeFirst

  predicate Precedes(order: Order, a: Event, b: Event) {
    if order.SecurityFirst? then BySecurity(a, b) else ByTime(a, b)
  }

  ghost predicate Sorted(order: Order, table: seq<Event>) {
    forall i, j :: 0 <= i < j < |table| ==> Precedes(order, table[i], table[j])
  }

  lemma SortedHasNoDup(order: Order, table: seq<Event>)
    requires Sorted(order, table)
    ensures NoDup(table)
  {
    forall i, j | 0 <= i < j < |table| ensures table[i] != table[j] { assert Precedes(order, table[i], table[j]); }
  }

  method First(order: Order, rows: set<Event>) returns (first: Event)
    requires Keyed(rows) && exists e :: e in rows
    ensures first in rows && forall x :: x in rows && x != first ==> Precedes(order, first, x)
  {
    first :| first in rows;
    var todo := rows - {first};
    while exists e :: e in todo
      invariant todo <= rows && first in rows && first !in todo
      invariant forall x :: x in rows && x !in todo && x != first ==> Precedes(order, first, x)
      decreases |todo|
    {
      var e :| e in todo;
      if Precedes(order, e, first) {
        forall x | x in rows && x !in todo && x != first ensures Precedes(order, e, x) { }
        first := e;
      }
      todo := todo - {e};
    }
  }

  /** The library sort: the rows of a set in one order. */
  method Arrange(order: Order, rows: set<Event>) returns (table: seq<Event>)
    requires Keyed(rows)
    ensures Sorted(order, table) && Rows(table) == rows
  {
    table := [];
    var rest := rows;
    while exists e :: e in rest
      invariant forall e :: e in rows <==> e in table || e in rest
      invariant Sorted(order, table)
      invariant forall e, x :: e in table && x in rest ==> Precedes(order, e, x)
      decreases |rest|
    {
      var first := First(order, rest);
      table := table + [first];
      rest := rest - {first};
    }
    assert Rows(table) == rows;
  }

  // ---------------------------------------------------------------- compaction

  /** Positions `start..end` are a maximal run of one security (seen from its start). */
  predicate IsRun(table: seq<Event>, start: nat, end: nat) {
    && start < end <= |table|
    && (forall i :: start <= i < end ==> table[i].security == table[start].security)
    && (end < |table| ==> table[end].security != table[start].security)
  }

  datatype Span = Span(start: nat, end: nat)

  /** `runs` splits the first `upto` positions into maximal runs, in order. */
  ghost predicate Splits(table: seq<Event>, runs: seq<Span>, upto: nat) {
    && (forall r :: 0 <= r < |runs| ==> IsRun(table, runs[r].start, runs[r].end))
    && (forall r :: 0 < r < |runs| ==> runs[r].start == runs[r - 1].end)
    && (if runs == [] then upto == 0 else runs[0].start == 0 && runs[|runs| - 1].end == upto)
  }

  /** Run-end encoding of the security column: starts and ends of its maximal runs. */
  method RunEnds(table: seq<Event>) returns (runs: seq<Span>)
    ensures Splits(table, runs, |table|)
  {
    runs := [];
    var i := 0;
    while i < |table|
      invariant 0 <= i <= |table| && Splits(table, runs, i)
    {
      var start := i;
      i := i + 1;
      while i < |table| && table[i].security == table[start].security
        invariant start < i <= |table|
        invariant forall k :: start <= k < i ==> table[k].security == table[start].security
      {
        i := i + 1;
      }
      runs := runs + [Span(start, i)];
    }
  }

  /** In a table sorted by security, the newer events of position `j` are exactly the rest of its run. */
  lemma AboveIsRestOfRun(table: seq<Event>, start: nat, j: nat, end: nat)
    requires Sorted(SecurityFirst, table) && IsRun(table, start, end) && start <= j < end
    ensures |Above(table[j], Rows(table))| == end - 1 - j
  {
    var e, rest := table[j], table[j + 1..end];
    forall x ensures x in Above(e, Rows(table)) <==> x in Rows(rest) {
      if x in Above(e, Rows(table)) {
        var i :| 0 <= i < |table| && table[i] == x;
        assert j < i by { assert i < j ==> Precedes(SecurityFirst, table[i], table[j]); }
        assert i < end by {
          assert end < |table| ==> Precedes(SecurityFirst, table[j], table[end]);
          assert end < i ==> Precedes(SecurityFirst, table[end], table[i]);
        }
        assert x == rest[i - j - 1];
      }
      if x in Rows(rest) {
        var i :| 0 <= i < |rest| && rest[i] == x;
        assert Precedes(SecurityFirst, table[j], table[j + 1 + i]);
      }
    }
    assert Above(e, Rows(table)) == Rows(rest);
    SortedHasNoDup(SecurityFirst, table);
    RowsSize(rest);
  }

  lemma RunTail(table: seq<Event>, start: nat, i: nat, end: nat, count: nat)
    requires Sorted(SecurityFirst, table) && IsRun(table, start, end) && start <= i < end
    ensures table[i] in Tail(count, Rows(table)) <==> i >= end - count
  {
    AboveIsRestOfRun(table, start, i, end);
    assert table[i] in Rows(table);
  }

  /** `kept` holds exactly the tail rows among the first `upto` positions. */
  ghost predicate KeptUpto(table: seq<Event>, kept: seq<Event>, upto: nat, count: nat) {
    && upto <= |table| && NoDup(kept)
    && (forall i :: 0 <= i < upto ==> (table[i] in kept <==> table[i] in Tail(count, Rows(table))))
    && (forall e :: e in kept ==> Before(table, e, upto))
  }

  ghost predicate Before(table: seq<Event>, e: Event, upto: nat) {
    exists i :: 0 <= i < upto <= |table| && table[i] == e
  }

  lemma SliceMembers(table: seq<Event>, lower: nat, end: nat)
    requires NoDup(table) && lower <= end <= |table|
    ensures NoDup(table[lower..end])
    ensures forall i :: 0 <= i < |table| ==> (table[i] in table[lower..end] <==> lower <= i < end)
  {
    var slice := table[lower..end];
    forall i | 0 <= i < |table| ensures table[i] in slice <==> lower <= i < end {
      if table[i] in slice { var j :| 0 <= j < |slice| && slice[j] == table[i]; assert table[lower + j] == table[i]; }
      if lower <= i < end { assert slice[i - lower] == table[i]; }
    }
  }

  lemma ConcatNoDup(a: seq<Event>, b: seq<Event>)
    requires NoDup(a) && NoDup(b) && forall e :: e in a ==> e !in b
    ensures NoDup(a + b)
  {
    forall i, j | 0 <= i < |a| && 0 <= j < |b| ensures a[i] != b[j] { assert a[i] in a && b[j] in b; }
  }

  lemma KeepOneRun(table: seq<Event>, kept: seq<Event>, start: nat, end: nat, count: nat)
    requires Sorted(SecurityFirst, table) && KeptUpto(table, kept, start, count) && IsRun(table, start, end)
    ensures var lower := if start > end - count then start else end - count;
      KeptUpto(table, kept + table[lower..end], end, count)
  {
    SortedHasNoDup(SecurityFirst, table);
    var lower := if start > end - count then start else end - count;
    var run := table[lower..end];
    SliceMembers(table, lower, end);
    ConcatNoDup(kept, run);
    forall i | 0 <= i < end ensures table[i] in kept + run <==> table[i] in Tail(count, Rows(table)) {
      if i >= start { RunTail(table, start, i, end, count); }
    }
  }

  /** Keeps the last `count` positions of every run of a sorted table: exactly the tail. */
  method KeepRunTails(table: seq<Event>, count: nat) returns (kept: seq<Event>)
    requires Sorted(SecurityFirst, table)
    ensures Rows(kept) == Tail(count, Rows(table)) && NoDup(kept)
  {
    var runs := RunEnds(table);
    kept := [];
    for r := 0 to |runs|
      invariant KeptUpto(table, kept, if r == 0 then 0 else runs[r - 1].end, count)
    {
      var start, end := runs[r].start, runs[r].end;
      KeepOneRun(table, kept, start, end, count);
      var lower := if start > end - count then start else end - count;
      kept := kept + table[lower..end];
    }
  }

  /** Sorts one table and keeps the newest `count` events of each security. With one security the
      last `count` rows are sliced off; with several, run ends select each security's tail. */
  method Compact(table: seq<Event>, count: nat, grouped: bool) returns (kept: seq<Event>)
    requires NoDup(table) && Keyed(Rows(table))
    requires !grouped ==> forall a, b :: a in table && b in table ==> a.security == b.security
    ensures Rows(kept) == Tail(count, Rows(table)) && NoDup(kept)
  {
    var sorted := Arrange(SecurityFirst, Rows(table));
    if grouped {
      kept := KeepRunTails(sorted, count);
    } else {
      var lower := if |sorted| > count then |sorted| - count else 0;
      kept := sorted[lower..];
      forall i, j | 0 <= i < j < |sorted| ensures sorted[i].security == sorted[j].security {
        assert sorted[i] in Rows(table) && sorted[j] in Rows(table);
      }
      SliceIsTail(sorted, lower, count);
    }
  }

  lemma SliceIsTail(sorted: seq<Event>, lower: nat, count: nat)
    requires Sorted(SecurityFirst, sorted) && lower == if |sorted| > count then |sorted| - count else 0
    requires forall i, j :: 0 <= i < j < |sorted| ==> sorted[i].security == sorted[j].security
    ensures Rows(sorted[lower..]) == Tail(count, Rows(sorted)) && NoDup(sorted[lower..])
  {
    if sorted != [] {
      KeepOneRun(sorted, [], 0, |sorted|, count);
      assert [] + sorted[lower..|sorted|] == sorted[lower..];
      KeptAll(sorted, sorted[lower..], count);
    } else {
      assert sorted[lower..] == [];
    }
  }

  lemma KeptAll(table: seq<Event>, kept: seq<Event>, count: nat)
    requires KeptUpto(table, kept, |table|, count)
    ensures Rows(kept) == Tail(count, Rows(table))
  {
    forall e | e in kept ensures e in Tail(count, Rows(table)) {
      assert Before(table, e, |table|);
    }
    forall e | e in Tail(count, Rows(table)) ensures e in kept {
      assert e in Rows(table);
      var i :| 0 <= i < |table| && table[i] == e;
    }
  }

  // ---------------------------------------------------------------- what a count window means

  function Window(store: set<Event>, securities: set<Security>, lower: int, upper: int): set<Event> {
    set e | e in store && e.security in securities && lower <= e.time <= upper
  }

  function Union(pages: seq<seq<Event>>): set<Event> {
    if pages == [] then {} else Union(pages[..|pages| - 1]) + Rows(pages[|pages| - 1])
  }

  lemma UnionStep(pages: seq<seq<Event>>, i: nat)
    requires i < |pages|
    ensures Union(pages[..i + 1]) == Union(pages[..i]) + Rows(pages[i])
  {
    assert pages[..i + 1][..i] == pages[..i];
  }

  /** Reading only the events after the previous end is enough: the longer old tail and any answer
      to the delta that holds the delta's own tail determine the tail of the whole window. */
  lemma DeltaRead(n: nat, m: nat, before: set<Event>, delta: set<Event>, read: set<Event>)
    requires n <= m && Keyed(before + delta) && Tail(n, delta) <= read <= delta
    ensures Tail(n, Tail(m, before) + read) == Tail(n, before + delta)
  {
    forall e | e in Tail(n, before + delta) ensures e in Tail(m, before) + read {
      if e in before { SubsetSize(Above(e, before), Above(e, before + delta)); }
      else { SubsetSize(Above(e, delta), Above(e, before + delta)); assert e in Tail(n, delta); }
    }
    TailSandwich(n, Tail(m, before) + read, before + delta);
  }

  /** A table that already has at most `n` rows in all needs no compaction. */
  lemma ShortTail(n: nat, m: nat, s: set<Event>)
    requires n <= m && Keyed(s) && |Tail(m, s)| <= n
    ensures Tail(m, s) == Tail(n, s)
  {
    var t := Tail(m, s);
    forall e | e in t ensures e in Tail(n, t) { SubsetSize(Above(e, t), t - {e}); }
    assert Tail(n, t) == t;
    assert s + {} == s && t + {} == t;
    TailExtend(n, m, s, {});
  }

  /** What an answer that holds the tail of `whole` in time order gives its reader: per security its newest
      rows, as many as there are up to `count`, in the order of the sorting columns. */
  lemma NewestPerSecurity(whole: set<Event>, count: nat, table: seq<Event>)
    requires Keyed(whole) && Rows(table) == Tail(count, whole) && Sorted(TimeFirst, table)
    ensures forall e :: e in table ==> e in whole
    ensures forall e :: e in whole ==>
      var all, got := set x | x in whole && x.security == e.security, set x | x in table && x.security == e.security;
      |got| == if |all| < count then |all| else count
    ensures forall kept, left ::
      kept in table && left in whole && left !in table && left.security == kept.security ==>
        Lexicographic([left.time, left.session, left.channel, left.sequence, left.stable],
                      [kept.time, kept.session, kept.channel, kept.sequence, kept.stable])
    ensures forall i, j :: 0 <= i < j < |table| ==>
      Lexicographic(
        [table[i].time, table[i].security.n, table[i].session, table[i].channel, table[i].sequence, table[i].stable],
        [table[j].time, table[j].security.n, table[j].session, table[j].channel, table[j].sequence, table[j].stable])
  {
    forall e | e in table ensures e in whole { assert e in Rows(table); }
    forall e | e in whole
      ensures
        var all, got := set x | x in whole && x.security == e.security, set x | x in table && x.security == e.security;
        |got| == if |all| < count then |all| else count
    {
      TailIsLast(count, whole, e.security);
      assert (set x | x in whole && x.security == e.security) == Of(e.security, whole);
      assert (set x | x in table && x.security == e.security) == Of(e.security, Tail(count, whole)) by {
        forall x ensures x in table <==> x in Rows(table) {}
      }
    }
    forall kept, left | kept in table && left in whole && left !in table && left.security == kept.security
      ensures Lexicographic([left.time, left.session, left.channel, left.sequence, left.stable],
                            [kept.time, kept.session, kept.channel, kept.sequence, kept.stable])
    {
      assert kept in Rows(table) && left !in Rows(table);
      TailIsLast(count, whole, left.security);
      LessByColumns(left, kept);
    }
    InColumnOrder(table);
  }

  lemma InColumnOrder(table: seq<Event>)
    requires Sorted(TimeFirst, table)
    ensures forall i, j :: 0 <= i < j < |table| ==>
      Lexicographic(
        [table[i].time, table[i].security.n, table[i].session, table[i].channel, table[i].sequence, table[i].stable],
        [table[j].time, table[j].security.n, table[j].session, table[j].channel, table[j].sequence, table[j].stable])
  {
    forall i, j | 0 <= i < j < |table|
      ensures Lexicographic(
        [table[i].time, table[i].security.n, table[i].session, table[i].channel, table[i].sequence, table[i].stable],
        [table[j].time, table[j].security.n, table[j].session, table[j].channel, table[j].sequence, table[j].stable])
    {
      assert Precedes(TimeFirst, table[i], table[j]);
      OrdersByColumns(table[i], table[j]);
    }
  }

  // ---------------------------------------------------------------- the gateway's window cache

  datatype Name = Name(n: int)

  /** One cached group: a binding and the securities read together. */
  datatype CacheKey = CacheKey(name: Name, securities: set<Security>)

  datatype Entry = Entry(end: int, table: seq<Event>, count: nat)

  /** Rows held by some of the cached groups. */
  ghost function Held(cache: map<CacheKey, Entry>, keys: set<CacheKey>): nat
    requires keys <= cache.Keys
  {
    if keys == {} then 0
    else var k :| k in keys; Held(cache, keys - {k}) + |cache[k].table|
  }

  lemma {:induction false} HeldRemove(cache: map<CacheKey, Entry>, keys: set<CacheKey>, k: CacheKey)
    requires keys <= cache.Keys && k in keys
    ensures Held(cache, keys) == Held(cache, keys - {k}) + |cache[k].table|
    decreases |keys|
  {
    var p :| p in keys && Held(cache, keys) == Held(cache, keys - {p}) + |cache[p].table|;
    if p != k {
      HeldRemove(cache, keys - {p}, k);
      HeldRemove(cache, keys - {k}, p);
      assert keys - {p} - {k} == keys - {k} - {p};
    }
  }

  lemma {:induction false} HeldFrame(a: map<CacheKey, Entry>, b: map<CacheKey, Entry>, keys: set<CacheKey>)
    requires keys <= a.Keys && keys <= b.Keys && forall k :: k in keys ==> a[k] == b[k]
    ensures Held(a, keys) == Held(b, keys)
    decreases |keys|
  {
    if k :| k in keys {
      HeldFrame(a, b, keys - {k});
      HeldRemove(a, keys, k);
      HeldRemove(b, keys, k);
    }
  }

  /** For any list of the cached groups, what is held is the sum of their table sizes. */
  lemma {:induction false} HeldIsSum(
      cache: map<CacheKey, Entry>, keys: set<CacheKey>, order: seq<CacheKey>, sizes: seq<int>)
    requires keys <= cache.Keys && (forall k :: k in keys <==> k in order) && NoDup(order)
    requires |sizes| == |order| && forall i :: 0 <= i < |order| ==> sizes[i] == |cache[order[i]].table|
    ensures Held(cache, keys) == Sum(sizes)
    decreases |order|
  {
    if order == [] {
      assert keys == {};
    } else {
      var first, rest := order[0], order[1..];
      assert order == [first] + rest;
      HeldIsSum(cache, keys - {first}, rest, sizes[1..]);
      HeldRemove(cache, keys, first);
    }
  }

  /** Pages of one read: disjoint, and together between the window's tail and the whole window. The
      store's count query returns the tail; the replay buffer returns the whole window. */
  ghost predicate PagesOf(pages: seq<seq<Event>>, window: set<Event>, count: nat) {
    && |pages| > 0
    && (forall i :: 0 <= i < |pages| ==> NoDup(pages[i]))
    && (forall i, e :: 0 <= i < |pages| && e in pages[i] ==> e !in Union(pages[..i]))
    && Tail(count, window) <= Union(pages) <= window
  }

  /** A count window over a known binding is refused for repeated or foreign securities, a count or
      an end out of range, or more rows than the cache may hold. */
  /** Rows of a window that hold its tail at least. */
  ghost predicate Between(count: nat, window: set<Event>, rows: set<Event>) {
    Tail(count, window) <= rows <= window
  }

  function CountRefusal(
      universe: set<Security>, grantStart: int, grantEnd: int, cacheRows: nat, securities: seq<Security>, end: int,
      count: int): Option<Fault>
  {
    if exists i, j :: 0 <= i < j < |securities| && securities[i] == securities[j] then Some(DataRestricted)
    else if exists x :: x in securities && x !in universe then Some(DataRestricted)
    else if !(1 <= count <= cacheRows) then Some(ResourceLimit)
    else if !(grantStart <= end <= grantEnd) then Some(DataRestricted)
    else if count * |securities| > cacheRows then Some(ResourceLimit)
    else None
  }

  class RunDataGateway {
    const stores: map<Name, set<Event>>
    const universe: set<Security>
    const grantStart: int
    const grantEnd: int
    const cacheRows: nat
    const cacheEntries: nat
    var cache: map<CacheKey, Entry>

    constructor (
        stores: map<Name, set<Event>>, universe: set<Security>, grantStart: int, grantEnd: int, cacheRows: nat,
        cacheEntries: nat)
      requires forall n :: n in stores ==> Keyed(stores[n])
      ensures Valid() && cache == map[]
      ensures this.stores == stores && this.universe == universe
      ensures this.grantStart == grantStart && this.grantEnd == grantEnd
      ensures this.cacheRows == cacheRows && this.cacheEntries == cacheEntries
    {
      this.stores, this.universe, this.grantStart, this.grantEnd := stores, universe, grantStart, grantEnd;
      this.cacheRows, this.cacheEntries := cacheRows, cacheEntries;
      cache := map[];
    }

    /** What a cached table is: the tail, of the length it was asked for, up to its end. */
    ghost predicate EntryOk(key: CacheKey, entry: Entry) {
      && key.name in stores && NoDup(entry.table) && grantStart <= entry.end
      && Rows(entry.table) == Tail(entry.count, Window(stores[key.name], key.securities, grantStart, entry.end))
    }

    ghost predicate Valid()
      reads this
    {
      && (forall n :: n in stores ==> Keyed(stores[n]))
      && (forall key :: key in cache ==> EntryOk(key, cache[key]))
      && Held(cache, cache.Keys) <= cacheRows
    }

    /** The rows of all cached groups but one. */
    method CountRows(except: CacheKey) returns (rows: nat)
      requires Valid()
      ensures rows == Held(cache, cache.Keys - {except})
    {
      rows := 0;
      var todo := cache.Keys - {except};
      ghost var done: set<CacheKey> := {};
      while exists k :: k in todo
        invariant done <= cache.Keys && todo <= cache.Keys && done !! todo
        invariant forall k :: k in cache ==> k == except || k in todo || k in done
        invariant except !in todo && except !in done
        invariant rows == Held(cache, done)
        decreases |todo|
      {
        var k :| k in todo;
        OneMoreHeld(cache, done, k);
        todo := todo - {k};
        done := done + {k};
        rows := rows + |cache[k].table|;
      }
      assert done == cache.Keys - {except};
    }

    static lemma OneMoreHeld(cache: map<CacheKey, Entry>, done: set<CacheKey>, k: CacheKey)
      requires done <= cache.Keys && k in cache && k !in done
      ensures Held(cache, done + {k}) == Held(cache, done) + |cache[k].table|
    {
      HeldRemove(cache, done + {k}, k);
      assert done + {k} - {k} == done;
    }

    /** Some paging of some admissible answer to one count query. */
    method Pages(
        name: Name, securities: set<Security>, lower: int, upper: int, count: nat)
      returns (pages: seq<seq<Event>>)
      requires Valid() && name in stores
      ensures PagesOf(pages, Window(stores[name], securities, lower, upper), count)
    {
      var window := Window(stores[name], securities, lower, upper);
      var whole: bool := *;
      var answer := if whole then window else Tail(count, window);
      var table := Arrange(TimeFirst, answer);
      SortedHasNoDup(TimeFirst, table);
      pages := [];
      var at := 0;
      while pages == [] || at < |table|
        invariant at <= |table| && Paged(pages, table, at)
        decreases pages == [], |table| - at
      {
        var next: nat := *;
        if !(at < next <= |table|) { next := |table|; }
        PagedStep(pages, table, at, next);
        pages := pages + [table[at..next]];
        at := next;
      }
      assert table[..at] == table;
    }

    /** One group of a window: previous tail, then every page of what is newer. */
    method ReadGroup(name: Name, securities: set<Security>, lower: int, end: int, count: nat, previous: seq<Event>)
      returns (joined: seq<Event>)
      requires Valid() && name in stores && lower <= end
      requires NoDup(previous)
      requires forall e :: e in previous ==> e in stores[name] && e.security in securities && e.time < lower
      ensures NoDup(joined)
      ensures exists read ::
        && Between(count, Window(stores[name], securities, lower, end), read)
        && Rows(joined) == Tail(count, Rows(previous) + read)
    {
      var pages := Pages(name, securities, lower, end, count);
      ghost var window := Window(stores[name], securities, lower, end);
      var grouped := |securities| > 1;
      joined := previous;
      for i := 0 to |pages|
        invariant NoDup(joined)
        invariant if i == 0 then joined == previous else Rows(joined) == Tail(count, Rows(previous) + Union(pages[..i]))
      {
        UnionStep(pages, i);
        UnionWithin(pages, i + 1);
        ghost var seen := Rows(previous) + Union(pages[..i]);
        assert Rows(joined) <= seen;
        assert Rows(joined + pages[i]) == Rows(joined) + Rows(pages[i]);
        forall e | e in joined ensures e !in pages[i] { assert e in seen; assert e in pages[i] ==> e in window; }
        ConcatNoDup(joined, pages[i]);
        assert seen + Rows(pages[i]) <= stores[name];
        if !grouped {
          forall e | e in joined + pages[i] ensures e.security in securities {
            if e in joined { assert e in seen; } else { assert e in window; }
          }
          OneSecurity(securities, joined + pages[i]);
        }
        joined := Compact(joined + pages[i], count, grouped);
        if i > 0 { TailExtend(count, count, seen, Rows(pages[i])); }
        assert Rows(previous) + Union(pages[..i + 1]) == seen + Rows(pages[i]);
        assert i == 0 ==> seen == Rows(previous);
      }
      assert pages[..|pages|] == pages;
    }

    /** What a request is refused for before anything is read. */
    function Refusal(name: Name, securities: seq<Security>, end: int, count: int): Option<Fault> {
      if name !in stores then Some(CapabilityUnavailable)
      else CountRefusal(universe, grantStart, grantEnd, cacheRows, securities, end, count)
    }

    /** The new table of one group: whole read, delta read, or the cached rows cut shorter. */
    method GroupTable(key: CacheKey, end: int, count: nat) returns (joined: seq<Event>)
      requires Valid() && key.name in stores && grantStart <= end
      ensures NoDup(joined)
      ensures Rows(joined) == Tail(count, Window(stores[key.name], key.securities, grantStart, end))
    {
      var lower, previous := grantStart, [];
      if key in cache && cache[key].end <= end && cache[key].count >= count {
        lower, previous := cache[key].end + 1, cache[key].table;
        assert EntryOk(key, cache[key]);
        assert forall e :: e in previous ==> e in Rows(previous);
      }
      if lower <= end {
        joined := ReadGroup(key.name, key.securities, lower, end, count, previous);
        ghost var read :| Between(count, Window(stores[key.name], key.securities, lower, end), read)
          && Rows(joined) == Tail(count, Rows(previous) + read);
        WholeAnswer(key, previous, lower, end, count, read);
      } else {
        joined := CutShorter(key, previous, count);
      }
    }

    /** The cached end is the requested end: nothing to read. */
    method CutShorter(key: CacheKey, previous: seq<Event>, count: nat) returns (joined: seq<Event>)
      requires Valid() && key in cache && previous == cache[key].table && cache[key].count >= count
      ensures NoDup(joined)
      ensures Rows(joined) == Tail(count, Window(stores[key.name], key.securities, grantStart, cache[key].end))
    {
      assert EntryOk(key, cache[key]);
      ghost var m, whole := cache[key].count, Window(stores[key.name], key.securities, grantStart, cache[key].end);
      joined := previous;
      assert forall e :: e in joined ==> e in Rows(joined);
      if |joined| > count {
        if |key.securities| <= 1 { OneSecurity(key.securities, joined); }
        joined := Compact(joined, count, |key.securities| > 1);
        assert whole + {} == whole && Tail(m, whole) + {} == Tail(m, whole);
        TailExtend(count, m, whole, {});
      } else {
        RowsSize(joined);
        ShortTail(count, m, whole);
      }
    }

    /** The bounded count window. Every answer that is not refused is, per security, the last `count`
        events in [grant start, end], whatever was asked before. Budgets may refuse at any point. */
    method LookbackWindow(name: Name, securities: seq<Security>, end: int, count: int) returns (r: Result<seq<Event>>)
      requires Valid()
      modifies this
      ensures Valid()
      ensures Refusal(name, securities, end, count).Some? ==>
        r == Err(Refusal(name, securities, end, count).value) && cache == old(cache)
      ensures r.Ok? ==> (name in stores && count > 0 && Sorted(TimeFirst, r.value)
        && Rows(r.value) == Tail(count, Window(stores[name], (set x | x in securities), grantStart, end)))
      ensures r.Ok? && securities != [] ==> (var key := CacheKey(name, set x | x in securities);
        key in cache && cache == old(cache)[key := cache[key]]
        && cache[key].end == end && cache[key].count == count && Rows(cache[key].table) == Rows(r.value))
      ensures r.Ok? && securities == [] ==> cache == old(cache)
      // what is asked of a request
      ensures r == Err(CapabilityUnavailable) <==> name !in stores
      ensures r == Err(DataRestricted) <==>
        && name in stores
        && ((exists i, j :: 0 <= i < j < |securities| && securities[i] == securities[j])
            || (exists i :: 0 <= i < |securities| && securities[i] !in universe)
            || (1 <= count <= cacheRows && (end < grantStart || grantEnd < end)))
      ensures r.Ok? ==>
        && name in stores
        && (forall i, j :: 0 <= i < j < |securities| ==> securities[i] != securities[j])
        && (forall i :: 0 <= i < |securities| ==> securities[i] in universe)
        && 1 <= count <= cacheRows && grantStart <= end <= grantEnd && count * |securities| <= cacheRows
      ensures r.Err? ==> r.fault in {CapabilityUnavailable, DataRestricted, ResourceLimit}
      ensures r.Err? && r.fault != ResourceLimit ==> cache == old(cache)
      ensures !(1 <= count <= cacheRows) || count * |securities| > cacheRows ==> cache == old(cache)
      ensures r.Err? ==> cache == old(cache) || cache == map[]
      // what is kept
      ensures r.Ok? ==> Held(cache, cache.Keys) <= cacheRows
      ensures r.Ok? && securities != [] ==>
        CacheKey(name, set x | x in securities) in old(cache) || |old(cache)| < cacheEntries
      // what it is answered
      ensures r.Ok? ==>
        var whole := set e | e in stores[name] && e.security in securities && grantStart <= e.time <= end;
        && (forall e :: e in r.value ==> e in whole)
        && (forall e :: e in whole ==>
              var all := set x | x in whole && x.security == e.security;
              var got := set x | x in r.value && x.security == e.security;
              |got| == if |all| < count then |all| else count)
        && forall kept, left ::
             kept in r.value && left in whole && left !in r.value && left.security == kept.security ==>
               Lexicographic([left.time, left.session, left.channel, left.sequence, left.stable],
                             [kept.time, kept.session, kept.channel, kept.sequence, kept.stable])
      ensures r.Ok? ==> forall i, j :: 0 <= i < j < |r.value| ==>
        var a, b := r.value[i], r.value[j];
        Lexicographic([a.time, a.security.n, a.session, a.channel, a.sequence, a.stable],
                      [b.time, b.security.n, b.session, b.channel, b.sequence, b.stable])
    {
      RefusedExactly(name, securities, end, count);
      r := TakeWindow(name, securities, end, count);
      if r.Ok? { AnswerByRows(name, securities, end, count, r.value); }
    }

    /** Whether a request is refused, and for what, field by field. */
    lemma RefusedExactly(name: Name, securities: seq<Security>, end: int, count: int)
      ensures var refusal := Refusal(name, securities, end, count);
        && (refusal == Some(CapabilityUnavailable) <==> name !in stores)
        && (refusal == Some(DataRestricted) <==>
              && name in stores
              && ((exists i, j :: 0 <= i < j < |securities| && securities[i] == securities[j])
                  || (exists i :: 0 <= i < |securities| && securities[i] !in universe)
                  || (1 <= count <= cacheRows && (end < grantStart || grantEnd < end))))
        && refusal in {None, Some(CapabilityUnavailable), Some(DataRestricted), Some(ResourceLimit)}
      ensures Refusal(name, securities, end, count) == None <==>
        && name in stores
        && (forall i, j :: 0 <= i < j < |securities| ==> securities[i] != securities[j])
        && (forall i :: 0 <= i < |securities| ==> securities[i] in universe)
        && 1 <= count <= cacheRows && grantStart <= end <= grantEnd && count * |securities| <= cacheRows
    {
    }

    /** The tail of a window in time order, row by row. */
    lemma AnswerByRows(name: Name, securities: seq<Security>, end: int, count: nat, table: seq<Event>)
      requires name in stores && Keyed(stores[name]) && Sorted(TimeFirst, table)
      requires Rows(table) == Tail(count, Window(stores[name], (set x | x in securities), grantStart, end))
      ensures
        var whole := set e | e in stores[name] && e.security in securities && grantStart <= e.time <= end;
        && (forall e :: e in table ==> e in whole)
        && (forall e :: e in whole ==>
              var all := set x | x in whole && x.security == e.security;
              var got := set x | x in table && x.security == e.security;
              |got| == if |all| < count then |all| else count)
        && forall kept, left ::
             kept in table && left in whole && left !in table && left.security == kept.security ==>
               Lexicographic([left.time, left.session, left.channel, left.sequence, left.stable],
                             [kept.time, kept.session, kept.channel, kept.sequence, kept.stable])
      ensures forall i, j :: 0 <= i < j < |table| ==>
        var a, b := table[i], table[j];
        Lexicographic([a.time, a.security.n, a.session, a.channel, a.sequence, a.stable],
                      [b.time, b.security.n, b.session, b.channel, b.sequence, b.stable])
    {
      var whole := Window(stores[name], (set x | x in securities), grantStart, end);
      NewestPerSecurity(whole, count, table);
      assert whole == set e | e in stores[name] && e.security in securities && grantStart <= e.time <= end;
    }

    /** Refusals, the group's new table, and the cache. */
    method TakeWindow(name: Name, securities: seq<Security>, end: int, count: int) returns (r: Result<seq<Event>>)
      requires Valid()
      modifies this
      ensures Valid()
      ensures Refusal(name, securities, end, count).Some? ==>
        r == Err(Refusal(name, securities, end, count).value) && cache == old(cache)
      ensures Refusal(name, securities, end, count).None? && r.Err? ==> r.fault == ResourceLimit && cache == map[]
      ensures r.Ok? ==> (name in stores && count > 0 && Sorted(TimeFirst, r.value)
        && Rows(r.value) == Tail(count, Window(stores[name], (set x | x in securities), grantStart, end)))
      ensures r.Ok? && securities != [] ==> (var key := CacheKey(name, set x | x in securities);
        && key in cache && cache == old(cache)[key := cache[key]]
        && cache[key].end == end && cache[key].count == count && Rows(cache[key].table) == Rows(r.value)
        && (key in old(cache) || |old(cache)| < cacheEntries))
      ensures r.Ok? && securities == [] ==> cache == old(cache)
    {
      var refusal := Refusal(name, securities, end, count);
      if refusal.Some? { return Err(refusal.value); }
      var group := set x | x in securities;
      if securities == [] {
        assert Window(stores[name], group, grantStart, end) == {};
        assert Rows([]) == {} && Tail(count, {}) == {};
        return Ok([]);
      }
      var key := CacheKey(name, group);
      if key !in cache && |cache| >= cacheEntries {
        cache := map[];
        return Err(ResourceLimit);
      }
      var joined := GroupTable(key, end, count);
      var others := CountRows(key);
      var overBytes: bool := *;
      if others + |joined| > cacheRows || overBytes {
        cache := map[];
        return Err(ResourceLimit);
      }
      StoreRows(cache, key, Entry(end, joined, count));
      cache := cache[key := Entry(end, joined, count)];
      var answer := Arrange(TimeFirst, Rows(joined));
      r := Ok(answer);
    }

    static lemma StoreRows(cache: map<CacheKey, Entry>, key: CacheKey, entry: Entry)
      ensures var after := cache[key := entry];
        Held(after, after.Keys) == Held(cache, cache.Keys - {key}) + |entry.table|
    {
      var after := cache[key := entry];
      HeldRemove(after, after.Keys, key);
      assert after.Keys - {key} == cache.Keys - {key};
      HeldFrame(after, cache, cache.Keys - {key});
    }

    /** The two ways to start: from nothing at the grant's start, or from a cached tail. */
    lemma WholeAnswer(key: CacheKey, previous: seq<Event>, lower: int, end: int, count: nat, read: set<Event>)
      requires Valid() && key.name in stores && lower <= end
      requires Between(count, Window(stores[key.name], key.securities, lower, end), read)
      requires (lower == grantStart && previous == [])
        || (key in cache && lower == cache[key].end + 1 && previous == cache[key].table && cache[key].count >= count)
      ensures Tail(count, Rows(previous) + read)
        == Tail(count, Window(stores[key.name], key.securities, grantStart, end))
    {
      var store := stores[key.name];
      var delta := Window(store, key.securities, lower, end);
      if lower == grantStart && previous == [] {
        assert Rows(previous) + read == read;
        TailSandwich(count, read, delta);
      } else {
        assert EntryOk(key, cache[key]);
        var before := Window(store, key.securities, grantStart, lower - 1);
        assert before + delta == Window(store, key.securities, grantStart, end);
        DeltaRead(count, cache[key].count, before, delta, read);
      }
    }
  }

  /** The first `at` rows of a table, cut into pages. */
  ghost predicate Paged(pages: seq<seq<Event>>, table: seq<Event>, at: nat) {
    && at <= |table|
    && Union(pages) == Rows(table[..at])
    && (forall i :: 0 <= i < |pages| ==> NoDup(pages[i]))
    && (forall i, e :: 0 <= i < |pages| && e in pages[i] ==> e !in Union(pages[..i]))
  }

  lemma PagedStep(pages: seq<seq<Event>>, table: seq<Event>, at: nat, next: nat)
    requires NoDup(table) && at <= next <= |table| && Paged(pages, table, at)
    ensures Paged(pages + [table[at..next]], table, next)
  {
    var page := table[at..next];
    var longer := pages + [page];
    assert longer[..|pages|] == pages;
    forall i | 0 <= i < |pages| ensures longer[..i] == pages[..i] {}
    assert table[..next] == table[..at] + page;
    assert Rows(table[..next]) == Rows(table[..at]) + Rows(page);
    forall e | e in page ensures e !in Rows(table[..at]) {
      SliceMembers(table, at, next);
      SliceMembers(table, 0, at);
      assert table[0..at] == table[..at];
    }
  }

  lemma {:induction false} UnionWithin(pages: seq<seq<Event>>, n: nat)
    requires n <= |pages|
    ensures Union(pages[..n]) <= Union(pages)
    decreases |pages| - n
  {
    if n < |pages| {
      UnionStep(pages, n);
      UnionWithin(pages, n + 1);
    } else {
      assert pages[..n] == pages;
    }
  }

  lemma OneSecurity(securities: set<Security>, table: seq<Event>)
    requires |securities| <= 1 && forall e :: e in table ==> e.security in securities
    ensures forall a, b :: a in table && b in table ==> a.security == b.security
  {
    forall a, b | a in table && b in table ensures a.security == b.security {
      if a.security != b.security { SubsetSize({a.security, b.security}, securities); }
    }
  }
}
