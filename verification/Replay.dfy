/** The replay buffer of the data gateway: the last rows of full-universe replay pages, used to
    answer windows that lie strictly inside it instead of reading the store again. */
module Replay {
  import opened Collections
  import opened RuntimeContracts
  import opened Events
  import opened Lookback

  datatype Field = Field(n: int)

  datatype Buffer = Buffer(name: Name, fields: set<Field>, table: seq<Event>)

  /** The rows of a table in a window, in table order. */
  function Select(table: seq<Event>, start: int, end: int, securities: set<Security>): seq<Event> {
    if table == [] then []
    else
      var e := table[|table| - 1];
      Select(table[..|table| - 1], start, end, securities)
      + if start <= e.time <= end && e.security in securities then [e] else []
  }

  function Trimmed(table: seq<Event>, limit: nat): seq<Event> {
    if |table| > limit then table[|table| - limit..] else table
  }

  /** What the buffer holds after one more page. */
  function Remembered(cached: Option<Buffer>, page: Buffer, limit: nat): Option<Buffer> {
    if page.table == [] then cached
    else
      var joined :=
        if cached.Some? && cached.value.name == page.name && cached.value.fields == page.fields
          && cached.value.table != [] && ByTime(cached.value.table[|cached.value.table| - 1], page.table[0])
        then cached.value.table + page.table
        else page.table;
      Some(page.(table := Trimmed(joined, limit)))
  }

  function Fed(cached: Option<Buffer>, pages: seq<Buffer>, limit: nat): Option<Buffer> {
    if pages == [] then cached
    else Remembered(Fed(cached, pages[..|pages| - 1], limit), pages[|pages| - 1], limit)
  }

  /** The buffered table, which is empty without a buffer. */
  function Table(cached: Option<Buffer>): seq<Event> {
    if cached.Some? then cached.value.table else []
  }

  /** Whether the buffer may answer: its binding, its columns, and strictly inside its times. */
  predicate Serves(cached: Option<Buffer>, name: Name, fields: set<Field>, start: int, end: int) {
    && cached.Some? && cached.value.name == name && fields <= cached.value.fields && cached.value.table != []
    && cached.value.table[0].time < start <= end < cached.value.table[|cached.value.table| - 1].time
  }

  /** The buffer holds rows of the same binding and columns, and its last one comes before `next`. */
  predicate Continues(cached: Option<Buffer>, name: Name, fields: set<Field>, next: Event) {
    && cached.Some? && cached.value.name == name && cached.value.fields == fields && cached.value.table != []
    && var last := cached.value.table[|cached.value.table| - 1];
    Lexicographic([last.time, last.security.n, last.session, last.channel, last.sequence, last.stable],
                  [next.time, next.security.n, next.session, next.channel, next.sequence, next.stable])
  }

  /** A page that continues the buffer is appended, any other begins anew; the last rows stay. */
  lemma RememberedExactly(
      cached: Option<Buffer>, name: Name, fields: set<Field>, page: seq<Event>, limit: nat)
    requires page != []
    ensures var joined := if Continues(cached, name, fields, page[0]) then cached.value.table + page else page;
      Remembered(cached, Buffer(name, fields, page), limit)
      == Some(Buffer(name, fields, joined[(if |joined| > limit then |joined| - limit else 0)..]))
  {
    if cached.Some? && cached.value.table != [] {
      OrdersByColumns(cached.value.table[|cached.value.table| - 1], page[0]);
    }
    var joined := if Continues(cached, name, fields, page[0]) then cached.value.table + page else page;
    assert joined[0..] == joined;
  }

  // ---------------------------------------------------------------- the buffer object

  class ReplayBuffer {
    const limit: nat
    var cached: Option<Buffer>

    constructor (limit: nat)
      ensures this.limit == limit && cached == None
    {
      this.limit := limit;
      cached := None;
    }

    /** Appends a page that continues the buffer, or begins anew with it. A table in time order stays in
        time order, and the last rows of the page are always kept. */
    method Remember(name: Name, fields: set<Field>, page: seq<Event>)
      modifies this
      ensures cached == Remembered(old(cached), Buffer(name, fields, page), limit)
      ensures Sorted(TimeFirst, Table(old(cached))) && Sorted(TimeFirst, page) ==> Sorted(TimeFirst, Table(cached))
      ensures forall e :: e in Table(cached) ==> e in Table(old(cached)) || e in page
      ensures page != [] && limit > 0 ==> |Table(cached)| > 0 && Table(cached)[|Table(cached)| - 1] == page[|page| - 1]
      ensures page == [] ==> cached == old(cached)
      ensures page != [] ==>
        && cached.Some? && cached.value.name == name && cached.value.fields == fields
        && var joined := if Continues(old(cached), name, fields, page[0]) then old(cached).value.table + page else page;
        cached.value.table == joined[(if |joined| > limit then |joined| - limit else 0)..]
    {
      if page != [] { RememberedExactly(cached, name, fields, page, limit); }
      RememberKeepsOrder(cached, Buffer(name, fields, page), limit);
      Append(name, fields, page);
    }

    method Append(name: Name, fields: set<Field>, page: seq<Event>)
      modifies this
      ensures cached == Remembered(old(cached), Buffer(name, fields, page), limit)
    {
      if page == [] { return; }
      var table := page;
      if cached.Some? && cached.value.name == name && cached.value.fields == fields && cached.value.table != []
         && ByTime(cached.value.table[|cached.value.table| - 1], page[0]) {
        table := cached.value.table + page;
      }
      if |table| > limit {
        table := table[|table| - limit..];
      }
      cached := Some(Buffer(name, fields, table));
    }

    /** None means the store has to be read. */
    method Answer(name: Name, fields: set<Field>, securities: set<Security>, start: int, end: int)
      returns (r: Option<seq<Event>>)
      ensures r.Some? <==> Serves(cached, name, fields, start, end)
      ensures r.Some? ==> r.value == Select(cached.value.table, start, end, securities)
      ensures r.Some? <==>
        && cached.Some? && cached.value.name == name && fields <= cached.value.fields && cached.value.table != []
        && cached.value.table[0].time < start && start <= end
        && end < cached.value.table[|cached.value.table| - 1].time
      ensures r.Some? ==>
        forall e :: e in r.value <==> e in cached.value.table && start <= e.time <= end && e.security in securities
      ensures r.Some? && Sorted(TimeFirst, cached.value.table) ==> forall i, j :: 0 <= i < j < |r.value| ==>
        var a, b := r.value[i], r.value[j];
        Lexicographic([a.time, a.security.n, a.session, a.channel, a.sequence, a.stable],
                      [b.time, b.security.n, b.session, b.channel, b.sequence, b.stable])
    {
      if !Serves(cached, name, fields, start, end) { return None; }
      var table := cached.value.table;
      var rows := [];
      for i := 0 to |table|
        invariant rows == Select(table[..i], start, end, securities)
      {
        assert table[..i + 1][..i] == table[..i];
        if start <= table[i].time <= end && table[i].security in securities {
          rows := rows + [table[i]];
        }
      }
      assert table[..|table|] == table;
      forall e ensures e in rows <==> e in table && start <= e.time <= end && e.security in securities {
        SelectMember(table, start, end, securities, e);
      }
      if Sorted(TimeFirst, table) {
        SelectSorted(table, start, end, securities);
        InColumnOrder(rows);
      }
      r := Some(rows);
    }
  }

  // ---------------------------------------------------------------- selection

  lemma {:induction false} SelectConcat(a: seq<Event>, b: seq<Event>, start: int, end: int, securities: set<Security>)
    ensures Select(a + b, start, end, securities)
      == Select(a, start, end, securities) + Select(b, start, end, securities)
    decreases |b|
  {
    if b == [] {
      assert a + b == a;
    } else {
      var front := b[..|b| - 1];
      assert (a + b)[..|a + b| - 1] == a + front;
      SelectConcat(a, front, start, end, securities);
    }
  }

  lemma {:induction false} SelectNone(a: seq<Event>, start: int, end: int, securities: set<Security>)
    requires forall e :: e in a ==> !(start <= e.time <= end)
    ensures Select(a, start, end, securities) == []
    decreases |a|
  {
    if a != [] { SelectNone(a[..|a| - 1], start, end, securities); }
  }

  lemma {:induction false} SelectMember(a: seq<Event>, start: int, end: int, securities: set<Security>, e: Event)
    ensures e in Select(a, start, end, securities) <==> e in a && start <= e.time <= end && e.security in securities
    decreases |a|
  {
    if a != [] {
      SelectMember(a[..|a| - 1], start, end, securities, e);
      assert a == a[..|a| - 1] + [a[|a| - 1]];
    }
  }

  lemma NothingBefore(full: seq<Event>, i: nat, start: int, end: int, securities: set<Security>)
    requires Sorted(TimeFirst, full) && i < |full| && full[i].time < start
    ensures Select(full[..i], start, end, securities) == []
  {
    forall e | e in full[..i] ensures e.time < start {
      var k :| 0 <= k < i && full[k] == e;
    }
    SelectNone(full[..i], start, end, securities);
  }

  lemma NothingAfter(full: seq<Event>, j: nat, start: int, end: int, securities: set<Security>)
    requires Sorted(TimeFirst, full) && 0 < j <= |full| && end < full[j - 1].time
    ensures Select(full[j..], start, end, securities) == []
  {
    forall e | e in full[j..] ensures e.time > end {
      var k :| j <= k < |full| && full[k] == e;
    }
    SelectNone(full[j..], start, end, securities);
  }

  /** Cutting a sorted table to a contiguous piece keeps every window strictly inside the piece's
      times, whatever rows of equal time were cut off at either edge. */
  lemma InteriorExact(full: seq<Event>, i: nat, j: nat, start: int, end: int, securities: set<Security>)
    requires Sorted(TimeFirst, full) && i < j <= |full|
    requires full[i].time < start <= end < full[j - 1].time
    ensures Select(full[i..j], start, end, securities) == Select(full, start, end, securities)
  {
    NothingBefore(full, i, start, end, securities);
    NothingAfter(full, j, start, end, securities);
    assert full == full[..i] + full[i..];
    assert full[i..] == full[i..j] + full[j..];
    SelectConcat(full[..i], full[i..], start, end, securities);
    SelectConcat(full[i..j], full[j..], start, end, securities);
  }

  // ---------------------------------------------------------------- one forward replay

  ghost predicate IsPiece(page: Buffer, full: seq<Event>, name: Name, fields: set<Field>, from: nat, to: nat) {
    from <= to <= |full| && page == Buffer(name, fields, full[from..to])
  }

  /** Pages of one forward replay: consecutive pieces `cuts[k]..cuts[k+1]` of the replay's rows. */
  ghost predicate ForwardReplay(
      pages: seq<Buffer>, full: seq<Event>, name: Name, fields: set<Field>, cuts: seq<nat>)
  {
    && |cuts| == |pages| + 1 && cuts[0] <= |full|
    && (forall k :: 0 <= k < |pages| ==> IsPiece(pages[k], full, name, fields, cuts[k], cuts[k + 1]))
  }

  function Floor(from: nat, at: nat, limit: nat): nat
    requires from <= at
  {
    if at - from > limit then at - limit else from
  }

  /** At most `limit` rows, ending at `at`, of a replay that began at `from`. */
  ghost function Piece(
      full: seq<Event>, name: Name, fields: set<Field>, from: nat, at: nat, limit: nat): Option<Buffer>
    requires from <= at <= |full|
  {
    if from == at then None else Some(Buffer(name, fields, full[Floor(from, at, limit)..at]))
  }

  lemma JoinPiece(full: seq<Event>, i: nat, at: nat, to: nat)
    requires Sorted(TimeFirst, full) && i < at < to <= |full|
    ensures full[i..at] + full[at..to] == full[i..to]
    ensures ByTime(full[i..at][|full[i..at]| - 1], full[at..to][0])
  {
    assert Precedes(TimeFirst, full[at - 1], full[at]);
  }

  lemma RememberPiece(full: seq<Event>, name: Name, fields: set<Field>, from: nat, at: nat, to: nat, limit: nat)
    requires Sorted(TimeFirst, full) && from <= at <= to <= |full| && limit > 0
    ensures Remembered(Piece(full, name, fields, from, at, limit), Buffer(name, fields, full[at..to]), limit)
         == Piece(full, name, fields, from, to, limit)
  {
    if from < at < to {
      var i := Floor(from, at, limit);
      JoinPiece(full, i, at, to);
      assert Floor(i, to, limit) == Floor(from, to, limit);
    } else if at < to {
    } else {
      assert full[at..to] == [];
    }
  }

  /** After any forward replay from an empty buffer, the buffer is the contiguous piece of at most
      `limit` rows that ends where the replay stands. */
  lemma {:induction false} FedIsContiguous(
      pages: seq<Buffer>, full: seq<Event>, name: Name, fields: set<Field>, cuts: seq<nat>, limit: nat)
    requires Sorted(TimeFirst, full) && ForwardReplay(pages, full, name, fields, cuts) && limit > 0
    ensures cuts[0] <= cuts[|pages|] <= |full|
    ensures Fed(None, pages, limit) == Piece(full, name, fields, cuts[0], cuts[|pages|], limit)
    decreases |pages|
  {
    if pages != [] {
      var n := |pages| - 1;
      assert IsPiece(pages[n], full, name, fields, cuts[n], cuts[n + 1]);
      forall k | 0 <= k < n
        ensures IsPiece(pages[..n][k], full, name, fields, cuts[..n + 1][k], cuts[..n + 1][k + 1])
      {
        assert IsPiece(pages[k], full, name, fields, cuts[k], cuts[k + 1]);
      }
      FedIsContiguous(pages[..n], full, name, fields, cuts[..n + 1], limit);
      RememberPiece(full, name, fields, cuts[0], cuts[n], cuts[n + 1], limit);
    }
  }

  /** Fed by one forward replay, the trimmed buffer answers every window strictly inside its first
      and last times with exactly the rows of the store, for any securities. */
  lemma ReplayAnswersExactly(
      pages: seq<Buffer>, full: seq<Event>, name: Name, fields: set<Field>, cuts: seq<nat>, limit: nat,
      wanted: set<Field>, start: int, end: int, securities: set<Security>)
    requires Sorted(TimeFirst, full) && ForwardReplay(pages, full, name, fields, cuts) && limit > 0
    requires Serves(Fed(None, pages, limit), name, wanted, start, end)
    ensures Select(Fed(None, pages, limit).value.table, start, end, securities) == Select(full, start, end, securities)
  {
    FedIsContiguous(pages, full, name, fields, cuts, limit);
    PieceAnswers(full, name, fields, cuts[0], cuts[|pages|], limit, wanted, start, end, securities);
  }

  lemma PieceAnswers(
      full: seq<Event>, name: Name, fields: set<Field>, from: nat, at: nat, limit: nat,
      wanted: set<Field>, start: int, end: int, securities: set<Security>)
    requires Sorted(TimeFirst, full) && from <= at <= |full| && limit > 0
    requires Serves(Piece(full, name, fields, from, at, limit), name, wanted, start, end)
    ensures Select(Piece(full, name, fields, from, at, limit).value.table, start, end, securities)
      == Select(full, start, end, securities)
  {
    var i := Floor(from, at, limit);
    assert full[i..at][0] == full[i] && full[i..at][at - i - 1] == full[at - 1];
    InteriorExact(full, i, at, start, end, securities);
  }

  // ---------------------------------------------------------------- any pages

  /** What one more page keeps of a buffer, whatever it is. */
  lemma RememberKeepsOrder(cached: Option<Buffer>, page: Buffer, limit: nat)
    ensures var now := Table(Remembered(cached, page, limit));
      && (Sorted(TimeFirst, Table(cached)) && Sorted(TimeFirst, page.table) ==> Sorted(TimeFirst, now))
      && (forall e :: e in now ==> e in Table(cached) || e in page.table)
      && (page.table != [] && limit > 0 ==> |now| > 0 && now[|now| - 1] == page.table[|page.table| - 1])
  {
    var before, now := Table(cached), Table(Remembered(cached, page, limit));
    if page.table != [] && before != [] && Sorted(TimeFirst, before) && Sorted(TimeFirst, page.table)
       && ByTime(before[|before| - 1], page.table[0]) {
      JoinSorted(before, page.table);
    }
  }

  lemma JoinSorted(a: seq<Event>, b: seq<Event>)
    requires Sorted(TimeFirst, a) && Sorted(TimeFirst, b) && a != [] && b != [] && ByTime(a[|a| - 1], b[0])
    ensures Sorted(TimeFirst, a + b)
  {
    forall i, j | 0 <= i < j < |a + b| ensures Precedes(TimeFirst, (a + b)[i], (a + b)[j]) {
      if i < |a| <= j {
        assert i < |a| - 1 ==> Precedes(TimeFirst, a[i], a[|a| - 1]);
        assert 0 < j - |a| ==> Precedes(TimeFirst, b[0], b[j - |a|]);
      }
    }
  }

  /** A page of store rows, in time order: what any read of the store delivers. */
  ghost predicate IsRead(page: Buffer, full: seq<Event>) {
    Sorted(TimeFirst, page.table) && forall e :: e in page.table ==> e in full
  }

  lemma {:induction false} FedIsSorted(pages: seq<Buffer>, full: seq<Event>, limit: nat)
    requires forall k :: 0 <= k < |pages| ==> IsRead(pages[k], full)
    ensures var table := Table(Fed(None, pages, limit));
      Sorted(TimeFirst, table) && forall e :: e in table ==> e in full
    decreases |pages|
  {
    if pages != [] {
      var front := pages[..|pages| - 1];
      FedIsSorted(front, full, limit);
      assert IsRead(pages[|pages| - 1], full);
      RememberKeepsOrder(Fed(None, front, limit), pages[|pages| - 1], limit);
    }
  }

  /** The buffer is right about every window it would serve. */
  ghost predicate Exact(table: seq<Event>, full: seq<Event>) {
    table != [] ==>
      forall start, end, securities :: table[0].time < start <= end < table[|table| - 1].time ==>
        Select(table, start, end, securities) == Select(full, start, end, securities)
  }

  /** No row of the store strictly between the buffer's first and last times is missing from it. */
  ghost predicate Gapless(table: seq<Event>, full: seq<Event>) {
    table != [] ==> forall e :: e in full && table[0].time < e.time < table[|table| - 1].time ==> e in table
  }

  lemma {:induction false} SelectSorted(table: seq<Event>, start: int, end: int, securities: set<Security>)
    requires Sorted(TimeFirst, table)
    ensures Sorted(TimeFirst, Select(table, start, end, securities))
    decreases |table|
  {
    if table != [] {
      var front, e := table[..|table| - 1], table[|table| - 1];
      var before := Select(front, start, end, securities);
      SelectSorted(front, start, end, securities);
      forall i | 0 <= i < |before| ensures Precedes(TimeFirst, before[i], e) {
        SelectMember(front, start, end, securities, before[i]);
        var k :| 0 <= k < |front| && front[k] == before[i];
        assert Precedes(TimeFirst, table[k], table[|table| - 1]);
      }
    }
  }

  /** Two tables in time order with the same rows are the same table. */
  lemma {:induction false} SortedIsUnique(a: seq<Event>, b: seq<Event>)
    requires Sorted(TimeFirst, a) && Sorted(TimeFirst, b)
    requires forall e :: e in a <==> e in b
    ensures a == b
    decreases |a|
  {
    if a != [] && b != [] {
      FirstIsFirst(a, b);
      TailsAgree(a, b);
      SortedIsUnique(a[1..], b[1..]);
      assert a == [a[0]] + a[1..] && b == [b[0]] + b[1..];
    } else {
      HasMember(a + b);
    }
  }

  lemma HasMember(a: seq<Event>)
    ensures a == [] || exists e :: e in a
  {
    if a != [] { assert a[0] in a; }
  }

  lemma FirstPrecedes(a: seq<Event>, e: Event)
    requires Sorted(TimeFirst, a) && e in a
    ensures e == a[0] || ByTime(a[0], e)
  {
    var i :| 0 <= i < |a| && a[i] == e;
    if i > 0 { assert Precedes(TimeFirst, a[0], a[i]); }
  }

  lemma FirstIsFirst(a: seq<Event>, b: seq<Event>)
    requires Sorted(TimeFirst, a) && Sorted(TimeFirst, b) && a != [] && b != []
    requires forall e :: e in a <==> e in b
    ensures a[0] == b[0]
  {
    assert a[0] in b && b[0] in a;
    FirstPrecedes(a, b[0]);
    FirstPrecedes(b, a[0]);
  }

  lemma TailsAgree(a: seq<Event>, b: seq<Event>)
    requires Sorted(TimeFirst, a) && Sorted(TimeFirst, b) && a != [] && b != [] && a[0] == b[0]
    requires forall e :: e in a <==> e in b
    ensures forall e :: e in a[1..] <==> e in b[1..]
  {
    SortedHasNoDup(TimeFirst, a);
    SortedHasNoDup(TimeFirst, b);
    forall e ensures e in a[1..] <==> e in a && e != a[0] {
      assert a == [a[0]] + a[1..];
    }
    forall e ensures e in b[1..] <==> e in b && e != b[0] {
      assert b == [b[0]] + b[1..];
    }
  }

  lemma GaplessAnswers(table: seq<Event>, full: seq<Event>, start: int, end: int, securities: set<Security>)
    requires Sorted(TimeFirst, full) && Sorted(TimeFirst, table) && table != []
    requires forall e :: e in table ==> e in full
    requires Gapless(table, full) && table[0].time < start <= end < table[|table| - 1].time
    ensures Select(table, start, end, securities) == Select(full, start, end, securities)
  {
    SelectSorted(table, start, end, securities);
    SelectSorted(full, start, end, securities);
    forall e ensures e in Select(table, start, end, securities) <==> e in Select(full, start, end, securities) {
      SelectMember(table, start, end, securities, e);
      SelectMember(full, start, end, securities, e);
    }
    SortedIsUnique(Select(table, start, end, securities), Select(full, start, end, securities));
  }

  lemma ExactIsGapless(table: seq<Event>, full: seq<Event>, e: Event)
    requires Exact(table, full) && table != [] && e in full && table[0].time < e.time < table[|table| - 1].time
    ensures e in table
  {
    SelectMember(full, e.time, e.time, {e.security}, e);
    SelectMember(table, e.time, e.time, {e.security}, e);
    assert Select(table, e.time, e.time, {e.security}) == Select(full, e.time, e.time, {e.security});
  }

  /** Fed with any pages of any reads, in any order and however trimmed, the buffer is right about every
      window it would serve exactly when no row of the store strictly between its first and last times
      is missing from it. */
  lemma ExactWhenGapless(pages: seq<Buffer>, full: seq<Event>, limit: nat)
    requires Sorted(TimeFirst, full) && forall k :: 0 <= k < |pages| ==> IsRead(pages[k], full)
    ensures var table := Table(Fed(None, pages, limit)); Exact(table, full) <==> Gapless(table, full)
  {
    var table := Table(Fed(None, pages, limit));
    FedIsSorted(pages, full, limit);
    if Exact(table, full) && table != [] {
      forall e | e in full && table[0].time < e.time < table[|table| - 1].time ensures e in table {
        ExactIsGapless(table, full, e);
      }
    }
    if Gapless(table, full) && table != [] {
      forall start, end, securities | table[0].time < start <= end < table[|table| - 1].time
        ensures Select(table, start, end, securities) == Select(full, start, end, securities)
      {
        GaplessAnswers(table, full, start, end, securities);
      }
    }
  }

  lemma FedThrice(a: Buffer, b: Buffer, c: Buffer, limit: nat)
    ensures Fed(None, [a, b, c], limit) == Remembered(Remembered(Remembered(None, a, limit), b, limit), c, limit)
  {
    assert [a, b, c][..2] == [a, b] && [a, b][..1] == [a] && [a][..0] == [];
    assert Fed(None, [a], limit) == Remembered(None, a, limit);
    assert Fed(None, [a, b], limit) == Remembered(Fed(None, [a], limit), b, limit);
  }

  /** A second full-universe read between two replay pages breaks the buffer: the replay has
      delivered rows 0 and 1, a query re-reads row 0, the replay goes on with rows 2 and 3. */
  lemma InterleavedReadLosesRows(name: Name, fields: set<Field>)
    ensures exists full, pages, start, end, securities ::
      && Sorted(TimeFirst, full) && |full| == 4
      && pages == [
        Buffer(name, fields, full[0..2]), Buffer(name, fields, full[0..1]), Buffer(name, fields, full[2..4])]
      && Serves(Fed(None, pages, 10), name, fields, start, end)
      && Select(Fed(None, pages, 10).value.table, start, end, securities) != Select(full, start, end, securities)
  {
    var s := Security(0);
    var full := [
      Event(s, 0, 0, 0, 0, 0, 0), Event(s, 1, 0, 0, 0, 0, 0),
      Event(s, 2, 0, 0, 0, 0, 0), Event(s, 3, 0, 0, 0, 0, 0)];
    var first, again := Buffer(name, fields, full[0..2]), Buffer(name, fields, full[0..1]);
    var rest := Buffer(name, fields, full[2..4]);
    FedThrice(first, again, rest, 10);
    assert Remembered(None, first, 10) == Some(first) && Remembered(Some(first), again, 10) == Some(again);
    var table := full[0..1] + full[2..4];
    assert Fed(None, [first, again, rest], 10) == Some(Buffer(name, fields, table));
    SelectMember(table, 1, 1, {s}, full[1]);
    SelectMember(full, 1, 1, {s}, full[1]);
    assert full[1] !in table;
  }
}
