/** Keyset pagination of the run list, cut short by a byte budget. */
module Listing {
  import opened Collections
  import opened RuntimeContracts

  /** A listed run: its creation time, its identity, and the encoded size of its summary. */
  datatype Run = Run(created: int, id: int, bytes: nat)

  datatype Key = Key(created: int, id: int)

  function KeyOf(r: Run): Key {
    Key(r.created, r.id)
  }

  function Keys(runs: seq<Run>): seq<Key> {
    seq(|runs|, i requires 0 <= i < |runs| => KeyOf(runs[i]))
  }

  /** created_at first, then id. */
  predicate Older(a: Key, b: Key) {
    a.created < b.created || (a.created == b.created && a.id < b.id)
  }

  /** The rows of the filter in the order of the query. Times and identities together are distinct, also
      across the two tables that are listed as one. */
  ghost predicate Descending(db: seq<Run>) {
    forall i, j :: 0 <= i < j < |db| ==> Older(KeyOf(db[j]), KeyOf(db[i]))
  }

  /** The rows after a cursor. */
  function Below(db: seq<Run>, cursor: Option<Key>): seq<Run> {
    if cursor.None? then db
    else if db == [] then []
    else (if Older(KeyOf(db[0]), cursor.value) then [db[0]] else []) + Below(db[1..], cursor)
  }

  datatype Page = Page(items: seq<Run>, next: Option<Key>)

  const ENVELOPE := 16 * 1024
  const BUDGET := 1024 * 1024

  function Bytes(items: seq<Run>): nat {
    if items == [] then 0 else Bytes(items[..|items| - 1]) + items[|items| - 1].bytes + 1
  }

  /** One page: as many of the first `limit` rows as fit the budget, and a cursor if rows are left. */
  ghost predicate IsPage(db: seq<Run>, limit: nat, cursor: Option<Key>, page: Page) {
    var rows := Below(db, cursor);
    && |page.items| <= Min(limit, |rows|) && page.items == rows[..|page.items|]
    && (rows != [] ==> page.items != [])
    && (page.items != [] ==> ENVELOPE + Bytes(page.items) - 1 <= BUDGET)
    && (|page.items| < Min(limit, |rows|) ==> ENVELOPE + Bytes(page.items) + rows[|page.items|].bytes > BUDGET)
    && page.next == if |page.items| < |rows| then Some(KeyOf(page.items[|page.items| - 1])) else None
  }

  // ---------------------------------------------------------------- a page, run by run

  predicate Newer(a: Run, b: Run) {
    b.created < a.created || (b.created == a.created && b.id < a.id)
  }

  ghost predicate NewestFirst(runs: seq<Run>) {
    forall i, j :: 0 <= i < j < |runs| ==> Newer(runs[i], runs[j])
  }

  /** A row below the cursor that is not shown: created before the cursor, or at the same time with a smaller
      identity. */
  predicate Left(db: seq<Run>, cursor: Option<Key>, items: seq<Run>, r: Run) {
    && r in db && r !in items
    && (cursor.Some? ==>
          r.created < cursor.value.created || (r.created == cursor.value.created && r.id < cursor.value.id))
  }

  ghost predicate NewestLeft(db: seq<Run>, cursor: Option<Key>, items: seq<Run>, first: Run) {
    Left(db, cursor, items, first) && forall r :: Left(db, cursor, items, r) ==> r == first || Newer(first, r)
  }

  function Sizes(items: seq<Run>): (r: seq<int>)
    ensures |r| == |items| && forall i :: 0 <= i < |r| ==> r[i] == items[i].bytes
  {
    seq(|items|, i requires 0 <= i < |items| => items[i].bytes)
  }

  lemma {:induction false} BytesAreSum(items: seq<Run>)
    ensures Bytes(items) == Sum(Sizes(items)) + |items|
    decreases |items|
  {
    if items != [] {
      var front, last := items[..|items| - 1], items[|items| - 1];
      BytesAreSum(front);
      assert Sizes(items) == Sizes(front) + [last.bytes as int];
      SumAppend(Sizes(front), last.bytes);
    }
  }

  /** A page holds rows of the table that lie below the cursor, newest first, at most `limit` of them and none
      left out before another; with a byte between them and 16 KiB for the envelope they are within 1 MiB.
      When fewer than `limit` are shown although rows are left, the next one would not have fitted. There is
      a cursor, the key of the last row shown, exactly when rows are left. */
  ghost predicate PageSays(db: seq<Run>, limit: nat, cursor: Option<Key>, page: Page) {
    && NewestFirst(page.items) && |page.items| <= limit
    && (forall r :: r in page.items ==> Left(db, cursor, [], r))
    && (forall r, x :: Left(db, cursor, page.items, r) && x in page.items ==> Newer(x, r))
    && (page.items != [] ==> 16384 + Sum(Sizes(page.items)) + |page.items| - 1 <= 1048576)
    && (forall r :: NewestLeft(db, cursor, page.items, r) && |page.items| < limit ==>
          16384 + Sum(Sizes(page.items)) + |page.items| + r.bytes > 1048576)
    && (page.next.Some? <==> exists r :: NewestLeft(db, cursor, page.items, r))
    && (page.next.None? <==> forall r :: !Left(db, cursor, page.items, r))
    && (page.next.Some? ==>
          && page.items != []
          && page.next.value.created == page.items[|page.items| - 1].created
          && page.next.value.id == page.items[|page.items| - 1].id)
  }

  lemma BelowByRuns(db: seq<Run>, cursor: Option<Key>)
    requires Descending(db)
    ensures forall r :: r in Below(db, cursor) <==> Left(db, cursor, [], r)
    ensures NewestFirst(Below(db, cursor))
  {
    BelowDescending(db, cursor);
    forall r ensures r in Below(db, cursor) <==> Left(db, cursor, [], r) { BelowMembers(db, cursor, r); }
    forall i, j | 0 <= i < j < |Below(db, cursor)| ensures Newer(Below(db, cursor)[i], Below(db, cursor)[j]) {
      assert Older(KeyOf(Below(db, cursor)[j]), KeyOf(Below(db, cursor)[i]));
    }
  }

  /** Behind a first part of the rows lie the rest of them, and the next one is the newest of these. */
  lemma LeftIsRest(rows: seq<Run>, db: seq<Run>, cursor: Option<Key>, n: nat)
    requires NewestFirst(rows) && n <= |rows| && forall r :: r in rows <==> Left(db, cursor, [], r)
    ensures forall r :: Left(db, cursor, rows[..n], r) <==> r in rows[n..]
    ensures n < |rows| ==> NewestLeft(db, cursor, rows[..n], rows[n])
    ensures forall r, x :: r in rows[n..] && x in rows[..n] ==> Newer(x, r)
  {
    assert rows == rows[..n] + rows[n..];
    forall r, x | r in rows[n..] && x in rows[..n] ensures Newer(x, r) {
      var i :| 0 <= i < n && rows[..n][i] == x;
      var j :| 0 <= j < |rows| - n && rows[n..][j] == r;
      assert Newer(rows[i], rows[n + j]);
    }
    forall r ensures Left(db, cursor, rows[..n], r) <==> r in rows[n..] {
      assert Left(db, cursor, rows[..n], r) <==> r in rows && r !in rows[..n];
      assert r in rows[..n] && r in rows[n..] ==> Newer(r, r);
    }
    if n < |rows| {
      forall r | r in rows[n..] ensures r == rows[n] || Newer(rows[n], r) {
        var j :| 0 <= j < |rows| - n && rows[n..][j] == r;
        assert rows[n + j] == r;
      }
      assert rows[n..][0] == rows[n];
    }
  }

  lemma PageByRuns(db: seq<Run>, limit: nat, cursor: Option<Key>, page: Page)
    requires Descending(db) && IsPage(db, limit, cursor, page)
    ensures PageSays(db, limit, cursor, page)
  {
    var rows, n := Below(db, cursor), |page.items|;
    BelowByRuns(db, cursor);
    LeftIsRest(rows, db, cursor, n);
    BytesAreSum(page.items);
    forall r | NewestLeft(db, cursor, page.items, r) ensures n < |rows| && r == rows[n] {
      assert r in rows[n..];
    }
    if n < |rows| { assert rows[n] in rows[n..]; }
  }

  lemma FirstTooLarge(db: seq<Run>, cursor: Option<Key>)
    requires Descending(db)
    ensures Below(db, cursor) != [] && ENVELOPE + Below(db, cursor)[0].bytes > BUDGET <==>
      exists r :: NewestLeft(db, cursor, [], r) && 16384 + r.bytes > 1048576
  {
    var rows := Below(db, cursor);
    BelowByRuns(db, cursor);
    LeftIsRest(rows, db, cursor, 0);
    assert rows[..0] == [] && rows[0..] == rows;
    forall r | NewestLeft(db, cursor, [], r) ensures rows != [] && r == rows[0] {
      assert r in rows;
    }
  }

  /** The summaries that fit, in order; nothing when even the first does not. */
  method Accept(selected: seq<Run>) returns (items: seq<Run>)
    ensures |items| <= |selected| && items == selected[..|items|]
    ensures items == [] <==> selected == [] || ENVELOPE + selected[0].bytes > BUDGET
    ensures items != [] ==> ENVELOPE + Bytes(items) - 1 <= BUDGET
    ensures |items| < |selected| ==> ENVELOPE + Bytes(items) + selected[|items|].bytes > BUDGET
  {
    items := [];
    var size := ENVELOPE;
    for i := 0 to |selected|
      invariant items == selected[..i] && size == ENVELOPE + Bytes(items)
      invariant i > 0 ==> size - 1 <= BUDGET && ENVELOPE + selected[0].bytes <= BUDGET
    {
      if size + selected[i].bytes > BUDGET { return; }
      size := size + selected[i].bytes + 1;
      assert selected[..i + 1][..i] == selected[..i];
      items := items + [selected[i]];
    }
  }

  /** Fetches one row more than the limit and accepts summaries until one does not fit. Only a first
      summary that does not fit by itself is refused. */
  method ListPage(db: seq<Run>, limit: nat, cursor: Option<Key>) returns (r: Result<Page>)
    requires limit >= 1
    ensures r.Ok? ==> IsPage(db, limit, cursor, r.value)
    ensures r.Err? <==> Below(db, cursor) != [] && ENVELOPE + Below(db, cursor)[0].bytes > BUDGET
    ensures r.Err? ==> r.fault == ResourceLimit
    // run by run
    ensures NewestFirst(db) && r.Ok? ==> PageSays(db, limit, cursor, r.value)
    ensures NewestFirst(db) ==>
      (r.Err? <==> exists first :: NewestLeft(db, cursor, [], first) && 16384 + first.bytes > 1048576)
  {
    r := TakePage(db, limit, cursor);
    if NewestFirst(db) {
      forall i, j | 0 <= i < j < |db| ensures Older(KeyOf(db[j]), KeyOf(db[i])) { assert Newer(db[i], db[j]); }
      FirstTooLarge(db, cursor);
      if r.Ok? { PageByRuns(db, limit, cursor, r.value); }
    }
  }

  method TakePage(db: seq<Run>, limit: nat, cursor: Option<Key>) returns (r: Result<Page>)
    requires limit >= 1
    ensures r.Ok? ==> IsPage(db, limit, cursor, r.value)
    ensures r.Err? <==> Below(db, cursor) != [] && ENVELOPE + Below(db, cursor)[0].bytes > BUDGET
    ensures r.Err? ==> r.fault == ResourceLimit
  {
    var matching := Below(db, cursor);
    var rows := matching[..Min(limit + 1, |matching|)];
    var selected := rows[..Min(limit, |rows|)];
    assert selected == matching[..Min(limit, |matching|)];
    var items := Accept(selected);
    if items == [] && selected != [] { return Err(ResourceLimit); }
    var more := |rows| > |items|;
    var boundary := if items == [] then None else Some(KeyOf(items[|items| - 1]));
    r := Ok(Page(items, if more then boundary else None));
  }

  // ---------------------------------------------------------------- following the cursor

  lemma {:induction false} BelowMembers(db: seq<Run>, cursor: Option<Key>, r: Run)
    ensures r in Below(db, cursor) <==> r in db && (cursor.Some? ==> Older(KeyOf(r), cursor.value))
    decreases |db|
  {
    if cursor.Some? && db != [] {
      BelowMembers(db[1..], cursor, r);
      assert db == [db[0]] + db[1..];
    }
  }

  lemma {:induction false} BelowDescending(db: seq<Run>, cursor: Option<Key>)
    requires Descending(db)
    ensures Descending(Below(db, cursor))
    decreases |db|
  {
    if cursor.Some? && db != [] {
      var rest := Below(db[1..], cursor);
      BelowDescending(db[1..], cursor);
      forall k | 0 <= k < |rest| ensures Older(KeyOf(rest[k]), KeyOf(db[0])) {
        BelowMembers(db[1..], cursor, rest[k]);
        var i :| 0 <= i < |db[1..]| && db[1..][i] == rest[k];
        assert db[i + 1] == rest[k];
      }
    }
  }

  /** Below the cursor no run enters or leaves the filter. Its runs may go on, so their summaries may have
      another size by the next page, and above the cursor anything may happen. */
  ghost predicate SameBelow(before: seq<Run>, now: seq<Run>, cursor: Key) {
    forall k :: Older(k, cursor) ==> (k in Keys(before) <==> k in Keys(now))
  }

  ghost predicate DescendingKeys(keys: seq<Key>) {
    forall i, j :: 0 <= i < j < |keys| ==> Older(keys[j], keys[i])
  }

  lemma HasMember(a: seq<Key>)
    ensures a == [] || exists k :: k in a
  {
    if a != [] { assert a[0] in a; }
  }

  lemma FirstIsNewest(a: seq<Key>, k: Key)
    requires DescendingKeys(a) && k in a
    ensures k == a[0] || Older(k, a[0])
  {
  }

  lemma TailMembers(a: seq<Key>)
    requires DescendingKeys(a) && a != []
    ensures forall k :: k in a[1..] <==> k in a && k != a[0]
  {
    forall k ensures k in a[1..] <==> k in a && k != a[0] {
      assert a == [a[0]] + a[1..];
    }
  }

  /** Two descending lists of the same keys are the same list. */
  lemma {:induction false} DescendingIsUnique(a: seq<Key>, b: seq<Key>)
    requires DescendingKeys(a) && DescendingKeys(b) && forall k :: k in a <==> k in b
    ensures a == b
    decreases |a|
  {
    if a != [] && b != [] {
      assert a[0] in b && b[0] in a;
      FirstIsNewest(a, b[0]);
      FirstIsNewest(b, a[0]);
      TailMembers(a);
      TailMembers(b);
      DescendingIsUnique(a[1..], b[1..]);
      assert a == [a[0]] + a[1..] && b == [b[0]] + b[1..];
    } else {
      HasMember(a + b);
    }
  }

  lemma BelowKeys(db: seq<Run>, cursor: Option<Key>, k: Key)
    ensures k in Keys(Below(db, cursor)) <==> k in Keys(db) && (cursor.Some? ==> Older(k, cursor.value))
  {
    if i :| 0 <= i < |db| && KeyOf(db[i]) == k {
      assert Keys(db)[i] == k;
      BelowMembers(db, cursor, db[i]);
      if db[i] in Below(db, cursor) {
        var j :| 0 <= j < |Below(db, cursor)| && Below(db, cursor)[j] == db[i];
        assert Keys(Below(db, cursor))[j] == k;
      }
    }
    if j :| 0 <= j < |Below(db, cursor)| && KeyOf(Below(db, cursor)[j]) == k {
      BelowMembers(db, cursor, Below(db, cursor)[j]);
      var i :| 0 <= i < |db| && db[i] == Below(db, cursor)[j];
      assert Keys(db)[i] == k;
    }
  }

  lemma NewerRunsAreNotBelow(before: seq<Run>, now: seq<Run>, cursor: Key)
    requires Descending(before) && Descending(now) && SameBelow(before, now, cursor)
    ensures Keys(Below(now, Some(cursor))) == Keys(Below(before, Some(cursor)))
  {
    BelowDescending(before, Some(cursor));
    BelowDescending(now, Some(cursor));
    forall k ensures k in Keys(Below(now, Some(cursor))) <==> k in Keys(Below(before, Some(cursor))) {
      BelowKeys(now, Some(cursor), k);
      BelowKeys(before, Some(cursor), k);
    }
    DescendingIsUnique(Keys(Below(now, Some(cursor))), Keys(Below(before, Some(cursor))));
  }

  /** In one table a key names one run. */
  lemma KeysDecide(db: seq<Run>, a: seq<Run>, b: seq<Run>)
    requires Descending(db) && Keys(a) == Keys(b)
    requires forall r :: r in a || r in b ==> r in db
    ensures a == b
  {
    assert |a| == |b| by { assert |Keys(a)| == |Keys(b)|; }
    forall i | 0 <= i < |a| ensures a[i] == b[i] {
      assert Keys(a)[i] == Keys(b)[i];
      assert a[i] in db && b[i] in db;
    }
  }

  /** After a page, exactly the rows behind its last item are below its cursor. */
  lemma RestIsBelow(db: seq<Run>, cursor: Option<Key>, n: nat)
    requires Descending(db) && 0 < n <= |Below(db, cursor)|
    ensures Below(db, Some(KeyOf(Below(db, cursor)[n - 1]))) == Below(db, cursor)[n..]
  {
    var rows := Below(db, cursor);
    var next := Some(KeyOf(rows[n - 1]));
    BelowDescending(db, cursor);
    BelowDescending(db, next);
    forall k ensures k in Keys(Below(db, next)) <==> k in Keys(rows[n..]) { RestKeys(db, cursor, n, k); }
    DescendingIsUnique(Keys(Below(db, next)), Keys(rows[n..]));
    forall r | r in Below(db, next) || r in rows[n..] ensures r in db {
      BelowMembers(db, next, r);
      BelowMembers(db, cursor, r);
    }
    KeysDecide(db, Below(db, next), rows[n..]);
  }

  lemma RestKeys(db: seq<Run>, cursor: Option<Key>, n: nat, k: Key)
    requires Descending(db) && 0 < n <= |Below(db, cursor)|
    ensures k in Keys(Below(db, Some(KeyOf(Below(db, cursor)[n - 1])))) <==> k in Keys(Below(db, cursor)[n..])
  {
    var rows := Below(db, cursor);
    var last := KeyOf(rows[n - 1]);
    BelowDescending(db, cursor);
    BelowKeys(db, Some(last), k);
    BelowKeys(db, cursor, k);
    assert Keys(rows)[n - 1] == last;
    BelowKeys(db, cursor, last);
    if i :| 0 <= i < |rows| && Keys(rows)[i] == k {
      assert i >= n ==> Keys(rows[n..])[i - n] == k;
    }
    if j :| 0 <= j < |rows| - n && Keys(rows[n..])[j] == k {
      assert Keys(rows)[n + j] == k;
    }
  }

  /** The items of the first `k` pages. */
  function Shown(pages: seq<Page>, k: nat): seq<Run>
    requires k <= |pages|
  {
    if k == 0 then [] else Shown(pages, k - 1) + pages[k - 1].items
  }

  /** Successful pages, each asked for with the cursor of the one before, while nothing enters or leaves
      below that cursor. `dbs[k]` are the rows page `k` was taken from. */
  ghost predicate Followed(dbs: seq<seq<Run>>, pages: seq<Page>, limit: nat) {
    && |dbs| == |pages| >= 1 && limit >= 1
    && (forall k :: 0 <= k < |dbs| ==> Descending(dbs[k]))
    && IsPage(dbs[0], limit, None, pages[0])
    && (forall k :: 0 < k < |pages| ==> FollowsOn(dbs, pages, limit, k))
  }

  ghost predicate FollowsOn(dbs: seq<seq<Run>>, pages: seq<Page>, limit: nat, k: nat) {
    && 0 < k < |pages| == |dbs| && pages[k - 1].next.Some?
    && SameBelow(dbs[k - 1], dbs[k], pages[k - 1].next.value) && IsPage(dbs[k], limit, pages[k - 1].next, pages[k])
  }

  function Remaining(db: seq<Run>, page: Page): seq<Run> {
    if page.next.None? then [] else Below(db, page.next)
  }

  lemma PageSplits(db: seq<Run>, limit: nat, cursor: Option<Key>, page: Page)
    requires Descending(db) && IsPage(db, limit, cursor, page)
    ensures page.items + Remaining(db, page) == Below(db, cursor)
  {
    var rows, n := Below(db, cursor), |page.items|;
    if n < |rows| { RestIsBelow(db, cursor, n); }
    assert rows == rows[..n] + rows[n..];
  }

  lemma KeysJoin(a: seq<Run>, b: seq<Run>)
    ensures Keys(a + b) == Keys(a) + Keys(b)
  {
  }

  /** The rows left after a page are what the next page splits. */
  lemma OnePageOn(before: seq<Run>, now: seq<Run>, last: Page, page: Page, limit: nat)
    requires Descending(before) && Descending(now) && last.next.Some? && Below(before, last.next) != []
    requires SameBelow(before, now, last.next.value) && IsPage(now, limit, last.next, page)
    ensures Keys(Remaining(before, last)) == Keys(page.items) + Keys(Remaining(now, page)) && |page.items| > 0
  {
    NewerRunsAreNotBelow(before, now, last.next.value);
    assert |Keys(Below(now, last.next))| == |Keys(Below(before, last.next))| > 0;
    PageSplits(now, limit, last.next, page);
    KeysJoin(page.items, Remaining(now, page));
  }

  lemma NextPageSplits(dbs: seq<seq<Run>>, pages: seq<Page>, limit: nat, k: nat)
    requires Followed(dbs, pages, limit) && 0 < k < |pages|
    ensures Keys(Remaining(dbs[k - 1], pages[k - 1])) == Keys(pages[k].items) + Keys(Remaining(dbs[k], pages[k]))
    ensures |pages[k].items| > 0
  {
    assert FollowsOn(dbs, pages, limit, k);
    CursorLeavesRows(dbs, pages, limit, k - 1);
    OnePageOn(dbs[k - 1], dbs[k], pages[k - 1], pages[k], limit);
  }

  /** After `k + 1` pages: what was shown and the rows below the cursor are together the rows of the
      start, and every page after the first showed at least one run. */
  ghost predicate SplitAt(dbs: seq<seq<Run>>, pages: seq<Page>, k: nat) {
    && k < |pages| == |dbs|
    && Keys(Shown(pages, k + 1)) + Keys(Remaining(dbs[k], pages[k])) == Keys(dbs[0])
    && |Shown(pages, k + 1)| >= k && (dbs[0] != [] ==> |Shown(pages, k + 1)| >= k + 1)
  }

  lemma SplitFirst(dbs: seq<seq<Run>>, pages: seq<Page>, limit: nat)
    requires Followed(dbs, pages, limit)
    ensures SplitAt(dbs, pages, 0)
  {
    PageSplits(dbs[0], limit, None, pages[0]);
    assert Shown(pages, 1) == pages[0].items;
    KeysJoin(pages[0].items, Remaining(dbs[0], pages[0]));
  }

  lemma SplitNext(dbs: seq<seq<Run>>, pages: seq<Page>, limit: nat, k: nat)
    requires Followed(dbs, pages, limit) && 0 < k < |pages| && SplitAt(dbs, pages, k - 1)
    ensures SplitAt(dbs, pages, k)
  {
    NextPageSplits(dbs, pages, limit, k);
    KeysJoin(Shown(pages, k), pages[k].items);
  }

  lemma {:induction false} PagesPartition(dbs: seq<seq<Run>>, pages: seq<Page>, limit: nat, k: nat)
    requires Followed(dbs, pages, limit) && k < |pages|
    ensures SplitAt(dbs, pages, k)
    decreases k
  {
    if k == 0 {
      SplitFirst(dbs, pages, limit);
    } else {
      PagesPartition(dbs, pages, limit, k - 1);
      SplitNext(dbs, pages, limit, k);
    }
  }

  /** A page that gives a cursor leaves rows below it. */
  lemma CursorLeavesRows(dbs: seq<seq<Run>>, pages: seq<Page>, limit: nat, k: nat)
    requires Followed(dbs, pages, limit) && k < |pages| && pages[k].next.Some?
    ensures Below(dbs[k], pages[k].next) != []
  {
    if k > 0 {
      assert FollowsOn(dbs, pages, limit, k);
      PageLeavesRows(dbs[k], limit, pages[k - 1].next, pages[k]);
    } else {
      PageLeavesRows(dbs[0], limit, None, pages[0]);
    }
  }

  lemma PageLeavesRows(db: seq<Run>, limit: nat, cursor: Option<Key>, page: Page)
    requires Descending(db) && IsPage(db, limit, cursor, page) && page.next.Some?
    ensures Below(db, page.next) != []
  {
    RestIsBelow(db, cursor, |page.items|);
  }

  /** Following the cursor to its end shows every run that was there at the start exactly once, in
      descending order, although pages are cut short, newer runs are inserted and summaries change their
      size in between; and it ends: no more pages than runs can follow. */
  lemma ListingIsComplete(dbs: seq<seq<Run>>, pages: seq<Page>, limit: nat)
    requires Followed(dbs, pages, limit)
    ensures pages[|pages| - 1].next.None? ==> Keys(Shown(pages, |pages|)) == Keys(dbs[0])
    ensures |pages| <= |dbs[0]| || |pages| == 1
  {
    PagesPartition(dbs, pages, limit, |pages| - 1);
    if |pages| > 1 { CursorGiven(dbs, pages, limit); }
  }

  lemma CursorGiven(dbs: seq<seq<Run>>, pages: seq<Page>, limit: nat)
    requires Followed(dbs, pages, limit) && |pages| > 1
    ensures dbs[0] != []
  {
    assert FollowsOn(dbs, pages, limit, 1);
  }
}
