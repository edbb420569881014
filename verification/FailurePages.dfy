/** Diagnosis of a large admission history in compact form: one check per binding with exact counts,
    and one symbol rank per binding and day. Pages visit a block of symbols day by day. */
module FailurePages {
  import opened Collections
  import opened RuntimeContracts

  datatype Binding = Binding(n: int)

  /** One cell of the history: a natural day and the rank of a symbol in the run's universe. */
  datatype Spot = Spot(day: nat, rank: nat)

  datatype Check = Check(binding: Binding, spot: Spot, available: bool, detail: int)

  /** A kept check with the number of cells it stands for. */
  datatype Summary = Summary(check: Check, cells: nat)

  /** The check each cell has in the SQL snapshot. */
  type Cells = (Binding, Spot) -> Check

  ghost predicate WellLabelled(cells: Cells) {
    forall b, v :: cells(b, v).binding == b && cells(b, v).spot == v
  }

  /** Date first, then symbol order. */
  predicate Earlier(a: Spot, b: Spot) {
    a.day < b.day || (a.day == b.day && a.rank < b.rank)
  }

  predicate Fails(cells: Cells, b: Binding, v: Spot) {
    !cells(b, v).available
  }

  ghost predicate NoneFails(cells: Cells, b: Binding, spots: set<Spot>) {
    forall v :: v in spots ==> !Fails(cells, b, v)
  }

  ghost predicate LeastFailure(cells: Cells, b: Binding, spots: set<Spot>, v: Spot) {
    v in spots && Fails(cells, b, v) && forall x :: x in spots && Fails(cells, b, x) ==> !Earlier(x, v)
  }

  /** What a summary must say about the cells it stands for: how many they are, whether all are
      available, and otherwise the failure of the earliest date and lowest symbol. */
  ghost predicate Best(cells: Cells, spots: set<Spot>, s: Summary) {
    && s.cells == |spots|
    && (s.check.available <==> NoneFails(cells, s.check.binding, spots))
    && (!s.check.available ==>
          s.check == cells(s.check.binding, s.check.spot) && LeastFailure(cells, s.check.binding, spots, s.check.spot))
  }

  // ---------------------------------------------------------------- one recorded summary

  /** What the list keeps of an old and a new summary of the same binding. */
  function Keep(value: Summary, s: Summary, ranked: bool): Summary {
    var replace := (value.check.available && !s.check.available)
      || (ranked && !value.check.available && !s.check.available && Earlier(s.check.spot, value.check.spot));
    Summary(if replace then s.check else value.check, value.cells + s.cells)
  }

  ghost predicate AllLater(seen: set<Spot>, spots: set<Spot>) {
    forall v, x :: v in spots && x in seen ==> Earlier(x, v)
  }

  /** Keeping the better of two summaries is the summary of all their cells. Without ranks the newer
      cells must come later, as they do inside one page. */
  lemma KeepIsBest(cells: Cells, seen: set<Spot>, value: Summary, spots: set<Spot>, s: Summary, ranked: bool)
    requires WellLabelled(cells) && Best(cells, seen, value) && Best(cells, spots, s) && seen !! spots
    requires value.check.binding == s.check.binding
    requires ranked || AllLater(seen, spots)
    ensures Best(cells, seen + spots, Keep(value, s, ranked))
  {
    assert |seen + spots| == |seen| + |spots|;
    var b, kept := s.check.binding, Keep(value, s, ranked);
    if kept.check.available {
      forall v | v in seen + spots ensures !Fails(cells, b, v) {}
    } else {
      var at := kept.check.spot;
      assert at in seen + spots && Fails(cells, b, at);
      forall x | x in seen + spots && Fails(cells, b, x) ensures !Earlier(x, at) {
        if x in seen { assert !value.check.available; } else { assert !s.check.available; }
      }
    }
  }

  /** What is kept, cell by cell: the counts add up, a failure is never given up for a success, and no failing
      cell of either has a smaller day, or the same day and a smaller rank. */
  lemma KeptIsFirst(cells: Cells, seen: set<Spot>, value: Summary, spots: set<Spot>, s: Summary, ranked: bool)
    requires WellLabelled(cells) && Best(cells, seen, value) && Best(cells, spots, s) && seen !! spots
    requires value.check.binding == s.check.binding
    requires ranked || forall v, x :: v in spots && x in seen ==> x.day < v.day || (x.day == v.day && x.rank < v.rank)
    ensures var kept := Keep(value, s, ranked);
      && kept.cells == value.cells + s.cells && kept.check.binding == s.check.binding
      && (kept.check.available <==> value.check.available && s.check.available)
      && (!kept.check.available ==>
            && kept.check.spot in seen + spots && kept.check == cells(s.check.binding, kept.check.spot)
            && forall x :: x in seen + spots && !cells(s.check.binding, x).available ==>
                 || kept.check.spot.day < x.day
                 || (kept.check.spot.day == x.day && kept.check.spot.rank <= x.rank))
  {
    assert ranked || AllLater(seen, spots);
    KeepIsBest(cells, seen, value, spots, s, ranked);
    var kept := Keep(value, s, ranked);
    forall x | x in seen + spots && !kept.check.available && !cells(s.check.binding, x).available
      ensures kept.check.spot.day < x.day || (kept.check.spot.day == x.day && kept.check.spot.rank <= x.rank)
    {
      assert Fails(cells, s.check.binding, x) && !Earlier(x, kept.check.spot);
    }
  }

  /** The cells of a binding before a merge, with or without those of the page. */
  function MergedSpots(
      before: map<Binding, set<Spot>>, page: map<Binding, set<Spot>>, b: Binding, merged: bool): set<Spot>
  {
    (if b in before then before[b] else {}) + (if merged && b in page then page[b] else {})
  }

  // ---------------------------------------------------------------- one check per binding

  class ScopedChecks {
    const ranked: bool
    ghost const cells: Cells
    var items: seq<Summary>
    var positions: map<Binding, nat>
    /** The cells each binding has been recorded for. */
    ghost var seen: map<Binding, set<Spot>>

    constructor (ranked: bool, ghost cells: Cells)
      requires WellLabelled(cells)
      ensures Valid() && fresh(this) && this.ranked == ranked && this.cells == cells && items == [] && seen == map[]
    {
      this.ranked, this.cells, items, positions, seen := ranked, cells, [], map[], map[];
    }

    ghost predicate Valid()
      reads this
    {
      && WellLabelled(cells)
      && (forall k :: 0 <= k < |items| ==>
            items[k].check.binding in positions && positions[items[k].check.binding] == k)
      && (forall b :: b in positions ==> positions[b] < |items| && items[positions[b]].check.binding == b)
      && (forall b :: b in positions <==> b in seen)
      && (forall b :: b in seen ==> Best(cells, seen[b], items[positions[b]]))
    }

    ghost function SeenOf(b: Binding): set<Spot>
      reads this
    {
      if b in seen then seen[b] else {}
    }

    /** `spots` are the cells `s` stands for. */
    method Record(s: Summary, ghost spots: set<Spot>)
      requires Valid() && Best(cells, spots, s) && SeenOf(s.check.binding) !! spots
      requires ranked || AllLater(SeenOf(s.check.binding), spots)
      modifies this
      ensures Valid() && seen == old(seen)[s.check.binding := old(SeenOf(s.check.binding)) + spots]
    {
      if s.check.binding !in positions {
        assert {} + spots == spots;
        RecordFirst(s, spots);
      } else {
        RecordMore(s, spots);
      }
    }

    /** The first check of its binding. */
    method RecordFirst(s: Summary, ghost spots: set<Spot>)
      requires Valid() && Best(cells, spots, s) && s.check.binding !in positions
      modifies this
      ensures Valid() && seen == old(seen)[s.check.binding := spots]
    {
      positions := positions[s.check.binding := |items|];
      items := items + [s];
      seen := seen[s.check.binding := spots];
    }

    method RecordMore(s: Summary, ghost spots: set<Spot>)
      requires Valid() && Best(cells, spots, s) && s.check.binding in positions
      requires seen[s.check.binding] !! spots && (ranked || AllLater(seen[s.check.binding], spots))
      modifies this
      ensures Valid() && seen == old(seen)[s.check.binding := old(seen)[s.check.binding] + spots]
    {
      var name := s.check.binding;
      var k := positions[name];
      KeepIsBest(cells, seen[name], items[k], spots, s, ranked);
      items := items[k := Keep(items[k], s, ranked)];
      seen := seen[name := seen[name] + spots];
    }

    /** The first `k` summaries of a page have been merged into what was there before. */
    ghost predicate Merging(page: ScopedChecks, before: map<Binding, set<Spot>>, k: nat)
      reads this, page
    {
      && Valid() && page.Valid() && k <= |page.items|
      && (forall b :: b in seen <==> b in before || (b in page.seen && page.positions[b] < k))
      && (forall b :: b in seen ==>
            seen[b] == MergedSpots(before, page.seen, b, b in page.seen && page.positions[b] < k))
    }

    method MergeOne(page: ScopedChecks, ghost before: map<Binding, set<Spot>>, k: nat)
      requires page != this && page.cells == cells && ranked && k < |page.items| && Merging(page, before, k)
      requires forall b :: b in before && b in page.seen ==> before[b] !! page.seen[b]
      modifies this
      ensures Merging(page, before, k + 1)
    {
      var b := page.items[k].check.binding;
      ItemHasCells(page, k);
      ghost var prior := seen;
      Record(page.items[k], page.seen[b]);
      MergedOnce(before, page.seen, page.positions, prior, seen, b, k);
    }

    static lemma ItemHasCells(page: ScopedChecks, k: nat)
      requires page.Valid() && k < |page.items|
      ensures var b := page.items[k].check.binding;
        b in page.seen && page.positions[b] == k && Best(page.cells, page.seen[b], page.items[k])
      ensures forall x :: x in page.seen && page.positions[x] == k ==> x == page.items[k].check.binding
    {
    }

    static lemma MergedOnce(
        before: map<Binding, set<Spot>>, page: map<Binding, set<Spot>>, positions: map<Binding, nat>,
        prior: map<Binding, set<Spot>>, next: map<Binding, set<Spot>>, b: Binding, k: nat)
      requires page.Keys == positions.Keys && b in page && positions[b] == k
      requires forall x :: x in page && positions[x] == k ==> x == b
      requires forall x :: x in prior <==> x in before || (x in page && positions[x] < k)
      requires forall x :: x in prior ==> prior[x] == MergedSpots(before, page, x, x in page && positions[x] < k)
      requires next == prior[b := (if b in prior then prior[b] else {}) + page[b]]
      ensures forall x :: x in next <==> x in before || (x in page && positions[x] < k + 1)
      ensures forall x :: x in next ==> next[x] == MergedSpots(before, page, x, x in page && positions[x] < k + 1)
    {
    }

    /** Merges the summaries of a page that covers other cells. */
    method Merge(page: ScopedChecks)
      requires Valid() && page.Valid() && page != this && page.cells == cells && ranked
      requires forall b :: b in seen && b in page.seen ==> seen[b] !! page.seen[b]
      modifies this
      ensures Valid() && seen.Keys == old(seen).Keys + page.seen.Keys
      ensures forall b :: b in seen ==> seen[b] == MergedSpots(old(seen), page.seen, b, b in page.seen)
    {
      ghost var before := seen;
      for k := 0 to |page.items|
        invariant Merging(page, before, k)
      {
        MergeOne(page, before, k);
      }
    }

    /** A single cell. */
    method Append(check: Check)
      requires Valid() && check == cells(check.binding, check.spot) && check.spot !in SeenOf(check.binding)
      requires ranked || forall x :: x in SeenOf(check.binding) ==> Earlier(x, check.spot)
      modifies this
      ensures Valid() && seen == old(seen)[check.binding := old(SeenOf(check.binding)) + {check.spot}]
    {
      Record(Summary(check, 1), {check.spot});
    }
  }

  // ---------------------------------------------------------------- one rank per binding and day

  const EMPTY := 0xFFFF_FFFF

  /** The lowest failing symbol among some cells of a day. */
  ghost predicate LowestRank(cells: Cells, b: Binding, spots: set<Spot>, day: nat, rank: nat) {
    if rank == EMPTY then forall v :: v in spots && v.day == day ==> !Fails(cells, b, v)
    else
      Spot(day, rank) in spots && Fails(cells, b, Spot(day, rank))
      && forall v :: v in spots && v.day == day && Fails(cells, b, v) ==> rank <= v.rank
  }

  ghost predicate ColumnOk(cells: Cells, b: Binding, seen: set<Spot>, days: nat, symbols: nat, column: seq<nat>) {
    && |column| == days
    && (forall v :: v in seen ==> v.day < days && v.rank < symbols)
    && (forall d :: 0 <= d < days ==> LowestRank(cells, b, seen, d, column[d]))
  }

  ghost predicate FirstOk(cells: Cells, b: Binding, seen: set<Spot>, first: Option<Check>) {
    if first.Some? then first.value == cells(b, first.value.spot) && LeastFailure(cells, b, seen, first.value.spot)
    else NoneFails(cells, b, seen)
  }

  predicate OneDay(spots: set<Spot>, day: nat, days: nat, symbols: nat) {
    day < days && forall v :: v in spots ==> v.day == day && v.rank < symbols
  }

  lemma QuietPage(
      cells: Cells, b: Binding, before: set<Spot>, spots: set<Spot>, days: nat, symbols: nat, column: seq<nat>,
      first: Option<Check>)
    requires ColumnOk(cells, b, before, days, symbols, column) && FirstOk(cells, b, before, first)
    requires NoneFails(cells, b, spots) && forall v :: v in spots ==> v.day < days && v.rank < symbols
    ensures ColumnOk(cells, b, before + spots, days, symbols, column) && FirstOk(cells, b, before + spots, first)
  {
    forall d | 0 <= d < days ensures LowestRank(cells, b, before + spots, d, column[d]) {
      assert LowestRank(cells, b, before, d, column[d]);
    }
  }

  /** min, in place */
  function Lowered(column: seq<nat>, offset: nat, rank: nat): seq<nat>
    requires offset < |column|
  {
    column[offset := if rank < column[offset] then rank else column[offset]]
  }

  lemma ColumnStep(
      cells: Cells, before: set<Spot>, spots: set<Spot>, s: Summary, days: nat, symbols: nat, column: seq<nat>)
    requires Best(cells, spots, s) && !s.check.available
    requires symbols < EMPTY && OneDay(spots, s.check.spot.day, days, symbols)
    requires ColumnOk(cells, s.check.binding, before, days, symbols, column)
    ensures var offset, rank := s.check.spot.day, s.check.spot.rank;
      ColumnOk(cells, s.check.binding, before + spots, days, symbols, Lowered(column, offset, rank))
  {
    var b, offset, rank := s.check.binding, s.check.spot.day, s.check.spot.rank;
    var after := Lowered(column, offset, rank);
    assert LeastFailure(cells, b, spots, s.check.spot) && s.check.spot == Spot(offset, rank);
    forall d | 0 <= d < days ensures LowestRank(cells, b, before + spots, d, after[d]) {
      assert LowestRank(cells, b, before, d, column[d]);
      if d == offset {
        forall v | v in spots && Fails(cells, b, v) ensures rank <= v.rank { assert !Earlier(v, s.check.spot); }
        assert column[d] != EMPTY ==> Spot(d, column[d]) in before;
      }
    }
  }

  lemma FirstStep(cells: Cells, before: set<Spot>, spots: set<Spot>, s: Summary, first: Option<Check>)
    requires Best(cells, spots, s) && !s.check.available && FirstOk(cells, s.check.binding, before, first)
    ensures FirstOk(cells, s.check.binding, before + spots,
      if first.None? || Earlier(s.check.spot, first.value.spot) then Some(s.check) else first)
  {
  }

  class SessionFailurePositions {
    const symbols: nat
    const days: nat
    ghost const cells: Cells
    var positions: map<Binding, seq<nat>>
    var first: map<Binding, Check>
    ghost var seen: map<Binding, set<Spot>>

    constructor (symbols: nat, days: nat, bindings: set<Binding>, ghost cells: Cells)
      requires WellLabelled(cells) && symbols < EMPTY
      ensures Valid() && fresh(this) && this.symbols == symbols && this.days == days && this.cells == cells
      ensures seen.Keys == bindings && forall b :: b in bindings ==> seen[b] == {}
    {
      this.symbols, this.days, this.cells := symbols, days, cells;
      positions := map b | b in bindings :: seq(days, i => EMPTY);
      first := map[];
      seen := map b | b in bindings :: {};
    }

    ghost predicate Valid()
      reads this
    {
      && WellLabelled(cells) && symbols < EMPTY && positions.Keys == seen.Keys && first.Keys <= seen.Keys
      && (forall b :: b in seen ==>
            ColumnOk(cells, b, seen[b], days, symbols, positions[b]) && FirstOk(cells, b, seen[b], FirstOf(b)))
    }

    function FirstOf(b: Binding): Option<Check>
      reads this
    {
      if b in first then Some(first[b]) else None
    }

    /** `spots` are the cells, all of one day, that the page's check stands for. */
    method Record(s: Summary, ghost spots: set<Spot>, ghost day: nat)
      requires Valid() && Best(cells, spots, s) && s.check.binding in seen && OneDay(spots, day, days, symbols)
      modifies this
      ensures Valid() && seen == old(seen)[s.check.binding := old(seen)[s.check.binding] + spots]
    {
      if s.check.available {
        ghost var name := s.check.binding;
        QuietPage(cells, name, seen[name], spots, days, symbols, positions[name], FirstOf(name));
        seen := seen[name := seen[name] + spots];
        return;
      }
      RecordFailure(s, spots, day);
    }

    method RecordFailure(s: Summary, ghost spots: set<Spot>, ghost day: nat)
      requires Valid() && Best(cells, spots, s) && s.check.binding in seen && OneDay(spots, day, days, symbols)
      requires !s.check.available
      modifies this
      ensures Valid() && seen == old(seen)[s.check.binding := old(seen)[s.check.binding] + spots]
    {
      var name, check := s.check.binding, s.check;
      var offset, rank := check.spot.day, check.spot.rank;
      var column := positions[name];
      ColumnStep(cells, seen[name], spots, s, days, symbols, column);
      FirstStep(cells, seen[name], spots, s, FirstOf(name));
      seen := seen[name := seen[name] + spots];
      positions := positions[name := Lowered(column, offset, rank)];
      if name !in first || Earlier(check.spot, first[name].spot) {
        first := first[name := check];
      }
    }

    ghost predicate Feeding(page: ScopedChecks, before: map<Binding, set<Spot>>, k: nat)
      reads this, page
    {
      && Valid() && page.Valid() && k <= |page.items|
      && (forall b :: b in seen <==> b in before || (b in page.seen && page.positions[b] < k))
      && (forall b :: b in seen ==>
            seen[b] == MergedSpots(before, page.seen, b, b in page.seen && page.positions[b] < k))
    }

    method RecordOne(page: ScopedChecks, ghost before: map<Binding, set<Spot>>, k: nat, day: nat)
      requires page.cells == cells && k < |page.items| && Feeding(page, before, k) && page.seen.Keys <= before.Keys
      requires forall b :: b in page.seen ==> OneDay(page.seen[b], day, days, symbols) && page.seen[b] != {}
      modifies this
      ensures Feeding(page, before, k + 1)
    {
      var b := page.items[k].check.binding;
      ScopedChecks.ItemHasCells(page, k);
      ghost var prior := seen;
      Record(page.items[k], page.seen[b], day);
      ScopedChecks.MergedOnce(before, page.seen, page.positions, prior, seen, b, k);
    }

    /** Records every check of a page of one day. */
    method RecordPage(page: ScopedChecks, day: nat)
      requires Valid() && page.Valid() && page.cells == cells && page.seen.Keys <= seen.Keys
      requires forall b :: b in page.seen ==> OneDay(page.seen[b], day, days, symbols) && page.seen[b] != {}
      modifies this
      ensures Valid() && seen.Keys == old(seen).Keys
      ensures forall b :: b in seen ==> seen[b] == MergedSpots(old(seen), page.seen, b, b in page.seen)
    {
      ghost var before := seen;
      for k := 0 to |page.items|
        invariant Feeding(page, before, k)
      {
        RecordOne(page, before, k, day);
      }
    }

    /** The error of the first listed day that has one. Only its position is kept, so unless it happens
        to be the detailed one it is read again; a snapshot that then disagrees is refused. */
    method Select(name: Binding, openDays: seq<nat>, reread: Spot -> Check) returns (r: Result<Option<Check>>)
      requires Valid() && name in seen && forall d :: d in openDays ==> d < days
      requires seen[name] == Rectangle(days, symbols)
      ensures (forall v :: v in seen[name] ==> reread(v) == cells(name, v)) ==>
        r == Ok(Scan(cells, name, openDays, symbols))
      ensures (forall v :: v in seen[name] ==> reread(v) == cells(name, v)) ==>
        && r.Ok?
        && (r.value.None? ==> forall i, x :: 0 <= i < |openDays| && 0 <= x < symbols ==>
              cells(name, Spot(openDays[i], x)).available)
        && (r.value.Some? ==> IsFirstFailure(cells, name, openDays, symbols, r.value.value))
      ensures r.Err? ==>
        r.fault == InvalidContract && exists v :: v in seen[name] && Fails(cells, name, v) && reread(v).available
    {
      ScanExactly(cells, name, openDays, symbols);
      for i := 0 to |openDays|
        invariant forall j :: 0 <= j < i ==> OnDay(cells, name, openDays[j], symbols) == None
      {
        var day := openDays[i];
        assert day in openDays;
        assert ColumnOk(cells, name, seen[name], days, symbols, positions[name]);
        var rank := positions[name][day];
        assert LowestRank(cells, name, seen[name], day, rank);
        if rank == EMPTY {
          QuietDay(cells, name, day, symbols, days);
        } else {
          var v := Spot(day, rank);
          LowestOnDay(cells, name, day, symbols, rank, days);
          var check := first[name];
          if check.spot != v { check := reread(v); }
          if check.available { return Err(InvalidContract); }
          ScanFinds(cells, name, openDays, symbols, i);
          return Ok(Some(check));
        }
      }
      ScanEmpty(cells, name, openDays, symbols);
      r := Ok(None);
    }
  }

  // ---------------------------------------------------------------- the plain scan of the whole history

  function Rectangle(days: nat, symbols: nat): set<Spot> {
    set d, r | 0 <= d < days && 0 <= r < symbols :: Spot(d, r)
  }

  /** The first failing cell of a day, symbol by symbol. */
  function OnDay(cells: Cells, b: Binding, day: nat, symbols: nat): Option<Check> {
    if symbols == 0 then None
    else
      var earlier := OnDay(cells, b, day, symbols - 1);
      if earlier.Some? then earlier
      else if Fails(cells, b, Spot(day, symbols - 1)) then Some(cells(b, Spot(day, symbols - 1)))
      else None
  }

  function Scan(cells: Cells, b: Binding, openDays: seq<nat>, symbols: nat): Option<Check> {
    if openDays == [] then None
    else if OnDay(cells, b, openDays[0], symbols).Some? then OnDay(cells, b, openDays[0], symbols)
    else Scan(cells, b, openDays[1..], symbols)
  }

  lemma {:induction false} OnDayFinds(cells: Cells, b: Binding, day: nat, symbols: nat, rank: nat)
    requires rank < symbols && Fails(cells, b, Spot(day, rank))
    requires forall x :: 0 <= x < rank ==> !Fails(cells, b, Spot(day, x))
    ensures OnDay(cells, b, day, symbols) == Some(cells(b, Spot(day, rank)))
    decreases symbols
  {
    if rank < symbols - 1 { OnDayFinds(cells, b, day, symbols - 1, rank); } else { OnDayNone(cells, b, day, rank); }
  }

  lemma {:induction false} OnDayNone(cells: Cells, b: Binding, day: nat, symbols: nat)
    requires forall x :: 0 <= x < symbols ==> !Fails(cells, b, Spot(day, x))
    ensures OnDay(cells, b, day, symbols) == None
  {
    if symbols > 0 { OnDayNone(cells, b, day, symbols - 1); }
  }

  lemma LowestOnDay(cells: Cells, b: Binding, day: nat, symbols: nat, rank: nat, days: nat)
    requires day < days && rank != EMPTY && LowestRank(cells, b, Rectangle(days, symbols), day, rank)
    ensures OnDay(cells, b, day, symbols) == Some(cells(b, Spot(day, rank)))
  {
    forall x | 0 <= x < rank ensures !Fails(cells, b, Spot(day, x)) {
      assert Spot(day, x).day == day && rank < symbols;
    }
    OnDayFinds(cells, b, day, symbols, rank);
  }

  lemma QuietDay(cells: Cells, b: Binding, day: nat, symbols: nat, days: nat)
    requires day < days && LowestRank(cells, b, Rectangle(days, symbols), day, EMPTY)
    ensures OnDay(cells, b, day, symbols) == None
  {
    forall x | 0 <= x < symbols ensures !Fails(cells, b, Spot(day, x)) {
      assert Spot(day, x) in Rectangle(days, symbols);
    }
    OnDayNone(cells, b, day, symbols);
  }

  lemma {:induction false} ScanFinds(cells: Cells, b: Binding, openDays: seq<nat>, symbols: nat, i: nat)
    requires i < |openDays| && OnDay(cells, b, openDays[i], symbols).Some?
    requires forall j :: 0 <= j < i ==> OnDay(cells, b, openDays[j], symbols) == None
    ensures Scan(cells, b, openDays, symbols) == OnDay(cells, b, openDays[i], symbols)
    decreases i
  {
    if i > 0 { ScanFinds(cells, b, openDays[1..], symbols, i - 1); }
  }

  lemma {:induction false} ScanEmpty(cells: Cells, b: Binding, openDays: seq<nat>, symbols: nat)
    requires forall j :: 0 <= j < |openDays| ==> OnDay(cells, b, openDays[j], symbols) == None
    ensures Scan(cells, b, openDays, symbols) == None
    decreases |openDays|
  {
    if openDays != [] { ScanEmpty(cells, b, openDays[1..], symbols); }
  }

  /** `check` is the failing cell of the first listed day that has one, and on that day of the lowest symbol. */
  ghost predicate IsFirstFailure(cells: Cells, b: Binding, openDays: seq<nat>, symbols: nat, check: Check) {
    exists i, x: nat ::
      && 0 <= i < |openDays| && x < symbols
      && check == cells(b, Spot(openDays[i], x)) && !check.available
      && (forall y: nat :: y < x ==> cells(b, Spot(openDays[i], y)).available)
      && forall j, y: nat :: 0 <= j < i && y < symbols ==> cells(b, Spot(openDays[j], y)).available
  }

  lemma {:induction false} OnDayExactly(cells: Cells, b: Binding, day: nat, symbols: nat)
    ensures OnDay(cells, b, day, symbols) == None <==> forall x: nat :: x < symbols ==> cells(b, Spot(day, x)).available
    ensures OnDay(cells, b, day, symbols).Some? ==>
      exists x: nat ::
        && x < symbols && OnDay(cells, b, day, symbols) == Some(cells(b, Spot(day, x)))
        && !cells(b, Spot(day, x)).available && forall y: nat :: y < x ==> cells(b, Spot(day, y)).available
    decreases symbols
  {
    if symbols > 0 { OnDayExactly(cells, b, day, symbols - 1); }
  }

  /** The scan of the whole history, cell by cell. */
  lemma {:induction false} ScanExactly(cells: Cells, b: Binding, openDays: seq<nat>, symbols: nat)
    ensures Scan(cells, b, openDays, symbols) == None <==>
      forall i, x: nat :: 0 <= i < |openDays| && x < symbols ==> cells(b, Spot(openDays[i], x)).available
    ensures Scan(cells, b, openDays, symbols).Some? ==>
      IsFirstFailure(cells, b, openDays, symbols, Scan(cells, b, openDays, symbols).value)
    decreases |openDays|
  {
    if openDays != [] {
      var rest := openDays[1..];
      OnDayExactly(cells, b, openDays[0], symbols);
      ScanExactly(cells, b, rest, symbols);
      var found := Scan(cells, b, openDays, symbols);
      if OnDay(cells, b, openDays[0], symbols).Some? {
        var x: nat :|
          && x < symbols && found == Some(cells(b, Spot(openDays[0], x)))
          && !cells(b, Spot(openDays[0], x)).available
          && forall y: nat :: y < x ==> cells(b, Spot(openDays[0], y)).available;
        assert found.value == cells(b, Spot(openDays[0], x));
      } else if found.Some? {
        var i, x: nat :|
          && 0 <= i < |rest| && x < symbols
          && found.value == cells(b, Spot(rest[i], x)) && !found.value.available
          && (forall y: nat :: y < x ==> cells(b, Spot(rest[i], y)).available)
          && forall j, y: nat :: 0 <= j < i && y < symbols ==> cells(b, Spot(rest[j], y)).available;
        assert rest[i] == openDays[i + 1];
        forall j, y: nat | 0 <= j < i + 1 && y < symbols ensures cells(b, Spot(openDays[j], y)).available {
          if j > 0 { assert openDays[j] == rest[j - 1]; }
        }
      } else {
        forall i, y: nat | 0 <= i < |openDays| && y < symbols ensures cells(b, Spot(openDays[i], y)).available {
          if i > 0 { assert openDays[i] == rest[i - 1]; }
        }
      }
    }
  }

  // ---------------------------------------------------------------- the traversal

  /** The cells of one page: a block of symbols on one day. */
  function Strip(day: nat, lo: nat, hi: nat): set<Spot> {
    set r | lo <= r < hi :: Spot(day, r)
  }

  /** All days of the symbols below `lo`, and `d` days of the block `lo..hi`. */
  function Done(days: nat, lo: nat, hi: nat, d: nat): set<Spot> {
    Rectangle(days, lo) + (set x, r | 0 <= x < d && lo <= r < hi :: Spot(x, r))
  }

  /** Symbols `lo..r` are read, and symbol `r` for the first `k` bindings. */
  ghost predicate Reading(page: ScopedChecks, bindings: seq<Binding>, day: nat, lo: nat, r: nat, k: nat)
    reads page
  {
    && page.Valid() && !page.ranked && k <= |bindings| && lo <= r
    && (forall b :: b in page.seen ==> b in bindings)
    && (forall j :: 0 <= j < |bindings| ==> page.SeenOf(bindings[j]) == Strip(day, lo, if j < k then r + 1 else r))
  }

  lemma StripGrows(day: nat, lo: nat, r: nat)
    requires lo <= r
    ensures Strip(day, lo, r + 1) == Strip(day, lo, r) + {Spot(day, r)} && Spot(day, r) !in Strip(day, lo, r)
    ensures forall x :: x in Strip(day, lo, r) ==> Earlier(x, Spot(day, r))
  {
  }

  method ReadCell(page: ScopedChecks, cells: Cells, bindings: seq<Binding>, day: nat, lo: nat, r: nat, k: nat)
    requires NoDup(bindings) && k < |bindings| && Reading(page, bindings, day, lo, r, k) && page.cells == cells
    modifies page
    ensures Reading(page, bindings, day, lo, r, k + 1)
  {
    StripGrows(day, lo, r);
    var check := cells(bindings[k], Spot(day, r));
    assert check.binding == bindings[k] && check.spot == Spot(day, r);
    assert page.SeenOf(bindings[k]) == Strip(day, lo, r);
    page.Append(check);
  }

  /** One page, symbol by symbol. */
  method ReadPage(cells: Cells, bindings: seq<Binding>, day: nat, lo: nat, hi: nat) returns (page: ScopedChecks)
    requires WellLabelled(cells) && NoDup(bindings) && lo < hi
    ensures fresh(page) && page.Valid() && page.cells == cells && (forall b :: b in page.seen ==> b in bindings)
    ensures forall b :: b in bindings ==> b in page.seen && page.seen[b] == Strip(day, lo, hi)
  {
    page := new ScopedChecks(false, cells);
    for r := lo to hi
      invariant fresh(page) && page.cells == cells && Reading(page, bindings, day, lo, r, 0)
    {
      for k := 0 to |bindings|
        invariant fresh(page) && page.cells == cells && Reading(page, bindings, day, lo, r, k)
      {
        ReadCell(page, cells, bindings, day, lo, r, k);
      }
    }
    forall b | b in bindings ensures b in page.seen && page.seen[b] == Strip(day, lo, hi) {
      var j :| 0 <= j < |bindings| && bindings[j] == b;
      assert page.SeenOf(bindings[j]) == Strip(day, lo, hi) && Spot(day, lo) in Strip(day, lo, hi);
    }
  }

  function Column(days: nat, rank: nat): set<Spot> {
    set d | 0 <= d < days :: Spot(d, rank)
  }

  lemma {:induction false} ColumnSize(days: nat, rank: nat)
    ensures |Column(days, rank)| == days
  {
    if days == 0 {
      assert Column(days, rank) == {};
    } else {
      ColumnSize(days - 1, rank);
      assert Column(days, rank) == Column(days - 1, rank) + {Spot(days - 1, rank)};
    }
  }

  lemma {:induction false} RectangleSize(days: nat, symbols: nat)
    ensures |Rectangle(days, symbols)| == days * symbols
    decreases symbols
  {
    if symbols == 0 {
      assert Rectangle(days, symbols) == {};
    } else {
      RectangleSize(days, symbols - 1);
      ColumnSize(days, symbols - 1);
      assert Rectangle(days, symbols) == Rectangle(days, symbols - 1) + Column(days, symbols - 1);
      assert |Rectangle(days, symbols)| == |Rectangle(days, symbols - 1)| + |Column(days, symbols - 1)|;
      TimesStep(days, symbols);
    }
  }

  lemma TimesStep(days: nat, symbols: nat)
    requires symbols > 0
    ensures days * symbols == days * (symbols - 1) + days
  {
  }

  ghost predicate AllSeen(seen: map<Binding, set<Spot>>, bindings: seq<Binding>, spots: set<Spot>) {
    && (forall b :: b in seen ==> b in bindings)
    && (forall b :: b in bindings ==> (if b in seen then seen[b] else {}) == spots)
  }

  /** A page that covers one strip for every binding extends what every binding has seen by it. */
  lemma MergedSeen(before: map<Binding, set<Spot>>, page: map<Binding, set<Spot>>, next: map<Binding, set<Spot>>,
                   bindings: seq<Binding>, spots: set<Spot>, strip: set<Spot>)
    requires AllSeen(before, bindings, spots) && AllSeen(page, bindings, strip)
    requires forall b :: b in bindings ==> b in page
    requires next.Keys == before.Keys + page.Keys
    requires forall b :: b in next ==> next[b] == MergedSpots(before, page, b, b in page)
    ensures AllSeen(next, bindings, spots + strip)
  {
  }

  ghost predicate ChecksVisited(checks: ScopedChecks, cells: Cells, bindings: seq<Binding>, spots: set<Spot>)
    reads checks
  {
    checks.Valid() && checks.ranked && checks.cells == cells && AllSeen(checks.seen, bindings, spots)
  }

  ghost predicate FailuresVisited(
      failures: SessionFailurePositions, cells: Cells, bindings: seq<Binding>, spots: set<Spot>)
    reads failures
  {
    && failures.Valid() && failures.cells == cells && AllSeen(failures.seen, bindings, spots)
    && forall b :: b in bindings ==> b in failures.seen
  }

  /** Both compact forms have recorded exactly `spots` for every binding. */
  ghost predicate Visited(
      checks: ScopedChecks, failures: SessionFailurePositions, cells: Cells, bindings: seq<Binding>,
      spots: set<Spot>)
    reads checks, failures
  {
    && WellLabelled(cells) && ChecksVisited(checks, cells, bindings, spots)
    && FailuresVisited(failures, cells, bindings, spots)
  }

  method MergePage(
      checks: ScopedChecks, page: ScopedChecks, cells: Cells, bindings: seq<Binding>, ghost spots: set<Spot>,
      ghost strip: set<Spot>)
    requires page != checks && page.Valid() && page.cells == cells && AllSeen(page.seen, bindings, strip)
    requires forall b :: b in bindings ==> b in page.seen
    requires ChecksVisited(checks, cells, bindings, spots) && spots !! strip
    modifies checks
    ensures ChecksVisited(checks, cells, bindings, spots + strip)
  {
    ghost var before := checks.seen;
    checks.Merge(page);
    MergedSeen(before, page.seen, checks.seen, bindings, spots, strip);
  }

  lemma PageIsStrip(
      page: map<Binding, set<Spot>>, before: map<Binding, set<Spot>>, bindings: seq<Binding>, strip: set<Spot>)
    requires AllSeen(page, bindings, strip) && forall b :: b in bindings ==> b in before
    ensures page.Keys <= before.Keys && before.Keys + page.Keys == before.Keys
    ensures forall b :: b in page ==> page[b] == strip
  {
  }

  method FeedPage(
      failures: SessionFailurePositions, page: ScopedChecks, cells: Cells, bindings: seq<Binding>,
      ghost spots: set<Spot>, day: nat, lo: nat, hi: nat)
    requires lo < hi <= failures.symbols && day < failures.days
    requires page.Valid() && page.cells == cells && AllSeen(page.seen, bindings, Strip(day, lo, hi))
    requires forall b :: b in bindings ==> b in page.seen
    requires FailuresVisited(failures, cells, bindings, spots)
    modifies failures
    ensures FailuresVisited(failures, cells, bindings, spots + Strip(day, lo, hi))
  {
    ghost var before, strip := failures.seen, Strip(day, lo, hi);
    assert Spot(day, lo) in strip;
    PageIsStrip(page.seen, before, bindings, strip);
    failures.RecordPage(page, day);
    MergedSeen(before, page.seen, failures.seen, bindings, spots, strip);
  }

  method VisitPage(
      checks: ScopedChecks, failures: SessionFailurePositions, cells: Cells, bindings: seq<Binding>,
      ghost spots: set<Spot>, day: nat, lo: nat, hi: nat)
    requires NoDup(bindings) && lo < hi <= failures.symbols && day < failures.days
    requires Visited(checks, failures, cells, bindings, spots) && spots !! Strip(day, lo, hi)
    modifies checks, failures
    ensures Visited(checks, failures, cells, bindings, spots + Strip(day, lo, hi))
  {
    var page := ReadPage(cells, bindings, day, lo, hi);
    assert AllSeen(page.seen, bindings, Strip(day, lo, hi));
    assert ChecksVisited(checks, cells, bindings, spots) && FailuresVisited(failures, cells, bindings, spots);
    MergePage(checks, page, cells, bindings, spots, Strip(day, lo, hi));
    FeedPage(failures, page, cells, bindings, spots, day, lo, hi);
  }

  lemma DoneSteps(days: nat, lo: nat, hi: nat, d: nat)
    requires lo < hi && d < days
    ensures Done(days, lo, hi, d + 1) == Done(days, lo, hi, d) + Strip(d, lo, hi)
    ensures Done(days, lo, hi, d) !! Strip(d, lo, hi)
  {
    assert Done(days, lo, hi, d + 1) == Done(days, lo, hi, d) + Strip(d, lo, hi);
  }

  lemma DoneEnds(days: nat, lo: nat, hi: nat)
    requires lo <= hi
    ensures Done(days, lo, hi, 0) == Rectangle(days, lo) && Done(days, lo, hi, days) == Rectangle(days, hi)
  {
    assert Done(days, lo, hi, 0) == Rectangle(days, lo);
    assert Done(days, lo, hi, days) == Rectangle(days, hi);
  }

  /** One block of symbols over all days. */
  method VisitBlock(
      checks: ScopedChecks, failures: SessionFailurePositions, cells: Cells, bindings: seq<Binding>, lo: nat,
      hi: nat)
    requires NoDup(bindings) && lo < hi <= failures.symbols
    requires Visited(checks, failures, cells, bindings, Rectangle(failures.days, lo))
    modifies checks, failures
    ensures Visited(checks, failures, cells, bindings, Rectangle(failures.days, hi))
  {
    DoneEnds(failures.days, lo, hi);
    for offset := 0 to failures.days
      invariant Visited(checks, failures, cells, bindings, Done(failures.days, lo, hi, offset))
    {
      DoneSteps(failures.days, lo, hi, offset);
      VisitPage(checks, failures, cells, bindings, Done(failures.days, lo, hi, offset), offset, lo, hi);
    }
  }

  /** Visiting block by block and inside a block day by day, in pages of `pageRows` symbols: at the end
      both forms stand for every cell of the run. */
  method Traverse(cells: Cells, bindings: seq<Binding>, symbols: nat, days: nat, pageRows: nat)
    returns (checks: ScopedChecks, failures: SessionFailurePositions)
    requires WellLabelled(cells) && NoDup(bindings) && 0 < symbols < EMPTY && days > 0 && pageRows > 0
    ensures Visited(checks, failures, cells, bindings, Rectangle(days, symbols))
    ensures failures.symbols == symbols && failures.days == days
    ensures forall b :: b in bindings ==>
      b in checks.positions && Exact(cells, b, days, symbols, checks.items[checks.positions[b]])
    ensures forall b :: b in bindings ==>
      && b in failures.positions && ColumnExact(cells, b, days, symbols, failures.positions[b])
      && FirstExact(cells, b, days, symbols, failures.FirstOf(b))
  {
    checks := new ScopedChecks(true, cells);
    failures := new SessionFailurePositions(symbols, days, (set b | b in bindings), cells);
    assert Rectangle(days, 0) == {};
    var first := 0;
    while first < symbols
      invariant 0 <= first <= symbols && fresh(checks) && fresh(failures)
      invariant failures.symbols == symbols && failures.days == days
      invariant Visited(checks, failures, cells, bindings, Rectangle(days, first))
    {
      var next := if first + pageRows < symbols then first + pageRows else symbols;
      VisitBlock(checks, failures, cells, bindings, first, next);
      first := next;
    }
    forall b | b in bindings
      ensures b in checks.positions && Exact(cells, b, days, symbols, checks.items[checks.positions[b]])
    {
      assert Spot(0, 0) in Rectangle(days, symbols);
      assert b in checks.seen && checks.seen[b] == Rectangle(days, symbols);
      BestIsExact(cells, b, days, symbols, checks.items[checks.positions[b]]);
    }
    forall b | b in bindings
      ensures b in failures.positions && ColumnExact(cells, b, days, symbols, failures.positions[b])
      ensures FirstExact(cells, b, days, symbols, failures.FirstOf(b))
    {
      assert b in failures.seen && failures.seen[b] == Rectangle(days, symbols);
      ColumnIsExact(cells, b, days, symbols, failures.positions[b]);
      FirstIsExact(cells, b, days, symbols, failures.FirstOf(b));
    }
  }

  lemma BestIsExact(cells: Cells, b: Binding, days: nat, symbols: nat, s: Summary)
    requires Best(cells, Rectangle(days, symbols), s) && s.check.binding == b
    ensures Exact(cells, b, days, symbols, s)
  {
    RectangleSize(days, symbols);
    forall d, r | 0 <= d < days && 0 <= r < symbols ensures Spot(d, r) in Rectangle(days, symbols) {}
    forall v | v in Rectangle(days, symbols) && !s.check.available && Fails(cells, b, v)
      ensures s.check.spot.day < v.day || (s.check.spot.day == v.day && s.check.spot.rank <= v.rank)
    {
      assert !Earlier(v, s.check.spot);
    }
  }

  /** A binding's column of a run: on every day the lowest failing symbol, or the empty mark. */
  ghost predicate ColumnExact(cells: Cells, b: Binding, days: nat, symbols: nat, column: seq<nat>) {
    && |column| == days
    && forall d :: 0 <= d < days ==>
         if column[d] == 4294967295 then forall r :: 0 <= r < symbols ==> cells(b, Spot(d, r)).available
         else
           && column[d] < symbols && !cells(b, Spot(d, column[d])).available
           && forall r :: 0 <= r < symbols && !cells(b, Spot(d, r)).available ==> column[d] <= r
  }

  /** A binding's one detailed error of a run: of the earliest day, and on it of the lowest symbol. */
  ghost predicate FirstExact(cells: Cells, b: Binding, days: nat, symbols: nat, first: Option<Check>) {
    && (first.None? <==> forall d, r :: 0 <= d < days && 0 <= r < symbols ==> cells(b, Spot(d, r)).available)
    && (first.Some? ==>
          var v := first.value.spot;
          && first.value == cells(b, v) && !first.value.available && v.day < days && v.rank < symbols
          && forall d, r :: 0 <= d < days && 0 <= r < symbols && !cells(b, Spot(d, r)).available ==>
               v.day < d || (v.day == d && v.rank <= r))
  }

  lemma FirstIsExact(cells: Cells, b: Binding, days: nat, symbols: nat, first: Option<Check>)
    requires FirstOk(cells, b, Rectangle(days, symbols), first)
    ensures FirstExact(cells, b, days, symbols, first)
  {
    forall d, r | 0 <= d < days && 0 <= r < symbols ensures Spot(d, r) in Rectangle(days, symbols) {}
    forall d, r | 0 <= d < days && 0 <= r < symbols && !cells(b, Spot(d, r)).available && first.Some?
      ensures first.value.spot.day < d || (first.value.spot.day == d && first.value.spot.rank <= r)
    {
      assert Fails(cells, b, Spot(d, r)) && !Earlier(Spot(d, r), first.value.spot);
    }
    forall d, r | 0 <= d < days && 0 <= r < symbols && first.None? ensures cells(b, Spot(d, r)).available {
      assert !Fails(cells, b, Spot(d, r));
    }
  }

  lemma ColumnIsExact(cells: Cells, b: Binding, days: nat, symbols: nat, column: seq<nat>)
    requires ColumnOk(cells, b, Rectangle(days, symbols), days, symbols, column)
    ensures ColumnExact(cells, b, days, symbols, column)
  {
    forall d | 0 <= d < days
      ensures
        if column[d] == 4294967295 then forall r :: 0 <= r < symbols ==> cells(b, Spot(d, r)).available
        else
          && column[d] < symbols && !cells(b, Spot(d, column[d])).available
          && forall r :: 0 <= r < symbols && !cells(b, Spot(d, r)).available ==> column[d] <= r
    {
      assert LowestRank(cells, b, Rectangle(days, symbols), d, column[d]);
      forall r | 0 <= r < symbols ensures Spot(d, r) in Rectangle(days, symbols) {}
      forall r | 0 <= r < symbols && !cells(b, Spot(d, r)).available
        ensures column[d] != 4294967295 && column[d] <= r
      {
        assert Fails(cells, b, Spot(d, r));
      }
    }
  }

  /** One binding's kept check after the whole run: the exact number of cells, and the failure of the
      earliest date and, on it, the lowest symbol, if any cell failed. */
  ghost predicate Exact(cells: Cells, b: Binding, days: nat, symbols: nat, s: Summary) {
    && s.cells == days * symbols && s.check.binding == b
    && (s.check.available <==> forall d, r :: 0 <= d < days && 0 <= r < symbols ==> cells(b, Spot(d, r)).available)
    && (!s.check.available ==>
          s.check == cells(b, s.check.spot) && s.check.spot.day < days && s.check.spot.rank < symbols
          && forall d, r :: 0 <= d < days && 0 <= r < symbols && !cells(b, Spot(d, r)).available ==>
               s.check.spot.day < d || (s.check.spot.day == d && s.check.spot.rank <= r))
  }
}