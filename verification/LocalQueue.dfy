/** The operations of the file-backed queue, as the sequences of file replacements they make. */
module LocalQueue {
  import opened Collections
  import opened RuntimeContracts
  import opened QueueFiles

  // ---------------------------------------------------------------- sequences of replacements

  function DoAll(s: State, ws: seq<Write>): State {
    if ws == [] then s else Do(DoAll(s, ws[..|ws| - 1]), ws[|ws| - 1])
  }

  ghost predicate AllAllowed(s: State, ws: seq<Write>, q: Queue) {
    ws == [] || (AllAllowed(s, ws[..|ws| - 1], q) && Allowed(DoAll(s, ws[..|ws| - 1]), ws[|ws| - 1], q))
  }

  /** Stopping after any number of an operation's replacements leaves sound files. */
  lemma {:induction false} CrashSafe(s: State, ws: seq<Write>, q: Queue, k: nat)
    requires Inv(s, q) && AllAllowed(s, ws, q) && k <= |ws|
    ensures Inv(DoAll(s, ws[..k]), q) && Inv(Do(DoAll(s, ws[..k]), Crash), q)
    decreases |ws|, k
  {
    if k < |ws| {
      assert ws[..|ws| - 1][..k] == ws[..k];
      CrashSafe(s, ws[..|ws| - 1], q, k);
    } else if k > 0 {
      assert ws[..k] == ws && ws[..k - 1] == ws[..|ws| - 1];
      CrashSafe(s, ws[..k - 1], q, k - 1);
      assert ws[..k - 1][..k - 1] == ws[..k - 1];
      WriteKeepsInv(DoAll(s, ws[..k - 1]), ws[k - 1], q);
      WriteKeepsInv(DoAll(s, ws), Crash, q);
    } else {
      assert ws[..0] == [];
      WriteKeepsInv(s, Crash, q);
    }
  }

  // ---------------------------------------------------------------- what the operations read

  /** The unfinished runs of the roster, in roster order: finished ones hold no capacity. */
  function Roster(d: Disk, n: nat): seq<RunId>
    requires n <= |d.active|
  {
    if n == 0 then [] else Roster(d, n - 1) + (if Live(d, d.active[n - 1]) then [d.active[n - 1]] else [])
  }

  function LiveRoster(d: Disk): seq<RunId> {
    Roster(d, |d.active|)
  }

  lemma {:induction false} RosterMembers(d: Disk, n: nat)
    requires n <= |d.active| && NoDup(d.active)
    ensures forall id :: id in Roster(d, n) <==> id in d.active[..n] && Live(d, id)
    ensures NoDup(Roster(d, n)) && |Roster(d, n)| <= n
  {
    if n > 0 {
      RosterMembers(d, n - 1);
      assert d.active[..n] == d.active[..n - 1] + [d.active[n - 1]];
      assert d.active[n - 1] !in d.active[..n - 1];
    }
  }

  lemma LiveRosterMembers(d: Disk)
    requires NoDup(d.active)
    ensures forall id :: id in LiveRoster(d) <==> id in d.active && Live(d, id)
    ensures NoDup(LiveRoster(d)) && |LiveRoster(d)| <= |d.active|
  {
    RosterMembers(d, |d.active|);
    assert d.active[..|d.active|] == d.active;
  }

  /** An unfinished run, by its status. */
  predicate Unfinished(d: Disk, id: RunId) {
    id in d.rows && d.rows[id].status in {Queued, Starting, Running}
  }

  /** `b` comes after `a`, wherever they are. */
  predicate Follows(list: seq<RunId>, a: RunId, b: RunId) {
    exists i, j :: 0 <= i < j < |list| && list[i] == a && list[j] == b
  }

  lemma FollowsAppend(list: seq<RunId>, more: seq<RunId>, a: RunId, b: RunId)
    ensures Follows(list, a, b) ==> Follows(list + more, a, b)
    ensures a in list && b in more ==> Follows(list + more, a, b)
  {
    if Follows(list, a, b) {
      var i, j :| 0 <= i < j < |list| && list[i] == a && list[j] == b;
      assert (list + more)[i] == a && (list + more)[j] == b;
    }
    if a in list && b in more {
      var i :| 0 <= i < |list| && list[i] == a;
      var j :| 0 <= j < |more| && more[j] == b;
      assert (list + more)[i] == a && (list + more)[|list| + j] == b;
    }
  }

  lemma {:induction false} RosterInOrder(d: Disk, n: nat, p: nat, q: nat)
    requires p < q < n <= |d.active| && Live(d, d.active[p]) && Live(d, d.active[q])
    ensures Follows(Roster(d, n), d.active[p], d.active[q])
    decreases n
  {
    var last: seq<RunId> := if Live(d, d.active[n - 1]) then [d.active[n - 1]] else [];
    FollowsAppend(Roster(d, n - 1), last, d.active[p], d.active[q]);
    if q < n - 1 {
      RosterInOrder(d, n - 1, p, q);
    } else {
      InRoster(d, n - 1, p);
    }
  }

  lemma {:induction false} InRoster(d: Disk, n: nat, p: nat)
    requires p < n <= |d.active| && Live(d, d.active[p])
    ensures d.active[p] in Roster(d, n)
    decreases n
  {
    if p < n - 1 { InRoster(d, n - 1, p); }
  }

  /** The runs read from the roster are its unfinished ones, once each, in the order of the roster. */
  lemma LiveRosterInOrder(d: Disk)
    requires NoDup(d.active)
    ensures forall id :: id in LiveRoster(d) <==> id in d.active && Unfinished(d, id)
    ensures forall i, j :: 0 <= i < j < |LiveRoster(d)| ==> LiveRoster(d)[i] != LiveRoster(d)[j]
    ensures forall p, q :: 0 <= p < q < |d.active| && Unfinished(d, d.active[p]) && Unfinished(d, d.active[q]) ==>
      Follows(LiveRoster(d), d.active[p], d.active[q])
    ensures |LiveRoster(d)| == |set id | id in d.active && Unfinished(d, id)|
  {
    LiveRosterMembers(d);
    forall p, q | 0 <= p < q < |d.active| && Unfinished(d, d.active[p]) && Unfinished(d, d.active[q])
      ensures Follows(LiveRoster(d), d.active[p], d.active[q])
    {
      RosterInOrder(d, |d.active|, p, q);
    }
    assert Members(LiveRoster(d)) == set id | id in d.active && Unfinished(d, id);
    MembersSize(LiveRoster(d));
  }

  lemma {:induction false} MembersSize(list: seq<RunId>)
    requires NoDup(list)
    ensures |Members(list)| == |list|
    decreases |list|
  {
    if list == [] {
      assert Members(list) == {};
    } else {
      var front, last := list[..|list| - 1], list[|list| - 1];
      assert list == front + [last] && last !in front;
      MembersSize(front);
      assert Members(list) == Members(front) + {last};
    }
  }

  predicate HeldBy(row: Row, claim: Claim, now: int) {
    row.status.Active() && row.token == Some(claim.token) && row.fence == claim.fence && row.leaseUntil > now
  }

  function NewRow(batch: BatchId, item: nat, work: Work): Row {
    Row(Queued, false, 0, None, 0, batch, item, None, work, None)
  }

  /** The run that replaces a failed one: the same slot and work, everything else new. */
  function Replacement(row: Row, id: RunId): Row {
    row.(status := Queued, cancelRequested := false, fence := 0, token := None, leaseUntil := 0,
         retryOf := Some(id), result := None)
  }

  /** A batch may only vary its parameters. */
  predicate OneSignature(items: seq<Work>) {
    forall i :: 0 <= i < |items| ==>
      items[i].owner == items[0].owner && items[i].signature == items[0].signature
      && items[i].source == items[0].source && items[i].limits == items[0].limits
  }

  // ---------------------------------------------------------------- the replacements of enqueue and retry

  function EnqueueRows(items: seq<Work>, batch: BatchId, ids: seq<RunId>, n: nat): seq<Write>
    requires n <= |items| == |ids|
  {
    if n == 0 then []
    else EnqueueRows(items, batch, ids, n - 1) + [PutRow(ids[n - 1], NewRow(batch, n - 1, items[n - 1]))]
  }

  lemma {:induction false} EnqueueRowsAt(items: seq<Work>, batch: BatchId, ids: seq<RunId>, n: nat)
    requires n <= |items| == |ids|
    ensures |EnqueueRows(items, batch, ids, n)| == n
    ensures forall i :: 0 <= i < n ==>
      EnqueueRows(items, batch, ids, n)[i]
      == PutRow(ids[i], Row(Queued, false, 0, None, 0, batch, i, None, items[i], None))
  {
    if n > 0 { EnqueueRowsAt(items, batch, ids, n - 1); }
  }

  predicate FailedSlot(d: Disk, id: RunId) {
    id in d.rows && d.rows[id].status == Failed
  }

  function RetryRow(d: Disk, prior: RunId, id: RunId): seq<Write> {
    if FailedSlot(d, prior) then [PutRow(id, Replacement(d.rows[prior], prior))] else []
  }

  function RetryRows(d: Disk, items: seq<RunId>, ids: seq<RunId>, n: nat): seq<Write>
    requires n <= |items| == |ids|
  {
    if n == 0 then [] else RetryRows(d, items, ids, n - 1) + RetryRow(d, items[n - 1], ids[n - 1])
  }

  /** The replacements' ids, in slot order. */
  function Replaced(d: Disk, items: seq<RunId>, ids: seq<RunId>, n: nat): seq<RunId>
    requires n <= |items| == |ids|
  {
    if n == 0 then [] else Replaced(d, items, ids, n - 1) + (if FailedSlot(d, items[n - 1]) then [ids[n - 1]] else [])
  }

  /** The write of a replacement for one of the first n slots. */
  predicate RetryRowOf(d: Disk, items: seq<RunId>, ids: seq<RunId>, n: nat, w: Write, id: RunId)
    requires n <= |items| == |ids|
  {
    exists i ::
      && 0 <= i < n && FailedSlot(d, items[i]) && ids[i] == id
      && w == PutRow(id, Replacement(d.rows[items[i]], items[i]))
  }

  lemma {:induction false} RetryRowsAt(d: Disk, items: seq<RunId>, ids: seq<RunId>, n: nat, k: nat)
    requires n <= |items| == |ids|
    ensures |RetryRows(d, items, ids, n)| == |Replaced(d, items, ids, n)|
    ensures k < |Replaced(d, items, ids, n)| ==>
      RetryRowOf(d, items, ids, n, RetryRows(d, items, ids, n)[k], Replaced(d, items, ids, n)[k])
    decreases n
  {
    if n > 0 {
      RetryRowsAt(d, items, ids, n - 1, k);
      var front, ws := Replaced(d, items, ids, n - 1), RetryRows(d, items, ids, n - 1);
      if k < |front| {
        var i :|
          && 0 <= i < n - 1 && FailedSlot(d, items[i]) && ids[i] == front[k]
          && ws[k] == PutRow(front[k], Replacement(d.rows[items[i]], items[i]));
        assert RetryRows(d, items, ids, n)[k] == ws[k] && Replaced(d, items, ids, n)[k] == front[k];
      } else if k < |Replaced(d, items, ids, n)| {
        assert FailedSlot(d, items[n - 1]);
      }
    }
  }

  function RetryItems(d: Disk, items: seq<RunId>, ids: seq<RunId>, n: nat): seq<RunId>
    requires n <= |items| == |ids|
  {
    seq(|items|, i requires 0 <= i < |items| => if i < n && FailedSlot(d, items[i]) then ids[i] else items[i])
  }

  /** The batch file a retry writes: failed slots hold their replacements. */
  function RetryBatch(d: Disk, batch: BatchId, ids: seq<RunId>): Batch
    requires batch in d.batches && |ids| == |d.batches[batch].items|
  {
    Batch(d.batches[batch].owner, RetryItems(d, d.batches[batch].items, ids, |ids|))
  }

  /** The roster a retry writes. */
  function RetryRoster(d: Disk, batch: BatchId, ids: seq<RunId>): seq<RunId>
    requires batch in d.batches && |ids| == |d.batches[batch].items|
  {
    LiveRoster(d) + Replaced(d, d.batches[batch].items, ids, |ids|)
  }

  function Acceptance(batch: BatchId, content: Batch, roster: seq<RunId>): seq<Write> {
    [PutBatch(batch, content), PutActive(roster), Crash]
  }

  predicate Unused(d: Disk, ids: seq<RunId>) {
    NoDup(ids) && forall id :: id in ids ==> id !in d.rows
  }

  /** After the first `n` rows of an enqueue. */
  ghost predicate Enqueued(s: State, t: State, items: seq<Work>, batch: BatchId, ids: seq<RunId>, n: nat)
  {
    && n <= |items| == |ids|
    && t.disk.batches == s.disk.batches && t.disk.active == s.disk.active && t.disk.results == s.disk.results
    && (forall id :: id in t.disk.rows <==> id in s.disk.rows || id in ids[..n])
    && (forall id :: id in s.disk.rows ==> t.disk.rows[id] == s.disk.rows[id])
    && (forall i :: 0 <= i < n ==> Started(t, ids[i], NewRow(batch, i, items[i])))
  }

  predicate Started(t: State, id: RunId, row: Row) {
    id in t.disk.rows && t.disk.rows[id] == row && id in t.pending
  }

  /** Every `WorkerLimits` has passed its constructor. */
  predicate LimitsAccepted(items: seq<Work>) {
    forall i :: 0 <= i < |items| ==> items[i].limits.Accepted()
  }

  lemma EnqueueOne(s: State, t: State, items: seq<Work>, batch: BatchId, ids: seq<RunId>, n: nat, q: Queue)
    requires n < |items| == |ids| && Unused(s.disk, ids) && LimitsAccepted(items)
    requires Enqueued(s, t, items, batch, ids, n)
    ensures var w := PutRow(ids[n], NewRow(batch, n, items[n]));
      Allowed(t, w, q) && Enqueued(s, Do(t, w), items, batch, ids, n + 1)
  {
    assert ids[..n + 1] == ids[..n] + [ids[n]];
    forall i | 0 <= i < n ensures ids[i] != ids[n] {}
    assert ids[n] !in ids[..n];
  }

  /** After the first `n` slots of a retry. */
  ghost predicate Retried(s: State, t: State, items: seq<RunId>, ids: seq<RunId>, n: nat)
  {
    && n <= |items| == |ids|
    && t.disk.batches == s.disk.batches && t.disk.active == s.disk.active && t.disk.results == s.disk.results
    && (forall id :: id in s.disk.rows ==> id in t.disk.rows && t.disk.rows[id] == s.disk.rows[id])
    && (forall id :: id in t.disk.rows ==> id in s.disk.rows || (id in ids[..n] && t.disk.rows[id].result.None?))
    && (forall i :: 0 <= i < n && FailedSlot(s.disk, items[i]) ==> Stands(s.disk, t, items[i], ids[i]))
  }

  predicate Stands(d: Disk, t: State, prior: RunId, id: RunId) {
    prior in d.rows && id in t.disk.rows && t.disk.rows[id] == Replacement(d.rows[prior], prior) && id in t.pending
  }

  lemma NotUsedYet(d: Disk, ids: seq<RunId>, n: nat)
    requires Unused(d, ids) && n < |ids|
    ensures ids[n] !in d.rows && ids[n] !in ids[..n] && ids[..n + 1] == ids[..n] + [ids[n]]
    ensures forall i :: 0 <= i < n ==> ids[i] != ids[n]
  {
  }

  ghost predicate AllLimitsAccepted(d: Disk) {
    forall id :: id in d.rows ==> d.rows[id].work.limits.Accepted()
  }

  lemma RetryAllowed(s: State, t: State, items: seq<RunId>, ids: seq<RunId>, n: nat, q: Queue)
    requires n < |items| == |ids| && Unused(s.disk, ids) && Retried(s, t, items, ids, n)
    requires FailedSlot(s.disk, items[n]) && AllLimitsAccepted(s.disk)
    ensures ids[n] !in t.disk.rows && Allowed(t, PutRow(ids[n], Replacement(s.disk.rows[items[n]], items[n])), q)
  {
    NotUsedYet(s.disk, ids, n);
  }

  lemma RetryOne(s: State, t: State, items: seq<RunId>, ids: seq<RunId>, n: nat, q: Queue)
    requires n < |items| == |ids| && Unused(s.disk, ids) && Retried(s, t, items, ids, n)
    requires FailedSlot(s.disk, items[n]) && AllLimitsAccepted(s.disk)
    ensures var w := PutRow(ids[n], Replacement(s.disk.rows[items[n]], items[n]));
      Allowed(t, w, q) && Retried(s, Do(t, w), items, ids, n + 1)
  {
    RetryAllowed(s, t, items, ids, n, q);
    RetryKeeps(s, t, Do(t, PutRow(ids[n], Replacement(s.disk.rows[items[n]], items[n]))), items, ids, n);
  }

  lemma RetryKeeps(s: State, t: State, u: State, items: seq<RunId>, ids: seq<RunId>, n: nat)
    requires n < |items| == |ids| && Unused(s.disk, ids) && Retried(s, t, items, ids, n) && FailedSlot(s.disk, items[n])
    requires u.disk.rows == t.disk.rows[ids[n] := Replacement(s.disk.rows[items[n]], items[n])]
    requires u.pending == t.pending + {ids[n]}
    requires u.disk.batches == t.disk.batches && u.disk.active == t.disk.active && u.disk.results == t.disk.results
    ensures Retried(s, u, items, ids, n + 1)
  {
    NotUsedYet(s.disk, ids, n);
    forall i | 0 <= i < n + 1 && FailedSlot(s.disk, items[i]) ensures Stands(s.disk, u, items[i], ids[i]) {
      if i < n { assert Stands(s.disk, t, items[i], ids[i]); }
    }
  }

  lemma RetrySkip(s: State, t: State, items: seq<RunId>, ids: seq<RunId>, n: nat)
    requires n < |items| == |ids| && Retried(s, t, items, ids, n) && !FailedSlot(s.disk, items[n])
    ensures Retried(s, t, items, ids, n + 1)
  {
    assert ids[..n + 1] == ids[..n] + [ids[n]];
  }

  // ---------------------------------------------------------------- a crash in the middle of a retry

  lemma RetrySlotDone(s: State, before: seq<Write>, items: seq<RunId>, ids: seq<RunId>, n: nat, q: Queue)
    requires 0 < n <= |items| == |ids| && Unused(s.disk, ids) && AllLimitsAccepted(s.disk)
    requires AllAllowed(s, before, q) && Retried(s, DoAll(s, before), items, ids, n - 1)
    ensures AllAllowed(s, before + RetryRow(s.disk, items[n - 1], ids[n - 1]), q)
    ensures Retried(s, DoAll(s, before + RetryRow(s.disk, items[n - 1], ids[n - 1])), items, ids, n)
  {
    if FailedSlot(s.disk, items[n - 1]) {
      RetryOne(s, DoAll(s, before), items, ids, n - 1, q);
      var w := PutRow(ids[n - 1], Replacement(s.disk.rows[items[n - 1]], items[n - 1]));
      assert RetryRow(s.disk, items[n - 1], ids[n - 1]) == [w];
      DoOneMore(s, before, w);
      assert (before + [w])[..|before|] == before;
    } else {
      RetrySkip(s, DoAll(s, before), items, ids, n - 1);
      assert before + [] == before;
    }
  }

  /** The run files of the first n slots have been written, by allowed replacements only. */
  ghost predicate RowsDone(s: State, items: seq<RunId>, ids: seq<RunId>, n: nat, q: Queue) {
    && n <= |items| == |ids|
    && AllAllowed(s, RetryRows(s.disk, items, ids, n), q)
    && Retried(s, DoAll(s, RetryRows(s.disk, items, ids, n)), items, ids, n)
  }

  lemma RowsStart(s: State, items: seq<RunId>, ids: seq<RunId>, q: Queue)
    requires |items| == |ids|
    ensures RowsDone(s, items, ids, 0, q)
  {
    assert DoAll(s, []) == s;
  }

  lemma RowsStep(s: State, items: seq<RunId>, ids: seq<RunId>, n: nat, q: Queue)
    requires 0 < n <= |items| && Unused(s.disk, ids) && AllLimitsAccepted(s.disk) && RowsDone(s, items, ids, n - 1, q)
    ensures RowsDone(s, items, ids, n, q)
  {
    var before := RetryRows(s.disk, items, ids, n - 1);
    RetrySlotDone(s, before, items, ids, n, q);
    assert RetryRows(s.disk, items, ids, n) == before + RetryRow(s.disk, items[n - 1], ids[n - 1]);
  }

  lemma {:induction false} RetryRowsDone(s: State, items: seq<RunId>, ids: seq<RunId>, n: nat, q: Queue)
    requires n <= |items| == |ids| && Unused(s.disk, ids) && AllLimitsAccepted(s.disk)
    ensures RowsDone(s, items, ids, n, q)
    decreases n
  {
    if n == 0 {
      RowsStart(s, items, ids, q);
    } else {
      RetryRowsDone(s, items, ids, n - 1, q);
      RowsStep(s, items, ids, n, q);
    }
  }

  /** The batch file is replaced before the roster. A crash between the two leaves every replacement in
      its slot, queued, and stranded: it is never claimed, and as it is not failed it is not retried. */
  lemma RetryCrashStrands(s: State, batch: BatchId, ids: seq<RunId>, slot: nat, q: Queue)
    requires Inv(s, q) && s.pending == {} && batch in s.disk.batches
    requires |ids| == |s.disk.batches[batch].items| && Unused(s.disk, ids)
    requires slot < |ids| && FailedSlot(s.disk, s.disk.batches[batch].items[slot])
    ensures var items := s.disk.batches[batch].items;
      var done := RetryRows(s.disk, items, ids, |items|) + [PutBatch(batch, RetryBatch(s.disk, batch, ids))];
      var crashed := Do(DoAll(s, done), Crash);
      Stranded(crashed, ids[slot]) && crashed.disk.batches[batch].items[slot] == ids[slot]
  {
    var items := s.disk.batches[batch].items;
    var rows := RetryRows(s.disk, items, ids, |items|);
    RetryRowsDone(s, items, ids, |items|, q);
    StrandedBetween(s, DoAll(s, rows), batch, ids, slot, q);
  }

  lemma StrandedBetween(s: State, t: State, batch: BatchId, ids: seq<RunId>, slot: nat, q: Queue)
    requires Inv(s, q) && batch in s.disk.batches && |ids| == |s.disk.batches[batch].items| && Unused(s.disk, ids)
    requires Retried(s, t, s.disk.batches[batch].items, ids, |ids|)
    requires slot < |ids| && FailedSlot(s.disk, s.disk.batches[batch].items[slot])
    ensures var crashed := Do(Do(t, PutBatch(batch, RetryBatch(s.disk, batch, ids))), Crash);
      Stranded(crashed, ids[slot]) && crashed.disk.batches[batch].items[slot] == ids[slot]
  {
    assert Stands(s.disk, t, s.disk.batches[batch].items[slot], ids[slot]);
    assert ids[slot] !in s.disk.active;
    CrashStrands(Do(t, PutBatch(batch, RetryBatch(s.disk, batch, ids))), ids[slot]);
  }

  // ---------------------------------------------------------------- results

  ghost predicate KeepsResults(s: State, t: State) {
    ResultsOk(s.disk) ==> ResultsOk(t.disk)
  }

  lemma EnqueuedResults(s: State, t: State, items: seq<Work>, batch: BatchId, ids: seq<RunId>)
    requires |ids| == |items| && Enqueued(s, t, items, batch, ids, |ids|)
    ensures KeepsResults(s, t)
  {
    assert ids[..|ids|] == ids;
    forall id | id in t.disk.rows && id !in s.disk.rows ensures t.disk.rows[id].result.None? {
      var i :| 0 <= i < |ids| && ids[i] == id;
      assert Started(t, ids[i], NewRow(batch, i, items[i]));
    }
  }

  lemma RetriedResults(s: State, t: State, items: seq<RunId>, ids: seq<RunId>)
    requires |ids| == |items| && Retried(s, t, items, ids, |ids|)
    ensures KeepsResults(s, t)
  {
  }

  /** A commit whose result, if it names one, is published by the same call or was published before. */
  predicate Paired(d: Disk, result: Option<ResultId>, publish: Option<ResultId>) {
    result.None? || publish == result || result.value in d.results
  }

  function Publicised(d: Disk, publish: Option<ResultId>): Disk {
    if publish.Some? then d.(results := d.results + {publish.value}) else d
  }

  lemma PairedPoints(d: Disk, id: RunId, row: Row, publish: Option<ResultId>)
    ensures PointsToPublished(Publicised(d, publish), PutRow(id, row)) <==> Paired(d, row.result, publish)
  {
    var now := Publicised(d, publish);
    if row.result.Some? {
      assert row.result.value in now.results <==> row.result.value in d.results || publish == row.result;
    }
  }

  function CommitWrites(id: RunId, row: Row, publish: Option<ResultId>, roster: seq<RunId>): seq<Write> {
    (if publish.Some? then [Publish(publish.value)] else []) + [PutRow(id, row), PutActive(roster)]
  }

  lemma DoOneMore(s: State, ws: seq<Write>, w: Write)
    ensures DoAll(s, ws + [w]) == Do(DoAll(s, ws), w)
  {
    assert (ws + [w])[..|ws|] == ws;
  }

  lemma CommitRuns(s: State, id: RunId, row: Row, publish: Option<ResultId>, roster: seq<RunId>)
    ensures var before := s.(disk := Publicised(s.disk, publish));
      DoAll(s, CommitWrites(id, row, publish, roster)) == Do(Do(before, PutRow(id, row)), PutActive(roster))
  {
    var first: seq<Write> := if publish.Some? then [Publish(publish.value)] else [];
    if publish.Some? { DoOneMore(s, [], Publish(publish.value)); }
    DoOneMore(s, first, PutRow(id, row));
    DoOneMore(s, first + [PutRow(id, row)], PutActive(roster));
    assert CommitWrites(id, row, publish, roster) == first + [PutRow(id, row)] + [PutActive(roster)];
  }

  ghost predicate AllPublished(s: State, ws: seq<Write>) {
    forall k :: 0 <= k <= |ws| ==> ResultsOk(DoAll(s, ws[..k]).disk)
  }

  /** Stopping within a longer list of replacements is stopping within the list, or at its end. */
  lemma PublishedPrefixes(s: State, ws: seq<Write>, w: Write)
    ensures AllPublished(s, ws + [w]) <==> AllPublished(s, ws) && ResultsOk(DoAll(s, ws + [w]).disk)
  {
    var more := ws + [w];
    assert more[..|more|] == more;
    forall k | 0 <= k <= |ws| ensures more[..k] == ws[..k] {}
    if AllPublished(s, more) {
      forall k | 0 <= k <= |ws| ensures ResultsOk(DoAll(s, ws[..k]).disk) {
        assert ResultsOk(DoAll(s, more[..k]).disk);
      }
      assert ResultsOk(DoAll(s, more[..|more|]).disk);
    }
    if AllPublished(s, ws) && ResultsOk(DoAll(s, more).disk) {
      forall k | 0 <= k <= |more| ensures ResultsOk(DoAll(s, more[..k]).disk) {
        if k <= |ws| { assert ResultsOk(DoAll(s, ws[..k]).disk); }
      }
    }
  }

  /** One more replacement, at whose end and at every crash before it all pointers are published. */
  lemma OneMorePublished(s: State, ws: seq<Write>, w: Write)
    ensures AllPublished(s, ws + [w]) <==> AllPublished(s, ws) && PointsToPublished(DoAll(s, ws).disk, w)
  {
    PublishedPrefixes(s, ws, w);
    DoOneMore(s, ws, w);
    if AllPublished(s, ws) {
      assert ws[..|ws|] == ws;
      assert ResultsOk(DoAll(s, ws[..|ws|]).disk);
      WriteKeepsResults(DoAll(s, ws), w);
    }
  }

  function PublishWrites(publish: Option<ResultId>): seq<Write> {
    if publish.Some? then [Publish(publish.value)] else []
  }

  lemma PublishFirst(s: State, publish: Option<ResultId>)
    requires ResultsOk(s.disk)
    ensures AllPublished(s, PublishWrites(publish))
    ensures DoAll(s, PublishWrites(publish)) == s.(disk := Publicised(s.disk, publish))
  {
    assert AllPublished(s, []);
    if publish.Some? {
      OneMorePublished(s, [], Publish(publish.value));
      DoOneMore(s, [], Publish(publish.value));
      assert [] + [Publish(publish.value)] == PublishWrites(publish);
    }
  }

  /** A commit, stopped after any of its replacements or not at all, leaves no pointer to an unpublished
      result exactly when it is paired. */
  lemma CommitIsPublished(s: State, id: RunId, row: Row, publish: Option<ResultId>, roster: seq<RunId>)
    requires ResultsOk(s.disk)
    ensures AllPublished(s, CommitWrites(id, row, publish, roster)) <==> Paired(s.disk, row.result, publish)
  {
    var first := PublishWrites(publish);
    PublishFirst(s, publish);
    PairedPoints(s.disk, id, row, publish);
    OneMorePublished(s, first, PutRow(id, row));
    OneMorePublished(s, first + [PutRow(id, row)], PutActive(roster));
    assert CommitWrites(id, row, publish, roster) == first + [PutRow(id, row)] + [PutActive(roster)];
  }

  // ---------------------------------------------------------------- reservations

  /** Limits of the runs that hold a reservation, expired ones included. */
  function Grants(d: Disk, ids: seq<RunId>): seq<WorkerLimits> {
    if ids == [] then []
    else Grants(d, ids[..|ids| - 1]) + if Reserves(d, ids[|ids| - 1]) then [d.rows[ids[|ids| - 1]].work.limits] else []
  }

  function Holders(d: Disk, ids: seq<RunId>): seq<RunId> {
    if ids == [] then []
    else Holders(d, ids[..|ids| - 1]) + if Reserves(d, ids[|ids| - 1]) then [ids[|ids| - 1]] else []
  }

  predicate Reserves(d: Disk, id: RunId) {
    id in d.rows && d.rows[id].status.Active()
  }

  lemma {:induction false} GrantsOfHolders(d: Disk, ids: seq<RunId>)
    requires NoDup(ids)
    ensures forall id :: id in Holders(d, ids) <==> id in ids && Reserves(d, id)
    ensures NoDup(Holders(d, ids)) && |Grants(d, ids)| == |Holders(d, ids)|
    ensures forall i :: 0 <= i < |Holders(d, ids)| ==>
      Holders(d, ids)[i] in d.rows && Grants(d, ids)[i] == d.rows[Holders(d, ids)[i]].work.limits
  {
    if ids != [] {
      var front, last := ids[..|ids| - 1], ids[|ids| - 1];
      GrantsOfHolders(d, front);
      assert ids == front + [last] && last !in front;
    }
  }

  /** The limits read from the unfinished runs of the roster are everything that is reserved: no claimed
      run is missing from the roster. */
  lemma GrantsAreReserved(s: State, q: Queue)
    requires Inv(s, q)
    ensures Total(Grants(s.disk, LiveRoster(s.disk))) == Reserved(s.disk)
  {
    var d, roster := s.disk, LiveRoster(s.disk);
    LiveRosterMembers(d);
    GrantsOfHolders(d, roster);
    var order := Holders(d, roster);
    forall r | r in ActiveIds(d) ensures r in order { assert r in d.active && Live(d, r); }
    LoadFits(LimitsOf(d), ActiveIds(d), order, Grants(d, roster), q.budget);
  }

  /** What is read fits with one more run's limits exactly when, over any list of the claimed runs, there are
      few enough and each of the four sums stays within its bound. */
  lemma FitsBesideExactly(
      s: State, q: Queue, limits: WorkerLimits, order: seq<RunId>, claimed: seq<WorkerLimits>)
    requires Inv(s, q)
    requires forall r :: r in order <==> r in s.disk.rows && s.disk.rows[r].status in {Starting, Running}
    requires forall i, j :: 0 <= i < j < |order| ==> order[i] != order[j]
    requires |claimed| == |order| && forall i :: 0 <= i < |order| ==> claimed[i] == s.disk.rows[order[i]].work.limits
    ensures q.budget.Fits(Grants(s.disk, LiveRoster(s.disk)) + [limits]) <==>
      && |order| + 1 <= q.budget.concurrency
      && Sum(CpuMillis(claimed)) + limits.cpuMillis + q.budget.reserveCpuMillis <= q.budget.cpuMillis
      && Sum(MemoryBytes(claimed)) + limits.memoryBytes + q.budget.reserveMemoryBytes <= q.budget.memoryBytes
      && Sum(Pids(claimed)) + limits.pids + q.budget.reservePids <= q.budget.pids
      && Sum(TmpBytes(claimed)) + limits.tmpBytes <= q.budget.tmpBytes
  {
    var grants := Grants(s.disk, LiveRoster(s.disk));
    GrantsAreReserved(s, q);
    LoadFits(LimitsOf(s.disk), ActiveIds(s.disk), order, claimed, q.budget);
    TotalIsSums(claimed);
    assert (grants + [limits])[..|grants|] == grants;
  }

  // ---------------------------------------------------------------- the repository

  predicate Holder(d: Disk, claim: Claim, now: int) {
    claim.runId in d.rows && HeldBy(d.rows[claim.runId], claim, now)
  }

  /** What an operation on a named run answers: an unknown run is refused. */
  function Answer(d: Disk, id: RunId, accepted: bool): Result<bool> {
    if id in d.rows then Ok(accepted) else Err(DataRestricted)
  }

  class LocalRunRepository {
    const queue: Queue
    var state: State
    /** Every replacement since `start`, in order. */
    ghost const start: State
    ghost var log: seq<Write>

    constructor (queue: Queue, state: State)
      requires Inv(state, queue) && state.pending == {}
      ensures Valid() && this.queue == queue && this.state == state && log == []
    {
      this.queue, this.state, start, log := queue, state, state, [];
    }

    /** The files came about by allowed replacements only. */
    ghost predicate Sound()
      reads this
    {
      && Inv(start, queue) && AllAllowed(start, log, queue) && state == DoAll(start, log)
      && Inv(state, queue)
    }

    /** Between operations. */
    ghost predicate Valid()
      reads this
    {
      Sound() && state.pending == {}
    }

    /** One atomic replacement; nothing else ever changes the files, so an operation may stop anywhere. */
    method Put(w: Write)
      requires Sound() && Allowed(state, w, queue)
      modifies this
      ensures Sound() && state == Do(old(state), w) && log == old(log) + [w]
      ensures old(ResultsOk(state.disk)) ==> (ResultsOk(state.disk) <==> PointsToPublished(old(state.disk), w))
    {
      WriteKeepsInv(state, w, queue);
      WriteKeepsResults(state, w);
      state := Do(state, w);
      log := log + [w];
    }

    method Active() returns (ids: seq<RunId>)
      requires Sound()
      ensures ids == LiveRoster(state.disk)
    {
      ids := ActiveOf(state.disk);
    }

    static method ActiveOf(d: Disk) returns (ids: seq<RunId>)
      requires forall id :: id in d.active ==> id in d.rows
      ensures ids == LiveRoster(d)
    {
      ids := [];
      for i := 0 to |d.active|
        invariant ids == Roster(d, i)
      {
        if !d.rows[d.active[i]].status.Terminal() { ids := ids + [d.active[i]]; }
      }
    }

    /** Replaces the roster by its unfinished runs. */
    method SaveActive()
      requires Sound()
      modifies this
      ensures Sound() && state == Do(old(state), PutActive(LiveRoster(old(state.disk))))
      ensures ResultsOk(state.disk) <==> old(ResultsOk(state.disk))
      ensures log == old(log) + [PutActive(LiveRoster(old(state.disk)))]
      ensures state.disk == old(state.disk).(active := state.disk.active) && state.pending == old(state.pending)
      ensures RosterPruned(old(state.disk), state.disk)
    {
      var ids := Active();
      LiveRosterMembers(state.disk);
      LiveRosterInOrder(state.disk);
      Put(PutActive(ids));
    }

    /** Exactly the unfinished runs stay on the roster, and in their order. */
    static ghost predicate RosterPruned(d: Disk, e: Disk) {
      && (forall id :: id in e.active <==> id in d.active && Unfinished(d, id))
      && (forall i, j :: 0 <= i < j < |e.active| ==> e.active[i] != e.active[j])
      && (forall p, q :: 0 <= p < q < |d.active| && Unfinished(d, d.active[p]) && Unfinished(d, d.active[q]) ==>
            Follows(e.active, d.active[p], d.active[q]))
    }

    /** What a batch is refused for. */
    function EnqueueRefusal(items: seq<Work>): Option<Fault>
      reads this
    {
      if !(1 <= |items| <= 256) then Some(ResourceLimit)
      else if !OneSignature(items) then Some(InvalidContract)
      else if exists i :: 0 <= i < |items| && !queue.budget.Fits([items[i].limits]) then Some(ResourceLimit)
      else if |LiveRoster(state.disk)| + |items| > queue.limit then Some(ResourceLimit)
      else None
    }

    /** The end of an enqueue and of a retry: the batch file, then the roster. */
    method Accept(batch: BatchId, content: Batch, roster: seq<RunId>)
      requires Sound() && Allowed(state, PutBatch(batch, content), queue) && Allowed(state, PutActive(roster), queue)
      modifies this
      ensures Valid() && KeepsResults(old(state), state) && log == old(log) + Acceptance(batch, content, roster)
      ensures state.disk == old(state.disk).(batches := old(state.disk).batches[batch := content], active := roster)
    {
      ghost var s := state;
      Put(PutBatch(batch, content));
      SaveRoster(roster);
      SameRowsResults(s, state);
    }

    /** The roster, and the operation is done. */
    method SaveRoster(roster: seq<RunId>)
      requires Sound() && Allowed(state, PutActive(roster), queue)
      modifies this
      ensures Valid() && log == old(log) + [PutActive(roster), Crash]
      ensures state.disk == old(state.disk).(active := roster)
    {
      Put(PutActive(roster));
      Put(Crash);
    }

    ghost predicate EnqueueProgress(
        s: State, before: seq<Write>, items: seq<Work>, batch: BatchId, ids: seq<RunId>, i: nat)
      reads this
    {
      Sound() && Enqueued(s, state, items, batch, ids, i) && log == before + EnqueueRows(items, batch, ids, i)
    }

    method WriteRunFile(
        ghost s: State, ghost before: seq<Write>, items: seq<Work>, batch: BatchId, ids: seq<RunId>, i: nat)
      requires i < |items| == |ids| && Unused(s.disk, ids) && LimitsAccepted(items)
      requires EnqueueProgress(s, before, items, batch, ids, i)
      modifies this
      ensures EnqueueProgress(s, before, items, batch, ids, i + 1)
    {
      EnqueueOne(s, state, items, batch, ids, i, queue);
      Put(PutRow(ids[i], NewRow(batch, i, items[i])));
    }

    method WriteRunFiles(items: seq<Work>, batch: BatchId, ids: seq<RunId>)
      requires Valid() && |ids| == |items| && Unused(state.disk, ids) && LimitsAccepted(items)
      modifies this
      ensures EnqueueProgress(old(state), old(log), items, batch, ids, |items|)
    {
      ghost var s, before := state, log;
      assert log == log + [];
      for i := 0 to |items|
        invariant EnqueueProgress(s, before, items, batch, ids, i)
      {
        WriteRunFile(s, before, items, batch, ids, i);
      }
    }

    /** Writes every run file, then the batch file, then the roster. `batch` and `ids` are the fresh
        random identities. */
    method EnqueueBatch(items: seq<Work>, batch: BatchId, ids: seq<RunId>) returns (r: Result<()>)
      requires Valid() && |ids| == |items| && Unused(state.disk, ids) && batch !in state.disk.batches
      requires LimitsAccepted(items)
      modifies this
      ensures Valid() && KeepsResults(old(state), state)
      ensures r == if old(EnqueueRefusal(items)).Some? then Err(old(EnqueueRefusal(items)).value) else Ok(())
      ensures r.Err? ==> state == old(state) && log == old(log)
      ensures r.Ok? ==>
        log == old(log) + EnqueueRows(items, batch, ids, |items|)
          + Acceptance(batch, Batch(items[0].owner, ids), LiveRoster(old(state.disk)) + ids)
      ensures r.Ok? ==> state.disk.batches == old(state.disk).batches[batch := Batch(items[0].owner, ids)]
      ensures r.Ok? ==> state.disk.active == LiveRoster(old(state.disk)) + ids
      ensures r.Ok? ==> forall i :: 0 <= i < |items| ==>
        ids[i] in state.disk.rows && state.disk.rows[ids[i]] == NewRow(batch, i, items[i])
      // which batches, and what becomes of them
      ensures r.Ok? <==> old(Admits(state.disk, items))
      ensures r == Err(InvalidContract) <==> 1 <= |items| <= 256 && SomeDiffers(items)
      ensures r.Err? ==> r.fault in {ResourceLimit, InvalidContract}
      ensures r.Ok? ==> EnqueueDone(old(state.disk), state.disk, items, batch, ids)
      ensures r.Ok? ==> EnqueueLogged(old(log), log, items, batch, ids, state.disk.active)
    {
      EnqueueRefusedExactly(items);
      var refusal := EnqueueRefusal(items);
      if refusal.Some? { return Err(refusal.value); }
      ghost var s := state;
      var active := Active();
      WriteRunFiles(items, batch, ids);
      AcceptEnqueued(s, state, items, batch, ids);
      EnqueuedResults(s, state, items, batch, ids);
      ghost var mid := state;
      Accept(batch, Batch(items[0].owner, ids), active + ids);
      EnqueuedIsDone(s, mid, state.disk, items, batch, ids);
      EnqueueIsLogged(old(log), log, items, batch, ids, state.disk.active);
      r := Ok(());
    }

    /** One worker with these limits fits the group budget. */
    predicate AloneFits(limits: WorkerLimits) {
      && 1 <= queue.budget.concurrency
      && limits.cpuMillis + queue.budget.reserveCpuMillis <= queue.budget.cpuMillis
      && limits.memoryBytes + queue.budget.reserveMemoryBytes <= queue.budget.memoryBytes
      && limits.pids + queue.budget.reservePids <= queue.budget.pids
      && limits.tmpBytes <= queue.budget.tmpBytes
    }

    lemma AloneExactly(limits: WorkerLimits)
      ensures queue.budget.Fits([limits]) <==> AloneFits(limits)
    {
      FitsExactly(queue.budget, [limits]);
    }

    /** A batch is admitted when it has 1 to 256 items that differ in their parameters only, each fits the
        group budget by itself, and with the unfinished runs of the roster they are within the queue's limit. */
    predicate Admits(d: Disk, items: seq<Work>) {
      && 1 <= |items| <= 256
      && (forall i :: 0 <= i < |items| ==>
            && items[i].owner == items[0].owner && items[i].signature == items[0].signature
            && items[i].source == items[0].source && items[i].limits == items[0].limits)
      && (forall i :: 0 <= i < |items| ==> AloneFits(items[i].limits))
      && |set id | id in d.active && Unfinished(d, id)| + |items| <= queue.limit
    }

    static predicate SomeDiffers(items: seq<Work>) {
      exists i ::
        && 0 <= i < |items|
        && (|| items[i].owner != items[0].owner || items[i].signature != items[0].signature
            || items[i].source != items[0].source || items[i].limits != items[0].limits)
    }

    lemma EnqueueRefusedExactly(items: seq<Work>)
      requires NoDup(state.disk.active)
      ensures EnqueueRefusal(items) == None <==> Admits(state.disk, items)
      ensures EnqueueRefusal(items) in {None, Some(ResourceLimit), Some(InvalidContract)}
      ensures EnqueueRefusal(items) == Some(InvalidContract) <==> 1 <= |items| <= 256 && SomeDiffers(items)
    {
      LiveRosterInOrder(state.disk);
      forall i | 0 <= i < |items| ensures queue.budget.Fits([items[i].limits]) <==> AloneFits(items[i].limits) {
        AloneExactly(items[i].limits);
      }
    }

    /** The run files of the batch are new and as a queued run begins; no other run file has changed. */
    static predicate EnqueueDone(d: Disk, e: Disk, items: seq<Work>, batch: BatchId, ids: seq<RunId>) {
      && |ids| == |items| > 0
      && e.rows.Keys == d.rows.Keys + Members(ids)
      && (forall id :: id in d.rows ==> id in e.rows && e.rows[id] == d.rows[id])
      && (forall i :: 0 <= i < |ids| ==>
            ids[i] in e.rows && e.rows[ids[i]] == Row(Queued, false, 0, None, 0, batch, i, None, items[i], None))
      && e.batches == d.batches[batch := Batch(items[0].owner, ids)] && e.results == d.results
    }

    /** In this order: the run files, the batch file, the roster. */
    static predicate EnqueueLogged(
        before: seq<Write>, after: seq<Write>, items: seq<Work>, batch: BatchId, ids: seq<RunId>, roster: seq<RunId>)
    {
      && |ids| == |items| > 0 && |after| == |before| + |ids| + 3 && after[..|before|] == before
      && (forall i :: 0 <= i < |ids| ==>
            after[|before| + i] == PutRow(ids[i], Row(Queued, false, 0, None, 0, batch, i, None, items[i], None)))
      && after[|before| + |ids|] == PutBatch(batch, Batch(items[0].owner, ids))
      && after[|before| + |ids| + 1] == PutActive(roster) && after[|before| + |ids| + 2] == Crash
    }

    static lemma EnqueueIsLogged(
        before: seq<Write>, after: seq<Write>, items: seq<Work>, batch: BatchId, ids: seq<RunId>, roster: seq<RunId>)
      requires |ids| == |items| > 0
      requires after
        == before + EnqueueRows(items, batch, ids, |items|) + Acceptance(batch, Batch(items[0].owner, ids), roster)
      ensures EnqueueLogged(before, after, items, batch, ids, roster)
    {
      EnqueueRowsAt(items, batch, ids, |items|);
      assert after[..|before|] == before;
    }

    static lemma EnqueuedIsDone(
        s: State, t: State, e: Disk, items: seq<Work>, batch: BatchId, ids: seq<RunId>)
      requires |ids| == |items| > 0 && Enqueued(s, t, items, batch, ids, |ids|)
      requires e.rows == t.disk.rows && e.results == t.disk.results
      requires e.batches == t.disk.batches[batch := Batch(items[0].owner, ids)]
      ensures EnqueueDone(s.disk, e, items, batch, ids)
    {
      assert ids[..|ids|] == ids;
      assert e.rows.Keys == s.disk.rows.Keys + Members(ids);
      forall i | 0 <= i < |ids|
        ensures ids[i] in e.rows && e.rows[ids[i]] == Row(Queued, false, 0, None, 0, batch, i, None, items[i], None)
      {
        assert Started(t, ids[i], NewRow(batch, i, items[i]));
      }
    }

    /** The batch file and the roster an enqueue writes are allowed ones. */
    lemma AcceptEnqueued(s: State, t: State, items: seq<Work>, batch: BatchId, ids: seq<RunId>)
      requires Inv(s, queue) && |ids| == |items| && items != [] && Unused(s.disk, ids)
      requires |LiveRoster(s.disk)| + |ids| <= queue.limit
      requires Enqueued(s, t, items, batch, ids, |ids|) && batch !in s.disk.batches
      ensures Allowed(t, PutBatch(batch, Batch(items[0].owner, ids)), queue)
      ensures Allowed(t, PutActive(LiveRoster(s.disk) + ids), queue)
    {
      forall i | 0 <= i < |ids| ensures InSlot(t.disk, batch, i, ids[i]) {
        assert Started(t, ids[i], NewRow(batch, i, items[i]));
      }
      assert ids[..|ids|] == ids;
      forall i | 0 <= i < |ids| ensures Live(t.disk, ids[i]) && ids[i] in t.pending {
        assert Started(t, ids[i], NewRow(batch, i, items[i]));
      }
      RosterGrows(s, t, ids);
    }

    /** Adding new runs of the operation in progress to the unfinished ones of the roster. */
    lemma RosterGrows(s: State, t: State, ids: seq<RunId>)
      requires Inv(s, queue) && t.disk.active == s.disk.active && NoDup(ids)
      requires |LiveRoster(s.disk)| + |ids| <= queue.limit
      requires forall id :: id in s.disk.rows ==> id in t.disk.rows && t.disk.rows[id] == s.disk.rows[id]
      requires forall i :: 0 <= i < |ids| ==> ids[i] !in s.disk.rows && Live(t.disk, ids[i]) && ids[i] in t.pending
      ensures Allowed(t, PutActive(LiveRoster(s.disk) + ids), queue)
    {
      var active := LiveRoster(s.disk);
      LiveRosterMembers(s.disk);
      forall i, j | 0 <= i < |active| && 0 <= j < |ids| ensures active[i] != ids[j] { assert active[i] in active; }
      forall id | id in active + ids ensures Live(t.disk, id) && (id in t.disk.active || id in t.pending) {
        if id in active { assert Live(s.disk, id); } else { var i :| 0 <= i < |ids| && ids[i] == id; }
      }
      forall id | id in t.disk.active && Live(t.disk, id) ensures id in active + ids { assert Live(s.disk, id); }
    }

    /** A new run for every failed slot of a batch; everything else stays. `ids` are fresh identities,
        one for each slot that might need one. */
    method RetryFailed(owner: int, batch: BatchId, ids: seq<RunId>) returns (r: Result<seq<RunId>>)
      requires Valid() && Unused(state.disk, ids)
      requires batch in state.disk.batches ==> |ids| == |state.disk.batches[batch].items|
      modifies this
      ensures Valid() && KeepsResults(old(state), state)
      ensures r.Err? ==> state == old(state) && log == old(log)
      ensures if Owned(old(state).disk, batch, owner) then RetryAnswer(old(state.disk), batch, ids, r)
              else r == Err(DataRestricted)
      ensures r.Ok? ==> log == old(log) + RetryWrites(old(state.disk), batch, ids)
      ensures r.Ok? ==> RetryDone(old(state), state, batch, ids)
      // slot by slot
      ensures r == Err(DataRestricted) <==>
        batch !in old(state.disk).batches || old(state.disk).batches[batch].owner != owner
      ensures r.Ok? || r.fault in {DataRestricted, ResourceLimit}
      ensures r != Err(DataRestricted) ==>
        (r.Ok? <==> |set id | id in old(state.disk).active && Unfinished(old(state.disk), id)|
                      + |FailedSlots(old(state.disk), batch)| <= queue.limit)
      ensures r.Ok? ==> SlotsRetried(old(state.disk), state.disk, batch, ids)
      ensures r.Ok? ==> TheReplacements(old(state.disk), batch, ids, r.value)
      ensures r.Ok? ==> RetryLogged(old(log), log, old(state.disk), state.disk, batch, ids, r.value)
    {
      var d := state.disk;
      if batch !in d.batches || d.batches[batch].owner != owner { return Err(DataRestricted); }
      var active := Active();
      var replacements := FailedIds(d.batches[batch].items, ids);
      ReplacementsBySlots(d, batch, ids);
      LiveRosterInOrder(d);
      if |active| + |replacements| > queue.limit { return Err(ResourceLimit); }
      WriteRetry(batch, ids, active, replacements);
      RetryBySlots(d, state, batch, ids);
      RetryIsLogged(old(log), log, d, state.disk, batch, ids);
      r := Ok(replacements);
    }

    /** The slots of a batch whose run has failed. */
    static function FailedSlots(d: Disk, batch: BatchId): set<int> {
      if batch in d.batches then
        set i | 0 <= i < |d.batches[batch].items| && d.batches[batch].items[i] in d.rows
                && d.rows[d.batches[batch].items[i]].status == Failed
      else {}
    }

    /** Each failed slot holds a new queued run of the same work that names the one it replaces; every other
        slot, every other batch and every run file there was are as before. */
    static predicate SlotsRetried(d: Disk, e: Disk, batch: BatchId, ids: seq<RunId>) {
      && batch in d.batches && batch in e.batches && |ids| == |d.batches[batch].items| == |e.batches[batch].items|
      && e.batches == d.batches[batch := e.batches[batch]] && e.batches[batch].owner == d.batches[batch].owner
      && (forall i :: 0 <= i < |ids| ==>
            var prior, next := d.batches[batch].items[i], e.batches[batch].items[i];
            if i in FailedSlots(d, batch) then
              && next == ids[i] && next in e.rows
              && e.rows[next] == d.rows[prior].(
                   status := Queued, cancelRequested := false, fence := 0, token := None, leaseUntil := 0,
                   retryOf := Some(prior), result := None)
            else next == prior)
      && (forall id :: id in d.rows ==> id in e.rows && e.rows[id] == d.rows[id])
    }

    /** The run file of a new run: queued, in the place of the failed run it names. */
    static predicate IsRetryWrite(d: Disk, batch: BatchId, ids: seq<RunId>, w: Write, id: RunId)
      requires batch in d.batches && |ids| == |d.batches[batch].items|
    {
      exists i ::
        && i in FailedSlots(d, batch) && ids[i] == id
        && w == PutRow(id, d.rows[d.batches[batch].items[i]].(
             status := Queued, cancelRequested := false, fence := 0, token := None, leaseUntil := 0,
             retryOf := Some(d.batches[batch].items[i]), result := None))
    }

    /** In this order: the run files of the new runs, the batch file, the roster. */
    static predicate RetryLogged(
        before: seq<Write>, after: seq<Write>, d: Disk, e: Disk, batch: BatchId, ids: seq<RunId>, list: seq<RunId>)
    {
      && batch in d.batches && batch in e.batches && |ids| == |d.batches[batch].items|
      && |after| == |before| + |list| + 3 && after[..|before|] == before
      && (forall k :: 0 <= k < |list| ==> IsRetryWrite(d, batch, ids, after[|before| + k], list[k]))
      && after[|before| + |list|] == PutBatch(batch, e.batches[batch])
      && after[|before| + |list| + 1] == PutActive(e.active) && after[|before| + |list| + 2] == Crash
    }

    static lemma RetryIsLogged(
        before: seq<Write>, after: seq<Write>, d: Disk, e: Disk, batch: BatchId, ids: seq<RunId>)
      requires batch in d.batches && |ids| == |d.batches[batch].items|
      requires after == before + RetryWrites(d, batch, ids)
      requires e.batches == d.batches[batch := RetryBatch(d, batch, ids)] && e.active == RetryRoster(d, batch, ids)
      ensures RetryLogged(before, after, d, e, batch, ids, Replaced(d, d.batches[batch].items, ids, |ids|))
    {
      var items := d.batches[batch].items;
      var list, rows := Replaced(d, items, ids, |ids|), RetryRows(d, items, ids, |ids|);
      RetryRowsAt(d, items, ids, |ids|, 0);
      assert after[..|before|] == before;
      forall k | 0 <= k < |list| ensures IsRetryWrite(d, batch, ids, after[|before| + k], list[k]) {
        RetryRowsAt(d, items, ids, |ids|, k);
        assert after[|before| + k] == rows[k];
        var i :|
          && 0 <= i < |ids| && FailedSlot(d, items[i]) && ids[i] == list[k]
          && rows[k] == PutRow(list[k], Replacement(d.rows[items[i]], items[i]));
        assert i in FailedSlots(d, batch);
      }
    }

    /** The new runs, in slot order. */
    static ghost predicate TheReplacements(d: Disk, batch: BatchId, ids: seq<RunId>, list: seq<RunId>) {
      && batch in d.batches && |ids| == |d.batches[batch].items|
      && (forall id :: id in list <==> exists i :: i in FailedSlots(d, batch) && ids[i] == id)
      && (forall i, j :: 0 <= i < j < |list| ==> list[i] != list[j])
      && (forall i, j :: i in FailedSlots(d, batch) && j in FailedSlots(d, batch) && i < j ==>
            Follows(list, ids[i], ids[j]))
    }

    static lemma RetryBySlots(d: Disk, t: State, batch: BatchId, ids: seq<RunId>)
      requires batch in d.batches && |ids| == |d.batches[batch].items|
      requires t.disk.batches == d.batches[batch := RetryBatch(d, batch, ids)]
      requires forall id :: id in d.rows ==> id in t.disk.rows && t.disk.rows[id] == d.rows[id]
      requires forall i :: 0 <= i < |ids| && FailedSlot(d, d.batches[batch].items[i]) ==>
        SlotReplaced(d, t, d.batches[batch].items[i], ids[i])
      ensures SlotsRetried(d, t.disk, batch, ids)
    {
      var items := d.batches[batch].items;
      forall i | 0 <= i < |ids| ensures i in FailedSlots(d, batch) <==> FailedSlot(d, items[i]) {}
      forall i | i in FailedSlots(d, batch) ensures SlotReplaced(d, t, items[i], ids[i]) {}
    }

    static lemma ReplacementsBySlots(d: Disk, batch: BatchId, ids: seq<RunId>)
      requires batch in d.batches && |ids| == |d.batches[batch].items| && NoDup(ids)
      ensures TheReplacements(d, batch, ids, Replaced(d, d.batches[batch].items, ids, |ids|))
      ensures |Replaced(d, d.batches[batch].items, ids, |ids|)| == |FailedSlots(d, batch)|
    {
      var items := d.batches[batch].items;
      var list := Replaced(d, items, ids, |ids|);
      ReplacedAre(d, items, ids, |ids|);
      ReplacedCount(d, items, ids, |ids|);
      assert FailedSlots(d, batch) == set i | 0 <= i < |ids| && FailedSlot(d, items[i]);
      forall i | i in FailedSlots(d, batch) ensures ids[i] in list { InReplaced(d, items, ids, |ids|, i); }
      forall i, j | i in FailedSlots(d, batch) && j in FailedSlots(d, batch) && i < j
        ensures Follows(list, ids[i], ids[j])
      {
        ReplacedInOrder(d, items, ids, |ids|, i, j);
      }
      forall id | id in list ensures exists i :: i in FailedSlots(d, batch) && ids[i] == id {
        var i :| 0 <= i < |ids| && Fills(d, items, ids, i, id);
        assert i in FailedSlots(d, batch);
      }
    }

    static predicate Owned(d: Disk, batch: BatchId, owner: int) {
      batch in d.batches && d.batches[batch].owner == owner
    }

    method WriteRetry(batch: BatchId, ids: seq<RunId>, active: seq<RunId>, replacements: seq<RunId>)
      requires Valid() && Unused(state.disk, ids)
      requires batch in state.disk.batches && |ids| == |state.disk.batches[batch].items|
      requires active + replacements == RetryRoster(state.disk, batch, ids)
      requires |active| + |replacements| <= queue.limit
      modifies this
      ensures Valid() && KeepsResults(old(state), state) && log == old(log) + RetryWrites(old(state.disk), batch, ids)
      ensures RetryDone(old(state), state, batch, ids)
    {
      ghost var s, before := state, log;
      var content := state.disk.batches[batch];
      var next := RetryItems(state.disk, content.items, ids, |ids|);
      WriteReplacements(content.items, ids);
      AcceptRetry(s, before, batch, ids, Batch(content.owner, next), active + replacements);
    }

    method AcceptRetry(
        ghost s: State, ghost before: seq<Write>, batch: BatchId, ids: seq<RunId>, content: Batch, roster: seq<RunId>)
      requires Inv(s, queue) && batch in s.disk.batches && |ids| == |s.disk.batches[batch].items|
      requires Unused(s.disk, ids) && RetryProgress(s, before, s.disk.batches[batch].items, ids, |ids|)
      requires content == RetryBatch(s.disk, batch, ids)
      requires roster == RetryRoster(s.disk, batch, ids) && |roster| <= queue.limit
      modifies this
      ensures Valid() && KeepsResults(s, state) && log == before + RetryWrites(s.disk, batch, ids)
      ensures RetryDone(s, state, batch, ids)
    {
      ghost var mid := state;
      RetriedResults(s, mid, s.disk.batches[batch].items, ids);
      AcceptRetried(s, mid, batch, ids);
      Accept(batch, content, roster);
      AcceptedIsDone(s, mid, state, batch, ids);
      RetryLog(s.disk, before, batch, ids);
    }

    static lemma RetryLog(d: Disk, before: seq<Write>, batch: BatchId, ids: seq<RunId>)
      requires batch in d.batches && |ids| == |d.batches[batch].items|
      ensures (before + RetryRows(d, d.batches[batch].items, ids, |ids|))
        + Acceptance(batch, RetryBatch(d, batch, ids), RetryRoster(d, batch, ids))
        == before + RetryWrites(d, batch, ids)
    {
    }

    static lemma SameRowsResults(s: State, t: State)
      requires t.disk.rows == s.disk.rows && t.disk.results == s.disk.results
      ensures KeepsResults(s, t)
    {
    }

    static lemma AcceptedIsDone(s: State, mid: State, t: State, batch: BatchId, ids: seq<RunId>)
      requires batch in s.disk.batches && |ids| == |s.disk.batches[batch].items|
      requires Retried(s, mid, s.disk.batches[batch].items, ids, |ids|)
      requires t.disk == mid.disk.(batches := mid.disk.batches[batch := RetryBatch(s.disk, batch, ids)],
                                   active := RetryRoster(s.disk, batch, ids))
      ensures RetryDone(s, t, batch, ids)
    {
      var items := s.disk.batches[batch].items;
      forall i | 0 <= i < |items| && FailedSlot(s.disk, items[i]) ensures SlotReplaced(s.disk, t, items[i], ids[i]) {
        assert Stands(s.disk, mid, items[i], ids[i]);
      }
    }

    predicate RetryAnswer(d: Disk, batch: BatchId, ids: seq<RunId>, r: Result<seq<RunId>>) {
      batch in d.batches && |ids| == |d.batches[batch].items| &&
      var replaced := Replaced(d, d.batches[batch].items, ids, |ids|);
      r == if |LiveRoster(d)| + |replaced| > queue.limit then Err(ResourceLimit) else Ok(replaced)
    }

    /** Run files of the replacements, then the batch file, then the roster. */
    static function RetryWrites(d: Disk, batch: BatchId, ids: seq<RunId>): seq<Write>
      requires batch in d.batches && |ids| == |d.batches[batch].items|
    {
      RetryRows(d, d.batches[batch].items, ids, |ids|)
      + Acceptance(batch, RetryBatch(d, batch, ids), RetryRoster(d, batch, ids))
    }

    static ghost predicate RetryDone(s: State, t: State, batch: BatchId, ids: seq<RunId>) {
      && batch in s.disk.batches && |ids| == |s.disk.batches[batch].items|
      && t.disk.batches == s.disk.batches[batch := RetryBatch(s.disk, batch, ids)]
      && t.disk.active == RetryRoster(s.disk, batch, ids)
      && (forall id :: id in s.disk.rows ==> id in t.disk.rows && t.disk.rows[id] == s.disk.rows[id])
      && var items := s.disk.batches[batch].items;
         forall i :: 0 <= i < |items| && FailedSlot(s.disk, items[i]) ==> SlotReplaced(s.disk, t, items[i], ids[i])
    }

    static predicate SlotReplaced(d: Disk, t: State, prior: RunId, id: RunId) {
      prior in d.rows && id in t.disk.rows && t.disk.rows[id] == Replacement(d.rows[prior], prior)
    }

    method FailedIds(items: seq<RunId>, ids: seq<RunId>) returns (found: seq<RunId>)
      requires |items| == |ids|
      ensures found == Replaced(state.disk, items, ids, |items|)
    {
      found := [];
      for i := 0 to |items|
        invariant found == Replaced(state.disk, items, ids, i)
      {
        if FailedSlot(state.disk, items[i]) { found := found + [ids[i]]; }
      }
    }

    ghost predicate RetryProgress(s: State, before: seq<Write>, items: seq<RunId>, ids: seq<RunId>, i: nat)
      reads this
    {
      Sound() && Retried(s, state, items, ids, i) && log == before + RetryRows(s.disk, items, ids, i)
    }

    method WriteReplacement(ghost s: State, ghost before: seq<Write>, items: seq<RunId>, ids: seq<RunId>, i: nat)
      requires i < |items| == |ids| && Unused(s.disk, ids) && AllLimitsAccepted(s.disk) && items[i] in s.disk.rows
      requires RetryProgress(s, before, items, ids, i)
      modifies this
      ensures RetryProgress(s, before, items, ids, i + 1)
    {
      if state.disk.rows[items[i]].status == Failed {
        RetryOne(s, state, items, ids, i, queue);
        Put(PutRow(ids[i], Replacement(state.disk.rows[items[i]], items[i])));
      } else {
        RetrySkip(s, state, items, ids, i);
      }
      OneMoreRow(s.disk, before, items, ids, i);
    }

    static lemma OneMoreRow(d: Disk, before: seq<Write>, items: seq<RunId>, ids: seq<RunId>, i: nat)
      requires i < |items| == |ids|
      ensures before + RetryRows(d, items, ids, i + 1)
        == (before + RetryRows(d, items, ids, i)) + RetryRow(d, items[i], ids[i])
    {
    }

    method WriteReplacements(items: seq<RunId>, ids: seq<RunId>)
      requires Valid() && |ids| == |items| && Unused(state.disk, ids)
      requires forall i :: 0 <= i < |items| ==> items[i] in state.disk.rows
      modifies this
      ensures RetryProgress(old(state), old(log), items, ids, |items|)
    {
      ghost var s, before := state, log;
      assert log == log + [];
      for i := 0 to |items|
        invariant RetryProgress(s, before, items, ids, i)
      {
        WriteReplacement(s, before, items, ids, i);
      }
    }

    /** The batch file and the roster a retry writes are allowed ones. */
    lemma AcceptRetried(s: State, t: State, batch: BatchId, ids: seq<RunId>)
      requires Inv(s, queue) && batch in s.disk.batches && |ids| == |s.disk.batches[batch].items|
      requires Unused(s.disk, ids) && Retried(s, t, s.disk.batches[batch].items, ids, |ids|)
      requires |RetryRoster(s.disk, batch, ids)| <= queue.limit
      ensures Allowed(t, PutBatch(batch, RetryBatch(s.disk, batch, ids)), queue)
      ensures Allowed(t, PutActive(RetryRoster(s.disk, batch, ids)), queue)
    {
      var items := s.disk.batches[batch].items;
      var next := RetryItems(s.disk, items, ids, |items|);
      forall i | 0 <= i < |next| ensures InSlot(t.disk, batch, i, next[i]) && SlotMoves(t.disk, items[i], next[i]) {
        assert InSlot(s.disk, batch, i, items[i]);
        if FailedSlot(s.disk, items[i]) { assert Stands(s.disk, t, items[i], ids[i]); }
      }
      var added := Replaced(s.disk, items, ids, |items|);
      ReplacedAre(s.disk, items, ids, |items|);
      forall j | 0 <= j < |added| ensures added[j] !in s.disk.rows && Live(t.disk, added[j]) && added[j] in t.pending {
        assert added[j] in added;
        var i :| 0 <= i < |items| && Fills(s.disk, items, ids, i, added[j]);
        assert Stands(s.disk, t, items[i], ids[i]);
      }
      RosterGrows(s, t, added);
    }

    predicate Takeable(d: Disk, id: RunId) {
      && id in d.rows && d.rows[id].status == Queued && !d.rows[id].cancelRequested
      && queue.budget.Fits(Grants(d, LiveRoster(d)) + [d.rows[id].work.limits])
    }

    static function Claimed(row: Row, token: Token, leaseUntil: int): Row {
      row.(status := Starting, fence := row.fence + 1, token := Some(token), leaseUntil := leaseUntil)
    }

    method ReadGrants(rows: seq<RunId>) returns (grants: seq<WorkerLimits>)
      requires forall id :: id in rows ==> id in state.disk.rows
      ensures grants == Grants(state.disk, rows)
    {
      grants := [];
      for i := 0 to |rows|
        invariant grants == Grants(state.disk, rows[..i])
      {
        assert rows[..i + 1][..i] == rows[..i];
        if state.disk.rows[rows[i]].status.Active() { grants := grants + [state.disk.rows[rows[i]].work.limits]; }
      }
      assert rows[..|rows|] == rows;
    }

    method FirstOf(rows: seq<RunId>, grants: seq<WorkerLimits>) returns (found: Option<RunId>)
      requires rows == LiveRoster(state.disk) && grants == Grants(state.disk, rows)
      requires forall id :: id in rows ==> id in state.disk.rows
      ensures found.None? ==> forall id :: id in rows ==> !Takeable(state.disk, id)
      ensures found.Some? ==> found.value in rows && FirstTakeable(state.disk, found.value)
    {
      for i := 0 to |rows|
        invariant NoneBefore(state.disk, i)
      {
        var row := state.disk.rows[rows[i]];
        if row.status == Queued && !row.cancelRequested && queue.budget.Fits(grants + [row.work.limits]) {
          assert Takeable(state.disk, rows[i]);
          return Some(rows[i]);
        }
      }
      found := None;
    }

    method FindTakeable() returns (found: Option<RunId>)
      requires Sound()
      ensures found.None? ==> forall id :: id in LiveRoster(state.disk) ==> !Takeable(state.disk, id)
      ensures found.Some? ==> found.value in LiveRoster(state.disk) && FirstTakeable(state.disk, found.value)
      ensures found.None? ==> NoneListed(state.disk)
      ensures found.Some? ==> FirstListed(state.disk, found.value)
    {
      LiveRosterMembers(state.disk);
      var rows := Active();
      var grants := ReadGrants(rows);
      found := FirstOf(rows, grants);
      NotListedLive(state.disk);
      if found.Some? { FirstOnRoster(state.disk, found.value); }
    }

    predicate NoneListed(d: Disk) {
      forall id :: id in d.active ==> !Takeable(d, id)
    }

    /** Of all entries of the stored roster the first that may be taken. */
    predicate FirstListed(d: Disk, id: RunId) {
      exists k ::
        && 0 <= k < |d.active| && d.active[k] == id && Takeable(d, id)
        && forall j :: 0 <= j < k ==> !Takeable(d, d.active[j])
    }

    /** What fits beside the limits read from the roster fits beside everything reserved. */
    lemma TakeableFits(id: RunId)
      requires Sound() && Takeable(state.disk, id)
      ensures queue.budget.Allows(Reserved(state.disk).Plus(state.disk.rows[id].work.limits))
    {
      GrantsAreReserved(state, queue);
      var grants, limits := Grants(state.disk, LiveRoster(state.disk)), state.disk.rows[id].work.limits;
      assert (grants + [limits])[..|grants|] == grants;
    }

    /** The first run of the roster that is queued, not cancelled, and fits beside every reservation.
        `token` is the fresh random token. */
    method ClaimNext(now: int, leaseSeconds: int, token: Token) returns (c: Option<Claim>)
      requires Valid()
      modifies this
      ensures Valid() && KeepsResults(old(state), state)
      ensures c.None? ==> state == old(state)
      ensures c.None? ==> forall id :: id in LiveRoster(old(state.disk)) ==> !Takeable(old(state.disk), id)
      ensures c.Some? ==> FirstTakeable(old(state.disk), c.value.runId)
      ensures c.Some? ==> c.value == Claim(c.value.runId, token, old(state.disk).rows[c.value.runId].fence + 1)
      ensures c.Some? ==>
        var row := Claimed(old(state.disk).rows[c.value.runId], token, now + leaseSeconds);
        state == Do(old(state), PutRow(c.value.runId, row))
      // over the roster as it is stored
      ensures c.None? ==> NoneListed(old(state.disk))
      ensures c.Some? ==> FirstListed(old(state.disk), c.value.runId)
      ensures c.Some? ==>
        && c.value.runId in old(state.disk).rows && var row := old(state.disk).rows[c.value.runId];
        && c.value.token == token && c.value.fence == row.fence + 1
        && state.disk == old(state.disk).(rows := old(state.disk).rows[c.value.runId := row.(
             status := Starting, fence := row.fence + 1, token := Some(token), leaseUntil := now + leaseSeconds)])
    {
      var found := FindTakeable();
      if found.None? { return None; }
      MayTake(found.value, token, now + leaseSeconds);
      var row := state.disk.rows[found.value];
      Put(PutRow(found.value, Claimed(row, token, now + leaseSeconds)));
      c := Some(Claim(found.value, token, row.fence + 1));
    }

    lemma MayTake(id: RunId, token: Token, leaseUntil: int)
      requires Sound() && Takeable(state.disk, id) && id in LiveRoster(state.disk)
      ensures Allowed(state, PutRow(id, Claimed(state.disk.rows[id], token, leaseUntil)), queue)
      ensures PointsToPublished(state.disk, PutRow(id, Claimed(state.disk.rows[id], token, leaseUntil)))
        || !ResultsOk(state.disk)
    {
      LiveRosterMembers(state.disk);
      TakeableFits(id);
    }

    lemma NotListedLive(d: Disk)
      requires NoDup(d.active)
      ensures forall id :: id in d.active && Takeable(d, id) ==> id in LiveRoster(d)
    {
      LiveRosterInOrder(d);
    }

    /** The first takeable run of those read is the first on the stored roster. */
    lemma FirstOnRoster(d: Disk, id: RunId)
      requires NoDup(d.active) && FirstTakeable(d, id)
      ensures FirstListed(d, id)
    {
      LiveRosterInOrder(d);
      var n :| 0 <= n < |LiveRoster(d)| && LiveRoster(d)[n] == id && NoneBefore(d, n);
      assert id in LiveRoster(d);
      var k :| 0 <= k < |d.active| && d.active[k] == id;
      forall j | 0 <= j < k ensures !Takeable(d, d.active[j]) {
        if Unfinished(d, d.active[j]) { FoundBefore(LiveRoster(d), d.active[j], n); }
      }
    }

    static lemma FoundBefore(list: seq<RunId>, a: RunId, n: nat)
      requires NoDup(list) && n < |list| && Follows(list, a, list[n])
      ensures exists x :: 0 <= x < n && list[x] == a
    {
    }

    /** A run may be taken exactly when it is queued and uncancelled, and with everything that is claimed
        the number of workers and each of the four sums stay within the budget. */
    lemma TakeableExactly(id: RunId, order: seq<RunId>, claimed: seq<WorkerLimits>)
      requires Sound() && id in state.disk.rows
      requires forall r :: r in order <==> r in state.disk.rows && state.disk.rows[r].status in {Starting, Running}
      requires forall i, j :: 0 <= i < j < |order| ==> order[i] != order[j]
      requires |claimed| == |order|
      requires forall i :: 0 <= i < |order| ==> claimed[i] == state.disk.rows[order[i]].work.limits
      ensures Takeable(state.disk, id) <==>
        var row, limits, budget := state.disk.rows[id], state.disk.rows[id].work.limits, queue.budget;
        && row.status == Queued && !row.cancelRequested
        && |order| + 1 <= budget.concurrency
        && Sum(CpuMillis(claimed)) + limits.cpuMillis + budget.reserveCpuMillis <= budget.cpuMillis
        && Sum(MemoryBytes(claimed)) + limits.memoryBytes + budget.reserveMemoryBytes <= budget.memoryBytes
        && Sum(Pids(claimed)) + limits.pids + budget.reservePids <= budget.pids
        && Sum(TmpBytes(claimed)) + limits.tmpBytes <= budget.tmpBytes
    {
      FitsBesideExactly(state, queue, state.disk.rows[id].work.limits, order, claimed);
    }

    predicate FirstTakeable(d: Disk, id: RunId) {
      && Takeable(d, id)
      && exists k :: 0 <= k < |LiveRoster(d)| && LiveRoster(d)[k] == id && NoneBefore(d, k)
    }

    predicate NoneBefore(d: Disk, k: nat) {
      k <= |LiveRoster(d)| && forall j :: 0 <= j < k ==> !Takeable(d, LiveRoster(d)[j])
    }

    method Heartbeat(claim: Claim, now: int, leaseSeconds: int) returns (r: Result<bool>)
      requires Valid()
      modifies this
      ensures Valid() && KeepsResults(old(state), state)
      ensures r == Answer(old(state.disk), claim.runId, Holder(old(state.disk), claim, now))
      ensures r != Ok(true) ==> state == old(state)
      ensures r == Ok(true) ==>
        var row := old(state.disk).rows[claim.runId].(leaseUntil := now + leaseSeconds);
        state == Do(old(state), PutRow(claim.runId, row))
      ensures r == Err(DataRestricted) <==> claim.runId !in old(state.disk).rows
      ensures claim.runId in old(state.disk).rows ==>
        r.Ok? && var d, row := old(state.disk), old(state.disk).rows[claim.runId];
        && (r.value <==>
              && row.status in {Starting, Running} && row.token == Some(claim.token) && row.fence == claim.fence
              && row.leaseUntil > now)
        && state.disk
           == if r.value then d.(rows := d.rows[claim.runId := row.(leaseUntil := now + leaseSeconds)]) else d
    {
      if claim.runId !in state.disk.rows { return Err(DataRestricted); }
      var row := state.disk.rows[claim.runId];
      if !HeldBy(row, claim, now) { return Ok(false); }
      Put(PutRow(claim.runId, row.(leaseUntil := now + leaseSeconds)));
      r := Ok(true);
    }

    method MarkRunning(claim: Claim, now: int) returns (r: Result<bool>)
      requires Valid()
      modifies this
      ensures Valid() && KeepsResults(old(state), state)
      ensures r == Answer(old(state.disk), claim.runId,
        Holder(old(state.disk), claim, now) && !old(state.disk).rows[claim.runId].cancelRequested)
      ensures r != Ok(true) ==> state == old(state)
      ensures r == Ok(true) ==>
        state == Do(old(state), PutRow(claim.runId, old(state.disk).rows[claim.runId].(status := Running)))
      ensures r == Err(DataRestricted) <==> claim.runId !in old(state.disk).rows
      ensures claim.runId in old(state.disk).rows ==>
        r.Ok? && var d, row := old(state.disk), old(state.disk).rows[claim.runId];
        && (r.value <==>
              && row.status in {Starting, Running} && row.token == Some(claim.token) && row.fence == claim.fence
              && row.leaseUntil > now && !row.cancelRequested)
        && state.disk == if r.value then d.(rows := d.rows[claim.runId := row.(status := Running)]) else d
    {
      if claim.runId !in state.disk.rows { return Err(DataRestricted); }
      var row := state.disk.rows[claim.runId];
      if !HeldBy(row, claim, now) || row.cancelRequested { return Ok(false); }
      Put(PutRow(claim.runId, row.(status := Running)));
      r := Ok(true);
    }

    static function CancelledRow(row: Row): Row {
      row.(cancelRequested := true, status := if row.status == Queued then Cancelled else row.status)
    }

    /** The run file, then the roster. */
    method RequestCancel(owner: int, id: RunId) returns (r: Result<()>)
      requires Valid()
      modifies this
      ensures Valid() && KeepsResults(old(state), state)
      ensures r.Ok? <==> id in old(state.disk).rows && old(state.disk).rows[id].work.owner == owner
      ensures r.Err? ==> r == Err(DataRestricted)
      ensures !(r.Ok? && Live(old(state.disk), id)) ==> state == old(state)
      ensures r.Ok? && Live(old(state.disk), id) ==> RowAndRoster(old(state), old(log), state, log, id,
        CancelledRow(old(state.disk).rows[id]))
      ensures r.Ok? && Unfinished(old(state.disk), id) ==>
        var d, row := old(state.disk), old(state.disk).rows[id];
        && state.disk.rows == d.rows[id := row.(
             cancelRequested := true, status := if row.status == Queued then Cancelled else row.status)]
        && log == old(log) + [PutRow(id, state.disk.rows[id]), PutActive(state.disk.active)]
        && RosterPruned(d.(rows := state.disk.rows), state.disk)
      ensures r.Ok? && !Unfinished(old(state.disk), id) ==> state == old(state)
    {
      if id !in state.disk.rows || state.disk.rows[id].work.owner != owner { return Err(DataRestricted); }
      var row := state.disk.rows[id];
      if !row.status.Terminal() {
        ghost var s, before := state, log;
        PutRunAndRoster(id, CancelledRow(row));
        RosteredResults(s, before, state, log, id, CancelledRow(row));
        RosteredFields(s, before, state, log, id, CancelledRow(row));
      }
      r := Ok(());
    }

    static predicate CommitWins(d: Disk, claim: Claim, now: int, status: Status) {
      Holder(d, claim, now) && (d.rows[claim.runId].cancelRequested ==> status == Cancelled)
    }

    /** The publication the caller asks for, then the run file with the result it names, then the roster.
        Whether a pointer without its result can come about is up to the caller: pointers stay published
        exactly for the calls that are paired. The supervisor's calls are: it passes a sealed directory
        both as the result and for publication, or neither. */
    method CommitOutcome(
        claim: Claim, now: int, status: Status, result: Option<ResultId>, publish: Option<ResultId>)
      returns (r: Result<bool>)
      requires Valid()
      modifies this
      ensures Valid()
      ensures r == if !status.Terminal() then Err(InvalidContract)
                   else Answer(old(state.disk), claim.runId, CommitWins(old(state.disk), claim, now, status))
      ensures r != Ok(true) ==> state == old(state) && log == old(log)
      ensures r == Ok(true) ==>
        var row := old(state.disk).rows[claim.runId].(status := status, result := result, leaseUntil := 0);
        && log == old(log) + CommitWrites(claim.runId, row, publish, state.disk.active)
        && state == DoAll(old(state), CommitWrites(claim.runId, row, publish, state.disk.active))
      ensures r == Ok(true) && old(ResultsOk(state.disk)) ==>
        (ResultsOk(state.disk) <==> Paired(old(state.disk), result, publish))
      ensures r == Err(InvalidContract) <==> status !in {Succeeded, Failed, Cancelled}
      ensures r == Ok(true) <==>
        && status in {Succeeded, Failed, Cancelled}
        && claim.runId in old(state.disk).rows && var row := old(state.disk).rows[claim.runId];
        && row.status in {Starting, Running} && row.token == Some(claim.token) && row.fence == claim.fence
        && row.leaseUntil > now && (row.cancelRequested ==> status == Cancelled)
      ensures r == Ok(true) ==>
        var d := old(state.disk);
        && state.disk.rows == d.rows[claim.runId := d.rows[claim.runId].(
             status := status, result := result, leaseUntil := 0)]
        && state.disk.results == (if publish.Some? then d.results + {publish.value} else d.results)
        && log == old(log) + (if publish.Some? then [Publish(publish.value)] else [])
             + [PutRow(claim.runId, state.disk.rows[claim.runId]), PutActive(state.disk.active)]
        && RosterPruned(d.(rows := state.disk.rows), state.disk)
    {
      if !status.Terminal() { return Err(InvalidContract); }
      if claim.runId !in state.disk.rows { return Err(DataRestricted); }
      var row := state.disk.rows[claim.runId];
      if !HeldBy(row, claim, now) || (row.cancelRequested && status != Cancelled) { return Ok(false); }
      Finish(claim.runId, row.(status := status, result := result, leaseUntil := 0), publish);
      r := Ok(true);
    }

    method Finish(id: RunId, row: Row, publish: Option<ResultId>)
      requires Valid() && id in state.disk.rows && SameIdentity(state.disk.rows[id], row)
      requires Commits(state.disk.rows[id], row)
      modifies this
      ensures Valid() && log == old(log) + CommitWrites(id, row, publish, state.disk.active)
      ensures state == DoAll(old(state), CommitWrites(id, row, publish, state.disk.active))
      ensures old(ResultsOk(state.disk)) ==>
        (ResultsOk(state.disk) <==> Paired(old(state.disk), row.result, publish))
      ensures log == old(log) + (if publish.Some? then [Publish(publish.value)] else [])
        + [PutRow(id, row), PutActive(state.disk.active)]
      ensures state.disk.rows == old(state.disk).rows[id := row]
      ensures state.disk.results
        == if publish.Some? then old(state.disk).results + {publish.value} else old(state.disk).results
      ensures RosterPruned(old(state.disk).(rows := state.disk.rows), state.disk)
    {
      ghost var s, before := state, log;
      Publication(publish);
      ghost var mid, published := state, log;
      PutRunAndRoster(id, row);
      RosteredResults(mid, published, state, log, id, row);
      RosteredFields(mid, published, state, log, id, row);
      Finished(s, before, mid, published, state, log, id, row, publish);
    }

    static lemma Finished(
        s: State, before: seq<Write>, mid: State, published: seq<Write>, t: State, after: seq<Write>,
        id: RunId, row: Row, publish: Option<ResultId>)
      requires mid.disk == Publicised(s.disk, publish) && mid.pending == s.pending
      requires published == before + if publish.Some? then [Publish(publish.value)] else []
      requires RowAndRoster(mid, published, t, after, id, row)
      ensures after == before + CommitWrites(id, row, publish, t.disk.active)
      ensures t == DoAll(s, CommitWrites(id, row, publish, t.disk.active))
      ensures PointsToPublished(mid.disk, PutRow(id, row)) <==> Paired(s.disk, row.result, publish)
    {
      CommitRuns(s, id, row, publish, t.disk.active);
      PairedPoints(s.disk, id, row, publish);
    }

    method Publication(publish: Option<ResultId>)
      requires Valid()
      modifies this
      ensures Valid() && state == old(state).(disk := Publicised(old(state.disk), publish))
      ensures log == old(log) + if publish.Some? then [Publish(publish.value)] else []
      ensures KeepsResults(old(state), state)
    {
      if publish.Some? { Put(Publish(publish.value)); }
    }

    /** What a run file and the roster without the runs finished now make of the files. */
    static predicate RowAndRoster(s: State, before: seq<Write>, t: State, after: seq<Write>, id: RunId, row: Row) {
      && t == Do(Do(s, PutRow(id, row)), PutActive(t.disk.active))
      && t.disk.active == LiveRoster(Do(s, PutRow(id, row)).disk)
      && after == before + [PutRow(id, row), PutActive(t.disk.active)]
    }

    /** A run file, then the roster without the runs that are finished now. */
    method PutRunAndRoster(id: RunId, row: Row)
      requires Valid() && id in state.disk.rows && Moves(state.disk, id, state.disk.rows[id], row, queue)
      modifies this
      ensures Valid() && RowAndRoster(old(state), old(log), state, log, id, row)
    {
      ghost var s, before := state, log;
      PutRun(id, row);
      ghost var mid, middle := state, log;
      SaveActive();
      Rostered(s, before, mid, middle, state, log, id, row);
    }

    method PutRun(id: RunId, row: Row)
      requires Sound() && id in state.disk.rows && Moves(state.disk, id, state.disk.rows[id], row, queue)
      modifies this
      ensures Sound() && state == Do(old(state), PutRow(id, row)) && log == old(log) + [PutRow(id, row)]
      ensures state.pending == old(state.pending)
    {
      Put(PutRow(id, row));
    }

    static lemma RosteredResults(
        s: State, before: seq<Write>, t: State, after: seq<Write>, id: RunId, row: Row)
      requires RowAndRoster(s, before, t, after, id, row)
      ensures ResultsOk(s.disk) ==> (ResultsOk(t.disk) <==> PointsToPublished(s.disk, PutRow(id, row)))
    {
      WriteKeepsResults(s, PutRow(id, row));
    }

    static lemma Rostered(
        s: State, before: seq<Write>, mid: State, middle: seq<Write>, t: State, after: seq<Write>, id: RunId, row: Row)
      requires mid == Do(s, PutRow(id, row)) && middle == before + [PutRow(id, row)]
      requires t == Do(mid, PutActive(LiveRoster(mid.disk)))
      requires after == middle + [PutActive(LiveRoster(mid.disk))]
      ensures RowAndRoster(s, before, t, after, id, row)
    {
      assert before + [PutRow(id, row)] + [PutActive(t.disk.active)] == after;
    }

    /** A run file and the roster, for an existing run. */
    static lemma RosteredFields(s: State, before: seq<Write>, t: State, after: seq<Write>, id: RunId, row: Row)
      requires RowAndRoster(s, before, t, after, id, row) && id in s.disk.rows && NoDup(s.disk.active)
      ensures t.disk.rows == s.disk.rows[id := row] && t.disk.results == s.disk.results
      ensures t.disk.batches == s.disk.batches && t.pending == s.pending
      ensures RosterPruned(s.disk.(rows := t.disk.rows), t.disk)
    {
      LiveRosterInOrder(Do(s, PutRow(id, row)).disk);
    }

    static predicate Recoverable(row: Row, claim: Claim, now: int) {
      row.token == Some(claim.token) && row.fence == claim.fence && row.leaseUntil <= now && !row.status.Terminal()
    }

    static predicate RecoverableIn(d: Disk, claim: Claim, now: int) {
      claim.runId in d.rows && Recoverable(d.rows[claim.runId], claim, now)
    }

    static function RecoveredRow(row: Row): Row {
      row.(status := if row.cancelRequested then Cancelled else Queued, token := None, leaseUntil := 0)
    }

    method RecoverStopped(claim: Claim, now: int) returns (r: Result<bool>)
      requires Valid()
      modifies this
      ensures Valid() && KeepsResults(old(state), state)
      ensures r == Answer(old(state.disk), claim.runId, RecoverableIn(old(state.disk), claim, now))
      ensures r != Ok(true) ==> state == old(state)
      ensures r == Ok(true) ==> RowAndRoster(old(state), old(log), state, log, claim.runId,
        RecoveredRow(old(state.disk).rows[claim.runId]))
      ensures r == Err(DataRestricted) <==> claim.runId !in old(state.disk).rows
      ensures claim.runId in old(state.disk).rows ==>
        r.Ok? && var row := old(state.disk).rows[claim.runId];
        r.value <==>
          && row.token == Some(claim.token) && row.fence == claim.fence && row.leaseUntil <= now
          && row.status in {Queued, Starting, Running}
      ensures r == Ok(true) ==>
        var d, row := old(state.disk), old(state.disk).rows[claim.runId];
        && state.disk.rows == d.rows[claim.runId := row.(
             status := if row.cancelRequested then Cancelled else Queued, token := None, leaseUntil := 0)]
        && log == old(log) + [PutRow(claim.runId, state.disk.rows[claim.runId]), PutActive(state.disk.active)]
        && RosterPruned(d.(rows := state.disk.rows), state.disk)
    {
      if claim.runId !in state.disk.rows { return Err(DataRestricted); }
      var row := state.disk.rows[claim.runId];
      if !Recoverable(row, claim, now) { return Ok(false); }
      ghost var s, before := state, log;
      PutRunAndRoster(claim.runId, RecoveredRow(row));
      RosteredResults(s, before, state, log, claim.runId, RecoveredRow(row));
      RosteredFields(s, before, state, log, claim.runId, RecoveredRow(row));
      r := Ok(true);
    }

    static predicate Overdue(d: Disk, id: RunId, now: int) {
      id in d.rows && d.rows[id].status.Active() && d.rows[id].leaseUntil <= now
    }

    static predicate Reported(d: Disk, id: RunId, claims: seq<Claim>) {
      id in d.rows && d.rows[id].token.Some? && Claim(id, d.rows[id].token.value, d.rows[id].fence) in claims
    }

    static predicate AllRecoverable(d: Disk, claims: seq<Claim>, now: int) {
      forall c :: c in claims ==> c.runId in d.rows && Recoverable(d.rows[c.runId], c, now)
    }

    static method OverdueOf(d: Disk, rows: seq<RunId>, now: int) returns (claims: seq<Claim>)
      requires forall id :: id in rows ==> id in d.rows && (d.rows[id].status.Active() ==> d.rows[id].token.Some?)
      ensures forall id :: id in rows && Overdue(d, id, now) ==> Reported(d, id, claims)
      ensures AllRecoverable(d, claims, now)
      ensures forall c :: c in claims ==> Overdue(d, c.runId, now)
    {
      claims := [];
      for i := 0 to |rows|
        invariant forall j :: 0 <= j < i && Overdue(d, rows[j], now) ==> Reported(d, rows[j], claims)
        invariant AllRecoverable(d, claims, now)
        invariant forall c :: c in claims ==> Overdue(d, c.runId, now)
      {
        var row := d.rows[rows[i]];
        if row.status.Active() && row.leaseUntil <= now {
          claims := claims + [Claim(rows[i], row.token.value, row.fence)];
        }
      }
    }

    /** Claims whose lease has run out. No claimed run is missing from the roster, so none is overlooked. */
    method Expired(now: int) returns (claims: seq<Claim>)
      requires Valid()
      ensures forall id :: Overdue(state.disk, id, now) ==> Reported(state.disk, id, claims)
      ensures AllRecoverable(state.disk, claims, now)
      ensures forall c :: c in claims <==>
        && c.runId in state.disk.rows && var row := state.disk.rows[c.runId];
        && row.status in {Starting, Running} && row.leaseUntil <= now
        && row.token == Some(c.token) && row.fence == c.fence
    {
      LiveRosterMembers(state.disk);
      var rows := Active();
      claims := OverdueOf(state.disk, rows, now);
      forall id | Overdue(state.disk, id, now) ensures Reported(state.disk, id, claims) {
        assert Live(state.disk, id) && id in rows;
      }
      forall c: Claim | c.runId in state.disk.rows && Overdue(state.disk, c.runId, now)
        && state.disk.rows[c.runId].token == Some(c.token) && state.disk.rows[c.runId].fence == c.fence
        ensures c in claims
      {
        assert Reported(state.disk, c.runId, claims);
        assert c == Claim(c.runId, c.token, c.fence);
      }
    }
  }

  lemma {:induction false} InReplaced(d: Disk, items: seq<RunId>, ids: seq<RunId>, n: nat, i: nat)
    requires i < n <= |items| == |ids| && FailedSlot(d, items[i])
    ensures ids[i] in Replaced(d, items, ids, n)
    decreases n
  {
    if i < n - 1 { InReplaced(d, items, ids, n - 1, i); }
  }

  lemma {:induction false} ReplacedInOrder(d: Disk, items: seq<RunId>, ids: seq<RunId>, n: nat, i: nat, j: nat)
    requires i < j < n <= |items| == |ids| && FailedSlot(d, items[i]) && FailedSlot(d, items[j])
    ensures Follows(Replaced(d, items, ids, n), ids[i], ids[j])
    decreases n
  {
    var last: seq<RunId> := if FailedSlot(d, items[n - 1]) then [ids[n - 1]] else [];
    FollowsAppend(Replaced(d, items, ids, n - 1), last, ids[i], ids[j]);
    if j < n - 1 {
      ReplacedInOrder(d, items, ids, n - 1, i, j);
    } else {
      InReplaced(d, items, ids, n - 1, i);
    }
  }

  lemma {:induction false} ReplacedCount(d: Disk, items: seq<RunId>, ids: seq<RunId>, n: nat)
    requires n <= |items| == |ids|
    ensures |Replaced(d, items, ids, n)| == |set i | 0 <= i < n && FailedSlot(d, items[i])|
    decreases n
  {
    var all := set i | 0 <= i < n && FailedSlot(d, items[i]);
    if n == 0 {
      assert all == {};
    } else {
      ReplacedCount(d, items, ids, n - 1);
      var front := set i | 0 <= i < n - 1 && FailedSlot(d, items[i]);
      assert all == if FailedSlot(d, items[n - 1]) then front + {n - 1} else front;
    }
  }

  predicate Fills(d: Disk, items: seq<RunId>, ids: seq<RunId>, i: nat, id: RunId) {
    i < |items| == |ids| && ids[i] == id && FailedSlot(d, items[i])
  }

  lemma {:induction false} ReplacedAre(d: Disk, items: seq<RunId>, ids: seq<RunId>, n: nat)
    requires n <= |items| == |ids| && NoDup(ids)
    ensures forall id :: id in Replaced(d, items, ids, n) ==> exists i :: 0 <= i < n && Fills(d, items, ids, i, id)
    ensures NoDup(Replaced(d, items, ids, n))
  {
    if n > 0 {
      ReplacedAre(d, items, ids, n - 1);
      if FailedSlot(d, items[n - 1]) { assert Fills(d, items, ids, n - 1, ids[n - 1]); }
      var front := Replaced(d, items, ids, n - 1);
      forall k | 0 <= k < |front| ensures front[k] != ids[n - 1] {
        assert front[k] in front;
        var i :| 0 <= i < n - 1 && Fills(d, items, ids, i, front[k]);
      }
    }
  }
}
