/** The file-backed run queue: one file per run, one per batch, and one roster of active runs. Each
    file is replaced atomically, so a crash leaves some prefix of an operation's replacements. */
module QueueFiles {
  import opened Collections
  import opened RuntimeContracts

  datatype BatchId = BatchId(n: int)

  datatype ResultId = ResultId(n: int)

  /** Accepted work. The signature is the whole configuration except its parameters. */
  datatype Work = Work(owner: int, signature: int, source: int, parameters: int, limits: WorkerLimits)

  datatype Row = Row(
    status: Status, cancelRequested: bool, fence: nat, token: Option<Token>, leaseUntil: int,
    batch: BatchId, item: nat, retryOf: Option<RunId>, work: Work, result: Option<ResultId>)

  datatype Batch = Batch(owner: int, items: seq<RunId>)

  /** `created` lists the run files in the order they first appeared; `results` are published outputs. */
  datatype Disk = Disk(
    rows: map<RunId, Row>, created: seq<RunId>, batches: map<BatchId, Batch>, active: seq<RunId>,
    results: set<ResultId>)

  /** The configuration shared by all processes of the queue. */
  datatype Queue = Queue(limit: nat, budget: GroupBudget)

  /** `pending` are the runs the operation in progress has created; a crash forgets them. */
  datatype State = State(disk: Disk, pending: set<RunId>)

  /** One atomic replacement, or the end of an operation, which for the files is the same as a crash. */
  datatype Write =
    | PutRow(id: RunId, row: Row)
    | PutBatch(batch: BatchId, content: Batch)
    | PutActive(ids: seq<RunId>)
    | Publish(result: ResultId)
    | Crash

  function Do(s: State, w: Write): State {
    match w
    case PutRow(id, row) =>
      if id in s.disk.rows then s.(disk := s.disk.(rows := s.disk.rows[id := row]))
      else
        var d := s.disk.(rows := s.disk.rows[id := row], created := s.disk.created + [id]);
        State(d, s.pending + {id})
    case PutBatch(b, content) => s.(disk := s.disk.(batches := s.disk.batches[b := content]))
    case PutActive(ids) => s.(disk := s.disk.(active := ids))
    case Publish(r) => s.(disk := s.disk.(results := s.disk.results + {r}))
    case Crash => s.(pending := {})
  }

  // ---------------------------------------------------------------- what the operations write

  predicate SameIdentity(a: Row, b: Row) {
    a.batch == b.batch && a.item == b.item && a.retryOf == b.retryOf && a.work == b.work
  }

  /** The failed run that `row` replaces. */
  predicate Replaces(d: Disk, row: Row) {
    row.retryOf.Some? ==>
      var prior := row.retryOf.value;
      prior in d.rows && d.rows[prior].status == Failed
      && d.rows[prior].batch == row.batch && d.rows[prior].item == row.item && d.rows[prior].work == row.work
  }

  /** A run as enqueue and retry create it. */
  predicate Fresh(d: Disk, row: Row) {
    && row.status == Queued && !row.cancelRequested && row.fence == 0 && row.token == None && row.result == None
    && row.work.limits.Accepted() && Replaces(d, row)
  }

  predicate Claims(a: Row, b: Row) {
    && a.status == Queued && !a.cancelRequested && b.status == Starting && b.fence == a.fence + 1 && b.token.Some?
    && !b.cancelRequested && b.result == a.result
  }

  /** Heartbeat, attempt, running and progress: the holder's mutations. */
  predicate Holds(a: Row, b: Row) {
    && a.status.Active() && b.fence == a.fence && b.token == a.token
    && b.cancelRequested == a.cancelRequested && b.result == a.result
    && (b.status == a.status || (b.status == Running && !a.cancelRequested))
  }

  predicate Cancels(a: Row, b: Row) {
    b == a.(cancelRequested := true, status := if a.status == Queued then Cancelled else a.status)
  }

  /** The end of a run, with whatever result the holder names. */
  predicate Commits(a: Row, b: Row) {
    && a.status.Active() && b.status.Terminal() && (a.cancelRequested ==> b.status == Cancelled)
    && b.fence == a.fence && b.token == a.token && b.cancelRequested == a.cancelRequested
  }

  predicate Recovers(a: Row, b: Row) {
    && a.status.Active() && b.status == (if a.cancelRequested then Cancelled else Queued) && b.token == None
    && b.fence == a.fence && b.cancelRequested == a.cancelRequested && b.result == a.result
  }

  ghost function ActiveIds(d: Disk): set<RunId> {
    set r | r in d.rows && d.rows[r].status.Active()
  }

  ghost function LimitsOf(d: Disk): map<RunId, WorkerLimits> {
    map r | r in d.rows :: d.rows[r].work.limits
  }

  /** What all claimed runs reserve, expired leases included. */
  ghost function Reserved(d: Disk): Usage {
    Load(LimitsOf(d), ActiveIds(d))
  }

  /** A listed run may be claimed when it fits beside everything reserved. */
  ghost predicate MayClaim(d: Disk, id: RunId, q: Queue) {
    id in d.active && id in d.rows && q.budget.Allows(Reserved(d).Plus(d.rows[id].work.limits))
  }

  /** How an existing run file may change. */
  ghost predicate Moves(d: Disk, id: RunId, a: Row, b: Row, q: Queue) {
    && !a.status.Terminal() && SameIdentity(a, b)
    && ((Claims(a, b) && MayClaim(d, id, q)) || Holds(a, b) || Cancels(a, b) || Commits(a, b) || Recovers(a, b))
  }

  predicate InSlot(d: Disk, b: BatchId, i: nat, id: RunId) {
    id in d.rows && d.rows[id].batch == b && d.rows[id].item == i
  }

  /** A batch file keeps its slots; a slot may move on to the replacement of the run it holds. */
  predicate BatchMoves(d: Disk, b: BatchId, content: Batch) {
    && (forall i :: 0 <= i < |content.items| ==> InSlot(d, b, i, content.items[i]))
    && (b in d.batches ==>
          content.owner == d.batches[b].owner && |content.items| == |d.batches[b].items|
          && forall i :: 0 <= i < |content.items| ==> SlotMoves(d, d.batches[b].items[i], content.items[i]))
  }

  predicate SlotMoves(d: Disk, prior: RunId, next: RunId) {
    next == prior || (next in d.rows && d.rows[next].retryOf == Some(prior))
  }

  predicate Live(d: Disk, id: RunId) {
    id in d.rows && !d.rows[id].status.Terminal()
  }

  /** A new roster drops only finished runs and adds only runs of the operation in progress. */
  predicate RosterMoves(s: State, ids: seq<RunId>, q: Queue) {
    && NoDup(ids) && |ids| <= q.limit
    && (forall id :: id in ids ==> Live(s.disk, id) && (id in s.disk.active || id in s.pending))
    && (forall id :: id in s.disk.active && Live(s.disk, id) ==> id in ids)
  }

  ghost predicate Allowed(s: State, w: Write, q: Queue) {
    match w
    case PutRow(id, row) =>
      if id in s.disk.rows then Moves(s.disk, id, s.disk.rows[id], row, q) else Fresh(s.disk, row)
    case PutBatch(b, content) => BatchMoves(s.disk, b, content)
    case PutActive(ids) => RosterMoves(s, ids, q)
    case Publish(_) => true
    case Crash => true
  }

  // ---------------------------------------------------------------- what every file replacement keeps

  ghost predicate RosterOk(d: Disk, q: Queue) {
    NoDup(d.active) && |d.active| <= q.limit && forall id :: id in d.active ==> id in d.rows
  }

  ghost predicate BatchesOk(d: Disk) {
    forall b, i :: b in d.batches && 0 <= i < |d.batches[b].items| ==> InSlot(d, b, i, d.batches[b].items[i])
  }

  ghost predicate RetriesOk(d: Disk) {
    forall id {:trigger Replaces(d, d.rows[id])} :: id in d.rows ==> Replaces(d, d.rows[id])
  }

  /** A run file appears after that of the run it replaces. */
  ghost predicate CreatedOk(d: Disk) {
    && NoDup(d.created) && (forall id :: id in d.rows <==> id in d.created)
    && (forall i :: 0 <= i < |d.created| ==> EarlierOriginal(d, i))
  }

  ghost predicate EarlierOriginal(d: Disk, i: nat) {
    && i < |d.created| && d.created[i] in d.rows
    && (d.rows[d.created[i]].retryOf.Some? ==> d.rows[d.created[i]].retryOf.value in d.created[..i])
  }

  /** Every claimed run has a holder and is in the roster, where its expiry is looked for; a queued one
      has no holder. */
  ghost predicate ClaimsOk(d: Disk) {
    forall id :: id in d.rows ==>
      && (d.rows[id].status.Active() ==> id in d.active && d.rows[id].token.Some?)
      && (d.rows[id].status == Queued ==> d.rows[id].token == None)
  }

  /** All reservations together fit the group budget. */
  ghost predicate BudgetOk(d: Disk, q: Queue) {
    && (forall id :: id in d.rows ==> d.rows[id].work.limits.Accepted())
    && q.budget.Allows(Reserved(d))
  }

  ghost predicate Inv(s: State, q: Queue) {
    && RosterOk(s.disk, q) && BatchesOk(s.disk) && RetriesOk(s.disk) && CreatedOk(s.disk)
    && ClaimsOk(s.disk) && BudgetOk(s.disk, q)
    && (forall id :: id in s.pending ==> id in s.disk.rows)
  }

  lemma RowStepRetries(s: State, id: RunId, row: Row, q: Queue)
    requires Inv(s, q) && Allowed(s, PutRow(id, row), q)
    ensures RetriesOk(Do(s, PutRow(id, row)).disk)
  {
    var d := Do(s, PutRow(id, row)).disk;
    forall x | x in d.rows ensures Replaces(d, d.rows[x]) {
      if x != id { assert Replaces(s.disk, s.disk.rows[x]); }
      else if id in s.disk.rows { assert Replaces(s.disk, s.disk.rows[id]); }
    }
  }

  lemma RowStepCreated(s: State, id: RunId, row: Row, q: Queue)
    requires Inv(s, q) && Allowed(s, PutRow(id, row), q)
    ensures CreatedOk(Do(s, PutRow(id, row)).disk)
  {
    var d := Do(s, PutRow(id, row)).disk;
    var n := |s.disk.created|;
    forall i | 0 <= i < |d.created| ensures EarlierOriginal(d, i) {
      if i < n {
        assert EarlierOriginal(s.disk, i);
        assert d.created[..i] == s.disk.created[..i];
      } else {
        assert d.created[..i] == s.disk.created;
      }
    }
  }

  /** Rows of the same limits of which no more hold a reservation. */
  lemma ReleaseFits(d: Disk, e: Disk, q: Queue)
    requires BudgetOk(d, q)
    requires forall r :: r in d.rows ==> r in e.rows && e.rows[r].work == d.rows[r].work
    requires ActiveIds(e) <= ActiveIds(d)
    ensures q.budget.Allows(Reserved(e))
  {
    LoadFrame(LimitsOf(d), LimitsOf(e), ActiveIds(e));
    LoadMonotone(LimitsOf(d), ActiveIds(e), ActiveIds(d));
  }

  lemma ClaimFits(d: Disk, e: Disk, id: RunId, row: Row, q: Queue)
    requires MayClaim(d, id, q) && Claims(d.rows[id], row) && SameIdentity(d.rows[id], row)
    requires e.rows == d.rows[id := row]
    ensures q.budget.Allows(Reserved(e))
  {
    assert ActiveIds(e) - {id} == ActiveIds(d);
    LoadRemove(LimitsOf(e), ActiveIds(e), id);
    LoadFrame(LimitsOf(d), LimitsOf(e), ActiveIds(d));
  }

  lemma RowStepBudget(s: State, id: RunId, row: Row, q: Queue)
    requires Inv(s, q) && Allowed(s, PutRow(id, row), q)
    ensures BudgetOk(Do(s, PutRow(id, row)).disk, q)
  {
    var d, e := s.disk, Do(s, PutRow(id, row)).disk;
    if id in d.rows && Claims(d.rows[id], row) && MayClaim(d, id, q) {
      ClaimFits(d, e, id, row, q);
    } else {
      ReleaseFits(d, e, q);
    }
  }

  lemma RowStepListed(s: State, id: RunId, row: Row, q: Queue)
    requires Inv(s, q) && Allowed(s, PutRow(id, row), q)
    ensures BatchesOk(Do(s, PutRow(id, row)).disk) && ClaimsOk(Do(s, PutRow(id, row)).disk)
  {
    var d := Do(s, PutRow(id, row)).disk;
    forall b, i | b in d.batches && 0 <= i < |d.batches[b].items| ensures InSlot(d, b, i, d.batches[b].items[i]) {
      assert InSlot(s.disk, b, i, s.disk.batches[b].items[i]);
    }
  }

  /** Whatever operation is stopped after whatever replacement: every roster and batch entry has its
      run file, the roster is within its limit, claimed runs are on it, and all reservations together
      fit the group budget. */
  lemma WriteKeepsInv(s: State, w: Write, q: Queue)
    requires Inv(s, q) && Allowed(s, w, q)
    ensures Inv(Do(s, w), q)
  {
    match w
    case PutRow(id, row) =>
      RowStepRetries(s, id, row, q);
      RowStepCreated(s, id, row, q);
      RowStepBudget(s, id, row, q);
      RowStepListed(s, id, row, q);
    case PutBatch(b, content) => BatchStep(s, b, content, q);
    case PutActive(ids) => ActiveStep(s, ids, q);
    case Publish(r) => SameRows(s, Do(s, w).disk, q);
    case Crash =>
  }

  /** The parts of the invariant that do not look at batch files or the roster. */
  lemma SameRows(s: State, d: Disk, q: Queue)
    requires Inv(s, q) && d.rows == s.disk.rows && d.created == s.disk.created
    ensures RetriesOk(d) && CreatedOk(d) && BudgetOk(d, q)
    ensures d.batches == s.disk.batches ==> BatchesOk(d)
  {
    forall id | id in d.rows ensures Replaces(d, d.rows[id]) { assert Replaces(s.disk, s.disk.rows[id]); }
    forall i | 0 <= i < |d.created| ensures EarlierOriginal(d, i) { assert EarlierOriginal(s.disk, i); }
    assert ActiveIds(d) == ActiveIds(s.disk) && LimitsOf(d) == LimitsOf(s.disk);
    if d.batches == s.disk.batches {
      forall b, i | b in d.batches && 0 <= i < |d.batches[b].items| ensures InSlot(d, b, i, d.batches[b].items[i]) {
        assert InSlot(s.disk, b, i, s.disk.batches[b].items[i]);
      }
    }
  }

  lemma BatchStep(s: State, b: BatchId, content: Batch, q: Queue)
    requires Inv(s, q) && Allowed(s, PutBatch(b, content), q)
    ensures Inv(Do(s, PutBatch(b, content)), q)
  {
    var d := Do(s, PutBatch(b, content)).disk;
    SameRows(s, d, q);
    forall x, i | x in d.batches && 0 <= i < |d.batches[x].items| ensures InSlot(d, x, i, d.batches[x].items[i]) {
      if x == b {
        assert InSlot(s.disk, b, i, content.items[i]);
      } else {
        assert InSlot(s.disk, x, i, s.disk.batches[x].items[i]);
      }
    }
  }

  lemma ActiveStep(s: State, ids: seq<RunId>, q: Queue)
    requires Inv(s, q) && Allowed(s, PutActive(ids), q)
    ensures Inv(Do(s, PutActive(ids)), q)
  {
    var d := Do(s, PutActive(ids)).disk;
    SameRows(s, d, q);
    forall id | id in ids ensures id in d.rows { assert Live(s.disk, id); }
    forall id | id in d.rows && d.rows[id].status.Active() ensures id in d.active { assert Live(s.disk, id); }
  }

  // ---------------------------------------------------------------- published results

  /** Every result a run points to has been published. */
  ghost predicate ResultsOk(d: Disk) {
    forall id :: id in d.rows && d.rows[id].result.Some? ==> d.rows[id].result.value in d.results
  }

  /** A run file that names a result names a published one. */
  predicate PointsToPublished(d: Disk, w: Write) {
    w.PutRow? && w.row.result.Some? ==> w.row.result.value in d.results
  }

  /** A replacement keeps pointers published exactly when it makes no unpublished one. */
  lemma WriteKeepsResults(s: State, w: Write)
    ensures ResultsOk(s.disk) ==> (ResultsOk(Do(s, w).disk) <==> PointsToPublished(s.disk, w))
  {
    var d := Do(s, w).disk;
    if w.PutRow? && !PointsToPublished(s.disk, w) {
      assert w.id in d.rows && d.rows[w.id] == w.row && d.results == s.disk.results;
    } else if w.PutRow? && ResultsOk(s.disk) {
      forall id | id in d.rows && d.rows[id].result.Some? ensures d.rows[id].result.value in d.results {
        if id != w.id { assert s.disk.rows[id] == d.rows[id]; }
      }
    }
  }

  // ---------------------------------------------------------------- histories with crashes

  ghost predicate History(states: seq<State>, writes: seq<Write>, q: Queue) {
    && |states| == |writes| + 1
    && forall k :: 0 <= k < |writes| ==> OneWrite(states[k], writes[k], states[k + 1], q)
  }

  ghost predicate OneWrite(s: State, w: Write, t: State, q: Queue) {
    Allowed(s, w, q) && t == Do(s, w)
  }

  /** Over any history of operations and crashes, at every moment. */
  lemma {:induction false} HistoryKeepsInv(states: seq<State>, writes: seq<Write>, q: Queue, k: nat)
    requires History(states, writes, q) && Inv(states[0], q) && k < |states|
    ensures Inv(states[k], q)
    decreases k
  {
    if k > 0 {
      HistoryKeepsInv(states, writes, q, k - 1);
      assert OneWrite(states[k - 1], writes[k - 1], states[k], q);
      WriteKeepsInv(states[k - 1], writes[k - 1], q);
    }
  }

  /** Over any history, at every moment, for any list of the claimed runs: there are few enough, and the sum of
      each quantity over them, with what is kept back for the control plane, is within its bound. */
  lemma HistoryKeepsBudget(
      states: seq<State>, writes: seq<Write>, q: Queue, k: nat, order: seq<RunId>, claimed: seq<WorkerLimits>)
    requires History(states, writes, q) && Inv(states[0], q) && k < |states|
    requires var rows := states[k].disk.rows;
      && (forall r :: r in order <==> r in rows && rows[r].status in {Starting, Running})
      && (forall i, j :: 0 <= i < j < |order| ==> order[i] != order[j])
      && |claimed| == |order| && forall i :: 0 <= i < |order| ==> claimed[i] == rows[order[i]].work.limits
    ensures |order| <= q.budget.concurrency
    ensures Sum(CpuMillis(claimed)) + q.budget.reserveCpuMillis <= q.budget.cpuMillis
    ensures Sum(MemoryBytes(claimed)) + q.budget.reserveMemoryBytes <= q.budget.memoryBytes
    ensures Sum(Pids(claimed)) + q.budget.reservePids <= q.budget.pids
    ensures Sum(TmpBytes(claimed)) <= q.budget.tmpBytes
  {
    HistoryKeepsInv(states, writes, q, k);
    var d := states[k].disk;
    LoadFits(LimitsOf(d), ActiveIds(d), order, claimed, q.budget);
    FitsExactly(q.budget, claimed);
  }

  /** Over any history no run ever points to an unpublished result, at any moment, exactly when each
      replaced run file names a result that was published before it. */
  lemma HistoryKeepsResults(states: seq<State>, writes: seq<Write>, q: Queue)
    requires History(states, writes, q) && ResultsOk(states[0].disk)
    ensures (forall k :: 0 <= k < |states| ==> ResultsOk(states[k].disk)) <==>
            (forall k :: 0 <= k < |writes| ==> PointsToPublished(states[k].disk, writes[k]))
  {
    if forall k :: 0 <= k < |states| ==> ResultsOk(states[k].disk) {
      forall k | 0 <= k < |writes| ensures PointsToPublished(states[k].disk, writes[k]) {
        assert OneWrite(states[k], writes[k], states[k + 1], q) && ResultsOk(states[k + 1].disk);
        WriteKeepsResults(states[k], writes[k]);
      }
    }
    if forall k :: 0 <= k < |writes| ==> PointsToPublished(states[k].disk, writes[k]) {
      for k := 0 to |writes|
        invariant forall i :: 0 <= i <= k ==> ResultsOk(states[i].disk)
      {
        assert OneWrite(states[k], writes[k], states[k + 1], q);
        WriteKeepsResults(states[k], writes[k]);
      }
    }
  }

  /** How far a run may have come: the same work in the same slot, fences only up, a finished run for
      good, and with a cancellation request no new claim and no end but `cancelled`. */
  predicate Later(a: Row, b: Row) {
    && SameIdentity(a, b) && a.fence <= b.fence
    && (a.status.Terminal() ==> b == a)
    && (a.cancelRequested && !a.status.Terminal() ==> StillCancelling(a, b))
  }

  predicate StillCancelling(a: Row, b: Row) {
    && b.cancelRequested && b.fence == a.fence
    && (b.status.Terminal() ==> b.status == Cancelled) && (a.status != Queued ==> b.status != Queued)
  }

  /** Over any history, crashes included. */
  lemma {:induction false} RowsOnlyMoveForward(
      states: seq<State>, writes: seq<Write>, q: Queue, i: nat, j: nat, id: RunId)
    requires History(states, writes, q) && i <= j < |states| && id in states[i].disk.rows
    ensures id in states[j].disk.rows && Later(states[i].disk.rows[id], states[j].disk.rows[id])
    decreases j - i
  {
    if i < j {
      RowsOnlyMoveForward(states, writes, q, i, j - 1, id);
      assert OneWrite(states[j - 1], writes[j - 1], states[j], q);
    }
  }

  /** How often a run was claimed by the first j writes after the i-th. */
  function ClaimsOf(states: seq<State>, writes: seq<Write>, i: nat, j: nat, id: RunId): nat
    requires i <= j < |states| && |states| == |writes| + 1
    decreases j - i
  {
    if i == j then 0
    else ClaimsOf(states, writes, i, j - 1, id) + if IsClaim(states[j - 1].disk, writes[j - 1], id) then 1 else 0
  }

  predicate IsClaim(d: Disk, w: Write, id: RunId) {
    w.PutRow? && w.id == id && id in d.rows && Claims(d.rows[id], w.row)
  }

  /** The step behind `FenceCountsClaims`: a new fence is the next one, of a run that was queued, not
      cancelled and listed. */
  lemma ClaimTakesNextFence(s: State, id: RunId, row: Row, q: Queue)
    requires Allowed(s, PutRow(id, row), q) && id in s.disk.rows && row.fence != s.disk.rows[id].fence
    ensures row.fence == s.disk.rows[id].fence + 1 && Claims(s.disk.rows[id], row) && id in s.disk.active
  {
  }

  /** Fences number the claims: over any history, crashes included, a run's fence has grown by exactly
      the number of times it was claimed. */
  lemma {:induction false} FenceCountsClaims(
      states: seq<State>, writes: seq<Write>, q: Queue, i: nat, j: nat, id: RunId)
    requires History(states, writes, q) && i <= j < |states| && id in states[i].disk.rows
    ensures id in states[j].disk.rows
    ensures states[j].disk.rows[id].fence == states[i].disk.rows[id].fence + ClaimsOf(states, writes, i, j, id)
    decreases j - i
  {
    if i < j {
      FenceCountsClaims(states, writes, q, i, j - 1, id);
      var s, w := states[j - 1], writes[j - 1];
      assert OneWrite(s, w, states[j], q);
      if w.PutRow? && w.id == id && w.row.fence != s.disk.rows[id].fence {
        ClaimTakesNextFence(s, id, w.row, q);
      }
    }
  }

  // ---------------------------------------------------------------- retries

  /** The run a chain of retries began with. */
  function Original(d: Disk, i: nat): (first: RunId)
    requires i < |d.created| && (forall k :: 0 <= k < |d.created| ==> EarlierOriginal(d, k))
    decreases i
  {
    assert EarlierOriginal(d, i);
    var row := d.rows[d.created[i]];
    if row.retryOf.None? then d.created[i]
    else
      Original(d, Position(d.created[..i], row.retryOf.value))
  }

  function Position(ids: seq<RunId>, id: RunId): (p: nat)
    requires id in ids
    ensures p < |ids| && ids[p] == id
  {
    if ids[0] == id then 0 else 1 + Position(ids[1..], id)
  }

  /** Every chain of retries is finite and ends at a run that replaces nothing, which had the same
      slot and the originally accepted work. */
  lemma {:induction false} ChainEndsAtOriginal(d: Disk, i: nat)
    requires RetriesOk(d) && CreatedOk(d) && i < |d.created|
    ensures var first := Original(d, i);
      && first in d.rows && d.rows[first].retryOf.None?
      && d.rows[first].batch == d.rows[d.created[i]].batch && d.rows[first].item == d.rows[d.created[i]].item
      && d.rows[first].work == d.rows[d.created[i]].work
    ensures d.rows[d.created[i]].retryOf.Some? ==> d.rows[Original(d, i)].status == Failed
    decreases i
  {
    assert EarlierOriginal(d, i);
    var row := d.rows[d.created[i]];
    assert Replaces(d, row);
    if row.retryOf.Some? {
      ChainEndsAtOriginal(d, Position(d.created[..i], row.retryOf.value));
    }
  }

  /** What became of a slot between two disks. */
  predicate SlotKept(d: Disk, e: Disk, b: BatchId, slot: nat) {
    && b in d.batches && b in e.batches && slot < |d.batches[b].items|
    && e.batches[b].owner == d.batches[b].owner && |e.batches[b].items| == |d.batches[b].items|
    && RunKept(d, e, d.batches[b].items[slot], e.batches[b].items[slot], slot)
  }

  predicate RunKept(d: Disk, e: Disk, before: RunId, now: RunId, slot: nat) {
    && before in d.rows && before in e.rows && now in e.rows
    && e.rows[now].item == slot && e.rows[now].work == d.rows[before].work
    && (now != before ==> e.rows[before].status == Failed)
    && (d.rows[before].status == Succeeded ==> now == before)
  }

  lemma SlotStep(s: State, w: Write, q: Queue, b: BatchId, slot: nat)
    requires Inv(s, q) && Allowed(s, w, q) && b in s.disk.batches && slot < |s.disk.batches[b].items|
    ensures SlotKept(s.disk, Do(s, w).disk, b, slot)
  {
    var t := Do(s, w);
    var before := s.disk.batches[b].items[slot];
    assert InSlot(s.disk, b, slot, before);
    var now := t.disk.batches[b].items[slot];
    if now != before {
      assert SlotMoves(s.disk, before, now) && InSlot(s.disk, b, slot, now);
      assert Replaces(s.disk, s.disk.rows[now]);
    }
  }

  /** The slot, and the run it held first, have only moved forward. */
  predicate SlotForward(d: Disk, e: Disk, b: BatchId, slot: nat) {
    SlotKept(d, e, b, slot) && Later(d.rows[d.batches[b].items[slot]], e.rows[d.batches[b].items[slot]])
  }

  lemma SlotForwardStep(d: Disk, s: State, w: Write, t: State, q: Queue, b: BatchId, slot: nat)
    requires Inv(s, q) && OneWrite(s, w, t, q) && SlotForward(d, s.disk, b, slot)
    ensures SlotForward(d, t.disk, b, slot)
  {
    var before, mid := d.batches[b].items[slot], s.disk.batches[b].items[slot];
    SlotStep(s, w, q, b, slot);
  }

  ghost predicate ForwardAt(d: Disk, states: seq<State>, k: nat, b: BatchId, slot: nat) {
    k < |states| && SlotForward(d, states[k].disk, b, slot)
  }

  lemma ForwardOnce(
      d: Disk, states: seq<State>, writes: seq<Write>, q: Queue, k: nat, b: BatchId, slot: nat)
    requires History(states, writes, q) && Inv(states[0], q) && 0 < k < |states|
    requires ForwardAt(d, states, k - 1, b, slot)
    ensures ForwardAt(d, states, k, b, slot)
  {
    HistoryKeepsInv(states, writes, q, k - 1);
    assert OneWrite(states[k - 1], writes[k - 1], states[k], q);
    SlotForwardStep(d, states[k - 1], writes[k - 1], states[k], q, b, slot);
  }

  lemma {:induction false} SlotKeepsMoving(
      d: Disk, states: seq<State>, writes: seq<Write>, q: Queue, i: nat, j: nat, b: BatchId, slot: nat)
    requires History(states, writes, q) && Inv(states[0], q) && i <= j < |states|
    requires ForwardAt(d, states, i, b, slot)
    ensures ForwardAt(d, states, j, b, slot)
    decreases j - i
  {
    if i < j {
      SlotKeepsMoving(d, states, writes, q, i, j - 1, b, slot);
      ForwardOnce(d, states, writes, q, j, b, slot);
    }
  }

  /** Over any history a batch keeps its owner and its slots; each slot keeps its item and its work;
      a slot that moved on left a failed run behind, so a succeeded run is never replaced. */
  lemma SlotsKeepTheirWork(
      states: seq<State>, writes: seq<Write>, q: Queue, i: nat, j: nat, b: BatchId, slot: nat)
    requires History(states, writes, q) && Inv(states[0], q) && i <= j < |states|
    requires b in states[i].disk.batches && slot < |states[i].disk.batches[b].items|
    ensures SlotForward(states[i].disk, states[j].disk, b, slot)
  {
    HistoryKeepsInv(states, writes, q, i);
    SlotKeepsMoving(states[i].disk, states, writes, q, i, j, b, slot);
  }

  // ---------------------------------------------------------------- runs a crash strands

  /** A queued run that is in no roster, and that no operation in progress will add. */
  predicate Stranded(s: State, id: RunId) {
    id in s.disk.rows && s.disk.rows[id].status == Queued && id !in s.disk.active && id !in s.pending
  }

  /** A stranded run is never claimed, whatever happens later: all it can become is cancelled. As it is
      not failed, its slot is not retried either. */
  lemma {:induction false} StrandedForever(
      states: seq<State>, writes: seq<Write>, q: Queue, i: nat, j: nat, id: RunId)
    requires History(states, writes, q) && i <= j < |states| && Stranded(states[i], id)
    ensures id in states[j].disk.rows && states[j].disk.rows[id].status in {Queued, Cancelled}
    ensures id !in states[j].disk.active && id !in states[j].pending
    decreases j - i
  {
    if i < j {
      StrandedForever(states, writes, q, i, j - 1, id);
      assert OneWrite(states[j - 1], writes[j - 1], states[j], q);
    }
  }

  /** What a crash strands, of what `OnlyCrashesStrand` and the retry's crash are about: the queued runs the
      roster does not list yet. */
  lemma CrashStrands(s: State, id: RunId)
    ensures Stranded(Do(s, Crash), id) <==>
      id in s.disk.rows && s.disk.rows[id].status == Queued && id !in s.disk.active
  {
  }

  predicate CrashAt(states: seq<State>, writes: seq<Write>, k: nat, id: RunId) {
    && k < |writes| && k < |states| && writes[k] == Crash
    && id in states[k].pending && id !in states[k].disk.active
  }

  /** Only a crash strands a run, and only one that the operation it interrupted had created and not
      yet listed: whatever is stranded later became so at such a moment. */
  lemma {:induction false} OnlyCrashesStrand(
      states: seq<State>, writes: seq<Write>, q: Queue, i: nat, j: nat, id: RunId)
    requires History(states, writes, q) && Inv(states[0], q) && i <= j < |states|
    requires !Stranded(states[i], id) && Stranded(states[j], id)
    ensures exists k :: i <= k < j && CrashAt(states, writes, k, id)
    decreases j - i
  {
    assert i < j;
    if Stranded(states[j - 1], id) {
      OnlyCrashesStrand(states, writes, q, i, j - 1, id);
    } else {
      HistoryKeepsInv(states, writes, q, j - 1);
      assert OneWrite(states[j - 1], writes[j - 1], states[j], q);
      StrandingStep(states[j - 1], writes[j - 1], q, id);
      assert CrashAt(states, writes, j - 1, id);
    }
  }

  lemma StrandingStep(s: State, w: Write, q: Queue, id: RunId)
    requires Inv(s, q) && Allowed(s, w, q) && !Stranded(s, id) && Stranded(Do(s, w), id)
    ensures w == Crash && id in s.pending && id !in s.disk.active
  {
    if w.PutActive? && id in s.disk.active {
      assert Live(s.disk, id);
    }
    CrashStrands(s, id);
  }
}
