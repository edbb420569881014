/** The database repository of the fenced scheduling port. Each transaction is one function on the
    tables; the class below runs them in place. A row keeps the group budget it was accepted under as its
    policy, so that differently configured processes cannot share a queue. */
module RunRepository {
  import opened RuntimeContracts

  datatype Outcome = Outcome(status: Status, partial: bool, resultRun: Option<RunId>)

  datatype Row = Row(
    owner: int, createdAt: int, limits: WorkerLimits, policy: GroupBudget, status: Status, cancelRequested: bool,
    token: Option<Token>, fence: nat, leaseUntil: int, attempt: Option<(int, int)>,
    progress: Option<Progress>, outcome: Option<Outcome>)

  /** The run table and the table of result pointers. */
  datatype Db = Db(rows: map<RunId, Row>, results: map<RunId, int>)

  // ---------------------------------------------------------------- reads

  /** The claim holds the row now: same token and fence, and the lease is open. */
  predicate Valid(row: Row, claim: Claim, now: int) {
    row.status.Active() && row.token == Some(claim.token) && row.fence == claim.fence && row.leaseUntil > now
  }

  predicate ValidIn(db: Db, claim: Claim, now: int) {
    claim.runId in db.rows && Valid(db.rows[claim.runId], claim, now)
  }

  /** The row is reserved under this claim, whatever its lease says. */
  predicate Held(db: Db, claim: Claim) {
    claim.runId in db.rows && var row := db.rows[claim.runId];
    row.status.Active() && row.token == Some(claim.token) && row.fence == claim.fence
  }

  predicate CancelledNow(db: Db, claim: Claim, now: int) {
    !ValidIn(db, claim, now) || db.rows[claim.runId].cancelRequested
  }

  ghost function ActiveIds(rows: map<RunId, Row>): set<RunId> {
    set r | r in rows && rows[r].status.Active()
  }

  ghost function LimitsOf(rows: map<RunId, Row>): map<RunId, WorkerLimits> {
    map r | r in rows :: rows[r].limits
  }

  ghost function Reserved(rows: map<RunId, Row>): Usage {
    Load(LimitsOf(rows), ActiveIds(rows))
  }

  predicate Eligible(rows: map<RunId, Row>, r: RunId) {
    r in rows && rows[r].status.Queued? && !rows[r].cancelRequested
  }

  predicate Earlier(rows: map<RunId, Row>, a: RunId, b: RunId)
    requires a in rows && b in rows
  {
    rows[a].createdAt < rows[b].createdAt || (rows[a].createdAt == rows[b].createdAt && a.n < b.n)
  }

  /** `r` is the oldest run that may be claimed. */
  ghost predicate IsHead(rows: map<RunId, Row>, r: RunId) {
    Eligible(rows, r) && forall q :: Eligible(rows, q) && q != r ==> Earlier(rows, r, q)
  }

  /** The guard of submissions and claims: every unfinished row was accepted under this very budget. */
  predicate PoliciesAgree(rows: map<RunId, Row>, budget: GroupBudget) {
    forall r :: r in rows && !rows[r].status.Terminal() ==> rows[r].policy == budget
  }

  ghost predicate Claimable(rows: map<RunId, Row>, budget: GroupBudget, r: RunId) {
    && IsHead(rows, r) && PoliciesAgree(rows, budget)
    && budget.Allows(Reserved(rows).Plus(rows[r].limits))
  }

  /** The rows that count against the queue's capacity. */
  function Unfinished(rows: map<RunId, Row>): set<RunId> {
    set r | r in rows && !rows[r].status.Terminal()
  }

  ghost function ExpiredClaims(db: Db, now: int): set<Claim> {
    set r | r in db.rows && db.rows[r].status.Active() && db.rows[r].leaseUntil <= now && db.rows[r].token.Some?
      :: Claim(r, db.rows[r].token.value, db.rows[r].fence)
  }

  // ---------------------------------------------------------------- transactions

  function Put(db: Db, r: RunId, row: Row): Db {
    db.(rows := db.rows[r := row])
  }

  function Claimed(row: Row, token: Token, now: int, lease: int): Row {
    row.(status := Starting, token := Some(token), fence := row.fence + 1, leaseUntil := now + lease,
         attempt := None, progress := None)
  }

  function CancelRow(row: Row): Row {
    if row.status.Terminal() then row
    else if row.status.Queued? then
      row.(cancelRequested := true, status := Cancelled, outcome := Some(Outcome(Cancelled, false, None)))
    else row.(cancelRequested := true)
  }

  /** Arguments a terminal commit refuses before it opens its transaction. */
  predicate CommitRefused(
      claim: Claim, outcome: Outcome, result: Option<int>, published: Option<int>, connected: bool)
  {
    || !outcome.status.Terminal()
    || (outcome.status.Succeeded?
        && (!connected || result.None? || published.None? || outcome.resultRun != Some(claim.runId)))
  }

  predicate CommitWins(db: Db, claim: Claim, outcome: Outcome, now: int) {
    ValidIn(db, claim, now) && (db.rows[claim.runId].cancelRequested ==> outcome.status.Cancelled?)
  }

  function Committed(db: Db, r: RunId, outcome: Outcome, result: Option<int>): Db
    requires r in db.rows
  {
    Db(db.rows[r := db.rows[r].(status := outcome.status, outcome := Some(outcome), leaseUntil := 0)],
       if result.Some? then db.results[r := result.value] else db.results)
  }

  /** Retaking is refused unless the claim is still the row's claim and its lease is over. */
  predicate Recoverable(db: Db, claim: Claim, now: int) {
    claim.runId in db.rows && var row := db.rows[claim.runId];
    row.token == Some(claim.token) && row.fence == claim.fence && row.leaseUntil <= now && !row.status.Terminal()
  }

  function RecoveredRow(row: Row): Row {
    if row.cancelRequested then
      row.(status := Cancelled, token := None, leaseUntil := 0, attempt := None,
           outcome := Some(Outcome(Cancelled, true, None)))
    else row.(status := Queued, token := None, leaseUntil := 0, attempt := None)
  }

  predicate Fresh(row: Row) {
    && row.status.Queued? && !row.cancelRequested && row.token.None? && row.fence == 0 && row.leaseUntil == 0
    && row.attempt.None? && row.progress.None? && row.outcome.None?
  }

  /** Every way one transaction can change the tables. `clock` is the time read inside the
      transaction, `now` a time the caller read earlier. */
  datatype Op =
    | Submit(runId: RunId, row: Row)
    | TakeClaim(runId: RunId, token: Token, now: int, lease: int)
    | BindAttempt(claim: Claim, device: int, inode: int, clock: int)
    | Heartbeat(claim: Claim, now: int, lease: int)
    | SetRunning(claim: Claim, clock: int)
    | SetProgress(claim: Claim, value: Progress, clock: int)
    | RequestCancel(runId: RunId)
    | Commit(claim: Claim, outcome: Outcome, result: Option<int>, published: Option<int>, connected: bool,
             clock: int)
    | Recover(claim: Claim, now: int)
  {
    /** The run an operation names. */
    function Target(): RunId {
      match this
      case Submit(r, _) => r
      case TakeClaim(r, _, _, _) => r
      case RequestCancel(r) => r
      case _ => claim.runId
    }
    predicate ByClaim() { !Submit? && !TakeClaim? && !RequestCancel? }
  }

  /** When an operation is accepted, that is, changes (or rewrites) its row. */
  ghost predicate Accepts(db: Db, budget: GroupBudget, op: Op) {
    match op
    case Submit(r, row) =>
      && r !in db.rows && Fresh(row) && row.limits.Accepted()
      && row.policy == budget && PoliciesAgree(db.rows, budget)
    case TakeClaim(r, _, _, _) => Claimable(db.rows, budget, r)
    case BindAttempt(c, _, _, clock) => !CancelledNow(db, c, clock)
    case Heartbeat(c, now, _) => ValidIn(db, c, now)
    case SetRunning(c, clock) => !CancelledNow(db, c, clock)
    case SetProgress(c, v, clock) =>
      !CancelledNow(db, c, clock) && CheckedProgress(v, db.rows[c.runId].progress).Ok?
    case RequestCancel(r) => r in db.rows && !db.rows[r].status.Terminal()
    case Commit(c, o, res, pub, conn, clock) =>
      !CommitRefused(c, o, res, pub, conn) && CommitWins(db, c, o, clock) && (pub.Some? ==> pub == res)
    case Recover(c, now) => Recoverable(db, c, now)
  }

  function Changed(db: Db, op: Op): Db
    requires op.Submit? || op.Target() in db.rows
  {
    match op
    case Submit(r, row) => Put(db, r, row)
    case TakeClaim(r, token, now, lease) => Put(db, r, Claimed(db.rows[r], token, now, lease))
    case BindAttempt(c, d, i, _) => Put(db, c.runId, db.rows[c.runId].(attempt := Some((d, i))))
    case Heartbeat(c, now, lease) => Put(db, c.runId, db.rows[c.runId].(leaseUntil := now + lease))
    case SetRunning(c, _) => Put(db, c.runId, db.rows[c.runId].(status := Running))
    case SetProgress(c, v, _) => Put(db, c.runId, db.rows[c.runId].(progress := Some(v)))
    case RequestCancel(r) => Put(db, r, CancelRow(db.rows[r]))
    case Commit(c, o, res, _, _, _) => Committed(db, c.runId, o, res)
    case Recover(c, _) => Put(db, c.runId, RecoveredRow(db.rows[c.runId]))
  }

  /** One transaction: a refused one leaves the tables alone. */
  ghost function Apply(db: Db, budget: GroupBudget, op: Op): Db {
    if Accepts(db, budget, op) then Changed(db, op) else db
  }

  ghost function ApplyAll(db: Db, budget: GroupBudget, ops: seq<Op>): Db
    decreases |ops|
  {
    if ops == [] then db else ApplyAll(Apply(db, budget, ops[0]), budget, ops[1..])
  }

  // ---------------------------------------------------------------- what every run of transactions keeps

  /** How a row may look later: its identity and limits stay, fences only grow, a finished row is
      final, and an unfinished cancelled row keeps its fence and can only finish as cancelled. */
  ghost predicate Later(a: Row, b: Row) {
    && b.owner == a.owner && b.createdAt == a.createdAt && b.limits == a.limits && b.policy == a.policy
    && a.fence <= b.fence
    && (a.status.Terminal() ==> b == a)
    && (a.cancelRequested ==> b.cancelRequested && b.fence == a.fence)
    && (a.cancelRequested && !a.status.Terminal() && b.status.Terminal() ==> b.status.Cancelled?)
    && (a.fence == b.fence && b.token.Some? && a.token.Some? ==> a.token == b.token)
    && (a.fence == b.fence && a.token.None? ==> b.token.None?)
    && (a.fence == b.fence && a.progress.Some? ==> NotBehind(a.progress.value, b.progress))
  }

  /** Progress that was saved is still there, or more of it. */
  predicate NotBehind(p: Progress, q: Option<Progress>) {
    q.Some? && p.events <= q.value.events && p.sessions <= q.value.sessions && p.nowNs <= q.value.nowNs
  }

  /** A transaction changes the row it names and no other. */
  lemma OthersUntouched(db: Db, budget: GroupBudget, op: Op)
    ensures var after := Apply(db, budget, op).rows;
      && after.Keys == db.rows.Keys + (if op.Submit? && Accepts(db, budget, op) then {op.runId} else {})
      && forall r :: r in db.rows && r != op.Target() ==> after[r] == db.rows[r]
  {
  }

  lemma TargetMovesForward(db: Db, budget: GroupBudget, op: Op)
    requires Accepts(db, budget, op) && op.Target() in db.rows
    ensures Later(db.rows[op.Target()], Changed(db, op).rows[op.Target()])
  {
  }

  lemma ApplyKeepsRows(db: Db, budget: GroupBudget, op: Op, r: RunId)
    requires r in db.rows
    ensures r in Apply(db, budget, op).rows && Later(db.rows[r], Apply(db, budget, op).rows[r])
  {
    OthersUntouched(db, budget, op);
    if Accepts(db, budget, op) && r == op.Target() { TargetMovesForward(db, budget, op); }
  }

  lemma LaterStill(a: Row, b: Row, c: Row)
    requires Later(a, b) && Later(b, c)
    ensures Later(a, c)
  {
  }

  /** Over all runs of the repository: fences never drop, a terminal row never changes again, an
      unfinished run with a cancel request ends only as cancelled and is never claimed again. */
  lemma {:induction false} RowsOnlyMoveForward(db: Db, budget: GroupBudget, ops: seq<Op>, r: RunId)
    requires r in db.rows
    ensures r in ApplyAll(db, budget, ops).rows && Later(db.rows[r], ApplyAll(db, budget, ops).rows[r])
    decreases |ops|
  {
    if ops != [] {
      var next := Apply(db, budget, ops[0]);
      ApplyKeepsRows(db, budget, ops[0], r);
      RowsOnlyMoveForward(next, budget, ops[1..], r);
      LaterStill(db.rows[r], next.rows[r], ApplyAll(next, budget, ops[1..]).rows[r]);
    }
  }

  lemma {:induction false} ApplyAppend(db: Db, budget: GroupBudget, ops: seq<Op>, op: Op)
    ensures ApplyAll(db, budget, ops + [op]) == Apply(ApplyAll(db, budget, ops), budget, op)
    decreases |ops|
  {
    if ops == [] {
      assert (ops + [op])[1..] == [];
    } else {
      assert (ops + [op])[1..] == ops[1..] + [op];
      ApplyAppend(Apply(db, budget, ops[0]), budget, ops[1..], op);
    }
  }

  /** The last claim of a run that was issued in the course of `ops`. */
  ghost function Newest(db: Db, budget: GroupBudget, ops: seq<Op>, r: RunId): Option<Claim>
    decreases |ops|
  {
    if ops == [] then None
    else
      var front, op := ops[..|ops| - 1], ops[|ops| - 1];
      var before := ApplyAll(db, budget, front);
      if op.TakeClaim? && op.runId == r && Accepts(before, budget, op)
      then Some(Claim(r, op.token, before.rows[r].fence + 1))
      else Newest(db, budget, front, r)
  }

  lemma TokenOnlyByClaim(db: Db, budget: GroupBudget, op: Op, r: RunId)
    requires r in Apply(db, budget, op).rows && Apply(db, budget, op).rows[r].token.Some?
    requires !(op.TakeClaim? && op.runId == r && Accepts(db, budget, op))
    ensures r in db.rows && db.rows[r].token == Apply(db, budget, op).rows[r].token
    ensures db.rows[r].fence == Apply(db, budget, op).rows[r].fence
  {
  }

  lemma {:induction false} HolderIsNewest(db: Db, budget: GroupBudget, ops: seq<Op>, r: RunId)
    requires db.rows == map[]
    ensures var row := ApplyAll(db, budget, ops).rows;
      r in row && row[r].token.Some? ==>
        Newest(db, budget, ops, r) == Some(Claim(r, row[r].token.value, row[r].fence))
    decreases |ops|
  {
    if ops != [] {
      var front, op := ops[..|ops| - 1], ops[|ops| - 1];
      assert ops == front + [op];
      ApplyAppend(db, budget, front, op);
      HolderIsNewest(db, budget, front, r);
      var before := ApplyAll(db, budget, front);
      var after := Apply(before, budget, op);
      if r in after.rows && after.rows[r].token.Some?
         && !(op.TakeClaim? && op.runId == r && Accepts(before, budget, op)) {
        TokenOnlyByClaim(before, budget, op, r);
      }
    }
  }

  /** An accepted mutation by a claim carries the row's own token and fence, and touches no other row. */
  lemma OnlyTheHolderMutates(db: Db, budget: GroupBudget, op: Op)
    requires op.ByClaim() && Accepts(db, budget, op)
    ensures op.claim.runId in db.rows
    ensures db.rows[op.claim.runId].fence == op.claim.fence && db.rows[op.claim.runId].token == Some(op.claim.token)
    ensures !db.rows[op.claim.runId].status.Terminal()
    ensures Apply(db, budget, op).rows == db.rows[op.claim.runId := Apply(db, budget, op).rows[op.claim.runId]]
  {
  }

  /** In every run of the repository a mutation by a claim is accepted only from the newest claim of that
      run, with the very token and fence that claim was issued with. */
  lemma OnlyTheNewestClaimMutates(db: Db, budget: GroupBudget, ops: seq<Op>, op: Op)
    requires db.rows == map[] && op.ByClaim() && Accepts(ApplyAll(db, budget, ops), budget, op)
    ensures Newest(db, budget, ops, op.claim.runId) == Some(op.claim)
  {
    HolderIsNewest(db, budget, ops, op.claim.runId);
    OnlyTheHolderMutates(ApplyAll(db, budget, ops), budget, op);
  }

  /** Once a newer claim of the same run was issued, no operation of the older claim is ever
      accepted again, whatever happened in between. */
  lemma StaleClaimIsFenced(db: Db, budget: GroupBudget, take: Op, ops: seq<Op>, stale: Claim, op: Op)
    requires take.TakeClaim? && Accepts(db, budget, take) && take.runId == stale.runId
    requires stale.fence <= db.rows[stale.runId].fence
    requires op.ByClaim() && op.claim == stale
    ensures !Accepts(ApplyAll(Apply(db, budget, take), budget, ops), budget, op)
  {
    RowsOnlyMoveForward(Apply(db, budget, take), budget, ops, stale.runId);
  }

  /** A claim raises the fence by exactly one and takes the oldest eligible run. */
  lemma ClaimIssuesNextFence(db: Db, budget: GroupBudget, op: Op)
    requires op.TakeClaim? && Accepts(db, budget, op)
    ensures Held(Apply(db, budget, op), Claim(op.runId, op.token, db.rows[op.runId].fence + 1))
    ensures forall q :: Eligible(db.rows, q) ==> q == op.runId || Earlier(db.rows, op.runId, q)
    ensures ActiveIds(Apply(db, budget, op).rows) == ActiveIds(db.rows) + {op.runId}
  {
  }

  // ---------------------------------------------------------------- the reservation

  /** The reservations fit the budget exactly when, over any list of the rows that are starting or running,
      there are few enough and each of the four sums stays within its bound. */
  lemma ReservedFitsExactly(
      rows: map<RunId, Row>, budget: GroupBudget, order: seq<RunId>, active: seq<WorkerLimits>)
    requires forall q :: q in order <==> q in rows && (rows[q].status == Starting || rows[q].status == Running)
    requires forall i, j :: 0 <= i < j < |order| ==> order[i] != order[j]
    requires |active| == |order| && forall i :: 0 <= i < |order| ==> active[i] == rows[order[i]].limits
    ensures budget.Allows(Reserved(rows)) <==>
      && |order| <= budget.concurrency
      && Sum(CpuMillis(active)) + budget.reserveCpuMillis <= budget.cpuMillis
      && Sum(MemoryBytes(active)) + budget.reserveMemoryBytes <= budget.memoryBytes
      && Sum(Pids(active)) + budget.reservePids <= budget.pids
      && Sum(TmpBytes(active)) <= budget.tmpBytes
  {
    LoadFits(LimitsOf(rows), ActiveIds(rows), order, active, budget);
    FitsExactly(budget, active);
  }

  /** A run may be claimed exactly when it is queued and uncancelled, no other such run is older, every
      unfinished row carries this budget as its policy, and with what is already starting or running the
      number of workers and each of the four sums stay within the budget. */
  lemma ClaimableExactly(
      rows: map<RunId, Row>, budget: GroupBudget, r: RunId, order: seq<RunId>, active: seq<WorkerLimits>)
    requires r in rows
    requires forall q :: q in order <==> q in rows && (rows[q].status == Starting || rows[q].status == Running)
    requires forall i, j :: 0 <= i < j < |order| ==> order[i] != order[j]
    requires |active| == |order| && forall i :: 0 <= i < |order| ==> active[i] == rows[order[i]].limits
    ensures Claimable(rows, budget, r) <==>
      && rows[r].status == Queued && !rows[r].cancelRequested
      && (forall q :: q in rows && rows[q].status == Queued && !rows[q].cancelRequested ==>
            || rows[r].createdAt < rows[q].createdAt
            || (rows[r].createdAt == rows[q].createdAt && r.n <= q.n))
      && (forall q :: q in rows && rows[q].status !in {Succeeded, Failed, Cancelled} ==> rows[q].policy == budget)
      && |order| + 1 <= budget.concurrency
      && Sum(CpuMillis(active)) + rows[r].limits.cpuMillis + budget.reserveCpuMillis <= budget.cpuMillis
      && Sum(MemoryBytes(active)) + rows[r].limits.memoryBytes + budget.reserveMemoryBytes <= budget.memoryBytes
      && Sum(Pids(active)) + rows[r].limits.pids + budget.reservePids <= budget.pids
      && Sum(TmpBytes(active)) + rows[r].limits.tmpBytes <= budget.tmpBytes
  {
    LoadFits(LimitsOf(rows), ActiveIds(rows), order, active, budget);
    TotalIsSums(active);
    HeadExactly(rows, r);
  }

  lemma HeadExactly(rows: map<RunId, Row>, r: RunId)
    requires r in rows
    ensures IsHead(rows, r) <==>
      && rows[r].status == Queued && !rows[r].cancelRequested
      && forall q :: q in rows && rows[q].status == Queued && !rows[q].cancelRequested ==>
           || rows[r].createdAt < rows[q].createdAt
           || (rows[r].createdAt == rows[q].createdAt && r.n <= q.n)
  {
    forall q | q in rows && q != r ensures q.n != r.n { assert q == RunId(q.n); }
    forall q | q in rows ensures Eligible(rows, q) <==> rows[q].status == Queued && !rows[q].cancelRequested {}
  }

  ghost predicate WithinBudget(db: Db, budget: GroupBudget) {
    && (forall r :: r in db.rows ==> db.rows[r].limits.Accepted())
    && budget.Allows(Reserved(db.rows))
  }

  /** Releasing reservations, or adding rows that hold none, can only lower the reserved usage. */
  lemma ReleaseFits(a: map<RunId, Row>, b: map<RunId, Row>, budget: GroupBudget)
    requires forall r :: r in a ==> a[r].limits.Accepted()
    requires forall r :: r in a ==> r in b && b[r].limits == a[r].limits
    requires ActiveIds(b) <= ActiveIds(a)
    requires budget.Allows(Reserved(a))
    ensures budget.Allows(Reserved(b))
  {
    LoadFrame(LimitsOf(a), LimitsOf(b), ActiveIds(b));
    LoadMonotone(LimitsOf(a), ActiveIds(b), ActiveIds(a));
  }

  lemma ClaimFits(db: Db, budget: GroupBudget, op: Op)
    requires op.TakeClaim? && Accepts(db, budget, op)
    ensures budget.Allows(Reserved(Apply(db, budget, op).rows))
  {
    var after := Apply(db, budget, op);
    ClaimIssuesNextFence(db, budget, op);
    var before, now := ActiveIds(db.rows), ActiveIds(after.rows);
    assert now - {op.runId} == before;
    LoadRemove(LimitsOf(after.rows), now, op.runId);
    LoadFrame(LimitsOf(db.rows), LimitsOf(after.rows), before);
  }

  /** Nothing but a submission adds an unfinished row, nothing but a claim a reservation. */
  lemma OtherOnlyReleases(db: Db, budget: GroupBudget, op: Op)
    requires !op.Submit? && !op.TakeClaim?
    ensures var after := Apply(db, budget, op).rows;
      && after.Keys == db.rows.Keys
      && Unfinished(after) <= Unfinished(db.rows) && ActiveIds(after) <= ActiveIds(db.rows)
      && forall r :: r in db.rows ==> after[r].limits == db.rows[r].limits && after[r].policy == db.rows[r].policy
  {
    var after := Apply(db, budget, op).rows;
    OthersUntouched(db, budget, op);
    forall r | r in db.rows ensures Later(db.rows[r], after[r]) { ApplyKeepsRows(db, budget, op, r); }
    if Accepts(db, budget, op) { TargetReserves(db, budget, op); }
  }

  lemma TargetReserves(db: Db, budget: GroupBudget, op: Op)
    requires Accepts(db, budget, op) && !op.Submit? && !op.TakeClaim?
    ensures op.Target() in db.rows
    ensures Changed(db, op).rows[op.Target()].status.Active() ==> db.rows[op.Target()].status.Active()
  {
  }

  /** The rows that hold a reservation always fit the group budget, expired leases included. */
  lemma ApplyKeepsBudget(db: Db, budget: GroupBudget, op: Op)
    requires WithinBudget(db, budget)
    ensures WithinBudget(Apply(db, budget, op), budget)
  {
    var after := Apply(db, budget, op);
    if !Accepts(db, budget, op) {
    } else if op.TakeClaim? {
      ClaimFits(db, budget, op);
    } else if op.Submit? {
      ReleaseFits(db.rows, after.rows, budget);
    } else {
      OtherOnlyReleases(db, budget, op);
      ReleaseFits(db.rows, after.rows, budget);
    }
  }

  // ---------------------------------------------------------------- processes with their own budgets

  /** A transaction of a process that is configured with `budget`. */
  datatype Call = Call(budget: GroupBudget, op: Op)

  ghost function ApplyCalls(db: Db, calls: seq<Call>): Db
    decreases |calls|
  {
    if calls == [] then db else ApplyCalls(Apply(db, calls[0].budget, calls[0].op), calls[1..])
  }

  /** All unfinished rows carry one policy, and the reservations fit it. */
  ghost predicate OnePolicy(db: Db) {
    && (forall r :: r in db.rows ==> db.rows[r].limits.Accepted())
    && (forall r :: r in Unfinished(db.rows) ==> db.rows[r].policy.Allows(Reserved(db.rows)))
    && (forall r, q :: r in Unfinished(db.rows) && q in Unfinished(db.rows) ==>
          db.rows[r].policy == db.rows[q].policy)
  }

  lemma NothingReserved(rows: map<RunId, Row>)
    requires Unfinished(rows) == {}
    ensures Reserved(rows) == NoUsage
  {
    assert ActiveIds(rows) <= Unfinished(rows);
    assert ActiveIds(rows) == {};
  }

  /** Submitting under the common policy, or under any accepted one when nothing is unfinished. */
  lemma SubmitKeepsPolicy(db: Db, budget: GroupBudget, op: Op)
    requires OnePolicy(db) && budget.Accepted() && op.Submit? && Accepts(db, budget, op)
    ensures OnePolicy(Apply(db, budget, op))
  {
    var after := Apply(db, budget, op);
    assert budget.Allows(Reserved(db.rows)) by {
      if r :| r in Unfinished(db.rows) {
        assert db.rows[r].policy == budget;
      } else {
        assert Unfinished(db.rows) == {};
        NothingReserved(db.rows);
      }
    }
    ReleaseFits(db.rows, after.rows, budget);
    forall r | r in Unfinished(after.rows) ensures after.rows[r].policy == budget {
      if r != op.runId { assert r in Unfinished(db.rows); }
    }
  }

  lemma ClaimKeepsPolicy(db: Db, budget: GroupBudget, op: Op)
    requires OnePolicy(db) && op.TakeClaim? && Accepts(db, budget, op)
    ensures OnePolicy(Apply(db, budget, op))
  {
    var after := Apply(db, budget, op);
    ClaimFits(db, budget, op);
    forall r | r in Unfinished(after.rows) ensures after.rows[r].policy == budget {
      assert r in Unfinished(db.rows);
    }
  }

  lemma OtherKeepsPolicy(db: Db, budget: GroupBudget, op: Op)
    requires OnePolicy(db) && !op.Submit? && !op.TakeClaim?
    ensures OnePolicy(Apply(db, budget, op))
  {
    var after := Apply(db, budget, op);
    OtherOnlyReleases(db, budget, op);
    forall r | r in Unfinished(after.rows) ensures after.rows[r].policy.Allows(Reserved(after.rows)) {
      ReleaseFits(db.rows, after.rows, db.rows[r].policy);
    }
  }

  /** Whatever budgets the processes are configured with: over any sequence of their transactions all
      unfinished rows carry one policy and everything reserved fits it. A process with another budget
      submits and claims nothing until the queue has drained. */
  lemma {:induction false} OneBudgetForAll(db: Db, calls: seq<Call>)
    requires OnePolicy(db) && forall i :: 0 <= i < |calls| ==> calls[i].budget.Accepted()
    ensures OnePolicy(ApplyCalls(db, calls))
    decreases |calls|
  {
    if calls != [] {
      var budget, op := calls[0].budget, calls[0].op;
      if !Accepts(db, budget, op) {
      } else if op.Submit? {
        SubmitKeepsPolicy(db, budget, op);
      } else if op.TakeClaim? {
        ClaimKeepsPolicy(db, budget, op);
      } else {
        OtherKeepsPolicy(db, budget, op);
      }
      OneBudgetForAll(Apply(db, budget, op), calls[1..]);
    }
  }

  // ---------------------------------------------------------------- the repository object

  class DatabaseRunRepository {
    var rows: map<RunId, Row>
    var results: map<RunId, int>
    const budget: GroupBudget
    const queueLimit: nat

    constructor (budget: GroupBudget, queueLimit: nat)
      requires budget.Accepted()
      ensures this.budget == budget && this.queueLimit == queueLimit && Tables() == Db(map[], map[])
      ensures WithinBudget(Tables(), budget) && OnePolicy(Tables())
    {
      this.budget, this.queueLimit := budget, queueLimit;
      rows, results := map[], map[];
      new;
      assert ActiveIds(rows) == {};
    }

    ghost function Tables(): Db
      reads this
    {
      Db(rows, results)
    }

    /** The refusals all say the same: the run is too large, another policy is in force, or the queue is
        full. */
    method Submit(runId: RunId, row: Row) returns (r: Result<RunId>)
      requires runId !in rows && Fresh(row) && row.limits.Accepted() && row.policy == budget
      modifies this
      ensures r.Ok? <==>
        budget.Fits([row.limits]) && PoliciesAgree(old(rows), budget) && |Unfinished(old(rows))| < queueLimit
      ensures r.Ok? <==>
        && 1 <= budget.concurrency && row.limits.cpuMillis + budget.reserveCpuMillis <= budget.cpuMillis
        && row.limits.memoryBytes + budget.reserveMemoryBytes <= budget.memoryBytes
        && row.limits.pids + budget.reservePids <= budget.pids && row.limits.tmpBytes <= budget.tmpBytes
        && (forall q :: q in old(rows) && old(rows)[q].status !in {Succeeded, Failed, Cancelled} ==>
              old(rows)[q].policy == budget)
        && |set q | q in old(rows) && old(rows)[q].status !in {Succeeded, Failed, Cancelled}| < queueLimit
      ensures r.Ok? ==> r.value == runId && rows == old(rows)[runId := row] && results == old(results)
      ensures r.Ok? ==>
        rows[runId] == Row(
          row.owner, row.createdAt, row.limits, budget, Queued, false, None, 0, 0, None, None, None)
      ensures r.Err? ==> r == Err(ResourceLimit) && Tables() == old(Tables())
      ensures r.Ok? ==> Tables() == Apply(old(Tables()), budget, Op.Submit(runId, row))
      ensures r.Ok? ==> |Unfinished(rows)| <= queueLimit
    {
      FitsExactly(budget, [row.limits]);
      assert Unfinished(rows) == set q | q in rows && rows[q].status !in {Succeeded, Failed, Cancelled};
      if !budget.Fits([row.limits]) { return Err(ResourceLimit); }
      if !PoliciesAgree(rows, budget) { return Err(ResourceLimit); }
      if |Unfinished(rows)| + 1 > queueLimit { return Err(ResourceLimit); }
      ghost var before := Unfinished(rows);
      rows := rows[runId := row];
      assert Unfinished(rows) == before + {runId};
      r := Ok(runId);
    }

    /** The limits of all rows that hold a reservation, in query order. */
    method ActiveLimits() returns (limits: seq<WorkerLimits>)
      ensures Total(limits) == Reserved(rows)
    {
      limits := [];
      var order: seq<RunId> := [];
      var todo := rows.Keys;
      while exists r :: r in todo
        invariant todo <= rows.Keys
        invariant forall r :: r in order <==> r in ActiveIds(rows) && r !in todo
        invariant forall i, j :: 0 <= i < j < |order| ==> order[i] != order[j]
        invariant |limits| == |order|
        invariant forall i :: 0 <= i < |order| ==> limits[i] == rows[order[i]].limits
        decreases |todo|
      {
        var r :| r in todo;
        todo := todo - {r};
        if rows[r].status.Active() {
          limits, order := limits + [rows[r].limits], order + [r];
        }
      }
      TotalIsLoad(LimitsOf(rows), ActiveIds(rows), order);
      ghost var all := LimitsOf(rows);
      assert limits == seq(|order|, i requires 0 <= i < |order| => all[order[i]]);
    }

    /** The oldest eligible run, if any. */
    method OldestQueued() returns (head: Option<RunId>)
      ensures head.Some? ==> IsHead(rows, head.value)
      ensures head.None? ==> forall r :: !Eligible(rows, r)
      ensures head.Some? ==>
        && head.value in rows && rows[head.value].status == Queued && !rows[head.value].cancelRequested
        && forall q :: q in rows && rows[q].status == Queued && !rows[q].cancelRequested ==>
             || rows[head.value].createdAt < rows[q].createdAt
             || (rows[head.value].createdAt == rows[q].createdAt && head.value.n <= q.n)
      ensures head.None? ==> forall q :: q in rows && rows[q].status == Queued ==> rows[q].cancelRequested
    {
      head := None;
      var todo := rows.Keys;
      while exists r :: r in todo
        invariant todo <= rows.Keys
        invariant head.Some? ==> Eligible(rows, head.value) && head.value !in todo
        invariant head.Some? ==> forall q :: Eligible(rows, q) && q !in todo && q != head.value ==>
          Earlier(rows, head.value, q)
        invariant head.None? ==> forall q :: Eligible(rows, q) ==> q in todo
        decreases |todo|
      {
        var r :| r in todo;
        todo := todo - {r};
        if Eligible(rows, r) && (head.None? || Earlier(rows, r, head.value)) {
          head := Some(r);
        }
      }
      if head.Some? { HeadExactly(rows, head.value); }
      forall q | q in rows && rows[q].status == Queued && head.None? ensures rows[q].cancelRequested {
        assert !Eligible(rows, q);
      }
    }

    /** Takes the oldest eligible run when it fits beside every reservation; refuses to look at a queue
        that runs under another policy. */
    method ClaimNext(token: Token, now: int, lease: int) returns (r: Result<Option<Claim>>)
      modifies this
      ensures r.Err? <==> !PoliciesAgree(old(rows), budget)
      ensures r.Err? ==> r == Err(ResourceLimit)
      ensures r.Ok? && r.value.Some? ==>
        var claim := r.value.value;
        var op := TakeClaim(claim.runId, token, now, lease);
        && Accepts(old(Tables()), budget, op) && Tables() == Apply(old(Tables()), budget, op)
        && claim == Claim(op.runId, token, old(rows)[op.runId].fence + 1)
      ensures r.Err? || r.value.None? ==> Tables() == old(Tables()) && forall q :: !Claimable(rows, budget, q)
      ensures r.Err? <==>
        exists q :: q in old(rows) && old(rows)[q].status !in {Succeeded, Failed, Cancelled}
                    && old(rows)[q].policy != budget
      ensures r.Ok? && r.value.Some? ==>
        var claim := r.value.value;
        && claim.runId in old(rows) && var row := old(rows)[claim.runId];
        && row.status == Queued && !row.cancelRequested && claim.token == token && claim.fence == row.fence + 1
        && (forall q :: q in old(rows) && old(rows)[q].status == Queued && !old(rows)[q].cancelRequested ==>
              || row.createdAt < old(rows)[q].createdAt
              || (row.createdAt == old(rows)[q].createdAt && claim.runId.n <= q.n))
        && rows == old(rows)[claim.runId := row.(
             status := Starting, token := Some(token), fence := row.fence + 1, leaseUntil := now + lease,
             attempt := None, progress := None)]
        && results == old(results)
    {
      if !PoliciesAgree(rows, budget) { return Err(ResourceLimit); }
      var active := ActiveLimits();
      var head := OldestQueued();
      if head.None? { return Ok(None); }
      var row := rows[head.value];
      assert (active + [row.limits])[..|active|] == active;
      if !budget.Fits(active + [row.limits]) {
        forall q | IsHead(rows, q) ensures q == head.value { }
        return Ok(None);
      }
      rows := rows[head.value := Claimed(row, token, now, lease)];
      r := Ok(Some(Claim(head.value, token, row.fence + 1)));
    }

    /** Shared body of the fenced mutations: refuse a stale or cancelled claim. */
    method MutateClaim(claim: Claim, updated: Row, now: int, allowCancel: bool) returns (r: Result<bool>)
      modifies this
      ensures claim.runId !in old(rows) ==> r == Err(DataRestricted)
      ensures claim.runId in old(rows) ==>
        r == Ok(ValidIn(old(Tables()), claim, now) && (allowCancel || !old(rows)[claim.runId].cancelRequested))
      ensures Tables() == if r == Ok(true) then Put(old(Tables()), claim.runId, updated) else old(Tables())
      ensures claim.runId in old(rows) ==>
        r.Ok? && var row := old(rows)[claim.runId];
        r.value <==>
          && row.status in {Starting, Running} && row.token == Some(claim.token) && row.fence == claim.fence
          && row.leaseUntil > now && (row.cancelRequested ==> allowCancel)
      ensures rows == if r == Ok(true) then old(rows)[claim.runId := updated] else old(rows)
      ensures results == old(results)
    {
      if claim.runId !in rows { return Err(DataRestricted); }
      var row := rows[claim.runId];
      if !Valid(row, claim, now) || (row.cancelRequested && !allowCancel) { return Ok(false); }
      rows := rows[claim.runId := updated];
      r := Ok(true);
    }

    method BindAttempt(claim: Claim, device: int, inode: int, clock: int) returns (r: Result<bool>)
      modifies this
      ensures claim.runId !in old(rows) ==> r == Err(DataRestricted)
      ensures claim.runId in old(rows) ==>
        r == Ok(Accepts(old(Tables()), budget, Op.BindAttempt(claim, device, inode, clock)))
      ensures Tables() == Apply(old(Tables()), budget, Op.BindAttempt(claim, device, inode, clock))
      ensures claim.runId in old(rows) ==>
        r.Ok? && var row := old(rows)[claim.runId];
        && (r.value <==>
              && row.status in {Starting, Running} && row.token == Some(claim.token) && row.fence == claim.fence
              && row.leaseUntil > clock && !row.cancelRequested)
        && rows == if r.value then old(rows)[claim.runId := row.(attempt := Some((device, inode)))] else old(rows)
      ensures (claim.runId !in old(rows) ==> rows == old(rows)) && results == old(results)
    {
      if claim.runId !in rows { return Err(DataRestricted); }
      r := MutateClaim(claim, rows[claim.runId].(attempt := Some((device, inode))), clock, false);
    }

    method Heartbeat(claim: Claim, now: int, lease: int) returns (r: Result<bool>)
      modifies this
      ensures claim.runId !in old(rows) ==> r == Err(DataRestricted)
      ensures claim.runId in old(rows) ==> r == Ok(Accepts(old(Tables()), budget, Op.Heartbeat(claim, now, lease)))
      ensures Tables() == Apply(old(Tables()), budget, Op.Heartbeat(claim, now, lease))
      ensures claim.runId in old(rows) ==>
        r.Ok? && var row := old(rows)[claim.runId];
        && (r.value <==>
              && row.status in {Starting, Running} && row.token == Some(claim.token) && row.fence == claim.fence
              && row.leaseUntil > now)
        && rows == if r.value then old(rows)[claim.runId := row.(leaseUntil := now + lease)] else old(rows)
      ensures (claim.runId !in old(rows) ==> rows == old(rows)) && results == old(results)
    {
      if claim.runId !in rows { return Err(DataRestricted); }
      r := MutateClaim(claim, rows[claim.runId].(leaseUntil := now + lease), now, true);
    }

    method MarkRunning(claim: Claim, clock: int) returns (r: Result<bool>)
      modifies this
      ensures claim.runId !in old(rows) ==> r == Err(DataRestricted)
      ensures claim.runId in old(rows) ==> r == Ok(Accepts(old(Tables()), budget, SetRunning(claim, clock)))
      ensures Tables() == Apply(old(Tables()), budget, SetRunning(claim, clock))
      ensures claim.runId in old(rows) ==>
        r.Ok? && var row := old(rows)[claim.runId];
        && (r.value <==>
              && row.status in {Starting, Running} && row.token == Some(claim.token) && row.fence == claim.fence
              && row.leaseUntil > clock && !row.cancelRequested)
        && rows == if r.value then old(rows)[claim.runId := row.(status := Running)] else old(rows)
      ensures (claim.runId !in old(rows) ==> rows == old(rows)) && results == old(results)
    {
      if claim.runId !in rows { return Err(DataRestricted); }
      r := MutateClaim(claim, rows[claim.runId].(status := Running), clock, false);
    }

    method SaveProgress(claim: Claim, value: Progress, clock: int) returns (r: Result<bool>)
      modifies this
      ensures Tables() == Apply(old(Tables()), budget, SetProgress(claim, value, clock))
      ensures r == Ok(true) <==> Accepts(old(Tables()), budget, SetProgress(claim, value, clock))
      ensures r == Ok(false) <==> claim.runId in old(rows) && CancelledNow(old(Tables()), claim, clock)
      ensures r == Err(DataRestricted) <==> claim.runId !in old(rows)
      ensures claim.runId in old(rows) ==>
        var row := old(rows)[claim.runId];
        var held := && row.status in {Starting, Running} && row.token == Some(claim.token)
                    && row.fence == claim.fence && row.leaseUntil > clock && !row.cancelRequested;
        && (r == Ok(false) <==> !held)
        && (r == Ok(true) <==>
              && held && 0 <= value.events < 9007199254740992 && 0 <= value.sessions < 9007199254740992
              && -9223372036854775808 <= value.nowNs < 9223372036854775808
              && (row.progress.Some? ==>
                    && row.progress.value.events <= value.events && row.progress.value.sessions <= value.sessions
                    && row.progress.value.nowNs <= value.nowNs))
        && rows == if r == Ok(true) then old(rows)[claim.runId := row.(progress := Some(value))] else old(rows)
      ensures results == old(results)
    {
      if claim.runId !in rows { return Err(DataRestricted); }
      var row := rows[claim.runId];
      if !Valid(row, claim, clock) || row.cancelRequested { return Ok(false); }
      var checked := CheckedProgress(value, row.progress);
      if checked.Err? { return Err(checked.fault); }
      rows := rows[claim.runId := row.(progress := Some(checked.value))];
      r := Ok(true);
    }

    method RequestCancel(owner: int, runId: RunId) returns (r: Result<Status>)
      modifies this
      ensures r.Ok? <==> runId in old(rows) && old(rows)[runId].owner == owner
      ensures r.Ok? ==>
        Tables() == Apply(old(Tables()), budget, Op.RequestCancel(runId)) && r.value == rows[runId].status
      ensures r.Err? ==> r == Err(DataRestricted) && Tables() == old(Tables())
      ensures results == old(results)
      ensures r.Ok? ==>
        var row := old(rows)[runId];
        rows ==
          if row.status == Queued then
            old(rows)[runId := row.(
              cancelRequested := true, status := Cancelled, outcome := Some(Outcome(Cancelled, false, None)))]
          else if row.status in {Starting, Running} then old(rows)[runId := row.(cancelRequested := true)]
          else old(rows)
    {
      if runId !in rows || rows[runId].owner != owner { return Err(DataRestricted); }
      var row := rows[runId];
      if !row.status.Terminal() {
        row := row.(cancelRequested := true);
        if row.status.Queued? {
          row := row.(status := Cancelled, outcome := Some(Outcome(Cancelled, false, None)));
        }
        rows := rows[runId := row];
      }
      r := Ok(rows[runId].status);
    }

    /** The terminal transaction. `published` is what the retain callback returns, None without one. */
    method CommitOutcome(
        claim: Claim, outcome: Outcome, result: Option<int>, published: Option<int>, connected: bool, clock: int)
      returns (r: Result<bool>)
      modifies this
      ensures var op := Commit(claim, outcome, result, published, connected, clock);
        && Tables() == Apply(old(Tables()), budget, op)
        && (r == Ok(true) <==> Accepts(old(Tables()), budget, op))
      ensures r == Ok(true) && outcome.status.Succeeded? ==>
        claim.runId in results && Some(results[claim.runId]) == result == published
      ensures r == Ok(true) <==>
        && claim.runId in old(rows) && var row := old(rows)[claim.runId];
        && row.status in {Starting, Running} && row.token == Some(claim.token) && row.fence == claim.fence
        && row.leaseUntil > clock && (row.cancelRequested ==> outcome.status == Cancelled)
        && outcome.status in {Succeeded, Failed, Cancelled}
        && (outcome.status == Succeeded ==> connected && result.Some? && outcome.resultRun == Some(claim.runId))
        && (outcome.status == Succeeded || published.Some? ==> published == result)
      ensures r == Ok(true) ==>
        && rows == old(rows)[claim.runId :=
             old(rows)[claim.runId].(status := outcome.status, outcome := Some(outcome), leaseUntil := 0)]
        && results == if result.Some? then old(results)[claim.runId := result.value] else old(results)
      ensures r != Ok(true) ==> rows == old(rows) && results == old(results)
    {
      if !outcome.status.Terminal() { return Err(InvalidContract); }
      if outcome.status.Succeeded? && (!connected || result.None? || published.None?) { return Err(InvalidContract); }
      if outcome.status.Succeeded? && outcome.resultRun != Some(claim.runId) { return Err(InvalidContract); }
      if claim.runId !in rows { return Err(DataRestricted); }
      var row := rows[claim.runId];
      if !Valid(row, claim, clock) || (row.cancelRequested && !outcome.status.Cancelled?) { return Ok(false); }
      if published.Some? && published != result { return Err(InvalidContract); }
      if result.Some? { results := results[claim.runId := result.value]; }
      rows := rows[claim.runId := row.(status := outcome.status, outcome := Some(outcome), leaseUntil := 0)];
      r := Ok(true);
    }

    /** At most `concurrency` claims whose lease is over. */
    method Expired(now: int) returns (claims: seq<Claim>)
      requires budget.Accepted()
      ensures |claims| <= budget.concurrency
      ensures forall c :: c in claims ==> c in ExpiredClaims(Tables(), now)
      ensures |claims| < budget.concurrency ==> forall c :: c in ExpiredClaims(Tables(), now) ==> c in claims
      ensures forall c :: c in claims ==>
        && c.runId in rows && rows[c.runId].status in {Starting, Running} && rows[c.runId].leaseUntil <= now
        && rows[c.runId].token == Some(c.token) && rows[c.runId].fence == c.fence
      ensures |claims| < budget.concurrency ==>
        forall q | q in rows && rows[q].status in {Starting, Running} && rows[q].leaseUntil <= now ::
          rows[q].token.Some? ==> Claim(q, rows[q].token.value, rows[q].fence) in claims
      ensures forall i, j :: 0 <= i < j < |claims| ==> claims[i].runId != claims[j].runId
    {
      claims := [];
      var todo := rows.Keys;
      while (exists r :: r in todo) && |claims| < budget.concurrency
        invariant todo <= rows.Keys
        invariant |claims| <= budget.concurrency
        invariant forall c :: c in claims ==> c in ExpiredClaims(Tables(), now)
        invariant forall c :: c in ExpiredClaims(Tables(), now) ==> c in claims || c.runId in todo
        invariant forall i :: 0 <= i < |claims| ==> claims[i].runId !in todo
        invariant forall i, j :: 0 <= i < j < |claims| ==> claims[i].runId != claims[j].runId
        decreases |todo|
      {
        var r :| r in todo;
        todo := todo - {r};
        var row := rows[r];
        if row.status.Active() && row.leaseUntil <= now && row.token.Some? {
          claims := claims + [Claim(r, row.token.value, row.fence)];
        }
      }
    }

    method RecoverStopped(claim: Claim, now: int) returns (r: Result<bool>)
      modifies this
      ensures claim.runId !in old(rows) ==> r == Err(DataRestricted)
      ensures claim.runId in old(rows) ==> r == Ok(Accepts(old(Tables()), budget, Recover(claim, now)))
      ensures Tables() == Apply(old(Tables()), budget, Recover(claim, now))
      ensures claim.runId in old(rows) ==>
        r.Ok? && var row := old(rows)[claim.runId];
        && (r.value <==>
              && row.token == Some(claim.token) && row.fence == claim.fence && row.leaseUntil <= now
              && row.status !in {Succeeded, Failed, Cancelled})
        && rows ==
           if !r.value then old(rows)
           else if row.cancelRequested then
             old(rows)[claim.runId := row.(
               status := Cancelled, token := None, leaseUntil := 0, attempt := None,
               outcome := Some(Outcome(Cancelled, true, None)))]
           else old(rows)[claim.runId := row.(status := Queued, token := None, leaseUntil := 0, attempt := None)]
      ensures (claim.runId !in old(rows) ==> rows == old(rows)) && results == old(results)
    {
      if claim.runId !in rows { return Err(DataRestricted); }
      var row := rows[claim.runId];
      if row.token != Some(claim.token) || row.fence != claim.fence || row.leaseUntil > now || row.status.Terminal() {
        return Ok(false);
      }
      var updated := row.(status := if row.cancelRequested then Cancelled else Queued, token := None,
                          leaseUntil := 0, attempt := None);
      if row.cancelRequested {
        updated := updated.(outcome := Some(Outcome(Cancelled, true, None)));
      }
      rows := rows[claim.runId := updated];
      r := Ok(true);
    }
  }
}
