/** Any number of supervisors around one repository and one daemon. Every database transaction,
    every daemon request and every reading of the clock is its own step, so any other actor may
    act in between; the two systems are never updated together.

    Assumed: one monotone clock; a truthful daemon; the lease length is positive. A heartbeat is
    two steps (read the clock, then the transaction), so it may land arbitrarily late; one worker
    has one heartbeat thread from its claim on, and the supervisor's own loop beats only for
    workers it has finished starting. */
module Scheduling {
  import opened RuntimeContracts
  import opened RunRepository
  import opened WorkerDaemon

  /** Where the supervisor that holds a claim stands. */
  datatype Phase =
    | Claimed                   // work read, attempt prepared
    | Creating                  // the check before create passed
    | Created                   // the create request returned
    | Cleared                   // the check after create passed; start not yet sent
    | Live                      // start returned; the worker is registered
    | Aborting(stop: StopPc)    // starting failed: stop_remove, then a failed outcome
    | Finishing(stop: StopPc)   // stop_remove before the terminal outcome
    | Committing                // no further daemon request; terminal outcomes only
  {
    predicate BeforeClearance() { Claimed? || Creating? || Created? }
    predicate MayRun() { Cleared? || Live? || Finishing? }
    predicate Stopping() { Aborting? || Finishing? }
  }

  /** `made` is the id its create request returned; the beats are clock readings not yet applied. */
  datatype Worker = Worker(phase: Phase, made: Option<nat>, threadBeat: Option<int>, loopBeat: Option<int>)

  /** A recovery of an expired claim: what `expired(now)` returned, and how far it got. */
  datatype Cleaner = Cleaner(claim: Claim, now: int, stop: StopPc)

  /** Which of the protocol's three safeguards are in force; the runner has them all. */
  datatype Guards = Guards(checkBefore: bool, checkAfter: bool, stopFirst: bool) {
    predicate Enough() { checkAfter && stopFirst }
  }

  datatype World = World(
    clock: int, lease: nat, budget: GroupBudget, guards: Guards, db: Db, daemon: Daemon,
    workers: map<Claim, Worker>, cleaners: map<CleanerId, Cleaner>)

  datatype CleanerId = CleanerId(n: int)

  datatype Action =
    | Tick(elapsed: nat)
    | Transaction(op: Op)                        // submit, cancel, bind, boot, progress
    | Take(runId: RunId, token: Token, now: int) // `now` was read earlier
    | PassBefore(claim: Claim)
    | CreateContainer(claim: Claim)
    | PassAfter(claim: Claim)
    | StartContainer(claim: Claim)
    | Abort(claim: Claim)
    | Finish(claim: Claim)
    | StopRequest(claim: Claim)
    | ReadThreadBeat(claim: Claim)
    | ApplyThreadBeat(claim: Claim)
    | ReadLoopBeat(claim: Claim)
    | ApplyLoopBeat(claim: Claim)
    | CommitTerminal(claim: Claim, outcome: Outcome, result: Option<int>, published: Option<int>, connected: bool)
    | WorkerExits(runId: RunId)
    | Observe(cleaner: CleanerId, claim: Claim, now: int)
    | CleanRequest(cleaner: CleanerId)
    | RecoverClaim(cleaner: CleanerId)

  /** Transactions any actor may issue at any time, with the clock read inside them. */
  predicate Loose(op: Op, clock: int) {
    match op
    case Submit(_, _) => true
    case RequestCancel(_) => true
    case BindAttempt(_, _, _, at) => at == clock
    case SetRunning(_, at) => at == clock
    case SetProgress(_, _, at) => at == clock
    case _ => false
  }

  function Put(w: World, c: Claim, v: Worker): World {
    w.(workers := w.workers[c := v])
  }

  /** Whether an action can happen. Aborting is always possible for a worker that is starting:
      its stop event, a failed check or any exception leads there. */
  ghost predicate Enabled(w: World, a: Action) {
    match a
    case Tick(_) => true
    case Transaction(op) => Loose(op, w.clock)
    case Take(r, token, now) => now <= w.clock && Accepts(w.db, w.budget, TakeClaim(r, token, now, w.lease))
    case PassBefore(c) =>
      c in w.workers && w.workers[c].phase.Claimed? && (w.guards.checkBefore ==> !CancelledNow(w.db, c, w.clock))
    case CreateContainer(c) =>
      c in w.workers && w.workers[c].phase.Creating? && c.runId in w.db.rows && c.runId !in w.daemon.box
    case PassAfter(c) =>
      c in w.workers && w.workers[c].phase.Created? && (w.guards.checkAfter ==> !CancelledNow(w.db, c, w.clock))
    case StartContainer(c) => c in w.workers && w.workers[c].phase.Cleared? && w.workers[c].made.Some?
    case Abort(c) => c in w.workers && (w.workers[c].phase.BeforeClearance() || w.workers[c].phase.Cleared?)
    case Finish(c) => c in w.workers && w.workers[c].phase.Live?
    case StopRequest(c) => c in w.workers && w.workers[c].phase.Stopping()
    case ReadThreadBeat(c) => c in w.workers && w.workers[c].threadBeat.None?
    case ApplyThreadBeat(c) => c in w.workers && w.workers[c].threadBeat.Some?
    case ReadLoopBeat(c) => c in w.workers && w.workers[c].phase.Live? && w.workers[c].loopBeat.None?
    case ApplyLoopBeat(c) => c in w.workers && w.workers[c].loopBeat.Some?
    case CommitTerminal(c, _, _, _, _) => c in w.workers && w.workers[c].phase.Committing?
    case WorkerExits(r) => r in w.daemon.box
    case Observe(k, c, now) =>
      k !in w.cleaners && now <= w.clock && Held(w.db, c) && w.db.rows[c.runId].leaseUntil <= now
    case CleanRequest(k) => k in w.cleaners && !w.cleaners[k].stop.Done()
    case RecoverClaim(k) => k in w.cleaners && (w.guards.stopFirst ==> w.cleaners[k].stop.Clean?)
  }

  /** The phase after a finished stop_remove. A refused removal still lets a finishing worker
      commit; any other failure leaves its task in place, while a failed start is always committed. */
  function AfterStop(phase: Phase): Phase
    requires phase.Stopping() && phase.stop.Done()
  {
    if phase.Finishing? && phase.stop.Raised? then Live else Committing
  }

  ghost function Transact(w: World, op: Op): World {
    w.(db := Apply(w.db, w.budget, op))
  }

  ghost function StepEnabled(w: World, a: Action): World
    requires Enabled(w, a)
  {
    match a
    case Tick(elapsed) => w.(clock := w.clock + elapsed)
    case Transaction(op) => Transact(w, op)
    case Take(r, token, now) =>
      var c := Claim(r, token, w.db.rows[r].fence + 1);
      Put(Transact(w, TakeClaim(r, token, now, w.lease)), c, Worker(Claimed, None, None, None))
    case PassBefore(c) => Put(w, c, w.workers[c].(phase := Creating))
    case CreateContainer(c) =>
      Put(w, c, w.workers[c].(phase := Created, made := Some(|w.daemon.log|)))
        .(daemon := Create(w.daemon, c, w.db.rows[c.runId].limits))
    case PassAfter(c) => Put(w, c, w.workers[c].(phase := Cleared))
    case StartContainer(c) =>
      // Starting a deleted id fails, and the failure path stops and removes.
      if exists r :: r in w.daemon.box && w.daemon.box[r].id == w.workers[c].made.value then
        var d := WorkerDaemon.SetRunning(w.daemon, w.workers[c].made.value, true);
        Put(w, c, w.workers[c].(phase := Live)).(daemon := d)
      else Put(w, c, w.workers[c].(phase := Aborting(Look)))
    case Abort(c) => Put(w, c, w.workers[c].(phase := Aborting(Look)))
    case Finish(c) => Put(w, c, w.workers[c].(phase := Finishing(Look)))
    case StopRequest(c) =>
      var v := w.workers[c];
      if v.phase.stop.Done() then Put(w, c, v.(phase := AfterStop(v.phase)))
      else
        var (d, pc) := StopStep(w.daemon, v.phase.stop, c);
        Put(w, c, v.(phase := if v.phase.Aborting? then Aborting(pc) else Finishing(pc))).(daemon := d)
    case ReadThreadBeat(c) => Put(w, c, w.workers[c].(threadBeat := Some(w.clock)))
    case ApplyThreadBeat(c) =>
      Put(Transact(w, Heartbeat(c, w.workers[c].threadBeat.value, w.lease)), c, w.workers[c].(threadBeat := None))
    case ReadLoopBeat(c) => Put(w, c, w.workers[c].(loopBeat := Some(w.clock)))
    case ApplyLoopBeat(c) =>
      Put(Transact(w, Heartbeat(c, w.workers[c].loopBeat.value, w.lease)), c, w.workers[c].(loopBeat := None))
    case CommitTerminal(c, o, res, pub, conn) => Transact(w, Commit(c, o, res, pub, conn, w.clock))
    case WorkerExits(r) => w.(daemon := WorkerDaemon.SetRunning(w.daemon, w.daemon.box[r].id, false))
    case Observe(k, c, now) => w.(cleaners := w.cleaners[k := Cleaner(c, now, Look)])
    case CleanRequest(k) =>
      var v := w.cleaners[k];
      var (d, pc) := StopStep(w.daemon, v.stop, v.claim);
      w.(daemon := d, cleaners := w.cleaners[k := v.(stop := pc)])
    case RecoverClaim(k) => Transact(w, Recover(w.cleaners[k].claim, w.cleaners[k].now))
  }

  ghost function Step(w: World, a: Action): World {
    if Enabled(w, a) then StepEnabled(w, a) else w
  }

  ghost function Run(w: World, actions: seq<Action>): World
    decreases |actions|
  {
    if actions == [] then w else Run(Step(w, actions[0]), actions[1..])
  }

  ghost predicate Initial(w: World) {
    && w.db == Db(map[], map[]) && w.daemon == Daemon(map[], []) && w.workers == map[] && w.cleaners == map[]
    && w.lease > 0 && w.budget.Accepted()
  }

  // ---------------------------------------------------------------- nobody is held back

  /** What the theorems quantify over leaves nobody's hands tied: time passes, users submit and cancel, and
      containers exit whenever they like. */
  lemma OthersMayAct(w: World, elapsed: nat, r: RunId, row: Row)
    ensures Enabled(w, Tick(elapsed)) && Enabled(w, Transaction(Submit(r, row)))
    ensures Enabled(w, Transaction(Op.RequestCancel(r)))
    ensures r in w.daemon.box ==> Enabled(w, WorkerExits(r))
  {
  }

  /** A starting worker may give up and a live one finish at any moment; stopping goes on, and the outcome of
      a stopped one is anything. */
  lemma WorkersMayEnd(w: World, c: Claim, o: Outcome, result: Option<int>, connected: bool)
    requires c in w.workers
    ensures w.workers[c].phase in {Phase.Claimed, Creating, Created, Cleared} ==> Enabled(w, Abort(c))
    ensures w.workers[c].phase == Live ==> Enabled(w, Finish(c))
    ensures w.workers[c].phase.Aborting? || w.workers[c].phase.Finishing? ==> Enabled(w, StopRequest(c))
    ensures w.workers[c].phase == Committing ==> Enabled(w, CommitTerminal(c, o, result, result, connected))
  {
  }

  /** A heartbeat is read at any time and lands at any later one. */
  lemma BeatsComeAnyTime(w: World, c: Claim)
    requires c in w.workers
    ensures w.workers[c].threadBeat.None? ==> Enabled(w, ReadThreadBeat(c))
    ensures w.workers[c].threadBeat.Some? ==> Enabled(w, ApplyThreadBeat(c))
    ensures w.workers[c].phase == Live && w.workers[c].loopBeat.None? ==> Enabled(w, ReadLoopBeat(c))
    ensures w.workers[c].loopBeat.Some? ==> Enabled(w, ApplyLoopBeat(c))
  {
  }

  /** A worker whose run is reserved under its claim, with an open lease and no cancel request, goes on. */
  lemma HoldersGoOn(w: World, c: Claim)
    requires c in w.workers && c.runId in w.db.rows
    requires w.db.rows[c.runId].status in {Starting, Running} && !w.db.rows[c.runId].cancelRequested
    requires w.db.rows[c.runId].token == Some(c.token) && w.db.rows[c.runId].fence == c.fence
    requires w.db.rows[c.runId].leaseUntil > w.clock
    ensures w.workers[c].phase == Phase.Claimed ==> Enabled(w, PassBefore(c))
    ensures w.workers[c].phase == Creating && c.runId !in w.daemon.box ==> Enabled(w, CreateContainer(c))
    ensures w.workers[c].phase == Created ==> Enabled(w, PassAfter(c))
    ensures w.workers[c].phase == Cleared && w.workers[c].made.Some? ==> Enabled(w, StartContainer(c))
  {
  }

  /** A recovery begins for any claim whose lease was over at any earlier reading of the clock. */
  lemma RecoveriesBegin(w: World, k: CleanerId, c: Claim, now: int)
    requires k !in w.cleaners && now <= w.clock && c.runId in w.db.rows
    requires w.db.rows[c.runId].status in {Starting, Running}
    requires w.db.rows[c.runId].token == Some(c.token) && w.db.rows[c.runId].fence == c.fence
    requires w.db.rows[c.runId].leaseUntil <= now
    ensures Enabled(w, Observe(k, c, now))
  {
  }

  lemma RecoveriesGoOn(w: World, k: CleanerId)
    requires k in w.cleaners
    ensures w.cleaners[k].stop.Look? || w.cleaners[k].stop.HasId() ==> Enabled(w, CleanRequest(k))
    ensures w.cleaners[k].stop == Clean ==> Enabled(w, RecoverClaim(k))
  {
  }

  // ---------------------------------------------------------------- the invariant

  ghost predicate RowOk(w: World, r: RunId) {
    r in w.db.rows && var row := w.db.rows[r];
    row.status.Active() ==> row.token.Some? && Claim(r, row.token.value, row.fence) in w.workers
  }

  /** A stop sequence that has picked an id has picked the claim's own container. */
  predicate StopOk(v: Worker, stop: StopPc) {
    stop.HasId() ==> v.made == Some(stop.id)
  }

  ghost predicate MadeOk(w: World, c: Claim, v: Worker) {
    && c.runId in w.db.rows && c.fence <= w.db.rows[c.runId].fence
    && (v.made.Some? ==> v.made.value < |w.daemon.log| && w.daemon.log[v.made.value] == c)
    && (InBox(w.daemon, c) ==> v.made == Some(w.daemon.box[c.runId].id))
    && (v.phase.Claimed? || v.phase.Creating? ==> v.made.None?)
    && (v.phase.MayRun() || v.phase.Created? ==> v.made.Some?)
  }

  ghost predicate PhaseOk(w: World, c: Claim, v: Worker) {
    && (v.phase.Stopping() ==> StopOk(v, v.phase.stop))
    && (v.phase.Stopping() && (v.phase.stop.Clean? || v.phase.stop.Refused?) ==> !InBox(w.daemon, c))
    && (v.phase.Aborting? ==> !v.phase.stop.Raised?)
    && (v.phase.Committing? ==> !InBox(w.daemon, c))
    && (InBox(w.daemon, c) && w.daemon.box[c.runId].running ==> v.phase.Live? || v.phase.Finishing?)
    && (InBox(w.daemon, c) && v.phase.MayRun() ==> Held(w.db, c))
  }

  /** Before clearance only the claim and the worker's own thread have set the lease, so it does
      not reach past a beat that is still pending. */
  ghost predicate BeatOk(w: World, c: Claim, v: Worker) {
    && (v.threadBeat.Some? ==> v.threadBeat.value <= w.clock)
    && (v.loopBeat.Some? ==> v.loopBeat.value <= w.clock)
    && (v.phase.BeforeClearance() ==> v.loopBeat.None?)
    && (v.phase.BeforeClearance() && Held(w.db, c) ==>
          var until := w.db.rows[c.runId].leaseUntil;
          until <= w.clock + w.lease && (v.threadBeat.Some? ==> until <= v.threadBeat.value + w.lease))
  }

  /** A recovery that found the name clear can never recover a claim whose container may still run:
      the lease, and every lease a pending beat could set, is later than the recovery's own time. */
  ghost predicate CleanerOk(w: World, k: Cleaner) {
    && k.claim in w.workers && k.now <= w.clock
    && StopOk(w.workers[k.claim], k.stop)
    && (k.stop.Clean? && InBox(w.daemon, k.claim) && w.workers[k.claim].phase.MayRun() && Held(w.db, k.claim) ==>
          var v := w.workers[k.claim];
          && k.now < w.db.rows[k.claim.runId].leaseUntil
          && (v.threadBeat.Some? ==> k.now < v.threadBeat.value + w.lease)
          && (v.loopBeat.Some? ==> k.now < v.loopBeat.value + w.lease))
  }

  ghost predicate BoxOk(w: World, r: RunId) {
    r in w.daemon.box && var b := w.daemon.box[r];
    && b.claim in w.workers
    && r in w.db.rows && b.limits == w.db.rows[r].limits
  }

  ghost predicate WorkerOk(w: World, c: Claim) {
    c in w.workers && MadeOk(w, c, w.workers[c]) && PhaseOk(w, c, w.workers[c]) && BeatOk(w, c, w.workers[c])
  }

  ghost predicate RowsOk(w: World) {
    forall r :: r in w.db.rows ==> RowOk(w, r)
  }

  ghost predicate WorkersOk(w: World) {
    forall c :: c in w.workers ==> WorkerOk(w, c)
  }

  ghost predicate BoxesOk(w: World) {
    forall r :: r in w.daemon.box ==> BoxOk(w, r)
  }

  ghost predicate CleanersOk(w: World) {
    forall k :: k in w.cleaners ==> CleanerOk(w, w.cleaners[k])
  }

  ghost predicate Inv(w: World) {
    && w.lease > 0 && w.guards.Enough()
    && WithinBudget(w.db, w.budget)
    && WellFormed(w.daemon)
    && RowsOk(w) && WorkersOk(w) && BoxesOk(w) && CleanersOk(w)
  }

  // ---------------------------------------------------------------- frames

  lemma RowsFrame(w: World, after: World)
    requires RowsOk(w) && after.db == w.db && w.workers.Keys <= after.workers.Keys
    ensures RowsOk(after)
  {
    forall r | r in after.db.rows ensures RowOk(after, r) { assert RowOk(w, r); }
  }

  lemma BoxesFrame(w: World, after: World)
    requires BoxesOk(w) && w.workers.Keys <= after.workers.Keys
    requires forall r :: r in w.db.rows ==> r in after.db.rows && after.db.rows[r].limits == w.db.rows[r].limits
    requires forall r :: r in after.daemon.box ==>
      && r in w.daemon.box && after.daemon.box[r].claim == w.daemon.box[r].claim
      && after.daemon.box[r].limits == w.daemon.box[r].limits
    ensures BoxesOk(after)
  {
    forall r | r in after.daemon.box ensures BoxOk(after, r) { assert BoxOk(w, r); }
  }

  /** Changing one worker only concerns that worker and the recoveries of its claim. */
  lemma PutKeeps(w: World, c: Claim, v: Worker)
    requires Inv(w) && c in w.workers
    requires MadeOk(w, c, v) && PhaseOk(w, c, v) && BeatOk(w, c, v)
    requires forall k :: k in w.cleaners && w.cleaners[k].claim == c ==> CleanerOk(Put(w, c, v), w.cleaners[k])
    ensures Inv(Put(w, c, v))
  {
    var after := Put(w, c, v);
    forall d | d in after.workers ensures WorkerOk(after, d) {
      if d != c { assert WorkerOk(w, d); }
    }
    forall k | k in after.cleaners ensures CleanerOk(after, after.cleaners[k]) {
      if w.cleaners[k].claim != c { assert CleanerOk(w, w.cleaners[k]); }
    }
    RowsFrame(w, after);
    BoxesFrame(w, after);
  }

  /** A change that gives recoveries of the claim nothing new to consider. */
  predicate Quieter(u: Worker, v: Worker) {
    && v.made == u.made && (v.phase.MayRun() ==> u.phase.MayRun())
    && (v.threadBeat.Some? ==> v.threadBeat == u.threadBeat)
    && (v.loopBeat.Some? ==> v.loopBeat == u.loopBeat)
  }

  lemma PutQuieter(w: World, c: Claim, v: Worker)
    requires Inv(w) && c in w.workers && Quieter(w.workers[c], v)
    requires MadeOk(w, c, v) && PhaseOk(w, c, v) && BeatOk(w, c, v)
    ensures Inv(Put(w, c, v))
  {
    forall k | k in w.cleaners && w.cleaners[k].claim == c ensures CleanerOk(Put(w, c, v), w.cleaners[k]) {
      assert CleanerOk(w, w.cleaners[k]);
    }
    PutKeeps(w, c, v);
  }

  /** No transaction but a claim makes a row held, and none but a heartbeat moves its lease. */
  lemma HeldBefore(db: Db, budget: GroupBudget, op: Op, c: Claim)
    requires !op.TakeClaim? && !op.Heartbeat? && c.runId in db.rows && Held(Apply(db, budget, op), c)
    ensures Held(db, c) && Apply(db, budget, op).rows[c.runId].leaseUntil == db.rows[c.runId].leaseUntil
  {
  }

  lemma WorkerAfter(w: World, db: Db, c: Claim)
    requires c in w.workers && WorkerOk(w, c)
    requires c.runId in db.rows && w.db.rows[c.runId].fence <= db.rows[c.runId].fence
    requires Held(db, c) ==> Held(w.db, c) && db.rows[c.runId].leaseUntil == w.db.rows[c.runId].leaseUntil
    requires InBox(w.daemon, c) && w.workers[c].phase.MayRun() ==> Held(db, c)
    ensures WorkerOk(w.(db := db), c)
  {
  }

  /** A transaction that opens no reservation and moves no lease. */
  lemma TransactKeeps(w: World, op: Op)
    requires Inv(w) && !op.TakeClaim? && !op.Heartbeat?
    requires forall c :: c in w.workers && InBox(w.daemon, c) && w.workers[c].phase.MayRun() ==>
      Held(Apply(w.db, w.budget, op), c)
    ensures Inv(Transact(w, op))
  {
    var after := Transact(w, op);
    ApplyKeepsBudget(w.db, w.budget, op);
    forall r | r in w.db.rows ensures r in after.db.rows && Later(w.db.rows[r], after.db.rows[r]) {
      ApplyKeepsRows(w.db, w.budget, op, r);
    }
    forall r | r in after.db.rows ensures RowOk(after, r) { TransactRow(w, op, r); }
    forall c | c in after.workers ensures WorkerOk(after, c) {
      assert WorkerOk(w, c);
      if Held(after.db, c) { HeldBefore(w.db, w.budget, op, c); }
      WorkerAfter(w, after.db, c);
    }
    forall k | k in after.cleaners ensures CleanerOk(after, after.cleaners[k]) {
      var c := w.cleaners[k].claim;
      assert CleanerOk(w, w.cleaners[k]) && WorkerOk(w, c);
      if Held(after.db, c) { HeldBefore(w.db, w.budget, op, c); }
    }
    BoxesFrame(w, after);
  }

  lemma TransactRow(w: World, op: Op, r: RunId)
    requires RowsOk(w) && !op.TakeClaim? && !op.Heartbeat? && r in Transact(w, op).db.rows
    ensures RowOk(Transact(w, op), r)
  {
    if r in w.db.rows { assert RowOk(w, r); }
  }

  /** A worker that may run keeps its row through every transaction except its own commit and a
      recovery of its claim. */
  lemma LooseKeepsHeld(w: World, op: Op, c: Claim)
    requires Loose(op, w.clock) && Held(w.db, c)
    ensures Held(Apply(w.db, w.budget, op), c)
  {
  }

  lemma KeepTransaction(w: World, op: Op)
    requires Inv(w) && Loose(op, w.clock)
    ensures Inv(Transact(w, op))
  {
    forall c | c in w.workers && InBox(w.daemon, c) && w.workers[c].phase.MayRun()
      ensures Held(Apply(w.db, w.budget, op), c)
    {
      assert WorkerOk(w, c);
      LooseKeepsHeld(w, op, c);
    }
    TransactKeeps(w, op);
  }

  /** A terminal commit or a recovery only ever releases the claim it names. */
  lemma OthersStayHeld(db: Db, budget: GroupBudget, op: Op, c: Claim)
    requires (op.Commit? || op.Recover?) && Held(db, c)
    requires op.claim != c || !Accepts(db, budget, op)
    ensures Held(Apply(db, budget, op), c)
  {
  }

  lemma KeepCommit(w: World, a: Action)
    requires Inv(w) && Enabled(w, a) && a.CommitTerminal?
    ensures Inv(StepEnabled(w, a))
  {
    var op := Commit(a.claim, a.outcome, a.result, a.published, a.connected, w.clock);
    forall c | c in w.workers && InBox(w.daemon, c) && w.workers[c].phase.MayRun()
      ensures Held(Apply(w.db, w.budget, op), c)
    {
      assert WorkerOk(w, c);
      OthersStayHeld(w.db, w.budget, op, c);
    }
    TransactKeeps(w, op);
  }

  /** Recovery is the delicate step: the lease the check after create saw outlives the recovery's time. */
  lemma KeepRecover(w: World, a: Action)
    requires Inv(w) && Enabled(w, a) && a.RecoverClaim?
    ensures Inv(StepEnabled(w, a))
  {
    var k := w.cleaners[a.cleaner];
    var op := Recover(k.claim, k.now);
    assert CleanerOk(w, k);
    forall c | c in w.workers && InBox(w.daemon, c) && w.workers[c].phase.MayRun()
      ensures Held(Apply(w.db, w.budget, op), c)
    {
      assert WorkerOk(w, c);
      OthersStayHeld(w.db, w.budget, op, c);
    }
    TransactKeeps(w, op);
  }

  /** Moving a worker between phases without touching either system. */
  lemma KeepPhase(w: World, c: Claim, phase: Phase)
    requires Inv(w) && c in w.workers
    requires var from := w.workers[c].phase;
      || (from.Claimed? && phase.Creating?)
      || ((from.BeforeClearance() || from.Cleared?) && phase == Aborting(Look))
      || (from.Live? && phase == Finishing(Look))
    ensures Inv(Put(w, c, w.workers[c].(phase := phase)))
  {
    assert WorkerOk(w, c);
    PutQuieter(w, c, w.workers[c].(phase := phase));
  }

  /** Passing the check after create: every recovery that already found the name clear read its
      time before now, and the lease seen here, like any beat still pending, is later than now. */
  lemma KeepClearance(w: World, c: Claim)
    requires Inv(w) && Enabled(w, PassAfter(c))
    ensures Inv(StepEnabled(w, PassAfter(c)))
  {
    assert WorkerOk(w, c);
    var v := w.workers[c].(phase := Cleared);
    forall k | k in w.cleaners && w.cleaners[k].claim == c ensures CleanerOk(Put(w, c, v), w.cleaners[k]) {
      assert CleanerOk(w, w.cleaners[k]);
    }
    PutKeeps(w, c, v);
  }

  lemma KeepRead(w: World, a: Action)
    requires Inv(w) && Enabled(w, a) && (a.ReadThreadBeat? || a.ReadLoopBeat?)
    ensures Inv(StepEnabled(w, a))
  {
    var u := w.workers[a.claim];
    var v := if a.ReadThreadBeat? then u.(threadBeat := Some(w.clock)) else u.(loopBeat := Some(w.clock));
    assert WorkerOk(w, a.claim);
    forall k | k in w.cleaners && w.cleaners[k].claim == a.claim ensures CleanerOk(Put(w, a.claim, v), w.cleaners[k]) {
      ReadCleaner(w, a.claim, v, k);
    }
    PutKeeps(w, a.claim, v);
  }

  /** A beat read now can only set a lease later than any recovery's own time. */
  lemma ReadCleaner(w: World, c: Claim, v: Worker, k: CleanerId)
    requires Inv(w) && c in w.workers && k in w.cleaners && w.cleaners[k].claim == c
    requires v == w.workers[c].(threadBeat := Some(w.clock)) || v == w.workers[c].(loopBeat := Some(w.clock))
    ensures CleanerOk(Put(w, c, v), w.cleaners[k])
  {
    assert CleanerOk(w, w.cleaners[k]);
  }

  lemma KeepTick(w: World, elapsed: nat)
    requires Inv(w)
    ensures Inv(w.(clock := w.clock + elapsed))
  {
  }

  /** Containers only stop or disappear. */
  ghost predicate Shrinks(a: Daemon, b: Daemon) {
    && b.log == a.log
    && (forall r :: r in b.box ==>
          && r in a.box && b.box[r].(running := true) == a.box[r].(running := true)
          && (b.box[r].running ==> a.box[r].running))
  }

  lemma ShrinkKeeps(w: World, d: Daemon)
    requires Inv(w) && Shrinks(w.daemon, d)
    ensures Inv(w.(daemon := d))
  {
    var after := w.(daemon := d);
    forall c | c in after.workers ensures WorkerOk(after, c) { ShrinkWorker(w, d, c); }
    forall k | k in after.cleaners ensures CleanerOk(after, after.cleaners[k]) { ShrinkCleaner(w, d, w.cleaners[k]); }
    BoxesFrame(w, after);
    RowsFrame(w, after);
  }

  lemma ShrinkCleaner(w: World, d: Daemon, k: Cleaner)
    requires CleanersOk(w) && CleanerOk(w, k) && Shrinks(w.daemon, d)
    ensures CleanerOk(w.(daemon := d), k)
  {
    assert InBox(d, k.claim) ==> InBox(w.daemon, k.claim);
  }

  lemma ShrinkWorker(w: World, d: Daemon, c: Claim)
    requires c in w.workers && WorkerOk(w, c) && Shrinks(w.daemon, d)
    ensures WorkerOk(w.(daemon := d), c)
  {
    assert InBox(d, c) ==> InBox(w.daemon, c);
  }

  /** What one request of a stop sequence does to the claim's own container, and to nothing else. */
  lemma StopStepFacts(d: Daemon, pc: StopPc, c: Claim)
    requires WellFormed(d) && !pc.Done()
    requires pc.HasId() ==> pc.id < |d.log| && d.log[pc.id] == c
    requires InBox(d, c) && pc.HasId() ==> d.box[c.runId].id == pc.id
    ensures var (e, next) := StopStep(d, pc, c);
      && Shrinks(d, e)
      && (next.HasId() ==> (InBox(d, c) && d.box[c.runId].id == next.id) || (pc.HasId() && next.id == pc.id))
      && (next.Clean? || next.Refused? ==> !InBox(e, c))
      && (next.Raised? ==> InBox(d, c) && d.box[c.runId].running)
  {
    if pc.HasId() && RunningId(d, pc.id) {
      var r :| r in d.box && d.box[r].id == pc.id && d.box[r].running;
      assert d.box[r].claim == c && r == c.runId;
    }
  }

  lemma KeepExit(w: World, r: RunId)
    requires Inv(w) && r in w.daemon.box
    ensures Inv(w.(daemon := WorkerDaemon.SetRunning(w.daemon, w.daemon.box[r].id, false)))
  {
    ShrinkKeeps(w, WorkerDaemon.SetRunning(w.daemon, w.daemon.box[r].id, false));
  }

  lemma KeepObserve(w: World, a: Action)
    requires Inv(w) && Enabled(w, a) && a.Observe?
    ensures Inv(StepEnabled(w, a))
  {
    var after := StepEnabled(w, a);
    assert RowOk(w, a.claim.runId);
    forall k | k in after.cleaners ensures CleanerOk(after, after.cleaners[k]) {
      if k != a.cleaner { assert CleanerOk(w, w.cleaners[k]); }
    }
  }

  lemma KeepStopDone(w: World, c: Claim)
    requires Inv(w) && Enabled(w, StopRequest(c)) && w.workers[c].phase.stop.Done()
    ensures Inv(StepEnabled(w, StopRequest(c)))
  {
    var v := w.workers[c];
    assert WorkerOk(w, c);
    PutQuieter(w, c, v.(phase := AfterStop(v.phase)));
  }

  function NextStop(v: Worker, pc: StopPc): Worker
    requires v.phase.Stopping()
  {
    v.(phase := if v.phase.Aborting? then Aborting(pc) else Finishing(pc))
  }

  lemma StopWorkerOk(w: World, c: Claim, v: Worker, d: Daemon, pc: StopPc)
    requires c in w.workers && WorkerOk(w, c) && v == w.workers[c] && v.phase.Stopping() && w.daemon == d
    requires StopOk(v, pc)
    requires pc.Clean? || pc.Refused? ==> !InBox(d, c)
    requires v.phase.Aborting? ==> !pc.Raised?
    ensures MadeOk(w, c, NextStop(v, pc)) && PhaseOk(w, c, NextStop(v, pc)) && BeatOk(w, c, NextStop(v, pc))
  {
  }

  lemma KeepStopRequest(w: World, c: Claim)
    requires Inv(w) && Enabled(w, StopRequest(c)) && !w.workers[c].phase.stop.Done()
    ensures Inv(StepEnabled(w, StopRequest(c)))
  {
    var v := w.workers[c];
    assert WorkerOk(w, c);
    StopStepFacts(w.daemon, v.phase.stop, c);
    var (d, pc) := StopStep(w.daemon, v.phase.stop, c);
    ShrinkKeeps(w, d);
    var mid := w.(daemon := d);
    assert WorkerOk(mid, c) && v.phase.Stopping();
    StopWorkerOk(mid, c, v, d, pc);
    PutQuieter(mid, c, NextStop(v, pc));
  }

  lemma KeepClean(w: World, k: CleanerId)
    requires Inv(w) && Enabled(w, CleanRequest(k))
    ensures Inv(StepEnabled(w, CleanRequest(k)))
  {
    var after := StepEnabled(w, CleanRequest(k));
    var v := w.cleaners[k];
    assert CleanerOk(w, v) && WorkerOk(w, v.claim);
    StopStepFacts(w.daemon, v.stop, v.claim);
    var (d, pc) := StopStep(w.daemon, v.stop, v.claim);
    ShrinkKeeps(w, d);
    var mid := w.(daemon := d);
    forall c | c in after.workers ensures WorkerOk(after, c) { assert WorkerOk(mid, c); }
    forall q | q in after.cleaners ensures CleanerOk(after, after.cleaners[q]) {
      if q != k { assert CleanerOk(mid, w.cleaners[q]); }
    }
    BoxesFrame(mid, after);
    RowsFrame(mid, after);
  }

  /** Starting the container of a cleared worker. */
  ghost function Started(w: World, c: Claim): World
    requires c in w.workers && w.workers[c].made.Some?
  {
    var d := WorkerDaemon.SetRunning(w.daemon, w.workers[c].made.value, true);
    Put(w, c, w.workers[c].(phase := Live)).(daemon := d)
  }

  lemma StartedWorkerOk(w: World, c: Claim, d: Claim)
    requires c in w.workers && d in w.workers && WorkerOk(w, c) && WorkerOk(w, d) && WellFormed(w.daemon)
    requires w.workers[c].phase.Cleared? && InBox(w.daemon, c)
    ensures WorkerOk(Started(w, c), d) && InBox(Started(w, c).daemon, d) == InBox(w.daemon, d)
  {
    if InBox(w.daemon, d) && d != c { assert w.daemon.box[d.runId].id != w.workers[c].made.value; }
  }

  lemma StartedDaemon(w: World, c: Claim)
    requires WellFormed(w.daemon) && BoxesOk(w) && c in w.workers && w.workers[c].made.Some?
    ensures WellFormed(Started(w, c).daemon) && BoxesOk(Started(w, c))
  {
    BoxesFrame(w, Started(w, c));
  }

  lemma StartedCleaners(w: World, c: Claim)
    requires Inv(w) && c in w.workers && w.workers[c].phase.Cleared? && InBox(w.daemon, c) && w.workers[c].made.Some?
    ensures CleanersOk(Started(w, c))
  {
    forall k | k in w.cleaners ensures CleanerOk(Started(w, c), w.cleaners[k]) {
      assert CleanerOk(w, w.cleaners[k]);
      StartedWorkerOk(w, c, w.cleaners[k].claim);
    }
  }

  lemma KeepStarted(w: World, c: Claim)
    requires Inv(w) && c in w.workers && w.workers[c].phase.Cleared? && InBox(w.daemon, c) && w.workers[c].made.Some?
    ensures Inv(Started(w, c))
  {
    var after := Started(w, c);
    forall d | d in after.workers ensures WorkerOk(after, d) { StartedWorkerOk(w, c, d); }
    StartedCleaners(w, c);
    StartedDaemon(w, c);
    RowsFrame(w, after);
  }

  lemma KeepStart(w: World, c: Claim)
    requires Inv(w) && Enabled(w, StartContainer(c))
    ensures Inv(StepEnabled(w, StartContainer(c)))
  {
    var v := w.workers[c];
    assert WorkerOk(w, c);
    if r :| r in w.daemon.box && w.daemon.box[r].id == v.made.value {
      assert w.daemon.box[r].claim == c && r == c.runId;
      KeepStarted(w, c);
    } else {
      KeepPhase(w, c, Aborting(Look));
    }
  }

  lemma CreateWorkerOk(w: World, c: Claim, d: Claim)
    requires Inv(w) && Enabled(w, CreateContainer(c)) && d in w.workers
    ensures WorkerOk(StepEnabled(w, CreateContainer(c)), d)
  {
    assert WorkerOk(w, d);
    assert d != c ==> InBox(StepEnabled(w, CreateContainer(c)).daemon, d) == InBox(w.daemon, d);
  }

  lemma CreateCleanerOk(w: World, c: Claim, k: Cleaner)
    requires Inv(w) && Enabled(w, CreateContainer(c)) && CleanerOk(w, k)
    ensures CleanerOk(StepEnabled(w, CreateContainer(c)), k)
  {
    assert WorkerOk(w, k.claim);
  }

  lemma CreateBoxesOk(w: World, c: Claim)
    requires Inv(w) && Enabled(w, CreateContainer(c))
    ensures BoxesOk(StepEnabled(w, CreateContainer(c)))
  {
    var after := StepEnabled(w, CreateContainer(c));
    forall r | r in after.daemon.box ensures BoxOk(after, r) {
      if r in w.daemon.box { assert BoxOk(w, r); }
    }
  }

  lemma KeepCreate(w: World, c: Claim)
    requires Inv(w) && Enabled(w, CreateContainer(c))
    ensures Inv(StepEnabled(w, CreateContainer(c)))
  {
    var after := StepEnabled(w, CreateContainer(c));
    forall d | d in after.workers ensures WorkerOk(after, d) { CreateWorkerOk(w, c, d); }
    forall k | k in after.cleaners ensures CleanerOk(after, after.cleaners[k]) { CreateCleanerOk(w, c, w.cleaners[k]); }
    CreateBoxesOk(w, c);
    RowsFrame(w, after);
  }

  lemma TakeWorkerOk(w: World, a: Action, d: Claim)
    requires Inv(w) && Enabled(w, a) && a.Take? && d in w.workers
    ensures d in StepEnabled(w, a).workers && d != Claim(a.runId, a.token, w.db.rows[a.runId].fence + 1)
    ensures WorkerOk(StepEnabled(w, a), d)
  {
    assert WorkerOk(w, d);
  }

  lemma TakeNewWorker(w: World, a: Action, c: Claim)
    requires Inv(w) && Enabled(w, a) && a.Take? && c == Claim(a.runId, a.token, w.db.rows[a.runId].fence + 1)
    ensures WorkerOk(StepEnabled(w, a), c)
  {
    if c in w.workers { TakeWorkerOk(w, a, c); }
    if c.runId in w.daemon.box { assert BoxOk(w, c.runId); }
    assert !InBox(w.daemon, c);
  }

  lemma TakeCleanerOk(w: World, a: Action, k: Cleaner)
    requires Inv(w) && Enabled(w, a) && a.Take? && CleanerOk(w, k)
    ensures CleanerOk(StepEnabled(w, a), k)
  {
    assert WorkerOk(w, k.claim);
    TakeWorkerOk(w, a, k.claim);
  }

  lemma KeepTake(w: World, a: Action)
    requires Inv(w) && Enabled(w, a) && a.Take?
    ensures Inv(StepEnabled(w, a))
  {
    var op := TakeClaim(a.runId, a.token, a.now, w.lease);
    var after := StepEnabled(w, a);
    var c := Claim(a.runId, a.token, w.db.rows[a.runId].fence + 1);
    ApplyKeepsBudget(w.db, w.budget, op);
    forall r | r in after.db.rows ensures RowOk(after, r) { assert RowOk(w, r); }
    BoxesFrame(w, after);
    TakeNewWorker(w, a, c);
    forall d | d in after.workers ensures WorkerOk(after, d) {
      if d != c { TakeWorkerOk(w, a, d); }
    }
    forall k | k in after.cleaners ensures CleanerOk(after, after.cleaners[k]) {
      TakeCleanerOk(w, a, w.cleaners[k]);
    }
  }

  ghost predicate Drops(u: Worker, s: int, v: Worker) {
    (u.threadBeat == Some(s) && v == u.(threadBeat := None)) || (u.loopBeat == Some(s) && v == u.(loopBeat := None))
  }

  lemma BeatWorkerOk(w: World, c: Claim, s: int, v: Worker, d: Claim)
    requires Inv(w) && c in w.workers && d in w.workers && Drops(w.workers[c], s, v)
    requires ValidIn(w.db, c, s)
    ensures WorkerOk(Put(Transact(w, Heartbeat(c, s, w.lease)), c, v), d)
  {
    assert WorkerOk(w, d) && WorkerOk(w, c);
  }

  lemma BeatCleanerOk(w: World, c: Claim, s: int, v: Worker, k: CleanerId)
    requires Inv(w) && c in w.workers && k in w.cleaners && Drops(w.workers[c], s, v)
    requires ValidIn(w.db, c, s)
    ensures CleanerOk(Put(Transact(w, Heartbeat(c, s, w.lease)), c, v), w.cleaners[k])
  {
    assert CleanerOk(w, w.cleaners[k]);
  }

  lemma BeatRefused(w: World, c: Claim, s: int, v: Worker)
    requires Inv(w) && c in w.workers && Drops(w.workers[c], s, v)
    ensures Inv(Put(w, c, v))
  {
    assert WorkerOk(w, c);
    PutQuieter(w, c, v);
  }

  lemma BeatRowsOk(w: World, c: Claim, s: int, v: Worker)
    requires Inv(w) && c in w.workers && ValidIn(w.db, c, s)
    ensures var after := Put(Transact(w, Heartbeat(c, s, w.lease)), c, v);
      RowsOk(after) && BoxesOk(after) && WithinBudget(after.db, after.budget)
  {
    var op := Heartbeat(c, s, w.lease);
    var after := Put(Transact(w, op), c, v);
    ApplyKeepsBudget(w.db, w.budget, op);
    forall r | r in after.db.rows ensures RowOk(after, r) { assert RowOk(w, r); }
    BoxesFrame(w, after);
  }

  lemma BeatLands(w: World, c: Claim, s: int, v: Worker)
    requires Inv(w) && c in w.workers && Drops(w.workers[c], s, v) && ValidIn(w.db, c, s)
    ensures Inv(Put(Transact(w, Heartbeat(c, s, w.lease)), c, v))
  {
    var after := Put(Transact(w, Heartbeat(c, s, w.lease)), c, v);
    BeatRowsOk(w, c, s, v);
    forall d | d in after.workers ensures WorkerOk(after, d) { BeatWorkerOk(w, c, s, v, d); }
    forall k | k in after.cleaners ensures CleanerOk(after, after.cleaners[k]) { BeatCleanerOk(w, c, s, v, k); }
  }

  /** A beat with reading `s`: refused, or the lease becomes `s` plus the lease length. */
  lemma BeatKeeps(w: World, c: Claim, s: int, v: Worker)
    requires Inv(w) && c in w.workers && Drops(w.workers[c], s, v)
    ensures Inv(Put(Transact(w, Heartbeat(c, s, w.lease)), c, v))
  {
    if ValidIn(w.db, c, s) { BeatLands(w, c, s, v); } else { BeatRefused(w, c, s, v); }
  }

  lemma KeepBeat(w: World, a: Action)
    requires Inv(w) && Enabled(w, a) && (a.ApplyThreadBeat? || a.ApplyLoopBeat?)
    ensures Inv(StepEnabled(w, a))
  {
    var u := w.workers[a.claim];
    if a.ApplyThreadBeat? {
      BeatKeeps(w, a.claim, u.threadBeat.value, u.(threadBeat := None));
    } else {
      BeatKeeps(w, a.claim, u.loopBeat.value, u.(loopBeat := None));
    }
  }

  lemma KeepMove(w: World, a: Action)
    requires Inv(w) && Enabled(w, a) && (a.PassBefore? || a.Abort? || a.Finish?)
    ensures Inv(StepEnabled(w, a))
  {
    KeepPhase(w, a.claim, if a.PassBefore? then Creating else if a.Abort? then Aborting(Look) else Finishing(Look));
  }

  lemma KeepElse(w: World, a: Action)
    requires Inv(w) && Enabled(w, a) && (a.Tick? || a.WorkerExits? || a.Transaction?)
    ensures Inv(StepEnabled(w, a))
  {
    if a.Tick? { KeepTick(w, a.elapsed); }
    else if a.WorkerExits? { KeepExit(w, a.runId); }
    else { KeepTransaction(w, a.op); }
  }

  lemma KeepByWorker(w: World, a: Action)
    requires Inv(w) && Enabled(w, a)
    requires a.PassBefore? || a.PassAfter? || a.Abort? || a.Finish?
      || a.ReadThreadBeat? || a.ReadLoopBeat? || a.ApplyThreadBeat? || a.ApplyLoopBeat?
    ensures Inv(StepEnabled(w, a))
  {
    if a.PassAfter? { KeepClearance(w, a.claim); }
    else if a.PassBefore? || a.Abort? || a.Finish? { KeepMove(w, a); }
    else if a.ReadThreadBeat? || a.ReadLoopBeat? { KeepRead(w, a); }
    else { KeepBeat(w, a); }
  }

  lemma KeepByStart(w: World, a: Action)
    requires Inv(w) && Enabled(w, a) && (a.CreateContainer? || a.StartContainer?)
    ensures Inv(StepEnabled(w, a))
  {
    if a.CreateContainer? { KeepCreate(w, a.claim); } else { KeepStart(w, a.claim); }
  }

  lemma KeepByStop(w: World, a: Action)
    requires Inv(w) && Enabled(w, a) && (a.StopRequest? || a.CleanRequest?)
    ensures Inv(StepEnabled(w, a))
  {
    if a.CleanRequest? {
      KeepClean(w, a.cleaner);
    } else if w.workers[a.claim].phase.stop.Done() {
      KeepStopDone(w, a.claim);
    } else {
      KeepStopRequest(w, a.claim);
    }
  }

  lemma KeepByDatabase(w: World, a: Action)
    requires Inv(w) && Enabled(w, a)
    requires a.Take? || a.CommitTerminal? || a.Observe? || a.RecoverClaim?
    ensures Inv(StepEnabled(w, a))
  {
    match a
    case Take(_, _, _) => KeepTake(w, a);
    case CommitTerminal(_, _, _, _, _) => KeepCommit(w, a);
    case Observe(_, _, _) => KeepObserve(w, a);
    case RecoverClaim(_) => KeepRecover(w, a);
  }

  lemma EnabledStepKeepsInv(w: World, a: Action)
    requires Inv(w) && Enabled(w, a)
    ensures Inv(StepEnabled(w, a))
  {
    if a.Tick? || a.WorkerExits? || a.Transaction? { KeepElse(w, a); }
    else if a.Take? || a.CommitTerminal? || a.Observe? || a.RecoverClaim? { KeepByDatabase(w, a); }
    else if a.CreateContainer? || a.StartContainer? { KeepByStart(w, a); }
    else if a.StopRequest? || a.CleanRequest? { KeepByStop(w, a); }
    else { KeepByWorker(w, a); }
  }

  lemma StepKeepsInv(w: World, a: Action)
    requires Inv(w)
    ensures Inv(Step(w, a))
  {
    if Enabled(w, a) { EnabledStepKeepsInv(w, a); }
  }

  lemma StepKeepsBudget(w: World, a: Action)
    ensures Step(w, a).budget == w.budget
  {
  }

  lemma {:induction false} RunKeepsInv(w: World, actions: seq<Action>)
    requires Inv(w)
    ensures Inv(Run(w, actions)) && Run(w, actions).budget == w.budget
    decreases |actions|
  {
    if actions != [] {
      StepKeepsInv(w, actions[0]);
      StepKeepsBudget(w, actions[0]);
      RunKeepsInv(Step(w, actions[0]), actions[1..]);
    }
  }

  // ---------------------------------------------------------------- the theorems

  /** Every running container belongs to a run that is still reserved under the same token and fence. */
  ghost predicate Safe(w: World) {
    forall r :: r in w.daemon.box && w.daemon.box[r].running ==>
      w.daemon.box[r].claim.runId == r && Held(w.db, w.daemon.box[r].claim)
  }

  ghost function RunningIds(d: Daemon): set<RunId> {
    set r | r in d.box && d.box[r].running
  }

  ghost function ContainerLimits(d: Daemon): map<RunId, WorkerLimits> {
    map r | r in d.box :: d.box[r].limits
  }

  /** In every interleaving, from the empty system: the fencing theorem. */
  lemma RunningImpliesHeld(w: World, actions: seq<Action>)
    requires Initial(w) && w.guards.checkAfter && w.guards.stopFirst
    ensures Safe(Run(w, actions))
    ensures var end := Run(w, actions);
      forall r :: r in end.daemon.box && end.daemon.box[r].running ==>
        && r in end.db.rows && end.db.rows[r].status in {Starting, Running}
        && end.db.rows[r].token == Some(end.daemon.box[r].claim.token)
        && end.db.rows[r].fence == end.daemon.box[r].claim.fence
        && end.daemon.box[r].claim.runId == r
  {
    InitialHolds(w);
    RunKeepsInv(w, actions);
    var end := Run(w, actions);
    forall r | r in end.daemon.box && end.daemon.box[r].running ensures Held(end.db, end.daemon.box[r].claim) {
      assert BoxOk(end, r);
      assert WorkerOk(end, end.daemon.box[r].claim);
    }
  }

  /** In every interleaving, the limits of all running containers together fit the group budget,
      also those whose lease has expired. */
  lemma RunningLoadFits(w: World, actions: seq<Action>)
    requires Initial(w) && w.guards.checkAfter && w.guards.stopFirst
    ensures var end := Run(w, actions);
      end.budget == w.budget && w.budget.Allows(Load(ContainerLimits(end.daemon), RunningIds(end.daemon)))
  {
    InitialHolds(w);
    RunKeepsInv(w, actions);
    RunningImpliesHeld(w, actions);
    var end := Run(w, actions);
    var live := RunningIds(end.daemon);
    forall r | r in live ensures r in ActiveIds(end.db.rows) && end.daemon.box[r].limits == end.db.rows[r].limits {
      assert BoxOk(end, r);
    }
    LoadFrame(ContainerLimits(end.daemon), LimitsOf(end.db.rows), live);
    LoadMonotone(LimitsOf(end.db.rows), live, ActiveIds(end.db.rows));
  }

  /** Counted one by one: in every interleaving, for any list of the running containers, there are no more
      than the budget's workers, and the sum of each quantity over the containers, with what is kept back
      for the control plane, is within its bound. */
  lemma RunningWorkersFit(w: World, actions: seq<Action>, order: seq<RunId>, running: seq<WorkerLimits>)
    requires Initial(w) && w.guards.checkAfter && w.guards.stopFirst
    requires var box := Run(w, actions).daemon.box;
      && (forall r :: r in order <==> r in box && box[r].running)
      && (forall i, j :: 0 <= i < j < |order| ==> order[i] != order[j])
      && |running| == |order| && forall i :: 0 <= i < |order| ==> running[i] == box[order[i]].limits
    ensures |order| <= w.budget.concurrency
    ensures Sum(CpuMillis(running)) + w.budget.reserveCpuMillis <= w.budget.cpuMillis
    ensures Sum(MemoryBytes(running)) + w.budget.reserveMemoryBytes <= w.budget.memoryBytes
    ensures Sum(Pids(running)) + w.budget.reservePids <= w.budget.pids
    ensures Sum(TmpBytes(running)) <= w.budget.tmpBytes
  {
    RunningLoadFits(w, actions);
    var d := Run(w, actions).daemon;
    LoadFits(ContainerLimits(d), RunningIds(d), order, running, w.budget);
    FitsExactly(w.budget, running);
  }

  /** A claim is never issued, and a run never recovered, while a container of that run is running
      under another claim. */
  lemma RetakenOnlyWhenStopped(w: World, actions: seq<Action>, a: Action)
    requires Initial(w) && w.guards.checkAfter && w.guards.stopFirst
    requires Enabled(Run(w, actions), a) && (a.Take? || a.RecoverClaim?)
    requires var now := Run(w, actions);
      a.RecoverClaim? ==> Recoverable(now.db, now.cleaners[a.cleaner].claim, now.cleaners[a.cleaner].now)
    ensures var now := Run(w, actions);
      var r := if a.Take? then a.runId else now.cleaners[a.cleaner].claim.runId;
      r in now.daemon.box ==> !now.daemon.box[r].running
  {
    RunningImpliesHeld(w, actions);
    RunningImpliesHeld(w, actions + [a]);
    RunAppend(w, actions, a);
  }

  lemma {:induction false} RunAppend(w: World, actions: seq<Action>, a: Action)
    ensures Run(w, actions + [a]) == Step(Run(w, actions), a)
    decreases |actions|
  {
    if actions == [] {
      assert (actions + [a])[1..] == [];
    } else {
      assert (actions + [a])[1..] == actions[1..] + [a];
      RunAppend(Step(w, actions[0]), actions[1..], a);
    }
  }

  lemma InitialHolds(w: World)
    requires Initial(w) && w.guards.Enough()
    ensures Inv(w)
  {
    assert ActiveIds(w.db.rows) == {};
  }

  // ---------------------------------------------------------------- what the safeguards are needed for

  ghost predicate Reachable(w: World, v: World) {
    exists actions :: Run(w, actions) == v
  }

  lemma Onward(w: World, v: World, a: Action)
    requires Reachable(w, v)
    ensures Reachable(w, Step(v, a))
  {
    var actions :| Run(w, actions) == v;
    RunAppend(w, actions, a);
  }

  /** Under these safeguards no interleaving ever has a running container without its reservation. */
  ghost predicate AlwaysSafe(g: Guards) {
    forall w, v :: Initial(w) && w.guards == g && Reachable(w, v) ==> Safe(v)
  }

  // The smallest system: one run that just fits, known to one supervisor.

  const LIMITS := WorkerLimits(100, 128 * MIB, 16, 64 * MIB, 1, 1, 1, 1)
  const BUDGET := GroupBudget(1, 200, 256 * MIB, 32, 64 * MIB, 100, 128 * MIB, 16)
  const RUN := RunId(0)
  const CLAIM := Claim(RUN, 0, 1)
  const CLEANER := CleanerId(0)
  const QUEUED := Row(0, 0, LIMITS, BUDGET, Queued, false, None, 0, 0, None, None, None)

  function Empty(g: Guards, lease: nat): World {
    World(0, lease, BUDGET, g, Db(map[], map[]), Daemon(map[], []), map[], map[])
  }

  /** The same system with the run at `row`, its worker, and its container, if there is one. */
  function Now(g: Guards, lease: nat, clock: int, row: Row, worker: Worker, running: Option<bool>): World {
    Empty(g, lease).(
      clock := clock, db := Db(map[RUN := row], map[]), workers := map[CLAIM := worker],
      daemon := if running.None? then Daemon(map[], [])
                else Daemon(map[RUN := Container(0, CLAIM, LIMITS, running.value)], [CLAIM]))
  }

  function Held0(lease: nat): Row {
    RunRepository.Claimed(QUEUED, 0, 0, lease)
  }

  function AtPhase(phase: Phase): Worker {
    Worker(phase, if phase.Claimed? || phase.Creating? then None else Some(0), None, None)
  }

  /** Claimed at time 0, and past the check before create. */
  lemma Begins(g: Guards, lease: nat)
    requires lease > 0
    ensures Initial(Empty(g, lease))
    ensures Reachable(Empty(g, lease), Now(g, lease, 0, Held0(lease), AtPhase(Creating), None))
  {
    var w := Empty(g, lease);
    assert Run(w, []) == w;
    Onward(w, w, Transaction(Submit(RUN, QUEUED)));
    Submits(g, lease);
    Onward(w, Waiting(g, lease), Take(RUN, 0, 0));
    Takes(g, lease);
    var taken := Now(g, lease, 0, Held0(lease), AtPhase(Phase.Claimed), None);
    Onward(w, taken, PassBefore(CLAIM));
    assert Step(taken, PassBefore(CLAIM)).workers == map[CLAIM := AtPhase(Creating)];
  }

  /** The run is submitted, and nobody has claimed it. */
  function Waiting(g: Guards, lease: nat): World {
    Empty(g, lease).(db := Db(map[RUN := QUEUED], map[]))
  }

  lemma Submits(g: Guards, lease: nat)
    ensures Step(Empty(g, lease), Transaction(Submit(RUN, QUEUED))) == Waiting(g, lease)
  {
    assert Step(Empty(g, lease), Transaction(Submit(RUN, QUEUED))).db.rows == map[RUN := QUEUED];
  }

  lemma Takes(g: Guards, lease: nat)
    ensures Step(Waiting(g, lease), Take(RUN, 0, 0))
      == Now(g, lease, 0, Held0(lease), AtPhase(Phase.Claimed), None)
  {
    FirstRunIsClaimable(Waiting(g, lease).db.rows);
    var after := Step(Waiting(g, lease), Take(RUN, 0, 0));
    assert after.db.rows == map[RUN := Held0(lease)];
    assert after.workers == map[CLAIM := AtPhase(Phase.Claimed)];
  }

  lemma FirstRunIsClaimable(rows: map<RunId, Row>)
    requires rows == map[RUN := QUEUED]
    ensures Claimable(rows, BUDGET, RUN)
  {
    assert IsHead(rows, RUN);
    assert ActiveIds(rows) == {};
  }

  lemma Creates(g: Guards, lease: nat, clock: int, row: Row)
    requires row.limits == LIMITS
    ensures Step(Now(g, lease, clock, row, AtPhase(Creating), None), CreateContainer(CLAIM))
      == Now(g, lease, clock, row, AtPhase(Created), Some(false))
  {
    var after := Step(Now(g, lease, clock, row, AtPhase(Creating), None), CreateContainer(CLAIM));
    assert after.workers == map[CLAIM := AtPhase(Created)];
    assert after.daemon.box == map[RUN := Container(0, CLAIM, LIMITS, false)];
  }

  /** The check after create, where it is made, finds the claim held. */
  lemma Passes(g: Guards, lease: nat, clock: int, row: Row)
    requires g.checkAfter ==> Valid(row, CLAIM, clock) && !row.cancelRequested
    ensures Step(Now(g, lease, clock, row, AtPhase(Created), Some(false)), PassAfter(CLAIM))
      == Now(g, lease, clock, row, AtPhase(Cleared), Some(false))
  {
    var w := Now(g, lease, clock, row, AtPhase(Created), Some(false));
    assert Enabled(w, PassAfter(CLAIM));
    assert Step(w, PassAfter(CLAIM)).workers == map[CLAIM := AtPhase(Cleared)];
  }

  lemma Starts(g: Guards, lease: nat, clock: int, row: Row)
    ensures Step(Now(g, lease, clock, row, AtPhase(Cleared), Some(false)), StartContainer(CLAIM))
      == Now(g, lease, clock, row, AtPhase(Live), Some(true))
  {
    var w := Now(g, lease, clock, row, AtPhase(Cleared), Some(false));
    assert RUN in w.daemon.box && w.daemon.box[RUN].id == 0;
    var after := Step(w, StartContainer(CLAIM));
    assert after.workers == map[CLAIM := AtPhase(Live)];
    assert after.daemon.box == map[RUN := Container(0, CLAIM, LIMITS, true)];
  }

  /** The worker is running, at time 0. */
  lemma BeginsToRun(g: Guards, lease: nat)
    requires lease > 0
    ensures Initial(Empty(g, lease))
    ensures Reachable(Empty(g, lease), Now(g, lease, 0, Held0(lease), AtPhase(Live), Some(true)))
  {
    var w, row := Empty(g, lease), Held0(lease);
    Begins(g, lease);
    Onward(w, Now(g, lease, 0, row, AtPhase(Creating), None), CreateContainer(CLAIM));
    Creates(g, lease, 0, row);
    Onward(w, Now(g, lease, 0, row, AtPhase(Created), Some(false)), PassAfter(CLAIM));
    Passes(g, lease, 0, row);
    Onward(w, Now(g, lease, 0, row, AtPhase(Cleared), Some(false)), StartContainer(CLAIM));
    Starts(g, lease, 0, row);
  }

  /** A recovery that has got as far as `stop`. */
  function Cleaning(w: World, stop: StopPc): World {
    w.(cleaners := map[CLEANER := Cleaner(CLAIM, 1, stop)])
  }

  /** One tick later the lease of one tick is over, and a recovery begins. */
  lemma LeaseRunsOut(g: Guards, worker: Worker, running: Option<bool>)
    requires Reachable(Empty(g, 1), Now(g, 1, 0, Held0(1), worker, running))
    ensures Reachable(Empty(g, 1), Cleaning(Now(g, 1, 1, Held0(1), worker, running), Look))
  {
    var w0, w1 := Now(g, 1, 0, Held0(1), worker, running), Now(g, 1, 1, Held0(1), worker, running);
    Onward(Empty(g, 1), w0, Tick(1));
    assert Step(w0, Tick(1)) == w1;
    Onward(Empty(g, 1), w1, Observe(CLEANER, CLAIM, 1));
    assert Step(w1, Observe(CLEANER, CLAIM, 1)).cleaners == map[CLEANER := Cleaner(CLAIM, 1, Look)];
  }

  lemma Recovers(g: Guards, worker: Worker, running: Option<bool>, stop: StopPc)
    requires g.stopFirst ==> stop.Clean?
    ensures Step(Cleaning(Now(g, 1, 1, Held0(1), worker, running), stop), RecoverClaim(CLEANER))
      == Cleaning(Now(g, 1, 1, RecoveredRow(Held0(1)), worker, running), stop)
  {
    var w := Cleaning(Now(g, 1, 1, Held0(1), worker, running), stop);
    assert Recoverable(w.db, CLAIM, 1);
    assert Step(w, RecoverClaim(CLEANER)).db.rows == map[RUN := RecoveredRow(Held0(1))];
  }

  lemma RunsWhileQueued(w: World, row: Row)
    requires w.db.rows == map[RUN := row] && row.status.Queued?
    requires w.daemon.box == map[RUN := Container(0, CLAIM, LIMITS, true)]
    ensures !Safe(w)
  {
    assert RUN in w.daemon.box && w.daemon.box[RUN].running;
  }

  /** Without stopping first, the recovery of an expired lease requeues a run whose worker still runs. */
  lemma RecoveryMustStopFirst(g: Guards)
    requires !g.stopFirst
    ensures !AlwaysSafe(g)
  {
    var w, live := Empty(g, 1), AtPhase(Live);
    BeginsToRun(g, 1);
    LeaseRunsOut(g, live, Some(true));
    Onward(w, Cleaning(Now(g, 1, 1, Held0(1), live, Some(true)), Look), RecoverClaim(CLEANER));
    Recovers(g, live, Some(true), Look);
    var end := Cleaning(Now(g, 1, 1, RecoveredRow(Held0(1)), live, Some(true)), Look);
    RunsWhileQueued(end, RecoveredRow(Held0(1)));
  }

  /** The recovery looks for the container before it is made and finds the name clear. */
  lemma LooksTooEarly(g: Guards)
    ensures Initial(Empty(g, 1))
    ensures Reachable(Empty(g, 1), Cleaning(Now(g, 1, 1, Held0(1), AtPhase(Creating), None), Clean))
  {
    Begins(g, 1);
    LeaseRunsOut(g, AtPhase(Creating), None);
    var w := Cleaning(Now(g, 1, 1, Held0(1), AtPhase(Creating), None), Look);
    Onward(Empty(g, 1), w, CleanRequest(CLEANER));
    assert Step(w, CleanRequest(CLEANER)).cleaners == map[CLEANER := Cleaner(CLAIM, 1, Clean)];
  }

  /** Whatever is in force, a run can be queued again while its container exists, not yet started: the
      state the check after create is there to notice. */
  lemma MadeWhileQueued(g: Guards)
    ensures Initial(Empty(g, 1))
    ensures Reachable(Empty(g, 1), Cleaning(Now(g, 1, 1, RecoveredRow(Held0(1)), AtPhase(Created), Some(false)), Clean))
  {
    var w, row := Empty(g, 1), Held0(1);
    LooksTooEarly(g);
    Onward(w, Cleaning(Now(g, 1, 1, row, AtPhase(Creating), None), Clean), CreateContainer(CLAIM));
    Creates(g, 1, 1, row);
    assert Step(Cleaning(Now(g, 1, 1, row, AtPhase(Creating), None), Clean), CreateContainer(CLAIM))
      == Cleaning(Step(Now(g, 1, 1, row, AtPhase(Creating), None), CreateContainer(CLAIM)), Clean);
    Onward(w, Cleaning(Now(g, 1, 1, row, AtPhase(Created), Some(false)), Clean), RecoverClaim(CLEANER));
    Recovers(g, AtPhase(Created), Some(false), Clean);
  }

  /** Without the check after create, that container is started. */
  lemma CheckAfterCreateIsNeeded(g: Guards)
    requires !g.checkAfter
    ensures !AlwaysSafe(g)
  {
    var w, row := Empty(g, 1), RecoveredRow(Held0(1));
    MadeWhileQueued(g);
    var made := Now(g, 1, 1, row, AtPhase(Created), Some(false));
    Onward(w, Cleaning(made, Clean), PassAfter(CLAIM));
    Passes(g, 1, 1, row);
    assert Step(Cleaning(made, Clean), PassAfter(CLAIM)) == Cleaning(Step(made, PassAfter(CLAIM)), Clean);
    var cleared := Now(g, 1, 1, row, AtPhase(Cleared), Some(false));
    Onward(w, Cleaning(cleared, Clean), StartContainer(CLAIM));
    Starts(g, 1, 1, row);
    assert Step(Cleaning(cleared, Clean), StartContainer(CLAIM))
      == Cleaning(Step(cleared, StartContainer(CLAIM)), Clean);
    RunsWhileQueued(Cleaning(Now(g, 1, 1, row, AtPhase(Live), Some(true)), Clean), row);
  }

  /** The fencing theorem holds exactly with the check after create and with recovery only after
      stopping. The check before create is not needed for it. */
  lemma SafeExactlyWhenGuarded(g: Guards)
    ensures AlwaysSafe(g) <==> g.checkAfter && g.stopFirst
  {
    if !g.stopFirst {
      RecoveryMustStopFirst(g);
    } else if !g.checkAfter {
      CheckAfterCreateIsNeeded(g);
    } else {
      forall w, v | Initial(w) && w.guards == g && Reachable(w, v) ensures Safe(v) {
        var actions :| Run(w, actions) == v;
        RunningImpliesHeld(w, actions);
      }
    }
  }

  // ---------------------------------------------------------------- three lives of a run

  /** The container has been made and removed again. */
  function Gone(g: Guards, lease: nat, clock: int, db: Db, worker: Worker): World {
    Empty(g, lease).(clock := clock, db := db, workers := map[CLAIM := worker], daemon := Daemon(map[], [CLAIM]))
  }

  function StopPhase(finishing: bool, stop: StopPc): Phase {
    if finishing then Finishing(stop) else Aborting(stop)
  }

  function Stopped(g: Guards, lease: nat, row: Row, finishing: bool, stop: StopPc): World {
    Now(g, lease, 0, row, AtPhase(StopPhase(finishing, stop)), Some(false))
  }

  lemma StopLooks(g: Guards, lease: nat, row: Row, finishing: bool)
    ensures Step(Stopped(g, lease, row, finishing, Look), StopRequest(CLAIM))
      == Stopped(g, lease, row, finishing, LookAgain(0))
  {
    assert Step(Stopped(g, lease, row, finishing, Look), StopRequest(CLAIM)).workers
      == Stopped(g, lease, row, finishing, LookAgain(0)).workers;
  }

  lemma StopLooksAgain(g: Guards, lease: nat, row: Row, finishing: bool)
    ensures Step(Stopped(g, lease, row, finishing, LookAgain(0)), StopRequest(CLAIM))
      == Stopped(g, lease, row, finishing, Delete(0))
  {
    assert Step(Stopped(g, lease, row, finishing, LookAgain(0)), StopRequest(CLAIM)).workers
      == Stopped(g, lease, row, finishing, Delete(0)).workers;
  }

  lemma StopDeletes(g: Guards, lease: nat, row: Row, finishing: bool)
    ensures Step(Stopped(g, lease, row, finishing, Delete(0)), StopRequest(CLAIM))
      == Gone(g, lease, 0, Db(map[RUN := row], map[]), AtPhase(StopPhase(finishing, Clean)))
  {
    var after := Step(Stopped(g, lease, row, finishing, Delete(0)), StopRequest(CLAIM));
    assert after.workers == map[CLAIM := AtPhase(StopPhase(finishing, Clean))];
    assert after.daemon.box == map[];
  }

  lemma StopEnds(g: Guards, lease: nat, row: Row, finishing: bool)
    ensures var db := Db(map[RUN := row], map[]);
      Step(Gone(g, lease, 0, db, AtPhase(StopPhase(finishing, Clean))), StopRequest(CLAIM))
      == Gone(g, lease, 0, db, AtPhase(Committing))
  {
    var db := Db(map[RUN := row], map[]);
    assert Step(Gone(g, lease, 0, db, AtPhase(StopPhase(finishing, Clean))), StopRequest(CLAIM)).workers
      == map[CLAIM := AtPhase(Committing)];
  }

  /** A stop sequence whose container is not running: inspect, inspect by id, delete, done. */
  lemma StopsQuietly(g: Guards, lease: nat, row: Row, finishing: bool)
    ensures Reachable(Stopped(g, lease, row, finishing, Look),
                      Gone(g, lease, 0, Db(map[RUN := row], map[]), AtPhase(Committing)))
  {
    var w := Stopped(g, lease, row, finishing, Look);
    assert Run(w, []) == w;
    Onward(w, w, StopRequest(CLAIM));
    StopLooks(g, lease, row, finishing);
    Onward(w, Stopped(g, lease, row, finishing, LookAgain(0)), StopRequest(CLAIM));
    StopLooksAgain(g, lease, row, finishing);
    Onward(w, Stopped(g, lease, row, finishing, Delete(0)), StopRequest(CLAIM));
    StopDeletes(g, lease, row, finishing);
    Onward(w, Gone(g, lease, 0, Db(map[RUN := row], map[]), AtPhase(StopPhase(finishing, Clean))), StopRequest(CLAIM));
    StopEnds(g, lease, row, finishing);
  }

  lemma {:induction false} RunConcat(w: World, a: seq<Action>, b: seq<Action>)
    ensures Run(w, a + b) == Run(Run(w, a), b)
    decreases |a|
  {
    if a == [] {
      assert a + b == b;
    } else {
      assert (a + b)[1..] == a[1..] + b;
      RunConcat(Step(w, a[0]), a[1..], b);
    }
  }

  lemma Through(u: World, v: World, w: World)
    requires Reachable(u, v) && Reachable(v, w)
    ensures Reachable(u, w)
  {
    var a :| Run(u, a) == v;
    var b :| Run(v, b) == w;
    RunConcat(u, a, b);
  }

  /** The container runs, reports that it runs, and exits by itself. */
  lemma RunsAndExits(g: Guards, lease: nat)
    requires lease > 0
    ensures Reachable(Empty(g, lease),
                      Now(g, lease, 0, Held0(lease).(status := Running), AtPhase(Finishing(Look)), Some(false)))
  {
    var w, row := Empty(g, lease), Held0(lease).(status := Running);
    BeginsToRun(g, lease);
    var live := Now(g, lease, 0, Held0(lease), AtPhase(Live), Some(true));
    var boot := Transaction(Op.SetRunning(CLAIM, 0));
    var running := Now(g, lease, 0, row, AtPhase(Live), Some(true));
    Onward(w, live, boot);
    assert Step(live, boot).db.rows == running.db.rows;
    var exited := Now(g, lease, 0, row, AtPhase(Live), Some(false));
    Onward(w, running, WorkerExits(RUN));
    assert Step(running, WorkerExits(RUN)).daemon.box == exited.daemon.box;
    Onward(w, exited, Finish(CLAIM));
    assert Step(exited, Finish(CLAIM)).workers == map[CLAIM := AtPhase(Finishing(Look))];
  }

  /** A run that succeeds: it ends with its result published, no lease and no container. */
  lemma CanSucceed(g: Guards, lease: nat, result: int)
    requires lease > 0
    ensures exists v ::
      && Reachable(Empty(g, lease), v) && v.daemon.box == map[] && v.db.results == map[RUN := result]
      && v.db.rows == map[RUN := QUEUED.(
           status := Succeeded, token := Some(0), fence := 1, outcome := Some(Outcome(Succeeded, false, Some(RUN))))]
  {
    var w, row := Empty(g, lease), Held0(lease).(status := Running);
    var outcome := Outcome(Succeeded, false, Some(RUN));
    RunsAndExits(g, lease);
    StopsQuietly(g, lease, row, true);
    var stopped := Gone(g, lease, 0, Db(map[RUN := row], map[]), AtPhase(Committing));
    Through(w, Now(g, lease, 0, row, AtPhase(Finishing(Look)), Some(false)), stopped);
    var commit := CommitTerminal(CLAIM, outcome, Some(result), Some(result), true);
    Onward(w, stopped, commit);
    var v := Step(stopped, commit);
    assert v.db.rows == map[RUN := row.(status := Succeeded, outcome := Some(outcome), leaseUntil := 0)];
    assert v.db.results == map[RUN := result];
  }

  /** A cancel request that comes between create and the check after it. */
  lemma IsCancelledWhileMade(g: Guards, lease: nat)
    requires lease > 0
    ensures Reachable(Empty(g, lease), Stopped(g, lease, Held0(lease).(cancelRequested := true), false, Look))
  {
    var w, held, row := Empty(g, lease), Held0(lease), Held0(lease).(cancelRequested := true);
    Begins(g, lease);
    Onward(w, Now(g, lease, 0, held, AtPhase(Creating), None), CreateContainer(CLAIM));
    Creates(g, lease, 0, held);
    Onward(w, Now(g, lease, 0, held, AtPhase(Created), Some(false)), Transaction(Op.RequestCancel(RUN)));
    CancelIsNoted(g, lease);
    Onward(w, Now(g, lease, 0, row, AtPhase(Created), Some(false)), Abort(CLAIM));
    Aborts(g, lease, row);
  }

  lemma CancelIsNoted(g: Guards, lease: nat)
    ensures Step(Now(g, lease, 0, Held0(lease), AtPhase(Created), Some(false)), Transaction(Op.RequestCancel(RUN)))
      == Now(g, lease, 0, Held0(lease).(cancelRequested := true), AtPhase(Created), Some(false))
  {
    var w := Now(g, lease, 0, Held0(lease), AtPhase(Created), Some(false));
    assert Step(w, Transaction(Op.RequestCancel(RUN))).db.rows == map[RUN := Held0(lease).(cancelRequested := true)];
  }

  lemma Aborts(g: Guards, lease: nat, row: Row)
    ensures Step(Now(g, lease, 0, row, AtPhase(Created), Some(false)), Abort(CLAIM))
      == Stopped(g, lease, row, false, Look)
  {
    assert Step(Now(g, lease, 0, row, AtPhase(Created), Some(false)), Abort(CLAIM)).workers
      == map[CLAIM := AtPhase(Aborting(Look))];
  }

  /** A run that is cancelled while its container is being made: it is never started, and ends cancelled
      with the container removed. */
  lemma CanBeCancelled(g: Guards, lease: nat)
    requires lease > 0
    ensures exists v ::
      && Reachable(Empty(g, lease), v) && v.daemon.box == map[] && v.db.results == map[]
      && v.db.rows == map[RUN := QUEUED.(
           status := Cancelled, cancelRequested := true, token := Some(0), fence := 1,
           outcome := Some(Outcome(Cancelled, false, None)))]
  {
    var w, row := Empty(g, lease), Held0(lease).(cancelRequested := true);
    IsCancelledWhileMade(g, lease);
    StopsQuietly(g, lease, row, false);
    var stopped := Gone(g, lease, 0, Db(map[RUN := row], map[]), AtPhase(Committing));
    Through(w, Stopped(g, lease, row, false, Look), stopped);
    var outcome := Outcome(Cancelled, false, None);
    var commit := CommitTerminal(CLAIM, outcome, None, None, false);
    Onward(w, stopped, commit);
    var v := Step(stopped, commit);
    assert v.db.rows == map[RUN := row.(status := Cancelled, outcome := Some(outcome), leaseUntil := 0)];
  }

  /** A recovery of the live worker's claim, and how far it has got. */
  function Killing(g: Guards, running: bool, stop: StopPc): World {
    Cleaning(Now(g, 1, 1, Held0(1), AtPhase(Live), Some(running)), stop)
  }

  lemma FindsRunning(g: Guards)
    ensures Step(Killing(g, true, Look), CleanRequest(CLEANER)) == Killing(g, true, Kill(0))
  {
    assert Step(Killing(g, true, Look), CleanRequest(CLEANER)).cleaners == Killing(g, true, Kill(0)).cleaners;
  }

  lemma Kills(g: Guards)
    ensures Step(Killing(g, true, Kill(0)), CleanRequest(CLEANER)) == Killing(g, false, LookAgain(0))
  {
    var after := Step(Killing(g, true, Kill(0)), CleanRequest(CLEANER));
    assert after.cleaners == Killing(g, false, LookAgain(0)).cleaners;
    assert after.daemon.box == Killing(g, false, LookAgain(0)).daemon.box;
  }

  lemma FindsStopped(g: Guards)
    ensures Step(Killing(g, false, LookAgain(0)), CleanRequest(CLEANER)) == Killing(g, false, Delete(0))
  {
    assert Step(Killing(g, false, LookAgain(0)), CleanRequest(CLEANER)).cleaners
      == Killing(g, false, Delete(0)).cleaners;
  }

  lemma Deletes(g: Guards)
    ensures Step(Killing(g, false, Delete(0)), CleanRequest(CLEANER))
      == Cleaning(Gone(g, 1, 1, Db(map[RUN := Held0(1)], map[]), AtPhase(Live)), Clean)
  {
    var after := Step(Killing(g, false, Delete(0)), CleanRequest(CLEANER));
    assert after.cleaners == Killing(g, false, Clean).cleaners;
    assert after.daemon.box == map[];
  }

  /** The recovery of a running container: inspect, kill, inspect by id, delete. */
  lemma KillsAndRemoves(g: Guards)
    ensures Reachable(Killing(g, true, Look),
                      Cleaning(Gone(g, 1, 1, Db(map[RUN := Held0(1)], map[]), AtPhase(Live)), Clean))
  {
    var w := Killing(g, true, Look);
    assert Run(w, []) == w;
    Onward(w, w, CleanRequest(CLEANER));
    FindsRunning(g);
    Onward(w, Killing(g, true, Kill(0)), CleanRequest(CLEANER));
    Kills(g);
    Onward(w, Killing(g, false, LookAgain(0)), CleanRequest(CLEANER));
    FindsStopped(g);
    Onward(w, Killing(g, false, Delete(0)), CleanRequest(CLEANER));
    Deletes(g);
  }

  /** The run has lost its first worker and is queued again; its first supervisor does not know yet. */
  function Orphaned(g: Guards): World {
    Cleaning(Gone(g, 1, 1, Db(map[RUN := QUEUED.(fence := 1)], map[]), AtPhase(Live)), Clean)
  }

  lemma IsOrphaned(g: Guards)
    ensures Initial(Empty(g, 1)) && Reachable(Empty(g, 1), Orphaned(g))
  {
    var w := Empty(g, 1);
    BeginsToRun(g, 1);
    LeaseRunsOut(g, AtPhase(Live), Some(true));
    KillsAndRemoves(g);
    var clean := Cleaning(Gone(g, 1, 1, Db(map[RUN := Held0(1)], map[]), AtPhase(Live)), Clean);
    Through(w, Killing(g, true, Look), clean);
    Onward(w, clean, RecoverClaim(CLEANER));
    Requeues(g);
  }

  lemma Requeues(g: Guards)
    ensures Step(Cleaning(Gone(g, 1, 1, Db(map[RUN := Held0(1)], map[]), AtPhase(Live)), Clean), RecoverClaim(CLEANER))
      == Orphaned(g)
  {
    var w := Cleaning(Gone(g, 1, 1, Db(map[RUN := Held0(1)], map[]), AtPhase(Live)), Clean);
    assert Recoverable(w.db, CLAIM, 1);
    assert Step(w, RecoverClaim(CLEANER)).db.rows == map[RUN := QUEUED.(fence := 1)];
  }

  const SECOND := Claim(RUN, 1, 2)

  /** A second claim of the same run, one tick after the first one's lease was over. */
  function Retaken(g: Guards, worker: Worker, daemon: Daemon): World {
    var row := QUEUED.(status := Starting, token := Some(1), fence := 2, leaseUntil := 2);
    Orphaned(g).(db := Db(map[RUN := row], map[]), workers := map[CLAIM := AtPhase(Live), SECOND := worker],
                 daemon := daemon)
  }

  lemma SecondClaim(g: Guards)
    ensures Step(Orphaned(g), Take(RUN, 1, 1))
      == Retaken(g, Worker(Phase.Claimed, None, None, None), Daemon(map[], [CLAIM]))
  {
    var w := Orphaned(g);
    assert IsHead(w.db.rows, RUN);
    assert ActiveIds(w.db.rows) == {};
    var after := Step(w, Take(RUN, 1, 1));
    var retaken := Retaken(g, Worker(Phase.Claimed, None, None, None), Daemon(map[], [CLAIM]));
    assert after.db.rows == retaken.db.rows;
    assert after.workers == retaken.workers;
  }

  function SecondBox(running: bool): Daemon {
    Daemon(map[RUN := Container(1, SECOND, LIMITS, running)], [CLAIM, SECOND])
  }

  lemma SecondCreates(g: Guards)
    ensures Step(Retaken(g, Worker(Creating, None, None, None), Daemon(map[], [CLAIM])), CreateContainer(SECOND))
      == Retaken(g, Worker(Created, Some(1), None, None), SecondBox(false))
  {
    var w := Retaken(g, Worker(Creating, None, None, None), Daemon(map[], [CLAIM]));
    var after := Step(w, CreateContainer(SECOND));
    assert after.workers == Retaken(g, Worker(Created, Some(1), None, None), SecondBox(false)).workers;
    assert after.daemon.box == SecondBox(false).box;
  }

  lemma SecondPasses(g: Guards)
    ensures Step(Retaken(g, Worker(Created, Some(1), None, None), SecondBox(false)), PassAfter(SECOND))
      == Retaken(g, Worker(Cleared, Some(1), None, None), SecondBox(false))
  {
    var w := Retaken(g, Worker(Created, Some(1), None, None), SecondBox(false));
    assert Step(w, PassAfter(SECOND)).workers
      == Retaken(g, Worker(Cleared, Some(1), None, None), SecondBox(false)).workers;
  }

  lemma SecondStarts(g: Guards)
    ensures Step(Retaken(g, Worker(Cleared, Some(1), None, None), SecondBox(false)), StartContainer(SECOND))
      == Retaken(g, Worker(Live, Some(1), None, None), SecondBox(true))
  {
    var w := Retaken(g, Worker(Cleared, Some(1), None, None), SecondBox(false));
    assert RUN in w.daemon.box && w.daemon.box[RUN].id == 1;
    var after := Step(w, StartContainer(SECOND));
    assert after.workers == Retaken(g, Worker(Live, Some(1), None, None), SecondBox(true)).workers;
    assert after.daemon.box == SecondBox(true).box;
  }

  lemma SecondLives(g: Guards)
    ensures Reachable(Retaken(g, Worker(Creating, None, None, None), Daemon(map[], [CLAIM])),
                      Retaken(g, Worker(Live, Some(1), None, None), SecondBox(true)))
  {
    var w := Retaken(g, Worker(Creating, None, None, None), Daemon(map[], [CLAIM]));
    assert Run(w, []) == w;
    Onward(w, w, CreateContainer(SECOND));
    SecondCreates(g);
    Onward(w, Retaken(g, Worker(Created, Some(1), None, None), SecondBox(false)), PassAfter(SECOND));
    SecondPasses(g);
    Onward(w, Retaken(g, Worker(Cleared, Some(1), None, None), SecondBox(false)), StartContainer(SECOND));
    SecondStarts(g);
  }

  lemma SecondPassesBefore(g: Guards)
    ensures Step(Retaken(g, Worker(Phase.Claimed, None, None, None), Daemon(map[], [CLAIM])), PassBefore(SECOND))
      == Retaken(g, Worker(Creating, None, None, None), Daemon(map[], [CLAIM]))
  {
    var w := Retaken(g, Worker(Phase.Claimed, None, None, None), Daemon(map[], [CLAIM]));
    assert Step(w, PassBefore(SECOND)).workers
      == Retaken(g, Worker(Creating, None, None, None), Daemon(map[], [CLAIM])).workers;
  }

  /** A run that is taken over: after its lease ran out its container is killed, removed and replaced by
      one of a second claim, while the first supervisor still takes its own worker for live. */
  lemma CanBeTakenOver(g: Guards)
    ensures exists v ::
      && Reachable(Empty(g, 1), v) && v.workers.Keys == {CLAIM, SECOND}
      && v.workers[CLAIM].phase.Live? && v.workers[SECOND].phase.Live?
      && v.daemon.box == map[RUN := Container(1, SECOND, LIMITS, true)]
      && v.db.rows == map[RUN := QUEUED.(status := Starting, token := Some(1), fence := 2, leaseUntil := 2)]
  {
    var w := Empty(g, 1);
    IsOrphaned(g);
    Onward(w, Orphaned(g), Take(RUN, 1, 1));
    SecondClaim(g);
    Onward(w, Retaken(g, Worker(Phase.Claimed, None, None, None), Daemon(map[], [CLAIM])), PassBefore(SECOND));
    SecondPassesBefore(g);
    SecondLives(g);
    var v := Retaken(g, Worker(Live, Some(1), None, None), SecondBox(true));
    Through(w, Retaken(g, Worker(Creating, None, None, None), Daemon(map[], [CLAIM])), v);
    assert v.workers.Keys == {CLAIM, SECOND};
  }

  // ---------------------------------------------------------------- heartbeats that come late

  /** The stamp a heartbeat action writes the lease from. */
  function Stamp(w: World, a: Action): int {
    if a.ApplyThreadBeat? && a.claim in w.workers && w.workers[a.claim].threadBeat.Some? then
      w.workers[a.claim].threadBeat.value
    else if a.ApplyLoopBeat? && a.claim in w.workers && w.workers[a.claim].loopBeat.Some? then
      w.workers[a.claim].loopBeat.value
    else 0
  }

  ghost predicate LowersLease(w: World, a: Action) {
    && (a.ApplyThreadBeat? || a.ApplyLoopBeat?) && Enabled(w, a) && a.claim.runId in w.db.rows
    && Step(w, a).db.rows[a.claim.runId].leaseUntil < w.db.rows[a.claim.runId].leaseUntil
  }

  /** A heartbeat lowers the lease exactly when it is accepted and its stamp is so old that the new end
      lies before the present one. In no reachable state does that happen before the worker has passed
      the check after create: until then its lease only grows. */
  lemma LeaseDropsExactly(w: World, actions: seq<Action>, a: Action)
    requires Initial(w) && w.guards.checkAfter && w.guards.stopFirst
    requires (a.ApplyThreadBeat? || a.ApplyLoopBeat?) && Enabled(Run(w, actions), a)
    ensures var now := Run(w, actions);
      LowersLease(now, a) <==>
        && ValidIn(now.db, a.claim, Stamp(now, a))
        && Stamp(now, a) + now.lease < now.db.rows[a.claim.runId].leaseUntil
    ensures var now := Run(w, actions); now.workers[a.claim].phase.BeforeClearance() ==> !LowersLease(now, a)
  {
    InitialHolds(w);
    RunKeepsInv(w, actions);
    assert WorkerOk(Run(w, actions), a.claim);
  }

  function Beating(g: Guards, clock: int, thread: Option<int>, loop: Option<int>): World {
    Now(g, 2, clock, Held0(2), Worker(Live, Some(0), thread, loop), Some(true))
  }

  lemma ThreadReads(g: Guards)
    ensures Step(Beating(g, 0, None, None), ReadThreadBeat(CLAIM)) == Beating(g, 0, Some(0), None)
  {
    assert Step(Beating(g, 0, None, None), ReadThreadBeat(CLAIM)).workers == Beating(g, 0, Some(0), None).workers;
  }

  lemma LoopReads(g: Guards)
    ensures Step(Beating(g, 1, Some(0), None), ReadLoopBeat(CLAIM)) == Beating(g, 1, Some(0), Some(1))
  {
    var w := Beating(g, 1, Some(0), None);
    assert Step(w, ReadLoopBeat(CLAIM)).workers == Beating(g, 1, Some(0), Some(1)).workers;
  }

  /** The thread reads the clock at 0; its beat does not land yet. The loop reads at 1. */
  lemma BeatsAreRead(g: Guards)
    ensures Initial(Empty(g, 2)) && Reachable(Empty(g, 2), Beating(g, 1, Some(0), Some(1)))
  {
    var w := Empty(g, 2);
    BeginsToRun(g, 2);
    assert Beating(g, 0, None, None) == Now(g, 2, 0, Held0(2), AtPhase(Live), Some(true));
    Onward(w, Beating(g, 0, None, None), ReadThreadBeat(CLAIM));
    ThreadReads(g);
    Onward(w, Beating(g, 0, Some(0), None), Tick(1));
    assert Step(Beating(g, 0, Some(0), None), Tick(1)) == Beating(g, 1, Some(0), None);
    Onward(w, Beating(g, 1, Some(0), None), ReadLoopBeat(CLAIM));
    LoopReads(g);
  }

  lemma LoopBeatLands(g: Guards)
    ensures Step(Beating(g, 1, Some(0), Some(1)), ApplyLoopBeat(CLAIM))
      == Now(g, 2, 1, Held0(2).(leaseUntil := 3), Worker(Live, Some(0), Some(0), None), Some(true))
  {
    var w := Beating(g, 1, Some(0), Some(1));
    assert ValidIn(w.db, CLAIM, 1);
    var after := Step(w, ApplyLoopBeat(CLAIM));
    assert after.db.rows == map[RUN := Held0(2).(leaseUntil := 3)];
    assert after.workers == map[CLAIM := Worker(Live, Some(0), Some(0), None)];
  }

  /** It does happen once the worker is live: the thread's beat of time 0 lands after the loop's of time 1. */
  lemma LateBeatShortensLease(g: Guards)
    ensures exists w, v, a :: Initial(w) && w.guards == g && Reachable(w, v) && LowersLease(v, a)
  {
    BeatsAreRead(g);
    Onward(Empty(g, 2), Beating(g, 1, Some(0), Some(1)), ApplyLoopBeat(CLAIM));
    LoopBeatLands(g);
    var v := Now(g, 2, 1, Held0(2).(leaseUntil := 3), Worker(Live, Some(0), Some(0), None), Some(true));
    assert ValidIn(v.db, CLAIM, 0);
    assert LowersLease(v, ApplyThreadBeat(CLAIM));
  }
}
