/** The container daemon, reduced to truthful requests on named containers, and the two
    request sequences the trusted runner issues: starting a worker and stopping one. */
module WorkerDaemon {
  import opened RuntimeContracts

  /** One container. Its labels carry the whole claim; its name is a function of the run alone. */
  datatype Container = Container(id: nat, claim: Claim, limits: WorkerLimits, running: bool)

  /** Containers by name (names are injective in the run) and the claims of all create
      requests so far; a container's id is its position in that log, so ids are never reused. */
  datatype Daemon = Daemon(box: map<RunId, Container>, log: seq<Claim>)

  predicate InBox(d: Daemon, c: Claim) {
    c.runId in d.box && d.box[c.runId].claim == c
  }

  ghost predicate RunningId(d: Daemon, id: nat) {
    exists r :: r in d.box && d.box[r].id == id && d.box[r].running
  }

  // ---------------------------------------------------------------- requests

  function Create(d: Daemon, c: Claim, limits: WorkerLimits): Daemon
    requires c.runId !in d.box
  {
    Daemon(d.box[c.runId := Container(|d.log|, c, limits, false)], d.log + [c])
  }

  function SetRunning(d: Daemon, id: nat, running: bool): Daemon {
    d.(box := map r | r in d.box :: if d.box[r].id == id then d.box[r].(running := running) else d.box[r])
  }

  function Remove(d: Daemon, id: nat): Daemon {
    d.(box := map r | r in d.box && d.box[r].id != id :: d.box[r])
  }

  // ---------------------------------------------------------------- stopping, request by request

  datatype StopPc = Look | Kill(id: nat) | LookAgain(id: nat) | Delete(id: nat) | Clean | Refused | Raised {
    predicate Done() { Clean? || Refused? || Raised? }
    predicate HasId() { Kill? || LookAgain? || Delete? }
  }

  /** The next request of `stop_remove`: inspect by name, then kill, inspect and delete by id. */
  ghost function StopStep(d: Daemon, pc: StopPc, c: Claim): (Daemon, StopPc) {
    match pc
    case Look =>
      if c.runId !in d.box then (d, Clean)
      else if d.box[c.runId].claim != c then (d, Refused)
      else if d.box[c.runId].running then (d, Kill(d.box[c.runId].id))
      else (d, LookAgain(d.box[c.runId].id))
    case Kill(id) => (SetRunning(d, id, false), LookAgain(id))
    case LookAgain(id) => (d, if RunningId(d, id) then Raised else Delete(id))
    case Delete(id) => if RunningId(d, id) then (d, Raised) else (Remove(d, id), Clean)
    case _ => (d, pc)
  }

  /** Names identify containers: the shape every reachable daemon has. */
  ghost predicate WellFormed(d: Daemon) {
    forall r :: r in d.box ==>
      d.box[r].claim.runId == r && d.box[r].id < |d.log| && d.log[d.box[r].id] == d.box[r].claim
  }

  ghost function StopSteps(d: Daemon, pc: StopPc, c: Claim, requests: nat): (Daemon, StopPc)
    decreases requests
  {
    if requests == 0 then (d, pc)
    else
      var (after, next) := StopStep(d, pc, c);
      StopSteps(after, next, c, requests - 1)
  }

  /** Four requests with nobody in between are a whole stop: the claim's own container is gone and every
      other is as it was; a container of another claim is refused and stays. */
  lemma StopAlone(d: Daemon, c: Claim)
    requires WellFormed(d)
    ensures var (after, pc) := StopSteps(d, Look, c, 4);
      && after.log == d.log
      && (c.runId in d.box && d.box[c.runId].claim != c ==> pc == Refused && after.box == d.box)
      && (c.runId !in d.box || d.box[c.runId].claim == c ==> pc == Clean && after.box == d.box - {c.runId})
  {
    var (d1, p1) := StopStep(d, Look, c);
    var (d2, p2) := StopStep(d1, p1, c);
    var (d3, p3) := StopStep(d2, p2, c);
    var (d4, p4) := StopStep(d3, p3, c);
    assert StopSteps(d3, p3, c, 1) == StopSteps(d4, p4, c, 0) == (d4, p4);
    assert StopSteps(d, Look, c, 4) == StopSteps(d1, p1, c, 3) == StopSteps(d2, p2, c, 2) == (d4, p4);
    if InBox(d, c) {
      forall r | r in d.box && d.box[r].id == d.box[c.runId].id ensures r == c.runId {}
      assert d4.box == d.box - {c.runId};
    } else if c.runId !in d.box {
      assert d.box == d.box - {c.runId};
    }
  }

  // ---------------------------------------------------------------- the daemon object

  class DockerDaemon {
    var box: map<RunId, Container>
    var log: seq<Claim>

    constructor ()
      ensures State() == Daemon(map[], []) && WellFormed(State())
    {
      box, log := map[], [];
    }

    function State(): Daemon
      reads this
    {
      Daemon(box, log)
    }

    method Inspect(name: RunId) returns (found: Option<Container>)
      ensures found == if name in box then Some(box[name]) else None
    {
      found := if name in box then Some(box[name]) else None;
    }

    /** With nobody else using the daemon, stopping removes exactly the claim's own container and
        refuses, changing nothing, when the name belongs to another claim. */
    method StopRemove(c: Claim) returns (r: Result<()>)
      requires WellFormed(State())
      modifies this
      ensures WellFormed(State()) && log == old(log)
      ensures r == Err(StaleClaim) <==> c.runId in old(box) && old(box)[c.runId].claim != c
      ensures r == Ok(()) <==> !(c.runId in old(box) && old(box)[c.runId].claim != c)
      ensures box == if r.Ok? then old(box) - {c.runId} else old(box)
    {
      var row := Inspect(c.runId);
      if row.None? {
        assert box == box - {c.runId};
        return Ok(());
      }
      if row.value.claim != c { return Err(StaleClaim); }
      var id := row.value.id;
      if row.value.running {
        box := SetRunning(Daemon(box, log), id, false).box;
      }
      if exists q :: q in box && box[q].id == id && box[q].running { return Err(CapabilityUnavailable); }
      box := Remove(Daemon(box, log), id).box;
      forall q | q in old(box) && q != c.runId ensures old(box)[q].id != id {}
      assert box == old(box) - {c.runId};
      r := Ok(());
    }

    predicate Foreign(c: Claim)
      reads this
    {
      c.runId in box && box[c.runId].claim != c
    }

    /** Check, create, check, start; any failure stops and removes whatever this claim has under its name,
        and leaves a container of another claim alone. */
    method StartWorker(c: Claim, limits: WorkerLimits, cancelledBefore: bool, cancelledAfter: bool)
      returns (r: Result<RunId>)
      requires WellFormed(State())
      modifies this
      ensures WellFormed(State())
      ensures r.Ok? <==> !cancelledBefore && c.runId !in old(box) && !cancelledAfter
      ensures r.Ok? ==> box == old(box)[c.runId := Container(|old(log)|, c, limits, true)]
      ensures r.Err? ==> box == if old(Foreign(c)) then old(box) else old(box) - {c.runId}
      ensures r.Err? ==>
        (r.fault == CapabilityUnavailable <==> !cancelledBefore && c.runId in old(box) && !old(Foreign(c)))
      ensures r.Err? && r.fault != CapabilityUnavailable ==> r.fault == StaleClaim
    {
      if cancelledBefore || c.runId in box {
        var stopped := StopRemove(c);
        return Err(if cancelledBefore || stopped.Err? then StaleClaim else CapabilityUnavailable);
      }
      var id := |log|;
      box, log := Create(Daemon(box, log), c, limits).box, log + [c];
      if cancelledAfter {
        var _ := StopRemove(c);
        return Err(StaleClaim);
      }
      box := SetRunning(Daemon(box, log), id, true).box;
      assert box == old(box)[c.runId := Container(|old(log)|, c, limits, true)];
      r := Ok(c.runId);
    }
  }
}
