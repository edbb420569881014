/** Shared values of the scheduling port: run states, worker limits, the group
    budget, claims and the progress counter. */
module RuntimeContracts {

  datatype Option<+T> = None | Some(value: T)

  datatype Fault = InvalidContract | ResourceLimit | StaleClaim | DataRestricted | CapabilityUnavailable

  datatype Result<+T> = Ok(value: T) | Err(fault: Fault)

  /** Run identities are compared by their number, as the queue orders equal creation times. */
  datatype RunId = RunId(n: int)
  type Token = int

  datatype Status = Queued | Starting | Running | Succeeded | Failed | Cancelled {
    predicate Terminal() { Succeeded? || Failed? || Cancelled? }
    /** The two states that hold a resource reservation. */
    predicate Active() { Starting? || Running? }
  }

  datatype Claim = Claim(runId: RunId, token: Token, fence: nat)

  const MIB := 1024 * 1024
  const GIB := 1024 * MIB

  datatype WorkerLimits = WorkerLimits(
    cpuMillis: int, memoryBytes: int, pids: int, tmpBytes: int,
    fileBytes: int, wallSeconds: int, outputBytes: int, resultBytes: int)
  {
    /** What the constructor of the limits accepts. */
    predicate Accepted() {
      && 100 <= cpuMillis <= 4000
      && 128 * MIB <= memoryBytes <= 8 * GIB
      && 16 <= pids <= 256
      && 0 < wallSeconds <= 3600
      && 0 < resultBytes <= tmpBytes / 2
      && tmpBytes <= memoryBytes / 2
      && 0 < fileBytes <= tmpBytes
      && 0 < outputBytes <= 16 * MIB
    }
  }

  /** The five quantities one group budget limits. */
  datatype Usage = Usage(workers: int, cpuMillis: int, memoryBytes: int, pids: int, tmpBytes: int) {
    function Plus(l: WorkerLimits): Usage {
      Usage(workers + 1, cpuMillis + l.cpuMillis, memoryBytes + l.memoryBytes, pids + l.pids, tmpBytes + l.tmpBytes)
    }
    predicate AtMost(u: Usage) {
      && workers <= u.workers && cpuMillis <= u.cpuMillis && memoryBytes <= u.memoryBytes
      && pids <= u.pids && tmpBytes <= u.tmpBytes
    }
  }

  const NoUsage := Usage(0, 0, 0, 0, 0)

  function Total(limits: seq<WorkerLimits>): Usage {
    if limits == [] then NoUsage else Total(limits[..|limits| - 1]).Plus(limits[|limits| - 1])
  }

  datatype GroupBudget = GroupBudget(
    concurrency: int, cpuMillis: int, memoryBytes: int, pids: int, tmpBytes: int,
    reserveCpuMillis: int, reserveMemoryBytes: int, reservePids: int)
  {
    predicate Accepted() {
      && 0 < concurrency <= 256 && 0 < tmpBytes
      && 0 < reserveCpuMillis < cpuMillis
      && 0 < reserveMemoryBytes < memoryBytes
      && 0 < reservePids < pids
    }
    predicate Allows(u: Usage) {
      && u.workers <= concurrency
      && u.cpuMillis + reserveCpuMillis <= cpuMillis
      && u.memoryBytes + reserveMemoryBytes <= memoryBytes
      && u.pids + reservePids <= pids
      && u.tmpBytes <= tmpBytes
    }
    predicate Fits(limits: seq<WorkerLimits>) {
      Allows(Total(limits))
    }
  }

  // ---------------------------------------------------------------- the same, quantity by quantity

  function Sum(values: seq<int>): int {
    if values == [] then 0 else values[0] + Sum(values[1..])
  }

  function CpuMillis(limits: seq<WorkerLimits>): (r: seq<int>)
    ensures |r| == |limits| && forall i :: 0 <= i < |r| ==> r[i] == limits[i].cpuMillis
  {
    seq(|limits|, i requires 0 <= i < |limits| => limits[i].cpuMillis)
  }

  function MemoryBytes(limits: seq<WorkerLimits>): (r: seq<int>)
    ensures |r| == |limits| && forall i :: 0 <= i < |r| ==> r[i] == limits[i].memoryBytes
  {
    seq(|limits|, i requires 0 <= i < |limits| => limits[i].memoryBytes)
  }

  function Pids(limits: seq<WorkerLimits>): (r: seq<int>)
    ensures |r| == |limits| && forall i :: 0 <= i < |r| ==> r[i] == limits[i].pids
  {
    seq(|limits|, i requires 0 <= i < |limits| => limits[i].pids)
  }

  function TmpBytes(limits: seq<WorkerLimits>): (r: seq<int>)
    ensures |r| == |limits| && forall i :: 0 <= i < |r| ==> r[i] == limits[i].tmpBytes
  {
    seq(|limits|, i requires 0 <= i < |limits| => limits[i].tmpBytes)
  }

  lemma {:induction false} SumAppend(values: seq<int>, v: int)
    ensures Sum(values + [v]) == Sum(values) + v
    decreases |values|
  {
    if values == [] {
      assert (values + [v])[1..] == [];
    } else {
      assert (values + [v])[1..] == values[1..] + [v];
      SumAppend(values[1..], v);
    }
  }

  /** The running total is the number of workers and four plain sums. */
  lemma {:induction false} TotalIsSums(limits: seq<WorkerLimits>)
    ensures Total(limits) == Usage(
      |limits|, Sum(CpuMillis(limits)), Sum(MemoryBytes(limits)), Sum(Pids(limits)), Sum(TmpBytes(limits)))
    decreases |limits|
  {
    if limits != [] {
      var front, l := limits[..|limits| - 1], limits[|limits| - 1];
      TotalIsSums(front);
      assert CpuMillis(limits) == CpuMillis(front) + [l.cpuMillis];
      assert MemoryBytes(limits) == MemoryBytes(front) + [l.memoryBytes];
      assert Pids(limits) == Pids(front) + [l.pids];
      assert TmpBytes(limits) == TmpBytes(front) + [l.tmpBytes];
      SumAppend(CpuMillis(front), l.cpuMillis);
      SumAppend(MemoryBytes(front), l.memoryBytes);
      SumAppend(Pids(front), l.pids);
      SumAppend(TmpBytes(front), l.tmpBytes);
    }
  }

  /** A list of limits fits exactly when there are few enough workers and each of the four sums, with what
      is kept back for the control plane, stays within its bound. */
  lemma FitsExactly(budget: GroupBudget, limits: seq<WorkerLimits>)
    ensures budget.Fits(limits) <==>
      && |limits| <= budget.concurrency
      && Sum(CpuMillis(limits)) + budget.reserveCpuMillis <= budget.cpuMillis
      && Sum(MemoryBytes(limits)) + budget.reserveMemoryBytes <= budget.memoryBytes
      && Sum(Pids(limits)) + budget.reservePids <= budget.pids
      && Sum(TmpBytes(limits)) <= budget.tmpBytes
  {
    TotalIsSums(limits);
  }

  // ---------------------------------------------------------------- sums over a set of runs

  /** Usage of the runs in `ids`; the order of summation is irrelevant (LoadRemove). */
  ghost function Load(limits: map<RunId, WorkerLimits>, ids: set<RunId>): Usage
    requires ids <= limits.Keys
  {
    if ids == {} then NoUsage
    else var r :| r in ids; Load(limits, ids - {r}).Plus(limits[r])
  }

  lemma {:induction false} LoadRemove(limits: map<RunId, WorkerLimits>, ids: set<RunId>, r: RunId)
    requires ids <= limits.Keys && r in ids
    ensures Load(limits, ids) == Load(limits, ids - {r}).Plus(limits[r])
    decreases |ids|
  {
    var p :| p in ids && Load(limits, ids) == Load(limits, ids - {p}).Plus(limits[p]);
    if p != r {
      LoadRemove(limits, ids - {p}, r);
      LoadRemove(limits, ids - {r}, p);
      assert ids - {p} - {r} == ids - {r} - {p};
      PlusCommutes(Load(limits, ids - {p} - {r}), limits[r], limits[p]);
    }
  }

  lemma PlusCommutes(u: Usage, a: WorkerLimits, b: WorkerLimits)
    ensures u.Plus(a).Plus(b) == u.Plus(b).Plus(a)
  {
  }

  /** The list a query returns has the usage of the set it enumerates. */
  lemma {:induction false} TotalIsLoad(limits: map<RunId, WorkerLimits>, ids: set<RunId>, order: seq<RunId>)
    requires ids <= limits.Keys
    requires forall r :: r in ids <==> r in order
    requires forall i, j :: 0 <= i < j < |order| ==> order[i] != order[j]
    ensures Total(seq(|order|, i requires 0 <= i < |order| => limits[order[i]])) == Load(limits, ids)
    decreases |order|
  {
    var values := seq(|order|, i requires 0 <= i < |order| => limits[order[i]]);
    if order == [] {
      assert ids == {};
    } else {
      var n := |order| - 1;
      var last := order[n];
      var front := order[..n];
      assert order == front + [last];
      TotalIsLoad(limits, ids - {last}, front);
      assert values[..n] == seq(n, i requires 0 <= i < n => limits[front[i]]);
      LoadRemove(limits, ids, last);
    }
  }

  /** What a set of runs uses is within the budget exactly when any list of their limits fits it. */
  lemma LoadFits(
      limits: map<RunId, WorkerLimits>, ids: set<RunId>, order: seq<RunId>, values: seq<WorkerLimits>,
      budget: GroupBudget)
    requires ids <= limits.Keys
    requires forall r :: r in ids <==> r in order
    requires forall i, j :: 0 <= i < j < |order| ==> order[i] != order[j]
    requires |values| == |order| && forall i :: 0 <= i < |order| ==> values[i] == limits[order[i]]
    ensures Load(limits, ids) == Total(values)
    ensures budget.Allows(Load(limits, ids)) <==> budget.Fits(values)
  {
    TotalIsLoad(limits, ids, order);
    assert values == seq(|order|, i requires 0 <= i < |order| => limits[order[i]]);
  }

  lemma {:induction false} LoadMonotone(limits: map<RunId, WorkerLimits>, small: set<RunId>, big: set<RunId>)
    requires small <= big <= limits.Keys
    requires forall r :: r in big ==> limits[r].Accepted()
    ensures NoUsage.AtMost(Load(limits, small)) && Load(limits, small).AtMost(Load(limits, big))
    decreases |big|
  {
    if big != {} {
      if r :| r in small {
        LoadMonotone(limits, small - {r}, big - {r});
        LoadRemove(limits, small, r);
        LoadRemove(limits, big, r);
      } else {
        var r :| r in big;
        LoadMonotone(limits, {}, big - {r});
        LoadRemove(limits, big, r);
        assert small == {};
      }
    }
  }

  /** Load only looks at the limits of the runs it sums. */
  lemma {:induction false} LoadFrame(a: map<RunId, WorkerLimits>, b: map<RunId, WorkerLimits>, ids: set<RunId>)
    requires ids <= a.Keys && ids <= b.Keys
    requires forall r :: r in ids ==> a[r] == b[r]
    ensures Load(a, ids) == Load(b, ids)
    decreases |ids|
  {
    if r :| r in ids {
      LoadFrame(a, b, ids - {r});
      LoadRemove(a, ids, r);
      LoadRemove(b, ids, r);
    }
  }

  // ---------------------------------------------------------------- progress

  datatype Progress = Progress(events: int, sessions: int, nowNs: int)

  const COUNTER_LIMIT := 0x20_0000_0000_0000
  const NS_LIMIT := 0x8000_0000_0000_0000

  /** One bounded counter: in range, and never behind the previous one. */
  function CheckedProgress(value: Progress, previous: Option<Progress>): (r: Result<Progress>)
  {
    if !(0 <= value.events < COUNTER_LIMIT && 0 <= value.sessions < COUNTER_LIMIT) then Err(InvalidContract)
    else if !(-NS_LIMIT <= value.nowNs < NS_LIMIT) then Err(InvalidContract)
    else if previous.Some? && (value.events < previous.value.events || value.sessions < previous.value.sessions
                               || value.nowNs < previous.value.nowNs) then Err(InvalidContract)
    else Ok(value)
  }
}
