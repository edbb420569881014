/** The dependency checks of a run against concurrent writers, one read at a time. A capture begins, reads
    its names one after another, compares, and ends; writers come in between. Declarations and checks read
    from the snapshot of their first query; the final commit reads the latest committed rows, after it has
    locked the catalog tables against writers. */
module SnapshotProtocol {
  import opened RuntimeContracts
  import opened Dependencies
  import Lookback

  datatype Goal = Declaring(name: Name) | Checking | Finalizing

  /** A capture in progress: the snapshot it reads from, if any, and what it has read so far. */
  datatype Reading = Reading(goal: Goal, frozen: Option<Catalog>, locked: bool, states: Captures)

  /** `cached` are window rows, `buffered` replay rows, `exposed` rows given to the run. */
  datatype World = World(
    catalog: Catalog, captures: Captures, reading: Option<Reading>,
    cached: set<Row>, buffered: set<Row>, exposed: set<Row>, closed: bool, committed: bool)

  /** How the final capture runs: from a snapshot of its first query or not, under the table lock or not. */
  datatype System = System(bindings: Bindings, frozen: bool, lock: bool) {
    /** The gateway's choice: latest rows, read under the lock. */
    predicate Guarded() { lock && !frozen }
  }

  datatype Action =
    | Write(id: DatasetId, next: Dataset)
    | Begin(goal: Goal)
    | Lock
    | ReadOne(name: Name)
    | End
    | Mismatch
    | Abandon
    | ReadPage(name: Name, rows: set<Row>, replay: bool)
    | Expose(row: Row)
    | Close

  /** The names a capture reads: everything captured before, and the name being declared. */
  function Wanted(w: World, goal: Goal): set<Name> {
    w.captures.Keys + if goal.Declaring? then {goal.name} else {}
  }

  /** What a query of the capture in progress sees. */
  function Seen(w: World): Catalog {
    if w.reading.Some? && w.reading.value.frozen.Some? then w.reading.value.frozen.value else w.catalog
  }

  predicate AllRead(w: World) {
    w.reading.Some? && Wanted(w, w.reading.value.goal) <= w.reading.value.states.Keys
  }

  predicate Agree(w: World) {
    w.reading.Some? && forall n :: n in w.captures && n in w.reading.value.states ==>
      w.reading.value.states[n] == w.captures[n]
  }

  /** The final capture reads only once the lock it is told to take is held. */
  predicate MayRead(sys: System, r: Reading) {
    r.goal.Finalizing? && sys.lock ==> r.locked
  }

  predicate CanRead(sys: System, w: World, name: Name) {
    && w.reading.Some? && MayRead(sys, w.reading.value)
    && name in Wanted(w, w.reading.value.goal) && name in sys.bindings
    && CaptureOne(Seen(w), sys.bindings[name], Previous(w.captures, name)).Good?
  }

  predicate CanEnd(sys: System, w: World) {
    w.reading.Some? && MayRead(sys, w.reading.value) && AllRead(w) && Agree(w)
  }

  predicate CanBegin(sys: System, w: World, goal: Goal) {
    !w.closed && w.reading.None? && (goal.Declaring? ==> Usable(sys.bindings, goal.name))
  }

  /** The store's own gate: it only returns rows of the generation it was told to expect. */
  predicate Readable(sys: System, w: World, name: Name) {
    && name in w.captures && name in sys.bindings
    && var id := sys.bindings[name].dataset;
       id in w.catalog && w.catalog[id].present && w.catalog[id].generation == w.captures[name].generation
  }

  predicate CanWrite(w: World, id: DatasetId, next: Dataset) {
    && (w.reading.Some? ==> !w.reading.value.locked)
    && (id in w.catalog ==> w.catalog[id].generation <= next.generation)
  }

  predicate OfName(w: World, name: Name, rows: set<Row>) {
    forall r :: r in rows ==> r.name == name && name in w.captures && r.generation == w.captures[name].generation
  }

  predicate Enabled(sys: System, w: World, a: Action) {
    match a
    case Write(id, next) => CanWrite(w, id, next)
    case Begin(goal) => CanBegin(sys, w, goal)
    case Lock => sys.lock && w.reading.Some? && w.reading.value.goal.Finalizing? && w.reading.value.states == map[]
    case ReadOne(name) => CanRead(sys, w, name)
    case End => CanEnd(sys, w)
    case Mismatch => w.reading.Some? && AllRead(w) && !Agree(w)
    case Abandon => w.reading.Some?
    case ReadPage(name, rows, _) => w.reading.None? && !w.closed && Readable(sys, w, name) && OfName(w, name, rows)
    case Expose(row) => w.reading.None? && !w.closed && row in w.cached + w.buffered
    case Close => w.reading.None?
  }

  function Begun(sys: System, w: World, goal: Goal): Reading {
    Reading(goal, if goal.Finalizing? && !sys.frozen then None else Some(w.catalog), false, map[])
  }

  function ReadNext(sys: System, w: World, name: Name): World
    requires CanRead(sys, w, name)
  {
    var one := CaptureOne(Seen(w), sys.bindings[name], Previous(w.captures, name)).value;
    w.(reading := Some(w.reading.value.(states := w.reading.value.states[name := one])))
  }

  function Ended(sys: System, w: World): World
    requires CanEnd(sys, w)
  {
    match w.reading.value.goal
    case Declaring(n) => w.(reading := None, captures := w.captures[n := w.reading.value.states[n]])
    case Checking => w.(reading := None)
    case Finalizing => w.(reading := None, committed := true)
  }

  function Step(sys: System, w: World, a: Action): World
    requires Enabled(sys, w, a)
  {
    match a
    case Write(id, next) => w.(catalog := w.catalog[id := next])
    case Begin(goal) => w.(reading := Some(Begun(sys, w, goal)))
    case Lock => w.(reading := Some(w.reading.value.(locked := true)))
    case ReadOne(name) => ReadNext(sys, w, name)
    case End => Ended(sys, w)
    case Mismatch => w.(reading := None, cached := if w.reading.value.goal.Checking? then {} else w.cached)
    case Abandon => w.(reading := None)
    case ReadPage(_, rows, replay) =>
      if replay then w.(buffered := w.buffered + rows) else w.(cached := w.cached + rows)
    case Expose(row) => w.(exposed := w.exposed + {row})
    case Close => w.(closed := true)
  }

  ghost predicate OneStep(sys: System, w: World, a: Action, w': World) {
    Enabled(sys, w, a) && w' == Step(sys, w, a)
  }

  predicate Initial(w: World) {
    && w.captures == map[] && w.reading.None? && w.cached == {} && w.buffered == {} && w.exposed == {}
    && !w.closed && !w.committed
  }

  ghost predicate Run(sys: System, ws: seq<World>, acts: seq<Action>) {
    && |ws| == |acts| + 1 && Initial(ws[0])
    && forall k :: 0 <= k < |acts| ==> OneStep(sys, ws[k], acts[k], ws[k + 1])
  }

  /** What the theorems quantify over leaves nobody's hands tied: a writer changes any dataset to anything
      that does not lower its generation, at any moment at which no capture holds the table lock. */
  lemma WritersMayWrite(sys: System, w: World, id: DatasetId, next: Dataset)
    requires w.reading.None? || !w.reading.value.locked
    requires id in w.catalog ==> w.catalog[id].generation <= next.generation
    ensures Enabled(sys, w, Write(id, next))
  {
  }

  /** An open and idle run declares any usable name, checks, finalizes, reads and exposes rows. */
  lemma IdleRunsMayAct(sys: System, w: World, name: Name, row: Row)
    requires w.reading.None? && !w.closed
    ensures Enabled(sys, w, Begin(Checking)) && Enabled(sys, w, Begin(Finalizing)) && Enabled(sys, w, Close)
    ensures name in sys.bindings && !sys.bindings[name].unavailable ==> Enabled(sys, w, Begin(Declaring(name)))
    ensures row in w.cached || row in w.buffered ==> Enabled(sys, w, Expose(row))
  {
  }

  lemma RowsMayBeRead(sys: System, w: World, name: Name, rows: set<Row>, replay: bool)
    requires w.reading.None? && !w.closed && name in w.captures && name in sys.bindings
    requires sys.bindings[name].dataset in w.catalog && w.catalog[sys.bindings[name].dataset].present
    requires w.catalog[sys.bindings[name].dataset].generation == w.captures[name].generation
    requires forall r :: r in rows ==> r.name == name && r.generation == w.captures[name].generation
    ensures Enabled(sys, w, ReadPage(name, rows, replay))
  {
  }

  /** A capture may be given up at any moment, and the final one take the lock before it reads. */
  lemma CapturesMayEnd(sys: System, w: World)
    requires w.reading.Some?
    ensures Enabled(sys, w, Abandon)
    ensures w.reading.value.goal == Finalizing && sys.lock && w.reading.value.states == map[] ==> Enabled(sys, w, Lock)
  {
  }

  // ---------------------------------------------------------------- what every step keeps

  function Generation(sys: System, catalog: Catalog, name: Name): int {
    if name in sys.bindings && sys.bindings[name].dataset in catalog
    then catalog[sys.bindings[name].dataset].generation else -1
  }

  ghost predicate Provenance(w: World, rows: set<Row>) {
    forall r :: r in rows ==> r.name in w.captures && r.generation == w.captures[r.name].generation
  }

  /** Datasets are never forgotten and their generations only grow. */
  ghost predicate Older(c: Catalog, d: Catalog) {
    forall id :: id in c ==> id in d && c[id].generation <= d[id].generation
  }

  /** What was read is still what a query of this capture would see. */
  ghost predicate Coherent(sys: System, w: World, r: Reading) {
    forall n :: n in r.states && n in sys.bindings ==>
      CaptureOne(Seen(w), sys.bindings[n], Previous(w.captures, n)) == Good(r.states[n])
  }

  ghost predicate ReadingOk(sys: System, w: World, r: Reading) {
    && (r.goal.Declaring? ==> r.goal.name in sys.bindings)
    && (r.frozen.None? ==> r.goal.Finalizing? && !sys.frozen)
    && (r.frozen.Some? ==> Older(r.frozen.value, w.catalog))
    && (r.frozen.Some? || sys.lock ==> Coherent(sys, w, r))
    && (sys.lock && r.frozen.None? && r.states != map[] ==> r.locked)
  }

  ghost predicate Inv(sys: System, w: World) {
    && w.captures.Keys <= sys.bindings.Keys
    && Provenance(w, w.cached) && Provenance(w, w.buffered) && Provenance(w, w.exposed)
    && (forall n :: n in w.captures ==> w.captures[n].generation <= Generation(sys, w.catalog, n))
    && (w.reading.Some? ==> ReadingOk(sys, w, w.reading.value))
  }

  ghost predicate Extends(sys: System, w: World, w': World) {
    && Older(w.catalog, w'.catalog)
    && (forall n :: n in w.captures ==> n in w'.captures && w'.captures[n] == w.captures[n])
  }

  lemma WriteKeeps(sys: System, w: World, id: DatasetId, next: Dataset)
    requires Inv(sys, w) && CanWrite(w, id, next)
    ensures Inv(sys, Step(sys, w, Write(id, next))) && Older(w.catalog, w.catalog[id := next])
  {
    var w' := Step(sys, w, Write(id, next));
    if w.reading.Some? {
      var r := w.reading.value;
      if r.frozen.Some? {
        assert Seen(w') == Seen(w);
      } else {
        assert sys.lock ==> r.states == map[];
      }
    }
  }

  lemma ReadKeeps(sys: System, w: World, name: Name)
    requires Inv(sys, w) && CanRead(sys, w, name)
    ensures Inv(sys, ReadNext(sys, w, name))
  {
    var w' := ReadNext(sys, w, name);
    assert Seen(w') == Seen(w) && w'.captures == w.captures && w'.catalog == w.catalog;
  }

  /** What a finished capture has found holds in the catalog it saw. */
  lemma EndHolds(sys: System, w: World)
    requires Inv(sys, w) && CanEnd(sys, w) && (w.reading.value.frozen.Some? || sys.lock)
    ensures AllHold(sys.bindings, Seen(w), Ended(sys, w).captures)
    ensures w.reading.value.goal.Declaring? ==>
      var n := w.reading.value.goal.name;
      CaptureOne(Seen(w), sys.bindings[n], Previous(w.captures, n)) == Good(Ended(sys, w).captures[n])
  {
    var r, after := w.reading.value, Ended(sys, w).captures;
    assert Coherent(sys, w, r);
    forall n | n in after
      ensures n in sys.bindings && Holds(Seen(w), sys.bindings[n], after[n])
    {
      assert n in Wanted(w, r.goal) && n in r.states;
      assert CaptureOne(Seen(w), sys.bindings[n], Previous(w.captures, n)) == Good(after[n]);
    }
  }

  /** A capture never runs ahead of its dataset. */
  lemma CapturedIsReached(sys: System, w: World, n: Name)
    requires Inv(sys, w) && CanEnd(sys, w) && n in Ended(sys, w).captures
    ensures n in sys.bindings && Ended(sys, w).captures[n].generation <= Generation(sys, w.catalog, n)
  {
    if n !in w.captures {
      EndHolds(sys, w);
      assert Holds(Seen(w), sys.bindings[n], Ended(sys, w).captures[n]);
      assert sys.bindings[n].dataset in Seen(w) && Older(Seen(w), w.catalog);
    }
  }

  lemma EndKeeps(sys: System, w: World)
    requires Inv(sys, w) && CanEnd(sys, w)
    ensures Inv(sys, Ended(sys, w)) && Extends(sys, w, Ended(sys, w))
  {
    var w' := Ended(sys, w);
    assert forall n :: n in w.captures ==> n in w'.captures && w'.captures[n] == w.captures[n];
    forall n | n in w'.captures
      ensures n in sys.bindings && w'.captures[n].generation <= Generation(sys, w'.catalog, n)
    {
      CapturedIsReached(sys, w, n);
    }
  }

  /** Against any writer, and one read at a time: captures stay, generations only grow, buffered and
      exposed rows carry their binding's captured generation, and what a capture in progress has read is
      still what its queries see. */
  lemma StepKeepsInv(sys: System, w: World, a: Action)
    requires Inv(sys, w) && Enabled(sys, w, a)
    ensures Inv(sys, Step(sys, w, a)) && Extends(sys, w, Step(sys, w, a))
  {
    match a
    case Write(id, next) => WriteKeeps(sys, w, id, next);
    case ReadOne(name) => ReadKeeps(sys, w, name);
    case End => EndKeeps(sys, w);
    case _ =>
  }

  lemma OneMoreStep(sys: System, ws: seq<World>, acts: seq<Action>, i: nat, j: nat)
    requires Run(sys, ws, acts) && i < j < |ws| && Inv(sys, ws[j - 1]) && Extends(sys, ws[i], ws[j - 1])
    ensures Inv(sys, ws[j]) && Extends(sys, ws[i], ws[j])
  {
    assert OneStep(sys, ws[j - 1], acts[j - 1], ws[j]);
    StepKeepsInv(sys, ws[j - 1], acts[j - 1]);
  }

  lemma {:induction false} RunKeepsInv(sys: System, ws: seq<World>, acts: seq<Action>, i: nat, j: nat)
    requires Run(sys, ws, acts) && i <= j < |ws|
    ensures Inv(sys, ws[j]) && Extends(sys, ws[i], ws[j])
    decreases j
  {
    if j > 0 {
      RunKeepsInv(sys, ws, acts, if i < j then i else j - 1, j - 1);
      OneMoreStep(sys, ws, acts, if i < j then i else j - 1, j);
    }
  }

  // ---------------------------------------------------------------- one moment for every success

  /** The capture in progress at k began just before m, and its snapshot, if it has one, is of then. */
  ghost predicate CaptureOf(ws: seq<World>, acts: seq<Action>, m: nat, k: nat)
    requires |ws| == |acts| + 1
  {
    && 1 <= m <= k < |ws| && ws[k].reading.Some?
    && acts[m - 1] == Begin(ws[k].reading.value.goal)
    && ws[m].captures == ws[k].captures
    && (forall q :: m <= q <= k ==> ws[q].reading.Some?)
    && (ws[k].reading.value.frozen.Some? ==> ws[k].reading.value.frozen.value == ws[m].catalog)
  }

  lemma {:induction false} CaptureBegan(sys: System, ws: seq<World>, acts: seq<Action>, k: nat)
    requires Run(sys, ws, acts) && k < |ws| && ws[k].reading.Some?
    ensures exists m :: CaptureOf(ws, acts, m, k)
  {
    assert k > 0;
    assert OneStep(sys, ws[k - 1], acts[k - 1], ws[k]);
    if ws[k - 1].reading.None? {
      assert CaptureOf(ws, acts, k, k);
    } else {
      CaptureBegan(sys, ws, acts, k - 1);
      var m :| CaptureOf(ws, acts, m, k - 1);
      assert CaptureOf(ws, acts, m, k);
    }
  }

  /** Every successful declaration and check of any run has one moment, within the call, at which all
      captured generations and readability labels held together, however its reads were spread out. */
  lemma SuccessHasOneMoment(sys: System, ws: seq<World>, acts: seq<Action>, k: nat)
    requires Run(sys, ws, acts) && k < |acts| && acts[k] == End
    requires ws[k].reading.Some? && !ws[k].reading.value.goal.Finalizing?
    ensures exists m: nat :: CaptureOf(ws, acts, m, k) && AllHold(sys.bindings, ws[m].catalog, ws[k + 1].captures)
  {
    RunKeepsInv(sys, ws, acts, k, k);
    assert OneStep(sys, ws[k], acts[k], ws[k + 1]);
    EndHolds(sys, ws[k]);
    CaptureBegan(sys, ws, acts, k);
    var m :| CaptureOf(ws, acts, m, k);
  }

  /** The step by which the final capture succeeds, and the outcome is committed. */
  predicate CommitsAt(ws: seq<World>, acts: seq<Action>, j: nat) {
    && j < |acts| && j < |ws| && acts[j] == End
    && ws[j].reading.Some? && ws[j].reading.value.goal.Finalizing?
  }

  /** All captures hold together in the catalog of the commit itself, whatever waited for the lock. */
  lemma CommitHoldsNow(sys: System, ws: seq<World>, acts: seq<Action>, j: nat)
    requires Run(sys, ws, acts) && sys.Guarded() && CommitsAt(ws, acts, j)
    ensures AllHold(sys.bindings, ws[j + 1].catalog, ws[j + 1].captures)
    ensures ws[j + 1].catalog == ws[j].catalog && ws[j + 1].captures == ws[j].captures
    ensures var catalog, captures := ws[j + 1].catalog, ws[j + 1].captures;
      forall n :: n in captures ==>
        && n in sys.bindings && sys.bindings[n].dataset in catalog
        && var d, c := catalog[sys.bindings[n].dataset], captures[n];
        && d.present && !d.restricted && d.spec == sys.bindings[n].spec && d.generation == c.generation
        && c.readability.spec == d.spec && c.readability.issues == d.issues && c.readability.overflow == d.overflow
  {
    RunKeepsInv(sys, ws, acts, j, j);
    assert OneStep(sys, ws[j], acts[j], ws[j + 1]);
    UnfrozenFinal(sys, ws, acts, j);
    EndHolds(sys, ws[j]);
  }

  lemma {:induction false} UnfrozenFinal(sys: System, ws: seq<World>, acts: seq<Action>, k: nat)
    requires Run(sys, ws, acts) && k < |ws| && !sys.frozen
    ensures ws[k].reading.Some? && ws[k].reading.value.goal.Finalizing? ==> ws[k].reading.value.frozen.None?
  {
    if k > 0 {
      UnfrozenFinal(sys, ws, acts, k - 1);
      assert OneStep(sys, ws[k - 1], acts[k - 1], ws[k]);
    }
  }

  /** A snapshot decides by itself: a declaration or check gets through its reads and its comparison
      exactly when all captures hold in the snapshot, whatever the writers do meanwhile. */
  lemma SnapshotDecides(sys: System, w: World)
    requires Inv(sys, w) && w.reading.Some? && !w.reading.value.goal.Finalizing?
    ensures AllRead(w) ==> (CanEnd(sys, w) <==> AllHold(sys.bindings, Seen(w), w.captures))
    ensures AllHold(sys.bindings, Seen(w), w.captures) ==> forall n :: n in w.captures ==> CanRead(sys, w, n)
  {
    var r := w.reading.value;
    assert Coherent(sys, w, r);
    if AllRead(w) {
      forall n | n in w.captures
        ensures r.states[n] == w.captures[n] <==> Holds(Seen(w), sys.bindings[n], w.captures[n])
      {
        assert n in Wanted(w, r.goal) && n in r.states && n in sys.bindings;
      }
    }
    if AllHold(sys.bindings, Seen(w), w.captures) {
      forall n | n in w.captures
        ensures CanRead(sys, w, n)
      {
        assert n in Wanted(w, r.goal) && Holds(Seen(w), sys.bindings[n], w.captures[n]);
      }
    }
  }

  // ---------------------------------------------------------------- whole runs

  /** When the final commit succeeds, no dataset the run had declared changed its generation at any
      moment since it was declared, against any writers. */
  lemma GenerationsStoodStill(
      sys: System, ws: seq<World>, acts: seq<Action>, i: nat, k: nat, j: nat, name: Name)
    requires Run(sys, ws, acts) && sys.Guarded() && CommitsAt(ws, acts, j)
    requires i <= k <= j && name in ws[i].captures
    ensures Generation(sys, ws[k].catalog, name) == ws[i].captures[name].generation
    ensures name in ws[j].captures && ws[j].captures[name] == ws[i].captures[name]
    ensures name in sys.bindings && sys.bindings[name].dataset in ws[k].catalog
    ensures ws[k].catalog[sys.bindings[name].dataset].generation == ws[i].captures[name].generation
  {
    RunKeepsInv(sys, ws, acts, i, k);
    RunKeepsInv(sys, ws, acts, k, j);
    RunKeepsInv(sys, ws, acts, i, j);
    CommitHoldsNow(sys, ws, acts, j);
    assert Holds(ws[j].catalog, sys.bindings[name], ws[j].captures[name]);
    assert Extends(sys, ws[i], ws[k]) && ws[k].captures[name] == ws[i].captures[name];
    GenerationGrows(sys, ws[k].catalog, ws[j].catalog, name);
  }

  lemma GenerationGrows(sys: System, c: Catalog, d: Catalog, name: Name)
    requires Older(c, d)
    ensures Generation(sys, c, name) <= Generation(sys, d, name)
  {
  }

  /** When the final commit succeeds, every row the run was ever given, from the store or from a
      buffer, is a row of the generation that is current at the commit. */
  lemma CommittedRowsAreCurrent(sys: System, ws: seq<World>, acts: seq<Action>, j: nat, row: Row)
    requires Run(sys, ws, acts) && sys.Guarded() && CommitsAt(ws, acts, j) && row in ws[j].exposed
    ensures row.name in ws[j].captures && row.generation == Generation(sys, ws[j + 1].catalog, row.name)
    ensures row.name in sys.bindings && sys.bindings[row.name].dataset in ws[j + 1].catalog
    ensures row.generation == ws[j + 1].catalog[sys.bindings[row.name].dataset].generation
  {
    RunKeepsInv(sys, ws, acts, j, j);
    CommitHoldsNow(sys, ws, acts, j);
    assert Holds(ws[j].catalog, sys.bindings[row.name], ws[j].captures[row.name]);
  }

  lemma StaleStaysStale(sys: System, ws: seq<World>, acts: seq<Action>, i: nat, k: nat, name: Name)
    requires Run(sys, ws, acts) && i <= k < |ws|
    requires name in ws[i].captures && Generation(sys, ws[i].catalog, name) != ws[i].captures[name].generation
    ensures name in ws[k].captures && ws[k].captures[name] == ws[i].captures[name]
    ensures Generation(sys, ws[k].catalog, name) > ws[k].captures[name].generation
  {
    RunKeepsInv(sys, ws, acts, i, i);
    RunKeepsInv(sys, ws, acts, i, k);
    GenerationGrows(sys, ws[i].catalog, ws[k].catalog, name);
  }

  /** Once a declared dataset has moved on, nothing begun from then on succeeds any more: no declaration
      of any name, no check, no read of that dataset; and no commit, whenever its capture began. */
  lemma StaleRunCannotGoOn(sys: System, ws: seq<World>, acts: seq<Action>, i: nat, k: nat, name: Name)
    requires Run(sys, ws, acts) && sys.Guarded() && i <= k < |acts|
    requires name in ws[i].captures && Generation(sys, ws[i].catalog, name) != ws[i].captures[name].generation
    ensures ws[i].reading.None? ==> acts[k] != End
    ensures !CommitsAt(ws, acts, k)
    ensures acts[k].ReadPage? ==> acts[k].name != name
  {
    assert OneStep(sys, ws[k], acts[k], ws[k + 1]);
    StaleStaysStale(sys, ws, acts, i, k, name);
    if CommitsAt(ws, acts, k) {
      GenerationsStoodStill(sys, ws, acts, i, i, k, name);
    } else if acts[k] == End && ws[i].reading.None? {
      SuccessHasOneMoment(sys, ws, acts, k);
      var m: nat :| CaptureOf(ws, acts, m, k) && AllHold(sys.bindings, ws[m].catalog, ws[k + 1].captures);
      assert i < m;
      StaleStaysStale(sys, ws, acts, i, m, name);
      StaleStaysStale(sys, ws, acts, i, k + 1, name);
    }
  }

  // ---------------------------------------------------------------- why the final capture takes the lock

  /** Every commit is a commit of captures that hold at that very moment. */
  ghost predicate CommitsAreCurrent(frozen: bool, lock: bool) {
    forall bindings: Bindings, ws: seq<World>, acts: seq<Action>, j: nat ::
      Run(System(bindings, frozen, lock), ws, acts) && CommitsAt(ws, acts, j) ==>
        AllHold(bindings, ws[j + 1].catalog, ws[j + 1].captures)
  }

  const ID := DatasetId(0)
  const BOUND := Lookback.Name(0)

  function Only(d: Dataset): Catalog { map[ID := d] }

  function Label(d: Dataset): Captured { Captured(d.generation, Readability(d.spec, d.issues, d.overflow)) }

  function Bound(d: Dataset): Bindings { map[BOUND := Binding(ID, d.spec, false)] }

  /** A run that has captured d, while the catalog shows `now`. */
  function Holding(d: Dataset, now: Dataset, reading: Option<Reading>): World {
    World(Only(now), map[BOUND := Label(d)], reading, {}, {}, {}, false, false)
  }

  /** The first four worlds of a run that declares d. */
  function Declared(d: Dataset): seq<World> {
    var w := World(Only(d), map[], None, {}, {}, {}, false, false);
    var r := Reading(Declaring(BOUND), Some(Only(d)), false, map[]);
    [w, w.(reading := Some(r)), w.(reading := Some(r.(states := map[BOUND := Label(d)]))), Holding(d, d, None)]
  }

  const DECLARE := [Begin(Declaring(BOUND)), ReadOne(BOUND), End]

  predicate Open(d: Dataset) { d.present && !d.restricted }

  lemma DeclaredRuns(d: Dataset, sys: System)
    requires Open(d) && sys.bindings == Bound(d)
    ensures forall k :: 0 <= k < 3 ==> OneStep(sys, Declared(d)[k], DECLARE[k], Declared(d)[k + 1])
  {
    var ws := Declared(d);
    assert CaptureOne(Only(d), sys.bindings[BOUND], None) == Good(Label(d));
    assert OneStep(sys, ws[0], DECLARE[0], ws[1]);
    assert OneStep(sys, ws[1], DECLARE[1], ws[2]);
    assert ws[2].captures[BOUND := Label(d)] == ws[3].captures;
    assert OneStep(sys, ws[2], DECLARE[2], ws[3]);
  }

  const OLD := Dataset(true, 1, Spec(0, 0), false, 0, 0)
  const NEW := Dataset(true, 2, Spec(0, 0), false, 0, 0)

  function Final(frozen: bool, locked: bool, states: Captures): Option<Reading> {
    Some(Reading(Finalizing, if frozen then Some(Only(OLD)) else None, locked, states))
  }

  /** Without the lock a dataset can move on after its row was read. */
  lemma UnlockedFinalMisses(frozen: bool)
    ensures !CommitsAreCurrent(frozen, false)
  {
    var sys := System(Bound(OLD), frozen, false);
    var caps := map[BOUND := Label(OLD)];
    var ws := Declared(OLD) + [
      Holding(OLD, OLD, Final(frozen, false, map[])), Holding(OLD, OLD, Final(frozen, false, caps)),
      Holding(OLD, NEW, Final(frozen, false, caps)), Holding(OLD, NEW, None).(committed := true)];
    var acts := DECLARE + [Begin(Finalizing), ReadOne(BOUND), Write(ID, NEW), End];
    DeclaredRuns(OLD, sys);
    assert OneStep(sys, ws[3], acts[3], ws[4]);
    assert OneStep(sys, ws[4], acts[4], ws[5]);
    assert Only(OLD)[ID := NEW] == Only(NEW);
    assert OneStep(sys, ws[5], acts[5], ws[6]);
    assert OneStep(sys, ws[6], acts[6], ws[7]);
    assert Run(sys, ws, acts) && CommitsAt(ws, acts, 6);
    assert !Holds(ws[7].catalog, sys.bindings[BOUND], ws[7].captures[BOUND]);
  }

  /** The final capture waits for a writer, with the snapshot it took before. */
  lemma FrozenWaits(sys: System)
    requires sys == System(Bound(OLD), true, true)
    ensures var w := Holding(OLD, OLD, None);
      && OneStep(sys, w, Begin(Finalizing), Holding(OLD, OLD, Final(true, false, map[])))
      && OneStep(sys, Holding(OLD, OLD, Final(true, false, map[])), Write(ID, NEW),
                 Holding(OLD, NEW, Final(true, false, map[])))
      && OneStep(sys, Holding(OLD, NEW, Final(true, false, map[])), Lock, Holding(OLD, NEW, Final(true, true, map[])))
  {
    assert Only(OLD)[ID := NEW] == Only(NEW);
  }

  lemma FrozenReads(sys: System)
    requires sys == System(Bound(OLD), true, true)
    ensures var r := Final(true, true, map[BOUND := Label(OLD)]);
      && OneStep(sys, Holding(OLD, NEW, Final(true, true, map[])), ReadOne(BOUND), Holding(OLD, NEW, r))
      && OneStep(sys, Holding(OLD, NEW, r), End, Holding(OLD, NEW, None).(committed := true))
  {
  }

  /** With the lock, but from the snapshot of a query before it, the writer waited for is not seen. */
  lemma FrozenFinalMisses()
    ensures !CommitsAreCurrent(true, true)
  {
    var sys := System(Bound(OLD), true, true);
    var ws := Declared(OLD) + [
      Holding(OLD, OLD, Final(true, false, map[])), Holding(OLD, NEW, Final(true, false, map[])),
      Holding(OLD, NEW, Final(true, true, map[])),
      Holding(OLD, NEW, Final(true, true, map[BOUND := Label(OLD)])),
      Holding(OLD, NEW, None).(committed := true)];
    var acts := DECLARE + [Begin(Finalizing), Write(ID, NEW), Lock, ReadOne(BOUND), End];
    DeclaredRuns(OLD, sys);
    FrozenWaits(sys);
    FrozenReads(sys);
    assert Run(sys, ws, acts) && CommitsAt(ws, acts, 7);
    assert !Holds(ws[8].catalog, sys.bindings[BOUND], ws[8].captures[BOUND]);
  }

  /** One row of the dataset, as it was declared. */
  const ROW := Row(BOUND, 1, 7)

  function WithRow(w: World, exposed: bool): World {
    w.(cached := {ROW}, exposed := if exposed then {ROW} else {})
  }

  function CheckReading(states: Captures, catalog: Catalog): Option<Reading> {
    Some(Reading(Checking, Some(catalog), false, states))
  }

  lemma RowIsRead(sys: System)
    requires sys == System(Bound(OLD), false, true)
    ensures OneStep(sys, Holding(OLD, OLD, None), ReadPage(BOUND, {ROW}, false),
                    WithRow(Holding(OLD, OLD, None), false))
    ensures OneStep(sys, WithRow(Holding(OLD, OLD, None), false), Expose(ROW), WithRow(Holding(OLD, OLD, None), true))
  {
    assert {} + {ROW} == {ROW};
  }

  lemma CheckSucceeds(sys: System)
    requires sys == System(Bound(OLD), false, true)
    ensures var none, some := CheckReading(map[], Only(OLD)), CheckReading(map[BOUND := Label(OLD)], Only(OLD));
      && OneStep(sys, WithRow(Holding(OLD, OLD, None), true), Begin(Checking), WithRow(Holding(OLD, OLD, none), true))
      && OneStep(sys, WithRow(Holding(OLD, OLD, none), true), ReadOne(BOUND), WithRow(Holding(OLD, OLD, some), true))
      && OneStep(sys, WithRow(Holding(OLD, OLD, some), true), End, WithRow(Holding(OLD, OLD, None), true))
  {
  }

  lemma FinalSucceeds(sys: System)
    requires sys == System(Bound(OLD), false, true)
    ensures var caps := map[BOUND := Label(OLD)];
      && OneStep(sys, WithRow(Holding(OLD, OLD, None), true), Begin(Finalizing),
                 WithRow(Holding(OLD, OLD, Final(false, false, map[])), true))
      && OneStep(sys, WithRow(Holding(OLD, OLD, Final(false, false, map[])), true), Lock,
                 WithRow(Holding(OLD, OLD, Final(false, true, map[])), true))
      && OneStep(sys, WithRow(Holding(OLD, OLD, Final(false, true, map[])), true), ReadOne(BOUND),
                 WithRow(Holding(OLD, OLD, Final(false, true, caps)), true))
      && OneStep(sys, WithRow(Holding(OLD, OLD, Final(false, true, caps)), true), End,
                 WithRow(Holding(OLD, OLD, None), true).(committed := true))
  {
  }

  /** A run of the guarded system that declares a dataset, is given a row of it, checks, and commits. */
  lemma RunsDoCommit()
    ensures exists sys, ws: seq<World>, acts: seq<Action> ::
      && Run(sys, ws, acts) && sys.Guarded() && CommitsAt(ws, acts, 11)
      && ws[11].exposed == {Row(BOUND, 1, 7)} && ws[12].committed && acts[5] == Begin(Checking) && acts[7] == End
  {
    var sys := System(Bound(OLD), false, true);
    var w, caps := Holding(OLD, OLD, None), map[BOUND := Label(OLD)];
    var ws := Declared(OLD) + [
      WithRow(w, false), WithRow(w, true),
      WithRow(Holding(OLD, OLD, CheckReading(map[], Only(OLD))), true),
      WithRow(Holding(OLD, OLD, CheckReading(caps, Only(OLD))), true), WithRow(w, true),
      WithRow(Holding(OLD, OLD, Final(false, false, map[])), true),
      WithRow(Holding(OLD, OLD, Final(false, true, map[])), true),
      WithRow(Holding(OLD, OLD, Final(false, true, caps)), true), WithRow(w, true).(committed := true)];
    var acts := DECLARE + [
      ReadPage(BOUND, {ROW}, false), Expose(ROW), Begin(Checking), ReadOne(BOUND), End, Begin(Finalizing), Lock,
      ReadOne(BOUND), End];
    DeclaredRuns(OLD, sys);
    RowIsRead(sys);
    CheckSucceeds(sys);
    FinalSucceeds(sys);
    assert Run(sys, ws, acts) && CommitsAt(ws, acts, 11);
  }

  /** A check that finds another label empties the window rows, and only those. */
  lemma ChangedLabelEmptiesCache(sys: System, w: World, name: Name)
    requires w.reading.Some? && w.reading.value.goal == Checking && AllRead(w)
    requires name in w.captures && w.reading.value.states[name] != w.captures[name]
    ensures Enabled(sys, w, Mismatch) && !Enabled(sys, w, End)
    ensures Step(sys, w, Mismatch) == w.(reading := None, cached := {})
  {
  }

  /** The commit is current in every run exactly when the final capture locks first and reads the latest
      rows: neither the lock alone nor a snapshot is enough. */
  lemma CommitsAreCurrentExactlyWhenGuarded(frozen: bool, lock: bool)
    ensures CommitsAreCurrent(frozen, lock) <==> lock && !frozen
  {
    if lock && !frozen {
      forall bindings: Bindings, ws: seq<World>, acts: seq<Action>, j: nat
          | Run(System(bindings, frozen, lock), ws, acts) && CommitsAt(ws, acts, j)
        ensures AllHold(bindings, ws[j + 1].catalog, ws[j + 1].captures)
      {
        CommitHoldsNow(System(bindings, frozen, lock), ws, acts, j);
      }
    } else if lock {
      FrozenFinalMisses();
    } else {
      UnlockedFinalMisses(frozen);
    }
  }

  // ---------------------------------------------------------------- labels between the checks

  /** Which changes of a dataset the writers make; leaving a row as it is counts as none. */
  type Writers = (Dataset, Dataset) -> bool

  ghost predicate Permitted(writers: Writers, w: World, a: Action) {
    a.Write? && a.id in w.catalog && a.next != w.catalog[a.id] ==> writers(w.catalog[a.id], a.next)
  }

  /** A committed run of permitted writes, and a moment k of it after name was declared. */
  ghost predicate Moment(
      writers: Writers, sys: System, ws: seq<World>, acts: seq<Action>, i: nat, k: nat, j: nat, name: Name)
  {
    && Run(sys, ws, acts) && sys.Guarded() && CommitsAt(ws, acts, j)
    && (forall q :: 0 <= q < |acts| ==> Permitted(writers, ws[q], acts[q]))
    && i <= k <= j && name in ws[i].captures && name in sys.bindings
  }

  /** Every label a committed run has captured held at all moments from its declaration to the commit. */
  ghost predicate LabelsStandStill(writers: Writers) {
    forall sys: System, ws: seq<World>, acts: seq<Action>, i: nat, k: nat, j: nat, name: Name ::
      Moment(writers, sys, ws, acts, i, k, j, name) ==>
        Holds(ws[k].catalog, sys.bindings[name], ws[i].captures[name])
  }

  ghost predicate Move(writers: Writers, d: Dataset, e: Dataset) {
    d.generation == e.generation && (d == e || writers(d, e))
  }

  /** Changes that lead from a readable dataset back to it without a new generation. */
  ghost predicate Returns(writers: Writers, path: seq<Dataset>) {
    && |path| > 0 && Open(path[0]) && path[|path| - 1] == path[0]
    && forall x :: 0 <= x < |path| - 1 ==> Move(writers, path[x], path[x + 1])
  }

  /** The writers never take a readable dataset elsewhere and back at one generation. */
  ghost predicate NoDetour(writers: Writers) {
    forall path :: Returns(writers, path) ==> forall x :: 0 <= x < |path| ==> path[x] == path[0]
  }

  lemma HoldsIsEquality(catalog: Catalog, d: Dataset, binding: Binding)
    requires Open(d) && binding.spec == d.spec && binding.dataset in catalog
    ensures Holds(catalog, binding, Label(d)) <==> catalog[binding.dataset] == d
  {
  }

  /** What a run has captured was the state of the dataset at some earlier moment. */
  lemma {:induction false} CapturedAtMoment(
      sys: System, ws: seq<World>, acts: seq<Action>, i: nat, name: Name)
    requires Run(sys, ws, acts) && i < |ws| && name in ws[i].captures
    ensures name in sys.bindings
    ensures exists m: nat :: m <= i && Holds(ws[m].catalog, sys.bindings[name], ws[i].captures[name])
  {
    assert i > 0;
    assert OneStep(sys, ws[i - 1], acts[i - 1], ws[i]);
    RunKeepsInv(sys, ws, acts, i - 1, i);
    if name in ws[i - 1].captures {
      CapturedAtMoment(sys, ws, acts, i - 1, name);
    } else {
      SuccessHasOneMoment(sys, ws, acts, i - 1);
      var m: nat :| CaptureOf(ws, acts, m, i - 1) && AllHold(sys.bindings, ws[m].catalog, ws[i].captures);
    }
  }

  /** One step of a run moves a dataset as the writers may. */
  lemma StepMoves(writers: Writers, sys: System, w: World, a: Action, id: DatasetId)
    requires Enabled(sys, w, a) && Permitted(writers, w, a) && id in w.catalog
    ensures id in Step(sys, w, a).catalog
    ensures w.catalog[id] == Step(sys, w, a).catalog[id] || writers(w.catalog[id], Step(sys, w, a).catalog[id])
  {
  }

  /** A dataset that is in the catalog from m to j, at one generation. */
  ghost predicate OneGeneration(ws: seq<World>, m: nat, j: nat, id: DatasetId) {
    && m <= j < |ws| && id in ws[m].catalog
    && forall q :: m <= q <= j ==>
      id in ws[q].catalog && ws[q].catalog[id].generation == ws[m].catalog[id].generation
  }

  lemma BetweenTwoMoments(
      sys: System, ws: seq<World>, acts: seq<Action>, m: nat, j: nat, b: Binding, c: Captured)
    requires Run(sys, ws, acts) && m <= j < |ws|
    requires Holds(ws[m].catalog, b, c) && Holds(ws[j].catalog, b, c)
    ensures OneGeneration(ws, m, j, b.dataset)
  {
    forall q | m <= q <= j
      ensures b.dataset in ws[q].catalog
      ensures ws[q].catalog[b.dataset].generation == ws[m].catalog[b.dataset].generation
    {
      RunKeepsInv(sys, ws, acts, m, q);
      RunKeepsInv(sys, ws, acts, q, j);
    }
  }

  /** The states of a dataset from m to j. */
  ghost function Travel(ws: seq<World>, m: nat, j: nat, id: DatasetId): (path: seq<Dataset>)
    requires OneGeneration(ws, m, j, id)
    ensures |path| == j - m + 1 && forall x :: 0 <= x <= j - m ==> path[x] == ws[m + x].catalog[id]
  {
    seq(j - m + 1, x requires 0 <= x <= j - m => ws[m + x].catalog[id])
  }

  lemma TravelReturns(
      writers: Writers, sys: System, ws: seq<World>, acts: seq<Action>, m: nat, j: nat, id: DatasetId)
    requires Run(sys, ws, acts) && OneGeneration(ws, m, j, id)
    requires forall q :: 0 <= q < |acts| ==> Permitted(writers, ws[q], acts[q])
    requires Open(ws[m].catalog[id]) && ws[j].catalog[id] == ws[m].catalog[id]
    ensures Returns(writers, Travel(ws, m, j, id))
  {
    var path := Travel(ws, m, j, id);
    forall x | 0 <= x < |path| - 1
      ensures Move(writers, path[x], path[x + 1])
    {
      assert OneStep(sys, ws[m + x], acts[m + x], ws[m + x + 1]);
      StepMoves(writers, sys, ws[m + x], acts[m + x], id);
    }
  }

  lemma HoldsAtEveryMoment(
      writers: Writers, sys: System, ws: seq<World>, acts: seq<Action>, i: nat, k: nat, j: nat, name: Name)
    requires NoDetour(writers) && Moment(writers, sys, ws, acts, i, k, j, name)
    ensures Holds(ws[k].catalog, sys.bindings[name], ws[i].captures[name])
  {
    var b, c := sys.bindings[name], ws[i].captures[name];
    CapturedAtMoment(sys, ws, acts, i, name);
    var m: nat :| m <= i && Holds(ws[m].catalog, b, c);
    GenerationsStoodStill(sys, ws, acts, i, j, j, name);
    CommitHoldsNow(sys, ws, acts, j);
    assert Holds(ws[j].catalog, b, c);
    BetweenTwoMoments(sys, ws, acts, m, j, b, c);
    TravelReturns(writers, sys, ws, acts, m, j, b.dataset);
    var path := Travel(ws, m, j, b.dataset);
    assert path[k - m] == path[0];
  }

  // A run that declares path[0], makes the changes of the path one by one, and commits.

  function TripWorld(path: seq<Dataset>, k: int): World
    requires |path| > 0 && 0 <= k < |path| + 7
  {
    var d, n := path[0], |path|;
    var caps := map[BOUND := Label(d)];
    if k < 3 then Declared(d)[k]
    else if k < n + 3 then Holding(d, path[k - 3], None)
    else if k == n + 3 then Holding(d, d, Some(Reading(Finalizing, None, false, map[])))
    else if k == n + 4 then Holding(d, d, Some(Reading(Finalizing, None, true, map[])))
    else if k == n + 5 then Holding(d, d, Some(Reading(Finalizing, None, true, caps)))
    else Holding(d, d, None).(committed := true)
  }

  function TripAction(path: seq<Dataset>, k: int): Action
    requires |path| > 0 && 0 <= k < |path| + 6
  {
    var n := |path|;
    if k < 3 then DECLARE[k]
    else if k < n + 2 then Write(ID, path[k - 2])
    else if k == n + 2 then Begin(Finalizing)
    else if k == n + 3 then Lock
    else if k == n + 4 then ReadOne(BOUND)
    else End
  }

  lemma TripStep(writers: Writers, path: seq<Dataset>, k: int)
    requires Returns(writers, path) && 0 <= k < |path| + 6
    ensures OneStep(System(Bound(path[0]), false, true), TripWorld(path, k), TripAction(path, k),
                    TripWorld(path, k + 1))
    ensures Permitted(writers, TripWorld(path, k), TripAction(path, k))
  {
    var d, n, sys := path[0], |path|, System(Bound(path[0]), false, true);
    DeclaredRuns(d, sys);
    if 3 <= k < n + 2 {
      assert Move(writers, path[k - 3], path[k - 2]);
      assert Only(path[k - 3])[ID := path[k - 2]] == Only(path[k - 2]);
    } else if k == n + 4 {
      assert CaptureOne(Only(d), sys.bindings[BOUND], Some(Label(d))) == Good(Label(d));
    }
  }

  lemma TripShows(writers: Writers, path: seq<Dataset>, x: nat)
    requires LabelsStandStill(writers) && Returns(writers, path) && x < |path|
    ensures path[x] == path[0]
  {
    var d, n, sys := path[0], |path|, System(Bound(path[0]), false, true);
    var ws := seq(n + 7, k requires 0 <= k < n + 7 => TripWorld(path, k));
    var acts := seq(n + 6, k requires 0 <= k < n + 6 => TripAction(path, k));
    forall k | 0 <= k < |acts|
      ensures OneStep(sys, ws[k], acts[k], ws[k + 1]) && Permitted(writers, ws[k], acts[k])
    {
      TripStep(writers, path, k);
    }
    assert Run(sys, ws, acts) && CommitsAt(ws, acts, n + 5);
    assert Moment(writers, sys, ws, acts, 3, x + 3, n + 5, BOUND);
    HoldsIsEquality(ws[x + 3].catalog, d, sys.bindings[BOUND]);
  }

  /** Labels stand still between declaration and commit of every committed run exactly when the writers
      have no way to leave a readable state of a dataset and come back without a new generation. */
  lemma LabelsStandStillExactly(writers: Writers)
    ensures LabelsStandStill(writers) <==> NoDetour(writers)
  {
    if LabelsStandStill(writers) {
      forall path: seq<Dataset>, x: nat | Returns(writers, path) && x < |path|
        ensures path[x] == path[0]
      {
        TripShows(writers, path, x);
      }
    }
    if NoDetour(writers) {
      forall sys, ws: seq<World>, acts, i: nat, k: nat, j: nat, name
          | Moment(writers, sys, ws, acts, i, k, j, name)
        ensures Holds(ws[k].catalog, sys.bindings[name], ws[i].captures[name])
      {
        HoldsAtEveryMoment(writers, sys, ws, acts, i, k, j, name);
      }
    }
  }

  /** Whatever the writers change on a dataset without a new generation, they can also change back. */
  ghost predicate CanUndo(writers: Writers) {
    forall d, e :: writers(d, e) && d.generation == e.generation ==> writers(e, d)
  }

  /** No single permitted write changes a readable dataset's quality, specification or presence and
      leaves its generation. */
  ghost predicate Versioned(writers: Writers) {
    forall d, e :: Open(d) && writers(d, e) && d.generation == e.generation ==> d == e
  }

  /** For writers that resolve the issues they raise, one write decides: labels stand still exactly when
      every write to a readable dataset that changes anything also raises the generation. */
  lemma LabelsStandStillForUndoingWriters(writers: Writers)
    ensures Versioned(writers) ==> LabelsStandStill(writers)
    ensures CanUndo(writers) ==> (LabelsStandStill(writers) <==> Versioned(writers))
  {
    LabelsStandStillExactly(writers);
    if Versioned(writers) {
      forall path: seq<Dataset>, x: nat | Returns(writers, path) && x < |path|
        ensures path[x] == path[0]
      {
        VersionedStays(writers, path, x);
      }
    }
    if CanUndo(writers) && NoDetour(writers) {
      forall d, e | Open(d) && writers(d, e) && d.generation == e.generation
        ensures d == e
      {
        var path := [d, e, d];
        assert Returns(writers, path);
        assert path[1] == path[0];
      }
    }
  }

  lemma {:induction false} VersionedStays(writers: Writers, path: seq<Dataset>, x: nat)
    requires Versioned(writers) && Returns(writers, path) && x < |path|
    ensures path[x] == path[0]
  {
    if x > 0 {
      VersionedStays(writers, path, x - 1);
      assert Move(writers, path[x - 1], path[x]);
    }
  }

  /** Writers that raise and resolve issues without a new generation, as the store's do, flicker. */
  lemma QualityMayFlicker()
    ensures !LabelsStandStill((d: Dataset, e: Dataset) => e == d.(issues := e.issues))
  {
    var writers: Writers := (d: Dataset, e: Dataset) => e == d.(issues := e.issues);
    var dirty := OLD.(issues := 7);
    assert writers(OLD, dirty) && writers(dirty, OLD);
    assert CanUndo(writers) && !Versioned(writers);
    LabelsStandStillForUndoingWriters(writers);
  }
}
