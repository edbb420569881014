/** The dependency context of a run: every dataset it reads is captured once, and each later
    declaration, check and the final commit compare all captures with the catalog again. Here the gates
    and the context's methods, as their reads see the catalog; `SnapshotProtocol` lets writers change
    the catalog between those reads. */
module Dependencies {
  import opened RuntimeContracts
  import Lookback

  type Name = Lookback.Name

  datatype DatasetId = DatasetId(n: int)

  datatype Spec = Spec(schema: int, rule: int)

  /** One catalog row with its quality gates. A deleted dataset keeps its last generation. */
  datatype Dataset = Dataset(
    present: bool, generation: nat, spec: Spec, restricted: bool, issues: int, overflow: int)

  type Catalog = map<DatasetId, Dataset>

  datatype Binding = Binding(dataset: DatasetId, spec: Spec, unavailable: bool)

  type Bindings = map<Name, Binding>

  /** The readability fingerprint, as the injective label of what it digests. */
  datatype Readability = Readability(spec: Spec, issues: int, overflow: int)

  datatype Captured = Captured(generation: nat, readability: Readability)

  type Captures = map<Name, Captured>

  datatype Refusal = Inactive | Unavailable | Missing | Changed | Restricted | RebuildRequired

  datatype Outcome<+T> = Good(value: T) | Refused(refusal: Refusal)

  /** The gates of one dataset; a dataset that was captured before must not have changed. */
  function CaptureOne(catalog: Catalog, binding: Binding, previous: Option<Captured>): (r: Outcome<Captured>)
    ensures r.Good? <==>
      && binding.dataset in catalog && catalog[binding.dataset].present && !catalog[binding.dataset].restricted
      && catalog[binding.dataset].spec == binding.spec
      && (previous.Some? ==> catalog[binding.dataset].generation == previous.value.generation)
    ensures r.Good? ==>
      var d := catalog[binding.dataset];
      r.value.generation == d.generation && r.value.readability == Readability(d.spec, d.issues, d.overflow)
    ensures r.Refused? && previous.Some? ==> r.refusal == Changed
    ensures r.Refused? && previous.None? ==>
      && (r.refusal == Missing <==> binding.dataset !in catalog || !catalog[binding.dataset].present)
      && r.refusal in {Missing, RebuildRequired, Restricted}
      && (r.refusal == Restricted ==> catalog[binding.dataset].spec == binding.spec)
  {
    if binding.dataset !in catalog || !catalog[binding.dataset].present then
      Refused(if previous.Some? then Changed else Missing)
    else
      var d := catalog[binding.dataset];
      if previous.Some? && (previous.value.generation != d.generation || d.spec != binding.spec) then Refused(Changed)
      else if d.spec != binding.spec then Refused(RebuildRequired)
      else if d.restricted then Refused(if previous.Some? then Changed else Restricted)
      else Good(Captured(d.generation, Readability(d.spec, d.issues, d.overflow)))
  }

  function Previous(captures: Captures, name: Name): Option<Captured> {
    if name in captures then Some(captures[name]) else None
  }

  /** A capture still describes the catalog. */
  predicate Holds(catalog: Catalog, binding: Binding, captured: Captured) {
    CaptureOne(catalog, binding, Some(captured)) == Good(captured)
  }

  predicate AllHold(bindings: Bindings, catalog: Catalog, captures: Captures) {
    forall n :: n in captures ==> n in bindings && Holds(catalog, bindings[n], captures[n])
  }

  predicate Usable(bindings: Bindings, name: Name) {
    name in bindings && !bindings[name].unavailable
  }

  /** A row as the store returned it: its binding and the generation it was read from. */
  datatype Row = Row(name: Name, generation: nat, key: int)

  // ---------------------------------------------------------------- the gateway's methods

  method Least(names: set<Name>) returns (least: Name)
    requires exists n :: n in names
    ensures least in names && forall n :: n in names ==> least.n <= n.n
  {
    least :| least in names;
    var todo := names - {least};
    while exists n :: n in todo
      invariant todo <= names && least in names
      invariant forall n :: n in names && n !in todo ==> least.n <= n.n
      decreases |todo|
    {
      var n :| n in todo;
      if n.n < least.n { least := n; }
      todo := todo - {n};
    }
  }

  class DependencyContext {
    const bindings: Bindings
    var captures: Captures
    /** The rows of the lookback windows; the only buffer a failed check empties. */
    var cache: set<Row>
    var closed: bool
    var committed: bool

    constructor (bindings: Bindings)
      ensures Valid() && this.bindings == bindings
      ensures captures == map[] && cache == {} && !closed && !committed
    {
      this.bindings := bindings;
      captures, cache, closed, committed := map[], {}, false, false;
    }

    ghost predicate Valid()
      reads this
    {
      captures.Keys <= bindings.Keys
    }

    /** Captures names in name order from the catalog the connection sees; the first gate that refuses
        decides. */
    method Capture(names: set<Name>, catalog: Catalog) returns (r: Outcome<Captures>)
      requires names <= bindings.Keys
      ensures r.Good? ==> r.value.Keys == names
      ensures r.Good? ==> forall n :: n in names ==>
        CaptureOne(catalog, bindings[n], Previous(captures, n)) == Good(r.value[n])
      ensures r.Refused? ==> exists n :: FirstRefusal(names, catalog, n, r.refusal)
    {
      var states: Captures := map[];
      var todo := names;
      while exists n :: n in todo
        invariant todo <= names
        invariant forall n :: n in names ==> n in todo || n in states
        invariant forall n :: n in states ==>
          && n in names && n !in todo
          && CaptureOne(catalog, bindings[n], Previous(captures, n)) == Good(states[n])
        decreases |todo|
      {
        var name := Least(todo);
        var one := CaptureOne(catalog, bindings[name], Previous(captures, name));
        if one.Refused? {
          assert FirstRefusal(names, catalog, name, one.refusal);
          return Refused(one.refusal);
        }
        states := states[name := one.value];
        todo := todo - {name};
      }
      r := Good(states);
    }

    /** The least name whose gate refuses, and with what. */
    ghost predicate FirstRefusal(names: set<Name>, catalog: Catalog, name: Name, refusal: Refusal)
      reads this
      requires names <= bindings.Keys
    {
      && name in names
      && CaptureOne(catalog, bindings[name], Previous(captures, name)) == Refused(refusal)
      && forall m :: m in names && m.n < name.n ==>
        CaptureOne(catalog, bindings[m], Previous(captures, m)).Good?
    }

    method Declare(name: Name, catalog: Catalog) returns (r: Outcome<()>)
      requires Valid()
      modifies this`captures
      ensures Valid()
      ensures r.Good? <==>
        && !closed && Usable(bindings, name) && AllHold(bindings, catalog, old(captures))
        && CaptureOne(catalog, bindings[name], Previous(old(captures), name)).Good?
      ensures captures == if r.Refused? then old(captures)
        else old(captures)[name := CaptureOne(catalog, bindings[name], Previous(old(captures), name)).value]
      ensures r.Good? <==>
        && !closed && name in bindings && !bindings[name].unavailable
        && bindings[name].dataset in catalog
        && catalog[bindings[name].dataset].present && !catalog[bindings[name].dataset].restricted
        && catalog[bindings[name].dataset].spec == bindings[name].spec
        && forall n :: n in old(captures) ==>
          && n in bindings && bindings[n].dataset in catalog
          && var d, c := catalog[bindings[n].dataset], old(captures)[n];
          && d.present && !d.restricted && d.spec == bindings[n].spec && d.generation == c.generation
          && c.readability.spec == d.spec && c.readability.issues == d.issues && c.readability.overflow == d.overflow
      ensures r.Good? ==>
        var d := catalog[bindings[name].dataset];
        captures == old(captures)[name := Captured(d.generation, Readability(d.spec, d.issues, d.overflow))]
    {
      if closed { return Refused(Inactive); }
      if name !in bindings || bindings[name].unavailable { return Refused(Unavailable); }
      var names := captures.Keys + {name};
      var states := Capture(names, catalog);
      if states.Refused? {
        return Refused(states.refusal);
      }
      if exists n :: n in captures && states.value[n] != captures[n] { return Refused(Changed); }
      captures := captures[name := states.value[name]];
      r := Good(());
    }

    /** Some capture passes its gate with another label than it was captured with. */
    predicate Relabelled(catalog: Catalog)
      reads this
    {
      exists n :: n in captures && n in bindings
        && var now := CaptureOne(catalog, bindings[n], Some(captures[n])); now.Good? && now.value != captures[n]
    }

    predicate AllPass(catalog: Catalog)
      reads this
    {
      forall n :: n in captures ==> n in bindings && CaptureOne(catalog, bindings[n], Some(captures[n])).Good?
    }

    /** A difference in a label also empties the window cache; a gate that refuses does not. */
    method Check(catalog: Catalog) returns (r: Outcome<()>)
      requires Valid()
      modifies this`cache
      ensures r.Good? <==> !closed && AllHold(bindings, catalog, captures)
      ensures r.Refused? ==> r.refusal == if closed then Inactive else Changed
      ensures r.Good? <==>
        && !closed
        && forall n :: n in captures ==>
          && n in bindings && bindings[n].dataset in catalog
          && var d, c := catalog[bindings[n].dataset], captures[n];
          && d.present && !d.restricted && d.spec == bindings[n].spec && d.generation == c.generation
          && c.readability.spec == d.spec && c.readability.issues == d.issues && c.readability.overflow == d.overflow
      ensures cache != old(cache) ==>
        && cache == {} && !closed
        && exists n ::
             && n in captures && n in bindings && bindings[n].dataset in catalog
             && var d, c := catalog[bindings[n].dataset], captures[n];
             && d.present && !d.restricted && d.spec == bindings[n].spec && d.generation == c.generation
             && c.readability != Readability(d.spec, d.issues, d.overflow)
      ensures cache == if !closed && AllPass(catalog) && Relabelled(catalog) then {} else old(cache)
    {
      if closed { return Refused(Inactive); }
      var states := Capture(captures.Keys, catalog);
      if states.Refused? {
        ghost var n :| FirstRefusal(captures.Keys, catalog, n, states.refusal);
        assert !Holds(catalog, bindings[n], captures[n]);
        return Refused(states.refusal);
      }
      if exists n :: n in captures && states.value[n] != captures[n] {
        cache := {};
        return Refused(Changed);
      }
      r := Good(());
    }

    /** Commits on the same connection and under the same locks as the comparison. */
    method Finalize(catalog: Catalog) returns (r: Outcome<()>)
      requires Valid()
      modifies this`committed
      ensures r.Good? <==> !closed && AllHold(bindings, catalog, captures)
      ensures r.Refused? ==> r.refusal == if closed then Inactive else Changed
      ensures committed == (old(committed) || r.Good?)
      ensures r.Good? <==>
        && !closed
        && forall n :: n in captures ==>
          && n in bindings && bindings[n].dataset in catalog
          && var d, c := catalog[bindings[n].dataset], captures[n];
          && d.present && !d.restricted && d.spec == bindings[n].spec && d.generation == c.generation
          && c.readability.spec == d.spec && c.readability.issues == d.issues && c.readability.overflow == d.overflow
    {
      if closed { return Refused(Inactive); }
      var states := Capture(captures.Keys, catalog);
      if states.Refused? {
        ghost var n :| FirstRefusal(captures.Keys, catalog, n, states.refusal);
        assert !Holds(catalog, bindings[n], captures[n]);
        return Refused(states.refusal);
      }
      if exists n :: n in captures && states.value[n] != captures[n] { return Refused(Changed); }
      committed := true;
      r := Good(());
    }
  }
}
