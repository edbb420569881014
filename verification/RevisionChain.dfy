/** The evidence every point-in-time fact carries, its visibility, and the check of revision chains. */
module RevisionChain {
  import opened Collections
  import opened RuntimeContracts

  /** Fact identities are compared by their bytes, here by number. */
  datatype Id = Id(n: int)

  datatype Evidence = Evidence(
    id: Id, version: int, key: int, supersedes: Option<Id>,
    validFrom: Option<int>, validTo: Option<int>, accepted: bool,
    knownAt: Option<int>, declaredAsOf: Option<int>, knowledgeFrom: Option<int>, knowledgeTo: Option<int>,
    source: int, revision: int)

  datatype Context = Context(cutoff: int, asOf: Option<int>)

  datatype Refusal =
    | FactMissing | FactInvalid | MetadataMissing
    | ChainBroken | ChainNotContiguous | ChainCyclic
    | PriorityMissing | PriorityInvalid | PriorityAmbiguous | RevisionConflict | FactAmbiguous

  datatype Outcome<+T> = Good(value: T) | Refused(refusal: Refusal)

  predicate Applies(e: Evidence, day: int) {
    e.validFrom.Some? && e.validFrom.value <= day && (e.validTo.None? || day < e.validTo.value)
  }

  /** Whether a fact may be seen; strict historical cognition also demands its evidence. */
  function KnowledgeVisible(e: Evidence, context: Context): (r: Outcome<bool>)
    ensures r == Good(true) <==>
      && e.knownAt.Some? && e.knownAt.value <= context.cutoff
      && (context.asOf.Some? ==>
            && e.knownAt.value <= context.asOf.value
            && e.declaredAsOf.Some? && e.declaredAsOf.value <= context.asOf.value
            && e.knowledgeFrom.Some? && e.knowledgeFrom.value <= context.asOf.value
            && (e.knowledgeTo.Some? ==> context.asOf.value < e.knowledgeTo.value))
    ensures r == Good(false) <==>
      e.knownAt.Some? && (context.cutoff < e.knownAt.value
                          || (context.asOf.Some? && context.asOf.value < e.knownAt.value))
    ensures r.Refused? ==> r.refusal == MetadataMissing
  {
    if e.knownAt.None? then Refused(MetadataMissing)
    else if e.knownAt.value > context.cutoff then Good(false)
    else if context.asOf.None? then Good(true)
    else
      var asOf := context.asOf.value;
      if e.knownAt.value > asOf then Good(false)
      else if e.declaredAsOf.None? || e.declaredAsOf.value > asOf then Refused(MetadataMissing)
      else if e.knowledgeFrom.None? || e.knowledgeFrom.value > asOf
              || (e.knowledgeTo.Some? && !(e.knowledgeFrom.value <= asOf < e.knowledgeTo.value)) then
        Refused(MetadataMissing)
      else Good(true)
  }

  predicate FirstKnownLater(e: Evidence, context: Context) {
    && e.knownAt.Some?
    && (e.knownAt.value > context.cutoff || (context.asOf.Some? && e.knownAt.value > context.asOf.value))
  }

  /** A fact that first becomes known after the cutoff or the knowledge boundary is never seen and
      never refused, whatever else it says. */
  lemma LaterIsInvisible(e: Evidence, context: Context)
    ensures FirstKnownLater(e, context) <==> KnowledgeVisible(e, context) == Good(false)
  {
  }

  // ---------------------------------------------------------------- chains

  /** dict comprehension: of two facts with one id the later in the list wins */
  function ById(candidates: seq<Evidence>): (m: map<Id, Evidence>)
    ensures forall id :: id in m ==> m[id] in candidates && m[id].id == id
    ensures forall c :: c in candidates ==> c.id in m
  {
    if candidates == [] then map[]
    else
      var last := candidates[|candidates| - 1];
      ById(candidates[..|candidates| - 1])[last.id := last]
  }

  /** The index holds the last of the candidates with an id. */
  lemma {:induction false} ByIdTakesLast(candidates: seq<Evidence>, i: nat)
    requires i < |candidates| && forall j :: i < j < |candidates| ==> candidates[j].id != candidates[i].id
    ensures ById(candidates)[candidates[i].id] == candidates[i]
    decreases |candidates|
  {
    if i < |candidates| - 1 { ByIdTakesLast(candidates[..|candidates| - 1], i); }
  }

  ghost predicate Indexed(byId: map<Id, Evidence>) {
    forall id :: id in byId ==> byId[id].id == id
  }

  /** Walking back from `current`, having passed the facts in `visited`. */
  function Walk(byId: map<Id, Evidence>, current: Evidence, visited: set<Id>): Outcome<()>
    requires Indexed(byId) && current.id in byId && visited <= byId.Keys
    decreases |byId.Keys - visited|
  {
    if current.supersedes.None? then Good(())
    else if current.id in visited then Refused(ChainCyclic)
    else if current.supersedes.value !in byId then Refused(ChainBroken)
    else
      var previous := byId[current.supersedes.value];
      if previous.key != current.key || previous.version != current.version - 1 then Refused(ChainNotContiguous)
      else
        Walk(byId, previous, visited + {current.id})
  }

  method WalkBack(byId: map<Id, Evidence>, candidate: Evidence) returns (r: Outcome<()>)
    requires Indexed(byId) && candidate.id in byId
    ensures r == Walk(byId, candidate, {})
  {
    var visited: set<Id> := {};
    var current := candidate;
    while current.supersedes.Some?
      invariant current.id in byId && visited <= byId.Keys
      invariant Walk(byId, candidate, {}) == Walk(byId, current, visited)
      decreases |byId.Keys - visited|
    {
      if current.id in visited { return Refused(ChainCyclic); }
      if current.supersedes.value !in byId { return Refused(ChainBroken); }
      var previous := byId[current.supersedes.value];
      if previous.key != current.key || previous.version != current.version - 1 {
        return Refused(ChainNotContiguous);
      }
      visited := visited + {current.id};
      current := previous;
    }
    r := Good(());
  }

  /** The check: the first refused walk, in list order. */
  method ValidateRevisionChain(candidates: seq<Evidence>) returns (r: Outcome<()>)
    ensures r.Good? <==> forall c :: c in candidates ==> Walk(ById(candidates), c, {}).Good?
    ensures r.Refused? ==> (exists i :: (0 <= i < |candidates| && Walk(ById(candidates), candidates[i], {}) == r
      && forall j :: 0 <= j < i ==> Walk(ById(candidates), candidates[j], {}).Good?))
    ensures UniqueIds(candidates) ==> (r.Good? <==> Contiguous(Members(candidates))) && r != Refused(ChainCyclic)
  {
    ghost var byId := ById(candidates);
    var index := ById(candidates);
    if UniqueIds(candidates) { ChainAccepted(candidates); }
    for i := 0 to |candidates|
      invariant forall j :: 0 <= j < i ==> Walk(byId, candidates[j], {}).Good?
    {
      var walked := WalkBack(index, candidates[i]);
      if walked.Refused? { return walked; }
    }
    r := Good(());
  }

  ghost predicate UniqueIds(candidates: seq<Evidence>) {
    forall a, b :: a in candidates && b in candidates && a.id == b.id ==> a == b
  }

  /** One link: the superseded fact is present, of the same fact key, exactly one version lower. */
  ghost predicate Linked(all: set<Evidence>, c: Evidence) {
    c.supersedes.Some? ==>
      exists p :: p in all && p.id == c.supersedes.value && p.key == c.key && p.version == c.version - 1
  }

  ghost predicate Contiguous(all: set<Evidence>) {
    forall c :: c in all ==> Linked(all, c)
  }

  /** The passed facts are all newer than the current one. */
  ghost predicate PassedAreNewer(byId: map<Id, Evidence>, visited: set<Id>, version: int) {
    visited <= byId.Keys && forall id :: id in visited ==> byId[id].version > version
  }

  /** The index finds the one candidate a link can mean. */
  predicate Steppable(byId: map<Id, Evidence>, c: Evidence) {
    && c.supersedes.Some? && c.supersedes.value in byId
    && byId[c.supersedes.value].key == c.key && byId[c.supersedes.value].version == c.version - 1
  }

  lemma LinkedIsSteppable(candidates: seq<Evidence>, c: Evidence)
    requires UniqueIds(candidates)
    ensures Linked(Members(candidates), c) <==> c.supersedes.None? || Steppable(ById(candidates), c)
  {
    if c.supersedes.Some? && Linked(Members(candidates), c) {
      var p :| p in candidates && p.id == c.supersedes.value && p.key == c.key && p.version == c.version - 1;
      assert ById(candidates)[p.id] == p;
    }
  }

  /** With every link in place a walk goes on to the first version. */
  lemma {:induction false} LinkedWalk(candidates: seq<Evidence>, byId: map<Id, Evidence>, c: Evidence, visited: set<Id>)
    requires byId == ById(candidates) && UniqueIds(candidates) && c in candidates
    requires PassedAreNewer(byId, visited, c.version)
    ensures Walk(byId, c, visited) != Refused(ChainCyclic)
    ensures Contiguous(Members(candidates)) ==> Walk(byId, c, visited).Good?
    ensures Walk(byId, c, visited).Good? ==> Linked(Members(candidates), c)
    decreases |byId.Keys - visited|
  {
    assert byId[c.id] == c;
    LinkedIsSteppable(candidates, c);
    if Steppable(byId, c) {
      LinkedWalk(candidates, byId, byId[c.supersedes.value], visited + {c.id});
    }
  }

  /** With unique ids the check accepts exactly the lists whose every single link holds, and no walk
      ever comes back to a fact it passed: a cycle is refused as non-contiguous before that. */
  lemma ChainAccepted(candidates: seq<Evidence>)
    requires UniqueIds(candidates)
    ensures (forall c :: c in candidates ==> Walk(ById(candidates), c, {}).Good?) <==> Contiguous(Members(candidates))
    ensures forall c :: c in candidates ==> Walk(ById(candidates), c, {}) != Refused(ChainCyclic)
  {
    forall c | c in candidates
      ensures Walk(ById(candidates), c, {}) != Refused(ChainCyclic)
      ensures Contiguous(Members(candidates)) ==> Walk(ById(candidates), c, {}).Good?
      ensures Walk(ById(candidates), c, {}).Good? ==> Linked(Members(candidates), c)
    {
      LinkedWalk(candidates, ById(candidates), c, {});
    }
  }

  /** How many links a walk follows. */
  function Steps(byId: map<Id, Evidence>, current: Evidence, visited: set<Id>): nat
    requires Indexed(byId) && current.id in byId && visited <= byId.Keys
    decreases |byId.Keys - visited|
  {
    if current.supersedes.None? || current.id in visited || current.supersedes.value !in byId then 0
    else
      var previous := byId[current.supersedes.value];
      if previous.key != current.key || previous.version != current.version - 1 then 0
      else
        1 + Steps(byId, previous, visited + {current.id})
  }

  /** Versions are positive, so a walk follows fewer links than its fact's version, accepted or not. */
  lemma {:induction false} WalkIsShort(byId: map<Id, Evidence>, c: Evidence, visited: set<Id>)
    requires Indexed(byId) && c.id in byId && visited <= byId.Keys
    requires c.version >= 1 && forall id :: id in byId ==> byId[id].version >= 1
    ensures Steps(byId, c, visited) < c.version
    decreases |byId.Keys - visited|
  {
    if c.supersedes.Some? && c.id !in visited && c.supersedes.value in byId {
      var previous := byId[c.supersedes.value];
      if previous.key == c.key && previous.version == c.version - 1 {
        WalkIsShort(byId, previous, visited + {c.id});
      }
    }
  }

  /** Following n links, as long as each is in place. */
  function Descend(byId: map<Id, Evidence>, c: Evidence, n: nat): Option<Evidence>
    decreases n
  {
    if n == 0 then Some(c)
    else if Steppable(byId, c) then Descend(byId, byId[c.supersedes.value], n - 1)
    else None
  }

  /** The links of a fact lead down to the fact that the index has under the same id, an older one that
      supersedes something in turn. */
  ghost predicate LeadsToNamesake(byId: map<Id, Evidence>, c: Evidence, current: Evidence) {
    && c.id in byId && byId[c.id].supersedes.Some? && byId[c.id].version <= current.version
    && Descend(byId, current, current.version - byId[c.id].version) == Some(byId[c.id])
  }

  ghost predicate OnTheWay(byId: map<Id, Evidence>, c: Evidence, current: Evidence, visited: set<Id>) {
    && Indexed(byId) && c.id in visited && visited <= byId.Keys
    && current.id in byId && byId[current.id] == current
    && forall id :: id in visited && id != c.id ==> byId[id].version > current.version
  }

  lemma {:induction false} CycleBelow(byId: map<Id, Evidence>, c: Evidence, current: Evidence, visited: set<Id>)
    requires OnTheWay(byId, c, current, visited)
    ensures Walk(byId, current, visited) == Refused(ChainCyclic) <==> LeadsToNamesake(byId, c, current)
    decreases |byId.Keys - visited|
  {
    if current.id !in visited && Steppable(byId, current) {
      CycleBelow(byId, c, byId[current.supersedes.value], visited + {current.id});
    }
  }

  /** The walk from a candidate reports a cycle exactly when a later candidate has taken its id, is an
      older version that supersedes something, and the links lead from the one to the other. */
  lemma CycleExactly(candidates: seq<Evidence>, c: Evidence)
    requires c in candidates
    ensures Walk(ById(candidates), c, {}) == Refused(ChainCyclic) <==>
      && ById(candidates)[c.id].version < c.version
      && LeadsToNamesake(ById(candidates), c, c)
  {
    FirstLink(ById(candidates), c);
  }

  lemma FirstLink(byId: map<Id, Evidence>, c: Evidence)
    requires Indexed(byId) && c.id in byId
    ensures Walk(byId, c, {}) == Refused(ChainCyclic) <==>
      byId[c.id].version < c.version && LeadsToNamesake(byId, c, c)
  {
    if Steppable(byId, c) {
      var previous := byId[c.supersedes.value];
      assert Walk(byId, c, {}) == Walk(byId, previous, {} + {c.id});
      CycleBelow(byId, c, previous, {} + {c.id});
    } else {
      assert Walk(byId, c, {}) != Refused(ChainCyclic);
    }
  }

  function Link(id: int, version: int, supersedes: int): Evidence {
    Evidence(Id(id), version, 0, Some(Id(supersedes)), Some(0), None, true, Some(0), None, None, None, 0, 0)
  }

  /** Only a repeated id can bring a walk back: three facts of which two share an id do. */
  lemma RepeatedIdsCanCycle()
    ensures Walk(ById([Link(1, 3, 2), Link(2, 2, 1), Link(1, 1, 2)]), Link(1, 3, 2), {}) == Refused(ChainCyclic)
  {
    var a, b, c := Link(1, 3, 2), Link(2, 2, 1), Link(1, 1, 2);
    var list := [a, b, c];
    assert list[..2] == [a, b] && [a, b][..1] == [a] && [a][..0] == [];
    var byId := ById(list);
    assert ById([a]) == map[Id(1) := a];
    assert ById([a, b]) == map[Id(1) := a, Id(2) := b];
    assert byId == map[Id(1) := c, Id(2) := b];
    assert Walk(byId, c, {Id(1), Id(2)}) == Refused(ChainCyclic);
    assert {} + {Id(1)} + {Id(2)} == {Id(1), Id(2)};
    assert Walk(byId, b, {} + {Id(1)}) == Refused(ChainCyclic);
  }
}
