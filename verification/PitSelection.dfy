/** Point-in-time selection: among candidate facts, the one that was applicable, accepted and known at
    the cutoff and that ranks best by source priority, knowledge time and revision order. */
module PitSelection {
  import opened Collections
  import opened RuntimeContracts
  import opened RevisionChain

  /** A versioned source-priority fact. `valid` is the outcome of its strict validation. */
  datatype Priority = Priority(
    e: Evidence, sourcePriority: int, priorityVersion: int, revisionOrder: int, content: int, valid: bool)

  /** A calendar fact with its reference to the priority fact it was ranked by. */
  datatype Fact = Fact(
    e: Evidence, priorityRef: Option<Id>, priorityVersion: Option<int>, priority: Option<int>,
    revisionOrder: Option<int>, content: int, payload: int)

  function Known(e: Evidence): int {
    if e.knownAt.Some? then e.knownAt.value else 0
  }

  predicate Seen(e: Evidence, context: Context) {
    e.accepted && KnowledgeVisible(e, context) == Good(true)
  }

  // ---------------------------------------------------------------- one source's priority fact

  predicate Concerns(r: Priority, source: int, day: int) {
    r.e.source == source && Applies(r.e, day)
  }

  function SeenPriorities(rows: set<Priority>, source: int, day: int, context: Context): set<Priority> {
    set r | r in rows && Concerns(r, source, day) && Seen(r.e, context)
  }

  predicate ReadableRow(r: Priority, source: int, day: int, context: Context) {
    Concerns(r, source, day) ==> r.valid && (r.e.accepted ==> KnowledgeVisible(r.e, context).Good?)
  }

  /** Every row of the source is strictly valid and every accepted one has its metadata. */
  ghost predicate PrioritiesReadable(rows: set<Priority>, source: int, day: int, context: Context) {
    forall r :: r in rows ==> ReadableRow(r, source, day, context)
  }

  /** Later known, then higher revision order, then higher version. */
  predicate Outranks(a: Priority, b: Priority) {
    || Known(a.e) > Known(b.e)
    || (Known(a.e) == Known(b.e) && a.revisionOrder > b.revisionOrder)
    || (Known(a.e) == Known(b.e) && a.revisionOrder == b.revisionOrder && a.e.version > b.e.version)
  }

  predicate SameRank(a: Priority, b: Priority) {
    Known(a.e) == Known(b.e) && a.revisionOrder == b.revisionOrder && a.e.version == b.e.version
  }

  predicate SameTuple(a: Priority, b: Priority) {
    && a.sourcePriority == b.sourcePriority && a.priorityVersion == b.priorityVersion
    && a.revisionOrder == b.revisionOrder && a.content == b.content
  }

  function EvidenceOf(rows: set<Priority>): set<Evidence> {
    set r | r in rows :: r.e
  }

  /** `p` ranks best, all rows of its rank say the same, and of these it has the least identity. */
  ghost predicate RanksFirst(seen: set<Priority>, p: Priority) {
    && p in seen
    && (forall r :: r in seen ==> !Outranks(r, p))
    && (forall r :: r in seen && SameRank(r, p) ==>
          r.e.revision == p.e.revision && SameTuple(r, p) && p.e.id.n <= r.e.id.n)
  }

  /** `p` ranks best among the seen rows, whose chain is whole. */
  ghost predicate Leads(seen: set<Priority>, p: Priority) {
    Contiguous(EvidenceOf(seen)) && RanksFirst(seen, p)
  }

  /** `p` is the source's priority fact. */
  ghost predicate PriorityChosen(rows: set<Priority>, source: int, day: int, context: Context, p: Priority) {
    PrioritiesReadable(rows, source, day, context) && Leads(SeenPriorities(rows, source, day, context), p)
  }

  ghost predicate DistinctIds(rows: set<Priority>) {
    forall a, b :: a in rows && b in rows && a.e.id == b.e.id ==> a == b
  }

  /** At most one identity ranks first, and all rows that do rank facts alike. */
  lemma FirstIsOne(seen: set<Priority>, p: Priority, q: Priority)
    requires RanksFirst(seen, p) && RanksFirst(seen, q)
    ensures p.e.id == q.e.id && SameTuple(p, q)
  {
    assert !Outranks(p, q) && !Outranks(q, p);
    assert SameRank(p, q) && SameRank(q, p);
  }

  // ---------------------------------------------------------------- the same, field by field

  /** Applicable on the day, accepted, and known in time, with the evidence strict cognition demands. */
  predicate InSight(e: Evidence, day: int, context: Context) {
    && e.validFrom.Some? && e.validFrom.value <= day && (e.validTo.Some? ==> day < e.validTo.value)
    && e.accepted
    && e.knownAt.Some? && e.knownAt.value <= context.cutoff
    && (context.asOf.Some? ==>
          && e.knownAt.value <= context.asOf.value
          && e.declaredAsOf.Some? && e.declaredAsOf.value <= context.asOf.value
          && e.knowledgeFrom.Some? && e.knowledgeFrom.value <= context.asOf.value
          && (e.knowledgeTo.Some? ==> context.asOf.value < e.knowledgeTo.value))
  }

  /** Applicable and accepted, but neither in sight nor known to come later: its evidence is missing. */
  predicate LacksEvidence(e: Evidence, day: int, context: Context) {
    && e.validFrom.Some? && e.validFrom.value <= day && (e.validTo.Some? ==> day < e.validTo.value)
    && e.accepted && !InSight(e, day, context)
    && (e.knownAt.Some? ==>
          && e.knownAt.value <= context.cutoff
          && (context.asOf.Some? ==> e.knownAt.value <= context.asOf.value))
  }

  lemma InSightExactly(e: Evidence, day: int, context: Context)
    ensures Applies(e, day) && Seen(e, context) <==> InSight(e, day, context)
    ensures Applies(e, day) && e.accepted && KnowledgeVisible(e, context).Refused? <==> LacksEvidence(e, day, context)
  {
  }

  /** The leading row, column by column: known last, of these with the highest revision order, of these with
      the highest version; rows equal in all three say the same, and the least identity stands for them. */
  lemma RanksFirstExactly(seen: set<Priority>, p: Priority)
    requires forall r :: r in seen ==> r.e.knownAt.Some?
    ensures RanksFirst(seen, p) <==>
      && p in seen
      && forall r :: r in seen ==>
           || r.e.knownAt.value < p.e.knownAt.value
           || (r.e.knownAt == p.e.knownAt && r.revisionOrder < p.revisionOrder)
           || (r.e.knownAt == p.e.knownAt && r.revisionOrder == p.revisionOrder && r.e.version < p.e.version)
           || (r.e.knownAt == p.e.knownAt && r.revisionOrder == p.revisionOrder && r.e.version == p.e.version
               && r.e.revision == p.e.revision && r.sourcePriority == p.sourcePriority
               && r.priorityVersion == p.priorityVersion && r.content == p.content && p.e.id.n <= r.e.id.n)
  {
    if p in seen {
      forall r | r in seen ensures SameRank(r, p) || Outranks(r, p) || Outranks(p, r) { }
    }
  }

  lemma PriorityIsUnique(rows: set<Priority>, source: int, day: int, context: Context, p: Priority, q: Priority)
    requires DistinctIds(rows)
    requires PriorityChosen(rows, source, day, context, p) && PriorityChosen(rows, source, day, context, q)
    ensures p == q
  {
    assert !Outranks(p, q) && !Outranks(q, p);
    assert SameRank(p, q) && SameRank(q, p);
  }

  /** The source's priority fact: every row of the source that applies is strictly valid and none lacks its
      evidence, every row in sight that supersedes one has it in sight, one version lower, and the fact leads
      the rows in sight. */
  lemma PriorityExactly(rows: set<Priority>, source: int, day: int, context: Context, p: Priority)
    ensures PriorityChosen(rows, source, day, context, p) <==>
      var seen := set r | r in rows && r.e.source == source && InSight(r.e, day, context);
      && (forall r :: r in rows && r.e.source == source ==>
            && !LacksEvidence(r.e, day, context)
            && (r.e.validFrom.Some? && r.e.validFrom.value <= day && (r.e.validTo.Some? ==> day < r.e.validTo.value)
                ==> r.valid))
      && (forall r :: r in seen && r.e.supersedes.Some? ==>
            exists q :: q in seen && q.e.id == r.e.supersedes.value && q.e.key == r.e.key
                        && q.e.version == r.e.version - 1)
      && p in seen
      && forall r :: r in seen ==>
           || r.e.knownAt.value < p.e.knownAt.value
           || (r.e.knownAt == p.e.knownAt && r.revisionOrder < p.revisionOrder)
           || (r.e.knownAt == p.e.knownAt && r.revisionOrder == p.revisionOrder && r.e.version < p.e.version)
           || (r.e.knownAt == p.e.knownAt && r.revisionOrder == p.revisionOrder && r.e.version == p.e.version
               && r.e.revision == p.e.revision && r.sourcePriority == p.sourcePriority
               && r.priorityVersion == p.priorityVersion && r.content == p.content && p.e.id.n <= r.e.id.n)
  {
    forall r | r in rows
      ensures Concerns(r, source, day) && Seen(r.e, context) <==> r.e.source == source && InSight(r.e, day, context)
      ensures ReadableRow(r, source, day, context) <==>
        (r.e.source == source ==> !LacksEvidence(r.e, day, context) && (Applies(r.e, day) ==> r.valid))
    {
      InSightExactly(r.e, day, context);
    }
    var seen := set r | r in rows && r.e.source == source && InSight(r.e, day, context);
    assert seen == SeenPriorities(rows, source, day, context);
    RanksFirstExactly(seen, p);
    RowsLinked(seen);
  }

  lemma RowsLinked(seen: set<Priority>)
    ensures Contiguous(EvidenceOf(seen)) <==>
      forall r :: r in seen && r.e.supersedes.Some? ==>
        exists q :: q in seen && q.e.id == r.e.supersedes.value && q.e.key == r.e.key
                    && q.e.version == r.e.version - 1
  {
    forall r | r in seen
      ensures Linked(EvidenceOf(seen), r.e) <==>
        (r.e.supersedes.Some? ==>
           exists q :: q in seen && q.e.id == r.e.supersedes.value && q.e.key == r.e.key
                       && q.e.version == r.e.version - 1)
    {
      if r.e.supersedes.Some? {
        if q :| q in seen && q.e.id == r.e.supersedes.value && q.e.key == r.e.key && q.e.version == r.e.version - 1 {
          assert q.e in EvidenceOf(seen);
        }
        if e :| e in EvidenceOf(seen) && e.id == r.e.supersedes.value && e.key == r.e.key
                && e.version == r.e.version - 1 {
          var q :| q in seen && q.e == e;
        }
      }
    }
    forall r | r in seen ensures r.e in EvidenceOf(seen) {}
  }

  /** The sort key, UUID bytes last. */
  predicate Ahead(a: Priority, b: Priority) {
    Outranks(a, b) || (SameRank(a, b) && a.e.id.n < b.e.id.n)
  }

  /** Head of the sorted list. */
  method Foremost(rows: seq<Priority>) returns (first: Priority)
    requires rows != []
    ensures first in rows && forall r :: r in rows ==> !Ahead(r, first)
  {
    first := rows[0];
    for i := 1 to |rows|
      invariant first in rows && forall j :: 0 <= j < i ==> !Ahead(rows[j], first)
    {
      if Ahead(rows[i], first) { first := rows[i]; }
    }
  }

  /** The seen ones of the first n rows, in list order. */
  function SeenUpto(rows: seq<Priority>, source: int, day: int, context: Context, n: nat): seq<Priority>
    requires n <= |rows|
  {
    if n == 0 then []
    else
      var last := rows[n - 1];
      SeenUpto(rows, source, day, context, n - 1)
      + if Concerns(last, source, day) && Seen(last.e, context) then [last] else []
  }

  function SeenRows(rows: seq<Priority>, source: int, day: int, context: Context): seq<Priority> {
    SeenUpto(rows, source, day, context, |rows|)
  }

  lemma {:induction false} SeenMembers(
      rows: seq<Priority>, source: int, day: int, context: Context, n: nat, p: Priority)
    requires n <= |rows|
    ensures p in SeenUpto(rows, source, day, context, n) <==>
      Concerns(p, source, day) && Seen(p.e, context) && exists j :: 0 <= j < n && rows[j] == p
  {
    if n > 0 { SeenMembers(rows, source, day, context, n - 1, p); }
  }

  lemma SeenRowsAre(rows: seq<Priority>, source: int, day: int, context: Context)
    ensures Members(SeenRows(rows, source, day, context)) == SeenPriorities(Members(rows), source, day, context)
  {
    forall p ensures p in SeenRows(rows, source, day, context)
      <==> p in SeenPriorities(Members(rows), source, day, context)
    {
      SeenMembers(rows, source, day, context, |rows|, p);
    }
  }

  function Evidences(rows: seq<Priority>): seq<Evidence> {
    seq(|rows|, i requires 0 <= i < |rows| => rows[i].e)
  }

  /** The walk from every listed fact is accepted. */
  ghost predicate WholeChain(list: seq<Evidence>) {
    forall c :: c in list ==> Walk(ById(list), c, {}).Good?
  }

  ghost predicate LeadsIn(visible: seq<Priority>, p: Priority) {
    WholeChain(Evidences(visible)) && RanksFirst(Members(visible), p)
  }

  /** `p` is the source's priority fact in this list of rows. Ids may repeat here, and then the order of the
      list matters to the chain check, as its index keeps the last of them. */
  ghost predicate PriorityChosenIn(rows: seq<Priority>, source: int, day: int, context: Context, p: Priority) {
    && PrioritiesReadable(Members(rows), source, day, context)
    && LeadsIn(SeenRows(rows, source, day, context), p)
  }

  lemma EvidencesAre(rows: seq<Priority>)
    ensures Members(Evidences(rows)) == EvidenceOf(Members(rows))
    ensures DistinctIds(Members(rows)) ==> UniqueIds(Evidences(rows))
  {
    var es := Evidences(rows);
    forall e | e in EvidenceOf(Members(rows)) ensures e in es {
      var r :| r in rows && r.e == e;
      var i :| 0 <= i < |rows| && rows[i] == r;
      assert es[i] == e;
    }
    forall e | e in es ensures exists r :: r in Members(rows) && r.e == e {
      var i :| 0 <= i < |rows| && es[i] == e;
      assert rows[i] in Members(rows);
    }
  }

  /** With unique ids the order of the rows does not matter. */
  lemma PriorityOrderFree(rows: seq<Priority>, source: int, day: int, context: Context, p: Priority)
    requires DistinctIds(Members(rows))
    ensures PriorityChosenIn(rows, source, day, context, p) <==> PriorityChosen(Members(rows), source, day, context, p)
  {
    var visible := SeenRows(rows, source, day, context);
    SeenRowsAre(rows, source, day, context);
    EvidencesAre(visible);
    ChainAccepted(Evidences(visible));
  }

  /** Succeeds with the leading row of the source, and fails exactly when there is none. */
  method SelectSourcePriority(source: int, rows: seq<Priority>, day: int, context: Context)
    returns (r: Outcome<Priority>)
    ensures r.Good? ==> PriorityChosenIn(rows, source, day, context, r.value)
    ensures r.Refused? ==> forall p :: !PriorityChosenIn(rows, source, day, context, p)
    ensures r.Good? ==>
      var p := r.value;
      && p in rows && p.e.source == source && InSight(p.e, day, context)
      && forall q :: q in rows && q.e.source == source && InSight(q.e, day, context) ==>
           || q.e.knownAt.value < p.e.knownAt.value
           || (q.e.knownAt == p.e.knownAt && q.revisionOrder < p.revisionOrder)
           || (q.e.knownAt == p.e.knownAt && q.revisionOrder == p.revisionOrder && q.e.version < p.e.version)
           || (q.e.knownAt == p.e.knownAt && q.revisionOrder == p.revisionOrder && q.e.version == p.e.version
               && q.e.revision == p.e.revision && q.sourcePriority == p.sourcePriority
               && q.priorityVersion == p.priorityVersion && q.content == p.content && p.e.id.n <= q.e.id.n)
  {
    var visible := VisibleRows(source, rows, day, context);
    if visible.Refused? { return Refused(visible.refusal); }
    r := LeadingPriority(visible.value);
    if r.Good? { LeaderIsBest(rows, source, day, context, r.value); }
  }

  lemma LeaderIsBest(rows: seq<Priority>, source: int, day: int, context: Context, p: Priority)
    requires PriorityChosenIn(rows, source, day, context, p)
    ensures p in rows && p.e.source == source && InSight(p.e, day, context)
    ensures forall q :: q in rows && q.e.source == source && InSight(q.e, day, context) ==>
      || q.e.knownAt.value < p.e.knownAt.value
      || (q.e.knownAt == p.e.knownAt && q.revisionOrder < p.revisionOrder)
      || (q.e.knownAt == p.e.knownAt && q.revisionOrder == p.revisionOrder && q.e.version < p.e.version)
      || (q.e.knownAt == p.e.knownAt && q.revisionOrder == p.revisionOrder && q.e.version == p.e.version
          && q.e.revision == p.e.revision && q.sourcePriority == p.sourcePriority
          && q.priorityVersion == p.priorityVersion && q.content == p.content && p.e.id.n <= q.e.id.n)
  {
    SeenRowsAre(rows, source, day, context);
    forall q | q in rows
      ensures q in SeenPriorities(Members(rows), source, day, context) <==>
        q.e.source == source && InSight(q.e, day, context)
    {
      InSightExactly(q.e, day, context);
    }
    RanksFirstExactly(SeenPriorities(Members(rows), source, day, context), p);
  }

  /** The rows of the source that are in sight; every row of the source that applies is validated first. */
  method VisibleRows(source: int, rows: seq<Priority>, day: int, context: Context) returns (r: Outcome<seq<Priority>>)
    ensures r.Good? <==> PrioritiesReadable(Members(rows), source, day, context)
    ensures r.Good? ==> r.value == SeenRows(rows, source, day, context)
  {
    var visible: seq<Priority> := [];
    for i := 0 to |rows|
      invariant visible == SeenUpto(rows, source, day, context, i)
      invariant forall j :: 0 <= j < i ==> ReadableRow(rows[j], source, day, context)
    {
      var seen := ConsiderRow(rows[i], source, day, context);
      if seen.Refused? {
        assert rows[i] in Members(rows);
        return Refused(seen.refusal);
      }
      if seen.value { visible := visible + [rows[i]]; }
    }
    r := Good(visible);
  }

  method ConsiderRow(row: Priority, source: int, day: int, context: Context) returns (r: Outcome<bool>)
    ensures r.Good? <==> ReadableRow(row, source, day, context)
    ensures r.Good? ==> (r.value <==> Concerns(row, source, day) && Seen(row.e, context))
  {
    if !Concerns(row, source, day) { return Good(false); }
    if !row.valid { return Refused(PriorityInvalid); }
    if !row.e.accepted { return Good(false); }
    r := KnowledgeVisible(row.e, context);
  }

  /** Chain check, sort, leaders of the best rank, and the two ambiguity checks. */
  method LeadingPriority(visible: seq<Priority>) returns (r: Outcome<Priority>)
    ensures r.Good? ==> LeadsIn(visible, r.value)
    ensures r.Refused? ==> forall p :: !LeadsIn(visible, p)
  {
    if visible == [] { return Refused(PriorityMissing); }
    var chain := ValidateRevisionChain(Evidences(visible));
    if chain.Refused? { return Refused(chain.refusal); }
    var first := Foremost(visible);
    if exists a :: a in visible && SameRank(a, first) && a.e.revision != first.e.revision {
      ghost var a :| a in visible && SameRank(a, first) && a.e.revision != first.e.revision;
      Disagreement(Members(visible), first, a);
      return Refused(RevisionConflict);
    }
    if exists a :: a in visible && SameRank(a, first) && !SameTuple(a, first) {
      ghost var a :| a in visible && SameRank(a, first) && !SameTuple(a, first);
      Disagreement(Members(visible), first, a);
      return Refused(PriorityAmbiguous);
    }
    assert forall a :: a in Members(visible) ==> !Ahead(a, first);
    r := Good(first);
  }

  /** Two rows of the best rank that differ leave no leader. */
  lemma Disagreement(seen: set<Priority>, first: Priority, a: Priority)
    requires first in seen && a in seen && forall r :: r in seen ==> !Ahead(r, first)
    requires SameRank(a, first) && (a.e.revision != first.e.revision || !SameTuple(a, first))
    ensures forall p :: !RanksFirst(seen, p)
  {
    forall p ensures !RanksFirst(seen, p) {
      if RanksFirst(seen, p) {
        assert !Outranks(first, p) && !Ahead(p, first);
        assert SameRank(first, p) && SameRank(a, p);
        assert false;
      }
    }
  }

  // ---------------------------------------------------------------- facts

  function SeenFacts(facts: set<Fact>, day: int, context: Context): set<Fact> {
    set f | f in facts && Applies(f.e, day) && Seen(f.e, context)
  }

  predicate ReadableFact(f: Fact, day: int, context: Context) {
    Applies(f.e, day) && f.e.accepted ==> KnowledgeVisible(f.e, context).Good?
  }

  /** Every applicable, accepted candidate has its metadata. */
  ghost predicate FactsReadable(facts: set<Fact>, day: int, context: Context) {
    forall f :: f in facts ==> ReadableFact(f, day, context)
  }

  function FactEvidence(facts: set<Fact>): set<Evidence> {
    set f | f in facts :: f.e
  }

  /** A fact's own ranking values are those of its source's priority fact. */
  predicate Backed(f: Fact, p: Priority) {
    && f.priorityRef == Some(p.e.id) && f.priorityVersion == Some(p.priorityVersion)
    && f.priority == Some(p.sourcePriority) && f.revisionOrder == Some(p.revisionOrder)
  }

  /** Every seen fact is ranked by the priority fact chosen for its source. */
  ghost predicate AllBacked(seen: set<Fact>, rows: set<Priority>, day: int, context: Context) {
    forall f :: f in seen ==> exists p :: PriorityChosen(rows, f.e.source, day, context, p) && Backed(f, p)
  }

  function OrElse(v: Option<int>): int {
    if v.Some? then v.value else 0
  }

  /** Lower priority number, then later known, then higher revision order. */
  predicate Better(a: Fact, b: Fact) {
    || OrElse(a.priority) < OrElse(b.priority)
    || (a.priority == b.priority && Known(a.e) > Known(b.e))
    || (a.priority == b.priority && Known(a.e) == Known(b.e) && OrElse(a.revisionOrder) > OrElse(b.revisionOrder))
  }

  predicate SameGrade(a: Fact, b: Fact) {
    a.priority == b.priority && Known(a.e) == Known(b.e) && a.revisionOrder == b.revisionOrder
  }

  /** Two leaders agree: priority version, content, payload, and within one source the revision. */
  predicate Agree(a: Fact, b: Fact) {
    && a.priorityVersion == b.priorityVersion && a.content == b.content && a.payload == b.payload
    && (a.e.source == b.e.source ==> a.e.revision == b.e.revision)
  }

  /** Newest version, then lowest identity. */
  predicate Sooner(a: Fact, b: Fact) {
    a.e.version > b.e.version || (a.e.version == b.e.version && a.e.id.n < b.e.id.n)
  }

  function Leaders(seen: set<Fact>, f: Fact): set<Fact> {
    set a | a in seen && SameGrade(a, f)
  }

  ghost predicate Wins(seen: set<Fact>, f: Fact) {
    && f in seen && (forall a :: a in seen ==> !Better(a, f))
    && (forall a, b :: a in Leaders(seen, f) && b in Leaders(seen, f) ==> Agree(a, b))
    && (forall a :: a in Leaders(seen, f) ==> !Sooner(a, f))
  }

  /** What the seen facts must satisfy for `f` to be selected among them. */
  ghost predicate ChosenAmong(seen: set<Fact>, rows: set<Priority>, day: int, context: Context, f: Fact) {
    AllBacked(seen, rows, day, context) && Contiguous(FactEvidence(seen)) && Wins(seen, f)
  }

  /** `f` is the selected fact. Nothing here depends on the order of candidates or rows. */
  ghost predicate Chosen(facts: set<Fact>, rows: set<Priority>, day: int, context: Context, f: Fact) {
    FactsReadable(facts, day, context) && ChosenAmong(SeenFacts(facts, day, context), rows, day, context, f)
  }

  /** The winner, column by column: the lowest priority number, of these known last, of these with the highest
      revision order; facts equal in all three agree with each other, and among them it has the newest
      version and then the least identity. */
  lemma WinsExactly(seen: set<Fact>, f: Fact)
    requires forall g :: g in seen ==> g.e.knownAt.Some? && g.priority.Some? && g.revisionOrder.Some?
    ensures Wins(seen, f) <==>
      && f in seen
      && (forall g :: g in seen ==>
            || f.priority.value < g.priority.value
            || (f.priority == g.priority && f.e.knownAt.value > g.e.knownAt.value)
            || (f.priority == g.priority && f.e.knownAt == g.e.knownAt && f.revisionOrder.value > g.revisionOrder.value)
            || (f.priority == g.priority && f.e.knownAt == g.e.knownAt && f.revisionOrder == g.revisionOrder
                && (f.e.version > g.e.version || (f.e.version == g.e.version && f.e.id.n <= g.e.id.n))))
      && forall a, b ::
           && a in seen && a.priority == f.priority && a.e.knownAt == f.e.knownAt && a.revisionOrder == f.revisionOrder
           && b in seen && b.priority == f.priority && b.e.knownAt == f.e.knownAt && b.revisionOrder == f.revisionOrder
           ==>
             && a.priorityVersion == b.priorityVersion && a.content == b.content && a.payload == b.payload
             && (a.e.source == b.e.source ==> a.e.revision == b.e.revision)
  {
    if f in seen {
      forall g | g in seen ensures SameGrade(g, f) || Better(g, f) || Better(f, g) { }
      forall g | g in seen
        ensures g in Leaders(seen, f) <==>
          g.priority == f.priority && g.e.knownAt == f.e.knownAt && g.revisionOrder == f.revisionOrder
      { }
    }
  }

  ghost predicate DistinctFacts(facts: set<Fact>) {
    forall a, b :: a in facts && b in facts && a.e.id == b.e.id ==> a == b
  }

  /** The selected fact: no candidate lacks its evidence, every one in sight carries the reference, version,
      number and revision order of its source's priority fact, every one that supersedes a fact has it in
      sight, one version lower, and the selected fact is the best of those in sight. */
  lemma ChosenExactly(facts: set<Fact>, rows: set<Priority>, day: int, context: Context, f: Fact)
    ensures Chosen(facts, rows, day, context, f) <==>
      var seen := set g | g in facts && InSight(g.e, day, context);
      && (forall g :: g in facts ==> !LacksEvidence(g.e, day, context))
      && (forall g :: g in seen ==>
            exists p :: PriorityChosen(rows, g.e.source, day, context, p)
                        && g.priorityRef == Some(p.e.id) && g.priorityVersion == Some(p.priorityVersion)
                        && g.priority == Some(p.sourcePriority) && g.revisionOrder == Some(p.revisionOrder))
      && (forall g :: g in seen && g.e.supersedes.Some? ==>
            exists h :: h in seen && h.e.id == g.e.supersedes.value && h.e.key == g.e.key
                        && h.e.version == g.e.version - 1)
      && f in seen
      && (forall g :: g in seen ==>
            || f.priority.value < g.priority.value
            || (f.priority == g.priority && f.e.knownAt.value > g.e.knownAt.value)
            || (f.priority == g.priority && f.e.knownAt == g.e.knownAt && f.revisionOrder.value > g.revisionOrder.value)
            || (f.priority == g.priority && f.e.knownAt == g.e.knownAt && f.revisionOrder == g.revisionOrder
                && (f.e.version > g.e.version || (f.e.version == g.e.version && f.e.id.n <= g.e.id.n))))
      && forall a, b ::
           && a in seen && a.priority == f.priority && a.e.knownAt == f.e.knownAt && a.revisionOrder == f.revisionOrder
           && b in seen && b.priority == f.priority && b.e.knownAt == f.e.knownAt && b.revisionOrder == f.revisionOrder
           ==>
             && a.priorityVersion == b.priorityVersion && a.content == b.content && a.payload == b.payload
             && (a.e.source == b.e.source ==> a.e.revision == b.e.revision)
  {
    forall g | g in facts
      ensures Applies(g.e, day) && Seen(g.e, context) <==> InSight(g.e, day, context)
      ensures ReadableFact(g, day, context) <==> !LacksEvidence(g.e, day, context)
    {
      InSightExactly(g.e, day, context);
    }
    var seen := set g | g in facts && InSight(g.e, day, context);
    assert seen == SeenFacts(facts, day, context);
    if AllBacked(seen, rows, day, context) { WinsExactly(seen, f); }
    FactsLinked(seen);
  }

  lemma FactsLinked(seen: set<Fact>)
    ensures Contiguous(FactEvidence(seen)) <==>
      forall g :: g in seen && g.e.supersedes.Some? ==>
        exists h :: h in seen && h.e.id == g.e.supersedes.value && h.e.key == g.e.key
                    && h.e.version == g.e.version - 1
  {
    forall g | g in seen
      ensures Linked(FactEvidence(seen), g.e) <==>
        (g.e.supersedes.Some? ==>
           exists h :: h in seen && h.e.id == g.e.supersedes.value && h.e.key == g.e.key
                       && h.e.version == g.e.version - 1)
    {
      if g.e.supersedes.Some? {
        if h :| h in seen && h.e.id == g.e.supersedes.value && h.e.key == g.e.key && h.e.version == g.e.version - 1 {
          assert h.e in FactEvidence(seen);
        }
        if e :| e in FactEvidence(seen) && e.id == g.e.supersedes.value && e.key == g.e.key
                && e.version == g.e.version - 1 {
          var h :| h in seen && h.e == e;
        }
      }
    }
    forall g | g in seen ensures g.e in FactEvidence(seen) {}
  }

  /** A chosen fact was applicable, accepted and known in time. Of all such facts none has a lower priority
      number, or the same and a later knowledge time, or these the same and a higher revision order; one equal
      in all three agrees with it and has no newer version, and of the same version no lesser identity. */
  lemma ChosenIsBest(facts: set<Fact>, rows: set<Priority>, day: int, context: Context, f: Fact, other: Fact)
    requires Chosen(facts, rows, day, context, f)
    ensures f in facts && Applies(f.e, day) && f.e.accepted && !FirstKnownLater(f.e, context)
    ensures other in facts && Applies(other.e, day) && other.e.accepted && !FirstKnownLater(other.e, context) ==>
      other.priority.Some? && other.revisionOrder.Some? && !Better(other, f)
    ensures f.e.validFrom.Some? && f.e.validFrom.value <= day && (f.e.validTo.Some? ==> day < f.e.validTo.value)
    ensures f.e.knownAt.Some? && f.e.knownAt.value <= context.cutoff
    ensures context.asOf.Some? ==> f.e.knownAt.value <= context.asOf.value
    ensures
      && other in facts && other.e.accepted
      && other.e.validFrom.Some? && other.e.validFrom.value <= day
      && (other.e.validTo.Some? ==> day < other.e.validTo.value)
      && other.e.knownAt.Some? && other.e.knownAt.value <= context.cutoff
      && (context.asOf.Some? ==> other.e.knownAt.value <= context.asOf.value)
      ==>
        && f.priority.Some? && other.priority.Some? && f.revisionOrder.Some? && other.revisionOrder.Some?
        && (|| f.priority.value < other.priority.value
            || (f.priority == other.priority && f.e.knownAt.value > other.e.knownAt.value)
            || (f.priority == other.priority && f.e.knownAt == other.e.knownAt
                && f.revisionOrder.value > other.revisionOrder.value)
            || (f.priority == other.priority && f.e.knownAt == other.e.knownAt
                && f.revisionOrder == other.revisionOrder
                && f.priorityVersion == other.priorityVersion && f.content == other.content
                && f.payload == other.payload && (f.e.source == other.e.source ==> f.e.revision == other.e.revision)
                && (f.e.version > other.e.version
                    || (f.e.version == other.e.version && f.e.id.n <= other.e.id.n))))
  {
    LaterIsInvisible(f.e, context);
    LaterIsInvisible(other.e, context);
    ChosenExactly(facts, rows, day, context, f);
    var seen := SeenFacts(facts, day, context);
    var p :| PriorityChosen(rows, f.e.source, day, context, p) && Backed(f, p);
    if other in facts && Applies(other.e, day) && other.e.accepted && !FirstKnownLater(other.e, context) {
      assert ReadableFact(other, day, context);
      assert other in seen;
      var q :| PriorityChosen(rows, other.e.source, day, context, q) && Backed(other, q);
      InSightExactly(other.e, day, context);
      InSightExactly(f.e, day, context);
    }
  }

  /** At most one fact is selected: the choice is a function of the two sets. */
  lemma ChosenIsUnique(facts: set<Fact>, rows: set<Priority>, day: int, context: Context, f: Fact, g: Fact)
    requires DistinctFacts(facts) && Chosen(facts, rows, day, context, f) && Chosen(facts, rows, day, context, g)
    ensures f == g
  {
    var seen := SeenFacts(facts, day, context);
    var p :| PriorityChosen(rows, f.e.source, day, context, p) && Backed(f, p);
    var q :| PriorityChosen(rows, g.e.source, day, context, q) && Backed(g, q);
    assert !Better(f, g) && !Better(g, f);
    assert SameGrade(f, g) && g in Leaders(seen, f) && f in Leaders(seen, g);
  }

  // ---------------------------------------------------------------- non-interference

  /** Everything in `more` beyond `less` was first known after the cutoff or the knowledge boundary. */
  ghost predicate OnlyLaterFacts(less: set<Fact>, more: set<Fact>, context: Context) {
    less <= more && forall f :: f in more && f !in less ==> FirstKnownLater(f.e, context)
  }

  ghost predicate OnlyLaterRows(less: set<Priority>, more: set<Priority>, context: Context) {
    less <= more && forall r :: r in more && r !in less ==> FirstKnownLater(r.e, context)
  }

  lemma LaterRowsChangeNothing(
      less: set<Priority>, more: set<Priority>, source: int, day: int, context: Context, p: Priority)
    requires OnlyLaterRows(less, more, context)
    ensures PriorityChosen(more, source, day, context, p) <==>
      && PriorityChosen(less, source, day, context, p)
      && forall r :: r in more && r !in less && Concerns(r, source, day) ==> r.valid
  {
    forall r | r in more && r !in less ensures KnowledgeVisible(r.e, context) == Good(false) {
      LaterIsInvisible(r.e, context);
    }
    assert SeenPriorities(more, source, day, context) == SeenPriorities(less, source, day, context);
  }

  /** Facts and strictly valid priority rows that nobody could know yet never change the selection:
      neither which fact is selected nor whether one is. */
  lemma SelectionIgnoresLaterFacts(
      facts: set<Fact>, facts': set<Fact>, rows: set<Priority>, rows': set<Priority>, day: int, context: Context,
      f: Fact)
    requires OnlyLaterFacts(facts, facts', context) && OnlyLaterRows(rows, rows', context)
    requires forall r :: r in rows' && r !in rows ==> r.valid
    ensures Chosen(facts', rows', day, context, f) <==> Chosen(facts, rows, day, context, f)
  {
    forall g | g in facts' && g !in facts ensures KnowledgeVisible(g.e, context) == Good(false) {
      LaterIsInvisible(g.e, context);
    }
    assert SeenFacts(facts', day, context) == SeenFacts(facts, day, context);
    forall source, p
      ensures PriorityChosen(rows', source, day, context, p) <==> PriorityChosen(rows, source, day, context, p)
    {
      LaterRowsChangeNothing(rows, rows', source, day, context, p);
    }
  }

  /** Some seen fact's source has this row, and it applies on the day. */
  ghost predicate Needed(r: Priority, facts: set<Fact>, day: int, context: Context) {
    exists g :: g in SeenFacts(facts, day, context) && Concerns(r, g.e.source, day)
  }

  /** Validation comes before visibility: a row that nobody could know yet but that fails its strict
      validation does block every selection that needs its source. With such rows the selection
      stays the same exactly when no seen fact's source has one that applies on the day. */
  lemma InvalidLaterRowsBlock(
      facts: set<Fact>, rows: set<Priority>, rows': set<Priority>, day: int, context: Context, f: Fact)
    requires OnlyLaterRows(rows, rows', context) && Chosen(facts, rows, day, context, f)
    ensures Chosen(facts, rows', day, context, f) <==>
      forall r :: r in rows' && r !in rows && Needed(r, facts, day, context) ==> r.valid
  {
    var seen := SeenFacts(facts, day, context);
    if forall r :: r in rows' && r !in rows && Needed(r, facts, day, context) ==> r.valid {
      forall g | g in seen ensures exists p :: PriorityChosen(rows', g.e.source, day, context, p) && Backed(g, p) {
        var p :| PriorityChosen(rows, g.e.source, day, context, p) && Backed(g, p);
        LaterRowsChangeNothing(rows, rows', g.e.source, day, context, p);
      }
    } else {
      var r :| r in rows' && r !in rows && Needed(r, facts, day, context) && !r.valid;
      var g :| g in seen && Concerns(r, g.e.source, day);
      forall p ensures !PriorityChosen(rows', g.e.source, day, context, p) {
        LaterRowsChangeNothing(rows, rows', g.e.source, day, context, p);
      }
    }
  }

  const KNOWN := Evidence(Id(0), 1, 0, None, Some(0), None, true, Some(5), None, Some(5), None, 0, 0)
  const RANKING := Priority(KNOWN, 1, 1, 1, 0, true)
  const FACT := Fact(KNOWN.(id := Id(1)), Some(Id(0)), Some(1), Some(1), Some(1), 0, 0)
  /** A row whose content hash is wrong, known at 20 only. */
  const LATER := Priority(KNOWN.(id := Id(2), knownAt := Some(20)), 1, 1, 1, 0, false)
  const CUTOFF := Context(10, None)

  lemma FactIsChosen()
    ensures Chosen({FACT}, {RANKING}, 0, CUTOFF, FACT)
  {
    assert SeenPriorities({RANKING}, 0, 0, CUTOFF) == {RANKING};
    assert EvidenceOf({RANKING}) == {KNOWN};
    assert PriorityChosen({RANKING}, 0, 0, CUTOFF, RANKING);
    assert SeenFacts({FACT}, 0, CUTOFF) == {FACT};
    assert FactEvidence({FACT}) == {FACT.e};
  }

  /** At a cutoff of 10 the one fact is chosen; with a row that becomes known at 20 and fails its strict
      validation, nothing is. */
  lemma LaterRowBlocks()
    ensures Chosen({FACT}, {RANKING}, 0, CUTOFF, FACT) && FirstKnownLater(LATER.e, CUTOFF)
    ensures forall f :: !Chosen({FACT}, {RANKING, LATER}, 0, CUTOFF, f)
  {
    FactIsChosen();
    InvalidLaterRowsBlock({FACT}, {RANKING}, {RANKING, LATER}, 0, CUTOFF, FACT);
    assert FACT in SeenFacts({FACT}, 0, CUTOFF) && Concerns(LATER, FACT.e.source, 0);
    forall f ensures !Chosen({FACT}, {RANKING, LATER}, 0, CUTOFF, f) {
      if Chosen({FACT}, {RANKING, LATER}, 0, CUTOFF, f) { ChosenIsBest({FACT}, {RANKING, LATER}, 0, CUTOFF, f, f); }
    }
  }

  // ---------------------------------------------------------------- the selection

  function EvidencesOfFacts(facts: seq<Fact>): seq<Evidence> {
    seq(|facts|, i requires 0 <= i < |facts| => facts[i].e)
  }

  lemma FactEvidencesAre(facts: seq<Fact>)
    ensures Members(EvidencesOfFacts(facts)) == FactEvidence(Members(facts))
    ensures DistinctFacts(Members(facts)) ==> UniqueIds(EvidencesOfFacts(facts))
  {
    var es := EvidencesOfFacts(facts);
    forall e | e in FactEvidence(Members(facts)) ensures e in es {
      var f :| f in facts && f.e == e;
      var i :| 0 <= i < |facts| && facts[i] == f;
      assert es[i] == e;
    }
    forall e | e in es ensures exists f :: f in Members(facts) && f.e == e {
      var i :| 0 <= i < |facts| && es[i] == e;
      assert facts[i] in Members(facts);
    }
  }

  /** The seen ones of the first n candidates, in list order. */
  function VisibleUpto(candidates: seq<Fact>, day: int, context: Context, n: nat): seq<Fact>
    requires n <= |candidates|
  {
    if n == 0 then []
    else
      var last := candidates[n - 1];
      VisibleUpto(candidates, day, context, n - 1)
      + if Applies(last.e, day) && Seen(last.e, context) then [last] else []
  }

  function VisibleOf(candidates: seq<Fact>, day: int, context: Context): seq<Fact> {
    VisibleUpto(candidates, day, context, |candidates|)
  }

  lemma {:induction false} VisibleMembersUpto(candidates: seq<Fact>, day: int, context: Context, n: nat, f: Fact)
    requires n <= |candidates|
    ensures f in VisibleUpto(candidates, day, context, n) <==>
      Applies(f.e, day) && Seen(f.e, context) && exists j :: 0 <= j < n && candidates[j] == f
  {
    if n > 0 { VisibleMembersUpto(candidates, day, context, n - 1, f); }
  }

  lemma VisibleMembers(candidates: seq<Fact>, day: int, context: Context)
    ensures Members(VisibleOf(candidates, day, context)) == SeenFacts(Members(candidates), day, context)
  {
    forall f ensures f in VisibleOf(candidates, day, context) <==> f in SeenFacts(Members(candidates), day, context) {
      VisibleMembersUpto(candidates, day, context, |candidates|, f);
    }
  }

  ghost predicate AllBackedIn(visible: seq<Fact>, rows: seq<Priority>, day: int, context: Context) {
    forall f :: f in visible ==> BackedIn(f, rows, day, context)
  }

  ghost predicate BackedIn(f: Fact, rows: seq<Priority>, day: int, context: Context) {
    exists p :: PriorityChosenIn(rows, f.e.source, day, context, p) && Backed(f, p)
  }

  ghost predicate ChosenAmongIn(visible: seq<Fact>, rows: seq<Priority>, day: int, context: Context, f: Fact) {
    && AllBackedIn(visible, rows, day, context) && WholeChain(EvidencesOfFacts(visible))
    && Wins(Members(visible), f)
  }

  /** `f` is selected from these lists, in which ids may repeat. */
  ghost predicate ChosenIn(candidates: seq<Fact>, rows: seq<Priority>, day: int, context: Context, f: Fact) {
    && FactsReadable(Members(candidates), day, context)
    && ChosenAmongIn(VisibleOf(candidates, day, context), rows, day, context, f)
  }

  /** With unique ids any permutation of candidates and rows selects the same fact: selection from the lists
      is selection from the sets. */
  lemma SelectionIsOrderFree(candidates: seq<Fact>, rows: seq<Priority>, day: int, context: Context, f: Fact)
    requires DistinctFacts(Members(candidates)) && DistinctIds(Members(rows))
    ensures ChosenIn(candidates, rows, day, context, f) <==>
      Chosen(Members(candidates), Members(rows), day, context, f)
  {
    var visible := VisibleOf(candidates, day, context);
    VisibleMembers(candidates, day, context);
    FactEvidencesAre(visible);
    ChainAccepted(EvidencesOfFacts(visible));
    forall source, p
      ensures PriorityChosenIn(rows, source, day, context, p) <==>
        PriorityChosen(Members(rows), source, day, context, p)
    {
      PriorityOrderFree(rows, source, day, context, p);
    }
    BackedAgree(visible, rows, day, context);
  }

  lemma BackedAgree(visible: seq<Fact>, rows: seq<Priority>, day: int, context: Context)
    requires forall source, p :: PriorityChosenIn(rows, source, day, context, p) <==>
      PriorityChosen(Members(rows), source, day, context, p)
    ensures AllBackedIn(visible, rows, day, context) <==> AllBacked(Members(visible), Members(rows), day, context)
  {
    if AllBacked(Members(visible), Members(rows), day, context) {
      forall f | f in visible ensures BackedIn(f, rows, day, context) {
        assert f in Members(visible);
        var p :| PriorityChosen(Members(rows), f.e.source, day, context, p) && Backed(f, p);
      }
    }
    if AllBackedIn(visible, rows, day, context) {
      forall f | f in Members(visible)
        ensures exists p :: PriorityChosen(Members(rows), f.e.source, day, context, p) && Backed(f, p)
      {
        assert BackedIn(f, rows, day, context);
        var p :| PriorityChosenIn(rows, f.e.source, day, context, p) && Backed(f, p);
      }
    }
  }

  /** Whether one candidate is in sight; only an applicable, accepted one can be refused. */
  method Consider(f: Fact, day: int, context: Context) returns (r: Outcome<bool>)
    ensures r.Good? <==> ReadableFact(f, day, context)
    ensures r.Good? ==> (r.value <==> Applies(f.e, day) && Seen(f.e, context))
    ensures r.Refused? ==> r.refusal == MetadataMissing
  {
    if !Applies(f.e, day) || !f.e.accepted { return Good(false); }
    r := KnowledgeVisible(f.e, context);
  }

  /** The first stage: applicable, accepted and visible candidates. */
  method VisibleFacts(candidates: seq<Fact>, day: int, context: Context)
    returns (r: Outcome<seq<Fact>>, invalidQuality: bool)
    ensures r.Good? <==> FactsReadable(Members(candidates), day, context)
    ensures r.Good? ==> r.value == VisibleOf(candidates, day, context)
    ensures r.Good? ==> Members(r.value) == SeenFacts(Members(candidates), day, context)
    ensures r.Refused? ==> r.refusal == MetadataMissing
    ensures r.Good? ==> (invalidQuality <==> SomeUnaccepted(candidates, day))
  {
    var visible: seq<Fact> := [];
    invalidQuality := false;
    for i := 0 to |candidates|
      invariant visible == VisibleUpto(candidates, day, context, i)
      invariant forall j :: 0 <= j < i ==> ReadableFact(candidates[j], day, context)
      invariant invalidQuality <==> UnacceptedUpto(candidates, day, i)
    {
      var f := candidates[i];
      var seen := Consider(f, day, context);
      if seen.Refused? {
        assert f in Members(candidates);
        return Refused(seen.refusal), invalidQuality;
      }
      if seen.value { visible := visible + [f]; }
      if Applies(f.e, day) && !f.e.accepted { invalidQuality := true; }
    }
    VisibleMembers(candidates, day, context);
    r := Good(visible);
  }

  /** The second stage: one priority fact for every source among the visible facts. */
  method PrioritiesBySource(visible: seq<Fact>, rows: seq<Priority>, day: int, context: Context)
    returns (r: Outcome<map<int, Priority>>)
    ensures r.Good? ==> forall f :: f in visible ==>
      f.e.source in r.value && PriorityChosenIn(rows, f.e.source, day, context, r.value[f.e.source])
    ensures r.Refused? ==> !AllBackedIn(visible, rows, day, context)
  {
    var chosen: map<int, Priority> := map[];
    for i := 0 to |visible|
      invariant forall j :: 0 <= j < i ==> visible[j].e.source in chosen
      invariant forall source :: source in chosen ==>
        PriorityChosenIn(rows, source, day, context, chosen[source])
    {
      var source := visible[i].e.source;
      if source !in chosen {
        var p := SelectSourcePriority(source, rows, day, context);
        if p.Refused? {
          assert !BackedIn(visible[i], rows, day, context);
          return Refused(p.refusal);
        }
        chosen := chosen[source := p.value];
      }
    }
    r := Good(chosen);
  }

  /** The reference checks of the rank key, for every visible fact. */
  method CheckReferences(
      visible: seq<Fact>, rows: seq<Priority>, chosen: map<int, Priority>, day: int, context: Context)
    returns (ok: bool)
    requires forall f :: f in visible ==>
      f.e.source in chosen && PriorityChosenIn(rows, f.e.source, day, context, chosen[f.e.source])
    ensures ok <==> AllBackedIn(visible, rows, day, context)
  {
    for i := 0 to |visible|
      invariant forall j :: 0 <= j < i ==> Backed(visible[j], chosen[visible[j].e.source])
    {
      var f := visible[i];
      if !Backed(f, chosen[f.e.source]) {
        NotBacked(f, rows, chosen[f.e.source], day, context);
        return false;
      }
    }
    forall f | f in visible ensures BackedIn(f, rows, day, context) {
      var j :| 0 <= j < |visible| && visible[j] == f;
      assert PriorityChosenIn(rows, f.e.source, day, context, chosen[f.e.source]) && Backed(f, chosen[f.e.source]);
    }
    ok := true;
  }

  /** All rows that lead a source rank facts alike, so one of them decides. */
  lemma NotBacked(f: Fact, rows: seq<Priority>, p: Priority, day: int, context: Context)
    requires PriorityChosenIn(rows, f.e.source, day, context, p) && !Backed(f, p)
    ensures !BackedIn(f, rows, day, context)
  {
    forall q | PriorityChosenIn(rows, f.e.source, day, context, q) ensures !Backed(f, q) {
      FirstIsOne(Members(SeenRows(rows, f.e.source, day, context)), p, q);
    }
  }

  method BestRank(visible: seq<Fact>) returns (best: Fact)
    requires visible != [] && forall f :: f in visible ==> f.priority.Some? && f.revisionOrder.Some?
    ensures best in visible && forall f :: f in visible ==> !Better(f, best)
  {
    best := visible[0];
    for i := 1 to |visible|
      invariant best in visible && forall j :: 0 <= j < i ==> !Better(visible[j], best)
    {
      if Better(visible[i], best) { best := visible[i]; }
    }
  }

  method LeadersOf(visible: seq<Fact>, best: Fact) returns (leaders: seq<Fact>)
    ensures Members(leaders) == Leaders(Members(visible), best)
  {
    leaders := [];
    for i := 0 to |visible|
      invariant forall f :: f in leaders <==> f in visible[..i] && SameGrade(f, best)
    {
      assert visible[..i + 1] == visible[..i] + [visible[i]];
      if SameGrade(visible[i], best) { leaders := leaders + [visible[i]]; }
    }
    assert visible[..|visible|] == visible;
    assert Members(leaders) == Leaders(Members(visible), best);
  }

  method Soonest(leaders: seq<Fact>) returns (first: Fact)
    requires leaders != []
    ensures first in leaders && forall f :: f in leaders ==> !Sooner(f, first)
  {
    first := leaders[0];
    for i := 1 to |leaders|
      invariant first in leaders && forall j :: 0 <= j < i ==> !Sooner(leaders[j], first)
    {
      if Sooner(leaders[i], first) { first := leaders[i]; }
    }
  }

  /** Two facts of the best rank that disagree leave no winner. */
  lemma NoWinner(seen: set<Fact>, best: Fact, a: Fact, b: Fact)
    requires best in seen && forall f :: f in seen ==> f.priority.Some? && f.revisionOrder.Some? && !Better(f, best)
    requires a in Leaders(seen, best) && b in Leaders(seen, best) && !Agree(a, b)
    ensures forall f :: !Wins(seen, f)
  {
    forall f ensures !Wins(seen, f) {
      if Wins(seen, f) {
        assert false;
      }
    }
  }

  /** The last stages: the leaders of the best rank, their three agreements, and the tie-break. */
  method Winner(visible: seq<Fact>) returns (r: Outcome<Fact>)
    requires visible != [] && forall f :: f in visible ==> f.priority.Some? && f.revisionOrder.Some?
    ensures r.Good? ==> Wins(Members(visible), r.value)
    ensures r.Refused? ==> (forall f :: !Wins(Members(visible), f)) && r.refusal in {RevisionConflict, FactAmbiguous}
  {
    var best := BestRank(visible);
    var leaders := LeadersOf(visible, best);
    ghost var seen := Members(visible);
    if exists a, b :: a in leaders && b in leaders && a.priorityVersion != b.priorityVersion {
      ghost var a, b :| a in leaders && b in leaders && a.priorityVersion != b.priorityVersion;
      assert a in Members(leaders) && b in Members(leaders);
      NoWinner(seen, best, a, b);
      return Refused(RevisionConflict);
    }
    if exists a, b :: a in leaders && b in leaders && a.e.source == b.e.source && a.e.revision != b.e.revision {
      ghost var a, b :| a in leaders && b in leaders && a.e.source == b.e.source && a.e.revision != b.e.revision;
      assert a in Members(leaders) && b in Members(leaders);
      NoWinner(seen, best, a, b);
      return Refused(RevisionConflict);
    }
    if exists a, b :: a in leaders && b in leaders && (a.content != b.content || a.payload != b.payload) {
      ghost var a, b :| a in leaders && b in leaders && (a.content != b.content || a.payload != b.payload);
      assert a in Members(leaders) && b in Members(leaders);
      NoWinner(seen, best, a, b);
      return Refused(FactAmbiguous);
    }
    assert best in Members(leaders);
    var first := Soonest(leaders);
    assert forall f :: f in Members(leaders) ==> f in leaders;
    assert first in Members(leaders);
    r := Good(first);
  }

  predicate SomeUnaccepted(candidates: seq<Fact>, day: int) {
    UnacceptedUpto(candidates, day, |candidates|)
  }

  predicate UnacceptedUpto(candidates: seq<Fact>, day: int, n: nat)
    requires n <= |candidates|
  {
    exists j :: 0 <= j < n && Applies(candidates[j].e, day) && !candidates[j].e.accepted
  }

  /** Succeeds with a chosen fact, and fails exactly when there is none. With unique ids the chosen fact
      is the only one and the order of the lists does not matter. */
  method SelectPitCandidate(candidates: seq<Fact>, rows: seq<Priority>, day: int, context: Context)
    returns (r: Outcome<Fact>)
    ensures r.Good? ==> ChosenIn(candidates, rows, day, context, r.value)
    ensures r.Refused? ==> forall f :: !ChosenIn(candidates, rows, day, context, f)
    ensures DistinctFacts(Members(candidates)) && DistinctIds(Members(rows)) ==>
      forall f :: Chosen(Members(candidates), Members(rows), day, context, f) <==> r == Good(f)
    ensures FactsReadable(Members(candidates), day, context) && SeenFacts(Members(candidates), day, context) == {} ==>
      r == Refused(if SomeUnaccepted(candidates, day) then FactInvalid else FactMissing)
    ensures r.Good? ==>
      var f := r.value;
      && f in candidates && InSight(f.e, day, context)
      && forall g :: g in candidates && InSight(g.e, day, context) ==>
           && g.priority.Some? && g.revisionOrder.Some? && f.priority.Some? && f.revisionOrder.Some?
           && (|| f.priority.value < g.priority.value
               || (f.priority == g.priority && f.e.knownAt.value > g.e.knownAt.value)
               || (f.priority == g.priority && f.e.knownAt == g.e.knownAt
                   && f.revisionOrder.value > g.revisionOrder.value)
               || (f.priority == g.priority && f.e.knownAt == g.e.knownAt && f.revisionOrder == g.revisionOrder
                   && f.priorityVersion == g.priorityVersion && f.content == g.content && f.payload == g.payload
                   && (f.e.source == g.e.source ==> f.e.revision == g.e.revision)
                   && (f.e.version > g.e.version || (f.e.version == g.e.version && f.e.id.n <= g.e.id.n))))
    ensures (exists g :: g in candidates && LacksEvidence(g.e, day, context)) ==> r == Refused(MetadataMissing)
    ensures (forall g :: g in candidates ==> !LacksEvidence(g.e, day, context) && !InSight(g.e, day, context)) ==>
      r == Refused(
        if exists g :: g in candidates && !g.e.accepted && g.e.validFrom.Some? && g.e.validFrom.value <= day
                       && (g.e.validTo.Some? ==> day < g.e.validTo.value)
        then FactInvalid else FactMissing)
  {
    r := SelectFrom(candidates, rows, day, context);
    if r.Good? { WinnerIsBest(candidates, rows, day, context, r.value); }
    StagesBySight(candidates, day, context);
    if DistinctFacts(Members(candidates)) && DistinctIds(Members(rows)) {
      forall f ensures Chosen(Members(candidates), Members(rows), day, context, f) <==> r == Good(f) {
        SelectionIsOrderFree(candidates, rows, day, context, f);
        if r.Good? && Chosen(Members(candidates), Members(rows), day, context, f) {
          SelectionIsOrderFree(candidates, rows, day, context, r.value);
          ChosenIsUnique(Members(candidates), Members(rows), day, context, f, r.value);
        }
      }
    }
  }

  lemma WinnerIsBest(candidates: seq<Fact>, rows: seq<Priority>, day: int, context: Context, f: Fact)
    requires ChosenIn(candidates, rows, day, context, f)
    ensures f in candidates && InSight(f.e, day, context)
    ensures forall g :: g in candidates && InSight(g.e, day, context) ==>
      && g.priority.Some? && g.revisionOrder.Some? && f.priority.Some? && f.revisionOrder.Some?
      && (|| f.priority.value < g.priority.value
          || (f.priority == g.priority && f.e.knownAt.value > g.e.knownAt.value)
          || (f.priority == g.priority && f.e.knownAt == g.e.knownAt && f.revisionOrder.value > g.revisionOrder.value)
          || (f.priority == g.priority && f.e.knownAt == g.e.knownAt && f.revisionOrder == g.revisionOrder
              && f.priorityVersion == g.priorityVersion && f.content == g.content && f.payload == g.payload
              && (f.e.source == g.e.source ==> f.e.revision == g.e.revision)
              && (f.e.version > g.e.version || (f.e.version == g.e.version && f.e.id.n <= g.e.id.n))))
    ensures exists p ::
      && PriorityChosenIn(rows, f.e.source, day, context, p)
      && f.priorityRef == Some(p.e.id) && f.priorityVersion == Some(p.priorityVersion)
      && f.priority == Some(p.sourcePriority) && f.revisionOrder == Some(p.revisionOrder)
  {
    var visible := VisibleOf(candidates, day, context);
    VisibleMembers(candidates, day, context);
    BackedHaveRank(visible, rows, day, context);
    assert BackedIn(f, rows, day, context);
    forall g | g in candidates
      ensures g in SeenFacts(Members(candidates), day, context) <==> InSight(g.e, day, context)
    {
      InSightExactly(g.e, day, context);
    }
    forall g | g in Members(visible) ensures g.priority.Some? && g.revisionOrder.Some? && g.e.knownAt.Some? {
      assert g in visible;
    }
    WinsExactly(Members(visible), f);
    forall g | g in candidates && InSight(g.e, day, context)
      ensures g.priority.Some? && g.revisionOrder.Some? && f.priority.Some? && f.revisionOrder.Some?
    {
      assert g in Members(visible);
    }
  }

  method SelectFrom(candidates: seq<Fact>, rows: seq<Priority>, day: int, context: Context)
    returns (r: Outcome<Fact>)
    ensures r.Good? ==> ChosenIn(candidates, rows, day, context, r.value)
    ensures r.Refused? ==> forall f :: !ChosenIn(candidates, rows, day, context, f)
    ensures FactsReadable(Members(candidates), day, context) && SeenFacts(Members(candidates), day, context) == {} ==>
      r == Refused(if SomeUnaccepted(candidates, day) then FactInvalid else FactMissing)
    ensures !FactsReadable(Members(candidates), day, context) ==> r == Refused(MetadataMissing)
  {
    if candidates == [] { return Refused(FactMissing); }
    var seen, invalidQuality := VisibleFacts(candidates, day, context);
    if seen.Refused? { return Refused(seen.refusal); }
    var visible := seen.value;
    if visible == [] { return Refused(if invalidQuality then FactInvalid else FactMissing); }
    assert visible[0] in Members(visible);
    r := SelectAmong(visible, rows, day, context);
  }

  lemma StagesBySight(candidates: seq<Fact>, day: int, context: Context)
    ensures FactsReadable(Members(candidates), day, context) <==>
      forall g :: g in candidates ==> !LacksEvidence(g.e, day, context)
    ensures SeenFacts(Members(candidates), day, context) == {} <==>
      forall g :: g in candidates ==> !InSight(g.e, day, context)
    ensures SomeUnaccepted(candidates, day) <==>
      exists g :: g in candidates && !g.e.accepted && g.e.validFrom.Some? && g.e.validFrom.value <= day
                  && (g.e.validTo.Some? ==> day < g.e.validTo.value)
  {
    forall g | g in candidates
      ensures ReadableFact(g, day, context) <==> !LacksEvidence(g.e, day, context)
      ensures g in SeenFacts(Members(candidates), day, context) <==> InSight(g.e, day, context)
    {
      InSightExactly(g.e, day, context);
    }
    if g :| g in candidates && !g.e.accepted && g.e.validFrom.Some? && g.e.validFrom.value <= day
            && (g.e.validTo.Some? ==> day < g.e.validTo.value) {
      var j :| 0 <= j < |candidates| && candidates[j] == g;
    }
  }

  /** The stages after visibility. */
  method SelectAmong(visible: seq<Fact>, rows: seq<Priority>, day: int, context: Context) returns (r: Outcome<Fact>)
    requires visible != []
    ensures r.Good? ==> ChosenAmongIn(visible, rows, day, context, r.value)
    ensures r.Refused? ==> forall f :: !ChosenAmongIn(visible, rows, day, context, f)
  {
    var chosen := PrioritiesBySource(visible, rows, day, context);
    if chosen.Refused? { return Refused(chosen.refusal); }
    var chain := ValidateRevisionChain(EvidencesOfFacts(visible));
    if chain.Refused? { return Refused(chain.refusal); }
    var backed := CheckReferences(visible, rows, chosen.value, day, context);
    if !backed { return Refused(RevisionConflict); }
    BackedHaveRank(visible, rows, day, context);
    r := Winner(visible);
  }

  lemma BackedHaveRank(visible: seq<Fact>, rows: seq<Priority>, day: int, context: Context)
    requires AllBackedIn(visible, rows, day, context)
    ensures forall f :: f in visible ==> f.priority.Some? && f.revisionOrder.Some?
  {
    forall f | f in visible ensures f.priority.Some? && f.revisionOrder.Some? {
      assert BackedIn(f, rows, day, context);
    }
  }
}
