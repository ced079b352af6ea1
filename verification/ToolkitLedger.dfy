/** The toolkit tables of one application and community: what a handler stages on the
    catalogue it has read, and what the statements of its commit store. Commits carry no
    version here, so the catalogue may have moved on in between. */
module ToolkitLedger {
  import opened Wrappers
  import opened ToolkitValues
  import Domain
  import Json = JsonSchema

  type Hash = Domain.Hash

  datatype Concept = Concept(definition: Definition, active: bool)

  /** A concept revision: its key and the digest of its definition. */
  type ConceptKey = (string, string)

  datatype Assertion = Assertion(
    tool: string, concept: ConceptKey, value: Option<Json.Json>, initial: Verification, effective: Verification,
    reviewOperation: Option<Hash>)

  /** A review state is verified or rejected. */
  type ReviewState = v: Verification | v == Verified || v == Rejected witness Verified

  datatype Review = Review(assertion: string, state: ReviewState, operation: Hash)

  type Reviews = map<string, Review>

  datatype Catalog = Catalog(
    concepts: map<ConceptKey, Concept>, tools: map<string, bool>, assertions: map<string, Assertion>, reviews: Reviews)

  const NOTHING := Catalog(map[], map[], map[], map[])

  // ------------------------------------------------------------ aggregation

  function StatesOf(reviews: Reviews, assertion: string): set<Verification> {
    set id | id in reviews && reviews[id].assertion == assertion :: reviews[id].state
  }

  function OperationsOf(reviews: Reviews, assertion: string): set<Hash> {
    set id | id in reviews && reviews[id].assertion == assertion :: reviews[id].operation
  }

  /** No review leaves the initial state, agreement decides, disagreement rejects. */
  function Effective(reviews: Reviews, assertion: string, initial: Verification): Verification {
    var states := StatesOf(reviews, assertion);
    if states == {} then initial else if states == {Verified} then Verified else Rejected
  }

  /** `ORDER BY hex(source_operation_hash) LIMIT 1` */
  function Smallest(operations: set<Hash>): (r: Option<Hash>)
    ensures r.None? <==> operations == {}
    ensures r.Some? ==> r.value in operations && forall g :: g in operations ==> r.value <= g
  {
    if operations == {} then None
    else
      SomeSmallest(operations);
      var h :| h in operations && forall g :: g in operations ==> h <= g;
      Some(h)
  }

  lemma SomeSmallest(operations: set<Hash>)
    requires operations != {}
    ensures exists h :: h in operations && forall g :: g in operations ==> h <= g
  {
    var x :| x in operations;
    HasSmallest(operations, x);
  }

  lemma {:induction false} HasSmallest(operations: set<Hash>, x: Hash)
    requires x in operations
    ensures exists h :: h in operations && forall g :: g in operations ==> h <= g
    decreases x
  {
    if y :| y in operations && y < x {
      HasSmallest(operations, y);
    } else {
      assert forall g :: g in operations ==> x <= g;
    }
  }

  /** Both verified, on one tool and one concept revision. */
  predicate Compete(c: Catalog, a: string, b: string) {
    && a in c.assertions && b in c.assertions
    && c.assertions[a].effective == Verified && c.assertions[b].effective == Verified
    && c.assertions[a].tool == c.assertions[b].tool && c.assertions[a].concept == c.assertions[b].concept
  }

  // ----------------------------------------------------------------- requests

  /** What a client asks; an assertion without a revision means the active one. */
  datatype Request =
    | AddConcept(key: ConceptKey, definition: Definition)
    | AddTool(tool: string, status: bool)
    | Assert(id: string, on: string, concept: string, revision: Option<string>, value: Option<Json.Json>,
        state: Verification)
    | Verify(review: string, assertion: string, verdict: ReviewState, operation: Hash)

  /** The projection a handler submits with its document. */
  datatype Projection =
    | ConceptRow(key: ConceptKey, definition: Definition)
    | ToolRow(tool: string, status: bool)
    | AssertionRow(id: string, assertion: Assertion)
    | ReviewRow(id: string, review: Review)

  predicate Named(c: Catalog, k: ConceptKey, key: string, revision: Option<string>) {
    k in c.concepts && k.0 == key && (if revision.Some? then k.1 == revision.value else c.concepts[k].active)
  }

  /** A concept key has an active revision. */
  predicate Known(c: Catalog, key: string) { exists k :: k in c.concepts && k.0 == key && c.concepts[k].active }

  /** `resolve_concept`: the named row, if there is one. */
  ghost function Resolve(c: Catalog, key: string, revision: Option<string>): Option<ConceptKey> {
    if exists k :: Named(c, k, key, revision) then
      var k :| Named(c, k, key, revision);
      Some(k)
    else None
  }

  // ------------------------------------------------------------------- checks

  /** `validate_concept_references` */
  ghost predicate ReferencesResolve(c: Catalog, d: Definition) {
    && (forall category :: category in d.categories ==>
          && var k := Resolve(c, category, None);
          && k.Some? && (c.concepts[k.value].definition.kind == Area || c.concepts[k.value].definition.kind == Role))
    && (d.parent.Some? ==> Resolve(c, d.parent.value, None).Some?)
  }

  /** `validate_applicability`: the tool verifiably belongs to one of the categories. */
  ghost predicate Applicable(c: Catalog, d: Definition, tool: string) {
    d.categories == [] ||
    exists category, id :: category in d.categories && id in c.assertions &&
      var a := c.assertions[id];
      a.tool == tool && Some(a.concept) == Resolve(c, category, None) && a.effective == Verified &&
      a.value == Some(Json.Bool(true))
  }

  /** `reject_local_cardinality_conflict` */
  predicate CardinalityConflict(c: Catalog, tool: string, concept: ConceptKey, value: Option<Json.Json>,
          except: Option<string>) {
    && SingleValued(c, concept)
    && exists id :: id in c.assertions && c.assertions[id].tool == tool && c.assertions[id].concept == concept
                    && c.assertions[id].effective == Verified && Some(id) != except && c.assertions[id].value != value
  }

  predicate SingleValued(c: Catalog, concept: ConceptKey) {
    concept in c.concepts && c.concepts[concept].definition.cardinality == One
  }

  ghost predicate AssertAllowed(c: Catalog, id: string, tool: string, concept: ConceptKey, value: Option<Json.Json>,
          state: Verification) {
    && ValidKey(id) && id !in c.assertions
    && tool in c.tools && c.tools[tool]
    && concept in c.concepts
    && ValueFits(c.concepts[concept].definition, value, state)
    && Applicable(c, c.concepts[concept].definition, tool)
    && (state == Verified ==> !CardinalityConflict(c, tool, concept, value, None))
  }

  ghost predicate VerifyAllowed(c: Catalog, id: string, assertion: string, state: ReviewState) {
    && ValidKey(id) && id !in c.reviews
    && assertion in c.assertions
    && var a := c.assertions[assertion];
    && a.concept in c.concepts
    && ValueFits(c.concepts[a.concept].definition, a.value, state)
    && Applicable(c, c.concepts[a.concept].definition, a.tool)
    && (state == Verified ==> !CardinalityConflict(c, a.tool, a.concept, a.value, Some(assertion)))
  }

  /** What the handler of a request submits on the catalogue it has read, if it accepts. */
  ghost function Staged(c: Catalog, request: Request): Option<Projection> {
    match request
    case AddConcept(key, definition) =>
      if WellShaped(key.0, definition) && ReferencesResolve(c, definition) && key !in c.concepts
      then Some(ConceptRow(key, definition)) else None
    case AddTool(tool, status) => if ValidKey(tool) && tool !in c.tools then Some(ToolRow(tool, status)) else None
    case Assert(id, tool, key, revision, value, state) =>
      var concept := Resolve(c, key, revision);
      if concept.Some? && AssertAllowed(c, id, tool, concept.value, value, state)
      then Some(AssertionRow(id, Assertion(tool, concept.value, value, state, state, None))) else None
    case Verify(id, assertion, state, operation) =>
      if VerifyAllowed(c, id, assertion, state) then Some(ReviewRow(id, Review(assertion, state, operation))) else None
  }

  // ------------------------------------------------------------------- writes

  /** The older active revision of a key is switched off. */
  function Deactivated(concepts: map<ConceptKey, Concept>, key: string): map<ConceptKey, Concept> {
    map k | k in concepts :: if k.0 == key then concepts[k].(active := false) else concepts[k]
  }

  /** `typed_value`: the value columns hold no array and no object. */
  predicate Columnar(value: Option<Json.Json>) { value.Some? ==> !value.value.Array? && !value.value.Object? }

  function Reviewed(a: Assertion, reviews: Reviews, id: string): Assertion {
    a.(effective := Effective(reviews, id, a.initial), reviewOperation := Smallest(OperationsOf(reviews, id)))
  }

  /** The statements of the commit, unless a primary or foreign key stops them. */
  function Stored(c: Catalog, p: Projection): Option<Catalog> {
    match p
    case ConceptRow(key, definition) =>
      if key in c.concepts then None
      else Some(c.(concepts := Deactivated(c.concepts, key.0)[key := Concept(definition, true)]))
    case ToolRow(tool, status) => if tool in c.tools then None else Some(c.(tools := c.tools[tool := status]))
    case AssertionRow(id, a) =>
      if id in c.assertions || a.tool !in c.tools || a.concept !in c.concepts || !Columnar(a.value) then None
      else Some(c.(assertions := c.assertions[id := a]))
    case ReviewRow(id, review) =>
      if id in c.reviews || review.assertion !in c.assertions then None
      else
        var reviews := c.reviews[id := review];
        Some(c.(reviews := reviews,
                assertions := c.assertions[review.assertion :=
                  Reviewed(c.assertions[review.assertion], reviews, review.assertion)]))
  }

  /** A request that meets an unchanged catalogue. */
  ghost function Write(c: Catalog, request: Request): Catalog {
    match Staged(c, request)
    case None => c
    case Some(p) => match Stored(c, p) case None => c case Some(c') => c'
  }

  ghost function Run(requests: seq<Request>): Catalog {
    if requests == [] then NOTHING else Write(Run(requests[..|requests| - 1]), requests[|requests| - 1])
  }

  /** No write removes a row or alters what it says: a concept can only be switched off,
      an assertion only change its effective state and review hash. */
  ghost predicate Keeps(c: Catalog, c': Catalog) {
    && (forall k :: k in c.concepts ==>
          && k in c'.concepts && c'.concepts[k].definition == c.concepts[k].definition
          && (c'.concepts[k].active ==> c.concepts[k].active))
    && (forall t :: t in c.tools ==> t in c'.tools && c'.tools[t] == c.tools[t])
    && (forall r :: r in c.reviews ==> r in c'.reviews && c'.reviews[r] == c.reviews[r])
    && (forall id :: id in c.assertions ==>
          && id in c'.assertions
          && var a, a' := c.assertions[id], c'.assertions[id];
          && a'.tool == a.tool && a'.concept == a.concept && a'.value == a.value && a'.initial == a.initial)
  }

  lemma StoreKeeps(c: Catalog, p: Projection)
    requires Stored(c, p).Some?
    ensures Keeps(c, Stored(c, p).value)
  {
  }

  lemma KeepsOn(a: Catalog, b: Catalog, c: Catalog)
    requires Keeps(a, b) && Keeps(b, c)
    ensures Keeps(a, c)
  {
  }

  /** The tables that the statements of one transaction update in place. */
  class Tables {
    var concepts: map<ConceptKey, Concept>
    var tools: map<string, bool>
    var assertions: map<string, Assertion>
    var reviews: Reviews

    function Contents(): Catalog
      reads this
    {
      Catalog(concepts, tools, assertions, reviews)
    }

    constructor ()
      ensures Contents() == NOTHING
    {
      concepts, tools, assertions, reviews := map[], map[], map[], map[];
    }

    method Apply(p: Projection) returns (ok: bool)
      modifies this
      ensures match Stored(old(Contents()), p)
              case None => !ok && Contents() == old(Contents())
              case Some(after) => ok && Contents() == after
      ensures Keeps(old(Contents()), Contents())
    {
      match p {
        case ConceptRow(key, definition) =>
          if key in concepts { return false; }
          concepts := Deactivated(concepts, key.0);
          concepts := concepts[key := Concept(definition, true)];
        case ToolRow(tool, status) =>
          if tool in tools { return false; }
          tools := tools[tool := status];
        case AssertionRow(id, a) =>
          if !Columnar(a.value) || id in assertions || a.tool !in tools || a.concept !in concepts { return false; }
          assertions := assertions[id := a];
        case ReviewRow(id, review) =>
          if id in reviews || review.assertion !in assertions { return false; }
          reviews := reviews[id := review];
          var a := assertions[review.assertion];
          assertions := assertions[review.assertion := Reviewed(a, reviews, review.assertion)];
      }
      return true;
    }
  }
}
