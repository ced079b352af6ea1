/** Query evaluation over a toolkit catalogue: what each requirement comes to, and the
    one order in which the results can be listed. */
module ToolkitQuery {
  import opened Wrappers
  import opened ToolkitValues
  import Json = JsonSchema
  import Ledger = ToolkitLedger
  import Safety = ToolkitSafety
  import Lexical

  datatype Operator = Eq | Ne | In | Exists | Gt | Gte | Lt | Lte

  datatype Requirement = Requirement(
    concept: Ledger.ConceptKey, cardinality: Cardinality, op: Operator, value: Option<Json.Json>, required: bool)

  datatype State = Satisfied | Unsatisfied | NotKnown | Missing | StillProposed | Refused | Conflict

  /** An assertion as the query reads it. */
  datatype Stated = Stated(id: string, tool: string, concept: Ledger.ConceptKey, value: Option<Json.Json>,
          state: Verification)

  // ------------------------------------------------------------- requirements

  predicate Comparable(a: Json.Json, b: Option<Json.Json>) { a.IsNumber() && b.Some? && b.value.IsNumber() }

  /** `numeric_cmp` */
  predicate Less(a: Json.Json, b: Option<Json.Json>) { Comparable(a, b) && a.AsReal() < b.value.AsReal() }

  predicate Same(a: Json.Json, b: Option<Json.Json>) { Comparable(a, b) && a.AsReal() == b.value.AsReal() }

  predicate Greater(a: Json.Json, b: Option<Json.Json>) { Comparable(a, b) && a.AsReal() > b.value.AsReal() }

  /** One verified value against the requirement. */
  predicate ValueMatches(value: Option<Json.Json>, r: Requirement) {
    value.Some? &&
    match r.op
    case Eq => value == r.value
    case In => r.value.Some? && r.value.value.Array? && value.value in r.value.value.items
    case Gt => Greater(value.value, r.value)
    case Gte => Greater(value.value, r.value) || Same(value.value, r.value)
    case Lt => Less(value.value, r.value)
    case Lte => Less(value.value, r.value) || Same(value.value, r.value)
    case _ => false
  }

  function Relevant(assertions: seq<Stated>, tool: string, concept: Ledger.ConceptKey): seq<Stated> {
    if assertions == [] then []
    else
      var rest := Relevant(assertions[1..], tool, concept);
      if assertions[0].tool == tool && assertions[0].concept == concept then [assertions[0]] + rest else rest
  }

  function WithState(assertions: seq<Stated>, state: Verification): seq<Stated> {
    if assertions == [] then []
    else
      var rest := WithState(assertions[1..], state);
      if assertions[0].state == state then [assertions[0]] + rest else rest
  }

  /** `requirement_matches` */
  predicate Matches(verified: seq<Stated>, r: Requirement) {
    match r.op
    case Exists => true
    case Ne => forall a :: a in verified ==> a.value != r.value
    case _ => exists a :: a in verified && ValueMatches(a.value, r)
  }

  /** The fold that collects each verified value once. */
  function Distinct(verified: seq<Stated>): seq<Json.Json> {
    if verified == [] then []
    else
      var values := Distinct(verified[..|verified| - 1]);
      var value := verified[|verified| - 1].value;
      if value.Some? && value.value !in values then values + [value.value] else values
  }

  /** `evaluate_requirement` on the assertions of one tool. */
  function Evaluate(assertions: seq<Stated>, tool: string, r: Requirement): State {
    var relevant := Relevant(assertions, tool, r.concept);
    var verified := WithState(relevant, Verified);
    if r.cardinality == One && |Distinct(verified)| > 1 then Conflict
    else if verified != [] then (if Matches(verified, r) then Satisfied else Unsatisfied)
    else if WithState(relevant, Rejected) != [] then Refused
    else if WithState(relevant, Proposed) != [] then StillProposed
    else if WithState(relevant, Unknown) != [] then NotKnown
    else Missing
  }

  /** What counts for a requirement: the set of assertions on its tool and concept. */
  predicate Counts(a: Stated, tool: string, r: Requirement) { a.tool == tool && a.concept == r.concept }

  /** A requirement's state read off that set, whatever its listing. */
  ghost predicate Outcome(all: set<Stated>, r: Requirement, state: State) {
    var verified := set a | a in all && a.state == Verified;
    var clash := exists a, b :: a in verified && b in verified && a.value.Some? && b.value.Some? && a.value != b.value;
    if r.cardinality == One && clash then state == Conflict
    else if verified != {} then
      state == (if Met(verified, r) then Satisfied else Unsatisfied)
    else if exists a :: a in all && a.state == Rejected then state == Refused
    else if exists a :: a in all && a.state == Proposed then state == StillProposed
    else if exists a :: a in all && a.state == Unknown then state == NotKnown
    else state == Missing
  }

  lemma {:induction false} RelevantRows(assertions: seq<Stated>, tool: string, concept: Ledger.ConceptKey)
    ensures forall a :: a in Relevant(assertions, tool, concept) <==>
              a in assertions && a.tool == tool && a.concept == concept
  {
    if assertions != [] {
      RelevantRows(assertions[1..], tool, concept);
      assert assertions == [assertions[0]] + assertions[1..];
    }
  }

  lemma {:induction false} StateRows(assertions: seq<Stated>, state: Verification)
    ensures forall a :: a in WithState(assertions, state) <==> a in assertions && a.state == state
  {
    if assertions != [] {
      StateRows(assertions[1..], state);
      assert assertions == [assertions[0]] + assertions[1..];
    }
  }

  lemma {:induction false} DistinctValues(verified: seq<Stated>)
    ensures forall v :: v in Distinct(verified) <==> exists a :: a in verified && a.value == Some(v)
    ensures forall i, j :: 0 <= i < j < |Distinct(verified)| ==> Distinct(verified)[i] != Distinct(verified)[j]
  {
    if verified != [] {
      var front, last := verified[..|verified| - 1], verified[|verified| - 1];
      assert verified == front + [last];
      DistinctValues(front);
      forall v | v in Distinct(verified) ensures exists a :: a in verified && a.value == Some(v) {
        if v in Distinct(front) {
          var a :| a in front && a.value == Some(v);
          assert a in verified;
        } else {
          assert last in verified && last.value == Some(v);
        }
      }
    }
  }

  lemma ClashMeansTwo(verified: seq<Stated>)
    ensures |Distinct(verified)| > 1 <==>
              exists a, b :: a in verified && b in verified && a.value.Some? && b.value.Some? && a.value != b.value
  {
    DistinctValues(verified);
    var values := Distinct(verified);
    if |values| > 1 {
      assert values[0] in values && values[1] in values && values[0] != values[1];
      var a :| a in verified && a.value == Some(values[0]);
      var b :| b in verified && b.value == Some(values[1]);
    }
    if a, b :| a in verified && b in verified && a.value.Some? && b.value.Some? && a.value != b.value {
      TwoMembers(values, a.value.value, b.value.value);
    }
  }

  lemma TwoMembers(values: seq<Json.Json>, x: Json.Json, y: Json.Json)
    requires x in values && y in values && x != y
    ensures |values| > 1
  {
  }

  function Counted(assertions: seq<Stated>, tool: string, r: Requirement): set<Stated> {
    set a | a in assertions && Counts(a, tool, r)
  }

  /** The evaluation is the reading of the set. */
  lemma EvaluationReadsSet(assertions: seq<Stated>, tool: string, r: Requirement)
    ensures Outcome(Counted(assertions, tool, r), r, Evaluate(assertions, tool, r))
  {
    var relevant := Relevant(assertions, tool, r.concept);
    StateReads(assertions, tool, r, Verified);
    StateReads(assertions, tool, r, Rejected);
    StateReads(assertions, tool, r, Proposed);
    StateReads(assertions, tool, r, Unknown);
    var rows := WithState(relevant, Verified);
    ClashMeansTwo(rows);
    var verified := set x | x in Counted(assertions, tool, r) && x.state == Verified;
    assert forall a :: a in verified <==> a in rows;
    MatchesReadsSet(rows, verified, r);
  }

  /** What the requirement asks of a set of verified assertions. */
  ghost predicate Met(verified: set<Stated>, r: Requirement) {
    match r.op
    case Exists => true
    case Ne => forall a :: a in verified ==> a.value != r.value
    case _ => exists a :: a in verified && ValueMatches(a.value, r)
  }

  lemma MatchesReadsSet(rows: seq<Stated>, verified: set<Stated>, r: Requirement)
    requires forall a :: a in verified <==> a in rows
    ensures Matches(rows, r) <==> Met(verified, r)
    ensures rows != [] <==> verified != {}
  {
    NonEmpty(rows);
  }

  /** The relevant rows in one state are the members of the set in that state. */
  lemma StateReads(assertions: seq<Stated>, tool: string, r: Requirement, state: Verification)
    ensures var rows := WithState(Relevant(assertions, tool, r.concept), state);
            && (forall a :: a in rows <==> a in Counted(assertions, tool, r) && a.state == state)
            && (rows != [] <==> exists a :: a in Counted(assertions, tool, r) && a.state == state)
  {
  }

  lemma NonEmpty(rows: seq<Stated>)
    ensures rows != [] <==> exists a :: a in rows
  {
    if rows != [] { assert rows[0] in rows; }
  }

  lemma OutcomeIsUnique(all: set<Stated>, r: Requirement, a: State, b: State)
    requires Outcome(all, r, a) && Outcome(all, r, b)
    ensures a == b
  {
  }

  /** Reordering the assertions, or adding any on other tools and concepts, changes no
      requirement's state. */
  lemma IndependentOfListing(left: seq<Stated>, right: seq<Stated>, tool: string, r: Requirement)
    requires forall a :: Counts(a, tool, r) ==> (a in left <==> a in right)
    ensures Evaluate(left, tool, r) == Evaluate(right, tool, r)
  {
    EvaluationReadsSet(left, tool, r);
    EvaluationReadsSet(right, tool, r);
    assert Counted(left, tool, r) == Counted(right, tool, r);
    OutcomeIsUnique(Counted(left, tool, r), r, Evaluate(left, tool, r), Evaluate(right, tool, r));
  }

  // ------------------------------------------------------------------ results

  /** What one requirement came to, with the assertions that were looked at. */
  datatype Explained = Explained(requirement: Requirement, state: State, assertions: seq<Stated>)

  datatype Found = Found(tool: string, exact: bool, satisfied: nat, requirements: seq<Explained>)

  function Explain(assertions: seq<Stated>, tool: string, r: Requirement): Explained {
    Explained(r, Evaluate(assertions, tool, r), Relevant(assertions, tool, r.concept))
  }

  function Explanations(assertions: seq<Stated>, tool: string, requirements: seq<Requirement>): seq<Explained> {
    seq(|requirements|, i requires 0 <= i < |requirements| => Explain(assertions, tool, requirements[i]))
  }

  predicate IsExact(explanations: seq<Explained>) {
    forall e :: e in explanations && e.requirement.required ==> e.state == Satisfied
  }

  function CountSatisfied(explanations: seq<Explained>): nat {
    if explanations == [] then 0
    else CountSatisfied(explanations[1..]) + if explanations[0].state == Satisfied then 1 else 0
  }

  datatype Tool = Tool(key: string, active: bool)

  function ResultOf(assertions: seq<Stated>, tool: Tool, requirements: seq<Requirement>): Found {
    var explanations := Explanations(assertions, tool.key, requirements);
    Found(tool.key, IsExact(explanations), CountSatisfied(explanations), explanations)
  }

  /** Exact before partial, more satisfied before fewer, then the tool key. */
  predicate ListedBefore(a: Found, b: Found) {
    || (a.exact && !b.exact)
    || (a.exact == b.exact && a.satisfied > b.satisfied)
    || (a.exact == b.exact && a.satisfied == b.satisfied && Lexical.TextBefore(a.tool, b.tool))
  }

  ghost predicate Ordered(results: seq<Found>) {
    forall i, j :: 0 <= i < j < |results| ==> ListedBefore(results[i], results[j])
  }

  lemma ListedChain(a: Found, b: Found, c: Found)
    requires ListedBefore(a, b) && ListedBefore(b, c)
    ensures ListedBefore(a, c)
  {
    if Lexical.TextBefore(a.tool, b.tool) && Lexical.TextBefore(b.tool, c.tool) {
      Lexical.TextChain(a.tool, b.tool, c.tool);
    }
  }

  lemma ListedCompare(a: Found, b: Found)
    ensures a.tool == b.tool || ListedBefore(a, b) || ListedBefore(b, a)
    ensures !(ListedBefore(a, b) && ListedBefore(b, a))
  {
    Lexical.TextCompare(a.tool, b.tool);
  }

  predicate Wanted(tool: Tool, restriction: seq<string>) {
    tool.active && (restriction == [] || tool.key in restriction)
  }

  function Members(results: seq<Found>): set<Found> { set x | x in results }

  /** What a query must list. */
  function Listed(assertions: seq<Stated>, tools: seq<Tool>, restriction: seq<string>,
          requirements: seq<Requirement>, includePartial: bool): set<Found> {
    set t | t in tools && Wanted(t, restriction) && (includePartial || ResultOf(assertions, t, requirements).exact)
      :: ResultOf(assertions, t, requirements)
  }

  lemma Inserted(results: seq<Found>, found: Found, i: nat)
    requires Ordered(results) && i <= |results|
    requires forall k :: 0 <= k < i ==> ListedBefore(results[k], found)
    requires forall k :: i <= k < |results| ==> ListedBefore(found, results[k])
    ensures Ordered(results[..i] + [found] + results[i..])
    ensures forall x :: x in results[..i] + [found] + results[i..] <==> x in results || x == found
  {
  }

  method InsertInOrder(results: seq<Found>, found: Found) returns (r: seq<Found>)
    requires Ordered(results) && forall x :: x in results ==> x.tool != found.tool
    ensures Ordered(r) && forall x :: x in r <==> x in results || x == found
  {
    var i := |results|;
    while i > 0 && ListedBefore(found, results[i - 1])
      invariant 0 <= i <= |results|
      invariant forall k :: i <= k < |results| ==> ListedBefore(found, results[k])
    {
      i := i - 1;
    }
    forall k | 0 <= k < i ensures ListedBefore(results[k], found) {
      assert results[i - 1] in results;
      ListedCompare(results[i - 1], found);
      if k < i - 1 { ListedChain(results[k], results[i - 1], found); }
    }
    Inserted(results, found, i);
    return results[..i] + [found] + results[i..];
  }

  /** `sort_by`: the same results, in order. */
  method SortResults(results: seq<Found>) returns (r: seq<Found>)
    requires forall i, j :: 0 <= i < j < |results| ==> results[i].tool != results[j].tool
    ensures Ordered(r) && forall x :: x in r <==> x in results
  {
    r := [];
    for i := 0 to |results|
      invariant Ordered(r) && forall x :: x in r <==> x in results[..i]
    {
      r := InsertInOrder(r, results[i]);
    }
    assert results[..|results|] == results;
  }

  /** One result for each wanted tool that is exact or may be partial, in the one possible
      order, the exact ones first and counted. */
  method EvaluateTools(assertions: seq<Stated>, tools: seq<Tool>, restriction: seq<string>,
          requirements: seq<Requirement>, includePartial: bool)
    returns (exactCount: nat, results: seq<Found>)
    requires forall i, j :: 0 <= i < j < |tools| ==> tools[i].key != tools[j].key
    ensures Ordered(results)
    ensures Members(results) == Listed(assertions, tools, restriction, requirements, includePartial)
    ensures exactCount <= |results| && forall i :: 0 <= i < |results| ==> (results[i].exact <==> i < exactCount)
  {
    results := [];
    for i := 0 to |tools|
      invariant Members(results) == Listed(assertions, tools[..i], restriction, requirements, includePartial)
      invariant forall x :: x in results ==> exists k :: 0 <= k < i && tools[k].key == x.tool
      invariant forall j, k :: 0 <= j < k < |results| ==> results[j].tool != results[k].tool
    {
      var found := ResultOf(assertions, tools[i], requirements);
      ListedStep(assertions, tools, i, restriction, requirements, includePartial);
      if Wanted(tools[i], restriction) && (found.exact || includePartial) {
        assert forall k :: 0 <= k < |results| ==> results[k] in results;
        results := results + [found];
      }
    }
    assert tools[..|tools|] == tools;
    ghost var listed := Members(results);
    results := SortResults(results);
    assert Members(results) == listed;
    exactCount := 0;
    for i := 0 to |results|
      invariant exactCount <= i
      invariant forall k :: 0 <= k < exactCount ==> results[k].exact
      invariant forall k :: exactCount <= k < i ==> !results[k].exact
    {
      if results[i].exact {
        assert exactCount < i ==> !results[exactCount].exact;
        ExactFirst(results, i);
        exactCount := exactCount + 1;
      }
    }
  }

  /** Nothing partial is listed before an exact result. */
  lemma ExactFirst(results: seq<Found>, i: nat)
    requires Ordered(results) && i < |results| && results[i].exact
    ensures forall k :: 0 <= k < i ==> results[k].exact
  {
  }

  lemma ListedStep(assertions: seq<Stated>, tools: seq<Tool>, i: nat, restriction: seq<string>,
          requirements: seq<Requirement>, includePartial: bool)
    requires i < |tools|
    ensures var found := ResultOf(assertions, tools[i], requirements);
            Listed(assertions, tools[..i + 1], restriction, requirements, includePartial) ==
              Listed(assertions, tools[..i], restriction, requirements, includePartial)
              + (if Wanted(tools[i], restriction) && (found.exact || includePartial) then {found} else {})
  {
  }

  // -------------------------------------------------------------------- plans

  const MAX_CATALOG_ROWS: nat := 10_000

  /** A concept revision as the query reads it. */
  datatype ConceptRow = ConceptRow(key: Ledger.ConceptKey, definition: Definition, active: bool)

  /** A requirement as the client states it; without a revision it means the active one. */
  datatype Asked = Asked(
    concept: string, revision: Option<string>, op: Operator, value: Option<Json.Json>, required: bool)

  datatype QueryPlan = QueryPlan(
    tools: seq<string>, requirements: seq<Asked>, mandatory: seq<Asked>, optional: seq<Asked>, includePartial: bool)

  datatype QueryCatalog = QueryCatalog(concepts: seq<ConceptRow>, tools: seq<Tool>, assertions: seq<Stated>)

  datatype QueryAnswer = QueryAnswer(exactCount: nat, results: seq<Found>)

  /** `normalized_requirements`: those of the two extra lists take their list's word. */
  function Normalized(plan: QueryPlan): seq<Asked> {
    plan.requirements
    + seq(|plan.mandatory|, i requires 0 <= i < |plan.mandatory| => plan.mandatory[i].(required := true))
    + seq(|plan.optional|, i requires 0 <= i < |plan.optional| => plan.optional[i].(required := false))
  }

  predicate Names(asked: Asked, row: ConceptRow) {
    row.key.0 == asked.concept && (if asked.revision.Some? then row.key.1 == asked.revision.value else row.active)
  }

  /** `resolve_concept`: the first row that is named. */
  function Resolve(concepts: seq<ConceptRow>, asked: Asked): (r: Option<ConceptRow>)
    ensures r.Some? ==> r.value in concepts && Names(asked, r.value)
    ensures r.None? ==> forall row :: row in concepts ==> !Names(asked, row)
  {
    if concepts == [] then None
    else
      assert concepts == [concepts[0]] + concepts[1..];
      if Names(asked, concepts[0]) then Some(concepts[0]) else Resolve(concepts[1..], asked)
  }

  /** `validate_requirement` */
  predicate Askable(asked: Asked, row: ConceptRow) {
    match asked.op
    case Exists => asked.value == None
    case In =>
      && asked.value.Some? && asked.value.value.Array? && asked.value.value.items != []
      && forall v :: v in asked.value.value.items ==> ValueFits(row.definition, Some(v), Verified)
    case Eq => ValueFits(row.definition, asked.value, Verified)
    case Ne => ValueFits(row.definition, asked.value, Verified)
    case _ => Numeric(row.definition.valueType) && ValueFits(row.definition, asked.value, Verified)
  }

  predicate Answerable(concepts: seq<ConceptRow>, asked: Asked) {
    ValidKey(asked.concept) && Resolve(concepts, asked).Some? && Askable(asked, Resolve(concepts, asked).value)
  }

  function Resolved(concepts: seq<ConceptRow>, asked: Asked): Requirement
    requires Answerable(concepts, asked)
  {
    var row := Resolve(concepts, asked).value;
    Requirement(row.key, row.definition.cardinality, asked.op, asked.value, asked.required)
  }

  /** What a query must satisfy to be answered at all. */
  predicate Admissible(catalog: QueryCatalog, plan: QueryPlan) {
    && |catalog.concepts| + |catalog.tools| + |catalog.assertions| <= MAX_CATALOG_ROWS
    && |plan.tools| <= 500 && (forall tool :: tool in plan.tools ==> ValidKey(tool))
    && 1 <= |Normalized(plan)| <= 64
    && forall asked :: asked in Normalized(plan) ==> Answerable(catalog.concepts, asked)
  }

  function RequirementsOf(catalog: QueryCatalog, plan: QueryPlan): seq<Requirement>
    requires Admissible(catalog, plan)
  {
    seq(|Normalized(plan)|, i requires 0 <= i < |Normalized(plan)| => Resolved(catalog.concepts, Normalized(plan)[i]))
  }

  /** `evaluate_query`: refused exactly when it is not admissible, and answered with what
      its resolved requirements must list. */
  method EvaluateQuery(catalog: QueryCatalog, plan: QueryPlan) returns (r: Result<QueryAnswer, ()>)
    requires forall i, j :: 0 <= i < j < |catalog.tools| ==> catalog.tools[i].key != catalog.tools[j].key
    ensures r.Ok? <==> Admissible(catalog, plan)
    ensures r.Ok? ==>
              && Ordered(r.value.results)
              && Members(r.value.results) ==
                   Listed(catalog.assertions, catalog.tools, plan.tools, RequirementsOf(catalog, plan),
                       plan.includePartial)
              && r.value.exactCount <= |r.value.results|
              && forall i :: 0 <= i < |r.value.results| ==> (r.value.results[i].exact <==> i < r.value.exactCount)
  {
    if |catalog.concepts| + |catalog.tools| + |catalog.assertions| > MAX_CATALOG_ROWS { return Err(()); }
    if |plan.tools| > 500 || exists tool :: tool in plan.tools && !ValidKey(tool) { return Err(()); }
    var asked := Normalized(plan);
    if asked == [] || |asked| > 64 { return Err(()); }
    var requirements: seq<Requirement> := [];
    for i := 0 to |asked|
      invariant |requirements| == i
      invariant forall k :: 0 <= k < i ==>
          Answerable(catalog.concepts, asked[k]) && requirements[k] == Resolved(catalog.concepts, asked[k])
    {
      if !Answerable(catalog.concepts, asked[i]) {
        assert asked[i] in asked;
        return Err(());
      }
      requirements := requirements + [Resolved(catalog.concepts, asked[i])];
    }
    assert requirements == RequirementsOf(catalog, plan);
    var exactCount,
        results := EvaluateTools(catalog.assertions, catalog.tools, plan.tools, requirements, plan.includePartial);
    return Ok(QueryAnswer(exactCount, results));
  }

  // ------------------------------------------------ queries on a locked core

  /** The catalogue lists the rows of the tables. */
  ghost predicate Lists(catalog: QueryCatalog, c: Ledger.Catalog) {
    && (forall row :: row in catalog.concepts ==>
          row.key in c.concepts && c.concepts[row.key] == Ledger.Concept(row.definition, row.active))
    && (forall a :: a in catalog.assertions ==> AssertionOf(a, c))
  }

  ghost predicate AssertionOf(a: Stated, c: Ledger.Catalog) {
    && a.id in c.assertions
    && var row := c.assertions[a.id];
    && row.tool == a.tool && row.concept == a.concept && row.value == a.value && row.effective == a.state
  }

  function VerifiedOf(assertions: seq<Stated>, tool: string, concept: Ledger.ConceptKey): seq<Stated> {
    WithState(Relevant(assertions, tool, concept), Verified)
  }

  lemma VerifiedRows(assertions: seq<Stated>, tool: string, concept: Ledger.ConceptKey)
    ensures forall a :: a in VerifiedOf(assertions, tool, concept) <==>
              a in assertions && a.tool == tool && a.concept == concept && a.state == Verified
  {
    RelevantRows(assertions, tool, concept);
    StateRows(Relevant(assertions, tool, concept), Verified);
  }

  /** The verified assertions of a tool on a concept that takes one value all have it. */
  lemma VerifiedAgree(assertions: seq<Stated>, c: Ledger.Catalog, tool: string, concept: Ledger.ConceptKey)
    requires Safety.OneValue(c) && Ledger.SingleValued(c, concept)
    requires forall a :: a in assertions ==> AssertionOf(a, c)
    ensures forall a, b :: a in VerifiedOf(assertions, tool, concept) && b in VerifiedOf(assertions, tool, concept) ==>
              a.value == b.value
  {
    VerifiedRows(assertions, tool, concept);
    forall a, b | a in VerifiedOf(assertions, tool, concept) && b in VerifiedOf(assertions, tool, concept)
      ensures a.value == b.value
    {
      assert AssertionOf(a, c) && AssertionOf(b, c);
      assert Ledger.Compete(c, a.id, b.id);
    }
  }

  /** Two verified assertions of a tool on a concept carry different values. */
  ghost predicate Disagree(c: Ledger.Catalog, tool: string, concept: Ledger.ConceptKey) {
    exists x, y :: Ledger.Compete(c, x, y) && c.assertions[x].tool == tool && c.assertions[x].concept == concept &&
      c.assertions[x].value != c.assertions[y].value
  }

  ghost predicate ListsAll(assertions: seq<Stated>, c: Ledger.Catalog) {
    && (forall a :: a in assertions ==> AssertionOf(a, c))
    && (forall id {:trigger StatedAs(id, c.assertions[id])} ::
          id in c.assertions ==> StatedAs(id, c.assertions[id]) in assertions)
  }

  function StatedAs(id: string, row: Ledger.Assertion): Stated {
    Stated(id, row.tool, row.concept, row.value, row.effective)
  }

  lemma DisagreementListed(assertions: seq<Stated>, c: Ledger.Catalog, tool: string, concept: Ledger.ConceptKey)
    returns (a: Stated, b: Stated)
    requires Safety.RowsOk(c) && ListsAll(assertions, c) && Disagree(c, tool, concept)
    ensures a in VerifiedOf(assertions, tool, concept) && b in VerifiedOf(assertions, tool, concept)
    ensures a.value.Some? && b.value.Some? && a.value != b.value
  {
    var x, y :| Ledger.Compete(c, x, y) && c.assertions[x].tool == tool && c.assertions[x].concept == concept
                && c.assertions[x].value != c.assertions[y].value;
    a := VerifiedStated(assertions, c, tool, concept, x);
    b := VerifiedStated(assertions, c, tool, concept, y);
  }

  lemma VerifiedStated(assertions: seq<Stated>, c: Ledger.Catalog, tool: string, concept: Ledger.ConceptKey, id: string)
    returns (a: Stated)
    requires Safety.RowsOk(c) && ListsAll(assertions, c) && id in c.assertions
    requires var row := c.assertions[id]; row.tool == tool && row.concept == concept && row.effective == Verified
    ensures a == StatedAs(id, c.assertions[id]) && a in VerifiedOf(assertions, tool, concept) && a.value.Some?
  {
    a := StatedAs(id, c.assertions[id]);
    assert a in assertions;
    assert Safety.RowOk(c, id);
    VerifiedRows(assertions, tool, concept);
  }

  /** Whatever several cores have written, a requirement on a concept that takes one value
      is answered by a conflict if and only if verified assertions disagree: a broken
      promise is never read past. */
  lemma ConflictExactly(assertions: seq<Stated>, c: Ledger.Catalog, tool: string, r: Requirement)
    requires Safety.RowsOk(c) && ListsAll(assertions, c) && r.cardinality == One
    ensures Evaluate(assertions, tool, r) == Conflict <==> Disagree(c, tool, r.concept)
  {
    var verified := VerifiedOf(assertions, tool, r.concept);
    ClashMeansTwo(verified);
    if Disagree(c, tool, r.concept) {
      var a, b := DisagreementListed(assertions, c, tool, r.concept);
    } else {
      VerifiedRows(assertions, tool, r.concept);
      forall a, b | a in verified && b in verified ensures a.value == b.value {
        assert AssertionOf(a, c) && AssertionOf(b, c);
        assert Ledger.Compete(c, a.id, b.id);
      }
    }
  }

  lemma NoConflict(assertions: seq<Stated>, c: Ledger.Catalog, tool: string, r: Requirement)
    requires Safety.OneValue(c) && forall a :: a in assertions ==> AssertionOf(a, c)
    requires r.cardinality == One ==> Ledger.SingleValued(c, r.concept)
    ensures Evaluate(assertions, tool, r) != Conflict
  {
    if r.cardinality == One {
      VerifiedAgree(assertions, c, tool, r.concept);
      ClashMeansTwo(VerifiedOf(assertions, tool, r.concept));
    }
  }

  /** On the tables of a locked core no result of a query, listed or not, explains any
      requirement by a conflict. */
  lemma NoLocalConflict(requests: seq<Ledger.Request>, catalog: QueryCatalog, plan: QueryPlan, result: Found,
          e: Explained)
    requires Lists(catalog, Ledger.Run(requests)) && Admissible(catalog, plan)
    requires result in Listed(catalog.assertions, catalog.tools, plan.tools, RequirementsOf(catalog, plan),
               plan.includePartial)
    requires e in result.requirements
    ensures e.state != Conflict
  {
    Safety.RunInv(requests);
    var requirements := RequirementsOf(catalog, plan);
    forall r | r in requirements ensures Single(r, Ledger.Run(requests)) {
      var i :| 0 <= i < |requirements| && requirements[i] == r;
      ResolvedRow(catalog, Normalized(plan)[i], Ledger.Run(requests));
    }
    NoneConflicts(catalog, Ledger.Run(requests), plan, requirements, result, e);
  }

  predicate Single(r: Requirement, c: Ledger.Catalog) { r.cardinality == One ==> Ledger.SingleValued(c, r.concept) }

  lemma NoneConflicts(catalog: QueryCatalog, c: Ledger.Catalog, plan: QueryPlan, requirements: seq<Requirement>,
          result: Found, e: Explained)
    requires Safety.OneValue(c) && Lists(catalog, c) && forall r :: r in requirements ==> Single(r, c)
    requires result in Listed(catalog.assertions, catalog.tools, plan.tools, requirements, plan.includePartial)
    requires e in result.requirements
    ensures e.state != Conflict
  {
    var t :| t in catalog.tools && result == ResultOf(catalog.assertions, t, requirements);
    ToolHasNone(catalog.assertions, c, t, requirements, e);
  }

  lemma ToolHasNone(assertions: seq<Stated>, c: Ledger.Catalog, tool: Tool, requirements: seq<Requirement>,
          e: Explained)
    requires Safety.OneValue(c) && forall a :: a in assertions ==> AssertionOf(a, c)
    requires forall r :: r in requirements ==> Single(r, c)
    requires e in ResultOf(assertions, tool, requirements).requirements
    ensures e.state != Conflict
  {
    var i :| 0 <= i < |requirements| && e == Explain(assertions, tool.key, requirements[i]);
    assert requirements[i] in requirements;
    NoConflict(assertions, c, tool.key, requirements[i]);
  }

  lemma ResolvedRow(catalog: QueryCatalog, asked: Asked, c: Ledger.Catalog)
    requires Lists(catalog, c) && Answerable(catalog.concepts, asked)
    ensures var r := Resolved(catalog.concepts, asked);
            && r.concept in c.concepts && c.concepts[r.concept].definition.cardinality == r.cardinality
            && Askable(asked, ConceptRow(r.concept, c.concepts[r.concept].definition, c.concepts[r.concept].active))
  {
    var row := Resolve(catalog.concepts, asked).value;
    assert row in catalog.concepts;
  }

  /** Operators that answer each other's negation. */
  predicate Opposite(a: Operator, b: Operator) {
    (a == Eq && b == Ne) || (a == Gt && b == Lte) || (a == Gte && b == Lt)
  }

  /** On the tables of a locked core opposite questions about a concept that takes one value
      get opposite answers: where one is satisfied the other is not, and otherwise both
      come to the same. */
  lemma OppositesDisagree(requests: seq<Ledger.Request>, catalog: QueryCatalog, tool: string, asked: Asked,
          op: Operator)
    requires Lists(catalog, Ledger.Run(requests)) && Opposite(asked.op, op)
    requires Answerable(catalog.concepts, asked) && Resolved(catalog.concepts, asked).cardinality == One
    ensures Answerable(catalog.concepts, asked.(op := op))
    ensures var s := Evaluate(catalog.assertions, tool, Resolved(catalog.concepts, asked));
            var s' := Evaluate(catalog.assertions, tool, Resolved(catalog.concepts, asked.(op := op)));
            && (s == Satisfied <==> s' == Unsatisfied) && (s == Unsatisfied <==> s' == Satisfied)
            && (s != Satisfied && s != Unsatisfied ==> s == s')
  {
    var c := Ledger.Run(requests);
    Safety.RunInv(requests);
    SameResolution(catalog.concepts, asked, op);
    ResolvedRow(catalog, asked, c);
    var r := Resolved(catalog.concepts, asked);
    var verified := VerifiedOf(catalog.assertions, tool, r.concept);
    VerifiedAgree(catalog.assertions, c, tool, r.concept);
    ClashMeansTwo(verified);
    if verified != [] {
      VerifiedFits(catalog.assertions, c, tool, r.concept, verified[0]);
      OneAnswer(verified, c.concepts[r.concept].definition, r, op);
    }
  }

  lemma {:induction false} SameResolution(concepts: seq<ConceptRow>, asked: Asked, op: Operator)
    ensures Resolve(concepts, asked.(op := op)) == Resolve(concepts, asked)
  {
    if concepts != [] {
      SameResolution(concepts[1..], asked, op);
    }
  }

  lemma VerifiedFits(assertions: seq<Stated>, c: Ledger.Catalog, tool: string, concept: Ledger.ConceptKey, a: Stated)
    requires Safety.RowsOk(c) && concept in c.concepts && forall b :: b in assertions ==> AssertionOf(b, c)
    requires a in VerifiedOf(assertions, tool, concept)
    ensures ValueFits(c.concepts[concept].definition, a.value, Verified)
  {
    VerifiedRows(assertions, tool, concept);
    assert AssertionOf(a, c) && Safety.RowOk(c, a.id);
  }

  /** One verified value, of the concept's type, answers opposite questions oppositely. */
  lemma OneAnswer(verified: seq<Stated>, d: Definition, r: Requirement, op: Operator)
    requires verified != [] && forall a, b :: a in verified && b in verified ==> a.value == b.value
    requires ValueFits(d, verified[0].value, Verified) && ValueFits(d, r.value, Verified)
    requires Opposite(r.op, op) && (r.op == Eq || Numeric(d.valueType))
    ensures Matches(verified, r) <==> !Matches(verified, r.(op := op))
  {
    var v := verified[0].value;
    assert verified[0] in verified && forall a :: a in verified ==> a.value == v;
    NumbersOnly(d, v.value);
    NumbersOnly(d, r.value.value);
    assert ValueMatches(v, r) ==> Matches(verified, r);
    assert r.op != Eq ==> (ValueMatches(v, r) <==> !ValueMatches(v, r.(op := op)));
  }

  // -------------------------------------------------------- one answer only

  /** The same explanation, its assertions possibly in another order. */
  ghost predicate Equivalent(a: Explained, b: Explained) {
    a.requirement == b.requirement && a.state == b.state && multiset(a.assertions) == multiset(b.assertions)
  }

  ghost predicate Alike(a: Found, b: Found) {
    && a.tool == b.tool && a.exact == b.exact && a.satisfied == b.satisfied && |a.requirements| == |b.requirements|
    && forall i :: 0 <= i < |a.requirements| ==> Equivalent(a.requirements[i], b.requirements[i])
  }

  ghost predicate AllAlike(a: seq<Found>, b: seq<Found>) {
    |a| == |b| && forall i :: 0 <= i < |a| ==> Alike(a[i], b[i])
  }

  ghost predicate EachHasAlike(a: seq<Found>, b: seq<Found>) {
    forall x :: x in a ==> exists y :: y in b && Alike(x, y)
  }

  /** Two ordered listings of results that are alike are alike place by place. */
  lemma {:induction false} OrderIsUnique(a: seq<Found>, b: seq<Found>)
    requires Ordered(a) && Ordered(b) && EachHasAlike(a, b) && EachHasAlike(b, a)
    ensures AllAlike(a, b)
  {
    if a == [] || b == [] {
      BothEmpty(a, b);
    } else {
      HeadsAlike(a, b);
      TailsAlike(a, b);
      TailsAlike(b, a);
      OrderIsUnique(a[1..], b[1..]);
    }
  }

  lemma BothEmpty(a: seq<Found>, b: seq<Found>)
    requires EachHasAlike(a, b) && EachHasAlike(b, a) && (a == [] || b == [])
    ensures a == [] && b == []
  {
    HeadIsMember(a);
    HeadIsMember(b);
  }

  lemma HeadIsMember(a: seq<Found>)
    ensures a != [] ==> a[0] in a
  {
  }

  predicate SameRank(a: Found, b: Found) { a.tool == b.tool && a.exact == b.exact && a.satisfied == b.satisfied }

  lemma RanksCannotCross(a: Found, b: Found, x: Found, y: Found)
    requires SameRank(a, y) && SameRank(b, x)
    ensures !(ListedBefore(a, x) && ListedBefore(b, y))
  {
    Lexical.TextCompare(a.tool, b.tool);
  }

  lemma AlikeBothWays(a: Found, b: Found)
    requires Alike(a, b)
    ensures Alike(b, a)
  {
  }

  lemma HeadsAlike(a: seq<Found>, b: seq<Found>)
    requires Ordered(a) && Ordered(b) && EachHasAlike(a, b) && EachHasAlike(b, a) && a != [] && b != []
    ensures Alike(a[0], b[0]) && Alike(b[0], a[0])
  {
    var j := HeadsMatch(a, b);
    var i := HeadsMatch(b, a);
    RanksCannotCross(a[0], b[0], a[i], b[j]);
    if j == 0 {
      AlikeBothWays(a[0], b[0]);
    } else {
      AlikeBothWays(b[0], a[0]);
    }
  }

  /** Where the first result has its like. */
  lemma HeadsMatch(a: seq<Found>, b: seq<Found>) returns (j: nat)
    requires EachHasAlike(a, b) && a != []
    ensures j < |b| && Alike(a[0], b[j])
  {
    HeadIsMember(a);
    var y :| y in b && Alike(a[0], y);
    j :| 0 <= j < |b| && b[j] == y;
  }

  /** Past the heads the listings still match. */
  lemma TailsAlike(a: seq<Found>, b: seq<Found>)
    requires Ordered(a) && Ordered(b) && EachHasAlike(a, b) && a != [] && b != [] && Alike(a[0], b[0])
    ensures EachHasAlike(a[1..], b[1..])
  {
    forall x | x in a[1..] ensures exists y :: y in b[1..] && Alike(x, y) {
      var i :| 0 <= i < |a[1..]| && a[1..][i] == x;
      assert a[i + 1] == x && x in a;
      var y :| y in b && Alike(x, y);
      var j :| 0 <= j < |b| && b[j] == y;
      Lexical.TextCompare(x.tool, a[0].tool);
      assert ListedBefore(a[0], a[i + 1]);
      assert b[1..][j - 1] == y;
    }
  }

  function Related(assertions: seq<Stated>, requirements: seq<Requirement>): seq<Stated> {
    if assertions == [] then []
    else
      var rest := Related(assertions[1..], requirements);
      if exists r :: r in requirements && r.concept == assertions[0].concept then [assertions[0]] + rest else rest
  }

  /** What is relevant to a requirement is found among the related assertions. */
  lemma {:induction false} RelevantAmongRelated(assertions: seq<Stated>, tool: string, requirements: seq<Requirement>,
          r: Requirement)
    requires r in requirements
    ensures Relevant(assertions, tool, r.concept) == Relevant(Related(assertions, requirements), tool, r.concept)
  {
    if assertions != [] {
      RelevantAmongRelated(assertions[1..], tool, requirements, r);
      var rest := Related(assertions[1..], requirements);
      assert ([assertions[0]] + rest)[1..] == rest;
    }
  }

  function HowOften(assertions: seq<Stated>, tool: string, concept: Ledger.ConceptKey, a: Stated): nat {
    if a.tool == tool && a.concept == concept then multiset(assertions)[a] else 0
  }

  lemma {:induction false} RelevantCounts(assertions: seq<Stated>, tool: string, concept: Ledger.ConceptKey, a: Stated)
    ensures multiset(Relevant(assertions, tool, concept))[a] == HowOften(assertions, tool, concept, a)
  {
    if assertions != [] {
      RelevantCounts(assertions[1..], tool, concept, a);
      assert assertions == [assertions[0]] + assertions[1..];
    }
  }

  /** Requirement by requirement the explanations are alike. */
  lemma SameExplanation(left: seq<Stated>, right: seq<Stated>, tool: string, requirements: seq<Requirement>,
          r: Requirement)
    requires r in requirements && multiset(Related(left, requirements)) == multiset(Related(right, requirements))
    ensures Equivalent(Explain(left, tool, r), Explain(right, tool, r))
  {
    RelevantAmongRelated(left, tool, requirements, r);
    RelevantAmongRelated(right, tool, requirements, r);
    var a, b := Relevant(left, tool, r.concept), Relevant(right, tool, r.concept);
    forall x ensures multiset(a)[x] == multiset(b)[x] {
      RelevantCounts(Related(left, requirements), tool, r.concept, x);
      RelevantCounts(Related(right, requirements), tool, r.concept, x);
    }
    assert multiset(a) == multiset(b);
    forall x | Counts(x, tool, r) ensures x in left <==> x in right {
      RelevantRows(left, tool, r.concept);
      RelevantRows(right, tool, r.concept);
      assert x in multiset(a) <==> x in multiset(b);
    }
    IndependentOfListing(left, right, tool, r);
  }

  lemma {:induction false} SameCount(a: seq<Explained>, b: seq<Explained>)
    requires |a| == |b| && forall i :: 0 <= i < |a| ==> Equivalent(a[i], b[i])
    ensures CountSatisfied(a) == CountSatisfied(b)
  {
    if a != [] {
      SameCount(a[1..], b[1..]);
    }
  }

  lemma ExactToo(a: seq<Explained>, b: seq<Explained>)
    requires |a| == |b| && (forall i :: 0 <= i < |a| ==> Equivalent(a[i], b[i])) && IsExact(a)
    ensures IsExact(b)
  {
    forall e | e in b && e.requirement.required ensures e.state == Satisfied {
      var i :| 0 <= i < |b| && b[i] == e;
      assert a[i] in a;
    }
  }

  lemma SameResult(left: seq<Stated>, right: seq<Stated>, tool: Tool, requirements: seq<Requirement>)
    requires multiset(Related(left, requirements)) == multiset(Related(right, requirements))
    ensures Alike(ResultOf(left, tool, requirements), ResultOf(right, tool, requirements))
  {
    var a, b := Explanations(left, tool.key, requirements), Explanations(right, tool.key, requirements);
    forall i | 0 <= i < |requirements| ensures Equivalent(a[i], b[i]) {
      SameExplanation(left, right, tool.key, requirements, requirements[i]);
    }
    SameCount(a, b);
    if IsExact(a) { ExactToo(a, b); }
    if IsExact(b) { ExactToo(b, a); }
  }

  lemma ListedHasAlike(left: seq<Stated>, right: seq<Stated>, tools: seq<Tool>, restriction: seq<string>,
          requirements: seq<Requirement>, includePartial: bool, a: seq<Found>, b: seq<Found>)
    requires multiset(Related(left, requirements)) == multiset(Related(right, requirements))
    requires Members(a) == Listed(left, tools, restriction, requirements, includePartial)
    requires Members(b) == Listed(right, tools, restriction, requirements, includePartial)
    ensures EachHasAlike(a, b)
  {
    forall x | x in a ensures exists y :: y in b && Alike(x, y) {
      assert x in Members(a);
      var t :| t in tools && Wanted(t, restriction) && (includePartial || ResultOf(left, t, requirements).exact)
               && x == ResultOf(left, t, requirements);
      SameResult(left, right, t, requirements);
      var y := ResultOf(right, t, requirements);
      assert y in Members(b);
    }
  }

  /** Two evaluations whose assertions on the concepts asked for are the same, in any order
      and whatever other assertions there are, list the same results up to the order of the
      assertions inside an explanation. */
  lemma ResultsIndependentOfListing(left: seq<Stated>, right: seq<Stated>, tools: seq<Tool>, restriction: seq<string>,
          requirements: seq<Requirement>, includePartial: bool, a: seq<Found>, b: seq<Found>)
    requires multiset(Related(left, requirements)) == multiset(Related(right, requirements))
    requires Ordered(a) && Members(a) == Listed(left, tools, restriction, requirements, includePartial)
    requires Ordered(b) && Members(b) == Listed(right, tools, restriction, requirements, includePartial)
    ensures AllAlike(a, b)
  {
    ListedHasAlike(left, right, tools, restriction, requirements, includePartial, a, b);
    ListedHasAlike(right, left, tools, restriction, requirements, includePartial, b, a);
    OrderIsUnique(a, b);
  }
}
