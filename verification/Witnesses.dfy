/** Runs from the empty store that reach the corner cases: a race only the update count
    stops, a second author, and a claim whose time can grow no more. */
module Witnesses {
  import opened Wrappers
  import opened Domain
  import opened Database
  import opened Protocol
  import opened Safety
  import opened Progress
  import Contention
  import Docs = DocumentLog
  import Facts = FactLedger
  import Plans = PlanningCatalog
  import Json = JsonSchema
  import Projection = ProjectionCheck

  function Forge(hash: Hash, author: Hash): Forged { Forged(hash, [0], [0], author, 0) }

  // --------------------------------------------------------------- a document

  const PAGE := DocumentKey("app", "team", "page")

  function Edit(key: string): Write { Write(Command("app", key, 0), PAGE, None, [], []) }

  /** Two mutations of a new document, the second staged before the first commits. */
  lemma RaceFromNothing() returns (labels: seq<Label>, id: nat)
    ensures var s := Run(labels);
            id in s.tasks && s.tasks[id].Committing? && Contention.StaleYetLinked(s.db, s.tasks[id].commit, 0)
  {
    assert Run([]) == INITIAL;
    id := 0;
    labels := Contention.HeadCheckAloneIsNotEnough([], 0, 1, Edit("first"), Edit("second"), Forge(1, 9), Forge(2, 9),
        0);
    assert [] + labels == labels;
  }

  lemma EmptyStoreInv()
    ensures DbInv(EMPTY)
  {
    RunInv([]);
  }

  lemma FromInitial(labels: seq<Label>)
    ensures Run(labels) == After(INITIAL, labels)
  {
    RunAfter([], labels);
    assert Run([]) == INITIAL && [] + labels == labels;
  }

  /** The first commit to an empty store. */
  lemma FirstCommit(c: LocalCommit)
    requires CommitLocal(EMPTY, c, 0).Ok? && c.projections == []
    requires c.document == PAGE && c.record.author == 9 && c.record.hash == 1 && c.command == Edit("first").command
    ensures var d := CommitLocal(EMPTY, c, 0).value.docs;
            |RowsOf(d.updates, PAGE)| == 1 && HeadOf(d, 8, LogId(PAGE)) == None && Unused(d, Edit("second").command, 2)
  {
    CommitParts(EMPTY, c, 0, CommitLocal(EMPTY, c, 0).value);
    WrittenOnce(c);
  }

  lemma FirstEdit() returns (labels: seq<Label>)
    ensures var c := Fresh(EMPTY_DOCUMENTS, Edit("first"), Forge(1, 9));
            CommitLocal(EMPTY, c, 0).Ok? && After(INITIAL, labels) == Progress.Committed(INITIAL, 0, c, 0)
  {
    EmptyStoreInv();
    labels := UndisturbedMutationCommits(INITIAL, 0, Edit("first"), Forge(1, 9), 0);
  }

  /** A run after which one author has written the page. */
  lemma OneAuthor() returns (labels: seq<Label>)
    ensures var s := Run(labels);
            && s.tasks == map[] && |RowsOf(s.db.docs.updates, PAGE)| == 1
            && HeadOf(s.db.docs, 8, LogId(PAGE)) == None && Unused(s.db.docs, Edit("second").command, 2)
  {
    labels := FirstEdit();
    FromInitial(labels);
    FirstCommit(Fresh(EMPTY_DOCUMENTS, Edit("first"), Forge(1, 9)));
  }

  /** A document with two authors: the second one's answer reports revision 2 for an
      operation with sequence 0. */
  lemma TwoAuthors() returns (labels: seq<Label>, i: nat)
    ensures var s := Run(labels);
            && s.answers != [] && i < |s.db.docs.operations|
            && var a, o := s.answers[|s.answers| - 1], s.db.docs.operations[i];
            a.response.operation == o.hash && o.sequence == 0 && a.response.revision == 2
  {
    var first := OneAuthor();
    var more;
    more, i := Contention.SecondAuthorRunsAhead(first, 0, Edit("second"), Forge(2, 8), 0);
    labels := first + more;
  }

  /** The empty documents after one commit. */
  lemma WrittenOnce(c: LocalCommit)
    requires c.document == PAGE && c.record.author == 9 && c.record.hash == 1 && c.command == Edit("first").command
    ensures var d := Docs.Committed(EMPTY_DOCUMENTS, c, 0);
            |RowsOf(d.updates, PAGE)| == 1 && HeadOf(d, 8, LogId(PAGE)) == None && Unused(d, Edit("second").command, 2)
  {
    Docs.RowsOfAppend([], UpdateRowOf(c, 0), PAGE);
    assert [] + [UpdateRowOf(c, 0)] == [UpdateRowOf(c, 0)];
    assert |"first"| != |"second"|;
  }

  // -------------------------------------------------------------------- a plan

  lemma GrantRun(app: string, community: string, access: Access)
    ensures Run([Grant(app, community, access)]) ==
              INITIAL.(db := EMPTY.(grants := map[(app, community) := access]))
  {
    assert [Grant(app, community, access)][..0] == [];
    assert Run([]) == INITIAL;
  }

  /** One project is a consistent plan. */
  lemma FirstProjectOk()
    ensures Plans.PlanOk(Upsert(EMPTY_PLAN, ProjectRow("p", "")))
  {
    Plans.EmptyPlan();
    var p := Upsert(EMPTY_PLAN, ProjectRow("p", ""));
    assert p.dependencies == EMPTY_PLAN.dependencies && |p.projects| == 1;
  }

  /** A run in which a planning put commits: a grant, then the put. */
  lemma FirstPut() returns (labels: seq<Label>)
    ensures var s := Run(labels);
            && PlanAt(s, "team").version == 1 && PlanAt(s, "team").projects == map["p" := ""]
            && |s.answers| == 1 && s.answers[0].response.revision == 1
  {
    var start, access := [Grant("app", "team", Access(true, true))], Access(true, true);
    var command, row := Command("app", "first", 0), ProjectRow("p", "");
    GrantRun("app", "team", access);
    RunInv(start);
    FirstProjectOk();
    assert |"app"| != |PLANNING_NAMESPACE|;
    var more := UndisturbedPutCommits(Run(start), 0, command, "team", row, Forge(1, 9), 0);
    RunAfter(start, more);
    labels := start + more;
    FirstPutWrites(Run(start), Fresh(EMPTY_DOCUMENTS, PlanWrite(command, "team", row, 0), Forge(1, 9)), row);
  }

  lemma FirstPutWrites(s: System, c: LocalCommit, row: PlanningRow)
    requires s.db.plans == map[] && CommitLocal(s.db, c, 0).Ok?
    requires c.document.app == PLANNING_NAMESPACE && c.document.community == "team"
    requires c.projections == [Planning(PlanningWrite("app", PROFILE_DIGEST, 0, row))]
    ensures var p := PlanOf(CommitLocal(s.db, c, 0).value.plans, PlanKey(PLANNING_NAMESPACE, "team"));
            p.version == 1 && (row.ProjectRow? ==> p.projects == map[row.id := row.info])
  {
    CommitParts(s.db, c, 0, CommitLocal(s.db, c, 0).value);
  }

  // ------------------------------------------------------------------ a claim

  /** An object schema with these properties, none of them required. */
  function ObjectOver(properties: Json.Fields): Json.Json {
    Json.Object([
      Json.Field("type", Json.String("object")), Json.Field("properties", Json.Object(properties)),
      Json.Field("required", Json.Array([])), Json.Field("additionalProperties", Json.Bool(false))])
  }

  /** Four fields under different names are each found. */
  lemma EachFieldFound(a: Json.Field, b: Json.Field, c: Json.Field, d: Json.Field)
    requires a.name != b.name && a.name != c.name && a.name != d.name && b.name != c.name && b.name != d.name &&
              c.name != d.name
    ensures var fields := [a, b, c, d];
            && Json.Get(fields, a.name) == Some(a.value) && Json.Get(fields, b.name) == Some(b.value)
            && Json.Get(fields, c.name) == Some(c.value) && Json.Get(fields, d.name) == Some(d.value)
  {
    var fields := [a, b, c, d];
    assert fields[1..] == [b, c, d] && [b, c, d][1..] == [c, d] && [c, d][1..] == [d];
    assert Json.Get([d], d.name) == Some(d.value);
    assert Json.Get([c, d], d.name) == Some(d.value);
    assert Json.Get([b, c, d], c.name) == Some(c.value) && Json.Get([b, c, d], d.name) == Some(d.value);
  }

  lemma FieldsRead(properties: Json.Fields)
    ensures Declares(ObjectOver(properties), properties)
  {
    var a, b := Json.Field("type", Json.String("object")), Json.Field("properties", Json.Object(properties));
    var c, d := Json.Field("required", Json.Array([])), Json.Field("additionalProperties", Json.Bool(false));
    assert |a.name| == 4 && |b.name| == 10 && |c.name| == 8 && |d.name| == 20;
    EachFieldFound(a, b, c, d);
    assert ObjectOver(properties).fields == [a, b, c, d];
  }

  /** An object node with these properties and none required. */
  predicate Declares(schema: Json.Json, properties: Json.Fields) {
    && schema.Object?
    && Json.Get(schema.fields, "type") == Some(Json.String("object"))
    && Json.Get(schema.fields, "properties") == Some(Json.Object(properties))
    && Json.Get(schema.fields, "required") == Some(Json.Array([]))
    && Json.Get(schema.fields, "additionalProperties") == Some(Json.Bool(false))
    && forall f :: f in schema.fields ==> f.name in {"type", "properties", "required", "additionalProperties"}
  }

  lemma DeclaresShape(schema: Json.Json, properties: Json.Fields)
    requires Declares(schema, properties) && |properties| <= 64
    ensures Json.NodeShape(schema, true)
  {
    assert Json.Text(schema.fields, "type") == Some("object");
    assert Json.Members(schema.fields, "properties") == Some(properties);
    assert Json.Items(schema.fields, "required") == Some([]);
  }

  lemma NoPropertiesFits(schema: Json.Json)
    requires Declares(schema, [])
    ensures Json.WellFormed(schema, 0, true) && Json.Count(schema) == 1
  {
    DeclaresShape(schema, []);
    assert Json.Text(schema.fields, "type") == Some("object") && Json.Members(schema.fields, "properties") == Some([]);
    assert Json.Children(schema) == [];
  }

  /** The empty object satisfies any schema that requires nothing. */
  lemma EmptyAccepted(schema: Json.Json, properties: Json.Fields)
    requires Declares(schema, properties)
    ensures Json.ValidateValue(Json.Object([]), schema, 0) == Json.Accepted
  {
    assert Json.Text(schema.fields, "type") == Some("object");
    assert Json.Members(schema.fields, "properties") == Some(properties);
    assert Json.Items(schema.fields, "required") == Some([]);
  }

  // ---------------------------------------------------------- a boolean property

  const FLAG := Json.Object([Json.Field("type", Json.String("boolean"))])
  const FLAG_SET := Json.Object([Json.Field("flag", Json.Bool(true))])

  lemma FlagShape()
    ensures Json.Text(FLAG.fields, "type") == Some("boolean")
    ensures Json.WellFormed(FLAG, 1, false) && Json.Count(FLAG) == 1
  {
    assert FLAG.fields == [FLAG.fields[0]] && FLAG.fields[0].name == "type";
    assert Json.Get(FLAG.fields, "type") == Some(Json.String("boolean"));
    assert Json.NodeShape(FLAG, false);
    assert Json.Children(FLAG) == [];
  }

  lemma FlaggedFits(schema: Json.Json)
    requires Declares(schema, [Json.Field("flag", FLAG)])
    ensures Json.WellFormed(schema, 0, true) && Json.Count(schema) == 2
  {
    var properties := [Json.Field("flag", FLAG)];
    DeclaresShape(schema, properties);
    FlagShape();
    assert Json.Text(schema.fields, "type") == Some("object");
    assert Json.Members(schema.fields, "properties") == Some(properties);
    var children := Json.Children(schema);
    assert children == [FLAG];
    assert children[..0] == [] && children[..1] == children;
    Json.FitNext(children, schema, 1, 0);
  }

  lemma FlagConforms(schema: Json.Json)
    requires Declares(schema, [Json.Field("flag", FLAG)])
    ensures Json.Conforms(FLAG_SET, schema)
  {
    var properties := [Json.Field("flag", FLAG)];
    FlagShape();
    assert Json.Text(schema.fields, "type") == Some("object");
    assert Json.Members(schema.fields, "properties") == Some(properties);
    assert Json.Items(schema.fields, "required") == Some([]);
    assert Json.Get(properties, "flag") == Some(FLAG);
    assert Json.Conforms(Json.Bool(true), FLAG);
    assert forall f :: f in FLAG_SET.fields ==> Json.FieldConforms(f, properties);
  }

  /** A schema a client can register and a value that conforms to it, which no assertion
      can ever carry; without the boolean the same fact is accepted. */
  lemma FlagIsRefused() returns (r: Registration, fact: AssertFact)
    ensures Registrable(r) && Json.Conforms(fact.body.value, r.schema.objectSchema)
    ensures !FactAccepted(fact, r.schema)
    ensures FactAccepted(fact.(body := fact.body.(value := Json.Object([]))), r.schema)
  {
    var properties := [Json.Field("flag", FLAG)];
    var node := ObjectOver(properties);
    FieldsRead(properties);
    FlaggedFits(node);
    FlagConforms(node);
    EmptyAccepted(node, properties);
    FlagShape();
    assert Json.Get(FLAG_SET.fields, "flag") == Some(Json.Bool(true));
    assert Json.Get(properties, "flag") == Some(FLAG);
    assert Json.Members(node.fields, "properties") == Some(properties);
    Json.BooleanPropertyRefused(FLAG_SET, node, "flag");
    assert |"app"| != |PLANNING_NAMESPACE|;
    r, fact := ReassertableOver("app", "team", "claim", node);
    fact := fact.(body := fact.body.(value := FLAG_SET));
  }

  /** A schema under which a fact can be asserted and asserted again. */
  predicate Reassertable(r: Registration, fact: AssertFact) {
    && Registrable(r) && r.schema.enabled && r.schema.multipleActive && r.schema.lifecycle.supersession
    && r.key == Facts.SchemaOf(r.key.app, fact.topic) && r.key.app != PLANNING_NAMESPACE
    && FactAccepted(fact, r.schema) && fact.status == Asserted
  }

  /** The store with one schema and nothing else. */
  function OneSchema(r: Registration): Db {
    EMPTY.(facts := Database.Facts(map[r.key := r.schema], map[], map[]))
  }

  lemma SchemaRegistered(r: Registration)
    requires Registrable(r)
    ensures Run([Register(r)]).tasks == map[] && Run([Register(r)]).db == OneSchema(r)
  {
    assert Run([]) == INITIAL;
    assert [Register(r)][..0] == [];
    RegisterStep(INITIAL, r);
  }

  lemma RegisterStep(s: System, r: Registration)
    ensures Next(s, Register(r)) == Registered(s, r)
  {
  }

  /** Everything in the store belongs to one claim of one application. */
  ghost predicate OnlyClaim(db: Db, key: FactKey) {
    && db.facts.claims.Keys == {key} && (forall k :: k in db.facts.schemas ==> k.app == key.app)
    && (forall at :: at in db.docs.heads ==> at.1.key.app == key.app)
    && (forall at :: at in db.docs.idempotency ==> at.0 == key.app)
    && (forall o :: o in db.docs.operations ==> o.hash == 5 || o.hash == 3)
  }

  /** A commit about the claim to a store that holds nothing else. */
  lemma OnlyClaimAfter(db: Db, c: LocalCommit, now: Clock, r: Revision)
    requires CommitLocal(db, c, now).Ok? && |c.projections| <= 1
    requires (db.facts.claims == map[] && db.docs == EMPTY_DOCUMENTS) || OnlyClaim(db, r.key)
    requires forall k :: k in db.facts.schemas ==> k.app == r.key.app
    requires c.document.app == c.command.caller == r.key.app && c.record.log == LogId(c.document)
    requires c.record.hash == 5 || c.record.hash == 3
    requires Facts.Writes(db.facts, CommitLocal(db, c, now).value.facts, r, c.record.hash)
    ensures OnlyClaim(CommitLocal(db, c, now).value, r.key)
  {
    CommitParts(db, c, now, CommitLocal(db, c, now).value);
  }

  /** The claim has been asserted at the largest time there is, and can be again. */
  ghost predicate Exhausted(s: System, r: Registration, fact: AssertFact, command: Command) {
    && s.tasks == map[] && OnlyClaim(s.db, FactKeyOf(command, fact))
    && r.key in s.db.facts.schemas && s.db.facts.schemas[r.key] == r.schema
    && FactKeyOf(command, fact) in s.db.facts.claims
    && var c := s.db.facts.claims[FactKeyOf(command, fact)];
    && c.source == 5 && c.updated == I64_MAX && c.status == Asserted && c.topic == fact.topic
    && Unused(s.db.docs, command, 3)
    && HeadRoom(s.db.docs, DocumentKey(command.caller, fact.community, "facts/" + fact.claim), 9)
  }

  lemma FirstAllowed(s: System, r: Registration, fact: AssertFact, command: Command)
    requires s.db == OneSchema(r) && Reassertable(r, fact) && command.caller == r.key.app
    ensures AssertionAllowed(s, command, fact, r.schema)
    ensures CurrentRevision(s.db.facts, FactKeyOf(command, fact)) == None
  {
  }

  /** What one commit to the empty documents leaves for the next. */
  lemma NextCommitFree(c: LocalCommit, now: int, command: Command)
    requires c.record.sequence == 0 && c.record.hash == 5
    requires (command.caller, command.key) != (c.command.caller, c.command.key)
    ensures var d := Docs.Committed(EMPTY_DOCUMENTS, c, now);
            Unused(d, command, 3) && HeadRoom(d, c.document, c.record.author)
  {
  }

  lemma FirstAssertion(s: System, r: Registration, fact: AssertFact, command: Command, next: Command)
    returns (more: seq<Label>)
    requires s.tasks == map[] && s.db == OneSchema(r) && Reassertable(r, fact) && DbInv(s.db)
    requires command.caller == next.caller == r.key.app && command.key != next.key
    ensures Exhausted(After(s, more), r, fact, next) && Projection.CurrentIsLatest(After(s, more).db.facts)
  {
    var forged, now := Forge(5, 9), I64_MAX;
    FirstAllowed(s, r, fact, command);
    more := Projection.AssertionAgrees(s, 0, command, fact, r.schema, forged, now);
    var written := Projection.AssertionWrites(s, command, fact, r.schema, forged, now);
    var c := Fresh(s.db.docs, AssertionWrite(s, command, fact, r.schema), forged);
    AfterFirst(s, r, fact, command, next, c, now, written);
  }

  lemma AfterFirst(s: System, r: Registration, fact: AssertFact, command: Command, next: Command, c: LocalCommit,
          now: Clock, written: Revision)
    requires s.tasks == map[] && s.db == OneSchema(r) && now == I64_MAX && CommitLocal(s.db, c, now).Ok? &&
              |c.projections| <= 1
    requires command.caller == next.caller == r.key.app && command.key != next.key && c.command == command
    requires c.document == DocumentKey(command.caller, fact.community, "facts/" + fact.claim)
    requires c.record.sequence == 0 && c.record.hash == 5 && c.record.author == 9 && c.record.log == LogId(c.document)
    requires Facts.Writes(s.db.facts, CommitLocal(s.db, c, now).value.facts, written, 5)
    requires written.key == FactKeyOf(command, fact) && written.topic == fact.topic && written.status == Asserted
    requires written.asserted == RevisionTime(ClaimAt(s.db.facts, written.key), now)
    ensures Exhausted(Progress.Committed(s, 0, c, now), r, fact, next)
  {
    CommitParts(s.db, c, now, CommitLocal(s.db, c, now).value);
    NextCommitFree(c, now, next);
    OnlyClaimAfter(s.db, c, now, written);
  }

  lemma SecondAllowed(s: System, r: Registration, fact: AssertFact, command: Command)
    requires Exhausted(s, r, fact, command) && Reassertable(r, fact) && command.caller == r.key.app
    ensures AssertionAllowed(s, command, fact, r.schema)
  {
    SecondPasses(s, r, fact, command);
  }

  lemma SecondPasses(s: System, r: Registration, fact: AssertFact, command: Command)
    requires FactKeyOf(command, fact) in s.db.facts.claims && fact.status == Asserted
    requires var c := s.db.facts.claims[FactKeyOf(command, fact)]; c.status == Asserted && c.topic == fact.topic
    requires r.schema.lifecycle.supersession
    ensures PreviousPasses(s, command, fact, r.schema)
  {
  }

  /** Under every schema that lets a fact be asserted again, a run takes the tables of the
      projection check apart: an assertion at the largest time, then one under a smaller
      hash. */
  lemma ExhaustedTimeDisagrees(r: Registration, fact: AssertFact) returns (labels: seq<Label>)
    requires Reassertable(r, fact)
    ensures Projection.CurrentRows(Run(labels).db.facts) != Projection.ExpectedRows(Run(labels).db.facts)
    ensures Run(labels).tasks == map[] && OnlyClaim(Run(labels).db, FactKey(r.key.app, fact.community, fact.claim))
  {
    var registered, command, next := [Register(r)], Command(r.key.app, "1", 0), Command(r.key.app, "2", 0);
    SchemaRegistered(r);
    RegisteredInv(registered);
    var first := FirstAssertion(Run(registered), r, fact, command, next);
    RunAfter(registered, first);
    SecondAllowed(Run(registered + first), r, fact, next);
    var more := Projection.AssertionAgreesExactly(registered + first, 0, next, fact, r.schema, Forge(3, 9), 0);
    RunInv(registered + first);
    SecondAssertion(Run(registered + first), r, fact, next, more);
    RunAfter(registered + first, more);
    labels := registered + first + more;
  }

  lemma SecondAssertion(s: System, r: Registration, fact: AssertFact, command: Command, more: seq<Label>)
    requires DbInv(s.db) && Exhausted(s, r, fact, command) && Reassertable(r, fact) && command.caller == r.key.app
    requires AssertionAllowed(s, command, fact, r.schema)
    requires var c := Fresh(s.db.docs, AssertionWrite(s, command, fact, r.schema), Forge(3, 9));
             CommitLocal(s.db, c, 0).Ok? && After(s, more) == Progress.Committed(s, 0, c, 0)
    ensures After(s, more).tasks == map[] && OnlyClaim(After(s, more).db, FactKeyOf(command, fact))
  {
    var written := Projection.AssertionWrites(s, command, fact, r.schema, Forge(3, 9), 0);
    var c := Fresh(s.db.docs, AssertionWrite(s, command, fact, r.schema), Forge(3, 9));
    OnlyClaimAfter(s.db, c, 0, written);
  }

  lemma RegisteredInv(labels: seq<Label>)
    ensures DbInv(Run(labels).db)
  {
    RunInv(labels);
  }

  /** Version 1 of an application's schema over a node, with everything allowed. */
  function SchemaOver(app: string, node: Json.Json): Registration {
    var id := app + "/" + "s";
    var policy := LifecyclePolicy(true, true, true, true);
    Registration(SchemaKey(app, id, 1), FactSchema(PredicateName(id, 1), node, true, NoProvenance, policy, true))
  }

  lemma SchemaOverRegistrable(app: string, node: Json.Json)
    requires Json.WellFormed(node, 0, true) && Json.Count(node) <= Json.MAX_NODES
    ensures Registrable(SchemaOver(app, node))
  {
    assert app + "/" <= app + "/" + "s";
  }

  /** A schema of an application over a node that takes the empty object, and a fact. */
  lemma ReassertableOver(app: string, community: string, claim: string, node: Json.Json)
    returns (r: Registration, fact: AssertFact)
    requires Json.WellFormed(node, 0, true) && Json.Count(node) <= Json.MAX_NODES && app != PLANNING_NAMESPACE
    requires Json.ValidateValue(Json.Object([]), node, 0) == Json.Accepted
    ensures Reassertable(r, fact) && r.schema.objectSchema == node && r.key.app == app
    ensures fact.community == community && fact.claim == claim && fact.body.value == Json.Object([])
  {
    r := SchemaOver(app, node);
    SchemaOverRegistrable(app, node);
    fact := AssertFact(community, claim, FactTopic("subject", r.schema.predicateName, r.key.id, 1),
        FactBody(Json.Object([]), None, 0.0, None), Asserted);
  }

  /** Every application can have such a schema, and such a fact of any claim. */
  lemma SomethingIsReassertable(app: string, community: string, claim: string)
    returns (r: Registration, fact: AssertFact)
    requires app != PLANNING_NAMESPACE
    ensures Reassertable(r, fact) && r.key.app == app && fact.community == community && fact.claim == claim
  {
    var node := ObjectOver([]);
    FieldsRead([]);
    NoPropertiesFits(node);
    EmptyAccepted(node, []);
    r, fact := ReassertableOver(app, community, claim, node);
  }

  /** So some run does take the two tables apart. */
  lemma TablesComeApart() returns (labels: seq<Label>)
    ensures Projection.CurrentRows(Run(labels).db.facts) != Projection.ExpectedRows(Run(labels).db.facts)
  {
    assert |"app"| != |PLANNING_NAMESPACE|;
    var r, fact := SomethingIsReassertable("app", "team", "claim");
    labels := ExhaustedTimeDisagrees(r, fact);
  }
}
