/** The invariant of the whole protocol and the proof that every step keeps it. */
module Safety {
  import opened Wrappers
  import opened Domain
  import opened Database
  import opened Protocol
  import Docs = DocumentLog
  import Facts = FactLedger
  import Plans = PlanningCatalog
  import Outbox
  import Json = JsonSchema

  // ------------------------------------------------------------ the invariant

  ghost predicate ProjectionReady(db: Db, document: DocumentKey, p: Projection) {
    match p
    case FactRevision(fact) => Facts.FactReady(db.facts, document.app, fact)
    case Planning(write) =>
      && document.app == PLANNING_NAMESPACE && write.digest == PROFILE_DIGEST
      && Plans.PlanReady(PlanOf(db.plans, PlanKey(document.app, document.community)), write)
  }

  ghost predicate ProjectionsReady(db: Db, document: DocumentKey, projections: seq<Projection>) {
    && |projections| <= 1
    && (|projections| == 1 ==> ProjectionReady(db, document, projections[0]))
  }

  ghost predicate WriteReady(db: Db, w: Write) {
    ProjectionsReady(db, w.document, w.projections)
  }

  /** The updates a request has read are those of the document at some earlier time. */
  ghost predicate LoadedEarlier(docs: Documents, key: DocumentKey, loaded: seq<Update>) {
    var rows := RowsOf(docs.updates, key);
    |loaded| <= |rows| && multiset(loaded) == Payloads(rows[..|loaded|])
  }

  /** The schema a fact request has read is still the registered one, and the fact fits. */
  ghost predicate SchemaRead(facts: Database.Facts, command: Command, fact: AssertFact, schema: FactSchema) {
    && Facts.FitsSchema(facts.schemas, command.caller, fact.topic, fact.body)
    && facts.schemas[Facts.SchemaOf(command.caller, fact.topic)] == schema
  }

  ghost predicate TaskInv(db: Db, t: Task) {
    match t
    case MutateLookup(w) => WriteReady(db, w)
    case LockedLookup(w) => WriteReady(db, w)
    case LoadingUpdates(w) => WriteReady(db, w)
    case ReadingHead(w, loaded) => WriteReady(db, w) && LoadedEarlier(db.docs, w.document, loaded)
    case Committing(c) => Docs.Prepared(db.docs, c) && ProjectionsReady(db, c.document, c.projections)
    case FactRelookup(command, fact, schema) => SchemaRead(db.facts, command, fact, schema)
    case ReadingPrevious(command, fact, schema) => SchemaRead(db.facts, command, fact, schema)
    case ReadingConflict(command, fact, schema, previous) => WriteReady(db, FactWrite(command, fact, schema, previous))
    case ReadingCatalog(command, community, row, catalog, read) =>
      Plans.CatalogFits(PlanOf(db.plans, PlanKey(PLANNING_NAMESPACE, community)), catalog, read)
    case _ => true
  }

  /** Every response a client holds is the stored one for its key and request. */
  ghost predicate AnswerStored(docs: Documents, a: Answer) {
    var at := (a.command.caller, a.command.key);
    at in docs.idempotency && docs.idempotency[at] == IdempotencyRow(a.command.requestHash, a.response)
  }

  ghost predicate DbInv(db: Db) {
    && Docs.DocumentsInv(db.docs)
    && Facts.FactsInv(db.docs.operations, db.facts)
    && Plans.PlansInv(db.plans)
    && Plans.PlansSourced(db.docs.operations, db.plans)
  }

  ghost predicate TasksInv(db: Db, tasks: map<nat, Task>) {
    forall id :: id in tasks ==> TaskInv(db, tasks[id])
  }

  ghost predicate AnswersInv(docs: Documents, answers: seq<Answer>) {
    forall a :: a in answers ==> AnswerStored(docs, a)
  }

  /** Delivery rows belong to committed operations. */
  ghost predicate DeliveriesKnown(db: Db) {
    forall at :: at in db.deliveries ==> HashTaken(db.docs.operations, at.0)
  }

  ghost predicate Inv(s: System) {
    && DbInv(s.db)
    && DeliveriesKnown(s.db)
    && TasksInv(s.db, s.tasks)
    && AnswersInv(s.db.docs, s.answers)
    && Outbox.OutboxInv(s.db.deliveries, s.leases, s.acks)
  }

  // ---------------------------------------------------------------- growth

  /** Rows are appended, schemas and revisions kept, and a changed plan has a new version. */
  ghost predicate Grows(db: Db, db': Db) {
    Docs.Extends(db.docs, db'.docs) && Facts.Extends(db.facts, db'.facts) && Plans.Advances(db.plans, db'.plans)
  }

  lemma ProjectionsStay(db: Db, db': Db, document: DocumentKey, projections: seq<Projection>)
    requires ProjectionsReady(db, document, projections) && Grows(db, db')
    ensures ProjectionsReady(db', document, projections)
  {
  }

  lemma LoadedStays(docs: Documents, docs': Documents, key: DocumentKey, loaded: seq<Update>)
    requires LoadedEarlier(docs, key, loaded) && Docs.Extends(docs, docs')
    ensures LoadedEarlier(docs', key, loaded)
  {
    Docs.RowsOfPrefix(docs'.updates, |docs.updates|, key);
    assert docs'.updates[..|docs.updates|] == docs.updates;
    var rows, rows' := RowsOf(docs.updates, key), RowsOf(docs'.updates, key);
    assert rows'[..|loaded|] == rows[..|loaded|];
  }

  lemma SchemaStays(facts: Database.Facts, facts': Database.Facts, command: Command, fact: AssertFact,
          schema: FactSchema)
    requires SchemaRead(facts, command, fact, schema) && Facts.Extends(facts, facts')
    ensures SchemaRead(facts', command, fact, schema)
  {
  }

  lemma TaskStays(db: Db, db': Db, t: Task)
    requires TaskInv(db, t) && Grows(db, db')
    ensures TaskInv(db', t)
  {
    match t {
      case MutateLookup(w) => ProjectionsStay(db, db', w.document, w.projections);
      case LockedLookup(w) => ProjectionsStay(db, db', w.document, w.projections);
      case LoadingUpdates(w) => ProjectionsStay(db, db', w.document, w.projections);
      case ReadingHead(w, loaded) =>
        ProjectionsStay(db, db', w.document, w.projections);
        LoadedStays(db.docs, db'.docs, w.document, loaded);
      case Committing(c) =>
        ProjectionsStay(db, db', c.document, c.projections);
        Docs.PreparedStays(db.docs, db'.docs, c);
      case FactRelookup(command, fact, schema) => SchemaStays(db.facts, db'.facts, command, fact, schema);
      case ReadingPrevious(command, fact, schema) => SchemaStays(db.facts, db'.facts, command, fact, schema);
      case ReadingConflict(command, fact, schema, previous) =>
        var w := FactWrite(command, fact, schema, previous);
        ProjectionsStay(db, db', w.document, w.projections);
      case ReadingCatalog(command, community, row, catalog, read) =>
        var key := PlanKey(PLANNING_NAMESPACE, community);
        assert PlanOf(db'.plans, key) == PlanOf(db.plans, key) ||
            PlanOf(db.plans, key).version < PlanOf(db'.plans, key).version;
      case _ =>
    }
  }

  lemma TasksStay(db: Db, db': Db, tasks: map<nat, Task>)
    requires TasksInv(db, tasks) && Grows(db, db')
    ensures TasksInv(db', tasks)
  {
    forall id | id in tasks ensures TaskInv(db', tasks[id]) {
      TaskStays(db, db', tasks[id]);
    }
  }

  lemma AnswersStay(docs: Documents, docs': Documents, answers: seq<Answer>)
    requires AnswersInv(docs, answers) && Docs.Extends(docs, docs')
    ensures AnswersInv(docs', answers)
  {
  }

  // --------------------------------------------------------------- the commit

  /** A commit with at most one projection, taken apart. */
  lemma CommitParts(db: Db, c: LocalCommit, now: int, db': Db)
    requires CommitLocal(db, c, now) == Ok(db') && |c.projections| <= 1
    ensures CommitGuards(db.docs, c) == Ok(()) && (c.command.caller, c.command.key) !in db.docs.idempotency
    ensures db'.docs == Docs.Committed(db.docs, c, now) && db'.grants == db.grants && db'.deliveries == db.deliveries
    ensures c.projections == [] ==> db'.facts == db.facts && db'.plans == db.plans
    ensures |c.projections| == 1 && c.projections[0].FactRevision? ==>
              db'.plans == db.plans &&
              ApplyFact(db.facts, c.document.app, c.record.author, c.record.hash, c.projections[0].fact, now) ==
                  Ok(db'.facts)
    ensures |c.projections| == 1 && c.projections[0].Planning? ==>
              db'.facts == db.facts &&
              ApplyPlanning(db.plans, db.grants, PlanKey(c.document.app, c.document.community), c.record.hash,
                  c.projections[0].write) == Ok(db'.plans)
  {
    if |c.projections| == 1 {
      var start := db.(docs := InsertRows(db.docs, c, now));
      var first := ApplyProjection(start, c, c.projections[0], now);
      assert c.projections[1..] == [];
      assert first.Ok? ==> ApplyProjections(first.value, c, c.projections[1..], now) == first;
      assert ApplyProjections(start, c, c.projections, now) == first;
    }
  }

  lemma CommittedExtends(d: Documents, c: LocalCommit, now: int)
    requires (c.command.caller, c.command.key) !in d.idempotency
    ensures Docs.Extends(d, Docs.Committed(d, c, now))
  {
  }

  lemma CommitKeepsFactTables(db: Db, c: LocalCommit, now: int, db': Db)
    requires DbInv(db) && ProjectionsReady(db, c.document, c.projections) && CommitLocal(db, c, now) == Ok(db')
    ensures Facts.FactsInv(db'.docs.operations, db'.facts) && Facts.Extends(db.facts, db'.facts)
  {
    CommitParts(db, c, now, db');
    var o := OperationRow(c, now);
    if |c.projections| == 1 && c.projections[0].FactRevision? {
      Facts.FactCommitKeepsFacts(db.docs.operations, o, db.facts, c.document.app, c.projections[0].fact, now,
          db'.facts);
    } else {
      Facts.OtherCommitKeepsFacts(db.docs.operations, o, db.facts);
    }
  }

  lemma CommitKeepsPlanTables(db: Db, c: LocalCommit, now: int, db': Db)
    requires DbInv(db) && ProjectionsReady(db, c.document, c.projections) && CommitLocal(db, c, now) == Ok(db')
    ensures Plans.PlansInv(db'.plans) && Plans.Advances(db.plans, db'.plans) &&
              Plans.PlansSourced(db'.docs.operations, db'.plans)
  {
    CommitParts(db, c, now, db');
    var key, o := PlanKey(c.document.app, c.document.community), OperationRow(c, now);
    if |c.projections| == 1 && c.projections[0].Planning? {
      assert ProjectionReady(db, c.document, c.projections[0]);
      Plans.PlanningCommitKeepsPlans(db.plans, db.grants, key, c.record.hash, c.projections[0].write, db'.plans);
      Plans.CommitIsSourced(db.docs.operations, o, db.plans, db.grants, key, c.projections[0].write, db'.plans);
    } else {
      Plans.SourcedStays(db.docs.operations, o, db.plans);
    }
  }

  lemma CommitKeepsDb(db: Db, c: LocalCommit, now: int, db': Db)
    requires DbInv(db) && Docs.Prepared(db.docs, c) && ProjectionsReady(db, c.document, c.projections)
    requires CommitLocal(db, c, now) == Ok(db')
    ensures DbInv(db') && Grows(db, db') && AnswerStored(db'.docs, Answer(c.command, c.response))
  {
    CommitParts(db, c, now, db');
    Docs.CommitKeepsDocuments(db.docs, c, now);
    CommittedExtends(db.docs, c, now);
    CommitKeepsFactTables(db, c, now, db');
    CommitKeepsPlanTables(db, c, now, db');
  }

  // ------------------------------------------------------ steps of one request

  /** A step that leaves the store alone and moves one request. */
  lemma MoveKeepsInv(s: System, id: nat, t: Task)
    requires Inv(s) && TaskInv(s.db, t)
    ensures Inv(Goto(s, id, t))
  {
  }

  lemma DropKeepsInv(s: System, id: nat)
    requires Inv(s)
    ensures Inv(Drop(s, id))
  {
  }

  lemma FinishKeepsInv(s: System, id: nat, command: Command, response: Response)
    requires Inv(s) && AnswerStored(s.db.docs, Answer(command, response))
    ensures Inv(Finish(s, id, command, response))
  {
    DropKeepsInv(s, id);
  }

  lemma LookupKeepsInv(s: System, id: nat, command: Command, next: Task)
    requires Inv(s) && TaskInv(s.db, next)
    ensures Inv(Lookup(s, id, command, next))
  {
    match Idempotency(s.db.docs, command) {
      case Err(_) => DropKeepsInv(s, id);
      case Ok(Some(response)) => FinishKeepsInv(s, id, command, response);
      case Ok(None) => MoveKeepsInv(s, id, next);
    }
  }

  lemma LoadIsEarlier(docs: Documents, key: DocumentKey)
    ensures LoadedEarlier(docs, key, LoadUpdates(docs, key))
  {
    Docs.LoadedUpdates(docs, key);
    var rows := RowsOf(docs.updates, key);
    assert rows[..|rows|] == rows;
  }

  lemma KnownStays(db: Db, db': Db)
    requires DeliveriesKnown(db) && db'.deliveries == db.deliveries && db.docs.operations <= db'.docs.operations
    ensures DeliveriesKnown(db')
  {
  }

  lemma CommitStepKeepsInv(s: System, id: nat, c: LocalCommit, now: Clock)
    requires Inv(s) && TaskInv(s.db, Committing(c)) && CommitLocal(s.db, c, now).Ok?
    ensures Inv(Finish(s.(db := CommitLocal(s.db, c, now).value), id, c.command, c.response))
  {
    var db' := CommitLocal(s.db, c, now).value;
    CommitKeepsDb(s.db, c, now, db');
    CommitParts(s.db, c, now, db');
    KnownStays(s.db, db');
    TasksStay(s.db, db', s.tasks);
    AnswersStay(s.db.docs, db'.docs, s.answers);
    FinishKeepsInv(s.(db := db'), id, c.command, c.response);
  }

  lemma LoadKeepsInv(s: System, id: nat, w: Write)
    requires Inv(s) && WriteReady(s.db, w)
    ensures Inv(Drop(s, id)) && Inv(Goto(s, id, ReadingHead(w, LoadUpdates(s.db.docs, w.document))))
  {
    LoadIsEarlier(s.db.docs, w.document);
    DropKeepsInv(s, id);
    MoveKeepsInv(s, id, ReadingHead(w, LoadUpdates(s.db.docs, w.document)));
  }

  lemma StagedIsPrepared(db: Db, w: Write, loaded: seq<Update>, head: Option<LogHead>, forged: Forged)
    requires WriteReady(db, w) && LoadedEarlier(db.docs, w.document, loaded)
    requires head.Some? ==> head.value.sequence < U32_MAX
    ensures TaskInv(db, Committing(Stage(w, loaded, head, forged)))
  {
  }

  lemma HeadKeepsInv(s: System, id: nat, w: Write, loaded: seq<Update>, forged: Forged)
    requires Inv(s) && WriteReady(s.db, w) && LoadedEarlier(s.db.docs, w.document, loaded)
    ensures var head := HeadOf(s.db.docs, forged.author, LogId(w.document));
            if head.Some? && head.value.sequence >= U32_MAX then Inv(Drop(s, id))
            else Inv(Goto(s, id, Committing(Stage(w, loaded, head, forged))))
  {
    var head := HeadOf(s.db.docs, forged.author, LogId(w.document));
    if head.Some? && head.value.sequence >= U32_MAX {
      DropKeepsInv(s, id);
    } else {
      StagedIsPrepared(s.db, w, loaded, head, forged);
      MoveKeepsInv(s, id, Committing(Stage(w, loaded, head, forged)));
    }
  }

  lemma MutateCallKeepsInv(s: System, id: nat, now: Clock, forged: Forged)
    requires Inv(s) && id in s.tasks
    requires
      var t := s.tasks[id];
      t.MutateLookup? || t.LockedLookup? || t.LoadingUpdates? || t.ReadingHead? || t.Committing?
    ensures Inv(MutateCall(s, id, s.tasks[id], now, forged))
  {
    var task := s.tasks[id];
    assert TaskInv(s.db, task);
    match task {
      case MutateLookup(w) => LookupKeepsInv(s, id, w.command, LockedLookup(w));
      case LockedLookup(w) => LookupKeepsInv(s, id, w.command, LoadingUpdates(w));
      case LoadingUpdates(w) => LoadKeepsInv(s, id, w);
      case ReadingHead(w, loaded) => HeadKeepsInv(s, id, w, loaded, forged);
      case Committing(c) =>
        if CommitLocal(s.db, c, now).Err? {
          DropKeepsInv(s, id);
        } else {
          CommitStepKeepsInv(s, id, c, now);
        }
    }
  }

  /** The projection built from what the fact handler read is ready when it is built. */
  lemma FactWriteReady(db: Db, command: Command, fact: AssertFact, schema: FactSchema)
    requires DbInv(db) && SchemaRead(db.facts, command, fact, schema)
    requires var previous := CurrentRevision(db.facts, FactKeyOf(command, fact));
             (previous.Some? ==> previous.value.topic == fact.topic) &&
             TransitionAllowed(previous, fact.status, schema.lifecycle)
    ensures WriteReady(db, FactWrite(command, fact, schema, CurrentRevision(db.facts, FactKeyOf(command, fact))))
  {
    var w := FactWrite(command, fact, schema, CurrentRevision(db.facts, FactKeyOf(command, fact)));
    var p := w.projections[0].fact;
    assert w.document.app == command.caller;
    ReadIsWelcome(db.facts, command, fact, schema, p);
    Facts.WelcomeIsReady(db.docs.operations, db.facts, command.caller, p);
  }

  lemma ReadIsWelcome(f: Database.Facts, command: Command, fact: AssertFact, schema: FactSchema, p: FactProjection)
    requires var previous := CurrentRevision(f, FactKeyOf(command, fact));
             && (previous.Some? ==> previous.value.topic == fact.topic)
             && TransitionAllowed(previous, fact.status, schema.lifecycle)
             && p == FactWrite(command, fact, schema, previous).projections[0].fact
    ensures Facts.Welcome(f, command.caller, p) && Facts.Permits(schema.lifecycle, p.expectedPrevious, p.status)
  {
  }

  /** A fact the handler accepts conforms to the declarative reading of its schema. */
  lemma AcceptedConforms(f: Database.Facts, fact: AssertFact, key: SchemaKey, schema: FactSchema)
    requires Facts.AllRegistrable(f) && key in f.schemas && f.schemas[key] == schema && FactAccepted(fact, schema)
    ensures Json.Conforms(fact.body.value, schema.objectSchema)
  {
    assert Registrable(Registration(key, schema));
    Json.SchemaAgreement(fact.body.value, schema.objectSchema, 0, true);
  }

  lemma AcceptedFactFits(f: Database.Facts, command: Command, fact: AssertFact, schema: FactSchema)
    requires Facts.SchemaOf(command.caller, fact.topic) in f.schemas &&
              f.schemas[Facts.SchemaOf(command.caller, fact.topic)] == schema
    requires FactAccepted(fact, schema) && Json.Conforms(fact.body.value, schema.objectSchema)
    ensures SchemaRead(f, command, fact, schema)
  {
  }

  /** What the handler accepts fits the schema it has read. */
  lemma AcceptedIsRead(f: Database.Facts, command: Command, fact: AssertFact)
    requires Facts.AllRegistrable(f) && Facts.SchemaOf(command.caller, fact.topic) in f.schemas
    requires FactAccepted(fact, f.schemas[Facts.SchemaOf(command.caller, fact.topic)])
    ensures SchemaRead(f, command, fact, f.schemas[Facts.SchemaOf(command.caller, fact.topic)])
  {
    var key := Facts.SchemaOf(command.caller, fact.topic);
    AcceptedConforms(f, fact, key, f.schemas[key]);
    AcceptedFactFits(f, command, fact, f.schemas[key]);
  }

  lemma SchemaCallKeepsInv(s: System, id: nat, command: Command, fact: AssertFact)
    requires Inv(s)
    ensures Inv(FactCall(s, id, ReadingSchema(command, fact)))
  {
    var key := Facts.SchemaOf(command.caller, fact.topic);
    DropKeepsInv(s, id);
    if key in s.db.facts.schemas && FactAccepted(fact, s.db.facts.schemas[key]) {
      AcceptedIsRead(s.db.facts, command, fact);
      MoveKeepsInv(s, id, FactRelookup(command, fact, s.db.facts.schemas[key]));
    }
  }

  lemma PreviousReadKeepsInv(s: System, id: nat, command: Command, fact: AssertFact, schema: FactSchema,
          previous: Option<FactCurrent>)
    requires Inv(s) && WriteReady(s.db, FactWrite(command, fact, schema, previous))
    ensures Inv(Goto(s, id, ReadingConflict(command, fact, schema, previous)))
    ensures Inv(Goto(s, id, LockedLookup(FactWrite(command, fact, schema, previous))))
  {
    MoveKeepsInv(s, id, ReadingConflict(command, fact, schema, previous));
    MoveKeepsInv(s, id, LockedLookup(FactWrite(command, fact, schema, previous)));
  }

  /** The read of the current revision either ends the request or passes both checks. */
  ghost predicate PreviousPasses(s: System, command: Command, fact: AssertFact, schema: FactSchema) {
    var previous := CurrentRevision(s.db.facts, FactKeyOf(command, fact));
    (previous.Some? ==> previous.value.topic == fact.topic) &&
    TransitionAllowed(previous, fact.status, schema.lifecycle)
  }

  lemma PreviousCallCases(s: System, id: nat, command: Command, fact: AssertFact, schema: FactSchema)
    ensures var previous := CurrentRevision(s.db.facts, FactKeyOf(command, fact));
            var r := FactCall(s, id, ReadingPrevious(command, fact, schema));
            if PreviousPasses(s, command, fact, schema)
            then r == Goto(s, id, ReadingConflict(command, fact, schema, previous))
                 || r == Goto(s, id, LockedLookup(FactWrite(command, fact, schema, previous)))
            else r == Drop(s, id)
  {
  }

  lemma PreviousCallKeepsInv(s: System, id: nat, command: Command, fact: AssertFact, schema: FactSchema)
    requires Inv(s) && SchemaRead(s.db.facts, command, fact, schema)
    ensures Inv(FactCall(s, id, ReadingPrevious(command, fact, schema)))
  {
    PreviousCallCases(s, id, command, fact, schema);
    DropKeepsInv(s, id);
    if PreviousPasses(s, command, fact, schema) {
      FactWriteReady(s.db, command, fact, schema);
      PreviousReadKeepsInv(s, id, command, fact, schema, CurrentRevision(s.db.facts, FactKeyOf(command, fact)));
    }
  }

  lemma FactCallKeepsInv(s: System, id: nat)
    requires Inv(s) && id in s.tasks
    requires
      var t := s.tasks[id];
      t.FactLookup? || t.ReadingSchema? || t.FactRelookup? || t.ReadingPrevious? || t.ReadingConflict?
    ensures Inv(FactCall(s, id, s.tasks[id]))
  {
    var task := s.tasks[id];
    assert TaskInv(s.db, task);
    match task {
      case FactLookup(command, fact) => LookupKeepsInv(s, id, command, ReadingSchema(command, fact));
      case ReadingSchema(command, fact) =>
        SchemaCallKeepsInv(s, id, command, fact);
      case FactRelookup(command, fact, schema) => LookupKeepsInv(s, id, command,
          ReadingPrevious(command, fact, schema));
      case ReadingPrevious(command, fact, schema) =>
        PreviousCallKeepsInv(s, id, command, fact, schema);
      case ReadingConflict(command, fact, schema, previous) =>
        DropKeepsInv(s, id);
        MoveKeepsInv(s, id, LockedLookup(FactWrite(command, fact, schema, previous)));
    }
  }

  lemma PlanCallKeepsInv(s: System, id: nat)
    requires Inv(s) && id in s.tasks
    requires var t := s.tasks[id]; t.ReadingAccess? || t.PlanLookup? || t.ReadingVersion?
    ensures Inv(PlanCall(s, id, s.tasks[id]))
  {
    DropKeepsInv(s, id);
    match s.tasks[id] {
      case ReadingAccess(command, community, row) => MoveKeepsInv(s, id, PlanLookup(command, community, row));
      case PlanLookup(command, community, row) => LookupKeepsInv(s, id, command,
          ReadingVersion(command, community, row));
      case ReadingVersion(command, community, row) =>
        MoveKeepsInv(s, id,
            ReadingCatalog(command, community, row, Plans.Catalog(PlanAt(s, community).version, [], [], [], []), 0));
    }
  }

  /** A page read later than the version is the table's, or the version has moved on. */
  lemma PageFits(p: Plan, catalog: Plans.Catalog, page: Page)
    requires Plans.CatalogFits(p, catalog, Turn(page)) && PageOf(p, page)
    ensures Plans.CatalogFits(p, Extended(catalog, page), Turn(page) + 1)
  {
  }

  lemma ValidatedKeepsInv(s: System, id: nat, command: Command, community: string, row: PlanningRow,
          catalog: Plans.Catalog)
    requires Inv(s) && Plans.CatalogFits(PlanAt(s, community), catalog, 4)
    ensures Inv(Validated(s, id, command, community, row, catalog))
  {
    DropKeepsInv(s, id);
    if Plans.CatalogAccepts(catalog, row) {
      var write := PlanningWrite(command.caller, PROFILE_DIGEST, catalog.version, row);
      assert Plans.PlanOk(PlanOf(s.db.plans, PlanKey(PLANNING_NAMESPACE, community)));
      Plans.CatalogReady(PlanAt(s, community), catalog, write);
      var w := PlanWrite(command, community, row, catalog.version);
      assert ProjectionReady(s.db, w.document, w.projections[0]);
      MoveKeepsInv(s, id, LockedLookup(w));
    }
  }

  lemma ReadTableCases(s: System, id: nat, page: Page)
    requires ReadsTable(s, id, Turn(page)) && PageOf(PlanAt(s, s.tasks[id].community), page)
    ensures var t := s.tasks[id];
            ReadTable(s, id, page) ==
              if Turn(page) < 3 then Goto(s, id,
                  ReadingCatalog(t.command, t.community, t.row, Extended(t.catalog, page), Turn(page) + 1))
              else Validated(s, id, t.command, t.community, t.row, Extended(t.catalog, page))
  {
  }

  lemma ReadOnKeepsInv(s: System, id: nat, command: Command, community: string, row: PlanningRow,
          catalog: Plans.Catalog, read: nat)
    requires Inv(s) && Plans.CatalogFits(PlanAt(s, community), catalog, read) && read <= 4
    ensures Inv(Goto(s, id, ReadingCatalog(command, community, row, catalog, read)))
    ensures read == 4 ==> Inv(Validated(s, id, command, community, row, catalog))
  {
    MoveKeepsInv(s, id, ReadingCatalog(command, community, row, catalog, read));
    if read == 4 {
      ValidatedKeepsInv(s, id, command, community, row, catalog);
    }
  }

  lemma ReadTableKeepsInv(s: System, id: nat, page: Page)
    requires Inv(s) && ReadsTable(s, id, Turn(page))
    ensures Inv(ReadTable(s, id, page))
  {
    var t := s.tasks[id];
    if PageOf(PlanAt(s, t.community), page) {
      ReadTableCases(s, id, page);
      CatalogOf(s, id);
      PageFits(PlanAt(s, t.community), t.catalog, page);
      ReadOnKeepsInv(s, id, t.command, t.community, t.row, Extended(t.catalog, page), Turn(page) + 1);
    }
  }

  lemma CatalogOf(s: System, id: nat)
    requires TasksInv(s.db, s.tasks) && id in s.tasks && s.tasks[id].ReadingCatalog?
    ensures Plans.CatalogFits(PlanAt(s, s.tasks[id].community), s.tasks[id].catalog, s.tasks[id].read)
  {
    assert TaskInv(s.db, s.tasks[id]);
  }

  // ------------------------------------------------------------ administration

  lemma SameStoreForTasks(db: Db)
    ensures Docs.Extends(db.docs, db.docs) && Plans.Advances(db.plans, db.plans) && Facts.Extends(db.facts, db.facts)
  {
  }

  lemma RegisterKeepsInv(s: System, r: Registration)
    requires Inv(s) && RegisterSchema(s.db.facts, r).Ok?
    ensures Inv(s.(db := s.db.(facts := RegisterSchema(s.db.facts, r).value)))
  {
    var facts' := RegisterSchema(s.db.facts, r).value;
    Facts.RegistrationKeepsFacts(s.db.docs.operations, s.db.facts, r, facts');
    SameStoreForTasks(s.db);
    TasksStay(s.db, s.db.(facts := facts'), s.tasks);
  }

  lemma GrantKeepsInv(s: System, app: string, community: string, access: Access)
    requires Inv(s)
    ensures Inv(s.(db := s.db.(grants := s.db.grants[(app, community) := access])))
  {
    SameStoreForTasks(s.db);
    TasksStay(s.db, s.db.(grants := s.db.grants[(app, community) := access]), s.tasks);
  }

  lemma OutboxRowsDistinct(docs: Documents)
    requires Docs.TablesAligned(docs)
    ensures forall i, j :: 0 <= i < j < |docs.outbox| ==> docs.outbox[i].hash != docs.outbox[j].hash
  {
    forall i, j | 0 <= i < j < |docs.outbox| ensures docs.outbox[i].hash != docs.outbox[j].hash {
      assert Docs.SameOperation(docs, i) && Docs.SameOperation(docs, j);
    }
  }

  lemma OutboxIdsGrow(docs: Documents)
    requires Docs.TablesAligned(docs)
    ensures Outbox.IdsGrow(docs.outbox)
  {
    forall i, j | 0 <= i < j < |docs.outbox| ensures docs.outbox[i].id < docs.outbox[j].id {
      assert Docs.SameOperation(docs, i) && Docs.SameOperation(docs, j);
    }
  }

  lemma DeliveriesKeepInv(s: System, deliveries: Deliveries, leases: seq<Outbox.Lease>, acks: seq<Outbox.Settlement>)
    requires Inv(s) && Outbox.OutboxInv(deliveries, leases, acks) && DeliveriesKnown(s.db.(deliveries := deliveries))
    ensures Inv(s.(db := s.db.(deliveries := deliveries), leases := leases, acks := acks))
  {
    SameStoreForTasks(s.db);
    TasksStay(s.db, s.db.(deliveries := deliveries), s.tasks);
  }

  lemma ClaimRowsKeepsInv(s: System, transport: string, now: Clock, limit: nat, maxBytes: nat)
    requires Inv(s)
    ensures Inv(RowsClaimed(s, transport, now, limit, maxBytes))
  {
    var claimed := Outbox.ClaimOutbox(s.db.docs, s.db.deliveries, transport, now, limit, maxBytes);
    if claimed.Ok? {
      OutboxRowsDistinct(s.db.docs);
      Outbox.ClaimKnows(s.db.docs, s.db.deliveries, transport, now, limit, maxBytes);
      Outbox.ClaimKeeps(s.db.docs, s.db.deliveries, s.leases, s.acks, transport, now, limit, maxBytes);
      DeliveriesKeepInv(s, claimed.value.deliveries, s.leases + Outbox.LeasesOf(claimed.value.items, transport, now),
          s.acks);
    }
  }

  lemma SettleKeepsInv(s: System, ack: Ack, now: Clock)
    requires Inv(s)
    ensures Inv(AckTaken(s, ack, now))
  {
    var settled := Outbox.AckOutbox(s.db.deliveries, ack, now);
    if settled.Ok? {
      Outbox.AckKeeps(s.db.deliveries, s.leases, s.acks, ack, now);
      DeliveriesKeepInv(s, settled.value, s.leases, s.acks + [Outbox.Settlement(ack, now)]);
    }
  }

  // ------------------------------------------------------------------ all runs

  lemma NextKeepsInv(s: System, l: Label)
    requires Inv(s)
    ensures Inv(Next(s, l))
  {
    match l {
      case Begin(id, task) => if id !in s.tasks && Starts(task) { MoveKeepsInv(s, id, task); }
      case Call(id, now, forged) => if id in s.tasks { CallKeepsInv(s, id, now, forged); }
      case ReadPage(id, page) => if ReadsTable(s, id, Turn(page)) { ReadTableKeepsInv(s, id, page); }
      case Abandon(id) => DropKeepsInv(s, id);
      case Register(r) => if RegisterSchema(s.db.facts, r).Ok? { RegisterKeepsInv(s, r); }
      case Grant(app, community, access) => GrantKeepsInv(s, app, community, access);
      case ClaimRows(transport, now, limit, maxBytes) => ClaimRowsKeepsInv(s, transport, now, limit, maxBytes);
      case Settle(ack, now) => SettleKeepsInv(s, ack, now);
    }
  }

  lemma CallKeepsInv(s: System, id: nat, now: Clock, forged: Forged)
    requires Inv(s) && id in s.tasks
    ensures Inv(CallOf(s, id, now, forged))
  {
    var t := s.tasks[id];
    if t.MutateLookup? || t.LockedLookup? || t.LoadingUpdates? || t.ReadingHead? || t.Committing? {
      MutateCallKeepsInv(s, id, now, forged);
    } else if t.ReadingAccess? || t.PlanLookup? || t.ReadingVersion? {
      PlanCallKeepsInv(s, id);
    } else if t.ReadingCatalog? {
    } else {
      FactCallKeepsInv(s, id);
    }
  }

  lemma InitialInv()
    ensures Inv(INITIAL)
  {
    Docs.EmptyDocuments();
    Facts.EmptyFacts();
    Plans.EmptyPlan();
  }

  /** The invariant holds in every reachable state. */
  lemma {:induction false} RunInv(labels: seq<Label>)
    ensures Inv(Run(labels))
  {
    if labels == [] {
      InitialInv();
    } else {
      RunInv(labels[..|labels| - 1]);
      NextKeepsInv(Run(labels[..|labels| - 1]), labels[|labels| - 1]);
    }
  }
}
