/** Every request of every core as a sequence of atomic repository calls over one store.
    Any number of requests are in flight, their calls interleave in any order, a request
    may die between two calls, and the clock of each commit is arbitrary. The in-process
    locks are left out: they only remove interleavings. */
module Protocol {
  import opened Wrappers
  import opened Domain
  import opened Database
  import opened PlanningCatalog
  import Facts = FactLedger
  import Outbox
  import Json = JsonSchema

  /** A wall clock reading in milliseconds. It may move backwards between steps. */
  type Clock = t: int | 0 <= t <= I64_MAX witness 0

  /** A mutation that still has to be staged against a document. */
  datatype Write = Write(
    command: Command, document: DocumentKey, expectedRevision: Option<nat>,
    mutations: seq<Mutation>, projections: seq<Projection>)

  /** Where a request stands: each constructor names the repository call it makes next. */
  datatype Task =
    | MutateLookup(write: Write)
    | LockedLookup(write: Write)
    | LoadingUpdates(write: Write)
    | ReadingHead(write: Write, loaded: seq<Update>)
    | Committing(commit: LocalCommit)
    | FactLookup(command: Command, fact: AssertFact)
    | ReadingSchema(command: Command, fact: AssertFact)
    | FactRelookup(command: Command, fact: AssertFact, schema: FactSchema)
    | ReadingPrevious(command: Command, fact: AssertFact, schema: FactSchema)
    | ReadingConflict(command: Command, fact: AssertFact, schema: FactSchema, previous: Option<FactCurrent>)
    | ReadingAccess(command: Command, community: string, row: PlanningRow)
    | PlanLookup(command: Command, community: string, row: PlanningRow)
    | ReadingVersion(command: Command, community: string, row: PlanningRow)
    | ReadingCatalog(command: Command, community: string, row: PlanningRow, catalog: Catalog, read: nat)

  /** A response a client was given. */
  datatype Answer = Answer(command: Command, response: Response)

  datatype System = System(
    db: Db, tasks: map<nat, Task>, answers: seq<Answer>, leases: seq<Outbox.Lease>, acks: seq<Outbox.Settlement>)

  const INITIAL := System(EMPTY, map[], [], [], [])

  /** What the forging of a record and the writing session contribute. */
  datatype Forged = Forged(hash: Hash, header: Blob, body: Blob, author: Hash, peer: nat)

  /** The result of one `SELECT … LIMIT 10001` over a planning table. */
  datatype Page =
    | Projects(projects: seq<(string, string)>)
    | Tasks(tasks: seq<(string, TaskRow)>)
    | Events(events: seq<(string, TaskRow)>)
    | Dependencies(dependencies: seq<(string, Search.Dependency)>)

  datatype Label =
    | Begin(id: nat, task: Task)
    | Call(id: nat, now: Clock, forged: Forged)
    | ReadPage(id: nat, page: Page)
    | Abandon(id: nat)
    | Register(registration: Registration)
    | Grant(app: string, community: string, access: Access)
    | ClaimRows(transport: string, now: Clock, limit: nat, maxBytes: nat)
    | Settle(ack: Ack, now: Clock)

  // -------------------------------------------------------------- transitions

  function Drop(s: System, id: nat): System {
    s.(tasks := s.tasks - {id})
  }

  function Finish(s: System, id: nat, command: Command, response: Response): System {
    s.(tasks := s.tasks - {id}, answers := s.answers + [Answer(command, response)])
  }

  function Goto(s: System, id: nat, task: Task): System {
    s.(tasks := s.tasks[id := task])
  }

  /** An idempotency lookup: replay, refuse or carry on. */
  function Lookup(s: System, id: nat, command: Command, next: Task): System {
    match Idempotency(s.db.docs, command)
    case Err(_) => Drop(s, id)
    case Ok(Some(response)) => Finish(s, id, command, response)
    case Ok(None) => Goto(s, id, next)
  }

  /** The three ways a request enters. An application may not use the reserved
      namespace, and a plain mutation carries no projection. */
  predicate Starts(task: Task) {
    match task
    case MutateLookup(w) => w.projections == [] && w.document.app == w.command.caller &&
        w.command.caller != PLANNING_NAMESPACE
    case FactLookup(command, _) => command.caller != PLANNING_NAMESPACE
    case ReadingAccess(command, _, _) => command.caller != PLANNING_NAMESPACE
    case _ => false
  }

  /** The rest of `mutate_locked` once the head is read: sequence, backlink, forged
      record, staged update and response. */
  function Stage(w: Write, loaded: seq<Update>, head: Option<LogHead>, forged: Forged): LocalCommit
    requires head.Some? ==> head.value.sequence < U32_MAX
  {
    var sequence := if head.Some? then head.value.sequence + 1 else 0;
    var backlink := if head.Some? then Some(head.value.hash) else None;
    var update := Update(multiset(loaded), forged.peer, w.mutations);
    LocalCommit(w.document, |loaded|,
                Record(forged.hash, forged.header, forged.body, forged.author, LogId(w.document), sequence, backlink, 1,
                    w.document),
                update, w.projections, w.command,
                Response(forged.hash, |loaded| + 1, multiset(loaded) + multiset{update}))
  }

  /** `validate_fact_against_schema` and the checks before it. */
  predicate FactAccepted(fact: AssertFact, schema: FactSchema) {
    && schema.enabled
    && fact.topic.predicateName == schema.predicateName
    && Facts.ProvenanceMet(fact.body, schema.provenance)
    && 0.0 <= fact.body.confidence <= 1.0
    && Json.ValidateValue(fact.body.value, schema.objectSchema, 0) == Json.Accepted
  }

  /** `validate_lifecycle_transition` */
  predicate TransitionAllowed(previous: Option<FactCurrent>, next: Submitted, policy: LifecyclePolicy) {
    && (previous.None? ==> next == Asserted)
    && (previous.Some? ==> !Terminal(previous.value.status))
    && (previous.Some? && next == Asserted ==> policy.supersession)
    && (next == Retracted ==> policy.retraction)
    && (next == Disputed ==> policy.dispute)
    && (next == Expired ==> policy.expiry)
  }

  function FactKeyOf(command: Command, fact: AssertFact): FactKey {
    FactKey(command.caller, fact.community, fact.claim)
  }

  function FactWrite(command: Command, fact: AssertFact, schema: FactSchema, previous: Option<FactCurrent>): Write {
    Write(command, DocumentKey(command.caller, fact.community, "facts/" + fact.claim), None,
          [MapSet("claim", "claim_id", String(fact.claim)),
           MapSet("claim", "subject", String(fact.topic.subject)),
           MapSet("claim", "predicate", String(fact.topic.predicateName)),
           MapSet("claim", "schema_id", String(fact.topic.schemaId)),
           MapSet("claim", "schema_version", Integer(fact.topic.schemaVersion)),
           MapSet("claim", "confidence", Float(fact.body.confidence))],
          [FactRevision(FactProjection(fact.community, fact.claim, fact.topic, fact.body, fact.status,
              schema.multipleActive,
                                       if previous.Some? then Some(previous.value.hash) else None))])
  }

  function PlanDocument(row: PlanningRow): string {
    match row
    case ProjectRow(id, _) => "planning/projects/" + id
    case TaskRowOf(id, _) => "planning/tasks/" + id
    case EventRowOf(id, _) => "planning/events/" + id
    case DependencyRow(id, _) => "planning/dependencies/" + id
  }

  function PlanWrite(command: Command, community: string, row: PlanningRow, version: nat): Write {
    Write(command, DocumentKey(PLANNING_NAMESPACE, community, PlanDocument(row)), None,
          [MapSet("record", "profile_id", String(PLANNING_NAMESPACE)),
           MapSet("record", "profile_digest", String(PROFILE_DIGEST)),
           MapSet("record", "submitted_by_app_id", String(command.caller)),
           MapSet("record", "profile_version", Integer(1))],
          [Planning(PlanningWrite(command.caller, PROFILE_DIGEST, version, row))])
  }

  function PlanAt(s: System, community: string): Plan {
    PlanOf(s.db.plans, PlanKey(PLANNING_NAMESPACE, community))
  }

  /** One repository call of a document mutation. */
  function MutateCall(s: System, id: nat, task: Task, now: Clock, forged: Forged): System
    requires task.MutateLookup? || task.LockedLookup? || task.LoadingUpdates? || task.ReadingHead? || task.Committing?
  {
    match task
    case MutateLookup(w) => Lookup(s, id, w.command, LockedLookup(w))
    case LockedLookup(w) => Lookup(s, id, w.command, LoadingUpdates(w))
    case LoadingUpdates(w) =>
      var loaded := LoadUpdates(s.db.docs, w.document);
      if w.expectedRevision.Some? && w.expectedRevision.value != |loaded| then Drop(s, id)
      else Goto(s, id, ReadingHead(w, loaded))
    case ReadingHead(w, loaded) =>
      var head := HeadOf(s.db.docs, forged.author, LogId(w.document));
      if head.Some? && head.value.sequence >= U32_MAX then Drop(s, id)
      else Goto(s, id, Committing(Stage(w, loaded, head, forged)))
    case Committing(c) =>
      match CommitLocal(s.db, c, now)
      case Err(_) => Drop(s, id)
      case Ok(db) => Finish(s.(db := db), id, c.command, c.response)
  }

  /** One repository call of `assert_fact`, up to the mutation it ends in. */
  function FactCall(s: System, id: nat, task: Task): System
    requires task.FactLookup? || task.ReadingSchema? || task.FactRelookup? || task.ReadingPrevious? ||
              task.ReadingConflict?
  {
    match task
    case FactLookup(command, fact) => Lookup(s, id, command, ReadingSchema(command, fact))
    case ReadingSchema(command, fact) =>
      var key := SchemaKey(command.caller, fact.topic.schemaId, fact.topic.schemaVersion);
      if key !in s.db.facts.schemas || !FactAccepted(fact, s.db.facts.schemas[key]) then Drop(s, id)
      else Goto(s, id, FactRelookup(command, fact, s.db.facts.schemas[key]))
    case FactRelookup(command, fact, schema) => Lookup(s, id, command, ReadingPrevious(command, fact, schema))
    case ReadingPrevious(command, fact, schema) =>
      var previous := CurrentRevision(s.db.facts, FactKeyOf(command, fact));
      if previous.Some? && previous.value.topic != fact.topic then Drop(s, id)
      else if !TransitionAllowed(previous, fact.status, schema.lifecycle) then Drop(s, id)
      else if fact.status == Asserted &&
          !schema.multipleActive then Goto(s, id, ReadingConflict(command, fact, schema, previous))
      else Goto(s, id, LockedLookup(FactWrite(command, fact, schema, previous)))
    case ReadingConflict(command, fact, schema, previous) =>
      if ActiveConflict(s.db.facts.claims, FactKeyOf(command, fact), fact.topic) then Drop(s, id)
      else Goto(s, id, LockedLookup(FactWrite(command, fact, schema, previous)))
  }

  /** One repository call of a planning put, up to the first table of the catalogue. */
  function PlanCall(s: System, id: nat, task: Task): System
    requires task.ReadingAccess? || task.PlanLookup? || task.ReadingVersion?
  {
    match task
    case ReadingAccess(command, community, row) =>
      if MayWrite(s.db.grants, command.caller, community) then Goto(s, id, PlanLookup(command, community, row))
          else Drop(s, id)
    case PlanLookup(command, community, row) => Lookup(s, id, command, ReadingVersion(command, community, row))
    case ReadingVersion(command, community, row) =>
      Goto(s, id, ReadingCatalog(command, community, row, Catalog(PlanAt(s, community).version, [], [], [], []), 0))
  }

  function CallOf(s: System, id: nat, now: Clock, forged: Forged): System
    requires id in s.tasks
  {
    var task := s.tasks[id];
    if task.MutateLookup? || task.LockedLookup? || task.LoadingUpdates? || task.ReadingHead? || task.Committing?
    then MutateCall(s, id, task, now, forged)
    else if task.ReadingAccess? || task.PlanLookup? || task.ReadingVersion? then PlanCall(s, id, task)
    else if task.ReadingCatalog? then s
    else FactCall(s, id, task)
  }

  /** The order in which a catalogue reads its tables. */
  function Turn(page: Page): nat {
    match page case Projects(_) => 0 case Tasks(_) => 1 case Events(_) => 2 case Dependencies(_) => 3
  }

  predicate ReadsTable(s: System, id: nat, turn: nat) {
    id in s.tasks && s.tasks[id].ReadingCatalog? && s.tasks[id].read == turn
  }

  /** After the last table the handler validates and goes on to the mutation. */
  ghost function Validated(s: System, id: nat, command: Command, community: string, row: PlanningRow,
          catalog: Catalog): System {
    if CatalogAccepts(catalog, row)
    then Goto(s, id, LockedLookup(PlanWrite(command, community, row, catalog.version)))
    else Drop(s, id)
  }

  ghost predicate PageOf(p: Plan, page: Page) {
    match page
    case Projects(rows) => IsPage(p.projects, MAX_PROFILE_ROWS, rows)
    case Tasks(rows) => IsPage(p.tasks, MAX_PROFILE_ROWS, rows)
    case Events(rows) => IsPage(p.events, MAX_PROFILE_ROWS, rows)
    case Dependencies(rows) => IsPage(p.dependencies, MAX_PROFILE_ROWS, rows)
  }

  function Extended(catalog: Catalog, page: Page): Catalog {
    match page
    case Projects(rows) => catalog.(projects := rows)
    case Tasks(rows) => catalog.(tasks := rows)
    case Events(rows) => catalog.(events := rows)
    case Dependencies(rows) => catalog.(dependencies := rows)
  }

  ghost function ReadTable(s: System, id: nat, page: Page): System
    requires ReadsTable(s, id, Turn(page))
  {
    var t := s.tasks[id];
    var catalog := Extended(t.catalog, page);
    if !PageOf(PlanAt(s, t.community), page) then s
    else if Turn(page) < 3 then Goto(s, id, t.(catalog := catalog, read := t.read + 1))
    else Validated(s, id, t.command, t.community, t.row, catalog)
  }

  function Registered(s: System, r: Registration): System {
    var registered := RegisterSchema(s.db.facts, r);
    if registered.Ok? then s.(db := s.db.(facts := registered.value)) else s
  }

  function Granted(s: System, app: string, community: string, access: Access): System {
    s.(db := s.db.(grants := s.db.grants[(app, community) := access]))
  }

  function RowsClaimed(s: System, transport: string, now: Clock, limit: nat, maxBytes: nat): System {
    match Outbox.ClaimOutbox(s.db.docs, s.db.deliveries, transport, now, limit, maxBytes)
    case Ok(l) =>
      s.(db := s.db.(deliveries := l.deliveries), leases := s.leases + Outbox.LeasesOf(l.items, transport, now))
    case Err(_) => s
  }

  function AckTaken(s: System, ack: Ack, now: Clock): System {
    match Outbox.AckOutbox(s.db.deliveries, ack, now)
    case Ok(deliveries) => s.(db := s.db.(deliveries := deliveries), acks := s.acks + [Outbox.Settlement(ack, now)])
    case Err(_) => s
  }

  /** A label that does not apply leaves the system as it is. */
  ghost function Next(s: System, l: Label): System {
    match l
    case Begin(id, task) => if id !in s.tasks && Starts(task) then Goto(s, id, task) else s
    case Call(id, now, forged) => if id in s.tasks then CallOf(s, id, now, forged) else s
    case ReadPage(id, page) => if ReadsTable(s, id, Turn(page)) then ReadTable(s, id, page) else s
    case Abandon(id) => Drop(s, id)
    case Register(r) => Registered(s, r)
    case Grant(app, community, access) => Granted(s, app, community, access)
    case ClaimRows(transport, now, limit, maxBytes) => RowsClaimed(s, transport, now, limit, maxBytes)
    case Settle(ack, now) => AckTaken(s, ack, now)
  }

  /** The state a sequence of labels leads to: the reachable states are exactly these. */
  ghost function Run(labels: seq<Label>): System {
    if labels == [] then INITIAL else Next(Run(labels[..|labels| - 1]), labels[|labels| - 1])
  }
}
