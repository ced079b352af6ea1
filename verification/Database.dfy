/** The tables of the store as values, the reads the handlers make and what each
    transaction does to the tables. A transaction that fails leaves them alone. */
module Database {
  import opened Wrappers
  import opened Domain
  import Json = JsonSchema
  import Search = DependencySearch

  // ----------------------------------------------------------------- tables

  datatype Operation = Operation(
    hash: Hash, header: Blob, body: Blob, author: Hash, log: LogId, sequence: nat,
    backlink: Option<Hash>, document: DocumentKey, kind: nat, applied: bool, received: int)

  datatype UpdateRow = UpdateRow(
    hash: Hash, document: DocumentKey, update: Update, applied: bool, pending: Option<Blob>, created: int)

  datatype ChangeRow = ChangeRow(id: nat, hash: Hash, document: DocumentKey)

  datatype OutboxRow = OutboxRow(id: nat, hash: Hash, priority: int, available: int)

  datatype IdempotencyRow = IdempotencyRow(requestHash: Hash, response: Response)

  /** The rowid tables are sequences in insertion order. */
  datatype Documents = Documents(
    operations: seq<Operation>, updates: seq<UpdateRow>, changes: seq<ChangeRow>, outbox: seq<OutboxRow>,
    heads: map<(Hash, LogId), LogHead>, idempotency: map<(string, string), IdempotencyRow>)

  datatype Revision = Revision(
    key: FactKey, topic: FactTopic, body: FactBody, author: Hash, asserted: int,
    supersedes: Option<Hash>, status: Lifecycle)

  datatype Claim = Claim(
    topic: FactTopic, body: FactBody, source: Hash, retracted: bool, updated: int, status: Lifecycle)

  datatype Facts = Facts(
    schemas: map<SchemaKey, FactSchema>, revisions: map<Hash, Revision>, claims: map<FactKey, Claim>)

  /** The planning tables of one namespace and community, with its version row. */
  datatype Plan = Plan(
    version: nat, projects: map<string, string>, tasks: map<string, TaskRow>, events: map<string, TaskRow>,
    dependencies: map<string, Search.Dependency>, origins: map<Slot, Origin>)

  datatype PlanKey = PlanKey(namespace: string, community: string)

  datatype Delivery = Delivery(state: DeliveryState, attempts: nat, leaseUntil: Option<int>)

  type Grants = map<(string, string), Access>
  type Plans = map<PlanKey, Plan>
  type Deliveries = map<(Hash, string), Delivery>

  datatype Db = Db(docs: Documents, facts: Facts, plans: Plans, grants: Grants, deliveries: Deliveries)

  const EMPTY_DOCUMENTS := Documents([], [], [], [], map[], map[])
  const EMPTY_FACTS := Facts(map[], map[], map[])
  const EMPTY_PLAN := Plan(0, map[], map[], map[], map[], map[])
  const EMPTY := Db(EMPTY_DOCUMENTS, EMPTY_FACTS, map[], map[], map[])

  // ------------------------------------------------------------------ reads

  function PlanOf(plans: Plans, key: PlanKey): Plan {
    if key in plans then plans[key] else EMPTY_PLAN
  }

  /** The applied updates of one document, in the order they were committed. */
  function RowsOf(rows: seq<UpdateRow>, key: DocumentKey): seq<UpdateRow> {
    if rows == [] then []
    else
      var earlier := RowsOf(rows[..|rows| - 1], key);
      var last := rows[|rows| - 1];
      if last.document == key && last.applied then earlier + [last] else earlier
  }

  /** The updates of some rows, order forgotten. */
  function Payloads(rows: seq<UpdateRow>): multiset<Update> {
    if rows == [] then multiset{} else Payloads(rows[..|rows| - 1]) + multiset{rows[|rows| - 1].update}
  }

  /** `ORDER BY created_at_ms, operation_hash` */
  predicate ReplaysBefore(a: UpdateRow, b: UpdateRow) {
    a.created < b.created || (a.created == b.created && a.hash <= b.hash)
  }

  function InsertByTime(rows: seq<UpdateRow>, row: UpdateRow): seq<UpdateRow> {
    if rows == [] || ReplaysBefore(rows[|rows| - 1], row) then rows + [row]
    else InsertByTime(rows[..|rows| - 1], row) + [rows[|rows| - 1]]
  }

  function SortByTime(rows: seq<UpdateRow>): seq<UpdateRow> {
    if rows == [] then [] else InsertByTime(SortByTime(rows[..|rows| - 1]), rows[|rows| - 1])
  }

  function LoadUpdates(docs: Documents, key: DocumentKey): seq<Update> {
    var rows := SortByTime(RowsOf(docs.updates, key));
    seq(|rows|, i requires 0 <= i < |rows| => rows[i].update)
  }

  function HeadOf(docs: Documents, author: Hash, log: LogId): Option<LogHead> {
    if (author, log) in docs.heads then Some(docs.heads[(author, log)]) else None
  }

  /** A stored response is replayed for the same request and refused for another. */
  function Idempotency(docs: Documents, command: Command): Result<Option<Response>, Failure> {
    var at := (command.caller, command.key);
    if at !in docs.idempotency then Ok(None)
    else if docs.idempotency[at].requestHash != command.requestHash then Err(IdempotencyConflict)
    else Ok(Some(docs.idempotency[at].response))
  }

  function CurrentRevision(facts: Facts, key: FactKey): Option<FactCurrent> {
    if key in facts.claims
    then Some(FactCurrent(facts.claims[key].source, facts.claims[key].topic, facts.claims[key].status))
    else None
  }

  /** Another active claim on the same subject and predicate of the same community. */
  predicate ActiveConflict(claims: map<FactKey, Claim>, key: FactKey, topic: FactTopic) {
    exists other :: other in claims &&
      other.app == key.app && other.community == key.community && other.claim != key.claim &&
      claims[other].topic.subject == topic.subject && claims[other].topic.predicateName == topic.predicateName &&
      !claims[other].retracted
  }

  // ----------------------------------------------------------- commit_local

  /** The log-head compare-and-swap. */
  predicate ExtendsHead(head: Option<LogHead>, record: Record) {
    match head
    case None => record.sequence == 0
    case Some(h) =>
      && record.sequence != 0
      && h.sequence < U32_MAX
      && h.sequence + 1 == record.sequence
      && record.backlink == Some(h.hash)
  }

  predicate HashTaken(operations: seq<Operation>, hash: Hash) {
    exists o :: o in operations && o.hash == hash
  }

  predicate SlotTaken(operations: seq<Operation>, record: Record) {
    exists o :: o in operations && o.author == record.author && o.log == record.log && o.sequence == record.sequence
  }

  function PriorityFor(kind: nat): int { if kind == 1 then 40 else 50 }

  function OperationRow(c: LocalCommit, now: int): Operation {
    Operation(c.record.hash, c.record.header, c.record.body, c.record.author, c.record.log, c.record.sequence,
              c.record.backlink, c.document, c.record.kind, true, now)
  }

  function UpdateRowOf(c: LocalCommit, now: int): UpdateRow {
    UpdateRow(c.record.hash, c.document, c.update, true, None, now)
  }

  /** What a commit may not find: a mismatch, a moved document or log, a taken key. */
  function CommitGuards(docs: Documents, c: LocalCommit): Result<(), Failure> {
    if c.record.document != c.document then Err(Invalid)
    else if |RowsOf(docs.updates, c.document)| != c.expectedUpdates then Err(Conflict)
    else if !ExtendsHead(HeadOf(docs, c.record.author, c.record.log), c.record) then Err(Conflict)
    else if HashTaken(docs.operations, c.record.hash) || SlotTaken(docs.operations, c.record) then Err(Constraint)
    else Ok(())
  }

  /** The rows every commit inserts, the idempotency row aside. */
  function InsertRows(docs: Documents, c: LocalCommit, now: int): Documents {
    docs.(operations := docs.operations + [OperationRow(c, now)],
          updates := docs.updates + [UpdateRowOf(c, now)],
          changes := docs.changes + [ChangeRow(|docs.changes| + 1, c.record.hash, c.document)],
          heads := docs.heads[(c.record.author, c.record.log) := LogHead(c.record.sequence, c.record.hash)],
          outbox := docs.outbox + [OutboxRow(|docs.outbox| + 1, c.record.hash, PriorityFor(c.record.kind), now)])
  }

  function InsertKey(docs: Documents, c: LocalCommit): Documents {
    docs.(idempotency := docs.idempotency[(c.command.caller, c.command.key) := IdempotencyRow(c.command.requestHash,
        c.response)])
  }

  function CommitLocal(db: Db, c: LocalCommit, now: int): Result<Db, Failure> {
    var guards := CommitGuards(db.docs, c);
    if guards.Err? then Err(guards.error)
    else
      var applied := ApplyProjections(db.(docs := InsertRows(db.docs, c, now)), c, c.projections, now);
      if applied.Err? then applied
      else if (c.command.caller, c.command.key) in db.docs.idempotency then Err(Constraint)
      else Ok(applied.value.(docs := InsertKey(applied.value.docs, c)))
  }

  function ApplyProjections(db: Db, c: LocalCommit, projections: seq<Projection>, now: int): Result<Db, Failure>
    decreases |projections|
  {
    if projections == [] then Ok(db)
    else
      var first := ApplyProjection(db, c, projections[0], now);
      if first.Err? then first else ApplyProjections(first.value, c, projections[1..], now)
  }

  function ApplyProjection(db: Db, c: LocalCommit, projection: Projection, now: int): Result<Db, Failure> {
    match projection
    case FactRevision(fact) =>
      (match ApplyFact(db.facts, c.document.app, c.record.author, c.record.hash, fact, now)
       case Ok(facts) => Ok(db.(facts := facts))
       case Err(e) => Err(e))
    case Planning(write) =>
      (match ApplyPlanning(db.plans, db.grants, PlanKey(c.document.app, c.document.community), c.record.hash, write)
       case Ok(plans) => Ok(db.(plans := plans))
       case Err(e) => Err(e))
  }

  // ------------------------------------------------------------ fact branch

  /** `saturating_add(1)` */
  function Later(time: int): int { if time >= I64_MAX then I64_MAX else time + 1 }

  function RevisionTime(previous: Option<Claim>, now: int): int {
    match previous
    case None => now
    case Some(claim) => if now >= Later(claim.updated) then now else Later(claim.updated)
  }

  function ClaimAt(facts: Facts, key: FactKey): Option<Claim> {
    if key in facts.claims then Some(facts.claims[key]) else None
  }

  function SourceOf(claim: Option<Claim>): Option<Hash> {
    match claim case None => None case Some(c) => Some(c.source)
  }

  /** `UPDATE … SET lifecycle_status='SUPERSEDED' WHERE operation_hash=?` */
  function Supersede(revisions: map<Hash, Revision>, previous: Option<Hash>): map<Hash, Revision> {
    if previous.Some? && previous.value in revisions
    then revisions[previous.value := revisions[previous.value].(status := Superseded)]
    else revisions
  }

  function ApplyFact(facts: Facts, app: string, author: Hash, hash: Hash, p: FactProjection,
          now: int): Result<Facts, Failure> {
    var key := FactKey(app, p.community, p.claim);
    var previous := ClaimAt(facts, key);
    var time := RevisionTime(previous, now);
    if SourceOf(previous) != p.expectedPrevious then Err(Conflict)
    else if p.status == Asserted && !p.multipleActive && ActiveConflict(facts.claims, key, p.topic) then Err(Invalid)
    else
      var revisions := Supersede(facts.revisions, SourceOf(previous));
      if hash in revisions then Err(Constraint)
      else Ok(facts.(
        revisions := revisions[hash := Revision(key, p.topic, p.body, author, time, SourceOf(previous), p.status)],
        claims := facts.claims[key := Claim(p.topic, p.body, hash, p.status != Asserted, time, p.status)]))
  }

  // -------------------------------------------------------- planning branch

  function Upsert(plan: Plan, row: PlanningRow): Plan {
    match row
    case ProjectRow(id, info) => plan.(version := plan.version + 1, projects := plan.projects[id := info])
    case TaskRowOf(id, task) => plan.(version := plan.version + 1, tasks := plan.tasks[id := task])
    case EventRowOf(id, event) => plan.(version := plan.version + 1, events := plan.events[id := event])
    case DependencyRow(id, d) => plan.(version := plan.version + 1, dependencies := plan.dependencies[id := d])
  }

  predicate MayWrite(grants: Grants, app: string, community: string) {
    (app, community) in grants && grants[(app, community)].canRead && grants[(app, community)].canWrite
  }

  function Signed(plan: Plan, write: PlanningWrite, hash: Hash): Plan {
    plan.(origins := plan.origins[SlotOf(write.row) := Origin(write.digest, write.app, hash)])
  }

  function ApplyPlanning(plans: Plans, grants: Grants, key: PlanKey, hash: Hash,
          write: PlanningWrite): Result<Plans, Failure> {
    var plan := PlanOf(plans, key);
    if !MayWrite(grants, write.app, key.community) then Err(Conflict)
    else if write.expectedVersion > I64_MAX then Err(Invalid)
    else if plan.version != write.expectedVersion then Err(Conflict)
    else if plan.version == I64_MAX then Err(Constraint)
    else Ok(plans[key := Signed(Upsert(plan, write.row), write, hash)])
  }

  // ----------------------------------------------------- schemas and grants

  datatype Registration = Registration(key: SchemaKey, schema: FactSchema)

  predicate StartsWith(s: string, prefix: string) { prefix <= s }

  /** `validate_schema_registration`: the identifier rules and the schema itself. */
  predicate Registrable(r: Registration) {
    && r.key.version != 0
    && StartsWith(r.key.id, r.key.app + "/")
    && r.schema.predicateName == PredicateName(r.key.id, r.key.version)
    && Json.WellFormed(r.schema.objectSchema, 0, true)
    && Json.Count(r.schema.objectSchema) <= Json.MAX_NODES
  }

  predicate PredicateTaken(schemas: map<SchemaKey, FactSchema>, r: Registration) {
    exists k :: k in schemas && k.app == r.key.app && k.version == r.key.version &&
        schemas[k].predicateName == r.schema.predicateName
  }

  /** Insert-only: the primary key and UNIQUE(app_id, predicate, schema_version). */
  function RegisterSchema(facts: Facts, r: Registration): Result<Facts, Failure> {
    if !Registrable(r) then Err(Invalid)
    else if r.key in facts.schemas then Err(Constraint)
    else if PredicateTaken(facts.schemas, r) then Err(Constraint)
    else Ok(facts.(schemas := facts.schemas[r.key := r.schema]))
  }
}
