/** The values that cross the boundary between the handlers and the store. */
module Domain {
  import opened Wrappers
  import Json = JsonSchema
  import Graph = DependencySearch

  const I64_MAX: int := 0x7FFF_FFFF_FFFF_FFFF
  const U32_MAX: int := 0xFFFF_FFFF
  const MAX_PROFILE_RECORDS: nat := 10_000
  const MAX_PROFILE_ROWS: nat := 10_001
  const LEASE_MS: int := 60_000
  const PLANNING_NAMESPACE := "community.planning"
  const PROFILE_DIGEST := "771d32c6a851318c84139c924c573eac69d9ab8c7edca4f179afe344c48879ee"

  /** One more than the largest number that 32 bytes can spell. */
  const HASH_LIMIT: nat := 0x1_0000_0000_0000_0000_0000_0000_0000_0000_0000_0000_0000_0000_0000_0000_0000_0000

  /** A 32-byte digest, read as the number its bytes spell, so that `<` is blob order. */
  type Hash = h: nat | h < HASH_LIMIT witness 0

  /** A header or an encrypted body: forging a record never leaves either empty. */
  type Blob = b: seq<bv8> | b != [] witness [0]

  datatype Failure = Invalid | Conflict | RevisionConflict | IdempotencyConflict | Constraint | Forbidden

  // -------------------------------------------------------------- documents

  datatype DocumentKey = DocumentKey(app: string, community: string, document: string)

  /** `document_log_id`: an injective digest of the document key. */
  datatype LogId = LogId(key: DocumentKey)

  datatype Primitive = Null | Bool(b: bool) | Integer(i: int) | Float(r: real) | String(s: string)

  datatype Mutation =
    | MapSet(container: string, key: string, value: Primitive)
    | MapDelete(container: string, key: string)
    | TextInsert(container: string, index: nat, text: string)
    | TextDelete(container: string, index: nat, length: nat)
    | ListInsert(container: string, index: nat, value: Primitive)
    | ListDelete(container: string, index: nat, length: nat)

  /** A Loro update is the free term over what it was staged from: the updates that
      had been replayed, the writing session and the mutations. */
  datatype Update = Update(base: multiset<Update>, peer: nat, mutations: seq<Mutation>)

  /** The state a set of updates replays to, whatever their order. */
  type LoroState = multiset<Update>

  datatype Response = Response(operation: Hash, revision: nat, state: LoroState)

  datatype Record = Record(
    hash: Hash, header: Blob, body: Blob, author: Hash, log: LogId,
    sequence: nat, backlink: Option<Hash>, kind: nat, document: DocumentKey)

  datatype LogHead = LogHead(sequence: nat, hash: Hash)

  /** Who sent a request: the idempotency scope, the key and the request digest. */
  datatype Command = Command(caller: string, key: string, requestHash: Hash)

  datatype LocalCommit = LocalCommit(
    document: DocumentKey, expectedUpdates: nat, record: Record, update: Update,
    projections: seq<Projection>, command: Command, response: Response)

  datatype Projection = FactRevision(fact: FactProjection) | Planning(write: PlanningWrite)

  // ------------------------------------------------------------------ facts

  datatype Lifecycle = Asserted | Superseded | Retracted | Disputed | Expired

  /** A client cannot submit SUPERSEDED. */
  type Submitted = s: Lifecycle | s != Superseded witness Asserted

  predicate Terminal(status: Lifecycle) { status == Retracted || status == Expired }

  datatype Provenance = NoProvenance | Source | SourceDocument | SourceAndDocument

  datatype LifecyclePolicy = LifecyclePolicy(supersession: bool, retraction: bool, dispute: bool, expiry: bool)

  datatype SchemaKey = SchemaKey(app: string, id: string, version: nat)

  datatype FactSchema = FactSchema(
    predicateName: string, objectSchema: Json.Json, multipleActive: bool,
    provenance: Provenance, lifecycle: LifecyclePolicy, enabled: bool)

  datatype FactBody = FactBody(value: Json.Json, source: Option<string>, confidence: real,
          sourceDocument: Option<string>)

  datatype FactKey = FactKey(app: string, community: string, claim: string)

  /** The part of a claim that no revision may change. */
  datatype FactTopic = FactTopic(subject: string, predicateName: string, schemaId: string, schemaVersion: nat)

  datatype AssertFact = AssertFact(community: string, claim: string, topic: FactTopic, body: FactBody,
          status: Submitted)

  datatype FactCurrent = FactCurrent(hash: Hash, topic: FactTopic, status: Lifecycle)

  datatype FactProjection = FactProjection(
    community: string, claim: string, topic: FactTopic, body: FactBody, status: Submitted,
    multipleActive: bool, expectedPrevious: Option<Hash>)

  // --------------------------------------------------------------- planning

  datatype TaskRow = TaskRow(project: Option<string>, info: string)

  datatype PlanningRow =
    | ProjectRow(id: string, info: string)
    | TaskRowOf(id: string, task: TaskRow)
    | EventRowOf(id: string, event: TaskRow)
    | DependencyRow(id: string, dependency: Graph.Dependency)

  datatype PlanningWrite = PlanningWrite(app: string, digest: string, expectedVersion: nat, row: PlanningRow)

  /** The table and id a planning row is filed under. */
  datatype Slot = ProjectSlot(id: string) | TaskSlot(id: string) | EventSlot(id: string) | DependencySlot(id: string)

  function SlotOf(row: PlanningRow): Slot {
    match row
    case ProjectRow(id, _) => ProjectSlot(id)
    case TaskRowOf(id, _) => TaskSlot(id)
    case EventRowOf(id, _) => EventSlot(id)
    case DependencyRow(id, _) => DependencySlot(id)
  }

  /** The columns in which a planning row says where it comes from. */
  datatype Origin = Origin(digest: string, submitter: string, source: Hash)

  datatype Access = Access(canRead: bool, canWrite: bool)

  // ----------------------------------------------------------------- outbox

  datatype DeliveryState = Claimed | Delivered | Rejected

  datatype Ack = Ack(transport: string, operation: Hash, attempt: nat, accepted: bool)

  datatype OutboxItem = OutboxItem(operation: Hash, attempt: nat, size: nat, priority: int)

  // ------------------------------------------------- registered schema names

  function Digit(d: nat): char
    requires d < 10
  {
    ['0', '1', '2', '3', '4', '5', '6', '7', '8', '9'][d]
  }

  function Decimal(n: nat): string {
    if n < 10 then [Digit(n)] else Decimal(n / 10) + [Digit(n % 10)]
  }

  /** `<schema_id>@<schema_version>` */
  function PredicateName(id: string, version: nat): string {
    id + "@" + Decimal(version)
  }

  lemma {:induction false} DecimalHasNoAt(n: nat)
    ensures '@' !in Decimal(n)
  {
    if n >= 10 {
      DecimalHasNoAt(n / 10);
    }
  }

  lemma {:induction false} DecimalInjective(m: nat, n: nat)
    requires Decimal(m) == Decimal(n)
    ensures m == n
  {
    var s, t := Decimal(m), Decimal(n);
    assert s[|s| - 1] == Digit(m % 10) && t[|t| - 1] == Digit(n % 10);
    if m >= 10 && n >= 10 {
      assert s[..|s| - 1] == Decimal(m / 10) && t[..|t| - 1] == Decimal(n / 10);
      DecimalInjective(m / 10, n / 10);
    } else {
      DecimalLength(m);
      DecimalLength(n);
    }
  }

  lemma DecimalLength(n: nat)
    ensures |Decimal(n)| >= 1
    ensures n >= 10 <==> |Decimal(n)| >= 2
  {
  }

  /** The predicate of a registered schema names that schema and no other, although a
      schema id may itself contain '@'. */
  lemma PredicateNamesSchema(id: string, version: nat, id': string, version': nat)
    requires PredicateName(id, version) == PredicateName(id', version')
    ensures id == id' && version == version'
  {
    var name := PredicateName(id, version);
    DecimalHasNoAt(version);
    DecimalHasNoAt(version');
    assert name[|id|] == '@' && name[|id'|] == '@';
    assert name[|id| + 1..] == Decimal(version) && name[|id'| + 1..] == Decimal(version');
    assert forall k :: |id| < k < |name| ==> name[k] == Decimal(version)[k - |id| - 1];
    assert forall k :: |id'| < k < |name| ==> name[k] == Decimal(version')[k - |id'| - 1];
    assert name[..|id|] == id && name[..|id'|] == id';
    DecimalInjective(version, version');
  }
}
