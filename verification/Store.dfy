/** The store itself: tables that statements update one by one inside a transaction,
    restored when a later statement fails. Each method does to the tables what the
    transaction on values says, and nothing else. */
module Store {
  import opened Wrappers
  import opened Domain
  import opened Database
  import Out = Outbox

  class Tables {
    var operations: seq<Operation>
    var updates: seq<UpdateRow>
    var changes: seq<ChangeRow>
    var outbox: seq<OutboxRow>
    var heads: map<(Hash, LogId), LogHead>
    var idempotency: map<(string, string), IdempotencyRow>
    var schemas: map<SchemaKey, FactSchema>
    var revisions: map<Hash, Revision>
    var claims: map<FactKey, Claim>
    var plans: Plans
    var grants: Grants
    var deliveries: Deliveries

    function Contents(): Db
      reads this
    {
      Db(Documents(operations, updates, changes, outbox, heads, idempotency), Facts(schemas, revisions, claims), plans,
          grants, deliveries)
    }

    constructor ()
      ensures Contents() == EMPTY
    {
      operations, updates, changes, outbox := [], [], [], [];
      heads, idempotency := map[], map[];
      schemas, revisions, claims := map[], map[], map[];
      plans, grants, deliveries := map[], map[], map[];
    }

    /** Abandon a transaction: every table is as it was when it began. */
    method Rollback(saved: Db)
      modifies this
      ensures Contents() == saved
    {
      operations, updates, changes, outbox := saved.docs.operations, saved.docs.updates, saved.docs.changes,
          saved.docs.outbox;
      heads, idempotency := saved.docs.heads, saved.docs.idempotency;
      schemas, revisions, claims := saved.facts.schemas, saved.facts.revisions, saved.facts.claims;
      plans, grants, deliveries := saved.plans, saved.grants, saved.deliveries;
    }

    /** The trigger on `document_updates` feeds the change table. */
    method InsertUpdate(row: UpdateRow)
      modifies this`updates, this`changes
      ensures updates == old(updates) + [row]
      ensures changes == if row.applied then old(changes) + [ChangeRow(|old(changes)| + 1, row.hash, row.document)]
                else old(changes)
    {
      updates := updates + [row];
      if row.applied {
        changes := changes + [ChangeRow(|changes| + 1, row.hash, row.document)];
      }
    }

    /** The inserts of a commit that do not depend on its projections. */
    method InsertRows(c: LocalCommit, now: int)
      modifies this`operations, this`updates, this`changes, this`heads, this`outbox
      ensures Contents() == old(Contents()).(docs := Database.InsertRows(old(Contents()).docs, c, now))
    {
      operations := operations + [OperationRow(c, now)];
      InsertUpdate(UpdateRowOf(c, now));
      heads := heads[(c.record.author, c.record.log) := LogHead(c.record.sequence, c.record.hash)];
      outbox := outbox + [OutboxRow(|outbox| + 1, c.record.hash, PriorityFor(c.record.kind), now)];
    }

    method CommitLocal(c: LocalCommit, now: int) returns (r: Result<(), Failure>)
      modifies this
      ensures match Database.CommitLocal(old(Contents()), c, now)
              case Ok(db) => r == Ok(()) && Contents() == db
              case Err(e) => r == Err(e) && Contents() == old(Contents())
    {
      var saved := Contents();
      if c.record.document != c.document { return Err(Invalid); }
      if |RowsOf(updates, c.document)| != c.expectedUpdates { return Err(Conflict); }
      var head := HeadOf(saved.docs, c.record.author, c.record.log);
      if !ExtendsHead(head, c.record) { return Err(Conflict); }
      if HashTaken(operations, c.record.hash) || SlotTaken(operations, c.record) { return Err(Constraint); }
      InsertRows(c, now);
      ghost var inserted := Contents();
      assert c.projections[0..] == c.projections;
      for i := 0 to |c.projections|
        invariant ApplyProjections(inserted, c, c.projections, now) ==
            ApplyProjections(Contents(), c, c.projections[i..], now)
        invariant idempotency == saved.docs.idempotency
      {
        assert c.projections[i..][1..] == c.projections[i + 1..];
        var applied := ApplyProjection(c, c.projections[i], now);
        if applied.Err? {
          Rollback(saved);
          return applied;
        }
      }
      assert c.projections[|c.projections|..] == [];
      if (c.command.caller, c.command.key) in idempotency {
        Rollback(saved);
        return Err(Constraint);
      }
      idempotency := idempotency[(c.command.caller, c.command.key) := IdempotencyRow(c.command.requestHash,
          c.response)];
      return Ok(());
    }

    method ApplyProjection(c: LocalCommit, projection: Projection, now: int) returns (r: Result<(), Failure>)
      modifies this`revisions, this`claims, this`plans
      ensures match Database.ApplyProjection(old(Contents()), c, projection, now)
              case Ok(db) => r == Ok(()) && Contents() == db
              case Err(e) => r == Err(e)
    {
      match projection {
        case FactRevision(fact) => r := ApplyFact(c.document.app, c.record.author, c.record.hash, fact, now);
        case Planning(write) => r := ApplyPlanning(PlanKey(c.document.app, c.document.community), c.record.hash, write);
      }
    }

    method ApplyFact(app: string, author: Hash, hash: Hash, p: FactProjection, now: int)
      returns (r: Result<(), Failure>)
      modifies this`revisions, this`claims
      ensures match Database.ApplyFact(old(Contents()).facts, app, author, hash, p, now)
              case Ok(facts) => r == Ok(()) && Contents() == old(Contents()).(facts := facts)
              case Err(e) => r == Err(e)
    {
      var key := FactKey(app, p.community, p.claim);
      var previous := if key in claims then Some(claims[key]) else None;
      var time := now;
      if previous.Some? {
        var later := Later(previous.value.updated);
        if later > time { time := later; }
      }
      var source := SourceOf(previous);
      if source != p.expectedPrevious { return Err(Conflict); }
      if p.status == Asserted && !p.multipleActive {
        if ActiveConflict(claims, key, p.topic) { return Err(Invalid); }
      }
      if source.Some? && source.value in revisions {
        revisions := revisions[source.value := revisions[source.value].(status := Superseded)];
      }
      if hash in revisions { return Err(Constraint); }
      revisions := revisions[hash := Revision(key, p.topic, p.body, author, time, source, p.status)];
      claims := claims[key := Claim(p.topic, p.body, hash, p.status != Asserted, time, p.status)];
      return Ok(());
    }

    method ApplyPlanning(key: PlanKey, hash: Hash, write: PlanningWrite) returns (r: Result<(), Failure>)
      modifies this`plans
      ensures match Database.ApplyPlanning(old(plans), grants, key, hash, write)
              case Ok(after) => r == Ok(()) && plans == after
              case Err(e) => r == Err(e) && plans == old(plans)
      ensures r.Ok? ==>
                PlanOf(old(plans), key).version == write.expectedVersion &&
                    PlanOf(plans, key).version == write.expectedVersion + 1
      ensures forall k :: k != key ==> PlanOf(plans, k) == PlanOf(old(plans), k)
    {
      if !MayWrite(grants, write.app, key.community) { return Err(Conflict); }
      if write.expectedVersion > I64_MAX { return Err(Invalid); }
      var plan := PlanOf(plans, key);
      if plan.version != write.expectedVersion { return Err(Conflict); }
      if plan.version == I64_MAX { return Err(Constraint); }
      plan := plan.(version := plan.version + 1);
      match write.row {
        case ProjectRow(id, info) => plan := plan.(projects := plan.projects[id := info]);
        case TaskRowOf(id, task) => plan := plan.(tasks := plan.tasks[id := task]);
        case EventRowOf(id, event) => plan := plan.(events := plan.events[id := event]);
        case DependencyRow(id, d) => plan := plan.(dependencies := plan.dependencies[id := d]);
      }
      plan := plan.(origins := plan.origins[SlotOf(write.row) := Origin(write.digest, write.app, hash)]);
      plans := plans[key := plan];
      return Ok(());
    }

    method RegisterSchema(registration: Registration) returns (r: Result<(), Failure>)
      modifies this`schemas
      ensures match Database.RegisterSchema(old(Contents()).facts, registration)
              case Ok(facts) => r == Ok(()) && Contents() == old(Contents()).(facts := facts)
              case Err(e) => r == Err(e) && Contents() == old(Contents())
      ensures forall k :: k in old(schemas) ==> k in schemas && schemas[k] == old(schemas)[k]
      ensures r.Ok? ==>
                registration.key !in old(schemas) && registration.key in schemas &&
                    schemas[registration.key] == registration.schema
    {
      if !Registrable(registration) { return Err(Invalid); }
      if registration.key in schemas { return Err(Constraint); }
      if PredicateTaken(schemas, registration) { return Err(Constraint); }
      schemas := schemas[registration.key := registration.schema];
      return Ok(());
    }

    /** A grant opens writing when it gives both rights, closes it otherwise, and is
        nobody else's. */
    method GrantProfile(app: string, community: string, access: Access)
      modifies this`grants
      ensures Contents() == old(Contents()).(grants := old(grants)[(app, community) := access])
      ensures MayWrite(grants, app, community) <==> access.canRead && access.canWrite
      ensures forall a, c :: (a, c) != (app, community) ==> (MayWrite(grants, a, c) <==> MayWrite(old(grants), a, c))
    {
      grants := grants[(app, community) := access];
    }

    /** The claim loop: skip what can never fit, stop at the first row over the budget. */
    method ClaimOutbox(transport: string, now: int, limit: nat, maxBytes: nat)
      returns (r: Result<seq<OutboxItem>, Failure>)
      modifies this`deliveries
      ensures match Out.ClaimOutbox(old(Contents()).docs, old(deliveries), transport, now, limit, maxBytes)
              case Ok(l) => r == Ok(l.items) && deliveries == l.deliveries
              case Err(e) => r == Err(e) && deliveries == old(deliveries)
    {
      var saved := deliveries;
      var candidates := Out.Candidates(Contents().docs, deliveries, transport, now, limit);
      var items: seq<OutboxItem> := [];
      var used: nat, i: nat := 0, 0;
      ghost var start: nat := 0;
      Out.LoopStarts(candidates, maxBytes, saved, transport, now);
      while i < |candidates|
        invariant Out.InLoop(candidates, start, i, maxBytes, used, saved, Out.Leased(deliveries, items), transport, now)
      {
        var c := candidates[i];
        if items != [] && used + c.size > maxBytes {
          break;
        }
        if c.size > maxBytes {
          Out.LoopSkips(candidates, start, i, maxBytes, used, saved, Out.Leased(deliveries, items), transport, now);
          i := i + 1;
          start := i;
          continue;
        }
        Out.LoopTakes(candidates, start, i, maxBytes, used, saved, Out.Leased(deliveries, items), transport, now);
        var attempt := Out.AttemptsAt(deliveries, (c.hash, transport)) + 1;
        if attempt > U32_MAX {
          deliveries := saved;
          return Err(Invalid);
        }
        deliveries := Out.LeaseOne(deliveries, c.hash, transport, now);
        used := used + c.size;
        items := items + [OutboxItem(c.hash, attempt, c.size, c.priority)];
        i := i + 1;
      }
      Out.LoopEnds(candidates, start, i, maxBytes, used, saved, Out.Leased(deliveries, items), transport, now);
      return Ok(items);
    }

    method AckOutbox(ack: Ack, now: int) returns (r: Result<(), Failure>)
      modifies this`deliveries
      ensures match Out.AckOutbox(old(deliveries), ack, now)
              case Ok(after) => r == Ok(()) && deliveries == after
              case Err(e) => r == Err(e) && deliveries == old(deliveries)
      ensures deliveries.Keys == old(deliveries).Keys
      ensures forall at :: at in deliveries && at != (ack.operation, ack.transport) ==>
                deliveries[at] == old(deliveries)[at]
      ensures r.Ok? ==> forall other: Ack, later: int ::
                other.operation == ack.operation && other.transport == ack.transport ==>
                    !Out.AckMatches(deliveries, other, later)
    {
      if !Out.AckMatches(deliveries, ack, now) { return Err(Invalid); }
      deliveries := deliveries[(ack.operation, ack.transport) := Delivery(Out.Settled(ack), ack.attempt, None)];
      return Ok(());
    }
  }
}
