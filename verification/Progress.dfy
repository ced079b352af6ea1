/** What a request achieves when nobody comes between its calls: whatever its handler
    accepts is committed and answered. */
module Progress {
  import opened Wrappers
  import opened Domain
  import opened Database
  import opened Protocol
  import opened Safety
  import Docs = DocumentLog
  import Facts = FactLedger
  import Plans = PlanningCatalog
  import Theorems

  // -------------------------------------------------------- one fresh commit

  /** The log of the document has room for another entry. */
  predicate HeadRoom(docs: Documents, key: DocumentKey, author: Hash) {
    var head := HeadOf(docs, author, LogId(key));
    head.Some? ==> head.value.sequence < U32_MAX
  }

  predicate Unused(docs: Documents, command: Command, hash: Hash) {
    (command.caller, command.key) !in docs.idempotency && !HashTaken(docs.operations, hash)
  }

  /** The commit staged from the store as it is now. */
  function Fresh(docs: Documents, w: Write, forged: Forged): LocalCommit
    requires HeadRoom(docs, w.document, forged.author)
  {
    Stage(w, LoadUpdates(docs, w.document), HeadOf(docs, forged.author, LogId(w.document)), forged)
  }

  lemma {:induction false} LogHolds(operations: seq<Operation>, o: Operation)
    requires o in operations
    ensures o in Docs.LogOf(operations, o.author, o.log)
  {
    if operations[|operations| - 1] != o {
      LogHolds(operations[..|operations| - 1], o);
    }
  }

  /** The sequence number after the head is free. */
  lemma NextSlotFree(d: Documents, record: Record)
    requires Docs.LogsLinked(d) && ExtendsHead(HeadOf(d, record.author, record.log), record)
    ensures !SlotTaken(d.operations, record)
  {
    Theorems.LinkedLog(d, record.author, record.log);
    var log := Docs.LogOf(d.operations, record.author, record.log);
    forall o | o in d.operations && o.author == record.author && o.log == record.log
      ensures o.sequence != record.sequence
    {
      LogHolds(d.operations, o);
      var j :| 0 <= j < |log| && log[j] == o;
      assert log[j].sequence == j;
    }
  }

  lemma FreshPassesGuards(docs: Documents, w: Write, forged: Forged)
    requires Docs.DocumentsInv(docs) && HeadRoom(docs, w.document, forged.author) &&
              Unused(docs, w.command, forged.hash)
    ensures CommitGuards(docs, Fresh(docs, w, forged)) == Ok(())
  {
    var c := Fresh(docs, w, forged);
    Docs.LoadedUpdates(docs, w.document);
    assert ExtendsHead(HeadOf(docs, c.record.author, c.record.log), c.record);
    NextSlotFree(docs, c.record);
  }

  /** What the tables demand of a projection at the instant of its commit. */
  predicate Applicable(db: Db, document: DocumentKey, p: Projection) {
    match p
    case FactRevision(fact) =>
      var key := FactKey(document.app, fact.community, fact.claim);
      && fact.expectedPrevious == SourceOf(ClaimAt(db.facts, key))
      && !(fact.status == Asserted && !fact.multipleActive && ActiveConflict(db.facts.claims, key, fact.topic))
    case Planning(write) =>
      && MayWrite(db.grants, write.app, document.community)
      && write.expectedVersion == PlanOf(db.plans, PlanKey(document.app, document.community)).version < I64_MAX
  }

  lemma FactApplies(operations: seq<Operation>, f: Database.Facts, app: string, author: Hash, hash: Hash,
          p: FactProjection, now: int)
    requires Facts.Ledger(operations, f) && Facts.Grounded(operations, f) && !HashTaken(operations, hash)
    ensures var key := FactKey(app, p.community, p.claim);
            ApplyFact(f, app, author, hash, p, now).Ok? <==>
              && p.expectedPrevious == SourceOf(ClaimAt(f, key))
              && !(p.status == Asserted && !p.multipleActive && ActiveConflict(f.claims, key, p.topic))
  {
    assert hash !in f.revisions;
  }

  lemma ProjectionApplies(db: Db, c: LocalCommit, p: Projection, now: int)
    requires DbInv(db) && !HashTaken(db.docs.operations, c.record.hash)
    ensures ApplyProjection(db.(docs := InsertRows(db.docs, c, now)), c, p, now).Ok? <==> Applicable(db, c.document, p)
  {
    if p.FactRevision? {
      FactApplies(db.docs.operations, db.facts, c.document.app, c.record.author, c.record.hash, p.fact, now);
    }
  }

  lemma AtMostOneApplies(db: Db, c: LocalCommit, now: int)
    requires DbInv(db) && !HashTaken(db.docs.operations, c.record.hash) && |c.projections| <= 1
    ensures ApplyProjections(db.(docs := InsertRows(db.docs, c, now)), c, c.projections, now).Ok? <==>
              (|c.projections| == 1 ==> Applicable(db, c.document, c.projections[0]))
  {
    if |c.projections| == 1 {
      var start := db.(docs := InsertRows(db.docs, c, now));
      ProjectionApplies(db, c, c.projections[0], now);
      assert c.projections[1..] == [];
      var first := ApplyProjection(start, c, c.projections[0], now);
      assert first.Ok? ==> ApplyProjections(first.value, c, c.projections[1..], now) == first;
    }
  }

  /** A commit staged from the store as it is passes both compare-and-swap checks, and is
      written exactly when its projection applies. */
  lemma FreshCommitGoesThrough(db: Db, w: Write, forged: Forged, now: Clock)
    requires DbInv(db) && HeadRoom(db.docs, w.document, forged.author) && Unused(db.docs, w.command, forged.hash)
    requires |w.projections| <= 1
    ensures CommitLocal(db, Fresh(db.docs, w, forged), now).Ok? <==>
              (|w.projections| == 1 ==> Applicable(db, w.document, w.projections[0]))
  {
    FreshPassesGuards(db.docs, w, forged);
    AtMostOneApplies(db, Fresh(db.docs, w, forged), now);
  }

  // ------------------------------------------------------------ call by call

  /** Where a sequence of labels leads from a state. */
  ghost function After(s: System, labels: seq<Label>): System {
    if labels == [] then s else Next(After(s, labels[..|labels| - 1]), labels[|labels| - 1])
  }

  lemma {:induction false} AfterSplit(s: System, a: seq<Label>, b: seq<Label>)
    ensures After(s, a + b) == After(After(s, a), b)
  {
    if b == [] {
      assert a + b == a;
    } else {
      var front := b[..|b| - 1];
      AfterSplit(s, a, front);
      assert (a + b)[..|a + b| - 1] == a + front;
    }
  }

  lemma AfterOne(s: System, l: Label)
    ensures After(s, [l]) == Next(s, l)
  {
    assert [l][..0] == [];
    assert After(s, []) == s;
  }

  lemma AfterMore(s: System, a: seq<Label>, l: Label)
    ensures After(s, a + [l]) == Next(After(s, a), l)
  {
    assert (a + [l])[..|a + [l]| - 1] == a;
  }

  lemma {:induction false} RunAfter(labels: seq<Label>, more: seq<Label>)
    ensures Run(labels + more) == After(Run(labels), more)
  {
    if more == [] {
      assert labels + more == labels;
    } else {
      RunAfter(labels, more[..|more| - 1]);
      Theorems.RunSnoc(labels, more);
    }
  }

  /** Only the request's own calls, at one reading of the clock. */
  predicate Alone(labels: seq<Label>, id: nat, now: Clock, forged: Forged) {
    forall l :: l in labels ==> l == Call(id, now, forged) || (l.ReadPage? && l.id == id)
  }

  /** The request enters, and then only makes its calls. */
  predicate Entered(labels: seq<Label>, id: nat, entry: Task, now: Clock, forged: Forged) {
    labels != [] && labels[0] == Begin(id, entry) && Alone(labels[1..], id, now, forged)
  }

  lemma EnteredMore(a: seq<Label>, b: seq<Label>, id: nat, entry: Task, now: Clock, forged: Forged)
    requires Entered(a, id, entry, now, forged) && Alone(b, id, now, forged)
    ensures Entered(a + b, id, entry, now, forged)
  {
    assert (a + b)[1..] == a[1..] + b;
  }

  /** Where a request stood does not show once it has moved. */
  lemma GotoTwice(s: System, id: nat, a: Task, b: Task)
    ensures Goto(Goto(s, id, a), id, b) == Goto(s, id, b)
  {
    assert s.tasks[id := a][id := b] == s.tasks[id := b];
  }

  /** A lookup under a fresh key moves on. */
  lemma LookupMovesOn(s: System, id: nat, t: Task, next: Task, now: Clock, forged: Forged)
    requires id in s.tasks && s.tasks[id] == t
    requires || (t.MutateLookup? && next == LockedLookup(t.write))
             || (t.LockedLookup? && next == LoadingUpdates(t.write))
             || (t.FactLookup? && next == ReadingSchema(t.command, t.fact))
             || (t.FactRelookup? && next == ReadingPrevious(t.command, t.fact, t.schema))
             || (t.PlanLookup? && next == ReadingVersion(t.command, t.community, t.row))
    requires (Theorems.CommandOf(t).caller, Theorems.CommandOf(t).key) !in s.db.docs.idempotency
    ensures Next(s, Call(id, now, forged)) == Goto(s, id, next)
  {
  }

  lemma LoadMovesOn(s: System, id: nat, w: Write, now: Clock, forged: Forged)
    requires id in s.tasks && s.tasks[id] == LoadingUpdates(w)
    requires w.expectedRevision.Some? ==> w.expectedRevision.value == |LoadUpdates(s.db.docs, w.document)|
    ensures Next(s, Call(id, now, forged)) == Goto(s, id, ReadingHead(w, LoadUpdates(s.db.docs, w.document)))
  {
  }

  lemma HeadMovesOn(s: System, id: nat, w: Write, loaded: seq<Update>, now: Clock, forged: Forged)
    requires id in s.tasks && s.tasks[id] == ReadingHead(w, loaded) && HeadRoom(s.db.docs, w.document, forged.author)
    ensures Next(s, Call(id, now, forged)) ==
              Goto(s, id, Committing(Stage(w, loaded, HeadOf(s.db.docs, forged.author, LogId(w.document)), forged)))
  {
  }

  lemma CommitMovesOn(s: System, id: nat, c: LocalCommit, now: Clock, forged: Forged)
    requires id in s.tasks && s.tasks[id] == Committing(c) && CommitLocal(s.db, c, now).Ok?
    ensures Next(s, Call(id, now, forged)) ==
              Finish(s.(db := CommitLocal(s.db, c, now).value), id, c.command, c.response)
  {
  }

  /** The request is gone, its commit is in and its caller has the response. */
  function Committed(s: System, id: nat, c: LocalCommit, now: Clock): System
    requires CommitLocal(s.db, c, now).Ok?
  {
    s.(db := CommitLocal(s.db, c, now).value, tasks := s.tasks - {id},
        answers := s.answers + [Answer(c.command, c.response)])
  }

  /** From the head read on the request commits. */
  lemma HeadCommits(s: System, id: nat, w: Write, loaded: seq<Update>, c: LocalCommit, now: Clock, forged: Forged)
    returns (more: seq<Label>)
    requires id in s.tasks && s.tasks[id] == ReadingHead(w, loaded) && HeadRoom(s.db.docs, w.document, forged.author)
    requires c == Stage(w, loaded, HeadOf(s.db.docs, forged.author, LogId(w.document)), forged) &&
              CommitLocal(s.db, c, now).Ok?
    ensures Alone(more, id, now, forged) && After(s, more) == Committed(s, id, c, now)
  {
    var l, s1 := Call(id, now, forged), Goto(s, id, Committing(c));
    HeadMovesOn(s, id, w, loaded, now, forged);
    CommitMovesOn(s1, id, c, now, forged);
    assert s1.tasks - {id} == s.tasks - {id};
    AfterOne(s, l);
    AfterMore(s, [l], l);
    more := [l] + [l];
  }

  /** The revision the caller expects, if any, is the document's. */
  predicate Expects(docs: Documents, w: Write) {
    w.expectedRevision.Some? ==> w.expectedRevision.value == |LoadUpdates(docs, w.document)|
  }

  lemma LockedReadsHead(s: System, id: nat, w: Write, now: Clock, forged: Forged) returns (more: seq<Label>)
    requires id in s.tasks && s.tasks[id] == LockedLookup(w) && Expects(s.db.docs, w)
    requires (w.command.caller, w.command.key) !in s.db.docs.idempotency
    ensures Alone(more, id, now, forged)
    ensures After(s, more) == Goto(s, id, ReadingHead(w, LoadUpdates(s.db.docs, w.document)))
  {
    var l, s1 := Call(id, now, forged), Goto(s, id, LoadingUpdates(w));
    var s2 := Goto(s, id, ReadingHead(w, LoadUpdates(s.db.docs, w.document)));
    LookupMovesOn(s, id, LockedLookup(w), LoadingUpdates(w), now, forged);
    LoadMovesOn(s1, id, w, now, forged);
    GotoTwice(s, id, LoadingUpdates(w), s2.tasks[id]);
    AfterOne(s, l);
    AfterMore(s, [l], l);
    more := [l] + [l];
  }

  lemma LockedCommits(s: System, id: nat, w: Write, now: Clock, forged: Forged) returns (more: seq<Label>)
    requires id in s.tasks && s.tasks[id] == LockedLookup(w) && Expects(s.db.docs, w)
    requires HeadRoom(s.db.docs, w.document, forged.author) && Unused(s.db.docs, w.command, forged.hash)
    requires CommitLocal(s.db, Fresh(s.db.docs, w, forged), now).Ok?
    ensures Alone(more, id, now, forged)
    ensures After(s, more) == Committed(s, id, Fresh(s.db.docs, w, forged), now)
  {
    var loaded := LoadUpdates(s.db.docs, w.document);
    var s2 := Goto(s, id, ReadingHead(w, loaded));
    var a := LockedReadsHead(s, id, w, now, forged);
    var b := HeadCommits(s2, id, w, loaded, Fresh(s.db.docs, w, forged), now, forged);
    AfterSplit(s, a, b);
    assert s2.tasks - {id} == s.tasks - {id};
    more := a + b;
  }

  /** A request that has come as far as the lock commits. */
  lemma CommitsFromLock(s: System, id: nat, entry: Task, w: Write, a: seq<Label>, now: Clock, forged: Forged)
    returns (more: seq<Label>)
    requires id !in s.tasks && Entered(a, id, entry, now, forged)
    requires After(s, a) == Goto(s, id, LockedLookup(w)) && Expects(s.db.docs, w)
    requires HeadRoom(s.db.docs, w.document, forged.author) && Unused(s.db.docs, w.command, forged.hash)
    requires CommitLocal(s.db, Fresh(s.db.docs, w, forged), now).Ok?
    ensures Entered(more, id, entry, now, forged)
    ensures After(s, more) == Committed(s, id, Fresh(s.db.docs, w, forged), now)
  {
    var s1 := Goto(s, id, LockedLookup(w));
    var b := LockedCommits(s1, id, w, now, forged);
    AfterSplit(s, a, b);
    EnteredMore(a, b, id, entry, now, forged);
    assert s1.tasks - {id} == s.tasks - {id};
    more := a + b;
  }

  // ---------------------------------------------------------------- mutations

  lemma MutationReachesLock(s: System, id: nat, w: Write, now: Clock, forged: Forged) returns (more: seq<Label>)
    requires id !in s.tasks && Starts(MutateLookup(w)) && (w.command.caller, w.command.key) !in s.db.docs.idempotency
    ensures Entered(more, id, MutateLookup(w), now, forged) && After(s, more) == Goto(s, id, LockedLookup(w))
  {
    var b, l, s0 := Begin(id, MutateLookup(w)), Call(id, now, forged), Goto(s, id, MutateLookup(w));
    AfterOne(s, b);
    LookupMovesOn(s0, id, MutateLookup(w), LockedLookup(w), now, forged);
    GotoTwice(s, id, MutateLookup(w), LockedLookup(w));
    AfterMore(s, [b], l);
    more := [b] + [l];
  }

  /** A mutation, from its entry on, is committed and answered with the next revision. */
  lemma UndisturbedMutationCommits(s: System, id: nat, w: Write, forged: Forged, now: Clock) returns (more: seq<Label>)
    requires DbInv(s.db) && id !in s.tasks && Starts(MutateLookup(w)) && Expects(s.db.docs, w)
    requires HeadRoom(s.db.docs, w.document, forged.author) && Unused(s.db.docs, w.command, forged.hash)
    ensures var c := Fresh(s.db.docs, w, forged);
            && Entered(more, id, MutateLookup(w), now, forged) && CommitLocal(s.db, c, now).Ok?
            && After(s, more) == Committed(s, id, c, now)
            && c.response.operation == forged.hash
            && c.response.revision == |RowsOf(s.db.docs.updates, w.document)| + 1
  {
    FreshCommitGoesThrough(s.db, w, forged, now);
    Docs.LoadedUpdates(s.db.docs, w.document);
    var a := MutationReachesLock(s, id, w, now, forged);
    more := CommitsFromLock(s, id, MutateLookup(w), w, a, now, forged);
  }

  // --------------------------------------------------------------- assertions

  lemma SchemaMovesOn(s: System, id: nat, command: Command, fact: AssertFact, schema: FactSchema, now: Clock,
          forged: Forged)
    requires id in s.tasks && s.tasks[id] == ReadingSchema(command, fact)
    requires
      var key := Facts.SchemaOf(command.caller, fact.topic);
      key in s.db.facts.schemas && s.db.facts.schemas[key] == schema
    requires FactAccepted(fact, schema)
    ensures Next(s, Call(id, now, forged)) == Goto(s, id, FactRelookup(command, fact, schema))
  {
  }

  predicate ChecksRivals(fact: AssertFact, schema: FactSchema) { fact.status == Asserted && !schema.multipleActive }

  lemma PreviousMovesOn(s: System, id: nat, command: Command, fact: AssertFact, schema: FactSchema, now: Clock,
          forged: Forged)
    requires id in s.tasks && s.tasks[id] == ReadingPrevious(command, fact, schema) &&
              PreviousPasses(s, command, fact, schema)
    ensures var previous := CurrentRevision(s.db.facts, FactKeyOf(command, fact));
            Next(s, Call(id, now, forged)) ==
              Goto(s, id, if ChecksRivals(fact, schema) then ReadingConflict(command, fact, schema, previous)
                          else LockedLookup(FactWrite(command, fact, schema, previous)))
  {
  }

  lemma RivalsMoveOn(s: System, id: nat, command: Command, fact: AssertFact, schema: FactSchema,
          previous: Option<FactCurrent>,
          now: Clock, forged: Forged)
    requires id in s.tasks && s.tasks[id] == ReadingConflict(command, fact, schema, previous)
    requires !ActiveConflict(s.db.facts.claims, FactKeyOf(command, fact), fact.topic)
    ensures Next(s, Call(id, now, forged)) == Goto(s, id, LockedLookup(FactWrite(command, fact, schema, previous)))
  {
  }

  lemma AssertionReadsSchema(s: System, id: nat, command: Command, fact: AssertFact, now: Clock, forged: Forged)
    returns (more: seq<Label>)
    requires id !in s.tasks && command.caller != PLANNING_NAMESPACE &&
              (command.caller, command.key) !in s.db.docs.idempotency
    ensures Entered(more, id, FactLookup(command, fact), now, forged)
    ensures After(s, more) == Goto(s, id, ReadingSchema(command, fact))
  {
    var b, l := Begin(id, FactLookup(command, fact)), Call(id, now, forged);
    var s0, s1 := Goto(s, id, FactLookup(command, fact)), Goto(s, id, ReadingSchema(command, fact));
    AfterOne(s, b);
    LookupMovesOn(s0, id, FactLookup(command, fact), ReadingSchema(command, fact), now, forged);
    GotoTwice(s, id, FactLookup(command, fact), ReadingSchema(command, fact));
    AfterMore(s, [b], l);
    more := [b] + [l];
  }

  lemma SchemaAndLookup(s: System, id: nat, command: Command, fact: AssertFact, schema: FactSchema, now: Clock,
          forged: Forged)
    returns (more: seq<Label>)
    requires id in s.tasks && s.tasks[id] == ReadingSchema(command, fact) &&
              (command.caller, command.key) !in s.db.docs.idempotency
    requires
      var key := Facts.SchemaOf(command.caller, fact.topic);
      key in s.db.facts.schemas && s.db.facts.schemas[key] == schema
    requires FactAccepted(fact, schema)
    ensures Alone(more, id, now, forged) && After(s, more) == Goto(s, id, ReadingPrevious(command, fact, schema))
  {
    var l, s1 := Call(id, now, forged), Goto(s, id, FactRelookup(command, fact, schema));
    SchemaMovesOn(s, id, command, fact, schema, now, forged);
    AfterOne(s, l);
    LookupMovesOn(s1, id, FactRelookup(command, fact, schema), ReadingPrevious(command, fact, schema), now, forged);
    var previous := ReadingPrevious(command, fact, schema);
    GotoTwice(s, id, FactRelookup(command, fact, schema), previous);
    AfterMore(s, [l], l);
    more := [l] + [l];
  }

  lemma AssertionReadsClaim(s: System, id: nat, command: Command, fact: AssertFact, schema: FactSchema, now: Clock,
          forged: Forged)
    returns (more: seq<Label>)
    requires id !in s.tasks && command.caller != PLANNING_NAMESPACE &&
              (command.caller, command.key) !in s.db.docs.idempotency
    requires
      var key := Facts.SchemaOf(command.caller, fact.topic);
      key in s.db.facts.schemas && s.db.facts.schemas[key] == schema
    requires FactAccepted(fact, schema)
    ensures Entered(more, id, FactLookup(command, fact), now, forged)
    ensures After(s, more) == Goto(s, id, ReadingPrevious(command, fact, schema))
  {
    var s1, previous := Goto(s, id, ReadingSchema(command, fact)), ReadingPrevious(command, fact, schema);
    var a := AssertionReadsSchema(s, id, command, fact, now, forged);
    var b := SchemaAndLookup(s1, id, command, fact, schema, now, forged);
    AfterSplit(s, a, b);
    EnteredMore(a, b, id, FactLookup(command, fact), now, forged);
    GotoTwice(s, id, ReadingSchema(command, fact), previous);
    more := a + b;
  }

  lemma ClaimReachesLock(s: System, id: nat, command: Command, fact: AssertFact, schema: FactSchema, now: Clock,
          forged: Forged)
    returns (more: seq<Label>)
    requires id in s.tasks && s.tasks[id] == ReadingPrevious(command, fact, schema) &&
              PreviousPasses(s, command, fact, schema)
    requires ChecksRivals(fact, schema) ==> !ActiveConflict(s.db.facts.claims, FactKeyOf(command, fact), fact.topic)
    ensures Alone(more, id, now, forged)
    ensures After(s, more) ==
              Goto(s, id,
                  LockedLookup(FactWrite(command, fact, schema, CurrentRevision(s.db.facts, FactKeyOf(command, fact)))))
  {
    var l, previous := Call(id, now, forged), CurrentRevision(s.db.facts, FactKeyOf(command, fact));
    PreviousMovesOn(s, id, command, fact, schema, now, forged);
    AfterOne(s, l);
    more := [l];
    if ChecksRivals(fact, schema) {
      var s1 := Goto(s, id, ReadingConflict(command, fact, schema, previous));
      RivalsMoveOn(s1, id, command, fact, schema, previous, now, forged);
      var locked := LockedLookup(FactWrite(command, fact, schema, previous));
      GotoTwice(s, id, ReadingConflict(command, fact, schema, previous), locked);
      AfterMore(s, [l], l);
      more := [l] + [l];
    }
  }

  /** What the handler asks of the tables before it stages an assertion. */
  ghost predicate AssertionAllowed(s: System, command: Command, fact: AssertFact, schema: FactSchema) {
    && command.caller != PLANNING_NAMESPACE
    && Facts.SchemaOf(command.caller, fact.topic) in s.db.facts.schemas
    && s.db.facts.schemas[Facts.SchemaOf(command.caller, fact.topic)] == schema
    && FactAccepted(fact, schema)
    && PreviousPasses(s, command, fact, schema)
    && (ChecksRivals(fact, schema) ==> !ActiveConflict(s.db.facts.claims, FactKeyOf(command, fact), fact.topic))
  }

  /** The mutation an assertion ends in. */
  function AssertionWrite(s: System, command: Command, fact: AssertFact, schema: FactSchema): Write {
    FactWrite(command, fact, schema, CurrentRevision(s.db.facts, FactKeyOf(command, fact)))
  }

  lemma AssertionReachesLock(s: System, id: nat, command: Command, fact: AssertFact, schema: FactSchema, now: Clock,
          forged: Forged)
    returns (more: seq<Label>)
    requires id !in s.tasks && AssertionAllowed(s, command, fact, schema) &&
              (command.caller, command.key) !in s.db.docs.idempotency
    ensures Entered(more, id, FactLookup(command, fact), now, forged)
    ensures After(s, more) == Goto(s, id, LockedLookup(AssertionWrite(s, command, fact, schema)))
  {
    var s1 := Goto(s, id, ReadingPrevious(command, fact, schema));
    var locked := LockedLookup(AssertionWrite(s, command, fact, schema));
    var a := AssertionReadsClaim(s, id, command, fact, schema, now, forged);
    var b := ClaimReachesLock(s1, id, command, fact, schema, now, forged);
    AfterSplit(s, a, b);
    EnteredMore(a, b, id, FactLookup(command, fact), now, forged);
    GotoTwice(s, id, ReadingPrevious(command, fact, schema), locked);
    more := a + b;
  }

  lemma AssertionApplies(db: Db, w: Write, key: FactKey, p: FactProjection, forged: Forged, now: Clock)
    requires DbInv(db) && HeadRoom(db.docs, w.document, forged.author) && Unused(db.docs, w.command, forged.hash)
    requires w.projections == [FactRevision(p)] && key == FactKey(w.document.app, p.community, p.claim)
    requires p.expectedPrevious == SourceOf(ClaimAt(db.facts, key))
    requires p.status == Asserted && !p.multipleActive ==> !ActiveConflict(db.facts.claims, key, p.topic)
    ensures CommitLocal(db, Fresh(db.docs, w, forged), now).Ok?
  {
    FreshCommitGoesThrough(db, w, forged, now);
    assert Applicable(db, w.document, w.projections[0]);
  }

  /** An assertion the handler allows, from its entry on, is committed and answered. */
  lemma UndisturbedAssertionCommits(s: System, id: nat, command: Command, fact: AssertFact, schema: FactSchema,
          forged: Forged, now: Clock)
    returns (more: seq<Label>)
    requires DbInv(s.db) && id !in s.tasks && AssertionAllowed(s, command, fact, schema)
    requires var w := AssertionWrite(s, command, fact, schema);
             HeadRoom(s.db.docs, w.document, forged.author) && Unused(s.db.docs, command, forged.hash)
    ensures var c := Fresh(s.db.docs, AssertionWrite(s, command, fact, schema), forged);
            && Entered(more, id, FactLookup(command, fact), now, forged) && CommitLocal(s.db, c, now).Ok?
            && After(s, more) == Committed(s, id, c, now)
  {
    var w := AssertionWrite(s, command, fact, schema);
    AssertionApplies(s.db, w, FactKeyOf(command, fact), w.projections[0].fact, forged, now);
    var a := AssertionReachesLock(s, id, command, fact, schema, now, forged);
    more := CommitsFromLock(s, id, FactLookup(command, fact), w, a, now, forged);
  }

  // ------------------------------------------------------------ planning puts

  lemma AccessMovesOn(s: System, id: nat, command: Command, community: string, row: PlanningRow, now: Clock,
          forged: Forged)
    requires id in s.tasks && s.tasks[id] == ReadingAccess(command, community, row) &&
              MayWrite(s.db.grants, command.caller, community)
    ensures Next(s, Call(id, now, forged)) == Goto(s, id, PlanLookup(command, community, row))
  {
  }

  lemma VersionMovesOn(s: System, id: nat, command: Command, community: string, row: PlanningRow, now: Clock,
          forged: Forged)
    requires id in s.tasks && s.tasks[id] == ReadingVersion(command, community, row)
    ensures Next(s, Call(id, now, forged)) ==
              Goto(s, id,
                  ReadingCatalog(command, community, row, Plans.Catalog(PlanAt(s, community).version, [], [], [], []),
                      0))
  {
  }

  lemma PageMovesOn(s: System, id: nat, command: Command, community: string, row: PlanningRow, catalog: Plans.Catalog,
          page: Page)
    requires id in s.tasks && s.tasks[id] == ReadingCatalog(command, community, row, catalog, Turn(page))
    requires PageOf(PlanAt(s, community), page)
    ensures Next(s, ReadPage(id, page)) ==
              if Turn(page) < 3 then Goto(s, id,
                  ReadingCatalog(command, community, row, Extended(catalog, page), Turn(page) + 1))
              else Validated(s, id, command, community, row, Extended(catalog, page))
  {
    ReadTableCases(s, id, page);
  }

  /** Where a put stands when it has read the version. */
  function VersionRead(s: System, id: nat, command: Command, community: string, row: PlanningRow): System {
    Goto(s, id, ReadingCatalog(command, community, row, Plans.Catalog(PlanAt(s, community).version, [], [], [], []), 0))
  }

  lemma PutLooksUp(s: System, id: nat, command: Command, community: string, row: PlanningRow, now: Clock,
          forged: Forged)
    returns (more: seq<Label>)
    requires id !in s.tasks && command.caller != PLANNING_NAMESPACE && MayWrite(s.db.grants, command.caller, community)
    ensures Entered(more, id, ReadingAccess(command, community, row), now, forged)
    ensures After(s, more) == Goto(s, id, PlanLookup(command, community, row))
  {
    var b, l := Begin(id, ReadingAccess(command, community, row)), Call(id, now, forged);
    var s0, s1 := Goto(s, id, ReadingAccess(command, community, row)), Goto(s, id, PlanLookup(command, community, row));
    AfterOne(s, b);
    AccessMovesOn(s0, id, command, community, row, now, forged);
    GotoTwice(s, id, ReadingAccess(command, community, row), PlanLookup(command, community, row));
    AfterMore(s, [b], l);
    more := [b] + [l];
  }

  lemma PutReadsVersion(s: System, id: nat, command: Command, community: string, row: PlanningRow, now: Clock,
          forged: Forged)
    returns (more: seq<Label>)
    requires id !in s.tasks && command.caller != PLANNING_NAMESPACE &&
              (command.caller, command.key) !in s.db.docs.idempotency
    requires MayWrite(s.db.grants, command.caller, community)
    ensures Entered(more, id, ReadingAccess(command, community, row), now, forged)
    ensures After(s, more) == VersionRead(s, id, command, community, row)
  {
    var l := Call(id, now, forged);
    var s1, s2 := Goto(s, id, PlanLookup(command, community, row)),
        Goto(s, id, ReadingVersion(command, community, row));
    var a := PutLooksUp(s, id, command, community, row, now, forged);
    LookupMovesOn(s1, id, PlanLookup(command, community, row), ReadingVersion(command, community, row), now, forged);
    GotoTwice(s, id, PlanLookup(command, community, row), ReadingVersion(command, community, row));
    AfterMore(s, a, l);
    VersionMovesOn(s2, id, command, community, row, now, forged);
    GotoTwice(s, id, ReadingVersion(command, community, row),
        VersionRead(s, id, command, community, row).tasks[id]);
    AfterMore(s, a + [l], l);
    EnteredMore(a, [l], id, ReadingAccess(command, community, row), now, forged);
    EnteredMore(a + [l], [l], id, ReadingAccess(command, community, row), now, forged);
    more := a + [l] + [l];
  }

  /** One page read after the others. */
  lemma PageRead(s: System, sofar: seq<Label>, id: nat, command: Command, community: string, row: PlanningRow,
          catalog: Plans.Catalog, page: Page)
    requires Turn(page) < 3 && PageOf(PlanAt(s, community), page)
    requires After(s, sofar) == Goto(s, id, ReadingCatalog(command, community, row, catalog, Turn(page)))
    ensures After(s, sofar + [ReadPage(id, page)]) ==
              Goto(s, id, ReadingCatalog(command, community, row, Extended(catalog, page), Turn(page) + 1))
  {
    var s0 := Goto(s, id, ReadingCatalog(command, community, row, catalog, Turn(page)));
    PageMovesOn(s0, id, command, community, row, catalog, page);
    AfterMore(s, sofar, ReadPage(id, page));
    var next := ReadingCatalog(command, community, row, Extended(catalog, page), Turn(page) + 1);
    GotoTwice(s, id, s0.tasks[id], next);
  }

  lemma LastPageRead(s: System, sofar: seq<Label>, id: nat, command: Command, community: string, row: PlanningRow,
          catalog: Plans.Catalog, page: Page)
    requires Turn(page) == 3 && PageOf(PlanAt(s, community), page) && Plans.CatalogAccepts(Extended(catalog, page), row)
    requires After(s, sofar) == Goto(s, id, ReadingCatalog(command, community, row, catalog, 3))
    ensures After(s, sofar + [ReadPage(id, page)]) ==
              Goto(s, id, LockedLookup(PlanWrite(command, community, row, catalog.version)))
  {
    var s0 := Goto(s, id, ReadingCatalog(command, community, row, catalog, 3));
    PageMovesOn(s0, id, command, community, row, catalog, page);
    AfterMore(s, sofar, ReadPage(id, page));
    var locked := LockedLookup(PlanWrite(command, community, row, catalog.version));
    GotoTwice(s, id, s0.tasks[id], locked);
  }

  lemma TwoTablesRead(s: System, start: seq<Label>, id: nat, command: Command, community: string, row: PlanningRow,
          catalog: Plans.Catalog)
    returns (more: seq<Label>)
    requires After(s, start) == VersionRead(s, id, command, community, row) &&
              catalog.version == PlanAt(s, community).version
    requires PageOf(PlanAt(s, community), Projects(catalog.projects)) &&
              PageOf(PlanAt(s, community), Tasks(catalog.tasks))
    ensures start <= more && forall l :: l in more[|start|..] ==> l.ReadPage? && l.id == id
    ensures After(s, more) ==
              Goto(s, id, ReadingCatalog(command, community, row, catalog.(events := [], dependencies := []), 2))
  {
    var c0 := Plans.Catalog(catalog.version, [], [], [], []);
    PageRead(s, start, id, command, community, row, c0, Projects(catalog.projects));
    var a := start + [ReadPage(id, Projects(catalog.projects))];
    PageRead(s, a, id, command, community, row, c0.(projects := catalog.projects), Tasks(catalog.tasks));
    more := a + [ReadPage(id, Tasks(catalog.tasks))];
  }

  /** The first three tables. */
  lemma TablesRead(s: System, start: seq<Label>, id: nat, command: Command, community: string, row: PlanningRow,
          catalog: Plans.Catalog)
    returns (more: seq<Label>)
    requires After(s, start) == VersionRead(s, id, command, community, row) &&
              catalog.version == PlanAt(s, community).version
    requires PageOf(PlanAt(s, community), Projects(catalog.projects)) &&
              PageOf(PlanAt(s, community), Tasks(catalog.tasks))
    requires PageOf(PlanAt(s, community), Events(catalog.events))
    ensures start <= more && forall l :: l in more[|start|..] ==> l.ReadPage? && l.id == id
    ensures After(s, more) == Goto(s, id, ReadingCatalog(command, community, row, catalog.(dependencies := []), 3))
  {
    var a := TwoTablesRead(s, start, id, command, community, row, catalog);
    PageRead(s, a, id, command, community, row, catalog.(events := [], dependencies := []), Events(catalog.events));
    more := a + [ReadPage(id, Events(catalog.events))];
  }

  lemma CatalogRead(s: System, start: seq<Label>, id: nat, command: Command, community: string, row: PlanningRow,
          catalog: Plans.Catalog)
    returns (more: seq<Label>)
    requires After(s, start) == VersionRead(s, id, command, community, row)
    requires Plans.Whole(PlanAt(s, community), catalog) && Plans.CatalogAccepts(catalog, row)
    ensures start <= more && forall l :: l in more[|start|..] ==> l.ReadPage? && l.id == id
    ensures After(s, more) == Goto(s, id, LockedLookup(PlanWrite(command, community, row, catalog.version)))
  {
    var a := TablesRead(s, start, id, command, community, row, catalog);
    LastPageRead(s, a, id, command, community, row, catalog.(dependencies := []), Dependencies(catalog.dependencies));
    more := a + [ReadPage(id, Dependencies(catalog.dependencies))];
  }

  lemma PutReachesLock(s: System, id: nat, command: Command, community: string, row: PlanningRow,
          catalog: Plans.Catalog, now: Clock, forged: Forged)
    returns (more: seq<Label>)
    requires id !in s.tasks && command.caller != PLANNING_NAMESPACE &&
              (command.caller, command.key) !in s.db.docs.idempotency
    requires MayWrite(s.db.grants, command.caller, community)
    requires Plans.Whole(PlanAt(s, community), catalog) && Plans.CatalogAccepts(catalog, row)
    ensures Entered(more, id, ReadingAccess(command, community, row), now, forged)
    ensures After(s, more) == Goto(s, id, LockedLookup(PlanWrite(command, community, row, catalog.version)))
  {
    var a := PutReadsVersion(s, id, command, community, row, now, forged);
    more := CatalogRead(s, a, id, command, community, row, catalog);
    EnteredMore(a, more[|a|..], id, ReadingAccess(command, community, row), now, forged);
    assert more == a + more[|a|..];
  }

  lemma PutApplies(db: Db, w: Write, p: PlanningWrite, forged: Forged, now: Clock)
    requires DbInv(db) && HeadRoom(db.docs, w.document, forged.author) && Unused(db.docs, w.command, forged.hash)
    requires w.projections == [Planning(p)] && MayWrite(db.grants, p.app, w.document.community)
    requires p.expectedVersion == PlanOf(db.plans, PlanKey(w.document.app, w.document.community)).version < I64_MAX
    ensures CommitLocal(db, Fresh(db.docs, w, forged), now).Ok?
  {
    FreshCommitGoesThrough(db, w, forged, now);
    assert Applicable(db, w.document, w.projections[0]);
  }

  /** A put that keeps the plan consistent, from its entry on, is committed and answered. */
  lemma UndisturbedPutCommits(s: System, id: nat, command: Command, community: string, row: PlanningRow,
          forged: Forged, now: Clock)
    returns (more: seq<Label>)
    requires DbInv(s.db) && id !in s.tasks && command.caller != PLANNING_NAMESPACE &&
              MayWrite(s.db.grants, command.caller, community)
    requires Plans.PlanOk(Upsert(PlanAt(s, community), row)) && PlanAt(s, community).version < I64_MAX
    requires var w := PlanWrite(command, community, row, PlanAt(s, community).version);
             HeadRoom(s.db.docs, w.document, forged.author) && Unused(s.db.docs, command, forged.hash)
    ensures var c := Fresh(s.db.docs, PlanWrite(command, community, row, PlanAt(s, community).version), forged);
            && Entered(more, id, ReadingAccess(command, community, row), now, forged) && CommitLocal(s.db, c, now).Ok?
            && After(s, more) == Committed(s, id, c, now)
  {
    var w := PlanWrite(command, community, row, PlanAt(s, community).version);
    var catalog := Plans.CatalogExists(PlanAt(s, community));
    PutAccepted(s, community, row, catalog);
    PutApplies(s.db, w, w.projections[0].write, forged, now);
    var a := PutReachesLock(s, id, command, community, row, catalog, now, forged);
    more := CommitsFromLock(s, id, ReadingAccess(command, community, row), w, a, now, forged);
  }

  lemma PutAccepted(s: System, community: string, row: PlanningRow, catalog: Plans.Catalog)
    requires Plans.PlansInv(s.db.plans) && Plans.Whole(PlanAt(s, community), catalog)
    requires Plans.PlanOk(Upsert(PlanAt(s, community), row))
    ensures Plans.CatalogAccepts(catalog, row)
  {
    assert Plans.PlanOk(PlanOf(s.db.plans, PlanKey(PLANNING_NAMESPACE, community)));
    Plans.HandlerExact(PlanAt(s, community), catalog, row);
  }
}
