/** Requests that keep apart do not notice each other: whatever others do elsewhere, a
    request meets the fate it would have met alone. */
module Independence {
  import opened Wrappers
  import opened Domain
  import opened Database
  import opened Protocol
  import opened Safety
  import opened Progress
  import Docs = DocumentLog
  import Facts = FactLedger
  import Plans = PlanningCatalog
  import Theorems

  /** What a request is about, besides its document. */
  datatype Subject = Plain | OnFact(fact: AssertFact) | OnPlan(community: string)

  datatype Footprint = Footprint(command: Command, document: DocumentKey, forged: Forged, subject: Subject)

  datatype About =
    | Nothing
    | FactAbout(schema: Option<FactSchema>, claim: Option<Claim>, rival: bool)
    | PlanAbout(plan: Plan, mayWrite: bool)

  /** All that a request ever sees of the store. */
  datatype View = View(
    rows: seq<UpdateRow>, head: Option<LogHead>, key: Option<IdempotencyRow>, taken: bool, about: About)

  function SchemaAt(facts: Database.Facts, key: SchemaKey): Option<FactSchema> {
    if key in facts.schemas then Some(facts.schemas[key]) else None
  }

  function KeyAt(docs: Documents, command: Command): Option<IdempotencyRow> {
    if (command.caller, command.key) in docs.idempotency then Some(docs.idempotency[(command.caller, command.key)])
    else None
  }

  function AboutOf(db: Db, caller: string, subject: Subject): About {
    match subject
    case Plain => Nothing
    case OnFact(fact) =>
      var key := FactKey(caller, fact.community, fact.claim);
      FactAbout(SchemaAt(db.facts, Facts.SchemaOf(caller, fact.topic)), ClaimAt(db.facts, key),
                ActiveConflict(db.facts.claims, key, fact.topic))
    case OnPlan(community) =>
      PlanAbout(PlanOf(db.plans, PlanKey(PLANNING_NAMESPACE, community)), MayWrite(db.grants, caller, community))
  }

  function ViewOf(db: Db, fp: Footprint): View {
    View(RowsOf(db.docs.updates, fp.document), HeadOf(db.docs, fp.forged.author, LogId(fp.document)),
         KeyAt(db.docs, fp.command), HashTaken(db.docs.operations, fp.forged.hash),
         AboutOf(db, fp.command.caller, fp.subject))
  }

  // -------------------------------------------------- a task and its footprint

  predicate ProjectionsFit(projections: seq<Projection>, fp: Footprint) {
    && |projections| <= 1
    && (|projections| == 1 ==>
          match projections[0]
          case FactRevision(p) =>
            && fp.subject.OnFact? && fp.document.app == fp.command.caller
            && p.community == fp.subject.fact.community && p.claim == fp.subject.fact.claim
            && p.topic == fp.subject.fact.topic
          case Planning(write) =>
            && fp.subject == OnPlan(fp.document.community) && fp.document.app == PLANNING_NAMESPACE
            && write.app == fp.command.caller)
  }

  predicate WriteFits(w: Write, fp: Footprint) {
    w.command == fp.command && w.document == fp.document && ProjectionsFit(w.projections, fp)
  }

  predicate CommitFits(c: LocalCommit, fp: Footprint) {
    && c.command == fp.command && c.document == fp.document && ProjectionsFit(c.projections, fp)
    && c.record.hash == fp.forged.hash && c.record.author == fp.forged.author && c.record.log == LogId(fp.document)
    && c.record.document == c.document
  }

  predicate FactFits(command: Command, fact: AssertFact, fp: Footprint) {
    && command == fp.command && fp.subject == OnFact(fact)
    && fp.document == DocumentKey(command.caller, fact.community, "facts/" + fact.claim)
  }

  predicate PlanFits(command: Command, community: string, row: PlanningRow, fp: Footprint) {
    && command == fp.command && fp.subject == OnPlan(community)
    && fp.document == DocumentKey(PLANNING_NAMESPACE, community, PlanDocument(row))
  }

  /** The task works within the footprint. */
  predicate Fits(t: Task, fp: Footprint) {
    match t
    case MutateLookup(w) => WriteFits(w, fp)
    case LockedLookup(w) => WriteFits(w, fp)
    case LoadingUpdates(w) => WriteFits(w, fp)
    case ReadingHead(w, _) => WriteFits(w, fp)
    case Committing(c) => CommitFits(c, fp)
    case FactLookup(command, fact) => FactFits(command, fact, fp)
    case ReadingSchema(command, fact) => FactFits(command, fact, fp)
    case FactRelookup(command, fact, _) => FactFits(command, fact, fp)
    case ReadingPrevious(command, fact, _) => FactFits(command, fact, fp)
    case ReadingConflict(command, fact, _, _) => FactFits(command, fact, fp)
    case ReadingAccess(command, community, row) => PlanFits(command, community, row, fp)
    case PlanLookup(command, community, row) => PlanFits(command, community, row, fp)
    case ReadingVersion(command, community, row) => PlanFits(command, community, row, fp)
    case ReadingCatalog(command, community, row, _, _) => PlanFits(command, community, row, fp)
  }

  // ---------------------------------------------------------- one step of its own

  /** What a step did to a request in flight. */
  datatype Fate = Going(task: Task) | Gave(answer: Answer) | Ended

  function Outcome(s: System, s': System, id: nat): Fate {
    if id in s'.tasks then Going(s'.tasks[id])
    else if |s'.answers| > |s.answers| then Gave(s'.answers[|s.answers|]) else Ended
  }

  /** The step went the same way from both states, and if the request goes on it left both
      stores alone. */
  ghost predicate Alike(s: System, s': System, t: System, t': System, id: nat, fp: Footprint) {
    && Outcome(s, s', id) == Outcome(t, t', id)
    && (id in s'.tasks ==> s'.db == s.db && Fits(s'.tasks[id], fp))
    && (id in t'.tasks ==> t'.db == t.db)
  }

  ghost predicate SameSight(s: System, t: System, id: nat, fp: Footprint) {
    && id in s.tasks && id in t.tasks && s.tasks[id] == t.tasks[id] && Fits(s.tasks[id], fp)
    && ViewOf(s.db, fp) == ViewOf(t.db, fp)
  }

  lemma LookupAlike(s: System, t: System, id: nat, fp: Footprint, next: Task)
    requires SameSight(s, t, id, fp) && Fits(next, fp)
    ensures Alike(s, Lookup(s, id, fp.command, next), t, Lookup(t, id, fp.command, next), id, fp)
  {
    assert KeyAt(s.db.docs, fp.command) == KeyAt(t.db.docs, fp.command);
  }

  lemma LoadAlike(s: System, t: System, id: nat, fp: Footprint, w: Write, now: Clock)
    requires SameSight(s, t, id, fp) && s.tasks[id] == LoadingUpdates(w)
    ensures Alike(s, MutateCall(s, id, s.tasks[id], now, fp.forged), t, MutateCall(t, id, t.tasks[id], now, fp.forged),
                  id, fp)
  {
    assert RowsOf(s.db.docs.updates, w.document) == RowsOf(t.db.docs.updates, w.document);
    assert LoadUpdates(s.db.docs, w.document) == LoadUpdates(t.db.docs, w.document);
  }

  lemma HeadAlike(s: System, t: System, id: nat, fp: Footprint, w: Write, loaded: seq<Update>, now: Clock)
    requires SameSight(s, t, id, fp) && s.tasks[id] == ReadingHead(w, loaded)
    ensures Alike(s, MutateCall(s, id, s.tasks[id], now, fp.forged), t, MutateCall(t, id, t.tasks[id], now, fp.forged),
                  id, fp)
  {
    assert HeadOf(s.db.docs, fp.forged.author, LogId(w.document)) ==
           HeadOf(t.db.docs, fp.forged.author, LogId(w.document));
  }

  /** A commit is accepted by both stores or by neither. */
  lemma SameApplies(db: Db, db': Db, fp: Footprint, c: LocalCommit)
    requires ViewOf(db, fp) == ViewOf(db', fp) && CommitFits(c, fp) && |c.projections| == 1
    ensures Applicable(db, c.document, c.projections[0]) <==> Applicable(db', c.document, c.projections[0])
  {
    assert AboutOf(db, fp.command.caller, fp.subject) == AboutOf(db', fp.command.caller, fp.subject);
  }

  /** What the tables decide of a commit, in the words of the view. */
  lemma CommitDecided(db: Db, c: LocalCommit, now: Clock)
    requires DbInv(db) && |c.projections| <= 1
    ensures CommitLocal(db, c, now).Ok? <==>
              && c.record.document == c.document
              && |RowsOf(db.docs.updates, c.document)| == c.expectedUpdates
              && ExtendsHead(HeadOf(db.docs, c.record.author, c.record.log), c.record)
              && !HashTaken(db.docs.operations, c.record.hash)
              && (c.command.caller, c.command.key) !in db.docs.idempotency
              && (|c.projections| == 1 ==> Applicable(db, c.document, c.projections[0]))
  {
    if ExtendsHead(HeadOf(db.docs, c.record.author, c.record.log), c.record) {
      NextSlotFree(db.docs, c.record);
    }
    if !HashTaken(db.docs.operations, c.record.hash) {
      AtMostOneApplies(db, c, now);
    }
  }

  lemma CommitSame(db: Db, db': Db, fp: Footprint, c: LocalCommit, now: Clock)
    requires DbInv(db) && DbInv(db') && ViewOf(db, fp) == ViewOf(db', fp) && CommitFits(c, fp)
    ensures CommitLocal(db, c, now).Ok? <==> CommitLocal(db', c, now).Ok?
  {
    CommitDecided(db, c, now);
    CommitDecided(db', c, now);
    assert RowsOf(db.docs.updates, c.document) == RowsOf(db'.docs.updates, c.document);
    assert KeyAt(db.docs, c.command) == KeyAt(db'.docs, c.command);
    if |c.projections| == 1 { SameApplies(db, db', fp, c); }
  }

  lemma CommitAlike(s: System, t: System, id: nat, fp: Footprint, c: LocalCommit, now: Clock)
    requires SameSight(s, t, id, fp) && s.tasks[id] == Committing(c) && DbInv(s.db) && DbInv(t.db)
    ensures Alike(s, MutateCall(s, id, s.tasks[id], now, fp.forged), t, MutateCall(t, id, t.tasks[id], now, fp.forged),
                  id, fp)
  {
    CommitSame(s.db, t.db, fp, c, now);
  }

  lemma MutateAlike(s: System, t: System, id: nat, fp: Footprint, now: Clock)
    requires SameSight(s, t, id, fp) && DbInv(s.db) && DbInv(t.db)
    requires
      var k := s.tasks[id];
      k.MutateLookup? || k.LockedLookup? || k.LoadingUpdates? || k.ReadingHead? || k.Committing?
    ensures Alike(s, MutateCall(s, id, s.tasks[id], now, fp.forged), t, MutateCall(t, id, t.tasks[id], now, fp.forged),
                  id, fp)
  {
    match s.tasks[id] {
      case MutateLookup(w) => LookupAlike(s, t, id, fp, LockedLookup(w));
      case LockedLookup(w) => LookupAlike(s, t, id, fp, LoadingUpdates(w));
      case LoadingUpdates(w) => LoadAlike(s, t, id, fp, w, now);
      case ReadingHead(w, loaded) => HeadAlike(s, t, id, fp, w, loaded, now);
      case Committing(c) => CommitAlike(s, t, id, fp, c, now);
    }
  }

  lemma SameAbout(s: System, t: System, fp: Footprint)
    requires ViewOf(s.db, fp) == ViewOf(t.db, fp)
    ensures AboutOf(s.db, fp.command.caller, fp.subject) == AboutOf(t.db, fp.command.caller, fp.subject)
  {
  }

  lemma SchemaAlike(s: System, t: System, id: nat, fp: Footprint, command: Command, fact: AssertFact)
    requires SameSight(s, t, id, fp) && s.tasks[id] == ReadingSchema(command, fact)
    ensures Alike(s, FactCall(s, id, s.tasks[id]), t, FactCall(t, id, t.tasks[id]), id, fp)
  {
    SameAbout(s, t, fp);
    var key := Facts.SchemaOf(command.caller, fact.topic);
    assert SchemaAt(s.db.facts, key) == SchemaAt(t.db.facts, key);
  }

  lemma FactWriteFits(command: Command, fact: AssertFact, schema: FactSchema, previous: Option<FactCurrent>,
          fp: Footprint)
    requires FactFits(command, fact, fp)
    ensures Fits(LockedLookup(FactWrite(command, fact, schema, previous)), fp)
  {
  }

  lemma PreviousAlike(s: System, t: System, id: nat, fp: Footprint, command: Command, fact: AssertFact,
          schema: FactSchema)
    requires SameSight(s, t, id, fp) && s.tasks[id] == ReadingPrevious(command, fact, schema)
    ensures Alike(s, FactCall(s, id, s.tasks[id]), t, FactCall(t, id, t.tasks[id]), id, fp)
  {
    SameAbout(s, t, fp);
    var key := FactKeyOf(command, fact);
    assert ClaimAt(s.db.facts, key) == ClaimAt(t.db.facts, key);
    assert CurrentRevision(s.db.facts, key) == CurrentRevision(t.db.facts, key);
    PreviousCallCases(s, id, command, fact, schema);
    PreviousCallCases(t, id, command, fact, schema);
    FactWriteFits(command, fact, schema, CurrentRevision(s.db.facts, key), fp);
  }

  lemma RivalsAlike(s: System, t: System, id: nat, fp: Footprint, command: Command, fact: AssertFact,
          schema: FactSchema, previous: Option<FactCurrent>)
    requires SameSight(s, t, id, fp) && s.tasks[id] == ReadingConflict(command, fact, schema, previous)
    ensures Alike(s, FactCall(s, id, s.tasks[id]), t, FactCall(t, id, t.tasks[id]), id, fp)
  {
    SameAbout(s, t, fp);
    FactWriteFits(command, fact, schema, previous, fp);
  }

  lemma FactAlike(s: System, t: System, id: nat, fp: Footprint)
    requires SameSight(s, t, id, fp)
    requires
      var k := s.tasks[id];
      k.FactLookup? || k.ReadingSchema? || k.FactRelookup? || k.ReadingPrevious? || k.ReadingConflict?
    ensures Alike(s, FactCall(s, id, s.tasks[id]), t, FactCall(t, id, t.tasks[id]), id, fp)
  {
    match s.tasks[id] {
      case FactLookup(command, fact) => LookupAlike(s, t, id, fp, ReadingSchema(command, fact));
      case ReadingSchema(command, fact) => SchemaAlike(s, t, id, fp, command, fact);
      case FactRelookup(command, fact, schema) => LookupAlike(s, t, id, fp, ReadingPrevious(command, fact, schema));
      case ReadingPrevious(command, fact, schema) => PreviousAlike(s, t, id, fp, command, fact, schema);
      case ReadingConflict(command, fact, schema, previous) =>
        RivalsAlike(s, t, id, fp, command, fact, schema, previous);
    }
  }

  lemma PlanAlike(s: System, t: System, id: nat, fp: Footprint)
    requires SameSight(s, t, id, fp)
    requires var k := s.tasks[id]; k.ReadingAccess? || k.PlanLookup? || k.ReadingVersion?
    ensures Alike(s, PlanCall(s, id, s.tasks[id]), t, PlanCall(t, id, t.tasks[id]), id, fp)
  {
    SameAbout(s, t, fp);
    match s.tasks[id] {
      case ReadingAccess(command, community, row) =>
      case PlanLookup(command, community, row) => LookupAlike(s, t, id, fp, ReadingVersion(command, community, row));
      case ReadingVersion(command, community, row) =>
    }
  }

  lemma PageAlike(s: System, t: System, id: nat, fp: Footprint, page: Page)
    requires SameSight(s, t, id, fp) && ReadsTable(s, id, Turn(page))
    ensures Alike(s, ReadTable(s, id, page), t, ReadTable(t, id, page), id, fp)
  {
    SameAbout(s, t, fp);
    assert PlanAt(s, s.tasks[id].community) == PlanAt(t, t.tasks[id].community);
    if PageOf(PlanAt(s, s.tasks[id].community), page) {
      ReadTableCases(s, id, page);
      ReadTableCases(t, id, page);
    }
  }

  /** The request's own labels. */
  predicate IsOwn(l: Label, id: nat, forged: Forged) {
    (l.Call? && l.id == id && l.forged == forged) || (l.ReadPage? && l.id == id)
  }

  /** The same own step from two states that look the same goes the same way. */
  lemma OwnStepAlike(s: System, t: System, id: nat, fp: Footprint, l: Label)
    requires SameSight(s, t, id, fp) && DbInv(s.db) && DbInv(t.db) && IsOwn(l, id, fp.forged)
    ensures Alike(s, Next(s, l), t, Next(t, l), id, fp)
  {
    if l.ReadPage? {
      if ReadsTable(s, id, Turn(l.page)) { PageAlike(s, t, id, fp, l.page); }
    } else {
      CallAlike(s, t, id, fp, l.now);
    }
  }

  lemma CallAlike(s: System, t: System, id: nat, fp: Footprint, now: Clock)
    requires SameSight(s, t, id, fp) && DbInv(s.db) && DbInv(t.db)
    ensures Alike(s, CallOf(s, id, now, fp.forged), t, CallOf(t, id, now, fp.forged), id, fp)
  {
    var k := s.tasks[id];
    if k.MutateLookup? || k.LockedLookup? || k.LoadingUpdates? || k.ReadingHead? || k.Committing? {
      MutateAlike(s, t, id, fp, now);
    } else if k.ReadingAccess? || k.PlanLookup? || k.ReadingVersion? {
      PlanAlike(s, t, id, fp);
    } else if !k.ReadingCatalog? {
      FactAlike(s, t, id, fp);
    }
  }

  // ------------------------------------------------------ steps taken elsewhere

  /** The two facts are about different claims and cannot be rivals. */
  predicate FactElsewhere(app: string, p: FactProjection, caller: string, fact: AssertFact) {
    || app != caller || p.community != fact.community
    || (p.claim != fact.claim &&
        (p.topic.subject != fact.topic.subject || p.topic.predicateName != fact.topic.predicateName))
  }

  /** A commit to another document, under another key, of another claim and plan. */
  predicate CommitElsewhere(c: LocalCommit, fp: Footprint) {
    && c.document != fp.document && c.record.hash != fp.forged.hash
    && (c.command.caller, c.command.key) != (fp.command.caller, fp.command.key)
    && (forall p :: p in c.projections ==>
          match fp.subject
          case Plain => true
          case OnFact(fact) => p.FactRevision? ==> FactElsewhere(c.document.app, p.fact, fp.command.caller, fact)
          case OnPlan(community) => p.Planning? ==> c.document.community != community)
  }

  /** A step of somebody else that keeps off the footprint. */
  predicate Elsewhere(s: System, l: Label, id: nat, fp: Footprint) {
    match l
    case Begin(other, _) => other != id
    case Abandon(other) => other != id
    case ReadPage(other, _) => other != id
    case Call(other, _, _) =>
      other != id &&
      (other in s.tasks && s.tasks[other].Committing? ==> CommitElsewhere(s.tasks[other].commit, fp))
    case Register(r) =>
      fp.subject.OnFact? ==> r.key != Facts.SchemaOf(fp.command.caller, fp.subject.fact.topic)
    case Grant(app, community, _) => fp.subject == OnPlan(community) ==> app != fp.command.caller
    case _ => true
  }

  lemma RowsStay(d: Documents, c: LocalCommit, now: int, fp: Footprint)
    requires c.document != fp.document && c.record.log == LogId(c.document) && c.record.hash != fp.forged.hash
    requires (c.command.caller, c.command.key) != (fp.command.caller, fp.command.key)
    ensures var d' := Docs.Committed(d, c, now);
            && RowsOf(d'.updates, fp.document) == RowsOf(d.updates, fp.document)
            && HeadOf(d', fp.forged.author, LogId(fp.document)) == HeadOf(d, fp.forged.author, LogId(fp.document))
            && KeyAt(d', fp.command) == KeyAt(d, fp.command)
            && (HashTaken(d'.operations, fp.forged.hash) <==> HashTaken(d.operations, fp.forged.hash))
  {
    Docs.RowsOfAppend(d.updates, UpdateRowOf(c, now), fp.document);
    var d' := Docs.Committed(d, c, now);
    assert d'.operations == d.operations + [OperationRow(c, now)];
    if o :| o in d.operations && o.hash == fp.forged.hash { assert o in d'.operations; }
  }

  /** A write about another claim changes neither this claim nor its rivals. */
  lemma ClaimStays(f: Database.Facts, f': Database.Facts, r: Revision, hash: Hash, key: FactKey, topic: FactTopic)
    requires Facts.Writes(f, f', r, hash) && Facts.Follows(f, r) && r.key != key
    requires r.key.app == key.app && r.key.community == key.community ==>
               r.topic.subject != topic.subject || r.topic.predicateName != topic.predicateName
    ensures ClaimAt(f', key) == ClaimAt(f, key)
    ensures ActiveConflict(f'.claims, key, topic) <==> ActiveConflict(f.claims, key, topic)
  {
    if ActiveConflict(f.claims, key, topic) {
      var other :| other in f.claims && other.app == key.app && other.community == key.community &&
        other.claim != key.claim && f.claims[other].topic.subject == topic.subject &&
        f.claims[other].topic.predicateName == topic.predicateName && !f.claims[other].retracted;
      assert other in f'.claims && f'.claims[other] == f.claims[other];
    }
  }

  lemma AboutStays(db: Db, c: LocalCommit, now: Clock, fp: Footprint)
    requires Facts.Ledger(db.docs.operations, db.facts) && Facts.Grounded(db.docs.operations, db.facts)
    requires ProjectionsReady(db, c.document, c.projections) && CommitLocal(db, c, now).Ok? && CommitElsewhere(c, fp)
    ensures AboutOf(CommitLocal(db, c, now).value, fp.command.caller, fp.subject) ==
              AboutOf(db, fp.command.caller, fp.subject)
  {
    var db' := CommitLocal(db, c, now).value;
    CommitParts(db, c, now, db');
    if |c.projections| == 1 {
      assert c.projections[0] in c.projections && ProjectionReady(db, c.document, c.projections[0]);
      match fp.subject {
        case Plain =>
        case OnFact(fact) =>
          if c.projections[0].FactRevision? {
            FactAboutStays(db, c, now, c.projections[0].fact, fp.command.caller, fact);
          }
        case OnPlan(community) =>
          if c.projections[0].Planning? { PlanStays(db, c, c.projections[0].write, db'.plans, community); }
      }
    }
  }

  lemma PlanStays(db: Db, c: LocalCommit, write: PlanningWrite, plans': Database.Plans, community: string)
    requires ApplyPlanning(db.plans, db.grants, PlanKey(c.document.app, c.document.community), c.record.hash, write) ==
               Ok(plans')
    requires c.document.community != community
    ensures PlanOf(plans', PlanKey(PLANNING_NAMESPACE, community)) ==
              PlanOf(db.plans, PlanKey(PLANNING_NAMESPACE, community))
  {
  }

  lemma FactAboutStays(db: Db, c: LocalCommit, now: Clock, p: FactProjection, caller: string, fact: AssertFact)
    requires Facts.Ledger(db.docs.operations, db.facts) && Facts.Grounded(db.docs.operations, db.facts)
    requires !HashTaken(db.docs.operations, c.record.hash) && Facts.FactReady(db.facts, c.document.app, p)
    requires ApplyFact(db.facts, c.document.app, c.record.author, c.record.hash, p, now).Ok?
    requires FactElsewhere(c.document.app, p, caller, fact)
    ensures var f' := ApplyFact(db.facts, c.document.app, c.record.author, c.record.hash, p, now).value;
            var key := FactKey(caller, fact.community, fact.claim);
            && ClaimAt(f', key) == ClaimAt(db.facts, key) && f'.schemas == db.facts.schemas
            && (ActiveConflict(f'.claims, key, fact.topic) <==> ActiveConflict(db.facts.claims, key, fact.topic))
  {
    var f' := ApplyFact(db.facts, c.document.app, c.record.author, c.record.hash, p, now).value;
    var r := Facts.ApplyWrites(db.docs.operations, OperationRow(c, now), db.facts, c.document.app, p, now, f');
    ClaimStays(db.facts, f', r, c.record.hash, FactKey(caller, fact.community, fact.claim), fact.topic);
  }

  lemma CommitKeepsView(db: Db, c: LocalCommit, now: Clock, fp: Footprint)
    requires Facts.Ledger(db.docs.operations, db.facts) && Facts.Grounded(db.docs.operations, db.facts)
    requires ProjectionsReady(db, c.document, c.projections) && c.record.log == LogId(c.document)
    requires CommitLocal(db, c, now).Ok? && CommitElsewhere(c, fp)
    ensures ViewOf(CommitLocal(db, c, now).value, fp) == ViewOf(db, fp)
  {
    CommitParts(db, c, now, CommitLocal(db, c, now).value);
    RowsStay(db.docs, c, now, fp);
    AboutStays(db, c, now, fp);
  }

  /** A commit in flight, as far as its effects elsewhere go. */
  lemma CommitInFlight(s: System, other: nat)
    requires Inv(s) && other in s.tasks && s.tasks[other].Committing?
    ensures var c := s.tasks[other].commit;
            ProjectionsReady(s.db, c.document, c.projections) && c.record.log == LogId(c.document)
  {
    assert TaskInv(s.db, s.tasks[other]);
  }

  lemma OtherCallKeepsTask(s: System, other: nat, now: Clock, forged: Forged, id: nat)
    requires other in s.tasks && id in s.tasks && other != id
    ensures id in CallOf(s, other, now, forged).tasks && CallOf(s, other, now, forged).tasks[id] == s.tasks[id]
  {
  }

  lemma OtherPageKeeps(s: System, other: nat, page: Page, id: nat)
    requires ReadsTable(s, other, Turn(page)) && id in s.tasks && other != id
    ensures var s' := ReadTable(s, other, page);
            id in s'.tasks && s'.tasks[id] == s.tasks[id] && s'.db == s.db
  {
  }

  lemma OtherCallKeepsView(s: System, other: nat, now: Clock, forged: Forged, fp: Footprint)
    requires Inv(s) && other in s.tasks
    requires s.tasks[other].Committing? ==> CommitElsewhere(s.tasks[other].commit, fp)
    ensures ViewOf(CallOf(s, other, now, forged).db, fp) == ViewOf(s.db, fp)
  {
    Theorems.CallWritesClaims(s, other, now, forged);
    if CallOf(s, other, now, forged).db != s.db {
      Theorems.ReachedLedger(s);
      CommitInFlight(s, other);
      CommitKeepsView(s.db, s.tasks[other].commit, now, fp);
    }
  }

  /** What the request has in sight. */
  ghost predicate Spared(s: System, s': System, id: nat, fp: Footprint)
    requires id in s.tasks
  {
    id in s'.tasks && s'.tasks[id] == s.tasks[id] && ViewOf(s'.db, fp) == ViewOf(s.db, fp)
  }

  lemma OtherCallSpares(s: System, l: Label, id: nat, fp: Footprint)
    requires Inv(s) && id in s.tasks && l.Call? && Elsewhere(s, l, id, fp)
    ensures Spared(s, Next(s, l), id, fp)
  {
    if l.id in s.tasks {
      OtherCallKeepsTask(s, l.id, l.now, l.forged, id);
      OtherCallKeepsView(s, l.id, l.now, l.forged, fp);
    }
  }

  lemma RegisterSpares(s: System, r: Registration, id: nat, fp: Footprint)
    requires id in s.tasks
    requires fp.subject.OnFact? ==> r.key != Facts.SchemaOf(fp.command.caller, fp.subject.fact.topic)
    ensures Spared(s, Registered(s, r), id, fp)
  {
  }

  lemma GrantSpares(s: System, app: string, community: string, access: Access, id: nat, fp: Footprint)
    requires id in s.tasks && (fp.subject == OnPlan(community) ==> app != fp.command.caller)
    ensures Spared(s, Granted(s, app, community, access), id, fp)
  {
  }

  lemma DeliverySpares(s: System, l: Label, id: nat, fp: Footprint)
    requires id in s.tasks && (l.ClaimRows? || l.Settle?)
    ensures Spared(s, Next(s, l), id, fp)
  {
    var s' := Next(s, l);
    assert s'.tasks == s.tasks && s'.db == s.db.(deliveries := s'.db.deliveries);
  }

  /** A step elsewhere leaves the request where it was, and all that it can see. */
  lemma ElsewhereSpares(s: System, l: Label, id: nat, fp: Footprint)
    requires Inv(s) && id in s.tasks && Elsewhere(s, l, id, fp)
    ensures Spared(s, Next(s, l), id, fp)
  {
    match l {
      case Begin(other, _) =>
      case Abandon(other) =>
      case ReadPage(other, page) =>
        if ReadsTable(s, other, Turn(page)) { OtherPageKeeps(s, other, page, id); }
      case Call(_, _, _) => OtherCallSpares(s, l, id, fp);
      case Register(r) => RegisterSpares(s, r, id, fp);
      case Grant(app, community, access) => GrantSpares(s, app, community, access, id, fp);
      case _ => DeliverySpares(s, l, id, fp);
    }
  }

  // --------------------------------------------------------------- whole runs

  /** What becomes of a request in flight. */
  ghost function FateOf(s: System, labels: seq<Label>, id: nat): Fate
    requires id in s.tasks
    decreases |labels|
  {
    if labels == [] then Going(s.tasks[id])
    else
      var s' := Next(s, labels[0]);
      if id in s'.tasks then FateOf(s', labels[1..], id) else Outcome(s, s', id)
  }

  /** As long as the request is in flight, every step is its own or keeps off. */
  ghost predicate KeptApart(s: System, labels: seq<Label>, id: nat, fp: Footprint)
    requires id in s.tasks
    decreases |labels|
  {
    labels != [] ==>
      var s' := Next(s, labels[0]);
      && (IsOwn(labels[0], id, fp.forged) || Elsewhere(s, labels[0], id, fp))
      && (id in s'.tasks ==> KeptApart(s', labels[1..], id, fp))
  }

  /** The request's own labels, in order. */
  function Own(labels: seq<Label>, id: nat, forged: Forged): seq<Label> {
    if labels == [] then []
    else
      var rest := Own(labels[1..], id, forged);
      if IsOwn(labels[0], id, forged) then [labels[0]] + rest else rest
  }

  /** Whatever happens elsewhere between its calls, a request meets the fate it meets when
      nothing happens between them. */
  lemma {:induction false} ApartIsAlone(s: System, t: System, labels: seq<Label>, id: nat, fp: Footprint)
    requires Inv(s) && Inv(t) && SameSight(s, t, id, fp) && KeptApart(s, labels, id, fp)
    ensures FateOf(s, labels, id) == FateOf(t, Own(labels, id, fp.forged), id)
    decreases |labels|
  {
    if labels != [] {
      var l, rest := labels[0], labels[1..];
      NextKeepsInv(s, l);
      if IsOwn(l, id, fp.forged) {
        NextKeepsInv(t, l);
        OwnStepAlike(s, t, id, fp, l);
        if id in Next(s, l).tasks {
          StillSame(s, Next(s, l), t, Next(t, l), id, fp);
          ApartIsAlone(Next(s, l), Next(t, l), rest, id, fp);
        }
        OwnFirst(s, t, labels, id, fp);
      } else {
        ElsewhereSpares(s, l, id, fp);
        ApartIsAlone(Next(s, l), t, rest, id, fp);
      }
    }
  }

  lemma StillSame(s: System, s': System, t: System, t': System, id: nat, fp: Footprint)
    requires SameSight(s, t, id, fp) && Alike(s, s', t, t', id, fp) && id in s'.tasks
    ensures SameSight(s', t', id, fp)
  {
  }

  lemma OwnFirst(s: System, t: System, labels: seq<Label>, id: nat, fp: Footprint)
    requires id in s.tasks && id in t.tasks && labels != [] && IsOwn(labels[0], id, fp.forged)
    requires
      var s', t' := Next(s, labels[0]), Next(t, labels[0]);
      && Outcome(s, s', id) == Outcome(t, t', id)
      && (id in s'.tasks ==> FateOf(s', labels[1..], id) == FateOf(t', Own(labels[1..], id, fp.forged), id))
    ensures FateOf(s, labels, id) == FateOf(t, Own(labels, id, fp.forged), id)
  {
    var own := Own(labels, id, fp.forged);
    assert own[0] == labels[0] && own[1..] == Own(labels[1..], id, fp.forged);
  }

  // ------------------------------------------------------ requests that commit

  lemma OwnStepAnswers(s: System, id: nat, l: Label, forged: Forged)
    requires id in s.tasks && IsOwn(l, id, forged)
    ensures var s' := Next(s, l);
            && (id in s'.tasks ==> s'.answers == s.answers)
            && (id !in s'.tasks ==> s'.answers == s.answers || s'.answers == s.answers + [s'.answers[|s.answers|]])
  {
  }

  /** Calls of a request that is gone do nothing. */
  lemma {:induction false} GoneStays(s: System, labels: seq<Label>, id: nat, now: Clock, forged: Forged)
    requires id !in s.tasks && Alone(labels, id, now, forged)
    ensures After(s, labels) == s
  {
    if labels != [] {
      var front, l := labels[..|labels| - 1], labels[|labels| - 1];
      assert forall k :: k in front ==> k in labels;
      GoneStays(s, front, id, now, forged);
      assert l in labels;
    }
  }

  /** The fate of a request alone shows in its task and in the answers. */
  ghost predicate Shows(fate: Fate, s: System, s': System, id: nat) {
    match fate
    case Going(t) => id in s'.tasks && s'.tasks[id] == t && s'.answers == s.answers
    case Gave(a) => id !in s'.tasks && s'.answers == s.answers + [a]
    case Ended => id !in s'.tasks && s'.answers == s.answers
  }

  lemma AfterFirst(s: System, labels: seq<Label>)
    requires labels != []
    ensures After(s, labels) == After(Next(s, labels[0]), labels[1..])
  {
    assert labels == [labels[0]] + labels[1..];
    AfterSplit(s, [labels[0]], labels[1..]);
    AfterOne(s, labels[0]);
  }

  lemma {:induction false} FateShows(s: System, labels: seq<Label>, id: nat, now: Clock, forged: Forged)
    requires id in s.tasks && Alone(labels, id, now, forged)
    ensures Shows(FateOf(s, labels, id), s, After(s, labels), id)
    decreases |labels|
  {
    if labels != [] {
      var s', rest := Next(s, labels[0]), labels[1..];
      assert labels[0] in labels && forall l :: l in rest ==> l in labels;
      AfterFirst(s, labels);
      OwnStepAnswers(s, id, labels[0], forged);
      if id in s'.tasks {
        FateShows(s', rest, id, now, forged);
      } else {
        GoneStays(s', rest, id, now, forged);
      }
    }
  }

  /** However the request's calls are interleaved with steps elsewhere, it gives this
      answer. */
  ghost predicate Certain(s: System, id: nat, calls: seq<Label>, fp: Footprint, answer: Answer)
    requires id in s.tasks
  {
    forall labels :: Own(labels, id, fp.forged) == calls && KeptApart(s, labels, id, fp) ==>
      FateOf(s, labels, id) == Gave(answer)
  }

  lemma EntersFirst(s: System, id: nat, entry: Task, more: seq<Label>, now: Clock, forged: Forged)
    requires Inv(s) && id !in s.tasks && Starts(entry) && Entered(more, id, entry, now, forged)
    ensures After(s, more) == After(Goto(s, id, entry), more[1..]) && Inv(Goto(s, id, entry))
  {
    assert Next(s, more[0]) == Goto(s, id, entry);
    NextKeepsInv(s, more[0]);
    AfterFirst(s, more);
  }

  lemma AloneGives(s: System, id: nat, calls: seq<Label>, now: Clock, forged: Forged, answer: Answer)
    requires id in s.tasks && Alone(calls, id, now, forged)
    requires After(s, calls).answers == s.answers + [answer]
    ensures FateOf(s, calls, id) == Gave(answer)
  {
    FateShows(s, calls, id, now, forged);
    ShownGiven(FateOf(s, calls, id), s, After(s, calls), id, answer);
  }

  lemma ShownGiven(fate: Fate, s: System, s': System, id: nat, answer: Answer)
    requires Shows(fate, s, s', id) && s'.answers == s.answers + [answer]
    ensures fate == Gave(answer)
  {
    assert s'.answers[|s.answers|] == answer;
  }

  lemma GivenIsCertain(s: System, id: nat, calls: seq<Label>, fp: Footprint, answer: Answer)
    requires Inv(s) && id in s.tasks && Fits(s.tasks[id], fp) && FateOf(s, calls, id) == Gave(answer)
    ensures Certain(s, id, calls, fp, answer)
  {
    forall labels | Own(labels, id, fp.forged) == calls && KeptApart(s, labels, id, fp)
      ensures FateOf(s, labels, id) == Gave(answer)
    {
      ApartIsAlone(s, s, labels, id, fp);
    }
  }

  /** What a request achieves alone it achieves among others that keep apart. */
  lemma AloneIsCertain(s: System, id: nat, entry: Task, more: seq<Label>, c: LocalCommit, now: Clock, fp: Footprint)
    requires Inv(s) && id !in s.tasks && Starts(entry) && Fits(entry, fp)
    requires Entered(more, id, entry, now, fp.forged) && CommitLocal(s.db, c, now).Ok?
    requires After(s, more) == Committed(s, id, c, now)
    ensures Certain(Goto(s, id, entry), id, more[1..], fp, Answer(c.command, c.response))
  {
    EntersFirst(s, id, entry, more, now, fp.forged);
    AloneGives(Goto(s, id, entry), id, more[1..], now, fp.forged, Answer(c.command, c.response));
    GivenIsCertain(Goto(s, id, entry), id, more[1..], fp, Answer(c.command, c.response));
  }

  /** A mutation is committed and answered with the next revision of its document, whatever
      requests on other documents, claims, plans, deliveries and grants do between its
      calls. */
  lemma MutationAmongOthers(past: seq<Label>, id: nat, w: Write, forged: Forged, now: Clock) returns (calls: seq<Label>)
    requires var s := Run(past);
             && id !in s.tasks && Starts(MutateLookup(w)) && Expects(s.db.docs, w)
             && HeadRoom(s.db.docs, w.document, forged.author) && Unused(s.db.docs, w.command, forged.hash)
    ensures Alone(calls, id, now, forged)
    ensures var s := Run(past);
            var response := Fresh(s.db.docs, w, forged).response;
            && response.operation == forged.hash && response.revision == |RowsOf(s.db.docs.updates, w.document)| + 1
            && Certain(Goto(s, id, MutateLookup(w)), id, calls, Footprint(w.command, w.document, forged, Plain),
                 Answer(w.command, response))
  {
    RunInv(past);
    var s := Run(past);
    var more := UndisturbedMutationCommits(s, id, w, forged, now);
    AloneIsCertain(s, id, MutateLookup(w), more, Fresh(s.db.docs, w, forged), now,
        Footprint(w.command, w.document, forged, Plain));
    calls := more[1..];
  }

  /** So is an assertion that the handler allows, among requests on other claims that are
      no rivals of it. */
  lemma AssertionAmongOthers(past: seq<Label>, id: nat, command: Command, fact: AssertFact, schema: FactSchema,
          forged: Forged, now: Clock)
    returns (calls: seq<Label>)
    requires id !in Run(past).tasks && AssertionAllowed(Run(past), command, fact, schema)
    requires var w := AssertionWrite(Run(past), command, fact, schema);
             && HeadRoom(Run(past).db.docs, w.document, forged.author)
             && Unused(Run(past).db.docs, command, forged.hash)
    ensures Alone(calls, id, now, forged)
    ensures var s := Run(past);
            var w := AssertionWrite(s, command, fact, schema);
            Certain(Goto(s, id, FactLookup(command, fact)), id, calls,
                    Footprint(command, w.document, forged, OnFact(fact)),
                    Answer(command, Fresh(s.db.docs, w, forged).response))
  {
    RunInv(past);
    var s := Run(past);
    var w := AssertionWrite(s, command, fact, schema);
    var more := UndisturbedAssertionCommits(s, id, command, fact, schema, forged, now);
    AloneIsCertain(s, id, FactLookup(command, fact), more, Fresh(s.db.docs, w, forged), now,
        Footprint(command, w.document, forged, OnFact(fact)));
    calls := more[1..];
  }

  /** And a planning put that keeps its plan consistent, among requests on other plans. */
  lemma PutAmongOthers(past: seq<Label>, id: nat, command: Command, community: string, row: PlanningRow,
          forged: Forged, now: Clock)
    returns (calls: seq<Label>)
    requires var s := Run(past);
             && id !in s.tasks && command.caller != PLANNING_NAMESPACE
             && MayWrite(s.db.grants, command.caller, community)
             && Plans.PlanOk(Upsert(PlanAt(s, community), row)) && PlanAt(s, community).version < I64_MAX
    requires var w := PlanWrite(command, community, row, PlanAt(Run(past), community).version);
             && HeadRoom(Run(past).db.docs, w.document, forged.author)
             && Unused(Run(past).db.docs, command, forged.hash)
    ensures Alone(calls, id, now, forged)
    ensures var s := Run(past);
            var w := PlanWrite(command, community, row, PlanAt(s, community).version);
            Certain(Goto(s, id, ReadingAccess(command, community, row)), id, calls,
                    Footprint(command, w.document, forged, OnPlan(community)),
                    Answer(command, Fresh(s.db.docs, w, forged).response))
  {
    RunInv(past);
    var s := Run(past);
    var w := PlanWrite(command, community, row, PlanAt(s, community).version);
    var more := UndisturbedPutCommits(s, id, command, community, row, forged, now);
    AloneIsCertain(s, id, ReadingAccess(command, community, row), more, Fresh(s.db.docs, w, forged), now,
        Footprint(command, w.document, forged, OnPlan(community)));
    calls := more[1..];
  }
}
