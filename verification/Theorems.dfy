/** What the store promises, stated for every reachable state and every step. */
module Theorems {
  import opened Wrappers
  import opened Domain
  import opened Database
  import opened Protocol
  import opened Safety
  import Docs = DocumentLog
  import Facts = FactLedger
  import Plans = PlanningCatalog
  import Outbox
  import Json = JsonSchema

  // ---------------------------------------------------------------- documents

  /** No update is lost: each was staged from all the updates its document had when it
      was committed, although the updates and the head are read in separate calls. */
  lemma NoLostUpdate(labels: seq<Label>)
    ensures var updates := Run(labels).db.docs.updates;
            forall i :: 0 <= i < |updates| ==>
                updates[i].update.base == Payloads(RowsOf(updates[..i], updates[i].document))
  {
    RunInv(labels);
    var updates := Run(labels).db.docs.updates;
    forall i | 0 <= i < |updates| ensures updates[i].update.base ==
        Payloads(RowsOf(updates[..i], updates[i].document)) {
      assert Docs.StagedFromAll(updates, i);
    }
  }

  /** The entries of a log in order: sequence numbers from zero without a gap, each
      backlink the hash of the entry before. */
  ghost predicate GaplessChain(log: seq<Operation>) {
    forall j :: 0 <= j < |log| ==> log[j].sequence == j && log[j].backlink == Docs.BacklinkTo(log[..j])
  }

  lemma GaplessSnoc(earlier: seq<Operation>, last: Operation)
    requires GaplessChain(earlier) && last.sequence == |earlier| && last.backlink == Docs.BacklinkTo(earlier)
    ensures GaplessChain(earlier + [last])
  {
  }

  lemma {:induction false} LogIsGapless(operations: seq<Operation>, author: Hash, log: LogId)
    requires forall i :: 0 <= i < |operations| ==> Docs.Continues(operations, i)
    ensures GaplessChain(Docs.LogOf(operations, author, log))
  {
    if operations != [] {
      var front := operations[..|operations| - 1];
      forall i | 0 <= i < |front| ensures Docs.Continues(front, i) {
        assert Docs.Continues(operations, i);
        assert front[..i] == operations[..i];
      }
      LogIsGapless(front, author, log);
      var last, earlier := operations[|operations| - 1], Docs.LogOf(front, author, log);
      assert Docs.Continues(operations, |operations| - 1);
      if last.author == author && last.log == log { GaplessSnoc(earlier, last); }
    }
  }

  /** Every author's log of every document is one gapless chain from 0 to its head. */
  lemma LogsAreChains(labels: seq<Label>, author: Hash, log: LogId)
    ensures var docs := Run(labels).db.docs;
            var entries := Docs.LogOf(docs.operations, author, log);
            && GaplessChain(entries)
            && HeadOf(docs, author, log) == (if entries == [] then None
                else Some(LogHead(|entries| - 1, entries[|entries| - 1].hash)))
  {
    RunInv(labels);
    LinkedLog(Run(labels).db.docs, author, log);
  }

  lemma LinkedLog(docs: Documents, author: Hash, log: LogId)
    requires Docs.LogsLinked(docs)
    ensures GaplessChain(Docs.LogOf(docs.operations, author, log))
    ensures HeadOf(docs, author, log) == Docs.TipOf(Docs.LogOf(docs.operations, author, log))
  {
    LogIsGapless(docs.operations, author, log);
  }

  /** The operation, update, change-feed, outbox and idempotency rows correspond one to
      one, whatever committed and whatever failed. */
  lemma RowsCorrespond(labels: seq<Label>)
    ensures var d := Run(labels).db.docs;
            && |d.operations| == |d.updates| == |d.changes| == |d.outbox|
            && Docs.DistinctHashes(d.operations)
            && (forall i :: 0 <= i < |d.operations| ==> Docs.SameOperation(d, i))
            && Docs.KeysMatch(d.idempotency, d.operations)
            && (forall k :: k in d.idempotency ==> Docs.Answered(d, d.idempotency[k].response))
  {
    RunInv(labels);
  }

  // ------------------------------------------------------------- exactly once

  /** The request a task works for. */
  function CommandOf(t: Task): Command {
    match t
    case MutateLookup(w) => w.command
    case LockedLookup(w) => w.command
    case LoadingUpdates(w) => w.command
    case ReadingHead(w, _) => w.command
    case Committing(c) => c.command
    case FactLookup(command, _) => command
    case ReadingSchema(command, _) => command
    case FactRelookup(command, _, _) => command
    case ReadingPrevious(command, _, _) => command
    case ReadingConflict(command, _, _, _) => command
    case ReadingAccess(command, _, _) => command
    case PlanLookup(command, _, _) => command
    case ReadingVersion(command, _, _) => command
    case ReadingCatalog(command, _, _, _, _) => command
  }

  /** All the successful responses ever given for one caller and key are the same
      response to the same request, and it reports one committed operation. */
  lemma ExactlyOnce(labels: seq<Label>, a: Answer, b: Answer)
    requires a in Run(labels).answers && b in Run(labels).answers
    requires a.command.caller == b.command.caller && a.command.key == b.command.key
    ensures a == b
    ensures |Run(labels).db.docs.operations| == |Run(labels).db.docs.updates| &&
              ReportsOne(Run(labels).db.docs, a.response)
  {
    RunInv(labels);
    StoredAnswersReport(Run(labels).db.docs, Run(labels).answers, a);
    StoredAnswersReport(Run(labels).db.docs, Run(labels).answers, b);
  }

  /** The response names one committed operation and gives the number and the replayed
      state of the updates its document had right after it. */
  ghost predicate ReportsOne(docs: Documents, response: Response)
    requires |docs.operations| == |docs.updates|
  {
    exists i :: 0 <= i < |docs.operations| && Docs.Reports(docs, response, i)
  }

  lemma StoredAnswersReport(docs: Documents, answers: seq<Answer>, a: Answer)
    requires Docs.TablesAligned(docs) && Docs.KeyedOnce(docs) && AnswersInv(docs, answers) && a in answers
    ensures AnswerStored(docs, a) && ReportsOne(docs, a.response)
  {
  }

  /** The revision a client is given is the sequence number of its operation plus one
      exactly when nobody else had written the document. */
  lemma AcknowledgedRevision(labels: seq<Label>, a: Answer) returns (i: nat)
    requires a in Run(labels).answers
    ensures var docs := Run(labels).db.docs;
            && i < |docs.operations| && docs.operations[i].hash == a.response.operation
            && a.response.revision >= docs.operations[i].sequence + 1
            && (a.response.revision == docs.operations[i].sequence + 1 <==>
                  Docs.SoleAuthor(docs.operations, i, docs.operations[i].author, docs.operations[i].document))
  {
    RunInv(labels);
    var docs := Run(labels).db.docs;
    StoredAnswersReport(docs, Run(labels).answers, a);
    i :| 0 <= i < |docs.operations| && Docs.Reports(docs, a.response, i);
    Docs.RevisionIsSequencePlusOne(docs, a.response, i);
  }

  /** Two different keys never report the same operation. */
  lemma OneKeyPerOperation(labels: seq<Label>, a: Answer, b: Answer)
    requires a in Run(labels).answers && b in Run(labels).answers
    requires a.response.operation == b.response.operation
    ensures a == b
  {
    RunInv(labels);
    var docs := Run(labels).db.docs;
    assert AnswerStored(docs, a) && AnswerStored(docs, b);
    var k, k' := (a.command.caller, a.command.key), (b.command.caller, b.command.key);
    assert docs.idempotency[k].response.operation == docs.idempotency[k'].response.operation;
  }

  /** The step leaves the store alone and answers the request, if at all, with the
      response stored for it. */
  ghost predicate OnlyReplays(s: System, c: Command, s': System)
    requires (c.caller, c.key) in s.db.docs.idempotency
  {
    var stored := s.db.docs.idempotency[(c.caller, c.key)];
    && s'.db == s.db
    && (s'.answers == s.answers ||
        (c.requestHash == stored.requestHash && s'.answers == s.answers + [Answer(c, stored.response)]))
  }

  /** Once a caller's key has a stored response, no further step of a request under that
      key changes the store, wherever the request stood when the response was stored; a
      request with another digest is never answered. */
  lemma UsedKeyChangesNothing(s: System, l: Label)
    requires (l.Call? || l.ReadPage?) && l.id in s.tasks
    requires (CommandOf(s.tasks[l.id]).caller, CommandOf(s.tasks[l.id]).key) in s.db.docs.idempotency
    ensures OnlyReplays(s, CommandOf(s.tasks[l.id]), Next(s, l))
  {
  }

  /** The task makes an idempotency lookup next. */
  predicate LooksUp(t: Task) {
    t.MutateLookup? || t.LockedLookup? || t.FactLookup? || t.FactRelookup? || t.PlanLookup?
  }

  /** What a lookup under a used key makes of a request: the stored response for the
      same digest, a refusal for another. */
  function Replayed(s: System, id: nat, c: Command): System
    requires (c.caller, c.key) in s.db.docs.idempotency
  {
    var stored := s.db.docs.idempotency[(c.caller, c.key)];
    if c.requestHash == stored.requestHash
    then s.(tasks := s.tasks - {id}, answers := s.answers + [Answer(c, stored.response)])
    else s.(tasks := s.tasks - {id})
  }

  /** Every lookup under a used key ends the request with the stored response, or refuses
      it if its digest is another. */
  lemma LookupReplays(s: System, id: nat, now: Clock, forged: Forged)
    requires id in s.tasks && LooksUp(s.tasks[id])
    requires (CommandOf(s.tasks[id]).caller, CommandOf(s.tasks[id]).key) in s.db.docs.idempotency
    ensures Next(s, Call(id, now, forged)) == Replayed(s, id, CommandOf(s.tasks[id]))
  {
  }

  /** A later mutation or assertion under a used key is answered by its first call: with
      the stored response exactly when it is the same request. A planning put under a used
      key is answered by its second call, exactly when its caller still may write. */
  lemma RetryReplays(s: System, id: nat, t: Task, now: Clock, forged: Forged)
    requires id !in s.tasks && Starts(t) && (CommandOf(t).caller, CommandOf(t).key) in s.db.docs.idempotency
    ensures var first := Next(Next(s, Begin(id, t)), Call(id, now, forged));
            var second := Next(first, Call(id, now, forged));
            if t.ReadingAccess?
            then second == if MayWrite(s.db.grants, t.command.caller, t.community) then Replayed(s, id, t.command)
                else s
            else first == Replayed(s, id, CommandOf(t))
  {
    var begun := Next(s, Begin(id, t));
    assert begun.tasks - {id} == s.tasks && s.tasks - {id} == s.tasks;
    if t.ReadingAccess? {
      var first := Next(begun, Call(id, now, forged));
      assert MayWrite(s.db.grants, t.command.caller, t.community) ==> first.tasks - {id} == s.tasks;
    }
  }

  // -------------------------------------------------------------------- facts

  /** In every reachable state each claim's revisions form one linear history that ends
      in its current row. */
  lemma ClaimsAreChains(labels: seq<Label>, key: FactKey)
    ensures Facts.LinearHistory(Run(labels).db.docs.operations, Run(labels).db.facts, key)
  {
    RunInv(labels);
    ReachedLedger(Run(labels));
    Facts.WholeChain(Run(labels).db.docs.operations, Run(labels).db.facts, key);
  }

  lemma ReachedLedger(s: System)
    requires Inv(s)
    ensures Facts.Ledger(s.db.docs.operations, s.db.facts) && Facts.Grounded(s.db.docs.operations, s.db.facts)
    ensures Docs.DistinctHashes(s.db.docs.operations)
  {
  }

  /** Two active claims share a subject and predicate only if the schema of that
      predicate allows several, across all cores. */
  lemma SingleActiveClaim(labels: seq<Label>, a: FactKey, b: FactKey)
    requires Facts.Rivals(Run(labels).db.facts.claims, a, b)
    ensures Facts.AllowsMany(Run(labels).db.facts, a)
  {
    RunInv(labels);
  }

  /** Every stored revision reads as a valid instance of its registered schema and has a
      status that schema's policy allows; no part of it falls under a boolean or null node,
      which the checker never accepts. */
  lemma RevisionsConform(labels: seq<Label>, h: Hash)
    requires h in Run(labels).db.facts.revisions
    ensures var f := Run(labels).db.facts;
            && Facts.RevisionFits(f.schemas, f.revisions[h])
            && Json.AvoidsBooleanAndNull(f.revisions[h].body.value, f.schemas[Facts.SchemaOf(f.revisions[h].key.app,
                 f.revisions[h].topic)].objectSchema)
  {
    RunInv(labels);
    StoredAvoids(Run(labels).db.facts, h);
  }

  lemma StoredAvoids(f: Database.Facts, h: Hash)
    requires Facts.AllRegistrable(f) && Facts.AllFit(f) && h in f.revisions
    ensures Facts.RevisionFits(f.schemas, f.revisions[h])
    ensures Json.AvoidsBooleanAndNull(f.revisions[h].body.value, f.schemas[Facts.SchemaOf(f.revisions[h].key.app,
              f.revisions[h].topic)].objectSchema)
  {
    var r := f.revisions[h];
    var at := Facts.SchemaOf(r.key.app, r.topic);
    assert Facts.RevisionFits(f.schemas, r);
    assert Registrable(Registration(at, f.schemas[at]));
    Json.SchemaAgreement(r.body.value, f.schemas[at].objectSchema, 0, true);
  }

  /** Only the commit of a request writes claims and revisions. */
  lemma OnlyCommitsWriteClaims(s: System, l: Label)
    ensures (Next(s, l).db.facts.claims == s.db.facts.claims &&
              Next(s, l).db.facts.revisions == s.db.facts.revisions) ||
            (l.Call? && l.id in s.tasks && s.tasks[l.id].Committing? &&
                CommitLocal(s.db, s.tasks[l.id].commit, l.now).Ok?
             && Next(s, l).db == CommitLocal(s.db, s.tasks[l.id].commit, l.now).value)
  {
    match l {
      case Call(id, now, forged) =>
        if id in s.tasks { CallWritesClaims(s, id, now, forged); }
      case Register(r) => RegisteringKeepsClaims(s, r);
      case _ =>
    }
  }

  lemma RegisteringKeepsClaims(s: System, r: Registration)
    ensures Registered(s, r).db.facts.claims == s.db.facts.claims
    ensures Registered(s, r).db.facts.revisions == s.db.facts.revisions
  {
  }

  lemma CallWritesClaims(s: System, id: nat, now: Clock, forged: Forged)
    requires id in s.tasks
    ensures CallOf(s, id, now, forged).db == s.db ||
            (s.tasks[id].Committing? && CommitLocal(s.db, s.tasks[id].commit, now).Ok?
             && CallOf(s, id, now, forged).db == CommitLocal(s.db, s.tasks[id].commit, now).value)
  {
  }

  /** No step moves a claim out of RETRACTED or EXPIRED, even one whose lifecycle check
      was made before another core settled the claim. */
  lemma TerminalStep(s: System, l: Label, key: FactKey)
    requires Inv(s) && key in s.db.facts.claims && Terminal(s.db.facts.claims[key].status)
    ensures key in Next(s, l).db.facts.claims && Next(s, l).db.facts.claims[key] == s.db.facts.claims[key]
  {
    OnlyCommitsWriteClaims(s, l);
    if Next(s, l).db.facts.claims != s.db.facts.claims {
      TerminalCommit(s, l.id, l.now, key);
    }
  }

  lemma TerminalCommit(s: System, id: nat, now: Clock, key: FactKey)
    requires Inv(s) && id in s.tasks && s.tasks[id].Committing?
    requires key in s.db.facts.claims && Terminal(s.db.facts.claims[key].status)
    ensures var r := CommitLocal(s.db, s.tasks[id].commit, now);
            r.Ok? ==> key in r.value.facts.claims && r.value.facts.claims[key] == s.db.facts.claims[key]
  {
    assert TaskInv(s.db, s.tasks[id]);
    if CommitLocal(s.db, s.tasks[id].commit, now).Ok? {
      CommitSparesTerminal(s.db, s.tasks[id].commit, now, CommitLocal(s.db, s.tasks[id].commit, now).value, key);
    }
  }

  lemma CommitSparesTerminal(db: Db, c: LocalCommit, now: Clock, db': Db, key: FactKey)
    requires DbInv(db) && ProjectionsReady(db, c.document, c.projections) && CommitLocal(db, c, now) == Ok(db')
    requires key in db.facts.claims && Terminal(db.facts.claims[key].status)
    ensures key in db'.facts.claims && db'.facts.claims[key] == db.facts.claims[key]
  {
    CommitParts(db, c, now, db');
    if |c.projections| == 1 && c.projections[0].FactRevision? {
      assert ProjectionReady(db, c.document, c.projections[0]);
      var o, p := OperationRow(c, now), c.projections[0].fact;
      var written := Facts.ApplyWrites(db.docs.operations, o, db.facts, c.document.app, p, now, db'.facts);
    }
  }

  /** One more label after a run. */
  lemma RunSnoc(labels: seq<Label>, more: seq<Label>)
    requires more != []
    ensures Run(labels + more) == Next(Run(labels + more[..|more| - 1]), more[|more| - 1])
  {
    assert (labels + more)[..|labels + more| - 1] == labels + more[..|more| - 1];
  }

  lemma {:induction false} TerminalForever(labels: seq<Label>, more: seq<Label>, key: FactKey)
    requires key in Run(labels).db.facts.claims && Terminal(Run(labels).db.facts.claims[key].status)
    ensures key in Run(labels + more).db.facts.claims
    ensures Run(labels + more).db.facts.claims[key] == Run(labels).db.facts.claims[key]
    decreases |more|
  {
    if more == [] {
      assert labels + more == labels;
    } else {
      var front := more[..|more| - 1];
      TerminalForever(labels, front, key);
      RunInv(labels + front);
      RunSnoc(labels, more);
      TerminalStep(Run(labels + front), more[|more| - 1], key);
    }
  }

  /** The fact a projection was built from. */
  function FactOf(p: FactProjection): AssertFact { AssertFact(p.community, p.claim, p.topic, p.body, p.status) }

  /** Everything the handler checks before it stages a fact, on the tables as they are. */
  ghost predicate FactAllowedNow(f: Database.Facts, app: string, p: FactProjection) {
    var key := FactKey(app, p.community, p.claim);
    && Facts.FitsSchema(f.schemas, app, p.topic, p.body)
    && var schema := f.schemas[Facts.SchemaOf(app, p.topic)];
    && FactAccepted(FactOf(p), schema)
    && TransitionAllowed(CurrentRevision(f, key), p.status, schema.lifecycle)
    && (key in f.claims ==> f.claims[key].topic == p.topic)
    && (p.status == Asserted && !schema.multipleActive ==> !ActiveConflict(f.claims, key, p.topic))
  }

  /** What the tables say of a ready revision they have just taken. */
  lemma FactRereads(operations: seq<Operation>, o: Operation, f: Database.Facts, app: string, p: FactProjection,
          now: int)
    requires Facts.Ledger(operations, f) && Facts.Grounded(operations, f) && !HashTaken(operations, o.hash)
    requires Facts.FactReady(f, app, p) && ApplyFact(f, app, o.author, o.hash, p, now).Ok?
    ensures FactAllowedNow(f, app, p)
  {
    var f' := ApplyFact(f, app, o.author, o.hash, p, now).value;
    var r := Facts.ApplyWrites(operations, o, f, app, p, now, f');
  }

  lemma FactCommitRereads(db: Db, c: LocalCommit, now: Clock)
    requires Facts.Ledger(db.docs.operations, db.facts) && Facts.Grounded(db.docs.operations, db.facts)
    requires |c.projections| == 1 && c.projections[0].FactRevision? && CommitLocal(db, c, now).Ok?
    requires Facts.FactReady(db.facts, c.document.app, c.projections[0].fact)
    ensures FactAllowedNow(db.facts, c.document.app, c.projections[0].fact)
  {
    CommitParts(db, c, now, CommitLocal(db, c, now).value);
    FactRereads(db.docs.operations, OperationRow(c, now), db.facts, c.document.app, c.projections[0].fact, now);
  }

  lemma CommitIsReady(s: System, id: nat)
    requires Inv(s) && id in s.tasks && s.tasks[id].Committing?
    ensures ProjectionsReady(s.db, s.tasks[id].commit.document, s.tasks[id].commit.projections)
  {
    assert TaskInv(s.db, s.tasks[id]);
  }

  /** A fact commit that goes through is one the handler would have allowed had it read
      the schema, the claim and its rivals at the instant of the commit. */
  lemma FactCommitIsAtomic(labels: seq<Label>, id: nat, now: Clock)
    requires var s := Run(labels);
             && id in s.tasks && s.tasks[id].Committing?
             && |s.tasks[id].commit.projections| == 1 && s.tasks[id].commit.projections[0].FactRevision?
             && CommitLocal(s.db, s.tasks[id].commit, now).Ok?
    ensures var s := Run(labels);
            FactAllowedNow(s.db.facts, s.tasks[id].commit.document.app, s.tasks[id].commit.projections[0].fact)
  {
    RunInv(labels);
    var s := Run(labels);
    ReachedLedger(s);
    CommitIsReady(s, id);
    FactCommitRereads(s.db, s.tasks[id].commit, now);
  }

  // ----------------------------------------------------------------- planning

  /** Every community's plan is bounded, resolves its references and has no dependency
      cycle, although catalogues are read in five calls that other cores interleave. */
  lemma PlansConsistent(labels: seq<Label>, key: PlanKey)
    ensures Plans.PlanOk(PlanOf(Run(labels).db.plans, key))
  {
    RunInv(labels);
  }

  /** The catalogue a request has when it reads its last table. */
  function CatalogRead(t: Task, page: Page): Plans.Catalog
    requires t.ReadingCatalog?
  {
    Extended(t.catalog, page)
  }

  ghost predicate ReadsLastTable(s: System, id: nat, page: Page) {
    ReadsTable(s, id, 3) && page.Dependencies? && PageOf(PlanAt(s, s.tasks[id].community), page)
  }

  /** The catalogue of five calls, however many commits came between them, is the plan of
      a later state if and only if that plan still has the version read first; and then
      the handler's verdict on it is the right one. */
  lemma CatalogueIsPlanOrStale(labels: seq<Label>, id: nat, page: Page, more: seq<Label>)
    requires ReadsLastTable(Run(labels), id, page)
    ensures var t := Run(labels).tasks[id];
            var c, p := CatalogRead(t, page), PlanAt(Run(labels + more), t.community);
            && (Plans.Whole(p, c) <==> p.version == c.version)
            && (p.version == c.version ==> (Plans.CatalogAccepts(c, t.row) <==> Plans.PlanOk(Upsert(p, t.row))))
  {
    RunInv(labels);
    RunInv(labels + more);
    NothingIsLost(labels, more);
    var s, t := Run(labels), Run(labels).tasks[id];
    CatalogOf(s, id);
    PageFits(PlanAt(s, t.community), t.catalog, page);
    LaterPlan(PlanAt(s, t.community), PlanAt(Run(labels + more), t.community), CatalogRead(t, page), t.row);
  }

  lemma LaterPlan(p: Plan, p': Plan, c: Plans.Catalog, row: PlanningRow)
    requires Plans.CatalogFits(p, c, 4) && (p' == p || p.version < p'.version) && Plans.PlanOk(p')
    ensures Plans.Whole(p', c) <==> p'.version == c.version
    ensures p'.version == c.version ==> (Plans.CatalogAccepts(c, row) <==> Plans.PlanOk(Upsert(p', row)))
  {
    if p'.version == c.version {
      Plans.HandlerExact(p', c, row);
    }
  }

  /** A commit that writes a row into some community's plan. */
  predicate CommitsRow(s: System, id: nat) {
    && id in s.tasks && s.tasks[id].Committing?
    && |s.tasks[id].commit.projections| == 1 && s.tasks[id].commit.projections[0].Planning?
  }

  function RowWrite(s: System, id: nat): PlanningWrite
    requires CommitsRow(s, id)
  {
    s.tasks[id].commit.projections[0].write
  }

  /** A torn catalogue never commits: whenever a commit that carries a catalogue's version
      goes through, that catalogue is the whole plan at the instant of the commit, and
      accepts the row. */
  lemma TornCatalogueNeverCommits(labels: seq<Label>, id: nat, page: Page, more: seq<Label>, writer: nat, now: Clock)
    requires ReadsLastTable(Run(labels), id, page)
    requires var s := Run(labels + more);
             && CommitsRow(s, writer) && CommitLocal(s.db, s.tasks[writer].commit, now).Ok?
             && s.tasks[writer].commit.document.community == Run(labels).tasks[id].community
             && RowWrite(s, writer).expectedVersion == Run(labels).tasks[id].catalog.version
    ensures var t, s := Run(labels).tasks[id], Run(labels + more);
            && Plans.Whole(PlanAt(s, t.community), CatalogRead(t, page))
            && Plans.CatalogAccepts(CatalogRead(t, page), RowWrite(s, writer).row)
  {
    RunInv(labels + more);
    var t, s := Run(labels).tasks[id], Run(labels + more);
    CommitIsReady(s, writer);
    CatalogueIsPlanOrStale(labels, id, page, more);
    CommitNamesVersion(s.db, s.tasks[writer].commit, now);
    PlanningCommitRereads(s.db, s.tasks[writer].commit, now, CatalogRead(t, page));
  }

  lemma CommitNamesVersion(db: Db, c: LocalCommit, now: Clock)
    requires |c.projections| == 1 && c.projections[0].Planning? && CommitLocal(db, c, now).Ok?
    ensures PlanOf(db.plans, PlanKey(c.document.app, c.document.community)).version ==
              c.projections[0].write.expectedVersion
  {
    CommitParts(db, c, now, CommitLocal(db, c, now).value);
  }

  /** A planning commit that goes through is one a handler would have accepted had it
      read the grant and the catalogue at the instant of the commit: there is a whole
      catalogue to read, and every one accepts the row. */
  lemma PlanningCommitIsAtomic(labels: seq<Label>, id: nat, now: Clock) returns (catalog: Plans.Catalog)
    requires CommitsRow(Run(labels), id) && CommitLocal(Run(labels).db, Run(labels).tasks[id].commit, now).Ok?
    ensures var s, write := Run(labels), RowWrite(Run(labels), id);
            var p := PlanAt(s, s.tasks[id].commit.document.community);
            && Plans.Whole(p, catalog) && (forall c :: Plans.Whole(p, c) ==> Plans.CatalogAccepts(c, write.row))
            && MayWrite(s.db.grants, write.app, s.tasks[id].commit.document.community)
  {
    RunInv(labels);
    var s := Run(labels);
    var c := s.tasks[id].commit;
    CommitIsReady(s, id);
    var p := PlanAt(s, c.document.community);
    catalog := Plans.CatalogExists(p);
    forall any | Plans.Whole(p, any)
      ensures Plans.CatalogAccepts(any, c.projections[0].write.row)
      ensures MayWrite(s.db.grants, c.projections[0].write.app, c.document.community)
    {
      PlanningCommitRereads(s.db, c, now, any);
    }
  }

  lemma PlanningCommitRereads(db: Db, c: LocalCommit, now: Clock, catalog: Plans.Catalog)
    requires Plans.PlansInv(db.plans) && ProjectionsReady(db, c.document, c.projections)
    requires |c.projections| == 1 && c.projections[0].Planning? && CommitLocal(db, c, now).Ok?
    requires Plans.Whole(PlanOf(db.plans, PlanKey(c.document.app, c.document.community)), catalog)
    ensures Plans.CatalogAccepts(catalog, c.projections[0].write.row)
    ensures MayWrite(db.grants, c.projections[0].write.app, c.document.community)
    ensures c.document.app == PLANNING_NAMESPACE
  {
    CommitParts(db, c, now, CommitLocal(db, c, now).value);
    var p := PlanOf(db.plans, PlanKey(c.document.app, c.document.community));
    assert ProjectionReady(db, c.document, c.projections[0]);
    assert Plans.PlanReady(p, c.projections[0].write);
    assert Plans.PlanOk(p);
    Plans.HandlerExact(p, catalog, c.projections[0].write.row);
  }

  // ------------------------------------------------------------------- outbox

  /** For any clock: a row's leases have strictly growing attempts and each starts after
      the one before has run out. */
  lemma LeasesAreDisjoint(labels: seq<Label>, i: nat, j: nat)
    requires i < j < |Run(labels).leases|
    requires Outbox.LeaseKey(Run(labels).leases[i]) == Outbox.LeaseKey(Run(labels).leases[j])
    ensures var a, b := Run(labels).leases[i], Run(labels).leases[j];
            a.attempt < b.attempt && a.from <= a.until < b.from
  {
    RunInv(labels);
    var leases := Run(labels).leases;
    assert Outbox.LeaseBefore(leases[i], leases[j]);
    assert Outbox.LeaseRecorded(Run(labels).db.deliveries, leases[i]);
  }

  /** At most one acknowledgement per row and transport ever succeeds; it names the last
      attempt ever leased, arrived within that lease, and the row stays settled. */
  lemma AcknowledgedOnce(labels: seq<Label>, i: nat)
    requires i < |Run(labels).acks|
    ensures var s := Run(labels);
            var a := s.acks[i];
            && (forall j :: 0 <= j < |s.acks| && Outbox.AckKey(s.acks[j]) == Outbox.AckKey(a) ==> j == i)
            && (forall l :: l in s.leases && Outbox.LeaseKey(l) == Outbox.AckKey(a) ==> l.attempt <= a.ack.attempt)
            && (exists l ::
                  l in s.leases && Outbox.LeaseKey(l) == Outbox.AckKey(a) && l.attempt == a.ack.attempt &&
                  a.at <= l.until)
            && Outbox.AckKey(a) in s.db.deliveries
            && s.db.deliveries[Outbox.AckKey(a)].state == Outbox.Settled(a.ack)
  {
    RunInv(labels);
    var s := Run(labels);
    var a := s.acks[i];
    assert Outbox.AckRecorded(s.db.deliveries, s.leases, a);
    forall l | l in s.leases && Outbox.LeaseKey(l) == Outbox.AckKey(a) ensures l.attempt <= a.ack.attempt {
      assert Outbox.LeaseRecorded(s.db.deliveries, l);
    }
  }

  /** In every reachable state a claim considers the most urgent rows its transport may
      claim, oldest first among equals, and as many as the limits allow. */
  lemma UrgentFirst(labels: seq<Label>, transport: string, now: int, limit: nat)
    ensures var db := Run(labels).db;
            var ready := Outbox.Ready(db.docs, db.docs.outbox, db.deliveries, transport, now);
            Outbox.MostUrgent(ready, Outbox.Candidates(db.docs, db.deliveries, transport, now, limit), limit)
  {
    RunInv(labels);
    OutboxIdsGrow(Run(labels).db.docs);
    Outbox.MostUrgentFirst(Run(labels).db.docs, Run(labels).db.deliveries, transport, now, limit);
  }

  /** In every reachable state a claim answers with exactly the selected rows, in order and
      within the byte budget, each under its next attempt; it answers with nothing only if
      no candidate fits, and no delivery row but theirs changes. */
  lemma ClaimIsExact(labels: seq<Label>, transport: string, now: int, limit: nat, maxBytes: nat)
    requires Outbox.ClaimOutbox(Run(labels).db.docs, Run(labels).db.deliveries, transport, now, limit, maxBytes).Ok?
    ensures var db := Run(labels).db;
            Outbox.ClaimExact(db.docs, db.deliveries, transport, now, limit, maxBytes,
                              Outbox.ClaimOutbox(db.docs, db.deliveries, transport, now, limit, maxBytes).value)
  {
    RunInv(labels);
    OutboxRowsDistinct(Run(labels).db.docs);
    Outbox.ClaimAnswers(Run(labels).db.docs, Run(labels).db.deliveries, transport, now, limit, maxBytes);
  }

  // ----------------------------------------------------------- nothing is lost

  lemma GrowsTransitively(a: Db, b: Db, c: Db)
    requires Grows(a, b) && Grows(b, c)
    ensures Grows(a, c)
  {
  }

  lemma CommitGrows(s: System, id: nat, now: Clock)
    requires Inv(s) && id in s.tasks && s.tasks[id].Committing? && CommitLocal(s.db, s.tasks[id].commit, now).Ok?
    ensures Grows(s.db, CommitLocal(s.db, s.tasks[id].commit, now).value)
  {
    assert TaskInv(s.db, s.tasks[id]);
    CommitKeepsDb(s.db, s.tasks[id].commit, now, CommitLocal(s.db, s.tasks[id].commit, now).value);
  }

  /** The transport and grant steps touch neither documents nor facts nor plans. */
  lemma OtherStepsTouchNothing(s: System, l: Label)
    requires !l.Call? && !l.Register?
    ensures Next(s, l).db.docs == s.db.docs && Next(s, l).db.facts == s.db.facts && Next(s, l).db.plans == s.db.plans
  {
  }

  lemma StepGrows(s: System, l: Label)
    requires Inv(s)
    ensures Grows(s.db, Next(s, l).db)
  {
    SameStoreForTasks(s.db);
    if l.Call? {
      if l.id in s.tasks {
        CallWritesClaims(s, l.id, l.now, l.forged);
        if CallOf(s, l.id, l.now, l.forged).db != s.db { CommitGrows(s, l.id, l.now); }
      }
    } else if l.Register? {
      if RegisterSchema(s.db.facts, l.registration).Ok? {
        Facts.RegistrationKeepsFacts(s.db.docs.operations, s.db.facts, l.registration,
            RegisterSchema(s.db.facts, l.registration).value);
      }
    } else {
      OtherStepsTouchNothing(s, l);
    }
  }

  lemma StillGrows(db: Db, s: System, l: Label)
    requires Inv(s) && Grows(db, s.db)
    ensures Grows(db, Next(s, l).db)
  {
    StepGrows(s, l);
    GrowsTransitively(db, s.db, Next(s, l).db);
  }

  /** Whatever happens next, rows stay where they are, stored responses and schemas are
      never replaced, a revision can only become superseded, and a plan that changed
      shows it in its version. */
  lemma {:induction false} NothingIsLost(labels: seq<Label>, more: seq<Label>)
    ensures Grows(Run(labels).db, Run(labels + more).db)
    decreases |more|
  {
    if more == [] {
      assert labels + more == labels;
      SameStoreForTasks(Run(labels).db);
    } else {
      var front := more[..|more| - 1];
      NothingIsLost(labels, front);
      RunInv(labels + front);
      RunSnoc(labels, more);
      StillGrows(Run(labels).db, Run(labels + front), more[|more| - 1]);
    }
  }

  // ------------------------------------------------ how a revision was written

  /** The step from one to the other wrote this revision: it started its claim by
      asserting it, or took over from the current revision, of the same topic and not in a
      terminal state. */
  ghost predicate Wrote(f: Database.Facts, f': Database.Facts, h: Hash) {
    && h !in f.revisions && h in f'.revisions
    && var r := f'.revisions[h];
    && r.status != Superseded
    && match r.supersedes
       case None => r.status == Asserted && r.key !in f.claims
       case Some(previous) =>
         && r.key in f.claims && f.claims[r.key].source == previous
         && f.claims[r.key].topic == r.topic && !Terminal(f.claims[r.key].status)
  }

  lemma WriteIsSuch(f: Database.Facts, f': Database.Facts, r: Revision, hash: Hash, h: Hash)
    requires Facts.Writes(f, f', r, hash) && Facts.Follows(f, r) && h in f'.revisions && h !in f.revisions
    requires r.key in f.claims ==> !Terminal(f.claims[r.key].status)
    ensures Wrote(f, f', h)
  {
    assert h == hash;
  }

  lemma CommitWrote(db: Db, c: LocalCommit, now: Clock, h: Hash)
    requires Facts.Ledger(db.docs.operations, db.facts) && Facts.Grounded(db.docs.operations, db.facts)
    requires ProjectionsReady(db, c.document, c.projections) && CommitLocal(db, c, now).Ok?
    requires h !in db.facts.revisions && h in CommitLocal(db, c, now).value.facts.revisions
    ensures Wrote(db.facts, CommitLocal(db, c, now).value.facts, h)
  {
    var f' := CommitLocal(db, c, now).value.facts;
    CommitParts(db, c, now, CommitLocal(db, c, now).value);
    assert ProjectionReady(db, c.document, c.projections[0]);
    var p := c.projections[0].fact;
    var r := Facts.ApplyWrites(db.docs.operations, OperationRow(c, now), db.facts, c.document.app, p, now, f');
    WriteIsSuch(db.facts, f', r, c.record.hash, h);
  }

  lemma StepWrote(s: System, l: Label, h: Hash)
    requires Inv(s) && h !in s.db.facts.revisions && h in Next(s, l).db.facts.revisions
    ensures Wrote(s.db.facts, Next(s, l).db.facts, h)
  {
    OnlyCommitsWriteClaims(s, l);
    ReachedLedger(s);
    CommitIsReady(s, l.id);
    CommitWrote(s.db, s.tasks[l.id].commit, l.now, h);
  }

  /** A revision is what it was when it was written, or that superseded. */
  ghost predicate Since(f: Database.Facts, f': Database.Facts, h: Hash) {
    && h in f.revisions && h in f'.revisions
    && (f'.revisions[h] == f.revisions[h] || f'.revisions[h] == f.revisions[h].(status := Superseded))
  }

  lemma StepSince(s: System, l: Label, h: Hash)
    requires Inv(s) && h in s.db.facts.revisions
    ensures Since(s.db.facts, Next(s, l).db.facts, h)
  {
    StepGrows(s, l);
  }

  /** The fact tables after each prefix of a run. */
  ghost function Trace(labels: seq<Label>): (trace: seq<Database.Facts>)
    ensures |trace| == |labels| + 1 && trace[|labels|] == Run(labels).db.facts
  {
    if labels == [] then [Run(labels).db.facts] else Trace(labels[..|labels| - 1]) + [Run(labels).db.facts]
  }

  /** Between one fact table and the next revisions are only written, and then kept. */
  ghost predicate StepsRight(trace: seq<Database.Facts>, i: nat)
    requires i + 1 < |trace|
  {
    && (forall h :: h in trace[i + 1].revisions && h !in trace[i].revisions ==> Wrote(trace[i], trace[i + 1], h))
    && (forall h :: h in trace[i].revisions ==> Since(trace[i], trace[i + 1], h))
  }

  lemma SameStep(a: seq<Database.Facts>, i: nat, b: seq<Database.Facts>, j: nat)
    requires i + 1 < |a| && j + 1 < |b| && a[i] == b[j] && a[i + 1] == b[j + 1] && StepsRight(a, i)
    ensures StepsRight(b, j)
  {
  }

  lemma {:induction false} TraceStepRight(labels: seq<Label>, i: nat)
    requires i < |labels|
    ensures StepsRight(Trace(labels), i)
  {
    var m := |labels| - 1;
    if i < m {
      TraceStepRight(labels[..m], i);
      SameStep(Trace(labels[..m]), i, Trace(labels), i);
    } else {
      LastStepRight(labels[..m], labels[m]);
      SameStep([Run(labels[..m]).db.facts, Next(Run(labels[..m]), labels[m]).db.facts], 0, Trace(labels), m);
    }
  }

  lemma LastStepRight(front: seq<Label>, l: Label)
    ensures StepsRight([Run(front).db.facts, Next(Run(front), l).db.facts], 0)
  {
    RunInv(front);
    var s := Run(front);
    var f, f' := s.db.facts, Next(s, l).db.facts;
    forall h | h in f'.revisions && h !in f.revisions ensures Wrote(f, f', h) {
      StepWrote(s, l, h);
    }
    forall h | h in f.revisions ensures Since(f, f', h) {
      StepSince(s, l, h);
    }
  }

  lemma {:induction false} WrittenInTrace(trace: seq<Database.Facts>, h: Hash) returns (n: nat)
    requires trace != [] && trace[0].revisions == map[] && h in trace[|trace| - 1].revisions
    requires forall i :: 0 <= i < |trace| - 1 ==> StepsRight(trace, i)
    ensures n + 1 < |trace| && Wrote(trace[n], trace[n + 1], h) && Since(trace[n + 1], trace[|trace| - 1], h)
  {
    var m := |trace| - 2;
    var front := trace[..m + 1];
    assert StepsRight(trace, m);
    if h in trace[m].revisions {
      forall i | 0 <= i < |front| - 1 ensures StepsRight(front, i) {
        assert StepsRight(trace, i);
      }
      n := WrittenInTrace(front, h);
    } else {
      n := m;
    }
  }

  /** Every revision of a reachable state was written by one step of the run: the first of
      its claim asserted, each later one over a claim still open. */
  lemma EveryRevisionWasWritten(labels: seq<Label>, h: Hash) returns (n: nat)
    requires h in Run(labels).db.facts.revisions
    ensures n < |labels| && Wrote(Trace(labels)[n], Trace(labels)[n + 1], h)
    ensures Since(Trace(labels)[n + 1], Run(labels).db.facts, h)
  {
    forall i | 0 <= i < |labels| ensures StepsRight(Trace(labels), i) {
      TraceStepRight(labels, i);
    }
    TraceStarts(labels);
    n := WrittenInTrace(Trace(labels), h);
  }

  lemma {:induction false} TraceStarts(labels: seq<Label>)
    ensures Trace(labels)[0] == EMPTY_FACTS
  {
    if labels != [] {
      TraceStarts(labels[..|labels| - 1]);
    }
  }
}
