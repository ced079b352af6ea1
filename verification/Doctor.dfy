/** The consistency queries of `system.doctor`, written as the rows they would report,
    and the proof that in no reachable state do they report any. */
module Doctor {
  import opened Wrappers
  import opened Domain
  import opened Database
  import opened Protocol
  import opened Safety
  import Docs = DocumentLog
  import Facts = FactLedger
  import Plans = PlanningCatalog
  import Projection = ProjectionCheck
  import Theorems

  // -------------------------------------------------------------- the queries

  /** Some operation is the entry a backlink should name. */
  predicate Precedes(p: Operation, o: Operation) {
    o.backlink == Some(p.hash) && p.author == o.author && p.log == o.log && p.sequence == o.sequence - 1
  }

  /** `author_log_continuity` */
  predicate Discontinuous(operations: seq<Operation>, o: Operation) {
    || (o.sequence == 0 && o.backlink.Some?)
    || (o.sequence > 0 && (o.backlink.None? || !exists p :: p in operations && Precedes(p, o)))
  }

  /** `operation_body_references`: an empty header or body, or an update without its
      operation. */
  predicate EmptyOperation(o: Operation) {
    |o.header| == 0 || |o.body| == 0
  }

  predicate OrphanUpdate(d: Documents, u: UpdateRow) {
    !HashTaken(d.operations, u.hash)
  }

  /** `applied_with_pending_dependencies` */
  predicate AppliedTooEarly(d: Documents, u: UpdateRow) {
    (!u.applied || u.pending.Some?) && exists o :: o in d.operations && o.hash == u.hash && o.applied
  }

  /** `current_revision_references` */
  predicate DanglingClaim(f: Database.Facts, k: FactKey)
    requires k in f.claims
  {
    f.claims[k].source !in f.revisions
  }

  /** `revision_chain_links` */
  predicate BrokenLink(f: Database.Facts, h: Hash)
    requires h in f.revisions
  {
    match f.revisions[h].supersedes
    case None => false
    case Some(p) => p !in f.revisions || f.revisions[p].key != f.revisions[h].key
  }

  /** `revision_chain_cycles`: where `n` supersedes links lead from a revision. */
  function Follow(revisions: map<Hash, Revision>, h: Hash, n: nat): Option<Hash>
    decreases n
  {
    if n == 0 then Some(h)
    else if h in revisions && revisions[h].supersedes.Some? then Follow(revisions, revisions[h].supersedes.value, n - 1)
    else None
  }

  /** `planning_profile_binding` */
  predicate Misbound(operations: seq<Operation>, origin: Origin) {
    exists o :: o in operations && o.hash == origin.source &&
        (origin.digest != PROFILE_DIGEST || o.document.app != PLANNING_NAMESPACE)
  }

  /** `orphaned_outbox_ack_rows` */
  predicate OrphanOutbox(d: Documents, row: OutboxRow) {
    !HashTaken(d.operations, row.hash)
  }

  predicate OrphanDelivery(db: Db, at: (Hash, string))
  {
    !HashTaken(db.docs.operations, at.0)
  }

  /** None of the queries has a row to report. */
  ghost predicate Healthy(db: Db) {
    && (forall o :: o in db.docs.operations ==> !EmptyOperation(o))
    && (forall u :: u in db.docs.updates ==> !OrphanUpdate(db.docs, u))
    && (forall o :: o in db.docs.operations ==> !Discontinuous(db.docs.operations, o))
    && (forall u :: u in db.docs.updates ==> !AppliedTooEarly(db.docs, u))
    && (forall k :: k in db.facts.claims ==> !DanglingClaim(db.facts, k))
    && (forall h :: h in db.facts.revisions ==> !BrokenLink(db.facts, h))
    && (forall h, n: nat :: h in db.facts.revisions && n > 0 ==> Follow(db.facts.revisions, h, n) != Some(h))
    && (forall k, slot :: k in db.plans && slot in db.plans[k].origins ==>
        !Misbound(db.docs.operations, db.plans[k].origins[slot]))
    && (forall row :: row in db.docs.outbox ==> !OrphanOutbox(db.docs, row))
    && (forall at :: at in db.deliveries ==> !OrphanDelivery(db, at))
  }

  // --------------------------------------------------------------- the proofs

  lemma {:induction false} LogMembers(operations: seq<Operation>, author: Hash, log: LogId)
    ensures forall p :: p in Docs.LogOf(operations, author, log) ==>
              p in operations && p.author == author && p.log == log
  {
    if operations != [] {
      LogMembers(operations[..|operations| - 1], author, log);
    }
  }

  lemma NoDiscontinuity(operations: seq<Operation>, i: nat)
    requires i < |operations| && forall k :: 0 <= k < |operations| ==> Docs.Continues(operations, k)
    ensures !Discontinuous(operations, operations[i])
  {
    var o := operations[i];
    var front := operations[..i];
    var earlier := Docs.LogOf(front, o.author, o.log);
    assert Docs.Continues(operations, i);
    forall k | 0 <= k < |front| ensures Docs.Continues(front, k) {
      assert Docs.Continues(operations, k);
      assert front[..k] == operations[..k];
    }
    Theorems.LogIsGapless(front, o.author, o.log);
    LogMembers(front, o.author, o.log);
    if earlier != [] {
      var p := earlier[|earlier| - 1];
      assert p in earlier && p in operations && Precedes(p, o);
    }
  }

  /** A revision's place in its claim's chain. */
  lemma PlaceOf(operations: seq<Operation>, f: Database.Facts, h: Hash) returns (i: nat)
    requires Facts.Ledger(operations, f) && Facts.Grounded(operations, f) && h in f.revisions
    ensures var chain := Facts.Chain(operations, f.revisions, f.revisions[h].key);
            i < |chain| && chain[i] == h && Facts.LinkOk(f, f.revisions[h].key, chain, i)
  {
    assert HashTaken(operations, h);
    Facts.ChainComplete(operations, f.revisions, h);
    var chain := Facts.Chain(operations, f.revisions, f.revisions[h].key);
    assert Facts.ChainOk(operations, f, f.revisions[h].key);
    i :| 0 <= i < |chain| && chain[i] == h;
  }

  lemma NoBrokenLink(operations: seq<Operation>, f: Database.Facts, h: Hash)
    requires Facts.Ledger(operations, f) && Facts.Grounded(operations, f) && h in f.revisions
    ensures !BrokenLink(f, h)
  {
    var i := PlaceOf(operations, f, h);
    var key := f.revisions[h].key;
    var chain := Facts.Chain(operations, f.revisions, key);
    if i > 0 {
      assert Facts.ChainOk(operations, f, key);
      assert Facts.LinkOk(f, key, chain, i - 1);
    }
  }

  /** Following links walks down the chain. */
  lemma {:induction false} FollowDescends(operations: seq<Operation>, f: Database.Facts, key: FactKey, i: nat, n: nat)
    requires Facts.ChainOk(operations, f, key) && i < |Facts.Chain(operations, f.revisions, key)|
    ensures var chain := Facts.Chain(operations, f.revisions, key);
            Follow(f.revisions, chain[i], n) == if n <= i then Some(chain[i - n]) else None
    decreases n
  {
    var chain := Facts.Chain(operations, f.revisions, key);
    assert Facts.LinkOk(f, key, chain, i);
    if n > 0 && i > 0 {
      FollowDescends(operations, f, key, i - 1, n - 1);
    }
  }

  lemma NoChainCycle(operations: seq<Operation>, f: Database.Facts, h: Hash, n: nat)
    requires Facts.Ledger(operations, f) && Facts.Grounded(operations, f) && Docs.DistinctHashes(operations)
    requires h in f.revisions && n > 0
    ensures Follow(f.revisions, h, n) != Some(h)
  {
    var i := PlaceOf(operations, f, h);
    var key := f.revisions[h].key;
    assert Facts.ChainOk(operations, f, key);
    FollowDescends(operations, f, key, i, n);
    Facts.ChainDistinct(operations, f.revisions, key);
  }

  lemma RowsHaveOperations(d: Documents)
    requires Docs.TablesAligned(d)
    ensures forall u :: u in d.updates ==> !OrphanUpdate(d, u) && !AppliedTooEarly(d, u)
    ensures forall row :: row in d.outbox ==> !OrphanOutbox(d, row)
  {
    forall u | u in d.updates ensures HashTaken(d.operations, u.hash) && u.applied && u.pending == None {
      var i :| 0 <= i < |d.updates| && d.updates[i] == u;
      assert Docs.SameOperation(d, i) && d.operations[i] in d.operations;
    }
    forall row | row in d.outbox ensures HashTaken(d.operations, row.hash) {
      var i :| 0 <= i < |d.outbox| && d.outbox[i] == row;
      assert Docs.SameOperation(d, i) && d.operations[i] in d.operations;
    }
  }

  lemma FactTablesHealthy(operations: seq<Operation>, f: Database.Facts)
    requires Facts.Ledger(operations, f) && Facts.Grounded(operations, f) && Docs.DistinctHashes(operations)
    ensures forall k :: k in f.claims ==> !DanglingClaim(f, k)
    ensures forall h :: h in f.revisions ==> !BrokenLink(f, h)
    ensures forall h, n: nat :: h in f.revisions && n > 0 ==> Follow(f.revisions, h, n) != Some(h)
  {
    forall k | k in f.claims ensures !DanglingClaim(f, k) {
      Projection.CurrentRow(operations, f, k);
    }
    forall h | h in f.revisions ensures !BrokenLink(f, h) {
      NoBrokenLink(operations, f, h);
    }
    forall h, n: nat | h in f.revisions && n > 0 ensures Follow(f.revisions, h, n) != Some(h) {
      NoChainCycle(operations, f, h, n);
    }
  }

  lemma LogsHealthy(d: Documents)
    requires Docs.LogsLinked(d)
    ensures forall o :: o in d.operations ==> !Discontinuous(d.operations, o)
  {
    forall o | o in d.operations ensures !Discontinuous(d.operations, o) {
      var i :| 0 <= i < |d.operations| && d.operations[i] == o;
      NoDiscontinuity(d.operations, i);
    }
  }

  lemma PlansHealthy(operations: seq<Operation>, plans: Database.Plans)
    requires Plans.PlansSourced(operations, plans) && Docs.DistinctHashes(operations)
    ensures forall k, slot :: k in plans && slot in plans[k].origins ==> !Misbound(operations, plans[k].origins[slot])
  {
    forall k, slot | k in plans && slot in plans[k].origins ensures !Misbound(operations, plans[k].origins[slot]) {
      assert Plans.Sourced(operations, k, plans[k]);
      var origin := plans[k].origins[slot];
      assert Plans.OriginOk(operations, k, origin);
      var p :| p in operations && p.hash == origin.source && p.document.app == k.namespace &&
          p.document.community == k.community;
      forall o | o in operations && o.hash == origin.source ensures o == p {
        SameHashSameOperation(operations, o, p);
      }
    }
  }

  lemma SameHashSameOperation(operations: seq<Operation>, o: Operation, p: Operation)
    requires Docs.DistinctHashes(operations) && o in operations && p in operations && o.hash == p.hash
    ensures o == p
  {
    var i :| 0 <= i < |operations| && operations[i] == o;
    var j :| 0 <= j < |operations| && operations[j] == p;
  }

  lemma InvariantHealthy(db: Db)
    requires Docs.TablesAligned(db.docs) && Docs.LogsLinked(db.docs) && DeliveriesKnown(db)
    requires Facts.Ledger(db.docs.operations, db.facts) && Facts.Grounded(db.docs.operations, db.facts)
    requires Plans.PlansSourced(db.docs.operations, db.plans)
    ensures Healthy(db)
  {
    PlansHealthy(db.docs.operations, db.plans);
    LogsHealthy(db.docs);
    RowsHaveOperations(db.docs);
    FactTablesHealthy(db.docs.operations, db.facts);
  }

  /** The row queries of the doctor find nothing in any reachable state. */
  lemma AlwaysHealthy(labels: seq<Label>)
    ensures Healthy(Run(labels).db)
  {
    RunInv(labels);
    InvariantHealthy(Run(labels).db);
  }

  /** Nor does its projection check, while the clocks leave a millisecond per step. */
  lemma HealthyAndConsistent(labels: seq<Label>, latest: int)
    requires Projection.ClocksUpTo(labels, latest) && 0 <= latest && latest + |labels| <= I64_MAX
    ensures Healthy(Run(labels).db)
    ensures Projection.CurrentRows(Run(labels).db.facts) == Projection.ExpectedRows(Run(labels).db.facts)
  {
    AlwaysHealthy(labels);
    Projection.AlwaysConsistent(labels, latest);
  }
}
