/** The fact tables: every claim is one chain of revisions that ends in its current row,
    schemas are never reinterpreted, and single-valued predicates stay single-valued. */
module FactLedger {
  import opened Wrappers
  import opened Domain
  import opened Database
  import Json = JsonSchema

  // ------------------------------------------------------ chains of revisions

  /** The revisions of one claim, oldest first: its operations in commit order. */
  function Chain(operations: seq<Operation>, revisions: map<Hash, Revision>, key: FactKey): seq<Hash> {
    if operations == [] then []
    else
      var earlier := Chain(operations[..|operations| - 1], revisions, key);
      var hash := operations[|operations| - 1].hash;
      if hash in revisions && revisions[hash].key == key then earlier + [hash] else earlier
  }

  function Before(chain: seq<Hash>, i: nat): Option<Hash>
    requires i < |chain|
  {
    if i == 0 then None else Some(chain[i - 1])
  }

  /** The i-th revision supersedes the one before it and keeps the claim's topic; the
      first was asserted, and every revision but the last is marked superseded. */
  ghost predicate LinkOk(f: Facts, key: FactKey, chain: seq<Hash>, i: nat)
    requires i < |chain|
  {
    && chain[i] in f.revisions
    && var r := f.revisions[chain[i]];
    && r.key == key
    && r.supersedes == Before(chain, i)
    && (r.status == Superseded <==> i + 1 < |chain|)
    && (i == 0 ==> r.status == Asserted || r.status == Superseded)
    && key in f.claims && r.topic == f.claims[key].topic
  }

  /** The current row repeats its revision. */
  predicate Mirrors(c: Claim, r: Revision) {
    && c.topic == r.topic && c.body == r.body && c.status == r.status && c.updated == r.asserted
    && c.retracted == (r.status != Asserted)
  }

  ghost predicate ChainOk(operations: seq<Operation>, f: Facts, key: FactKey) {
    var chain := Chain(operations, f.revisions, key);
    && (key in f.claims <==> chain != [])
    && (forall i :: 0 <= i < |chain| ==> LinkOk(f, key, chain, i))
    && (chain != [] ==>
          && f.claims[key].source == chain[|chain| - 1]
          && chain[|chain| - 1] in f.revisions
          && Mirrors(f.claims[key], f.revisions[chain[|chain| - 1]]))
  }

  ghost predicate Ledger(operations: seq<Operation>, f: Facts) {
    forall key :: ChainOk(operations, f, key)
  }

  /** Every revision was written by a committed operation. */
  ghost predicate Grounded(operations: seq<Operation>, f: Facts) {
    forall h :: h in f.revisions ==> HashTaken(operations, h)
  }

  // ---------------------------------------------------------------- schemas

  function SchemaOf(app: string, topic: FactTopic): SchemaKey {
    SchemaKey(app, topic.schemaId, topic.schemaVersion)
  }

  predicate ProvenanceMet(body: FactBody, policy: Provenance) {
    && (policy == Source || policy == SourceAndDocument ==> body.source.Some?)
    && (policy == SourceDocument || policy == SourceAndDocument ==> body.sourceDocument.Some?)
  }

  /** The topic names a registered schema by its id and version and by its predicate. */
  predicate Names(schemas: map<SchemaKey, FactSchema>, app: string, topic: FactTopic) {
    SchemaOf(app, topic) in schemas && topic.predicateName == schemas[SchemaOf(app, topic)].predicateName
  }

  /** The body is an instance of the enabled schema the topic names: its value conforms,
      and the value checker accepts it. */
  predicate FitsSchema(schemas: map<SchemaKey, FactSchema>, app: string, topic: FactTopic, body: FactBody) {
    && Names(schemas, app, topic)
    && var schema := schemas[SchemaOf(app, topic)];
    && schema.enabled
    && ProvenanceMet(body, schema.provenance)
    && Json.Conforms(body.value, schema.objectSchema)
    && Json.ValidateValue(body.value, schema.objectSchema, 0) == Json.Accepted
    && 0.0 <= body.confidence <= 1.0
  }

  /** The schema's lifecycle policy allows a revision of this status, which replaces the
      previous one if there is one. */
  predicate Permits(policy: LifecyclePolicy, previous: Option<Hash>, status: Lifecycle) {
    && (previous.Some? && status == Asserted ==> policy.supersession)
    && (status == Retracted ==> policy.retraction)
    && (status == Disputed ==> policy.dispute)
    && (status == Expired ==> policy.expiry)
  }

  predicate RevisionFits(schemas: map<SchemaKey, FactSchema>, r: Revision) {
    && FitsSchema(schemas, r.key.app, r.topic, r.body)
    && Permits(schemas[SchemaOf(r.key.app, r.topic)].lifecycle, r.supersedes, r.status)
  }

  ghost predicate AllRegistrable(f: Facts) {
    forall k :: k in f.schemas ==> Registrable(Registration(k, f.schemas[k]))
  }

  ghost predicate AllFit(f: Facts) {
    forall h :: h in f.revisions ==> RevisionFits(f.schemas, f.revisions[h])
  }

  // ------------------------------------------------------ single active claim

  /** Two different claims, both active, on one subject and predicate. */
  predicate Rivals(claims: map<FactKey, Claim>, a: FactKey, b: FactKey) {
    && a in claims && b in claims && a != b && a.app == b.app && a.community == b.community
    && claims[a].topic.subject == claims[b].topic.subject
    && claims[a].topic.predicateName == claims[b].topic.predicateName
    && !claims[a].retracted && !claims[b].retracted
  }

  predicate AllowsMany(f: Facts, key: FactKey) {
    && key in f.claims
    && SchemaOf(key.app, f.claims[key].topic) in f.schemas
    && f.schemas[SchemaOf(key.app, f.claims[key].topic)].multipleActive
  }

  ghost predicate SingleActive(f: Facts) {
    forall a, b :: Rivals(f.claims, a, b) ==> AllowsMany(f, a)
  }

  ghost predicate FactsInv(operations: seq<Operation>, f: Facts) {
    && Ledger(operations, f) && Grounded(operations, f)
    && AllRegistrable(f) && AllFit(f) && SingleActive(f)
  }

  // ------------------------------------------- what a fact handler has checked

  /** What the fact handler knows about the projection it is about to submit. The row it
      read may have been superseded since; nothing else about it can have changed. */
  ghost predicate FactReady(f: Facts, app: string, p: FactProjection) {
    && FitsSchema(f.schemas, app, p.topic, p.body)
    && f.schemas[SchemaOf(app, p.topic)].multipleActive == p.multipleActive
    && Permits(f.schemas[SchemaOf(app, p.topic)].lifecycle, p.expectedPrevious, p.status)
    && match p.expectedPrevious
       case None => p.status == Asserted
       case Some(h) =>
         && h in f.revisions
         && f.revisions[h].key == FactKey(app, p.community, p.claim)
         && f.revisions[h].topic == p.topic
         && !Terminal(f.revisions[h].status)
  }

  /** Schemas are insert-only; a revision keeps everything but its status, which can
      only become SUPERSEDED. */
  ghost predicate Extends(f: Facts, f': Facts) {
    && f.schemas.Keys <= f'.schemas.Keys
    && (forall k :: k in f.schemas ==> f'.schemas[k] == f.schemas[k])
    && f.revisions.Keys <= f'.revisions.Keys
    && (forall h :: h in f.revisions ==>
          f'.revisions[h] == f.revisions[h] || f'.revisions[h] == f.revisions[h].(status := Superseded))
  }

  /** The claim as it stands allows the revision. */
  ghost predicate Welcome(f: Facts, app: string, p: FactProjection) {
    var key := FactKey(app, p.community, p.claim);
    && p.expectedPrevious == SourceOf(ClaimAt(f, key))
    && (key in f.claims ==> f.claims[key].topic == p.topic && !Terminal(f.claims[key].status))
    && (key !in f.claims ==> p.status == Asserted)
  }

  lemma WelcomeIsReady(operations: seq<Operation>, f: Facts, app: string, p: FactProjection)
    requires Ledger(operations, f) && Welcome(f, app, p)
    requires FitsSchema(f.schemas, app, p.topic, p.body)
    requires f.schemas[SchemaOf(app, p.topic)].multipleActive == p.multipleActive
    requires Permits(f.schemas[SchemaOf(app, p.topic)].lifecycle, p.expectedPrevious, p.status)
    ensures FactReady(f, app, p)
  {
    var key := FactKey(app, p.community, p.claim);
    assert ChainOk(operations, f, key);
    if key in f.claims {
      var chain := Chain(operations, f.revisions, key);
      assert LinkOk(f, key, chain, |chain| - 1);
    }
  }

  // ----------------------------------------------------- commits without facts

  lemma ChainAppend(operations: seq<Operation>, o: Operation, revisions: map<Hash, Revision>, key: FactKey)
    ensures Chain(operations + [o], revisions, key) ==
              Chain(operations, revisions, key) + (if o.hash in revisions &&
                  revisions[o.hash].key == key then [o.hash] else [])
  {
  }

  lemma OtherCommitKeepsLedger(operations: seq<Operation>, o: Operation, f: Facts)
    requires Ledger(operations, f) && Grounded(operations, f) && !HashTaken(operations, o.hash)
    ensures Ledger(operations + [o], f) && Grounded(operations + [o], f)
  {
    forall key ensures ChainOk(operations + [o], f, key) {
      assert ChainOk(operations, f, key);
      ChainAppend(operations, o, f.revisions, key);
      assert Chain(operations + [o], f.revisions, key) == Chain(operations, f.revisions, key);
    }
    forall h | h in f.revisions ensures HashTaken(operations + [o], h) {
      assert HashTaken(operations, h);
    }
  }

  lemma OtherCommitKeepsFacts(operations: seq<Operation>, o: Operation, f: Facts)
    requires FactsInv(operations, f) && !HashTaken(operations, o.hash)
    ensures FactsInv(operations + [o], f)
  {
    OtherCommitKeepsLedger(operations, o, f);
  }

  // -------------------------------------------------------- commits of a fact

  /** Chains only look at the keys of the revisions their operations wrote. */
  lemma {:induction false} ChainAgrees(operations: seq<Operation>, revisions: map<Hash, Revision>,
          revisions': map<Hash, Revision>, key: FactKey)
    requires forall o :: o in operations ==> (o.hash in revisions <==> o.hash in revisions')
    requires forall h :: h in revisions && h in revisions' ==> revisions'[h].key == revisions[h].key
    ensures Chain(operations, revisions', key) == Chain(operations, revisions, key)
  {
    if operations != [] {
      var front := operations[..|operations| - 1];
      assert forall o :: o in front ==> o in operations;
      ChainAgrees(front, revisions, revisions', key);
      assert operations[|operations| - 1] in operations;
    }
  }

  lemma {:induction false} ChainMembers(operations: seq<Operation>, revisions: map<Hash, Revision>, key: FactKey)
    ensures forall h :: h in Chain(operations, revisions, key) ==>
              HashTaken(operations, h) && h in revisions && revisions[h].key == key
  {
    if operations != [] {
      var front := operations[..|operations| - 1];
      assert forall o :: o in front ==> o in operations;
      assert operations[|operations| - 1] in operations;
      ChainMembers(front, revisions, key);
    }
  }

  lemma {:induction false} ChainComplete(operations: seq<Operation>, revisions: map<Hash, Revision>, hash: Hash)
    requires HashTaken(operations, hash) && hash in revisions
    ensures hash in Chain(operations, revisions, revisions[hash].key)
  {
    var front := operations[..|operations| - 1];
    if operations[|operations| - 1].hash != hash {
      var o :| o in operations && o.hash == hash;
      assert o in front;
      ChainComplete(front, revisions, hash);
    }
  }

  lemma {:induction false} ChainDistinct(operations: seq<Operation>, revisions: map<Hash, Revision>, key: FactKey)
    requires forall i, j :: 0 <= i < j < |operations| ==> operations[i].hash != operations[j].hash
    ensures forall i, j :: 0 <= i < j < |Chain(operations, revisions, key)| ==>
              Chain(operations, revisions, key)[i] != Chain(operations, revisions, key)[j]
  {
    if operations != [] {
      var front := operations[..|operations| - 1];
      ChainDistinct(front, revisions, key);
      ChainMembers(front, revisions, key);
      assert forall o :: o in front ==> o.hash != operations[|operations| - 1].hash;
    }
  }

  /** The claim's revisions are one chain without repetition: the first was asserted, each
      supersedes the one before and keeps the topic, all but the last are SUPERSEDED, the
      current row repeats the last, and no revision of the claim is off the chain. */
  ghost predicate LinearHistory(operations: seq<Operation>, f: Facts, key: FactKey) {
    var chain := Chain(operations, f.revisions, key);
    && (key in f.claims <==> chain != [])
    && (forall i :: 0 <= i < |chain| ==> LinkOk(f, key, chain, i))
    && (forall i, j :: 0 <= i < j < |chain| ==> chain[i] != chain[j])
    && (chain != [] ==> f.claims[key].source == chain[|chain| - 1]
                        && chain[|chain| - 1] in f.revisions
                        && Mirrors(f.claims[key], f.revisions[chain[|chain| - 1]]))
    && (forall h :: h in f.revisions && f.revisions[h].key == key ==> h in chain)
  }

  lemma WholeChain(operations: seq<Operation>, f: Facts, key: FactKey)
    requires Ledger(operations, f) && Grounded(operations, f)
    requires forall i, j :: 0 <= i < j < |operations| ==> operations[i].hash != operations[j].hash
    ensures LinearHistory(operations, f, key)
  {
    assert ChainOk(operations, f, key);
    ChainDistinct(operations, f.revisions, key);
    forall h | h in f.revisions && f.revisions[h].key == key ensures h in Chain(operations, f.revisions, key) {
      assert HashTaken(operations, h);
      ChainComplete(operations, f.revisions, h);
    }
  }

  function ClaimOf(r: Revision, hash: Hash): Claim {
    Claim(r.topic, r.body, hash, r.status != Asserted, r.asserted, r.status)
  }

  /** One revision is written: the claim's current one is superseded, the new row and
      the claim's row point at each other. */
  ghost predicate Writes(f: Facts, f': Facts, r: Revision, hash: Hash) {
    && hash !in f.revisions
    && r.supersedes == SourceOf(ClaimAt(f, r.key))
    && r.status != Superseded
    && f' == Facts(f.schemas, Supersede(f.revisions, r.supersedes)[hash := r], f.claims[r.key := ClaimOf(r, hash)])
  }

  /** The revision keeps its claim's topic, or starts a claim by asserting it. */
  ghost predicate Follows(f: Facts, r: Revision) {
    if r.key in f.claims then r.topic == f.claims[r.key].topic else r.status == Asserted
  }

  lemma OtherRevisionsStay(operations: seq<Operation>, f: Facts, f': Facts, r: Revision, hash: Hash)
    requires Ledger(operations, f) && Writes(f, f', r, hash)
    ensures forall h :: h in f.revisions && f.revisions[h].key != r.key ==> f'.revisions[h] == f.revisions[h]
    ensures forall h :: h in f.revisions && r.supersedes != Some(h) ==> f'.revisions[h] == f.revisions[h]
    ensures r.supersedes.Some? ==> r.supersedes.value in f.revisions
                                   && f'.revisions[r.supersedes.value] ==
                                       f.revisions[r.supersedes.value].(status := Superseded)
    ensures f'.revisions.Keys == f.revisions.Keys + {hash}
  {
    assert ChainOk(operations, f, r.key);
    var chain := Chain(operations, f.revisions, r.key);
    if chain != [] {
      assert LinkOk(f, r.key, chain, |chain| - 1);
    }
  }

  lemma ChainAfter(operations: seq<Operation>, o: Operation, f: Facts, f': Facts, r: Revision, k: FactKey)
    requires Ledger(operations, f) && Writes(f, f', r, o.hash) && !HashTaken(operations, o.hash)
    ensures Chain(operations + [o], f'.revisions, k) ==
              Chain(operations, f.revisions, k) + (if k == r.key then [o.hash] else [])
  {
    OtherRevisionsStay(operations, f, f', r, o.hash);
    ChainAppend(operations, o, f'.revisions, k);
    assert forall p :: p in operations ==> p.hash != o.hash;
    ChainAgrees(operations, f.revisions, f'.revisions, k);
  }

  lemma OtherChainStays(operations: seq<Operation>, o: Operation, f: Facts, f': Facts, r: Revision, k: FactKey)
    requires Ledger(operations, f) && Writes(f, f', r, o.hash) && !HashTaken(operations, o.hash)
    requires k != r.key
    ensures ChainOk(operations + [o], f', k)
  {
    OtherRevisionsStay(operations, f, f', r, o.hash);
    ChainAfter(operations, o, f, f', r, k);
    assert ChainOk(operations, f, k);
    var chain := Chain(operations, f.revisions, k);
    assert Chain(operations + [o], f'.revisions, k) == chain;
    if chain != [] {
      assert LinkOk(f, k, chain, |chain| - 1);
    }
    forall i | 0 <= i < |chain| ensures LinkOk(f', k, chain, i) {
      assert LinkOk(f, k, chain, i);
    }
  }

  lemma OwnLinks(operations: seq<Operation>, o: Operation, f: Facts, f': Facts, r: Revision, i: nat)
    requires Ledger(operations, f) && Writes(f, f', r, o.hash) && Follows(f, r) && !HashTaken(operations, o.hash)
    requires forall i, j :: 0 <= i < j < |operations| ==> operations[i].hash != operations[j].hash
    requires i <= |Chain(operations, f.revisions, r.key)|
    ensures LinkOk(f', r.key, Chain(operations, f.revisions, r.key) + [o.hash], i)
  {
    assert ChainOk(operations, f, r.key);
    var chain := Chain(operations, f.revisions, r.key);
    if i < |chain| {
      OtherRevisionsStay(operations, f, f', r, o.hash);
      ChainDistinct(operations, f.revisions, r.key);
      assert LinkOk(f, r.key, chain, i);
      assert i + 1 < |chain| ==> chain[i] != chain[|chain| - 1];
    }
  }

  lemma OwnChainGrows(operations: seq<Operation>, o: Operation, f: Facts, f': Facts, r: Revision)
    requires Ledger(operations, f) && Writes(f, f', r, o.hash) && Follows(f, r) && !HashTaken(operations, o.hash)
    requires forall i, j :: 0 <= i < j < |operations| ==> operations[i].hash != operations[j].hash
    ensures ChainOk(operations + [o], f', r.key)
  {
    var chain := Chain(operations, f.revisions, r.key);
    ChainAfter(operations, o, f, f', r, r.key);
    forall i | 0 <= i < |chain| + 1 ensures LinkOk(f', r.key, chain + [o.hash], i) {
      OwnLinks(operations, o, f, f', r, i);
    }
  }

  lemma WriteKeepsLedger(operations: seq<Operation>, o: Operation, f: Facts, f': Facts, r: Revision)
    requires Ledger(operations, f) && Writes(f, f', r, o.hash) && Follows(f, r) && !HashTaken(operations, o.hash)
    requires forall i, j :: 0 <= i < j < |operations| ==> operations[i].hash != operations[j].hash
    ensures Ledger(operations + [o], f')
  {
    forall k ensures ChainOk(operations + [o], f', k) {
      if k == r.key {
        OwnChainGrows(operations, o, f, f', r);
      } else {
        OtherChainStays(operations, o, f, f', r, k);
      }
    }
  }

  lemma WriteKeepsGrounded(operations: seq<Operation>, o: Operation, f: Facts, f': Facts, r: Revision)
    requires Grounded(operations, f) && Writes(f, f', r, o.hash)
    ensures Grounded(operations + [o], f')
  {
  }

  lemma WriteKeepsFit(f: Facts, f': Facts, r: Revision, hash: Hash)
    requires AllFit(f) && Writes(f, f', r, hash) && RevisionFits(f.schemas, r)
    ensures AllFit(f')
  {
  }

  // ------------------------------------------------------ single active claim

  /** Every registered schema owns its predicate name, and every claim's topic names
      its schema. */
  ghost predicate WellNamed(f: Facts) {
    && (forall k :: k in f.schemas ==> f.schemas[k].predicateName == PredicateName(k.id, k.version))
    && (forall k :: k in f.claims ==> Names(f.schemas, k.app, f.claims[k].topic))
  }

  lemma FactsAreWellNamed(operations: seq<Operation>, f: Facts)
    requires Ledger(operations, f) && AllRegistrable(f) && AllFit(f)
    ensures WellNamed(f)
  {
    forall k | k in f.schemas ensures f.schemas[k].predicateName == PredicateName(k.id, k.version) {
      assert Registrable(Registration(k, f.schemas[k]));
    }
    forall k | k in f.claims ensures Names(f.schemas, k.app, f.claims[k].topic) {
      ClaimIsNamed(operations, f, k);
    }
  }

  lemma ClaimIsNamed(operations: seq<Operation>, f: Facts, k: FactKey)
    requires Ledger(operations, f) && AllFit(f) && k in f.claims
    ensures Names(f.schemas, k.app, f.claims[k].topic)
  {
    assert ChainOk(operations, f, k);
    var chain := Chain(operations, f.revisions, k);
    assert LinkOk(f, k, chain, |chain| - 1);
    var h := chain[|chain| - 1];
    assert RevisionFits(f.schemas, f.revisions[h]);
  }

  lemma SamePredicateSameSchema(f: Facts, app: string, topic: FactTopic, other: FactKey)
    requires WellNamed(f) && Names(f.schemas, app, topic) && other in f.claims && other.app == app
    requires f.claims[other].topic.predicateName == topic.predicateName
    ensures SchemaOf(app, f.claims[other].topic) == SchemaOf(app, topic)
  {
    var topic' := f.claims[other].topic;
    assert Names(f.schemas, app, topic');
    PredicateNamesSchema(topic'.schemaId, topic'.schemaVersion, topic.schemaId, topic.schemaVersion);
  }

  /** The recheck inside the transaction is what keeps a predicate single-valued: the
      rival it looks for is judged by the same schema, whose name its predicate is. */
  lemma WriteKeepsSingleActive(f: Facts, f': Facts, r: Revision, hash: Hash, many: bool)
    requires SingleActive(f) && WellNamed(f) && Writes(f, f', r, hash)
    requires Names(f.schemas, r.key.app, r.topic) && f.schemas[SchemaOf(r.key.app, r.topic)].multipleActive == many
    requires r.status == Asserted && !many ==> !ActiveConflict(f.claims, r.key, r.topic)
    ensures SingleActive(f')
  {
    forall a, b | Rivals(f'.claims, a, b) ensures AllowsMany(f', a) {
      if a != r.key && b != r.key {
        assert Rivals(f.claims, a, b);
        assert AllowsMany(f, a);
      } else {
        var other := if a == r.key then b else a;
        assert other in f.claims && f'.claims[other] == f.claims[other];
        assert many;
        SamePredicateSameSchema(f, r.key.app, r.topic, other);
      }
    }
  }

  // --------------------------------------------------------- the fact commit

  /** What the commit of a ready projection writes. */
  lemma ApplyWrites(operations: seq<Operation>, o: Operation, f: Facts, app: string, p: FactProjection, now: int,
          f': Facts)
    returns (r: Revision)
    requires Ledger(operations, f) && Grounded(operations, f) && !HashTaken(operations, o.hash) && FactReady(f, app, p)
    requires ApplyFact(f, app, o.author, o.hash, p, now) == Ok(f')
    ensures r.key == FactKey(app, p.community, p.claim) && r.topic == p.topic && r.body == p.body &&
              r.status == p.status
    ensures Writes(f, f', r, o.hash) && Follows(f, r) && r.supersedes == p.expectedPrevious
    ensures r.status == Asserted && !p.multipleActive ==> !ActiveConflict(f.claims, r.key, r.topic)
    ensures r.key in f.claims ==> !Terminal(f.claims[r.key].status)
    ensures r.asserted == RevisionTime(ClaimAt(f, r.key), now)
  {
    r := f'.revisions[o.hash];
    assert ChainOk(operations, f, r.key);
    if r.key in f.claims {
      var chain := Chain(operations, f.revisions, r.key);
      assert LinkOk(f, r.key, chain, |chain| - 1);
    }
  }

  lemma FactCommitKeepsFacts(operations: seq<Operation>, o: Operation, f: Facts, app: string, p: FactProjection,
          now: int, f': Facts)
    requires FactsInv(operations, f) && !HashTaken(operations, o.hash) && FactReady(f, app, p)
    requires ApplyFact(f, app, o.author, o.hash, p, now) == Ok(f')
    requires forall i, j :: 0 <= i < j < |operations| ==> operations[i].hash != operations[j].hash
    ensures FactsInv(operations + [o], f') && Extends(f, f')
  {
    var r := ApplyWrites(operations, o, f, app, p, now, f');
    WriteKeepsLedger(operations, o, f, f', r);
    WriteKeepsGrounded(operations, o, f, f', r);
    WriteKeepsFit(f, f', r, o.hash);
    FactsAreWellNamed(operations, f);
    WriteKeepsSingleActive(f, f', r, o.hash, p.multipleActive);
    OtherRevisionsStay(operations, f, f', r, o.hash);
  }

  // ------------------------------------------------------------ registration

  lemma SchemasOutsideLedger(operations: seq<Operation>, f: Facts, f': Facts)
    requires Ledger(operations, f) && f'.revisions == f.revisions && f'.claims == f.claims
    ensures Ledger(operations, f')
  {
    forall key ensures ChainOk(operations, f', key) {
      assert ChainOk(operations, f, key);
      var chain := Chain(operations, f.revisions, key);
      forall i | 0 <= i < |chain| ensures LinkOk(f', key, chain, i) {
        assert LinkOk(f, key, chain, i);
      }
    }
  }

  lemma FitsStill(schemas: map<SchemaKey, FactSchema>, k: SchemaKey, schema: FactSchema, r: Revision)
    requires RevisionFits(schemas, r) && k !in schemas
    ensures RevisionFits(schemas[k := schema], r)
  {
  }

  lemma MoreSchemasFit(f: Facts, k: SchemaKey, schema: FactSchema)
    requires AllFit(f) && k !in f.schemas
    ensures AllFit(f.(schemas := f.schemas[k := schema]))
  {
    var f' := f.(schemas := f.schemas[k := schema]);
    forall h | h in f'.revisions ensures RevisionFits(f'.schemas, f'.revisions[h]) {
      FitsStill(f.schemas, k, schema, f.revisions[h]);
    }
  }

  lemma MoreSchemasSingle(f: Facts, k: SchemaKey, schema: FactSchema)
    requires SingleActive(f) && k !in f.schemas
    ensures SingleActive(f.(schemas := f.schemas[k := schema]))
  {
  }

  lemma MoreSchemas(operations: seq<Operation>, f: Facts, k: SchemaKey, schema: FactSchema)
    requires FactsInv(operations, f) && k !in f.schemas && Registrable(Registration(k, schema))
    ensures FactsInv(operations, f.(schemas := f.schemas[k := schema]))
  {
    SchemasOutsideLedger(operations, f, f.(schemas := f.schemas[k := schema]));
    MoreSchemasFit(f, k, schema);
    MoreSchemasSingle(f, k, schema);
  }

  lemma RegistrationKeepsFacts(operations: seq<Operation>, f: Facts, r: Registration, f': Facts)
    requires FactsInv(operations, f) && RegisterSchema(f, r) == Ok(f')
    ensures FactsInv(operations, f') && Extends(f, f')
  {
    MoreSchemas(operations, f, r.key, r.schema);
  }

  lemma EmptyFacts()
    ensures FactsInv([], EMPTY_FACTS)
  {
  }
}
