/** `projection.check`: the current fact table against the newest revision of every
    claim. The two agree while revision times can still grow. */
module ProjectionCheck {
  import opened Wrappers
  import opened Domain
  import opened Database
  import opened Protocol
  import opened Safety
  import Facts = FactLedger
  import Lexical
  import Progress
  import Theorems

  type Row = (FactKey, Claim)

  type Revisions = map<Hash, Revision>

  /** `newer.asserted_at_ms > r.asserted_at_ms OR (equal AND newer.operation_hash > r.operation_hash)` */
  predicate Newer(revisions: Revisions, g: Hash, h: Hash)
    requires g in revisions && h in revisions
  {
    revisions[g].asserted > revisions[h].asserted || (revisions[g].asserted == revisions[h].asserted && g > h)
  }

  /** No revision of the same claim is newer. */
  predicate Latest(revisions: Revisions, h: Hash)
    requires h in revisions
  {
    forall g :: g in revisions && revisions[g].key == revisions[h].key ==> !Newer(revisions, g, h)
  }

  function CurrentRows(f: Database.Facts): set<Row> {
    set k | k in f.claims :: (k, f.claims[k])
  }

  function ExpectedRows(f: Database.Facts): set<Row> {
    set h | h in f.revisions && Latest(f.revisions, h) :: (f.revisions[h].key, Facts.ClaimOf(f.revisions[h], h))
  }

  /** Every claim's current row comes from its newest revision. */
  ghost predicate CurrentIsLatest(f: Database.Facts) {
    forall k :: k in f.claims ==> f.claims[k].source in f.revisions && Latest(f.revisions, f.claims[k].source)
  }

  lemma CurrentRow(operations: seq<Operation>, f: Database.Facts, k: FactKey)
    requires Facts.Ledger(operations, f) && k in f.claims
    ensures f.claims[k].source in f.revisions && f.revisions[f.claims[k].source].key == k
    ensures f.claims[k] == Facts.ClaimOf(f.revisions[f.claims[k].source], f.claims[k].source)
  {
    assert Facts.ChainOk(operations, f, k);
    var chain := Facts.Chain(operations, f.revisions, k);
    assert Facts.LinkOk(f, k, chain, |chain| - 1);
  }

  lemma RevisionHasClaim(operations: seq<Operation>, f: Database.Facts, h: Hash)
    requires Facts.Ledger(operations, f) && Facts.Grounded(operations, f) && h in f.revisions
    ensures f.revisions[h].key in f.claims
  {
    assert Facts.ChainOk(operations, f, f.revisions[h].key);
    assert HashTaken(operations, h);
    Facts.ChainComplete(operations, f.revisions, h);
  }

  /** The check's two tables hold the same rows exactly when every current row comes
      from the newest revision of its claim. */
  lemma TablesAgree(operations: seq<Operation>, f: Database.Facts)
    requires Facts.Ledger(operations, f) && Facts.Grounded(operations, f)
    ensures CurrentRows(f) == ExpectedRows(f) <==> CurrentIsLatest(f)
  {
    forall k | k in f.claims
      ensures f.claims[k].source in f.revisions && f.revisions[f.claims[k].source].key == k
      ensures f.claims[k] == Facts.ClaimOf(f.revisions[f.claims[k].source], f.claims[k].source)
    {
      CurrentRow(operations, f, k);
    }
    if CurrentRows(f) == ExpectedRows(f) {
      forall k | k in f.claims ensures Latest(f.revisions, f.claims[k].source) {
        assert (k, f.claims[k]) in ExpectedRows(f);
      }
    }
    if CurrentIsLatest(f) {
      forall row | row in CurrentRows(f) ensures row in ExpectedRows(f) {
        assert row == (f.revisions[row.1.source].key, Facts.ClaimOf(f.revisions[row.1.source], row.1.source));
      }
      forall row | row in ExpectedRows(f) ensures row in CurrentRows(f) {
        var h :| h in f.revisions && Latest(f.revisions, h) &&
            row == (f.revisions[h].key, Facts.ClaimOf(f.revisions[h], h));
        RevisionHasClaim(operations, f, h);
        var current := f.claims[f.revisions[h].key].source;
        assert !Newer(f.revisions, h, current) && !Newer(f.revisions, current, h);
      }
    }
  }

  // ------------------------------------------------------ one commit, exactly

  ghost predicate TimesInRange(f: Database.Facts, bound: int) {
    forall k :: k in f.claims ==> f.claims[k].updated <= bound
  }

  /** The new revision sorts above the one it replaces. */
  predicate CanGrow(f: Database.Facts, key: FactKey, hash: Hash) {
    key in f.claims ==> f.claims[key].updated < I64_MAX || hash > f.claims[key].source
  }

  /** From tables that agree, a fact commit leads to tables that agree exactly when the
      previous revision's time can still grow or its hash is the smaller one: past
      `i64::MAX` the saturating addition stops, and with it the strict order. */
  lemma CommitAgreesExactly(operations: seq<Operation>, o: Operation, f: Database.Facts, f': Database.Facts,
          r: Revision, now: Clock)
    requires Facts.Ledger(operations, f) && Facts.Grounded(operations, f) && !HashTaken(operations, o.hash)
    requires Facts.Writes(f, f', r, o.hash) && r.asserted == RevisionTime(ClaimAt(f, r.key), now)
    requires TimesInRange(f, I64_MAX) && CurrentIsLatest(f)
    ensures CurrentIsLatest(f') <==> CanGrow(f, r.key, o.hash)
  {
    WriteRestates(operations, f, f', r, o.hash);
    OthersStayLatest(operations, f, f', r, o.hash);
    OwnLatest(operations, f, f', r, o.hash, now);
    assert CurrentIsLatest(f') ==> r.key in f'.claims;
  }

  lemma WriteRestates(operations: seq<Operation>, f: Database.Facts, f': Database.Facts, r: Revision, hash: Hash)
    requires Facts.Ledger(operations, f) && Facts.Writes(f, f', r, hash)
    ensures Restates(f, f', r, hash)
    ensures f'.claims.Keys == f.claims.Keys + {r.key} && f'.claims[r.key] == Facts.ClaimOf(r, hash)
    ensures forall k :: k in f.claims && k != r.key ==> f'.claims[k] == f.claims[k]
  {
    Facts.OtherRevisionsStay(operations, f, f', r, hash);
  }

  lemma OwnLatest(operations: seq<Operation>, f: Database.Facts, f': Database.Facts, r: Revision, hash: Hash,
          now: Clock)
    requires Facts.Ledger(operations, f) && Facts.Grounded(operations, f) && Restates(f, f', r, hash)
    requires r.asserted == RevisionTime(ClaimAt(f, r.key), now) && TimesInRange(f, I64_MAX) && CurrentIsLatest(f)
    ensures Latest(f'.revisions, hash) <==> CanGrow(f, r.key, hash)
  {
    if r.key in f.claims {
      CurrentRow(operations, f, r.key);
      NewestOrNot(f, f', r, hash);
    } else {
      forall g | g in f'.revisions && f'.revisions[g].key == r.key ensures g == hash {
        if g != hash { RevisionHasClaim(operations, f, g); }
      }
    }
  }

  /** Keys and times never change when a revision is superseded. */
  ghost predicate Restates(f: Database.Facts, f': Database.Facts, r: Revision, hash: Hash) {
    && f'.revisions.Keys == f.revisions.Keys + {hash} && hash !in f.revisions && f'.revisions[hash] == r
    && forall h :: h in f.revisions ==>
        f'.revisions[h].key == f.revisions[h].key && f'.revisions[h].asserted == f.revisions[h].asserted
  }

  lemma OtherLatestStays(f: Database.Facts, f': Database.Facts, r: Revision, hash: Hash, h: Hash)
    requires Restates(f, f', r, hash) && h in f.revisions && f.revisions[h].key != r.key && Latest(f.revisions, h)
    ensures Latest(f'.revisions, h)
  {
  }

  lemma OthersStayLatest(operations: seq<Operation>, f: Database.Facts, f': Database.Facts, r: Revision, hash: Hash)
    requires Facts.Ledger(operations, f) && CurrentIsLatest(f) && Restates(f, f', r, hash)
    requires f'.claims.Keys == f.claims.Keys + {r.key} && forall k :: k in f.claims && k != r.key ==>
              f'.claims[k] == f.claims[k]
    ensures forall k :: k in f.claims && k != r.key ==>
              f'.claims[k].source in f'.revisions && Latest(f'.revisions, f'.claims[k].source)
  {
    forall k | k in f.claims && k != r.key
      ensures f'.claims[k].source in f'.revisions && Latest(f'.revisions, f'.claims[k].source)
    {
      CurrentRow(operations, f, k);
      OtherLatestStays(f, f', r, hash, f.claims[k].source);
    }
  }

  lemma NewestOrNot(f: Database.Facts, f': Database.Facts, r: Revision, hash: Hash)
    requires Restates(f, f', r, hash) && r.key in f.claims
    requires var c := f.claims[r.key].source;
             && c in f.revisions && f.revisions[c].key == r.key && Latest(f.revisions, c)
             && f.revisions[c].asserted == f.claims[r.key].updated <= r.asserted
             && (f.claims[r.key].updated == r.asserted <==> f.claims[r.key].updated >= I64_MAX)
    ensures Latest(f'.revisions, hash) <==> CanGrow(f, r.key, hash)
  {
  }

  // ------------------------------------------------------------- real times

  /** Every stored time is one a clock can show, for saturation stops there too. */
  ghost predicate RealTimes(f: Database.Facts) {
    && (forall k :: k in f.claims ==> 0 <= f.claims[k].updated <= I64_MAX)
    && (forall h :: h in f.revisions ==> 0 <= f.revisions[h].asserted <= I64_MAX)
  }

  lemma WriteKeepsTimes(operations: seq<Operation>, f: Database.Facts, f': Database.Facts, r: Revision, hash: Hash,
          now: Clock)
    requires Facts.Ledger(operations, f) && Facts.Writes(f, f', r, hash) && RealTimes(f)
    requires r.asserted == RevisionTime(ClaimAt(f, r.key), now)
    ensures RealTimes(f')
  {
    WriteRestates(operations, f, f', r, hash);
  }

  lemma CommitKeepsTimes(s: System, id: nat, now: Clock)
    requires Inv(s) && id in s.tasks && s.tasks[id].Committing? && CommitLocal(s.db, s.tasks[id].commit, now).Ok?
    requires RealTimes(s.db.facts)
    ensures RealTimes(CommitLocal(s.db, s.tasks[id].commit, now).value.facts)
  {
    var c := s.tasks[id].commit;
    assert TaskInv(s.db, s.tasks[id]);
    var db' := CommitLocal(s.db, c, now).value;
    CommitParts(s.db, c, now, db');
    if |c.projections| == 1 && c.projections[0].FactRevision? {
      var o, p := OperationRow(c, now), c.projections[0].fact;
      var r := Facts.ApplyWrites(s.db.docs.operations, o, s.db.facts, c.document.app, p, now, db'.facts);
      WriteKeepsTimes(s.db.docs.operations, s.db.facts, db'.facts, r, o.hash, now);
    }
  }

  lemma {:induction false} RunTimes(labels: seq<Label>)
    ensures RealTimes(Run(labels).db.facts)
  {
    if labels != [] {
      var front, l := labels[..|labels| - 1], labels[|labels| - 1];
      RunTimes(front);
      RunInv(front);
      TimesStay(Run(front), l);
    }
  }

  lemma TimesStay(s: System, l: Label)
    requires Inv(s) && RealTimes(s.db.facts)
    ensures RealTimes(Next(s, l).db.facts)
  {
    Theorems.OnlyCommitsWriteClaims(s, l);
    if !(Next(s, l).db.facts.claims == s.db.facts.claims && Next(s, l).db.facts.revisions == s.db.facts.revisions) {
      CommitKeepsTimes(s, l.id, l.now);
    }
  }

  // ---------------------------------------------------- one assertion, exactly

  /** The facts after an undisturbed assertion. */
  lemma AssertionWrites(s: System, command: Command, fact: AssertFact, schema: FactSchema, forged: Forged, now: Clock)
    returns (r: Revision)
    requires DbInv(s.db) && Progress.AssertionAllowed(s, command, fact, schema)
    requires var w := Progress.AssertionWrite(s, command, fact, schema);
             && Progress.HeadRoom(s.db.docs, w.document, forged.author) &&
                 Progress.Unused(s.db.docs, command, forged.hash)
             && CommitLocal(s.db, Progress.Fresh(s.db.docs, w, forged), now).Ok?
    ensures var f := s.db.facts;
            var f' := CommitLocal(s.db,
                Progress.Fresh(s.db.docs, Progress.AssertionWrite(s, command, fact, schema), forged), now).value.facts;
            && r.key == FactKeyOf(command, fact) && r.topic == fact.topic && r.status == fact.status
            && Facts.Writes(f, f', r, forged.hash) && r.asserted == RevisionTime(ClaimAt(f, r.key), now)
  {
    var w := Progress.AssertionWrite(s, command, fact, schema);
    var c, p := Progress.Fresh(s.db.docs, w, forged), w.projections[0].fact;
    CommitParts(s.db, c, now, CommitLocal(s.db, c, now).value);
    AcceptedConforms(s.db.facts, fact, Facts.SchemaOf(command.caller, fact.topic), schema);
    AcceptedFactFits(s.db.facts, command, fact, schema);
    FactWriteReady(s.db, command, fact, schema);
    assert ProjectionReady(s.db, w.document, w.projections[0]);
    r := Facts.ApplyWrites(s.db.docs.operations, OperationRow(c, now), s.db.facts, c.document.app, p, now,
                           CommitLocal(s.db, c, now).value.facts);
  }

  /** From every reachable state in which the tables agree an allowed assertion leads to
      tables that agree exactly when its claim can grow. */
  lemma AssertionAgreesExactly(labels: seq<Label>, id: nat, command: Command, fact: AssertFact, schema: FactSchema,
          forged: Forged, now: Clock)
    returns (more: seq<Label>)
    requires var s := Run(labels);
             && id !in s.tasks && Progress.AssertionAllowed(s, command, fact, schema) && CurrentIsLatest(s.db.facts)
             && Progress.HeadRoom(s.db.docs, Progress.AssertionWrite(s, command, fact, schema).document, forged.author)
             && Progress.Unused(s.db.docs, command, forged.hash)
    ensures var f, f' := Run(labels).db.facts, Run(labels + more).db.facts;
            && (CurrentIsLatest(f') <==> CanGrow(f, FactKeyOf(command, fact), forged.hash))
            && (CurrentRows(f') == ExpectedRows(f') <==> CanGrow(f, FactKeyOf(command, fact), forged.hash))
    ensures var s := Run(labels);
            var c := Progress.Fresh(s.db.docs, Progress.AssertionWrite(s, command, fact, schema), forged);
            CommitLocal(s.db, c, now).Ok? && Progress.After(s, more) == Progress.Committed(s, id, c, now)
  {
    RunInv(labels);
    RunTimes(labels);
    more := AssertionAgrees(Run(labels), id, command, fact, schema, forged, now);
    Progress.RunAfter(labels, more);
    RunInv(labels + more);
    TablesAgree(Run(labels + more).db.docs.operations, Run(labels + more).db.facts);
  }

  lemma AssertionAgrees(s: System, id: nat, command: Command, fact: AssertFact, schema: FactSchema, forged: Forged,
          now: Clock)
    returns (more: seq<Label>)
    requires DbInv(s.db) && RealTimes(s.db.facts) && CurrentIsLatest(s.db.facts)
    requires id !in s.tasks && Progress.AssertionAllowed(s, command, fact, schema)
    requires Progress.HeadRoom(s.db.docs, Progress.AssertionWrite(s, command, fact, schema).document, forged.author)
    requires Progress.Unused(s.db.docs, command, forged.hash)
    ensures CurrentIsLatest(Progress.After(s, more).db.facts) <==>
              CanGrow(s.db.facts, FactKeyOf(command, fact), forged.hash)
    ensures var c := Progress.Fresh(s.db.docs, Progress.AssertionWrite(s, command, fact, schema), forged);
            && CommitLocal(s.db, c, now).Ok?
            && Progress.After(s, more) == Progress.Committed(s, id, c, now)
  {
    more := Progress.UndisturbedAssertionCommits(s, id, command, fact, schema, forged, now);
    var c := Progress.Fresh(s.db.docs, Progress.AssertionWrite(s, command, fact, schema), forged);
    var r := AssertionWrites(s, command, fact, schema, forged, now);
    CommitAgreesExactly(s.db.docs.operations, OperationRow(c, now), s.db.facts, CommitLocal(s.db, c, now).value.facts,
        r, now);
  }

  // ---------------------------------------------------------------- all runs

  /** The readings of every commit's clock stay at or below `latest`. */
  ghost predicate ClocksUpTo(labels: seq<Label>, latest: int) {
    forall l :: l in labels && l.Call? ==> l.now <= latest
  }

  lemma FactStep(operations: seq<Operation>, o: Operation, f: Database.Facts, app: string, p: FactProjection,
          now: Clock, f': Database.Facts, bound: int)
    requires Facts.Ledger(operations, f) && Facts.Grounded(operations, f) && !HashTaken(operations, o.hash)
    requires Facts.FactReady(f, app, p) && ApplyFact(f, app, o.author, o.hash, p, now) == Ok(f')
    requires CurrentIsLatest(f) && TimesInRange(f, bound) && now <= bound + 1 <= I64_MAX
    ensures CurrentIsLatest(f') && TimesInRange(f', bound + 1)
  {
    var r := Facts.ApplyWrites(operations, o, f, app, p, now, f');
    CommitAgreesExactly(operations, o, f, f', r, now);
  }

  lemma CommitStep(s: System, id: nat, now: Clock, bound: int)
    requires Inv(s) && id in s.tasks && s.tasks[id].Committing? && CommitLocal(s.db, s.tasks[id].commit, now).Ok?
    requires CurrentIsLatest(s.db.facts) && TimesInRange(s.db.facts, bound) && now <= bound + 1 <= I64_MAX
    ensures var f' := CommitLocal(s.db, s.tasks[id].commit, now).value.facts;
            CurrentIsLatest(f') && TimesInRange(f', bound + 1)
  {
    var c := s.tasks[id].commit;
    assert TaskInv(s.db, s.tasks[id]);
    var db' := CommitLocal(s.db, c, now).value;
    CommitParts(s.db, c, now, db');
    if |c.projections| == 1 && c.projections[0].FactRevision? {
      FactStep(s.db.docs.operations, OperationRow(c, now), s.db.facts, c.document.app, c.projections[0].fact, now,
          db'.facts, bound);
    }
  }

  lemma {:induction false} RunAgrees(labels: seq<Label>, latest: int)
    requires ClocksUpTo(labels, latest) && 0 <= latest && latest + |labels| <= I64_MAX
    ensures CurrentIsLatest(Run(labels).db.facts) && TimesInRange(Run(labels).db.facts, latest + |labels|)
  {
    if labels != [] {
      var front, l := labels[..|labels| - 1], labels[|labels| - 1];
      assert labels == front + [l];
      RunAgrees(front, latest);
      RunInv(front);
      var s := Run(front);
      Theorems.OnlyCommitsWriteClaims(s, l);
      if !(Next(s, l).db.facts.claims == s.db.facts.claims && Next(s, l).db.facts.revisions == s.db.facts.revisions) {
        CommitStep(s, l.id, l.now, latest + |front|);
      }
    }
  }

  /** The check finds the tables equal in every reachable state, whichever way the clock
      moves, as long as its readings leave room for one millisecond per step. */
  lemma AlwaysConsistent(labels: seq<Label>, latest: int)
    requires ClocksUpTo(labels, latest) && 0 <= latest && latest + |labels| <= I64_MAX
    ensures CurrentRows(Run(labels).db.facts) == ExpectedRows(Run(labels).db.facts)
  {
    RunAgrees(labels, latest);
    RunInv(labels);
    TablesAgree(Run(labels).db.docs.operations, Run(labels).db.facts);
  }

  // ----------------------------------------------------------- the joined keys

  function Joined(key: FactKey): string {
    key.app + "/" + key.community + "/" + key.claim
  }

  /** The check files its rows under the joined key; a later row replaces an earlier. */
  function Filed(rows: seq<Row>): map<string, Row> {
    if rows == [] then map[] else Filed(rows[..|rows| - 1])[Joined(rows[|rows| - 1].0) := rows[|rows| - 1]]
  }

  function RowSet(rows: seq<Row>): set<Row> { set r | r in rows }

  /** `ORDER BY app_id, community_id, claim_id`, whatever the collation. */
  ghost predicate Sorted(rows: seq<Row>, before: (FactKey, FactKey) -> bool) {
    forall i, j :: 0 <= i < j < |rows| ==> before(rows[i].0, rows[j].0)
  }

  ghost predicate Asymmetric(before: (FactKey, FactKey) -> bool) {
    forall k, k' :: before(k, k') ==> !before(k', k)
  }

  /** Two sorted listings of the same rows are the same listing. */
  lemma {:induction false} SortedOnce(a: seq<Row>, b: seq<Row>, before: (FactKey, FactKey) -> bool)
    requires Asymmetric(before) && Sorted(a, before) && Sorted(b, before)
    requires forall r :: r in a <==> r in b
    ensures a == b
  {
    HeadListed(a);
    HeadListed(b);
    if a != [] && b != [] {
      FirstRowsMeet(a, b, before);
      forall r ensures r in a[1..] <==> r in b[1..] {
        RestOfRows(a, before, r);
        RestOfRows(b, before, r);
      }
      SortedOnce(a[1..], b[1..], before);
    }
  }

  lemma FirstRowsMeet(a: seq<Row>, b: seq<Row>, before: (FactKey, FactKey) -> bool)
    requires Asymmetric(before) && Sorted(a, before) && Sorted(b, before) && a != [] && b != []
    requires forall r :: r in a <==> r in b
    ensures a[0] == b[0]
  {
    assert a[0] in b && b[0] in a;
    var i :| 0 <= i < |b| && b[i] == a[0];
    var j :| 0 <= j < |a| && a[j] == b[0];
    if i > 0 && j > 0 {
      assert false;
    }
  }

  lemma HeadListed(rows: seq<Row>)
    ensures rows != [] ==> rows[0] in rows
  {
  }

  lemma RestOfRows(rows: seq<Row>, before: (FactKey, FactKey) -> bool, r: Row)
    requires Asymmetric(before) && Sorted(rows, before) && rows != []
    ensures r in rows[1..] <==> r in rows && r != rows[0]
  {
  }

  /** In every reachable state the check reports consistency, even where ids contain
      slashes: equal tables listed in one order are filed alike. */
  lemma AlwaysReportsConsistency(labels: seq<Label>, latest: int, current: seq<Row>, expected: seq<Row>,
          before: (FactKey, FactKey) -> bool)
    requires ClocksUpTo(labels, latest) && 0 <= latest && latest + |labels| <= I64_MAX
    requires Asymmetric(before) && Sorted(current, before) && Sorted(expected, before)
    requires RowSet(current) == CurrentRows(Run(labels).db.facts) &&
              RowSet(expected) == ExpectedRows(Run(labels).db.facts)
    ensures Filed(current) == Filed(expected)
  {
    AlwaysConsistent(labels, latest);
    SameListing(current, expected, before);
  }

  lemma SameListing(current: seq<Row>, expected: seq<Row>, before: (FactKey, FactKey) -> bool)
    requires Asymmetric(before) && Sorted(current, before) && Sorted(expected, before) &&
              RowSet(current) == RowSet(expected)
    ensures current == expected
  {
    forall r ensures r in current <==> r in expected {
      assert r in current <==> r in RowSet(current);
      assert r in expected <==> r in RowSet(expected);
    }
    SortedOnce(current, expected, before);
  }

  // ---------------------------------------------------------- the report

  const MAX_EXAMPLES: nat := 10

  predicate Differs(current: map<string, Row>, expected: map<string, Row>, key: string) {
    (key in current) != (key in expected) || (key in current && current[key] != expected[key])
  }

  /** The loop that gathers examples: distinct keys that differ, all of them unless the
      list is full, and none exactly when the tables are filed alike. `keys` lists the
      keys of both tables, those in both twice. */
  method Report(current: map<string, Row>, expected: map<string, Row>, keys: seq<string>)
    returns (consistent: bool, mismatches: seq<string>)
    requires forall k :: k in keys <==> k in current || k in expected
    ensures consistent <==> current == expected
    ensures consistent <==> mismatches == []
    ensures |mismatches| <= MAX_EXAMPLES
    ensures forall i, j :: 0 <= i < j < |mismatches| ==> mismatches[i] != mismatches[j]
    ensures forall k :: k in mismatches ==> Differs(current, expected, k)
    ensures |mismatches| < MAX_EXAMPLES ==> forall k :: Differs(current, expected, k) ==> k in mismatches
  {
    mismatches := [];
    var i := 0;
    while i < |keys|
      invariant 0 <= i <= |keys| && |mismatches| < MAX_EXAMPLES
      invariant forall i, j :: 0 <= i < j < |mismatches| ==> mismatches[i] != mismatches[j]
      invariant forall k :: k in mismatches ==> Differs(current, expected, k)
      invariant forall k :: k in keys[..i] && Differs(current, expected, k) ==> k in mismatches
    {
      var key := keys[i];
      if Differs(current, expected, key) && key !in mismatches {
        mismatches := mismatches + [key];
        if |mismatches| == MAX_EXAMPLES { break; }
      }
      i := i + 1;
    }
    consistent := current == expected;
    AlikeWithoutDifference(current, expected, mismatches);
  }

  lemma AlikeWithoutDifference(current: map<string, Row>, expected: map<string, Row>, mismatches: seq<string>)
    requires forall k :: k in mismatches ==> Differs(current, expected, k)
    requires mismatches == [] ==> forall k :: !Differs(current, expected, k)
    ensures current == expected <==> mismatches == []
  {
    if mismatches == [] {
      assert forall k :: (k in current <==> k in expected) && (k in current ==> current[k] == expected[k]) by {
        forall k ensures (k in current <==> k in expected) && (k in current ==> current[k] == expected[k]) {
          assert !Differs(current, expected, k);
        }
      }
    } else {
      assert mismatches[0] in mismatches;
    }
  }

  // ------------------------------------------------------ which keys it can tell

  /** No two of the claims share a joined key. */
  predicate KeysApart(keys: set<FactKey>) {
    forall k, k' :: k in keys && k' in keys && Joined(k) == Joined(k') ==> k == k'
  }

  /** One row for each of some claims. */
  predicate Lists(rows: seq<Row>, keys: set<FactKey>) {
    (forall i, j :: 0 <= i < j < |rows| ==> rows[i].0 != rows[j].0) && forall r :: r in rows ==> r.0 in keys
  }

  lemma {:induction false} FiledRows(rows: seq<Row>, keys: set<FactKey>)
    requires KeysApart(keys) && Lists(rows, keys)
    ensures forall r :: r in rows ==> Joined(r.0) in Filed(rows) && Filed(rows)[Joined(r.0)] == r
    ensures forall s :: s in Filed(rows) ==> Filed(rows)[s] in rows && Joined(Filed(rows)[s].0) == s
  {
    if rows != [] {
      var front, last := rows[..|rows| - 1], rows[|rows| - 1];
      assert rows == front + [last];
      FiledRows(front, keys);
      assert last in rows;
      forall r | r in rows ensures Joined(r.0) in Filed(rows) && Filed(rows)[Joined(r.0)] == r {
        if r in front { assert Joined(r.0) != Joined(last.0); }
      }
    }
  }

  /** Where the joined keys tell the claims apart, the check reports consistency exactly
      when the two tables are equal. */
  lemma CheckExact(current: seq<Row>, expected: seq<Row>, keys: set<FactKey>)
    requires KeysApart(keys) && Lists(current, keys) && Lists(expected, keys)
    ensures Filed(current) == Filed(expected) <==> RowSet(current) == RowSet(expected)
  {
    FiledRows(current, keys);
    FiledRows(expected, keys);
    var a, b := Filed(current), Filed(expected);
    if RowSet(current) == RowSet(expected) {
      forall s | s in a ensures s in b && b[s] == a[s] {
        assert a[s] in RowSet(expected);
      }
      forall s | s in b ensures s in a && a[s] == b[s] {
        assert b[s] in RowSet(current);
      }
      assert a.Keys == b.Keys;
    } else if a == b {
      forall r | r in RowSet(current) ensures r in RowSet(expected) {
        assert b[Joined(r.0)] == r;
      }
      forall r | r in RowSet(expected) ensures r in RowSet(current) {
        assert a[Joined(r.0)] == r;
      }
    }
  }

  /** Where they do not, the check misses a difference: of two claims that share a joined
      key it sees only the one listed last. */
  lemma SharedKeyHidesRow(a: Row, b: Row)
    requires a.0 != b.0 && Joined(a.0) == Joined(b.0)
    ensures Filed([a, b]) == Filed([b]) && RowSet([a, b]) != RowSet([b])
  {
    assert [a, b][..1] == [a] && [a][..0] == [] && [b][..0] == [];
    assert Filed([a]) == map[Joined(a.0) := a];
    assert Filed([b]) == map[Joined(b.0) := b];
    assert a in RowSet([a, b]) && a !in RowSet([b]);
  }

  ghost predicate Exact(keys: set<FactKey>) {
    forall current, expected :: Lists(current, keys) && Lists(expected, keys) ==>
      (Filed(current) == Filed(expected) <==> RowSet(current) == RowSet(expected))
  }

  /** The check is exact over some claims if and only if no two of them share a key. */
  lemma ExactWhenKeysApart(keys: set<FactKey>, claim: Claim)
    ensures Exact(keys) <==> KeysApart(keys)
  {
    if KeysApart(keys) {
      forall current, expected | Lists(current, keys) && Lists(expected, keys)
        ensures Filed(current) == Filed(expected) <==> RowSet(current) == RowSet(expected)
      {
        CheckExact(current, expected, keys);
      }
    }
    if !KeysApart(keys) {
      var k, k' :| k in keys && k' in keys && Joined(k) == Joined(k') && k != k';
      SharedKeyHidesRow((k, claim), (k', claim));
      assert Lists([(k, claim), (k', claim)], keys) && Lists([(k', claim)], keys);
    }
  }

  // -------------------------------------------------------- slash-free ids

  predicate Plain(key: FactKey) { '/' !in key.app && '/' !in key.community }

  lemma JoinedInjective(k: FactKey, k': FactKey)
    requires Plain(k) && Plain(k') && Joined(k) == Joined(k')
    ensures k == k'
  {
    assert Joined(k) == k.app + "/" + (k.community + "/" + k.claim);
    assert Joined(k') == k'.app + "/" + (k'.community + "/" + k'.claim);
    Lexical.FirstSeparator(k.app, k.community + "/" + k.claim, k'.app, k'.community + "/" + k'.claim, '/');
    Lexical.FirstSeparator(k.community, k.claim, k'.community, k'.claim, '/');
  }

  /** While application and community ids hold no slash, the keys are apart. */
  lemma PlainKeysApart(keys: set<FactKey>)
    requires forall k :: k in keys ==> Plain(k)
    ensures KeysApart(keys)
  {
    forall k, k' | k in keys && k' in keys && Joined(k) == Joined(k') ensures k == k' {
      JoinedInjective(k, k');
    }
  }

  /** With a slash in one they need not be. */
  lemma SlashesHideRows()
    ensures !KeysApart({FactKey("a/b", "c", "d"), FactKey("a", "b/c", "d")})
  {
    var k, k' := FactKey("a/b", "c", "d"), FactKey("a", "b/c", "d");
    assert Joined(k) == "a/b/c/d" && Joined(k') == "a/b/c/d" && |k.app| != |k'.app|;
  }
}
