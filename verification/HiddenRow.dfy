/** A run in which the tables of the projection check differ and the check, which files
    rows under joined keys, reports consistency all the same. */
module HiddenRow {
  import opened Wrappers
  import opened Domain
  import opened Database
  import opened Protocol
  import opened Safety
  import opened Progress
  import opened ProjectionCheck
  import Facts = FactLedger
  import Lexical
  import Theorems
  import Witnesses

  /** `ORDER BY app_id, community_id, claim_id` under the binary collation. */
  predicate KeyBefore(k: FactKey, k': FactKey) {
    || Lexical.TextBefore(k.app, k'.app)
    || (k.app == k'.app && Lexical.TextBefore(k.community, k'.community))
    || (k.app == k'.app && k.community == k'.community && Lexical.TextBefore(k.claim, k'.claim))
  }

  /** Rows of one joined key: the check sees the last. */
  lemma {:induction false} LastIsFiled(rows: seq<Row>, at: string)
    requires rows != [] && forall r :: r in rows ==> Joined(r.0) == at
    ensures Filed(rows) == map[at := rows[|rows| - 1]]
  {
    var front, last := rows[..|rows| - 1], rows[|rows| - 1];
    assert last in rows && Joined(last.0) == at;
    if front != [] {
      assert forall r :: r in front ==> r in rows;
      LastIsFiled(front, at);
    } else {
      assert Filed(front) == map[];
    }
  }

  lemma LatestIsUnique(revisions: Revisions, g: Hash, h: Hash)
    requires g in revisions && h in revisions && revisions[g].key == revisions[h].key
    requires Latest(revisions, g) && Latest(revisions, h)
    ensures g == h
  {
    assert !Newer(revisions, g, h) && !Newer(revisions, h, g);
  }

  /** In a store of one claim both tables have at most one row, and the first has one. */
  lemma OneClaimTables(operations: seq<Operation>, f: Database.Facts, key: FactKey) returns (expected: seq<Row>)
    requires Facts.Ledger(operations, f) && Facts.Grounded(operations, f) && f.claims.Keys == {key}
    ensures CurrentRows(f) == {(key, f.claims[key])}
    ensures RowSet(expected) == ExpectedRows(f) && |expected| <= 1 && forall r :: r in expected ==> r.0 == key
  {
    assert CurrentRows(f) == {(key, f.claims[key])};
    forall h | h in f.revisions ensures f.revisions[h].key == key {
      RevisionHasClaim(operations, f, h);
    }
    expected := [];
    if h :| h in f.revisions && Latest(f.revisions, h) {
      expected := [(key, Facts.ClaimOf(f.revisions[h], h))];
      forall g | g in f.revisions && Latest(f.revisions, g) ensures g == h {
        LatestIsUnique(f.revisions, g, h);
      }
      assert ExpectedRows(f) == {expected[0]};
    } else {
      assert ExpectedRows(f) == {};
    }
  }

  /** A claim's first revision adds the same row to both tables. */
  lemma NewClaimAddsRow(operations: seq<Operation>, f: Database.Facts, f': Database.Facts, r: Revision, hash: Hash)
    requires Facts.Ledger(operations, f) && Facts.Grounded(operations, f) && Facts.Writes(f, f', r, hash)
    requires r.key !in f.claims
    ensures CurrentRows(f') == CurrentRows(f) + {(r.key, Facts.ClaimOf(r, hash))}
    ensures ExpectedRows(f') == ExpectedRows(f) + {(r.key, Facts.ClaimOf(r, hash))}
  {
    forall h | h in f.revisions ensures f.revisions[h].key != r.key {
      RevisionHasClaim(operations, f, h);
    }
    assert f'.revisions == f.revisions[hash := r];
    CurrentGrows(f, f', r, hash);
    ExpectedGrows(f, f', r, hash);
  }

  lemma CurrentGrows(f: Database.Facts, f': Database.Facts, r: Revision, hash: Hash)
    requires f'.claims == f.claims[r.key := Facts.ClaimOf(r, hash)] && r.key !in f.claims
    ensures CurrentRows(f') == CurrentRows(f) + {(r.key, Facts.ClaimOf(r, hash))}
  {
    assert forall k :: k in f'.claims <==> k in f.claims || k == r.key;
    assert forall k :: k in f.claims ==> f'.claims[k] == f.claims[k];
  }

  lemma LatestStays(revisions: Revisions, r: Revision, hash: Hash, h: Hash)
    requires hash !in revisions && h in revisions && revisions[h].key != r.key
    ensures Latest(revisions[hash := r], h) <==> Latest(revisions, h)
  {
    var after := revisions[hash := r];
    if Latest(after, h) {
      forall g | g in revisions && revisions[g].key == revisions[h].key ensures !Newer(revisions, g, h) {
        assert g in after && !Newer(after, g, h);
      }
    }
  }

  lemma ExpectedGrows(f: Database.Facts, f': Database.Facts, r: Revision, hash: Hash)
    requires f'.revisions == f.revisions[hash := r] && hash !in f.revisions
    requires forall h :: h in f.revisions ==> f.revisions[h].key != r.key
    ensures ExpectedRows(f') == ExpectedRows(f) + {(r.key, Facts.ClaimOf(r, hash))}
  {
    forall h | h in f.revisions ensures Latest(f'.revisions, h) <==> Latest(f.revisions, h) {
      LatestStays(f.revisions, r, hash, h);
    }
    assert Latest(f'.revisions, hash);
    assert forall h :: h in f'.revisions <==> h in f.revisions || h == hash;
  }

  /** The other claim's first assertion is allowed, under a schema of its own. */
  lemma OtherAllowed(s: System, r: Registration, fact: AssertFact, command: Command, key: FactKey)
    requires Witnesses.OnlyClaim(s.db, key) && Witnesses.Reassertable(r, fact) && r.key.app != key.app
    requires command.caller == r.key.app
    ensures Registered(s, r) == s.(db := s.db.(facts := s.db.facts.(schemas := s.db.facts.schemas[r.key := r.schema])))
    ensures AssertionAllowed(Registered(s, r), command, fact, r.schema)
    ensures FactKeyOf(command, fact) !in s.db.facts.claims
    ensures Unused(s.db.docs, command, 7)
    ensures HeadRoom(s.db.docs, AssertionWrite(Registered(s, r), command, fact, r.schema).document, 9)
  {
  }

  /** A listing of rows of one key, with a later row of another behind it. */
  lemma AddsLast(rows: set<Row>, listing: seq<Row>, row: Row, key: FactKey, other: FactKey)
    requires RowSet(listing) == rows && |listing| <= 1 && (forall r :: r in listing ==> r.0 == key)
    requires row.0 == other && Joined(other) == Joined(key) && KeyBefore(key, other)
    ensures RowSet(listing + [row]) == rows + {row} && Sorted(listing + [row], KeyBefore)
    ensures Filed(listing + [row]) == map[Joined(key) := row]
  {
    assert forall r :: r in listing + [row] <==> r in listing || r == row;
    assert forall i :: 0 <= i < |listing| ==> listing[i] in listing;
    LastIsFiled(listing + [row], Joined(key));
  }

  /** The two tables differ, and their listings, in the check's order, are filed alike. */
  ghost predicate Hides(f: Database.Facts, current: seq<Row>, expected: seq<Row>) {
    && CurrentRows(f) != ExpectedRows(f) && RowSet(current) == CurrentRows(f) && RowSet(expected) == ExpectedRows(f)
    && Sorted(current, KeyBefore) && Sorted(expected, KeyBefore) && Filed(current) == Filed(expected)
  }

  /** One row more in both tables, behind the rows of the one claim there was. */
  lemma RowHides(operations: seq<Operation>, f: Database.Facts, f': Database.Facts, key: FactKey, row: Row)
    returns (current: seq<Row>, expected: seq<Row>)
    requires Facts.Ledger(operations, f) && Facts.Grounded(operations, f) && f.claims.Keys == {key}
    requires CurrentRows(f) != ExpectedRows(f) && row.0 != key && Joined(row.0) == Joined(key) && KeyBefore(key, row.0)
    requires CurrentRows(f') == CurrentRows(f) + {row} && ExpectedRows(f') == ExpectedRows(f) + {row}
    ensures Hides(f', current, expected)
  {
    expected := OneClaimTables(operations, f, key);
    current := [(key, f.claims[key])];
    assert RowSet(current) == CurrentRows(f);
    AddsLast(CurrentRows(f), current, row, key, row.0);
    AddsLast(ExpectedRows(f), expected, row, key, row.0);
    StillDiffer(current, expected, row, key);
    current, expected := current + [row], expected + [row];
  }

  lemma StillDiffer(current: seq<Row>, expected: seq<Row>, row: Row, key: FactKey)
    requires RowSet(current) != RowSet(expected) && row.0 != key
    requires (forall r :: r in current ==> r.0 == key) && (forall r :: r in expected ==> r.0 == key)
    ensures RowSet(current) + {row} != RowSet(expected) + {row}
  {
    if r :| r in RowSet(current) && r !in RowSet(expected) {
      assert r in RowSet(current) + {row} && r !in RowSet(expected) + {row};
    } else {
      var r :| r in RowSet(expected) && r !in RowSet(current);
      assert r in RowSet(expected) + {row} && r !in RowSet(current) + {row};
    }
  }

  /** The first revision of a claim, asserted alone. */
  lemma FirstRevision(s: System, r: Registration, fact: AssertFact, command: Command)
    returns (more: seq<Label>, row: Row)
    requires DbInv(s.db) && 0 !in s.tasks && AssertionAllowed(s, command, fact, r.schema)
    requires FactKeyOf(command, fact) !in s.db.facts.claims && Unused(s.db.docs, command, 7)
    requires HeadRoom(s.db.docs, AssertionWrite(s, command, fact, r.schema).document, 9)
    ensures var f, f' := s.db.facts, After(s, more).db.facts;
            && row.0 == FactKeyOf(command, fact)
            && CurrentRows(f') == CurrentRows(f) + {row} && ExpectedRows(f') == ExpectedRows(f) + {row}
  {
    var forged := Witnesses.Forge(7, 9);
    more := UndisturbedAssertionCommits(s, 0, command, fact, r.schema, forged, 0);
    var written := AssertionWrites(s, command, fact, r.schema, forged, 0);
    row := (written.key, Facts.ClaimOf(written, 7));
    NewClaimAddsRow(s.db.docs.operations, s.db.facts, After(s, more).db.facts, written, 7);
  }

  lemma RegisterLast(past: seq<Label>, r: Registration)
    ensures Run(past + [Register(r)]) == Registered(Run(past), r) && DbInv(Registered(Run(past), r).db)
  {
    assert (past + [Register(r)])[..|past|] == past;
    RunInv(past + [Register(r)]);
  }

  /** A schema for the second application, and its claim. */
  lemma OtherAsserted(past: seq<Label>, key: FactKey, r: Registration, fact: AssertFact)
    returns (labels: seq<Label>, row: Row)
    requires Run(past).tasks == map[] && Witnesses.OnlyClaim(Run(past).db, key)
    requires Witnesses.Reassertable(r, fact) && r.key.app != key.app
    ensures var f, f' := Run(past).db.facts, Run(labels).db.facts;
            && row.0 == FactKey(r.key.app, fact.community, fact.claim)
            && CurrentRows(f') == CurrentRows(f) + {row} && ExpectedRows(f') == ExpectedRows(f) + {row}
  {
    var command := Command(r.key.app, "1", 0);
    OtherAllowed(Run(past), r, fact, command, key);
    RegisterLast(past, r);
    var more;
    more, row := FirstRevision(Registered(Run(past), r), r, fact, command);
    labels := past + [Register(r)] + more;
    RunOn(past, r, more);
    SameRows(Run(past).db.facts, Registered(Run(past), r).db.facts);
  }

  lemma RunOn(past: seq<Label>, r: Registration, more: seq<Label>)
    ensures Run(past + [Register(r)] + more) == After(Registered(Run(past), r), more)
  {
    RegisterLast(past, r);
    RunAfter(past + [Register(r)], more);
  }

  lemma SameRows(f: Database.Facts, f': Database.Facts)
    requires f'.claims == f.claims && f'.revisions == f.revisions
    ensures CurrentRows(f') == CurrentRows(f) && ExpectedRows(f') == ExpectedRows(f)
  {
  }

  lemma AtClaim(past: seq<Label>)
    ensures Facts.Ledger(Run(past).db.docs.operations, Run(past).db.facts)
    ensures Facts.Grounded(Run(past).db.docs.operations, Run(past).db.facts)
  {
    RunInv(past);
    Theorems.ReachedLedger(Run(past));
  }

  lemma KeysCollide()
    ensures Joined(FactKey("a/b", "c", "d")) == Joined(FactKey("a", "b/c", "d"))
    ensures KeyBefore(FactKey("a", "b/c", "d"), FactKey("a/b", "c", "d"))
    ensures "a" != "a/b" && "a" != PLANNING_NAMESPACE && "a/b" != PLANNING_NAMESPACE
  {
    assert |"a"| == 1 && |"a/b"| == 3 && |PLANNING_NAMESPACE| == 18;
    assert "a/b" + "/" + "c" + "/" + "d" == "a/b/c/d" && "a" + "/" + "b/c" + "/" + "d" == "a/b/c/d";
    assert "a"[1..] == [] && "a/b"[1..] == "/b" && "a"[0] == "a/b"[0];
    assert Lexical.TextBefore("a"[1..], "a/b"[1..]);
  }

  /** The check can report consistency while the tables differ: two applications, one
      called `a/b`, write claims whose keys join to one text, and the row that is not what
      it should be is the one that is overwritten. */
  lemma DifferenceIsHidden() returns (labels: seq<Label>, current: seq<Row>, expected: seq<Row>)
    ensures Hides(Run(labels).db.facts, current, expected)
  {
    KeysCollide();
    var r, fact := Witnesses.SomethingIsReassertable("a", "b/c", "d");
    var past := Witnesses.ExhaustedTimeDisagrees(r, fact);
    var r', fact' := Witnesses.SomethingIsReassertable("a/b", "c", "d");
    var key := FactKey("a", "b/c", "d");
    AtClaim(past);
    var other;
    labels, other := OtherAsserted(past, key, r', fact');
    current, expected := RowHides(Run(past).db.docs.operations, Run(past).db.facts, Run(labels).db.facts, key, other);
  }
}
