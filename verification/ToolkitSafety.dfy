/** What toolkit writes keep: on whatever catalogue they were checked, and on the one they
    are stored in. */
module ToolkitSafety {
  import opened Wrappers
  import opened ToolkitValues
  import opened ToolkitLedger
  import Json = JsonSchema

  // --------------------------------------------------------------- invariant

  /** Verified assertions that compete on a single-valued concept carry one value. */
  ghost predicate OneValue(c: Catalog) {
    forall a, b :: Compete(c, a, b) && SingleValued(c, c.assertions[a].concept) ==>
        c.assertions[a].value == c.assertions[b].value
  }

  /** An assertion's value fits its concept revision, and its state and review hash are
      functions of the set of its reviews. */
  ghost predicate RowOk(c: Catalog, id: string)
    requires id in c.assertions
  {
    var a := c.assertions[id];
    && a.tool in c.tools && a.concept in c.concepts
    && ValueFits(c.concepts[a.concept].definition, a.value, a.effective)
    && a.effective == Effective(c.reviews, id, a.initial)
    && a.reviewOperation == Smallest(OperationsOf(c.reviews, id))
  }

  ghost predicate RowsOk(c: Catalog) {
    forall id :: id in c.assertions ==> RowOk(c, id)
  }

  /** Of every concept exactly one revision is active, and reviews name assertions. */
  ghost predicate KeysOk(c: Catalog) {
    && (forall k, k' ::
          k in c.concepts && k' in c.concepts && k.0 == k'.0 && c.concepts[k].active && c.concepts[k'].active ==>
            k == k')
    && (forall k {:trigger Known(c, k.0)} :: k in c.concepts ==> Known(c, k.0))
    && (forall r :: r in c.reviews ==> c.reviews[r].assertion in c.assertions)
  }

  /** The definition is well shaped and every concept it refers to has an active revision. */
  ghost predicate DefinitionOk(c: Catalog, key: string, d: Definition) {
    && WellShaped(key, d)
    && (forall category {:trigger Known(c, category)} :: category in d.categories ==> Known(c, category))
    && (d.parent.Some? ==> Known(c, d.parent.value))
  }

  ghost predicate DefinitionsOk(c: Catalog) {
    forall k {:trigger DefinitionOk(c, k.0, c.concepts[k].definition)} ::
      k in c.concepts ==> DefinitionOk(c, k.0, c.concepts[k].definition)
  }

  /** What holds of the tables whatever the writers had read. */
  ghost predicate Sound(c: Catalog) { RowsOk(c) && KeysOk(c) && DefinitionsOk(c) }

  ghost predicate Inv(c: Catalog) { Sound(c) && OneValue(c) }

  // ------------------------------------------ one write on an earlier catalogue

  /** A concept that was known still is. */
  lemma KnownStays(seen: Catalog, c: Catalog, key: string)
    requires Keeps(seen, c) && KeysOk(c) && Known(seen, key)
    ensures Known(c, key)
  {
    var k :| k in seen.concepts && k.0 == key && seen.concepts[k].active;
    assert k in c.concepts;
  }

  lemma KnownAfter(c: Catalog, key: ConceptKey, definition: Definition, other: string)
    requires key !in c.concepts
    ensures var c' := Stored(c, ConceptRow(key, definition)).value;
            Known(c', other) <==> Known(c, other) || other == key.0
  {
    var c' := Stored(c, ConceptRow(key, definition)).value;
    assert key in c'.concepts && c'.concepts[key].active;
    if Known(c, other) && other != key.0 {
      var k :| k in c.concepts && k.0 == other && c.concepts[k].active;
      assert k in c'.concepts && c'.concepts[k].active;
    }
    if Known(c', other) && other != key.0 {
      var k :| k in c'.concepts && k.0 == other && c'.concepts[k].active;
      assert k in c.concepts && c.concepts[k].active;
    }
  }

  lemma ReferencesKnown(seen: Catalog, c: Catalog, key: ConceptKey, d: Definition)
    requires Keeps(seen, c) && KeysOk(c) && WellShaped(key.0, d) && ReferencesResolve(seen, d)
    ensures DefinitionOk(c, key.0, d)
  {
    forall category | category in d.categories ensures Known(c, category) {
      var k := Resolve(seen, category, None);
      assert Named(seen, k.value, category, None);
      KnownStays(seen, c, category);
    }
    if d.parent.Some? {
      assert Named(seen, Resolve(seen, d.parent.value, None).value, d.parent.value, None);
      KnownStays(seen, c, d.parent.value);
    }
  }

  lemma DefinitionStays(c: Catalog, c': Catalog, key: string, d: Definition)
    requires DefinitionOk(c, key, d) && forall other :: Known(c, other) ==> Known(c', other)
    ensures DefinitionOk(c', key, d)
  {
  }

  lemma ConceptKeepsKeys(c: Catalog, key: ConceptKey, d: Definition)
    requires KeysOk(c) && key !in c.concepts
    ensures KeysOk(Stored(c, ConceptRow(key, d)).value)
  {
    var c' := Stored(c, ConceptRow(key, d)).value;
    forall k | k in c'.concepts ensures Known(c', k.0) {
      KnownAfter(c, key, d, k.0);
      if k != key { assert Known(c, k.0); }
    }
  }

  lemma ConceptKeepsDefinitions(c: Catalog, key: ConceptKey, d: Definition)
    requires DefinitionsOk(c) && key !in c.concepts && DefinitionOk(c, key.0, d)
    ensures DefinitionsOk(Stored(c, ConceptRow(key, d)).value)
  {
    var c' := Stored(c, ConceptRow(key, d)).value;
    forall other | Known(c, other) ensures Known(c', other) {
      KnownAfter(c, key, d, other);
    }
    DefinitionStays(c, c', key.0, d);
    forall k | k in c'.concepts ensures DefinitionOk(c', k.0, c'.concepts[k].definition) {
      if k != key { DefinitionStays(c, c', k.0, c.concepts[k].definition); }
    }
  }

  /** An assertion row that nobody touched. */
  lemma RowStays(c: Catalog, c': Catalog, id: string)
    requires id in c.assertions && RowOk(c, id) && Keeps(c, c') && c'.assertions[id] == c.assertions[id]
    requires StatesOf(c'.reviews, id) == StatesOf(c.reviews, id)
    requires OperationsOf(c'.reviews, id) == OperationsOf(c.reviews, id)
    ensures RowOk(c', id)
  {
  }

  lemma ConceptKeepsSound(c: Catalog, key: ConceptKey, d: Definition)
    requires Sound(c) && key !in c.concepts && DefinitionOk(c, key.0, d)
    ensures Sound(Stored(c, ConceptRow(key, d)).value)
  {
    var c' := Stored(c, ConceptRow(key, d)).value;
    ConceptKeepsKeys(c, key, d);
    ConceptKeepsDefinitions(c, key, d);
    StoreKeeps(c, ConceptRow(key, d));
    forall id | id in c'.assertions ensures RowOk(c', id) {
      RowStays(c, c', id);
    }
  }

  /** Rows of the other tables leave the concepts alone. */
  lemma SameConcepts(c: Catalog, c': Catalog)
    requires DefinitionsOk(c) && KeysOk(c) && c'.concepts == c.concepts
    requires forall r :: r in c'.reviews ==> c'.reviews[r].assertion in c'.assertions
    ensures DefinitionsOk(c') && KeysOk(c')
  {
    forall key ensures Known(c', key) <==> Known(c, key) {
    }
    forall k | k in c'.concepts ensures DefinitionOk(c', k.0, c'.concepts[k].definition) {
      assert DefinitionOk(c, k.0, c.concepts[k].definition);
    }
  }

  lemma ToolKeepsSound(c: Catalog, tool: string, status: bool)
    requires Sound(c) && tool !in c.tools
    ensures Sound(Stored(c, ToolRow(tool, status)).value)
  {
    var c' := Stored(c, ToolRow(tool, status)).value;
    SameConcepts(c, c');
    forall id | id in c'.assertions ensures RowOk(c', id) {
      assert RowOk(c, id);
    }
  }

  lemma AssertionKeepsSound(c: Catalog, id: string, a: Assertion)
    requires Sound(c) && Stored(c, AssertionRow(id, a)).Some?
    requires ValueFits(c.concepts[a.concept].definition, a.value, a.effective)
    requires a.effective == a.initial && a.reviewOperation == None
    ensures Sound(Stored(c, AssertionRow(id, a)).value)
  {
    var c' := Stored(c, AssertionRow(id, a)).value;
    SameConcepts(c, c');
    forall k | k in c'.assertions ensures RowOk(c', k) {
      if k != id {
        assert RowOk(c, k);
      } else {
        assert StatesOf(c.reviews, id) == {} && OperationsOf(c.reviews, id) == {};
      }
    }
  }

  lemma ReviewAdded(reviews: Reviews, id: string, r: Review)
    requires id !in reviews
    ensures var after := reviews[id := r];
            && StatesOf(after, r.assertion) == StatesOf(reviews, r.assertion) + {r.state}
            && OperationsOf(after, r.assertion) == OperationsOf(reviews, r.assertion) + {r.operation}
  {
    var after := reviews[id := r];
    assert after[id] == r;
    assert forall k :: k in reviews ==> k in after && after[k] == reviews[k];
  }

  lemma OtherReviews(reviews: Reviews, id: string, r: Review, other: string)
    requires id !in reviews && other != r.assertion
    ensures var after := reviews[id := r];
            StatesOf(after, other) == StatesOf(reviews, other) &&
                OperationsOf(after, other) == OperationsOf(reviews, other)
  {
    var after := reviews[id := r];
    assert forall k :: k in reviews ==> k in after && after[k] == reviews[k];
  }

  /** A reviewed assertion is verified or rejected, and verified only by a verification. */
  lemma ReviewDecides(reviews: Reviews, id: string, r: Review, initial: Verification)
    requires id !in reviews
    ensures var e := Effective(reviews[id := r], r.assertion, initial);
            (e == Verified || e == Rejected) && (e == Verified ==> r.state == Verified)
  {
    ReviewAdded(reviews, id, r);
    assert r.state in StatesOf(reviews[id := r], r.assertion);
  }

  lemma ReviewKeepsSound(c: Catalog, id: string, r: Review)
    requires Sound(c) && Stored(c, ReviewRow(id, r)).Some?
    requires ReviewFits(c, r)
    ensures Sound(Stored(c, ReviewRow(id, r)).value)
  {
    var c' := Stored(c, ReviewRow(id, r)).value;
    StoreKeeps(c, ReviewRow(id, r));
    assert forall k :: k in c'.reviews ==> k == id || c'.reviews[k] == c.reviews[k];
    SameConcepts(c, c');
    forall k | k in c'.assertions ensures RowOk(c', k) {
      if k == r.assertion {
        ReviewedRow(c, id, r);
      } else {
        OtherReviews(c.reviews, id, r, k);
        RowStays(c, c', k);
      }
    }
  }

  /** The reviewed assertion has a value, and it fits. */
  predicate ReviewFits(c: Catalog, r: Review)
    requires r.assertion in c.assertions
  {
    var a := c.assertions[r.assertion];
    && HasValue(a.value) && a.concept in c.concepts && TypeFits(c.concepts[a.concept].definition, a.value.value)
  }

  lemma ReviewedRow(c: Catalog, id: string, r: Review)
    requires RowsOk(c) && Stored(c, ReviewRow(id, r)).Some? && ReviewFits(c, r)
    ensures RowOk(Stored(c, ReviewRow(id, r)).value, r.assertion)
  {
    assert RowOk(c, r.assertion);
    ReviewDecides(c.reviews, id, r, c.assertions[r.assertion].initial);
  }

  /** Whatever the tables were when a request was checked, its commit keeps values typed,
      states determined by the reviews, one active revision per concept and every
      reference resolved. */
  lemma StoreKeepsSound(seen: Catalog, c: Catalog, request: Request, p: Projection)
    requires Sound(c) && Keeps(seen, c) && Staged(seen, request) == Some(p) && Stored(c, p).Some?
    ensures Sound(Stored(c, p).value)
  {
    match p {
      case ConceptRow(key, d) =>
        ReferencesKnown(seen, c, key, d);
        ConceptKeepsSound(c, key, d);
      case ToolRow(tool, status) => ToolKeepsSound(c, tool, status);
      case AssertionRow(id, a) => AssertionKeepsSound(c, id, a);
      case ReviewRow(id, r) => ReviewKeepsSound(c, id, r);
    }
  }

  // --------------------------------------------- one write on a current catalogue

  /** On the catalogue it was checked on, a write never fails on a key. */
  lemma StagedStores(c: Catalog, request: Request)
    requires Staged(c, request).Some?
    ensures Stored(c, Staged(c, request).value).Some?
  {
  }

  /** The row would verify a value against a different one the tables already verify:
      what a second look at the moment of the commit would find. */
  predicate Clashes(c: Catalog, p: Projection)
    requires Stored(c, p).Some?
  {
    match p
    case AssertionRow(id, a) => a.effective == Verified && CardinalityConflict(c, a.tool, a.concept, a.value, None)
    case ReviewRow(id, r) =>
      var a := c.assertions[r.assertion];
      && Effective(c.reviews[id := r], r.assertion, a.initial) == Verified
      && CardinalityConflict(c, a.tool, a.concept, a.value, Some(r.assertion))
    case _ => false
  }

  /** Of two tables that differ in one assertion the second keeps the promise exactly when
      the new row, if verified, meets no different value. */
  lemma OneRowDecides(c: Catalog, c': Catalog, id: string, except: Option<string>)
    requires OneValue(c) && id in c'.assertions && c'.assertions[id].concept in c.concepts
    requires c'.concepts == c.concepts && c'.assertions.Keys == c.assertions.Keys + {id}
    requires forall k :: k in c.assertions && k != id ==> c'.assertions[k] == c.assertions[k]
    requires id in c.assertions ==> except == Some(id)
    requires id !in c.assertions ==> except == None
    ensures var a := c'.assertions[id];
            OneValue(c') <==>
              !(a.effective == Verified && CardinalityConflict(c, a.tool, a.concept, a.value, except))
  {
    var a := c'.assertions[id];
    if a.effective == Verified && CardinalityConflict(c, a.tool, a.concept, a.value, except) {
      var k :| k in c.assertions && c.assertions[k].tool == a.tool && c.assertions[k].concept == a.concept
               && c.assertions[k].effective == Verified && Some(k) != except && c.assertions[k].value != a.value;
      assert Compete(c', id, k) && SingleValued(c', c'.assertions[id].concept);
    } else {
      forall x, y | Compete(c', x, y) && SingleValued(c', c'.assertions[x].concept)
        ensures c'.assertions[x].value == c'.assertions[y].value
      {
        if x != id && y != id { assert Compete(c, x, y); }
      }
    }
  }

  /** A commit keeps the cardinality promise if and only if its row clashes with nothing in
      the tables as they are at the commit. Nothing in the transaction looks. */
  lemma RecheckDecides(c: Catalog, p: Projection)
    requires OneValue(c) && RowsOk(c) && Stored(c, p).Some?
    ensures OneValue(Stored(c, p).value) <==> !Clashes(c, p)
  {
    match p {
      case ConceptRow(key, d) =>
        StoreKeeps(c, p);
        RowsKeepValues(c, Stored(c, p).value);
      case ToolRow(tool, status) =>
        StoreKeeps(c, p);
        RowsKeepValues(c, Stored(c, p).value);
      case AssertionRow(id, a) => OneRowDecides(c, Stored(c, p).value, id, None);
      case ReviewRow(id, r) => ReviewRecheck(c, id, r);
    }
  }

  lemma ReviewRecheck(c: Catalog, id: string, r: Review)
    requires OneValue(c) && RowsOk(c) && Stored(c, ReviewRow(id, r)).Some?
    ensures OneValue(Stored(c, ReviewRow(id, r)).value) <==> !Clashes(c, ReviewRow(id, r))
  {
    assert RowOk(c, r.assertion);
    OneRowDecides(c, Stored(c, ReviewRow(id, r)).value, r.assertion, Some(r.assertion));
  }

  /** A write that touches no assertion. */
  lemma RowsKeepValues(c: Catalog, c': Catalog)
    requires OneValue(c) && RowsOk(c) && Keeps(c, c') && c'.assertions == c.assertions
    ensures OneValue(c')
  {
    forall x, y | Compete(c', x, y) && SingleValued(c', c'.assertions[x].concept)
      ensures c'.assertions[x].value == c'.assertions[y].value
    {
      assert Compete(c, x, y) && RowOk(c, x);
    }
  }

  /** A request checked on the tables as they are does not clash. */
  lemma StagedNeverClashes(c: Catalog, request: Request)
    requires Staged(c, request).Some?
    ensures Stored(c, Staged(c, request).value).Some? && !Clashes(c, Staged(c, request).value)
  {
    StagedStores(c, request);
    match Staged(c, request).value {
      case ReviewRow(id, r) => ReviewDecides(c.reviews, id, r, c.assertions[r.assertion].initial);
      case _ =>
    }
  }

  lemma KeepsItself(c: Catalog)
    ensures Keeps(c, c)
  {
  }

  lemma WriteKeepsInv(c: Catalog, request: Request)
    requires Inv(c)
    ensures Inv(Write(c, request))
  {
    if Staged(c, request).Some? {
      KeepsItself(c);
      StagedStores(c, request);
      StoreKeepsSound(c, c, request, Staged(c, request).value);
      StagedNeverClashes(c, request);
      RecheckDecides(c, Staged(c, request).value);
    }
  }

  /** In every reachable state of writes one after the other, the verified values of one
      tool under one single-valued concept revision are equal; values fit their concepts,
      states follow from reviews, references resolve. */
  lemma {:induction false} RunInv(requests: seq<Request>)
    ensures Inv(Run(requests))
  {
    if requests != [] {
      RunInv(requests[..|requests| - 1]);
      WriteKeepsInv(Run(requests[..|requests| - 1]), requests[|requests| - 1]);
    }
  }

  /** Two histories that reach the same reviews of an assertion agree on its outcome. */
  lemma OrderDoesNotMatter(c: Catalog, c': Catalog, id: string)
    requires Sound(c) && Sound(c') && id in c.assertions && id in c'.assertions
    requires c.assertions[id].initial == c'.assertions[id].initial
    requires StatesOf(c.reviews, id) == StatesOf(c'.reviews, id)
    requires OperationsOf(c.reviews, id) == OperationsOf(c'.reviews, id)
    ensures c.assertions[id].effective == c'.assertions[id].effective
    ensures c.assertions[id].reviewOperation == c'.assertions[id].reviewOperation
  {
    assert RowOk(c, id) && RowOk(c', id);
  }

  /** Reviews that disagree always leave the assertion rejected. */
  lemma DisagreementRejects(c: Catalog, id: string, r: string, r': string)
    requires Sound(c) && id in c.assertions && r in c.reviews && r' in c.reviews
    requires c.reviews[r].assertion == id && c.reviews[r'].assertion == id && c.reviews[r].state != c.reviews[r'].state
    ensures c.assertions[id].effective == Rejected
  {
    assert RowOk(c, id);
    assert c.reviews[r].state in StatesOf(c.reviews, id) && c.reviews[r'].state in StatesOf(c.reviews, id);
  }

  /** An assertion entered without a value stays unknown: no review of it can be made. */
  lemma UnknownStays(c: Catalog, id: string, review: string, verdict: ReviewState)
    requires Sound(c) && id in c.assertions && c.assertions[id].effective == Unknown
    ensures !VerifyAllowed(c, review, id, verdict)
  {
    assert RowOk(c, id);
  }

  // ------------------------------------------------------------- without the lock

  /** Two verified values that both pass the check on one catalogue keep the promise
      together if and only if they are one value: the lock is what it rests on. */
  lemma UnlockedWritesDisagree(c: Catalog, a: string, b: string, tool: string, concept: ConceptKey,
          left: Option<Json.Json>, right: Option<Json.Json>)
    requires Inv(c) && a != b && SingleValued(c, concept)
    requires AssertAllowed(c, a, tool, concept, left, Verified) && AssertAllowed(c, b, tool, concept, right, Verified)
    ensures OneValue(c.(assertions := c.assertions[a := Assertion(tool, concept, left, Verified, Verified, None)]
                                                  [b := Assertion(tool, concept, right, Verified, Verified, None)]))
            <==> left == right
  {
    var p := AssertionRow(a, Assertion(tool, concept, left, Verified, Verified, None));
    var q := AssertionRow(b, Assertion(tool, concept, right, Verified, Verified, None));
    RecheckDecides(c, p);
    AssertionKeepsSound(c, a, p.assertion);
    RecheckDecides(Stored(c, p).value, q);
    SecondClashes(c, a, p.assertion, right);
  }

  /** After one verified value the check fails for another, and for no other reason. */
  lemma SecondClashes(c: Catalog, id: string, a: Assertion, value: Option<Json.Json>)
    requires a.effective == Verified && SingleValued(c, a.concept) && id !in c.assertions
    requires !CardinalityConflict(c, a.tool, a.concept, value, None)
    ensures var c' := c.(assertions := c.assertions[id := a]);
            CardinalityConflict(c', a.tool, a.concept, value, None) <==> a.value != value
  {
    var c' := c.(assertions := c.assertions[id := a]);
    assert c'.assertions[id] == a;
  }
}
