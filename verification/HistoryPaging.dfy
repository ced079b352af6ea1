/** A claim's history, read downwards page by page while newer revisions appear above. */
module HistoryPaging {
  import opened Wrappers
  import opened Domain
  import opened Database
  import opened Protocol
  import opened Safety
  import opened HistoryCursor
  import opened Lexical
  import Facts = FactLedger
  import Paging
  import Projection = ProjectionCheck
  import Theorems

  /** What a history row sorts by. */
  datatype Stamp = Stamp(time: nat, hash: Hash)

  /** `ORDER BY asserted_at_ms DESC, operation_hash DESC` */
  predicate Above(a: Stamp, b: Stamp) { a.time > b.time || (a.time == b.time && a.hash > b.hash) }

  ghost predicate Descending(rows: seq<Stamp>) {
    forall i, j :: 0 <= i < j < |rows| ==> Above(rows[i], rows[j])
  }

  // -------------------------------------------------------------------- pages

  function CursorOf(row: Stamp): string { Format(row.time, Blob32(row.hash)) }

  /** `asserted_at_ms<?4 OR (asserted_at_ms=?4 AND lower(hex(operation_hash))<?5)` */
  predicate Past(row: Stamp, cursor: (int, string)) {
    row.time < cursor.0 || (row.time == cursor.0 && TextBefore(HashText(row.hash), cursor.1))
  }

  function Below(rows: seq<Stamp>, cursor: (int, string)): seq<Stamp> {
    if rows == [] then []
    else if Past(rows[0], cursor) then [rows[0]] + Below(rows[1..], cursor)
    else Below(rows[1..], cursor)
  }

  datatype HistoryPage = HistoryPage(rows: seq<Stamp>, nextCursor: Option<string>)

  function Cut(rows: seq<Stamp>, limit: nat): HistoryPage
    requires limit >= 1
  {
    if |rows| > limit then HistoryPage(rows[..limit], Some(CursorOf(rows[limit - 1]))) else HistoryPage(rows, None)
  }

  /** One page from the top, or from below a cursor that parses. */
  function PageAt(rows: seq<Stamp>, cursor: Option<string>, limit: nat): Result<HistoryPage, Failure>
    requires limit >= 1
  {
    match cursor
    case None => Ok(Cut(rows, limit))
    case Some(text) => match Parse(text) case None => Err(Invalid) case Some(c) => Ok(Cut(Below(rows, c), limit))
  }

  /** Fetch one row more than asked for, and pop it if it is there. */
  method History(rows: seq<Stamp>, cursor: Option<string>, limit: nat) returns (page: Result<HistoryPage, Failure>)
    requires 1 <= limit <= 100
    ensures page == PageAt(rows, cursor, limit)
  {
    var selected := rows;
    if cursor.Some? {
      var parsed := Parse(cursor.value);
      if parsed.None? { return Err(Invalid); }
      selected := Below(rows, parsed.value);
    }
    var revisions := Paging.FirstOf(selected, (if limit < 100 then limit else 100) + 1);
    var hasMore := |revisions| > limit;
    assert |selected| > limit ==> selected[..limit + 1][..limit] == selected[..limit];
    if hasMore { revisions := revisions[..|revisions| - 1]; }
    var nextCursor := if hasMore then Some(CursorOf(revisions[|revisions| - 1])) else None;
    return Ok(HistoryPage(revisions, nextCursor));
  }

  /** A row's cursor reads back, and the query takes exactly the rows that sort below. */
  lemma CursorPlaces(c: Stamp, row: Stamp)
    requires c.time <= I64_MAX
    ensures Parse(CursorOf(c)) == Some((c.time, HashText(c.hash)))
    ensures Past(row, (c.time, HashText(c.hash))) <==> Above(c, row)
  {
    CursorRoundTrip(c.time, Blob32(c.hash));
    HashOrder(row.hash, c.hash);
  }

  lemma {:induction false} AllBelow(rows: seq<Stamp>, c: Stamp)
    requires c.time <= I64_MAX && forall r :: r in rows ==> Above(c, r)
    ensures Below(rows, (c.time, HashText(c.hash))) == rows
  {
    if rows != [] {
      assert rows[0] in rows;
      CursorPlaces(c, rows[0]);
      AllBelow(rows[1..], c);
    }
  }

  lemma {:induction false} BelowRow(rows: seq<Stamp>, n: nat)
    requires Descending(rows) && n < |rows| && rows[n].time <= I64_MAX
    ensures Below(rows, (rows[n].time, HashText(rows[n].hash))) == rows[n + 1..]
  {
    CursorPlaces(rows[n], rows[0]);
    if n > 0 {
      assert Above(rows[0], rows[n]);
      BelowRow(rows[1..], n - 1);
      assert rows[1..][n - 1] == rows[n];
    } else {
      AllBelow(rows[1..], rows[0]);
    }
  }

  // -------------------------------------------------------------------- walks

  /** A client that asks for page after page while it is given a cursor; the first page is
      served from the first snapshot, each further page from the next. */
  function Walk(snapshots: seq<seq<Stamp>>, limit: nat): Result<HistoryPage, Failure>
    requires limit >= 1 && snapshots != []
  {
    if |snapshots| == 1 then PageAt(snapshots[0], None, limit)
    else Resume(Walk(snapshots[..|snapshots| - 1], limit), snapshots[|snapshots| - 1], limit)
  }

  /** One page more, if the last one came with a cursor. */
  function Resume(sofar: Result<HistoryPage, Failure>, rows: seq<Stamp>, limit: nat): Result<HistoryPage, Failure>
    requires limit >= 1
  {
    if sofar.Err? || sofar.value.nextCursor.None? then sofar
    else
      match PageAt(rows, sofar.value.nextCursor, limit)
      case Err(e) => Err(e)
      case Ok(page) => Ok(HistoryPage(sofar.value.rows + page.rows, page.nextCursor))
  }

  /** What a walk has delivered of the first snapshot after some pages: a longest run from
      the top, ending only with the last row. */
  ghost predicate Walked(got: Result<HistoryPage, Failure>, first: seq<Stamp>, pages: nat) {
    && got.Ok?
    && got.value.rows <= first
    && (got.value.nextCursor.None? ==> got.value.rows == first)
    && (got.value.nextCursor.Some? ==>
          && |got.value.rows| >= pages && got.value.rows != []
          && got.value.nextCursor == Some(CursorOf(got.value.rows[|got.value.rows| - 1])))
  }

  ghost predicate InRange(rows: seq<Stamp>) { forall r :: r in rows ==> r.time <= I64_MAX }

  /** Later snapshots only add rows above. */
  ghost predicate GrowsAbove(earlier: seq<Stamp>, later: seq<Stamp>) {
    |earlier| <= |later| && later[|later| - |earlier|..] == earlier
  }

  /** Below the last row delivered lies what is left of the first snapshot. */
  lemma RestOfFirst(first: seq<Stamp>, last: seq<Stamp>, got: seq<Stamp>)
    requires Descending(last) && InRange(last) && GrowsAbove(first, last) && got != [] && got <= first
    ensures var c := got[|got| - 1];
            Parse(CursorOf(c)) == Some((c.time, HashText(c.hash))) &&
                Below(last, (c.time, HashText(c.hash))) == first[|got|..]
  {
    var n := |last| - |first| + |got| - 1;
    assert last[n] == last[|last| - |first|..][|got| - 1];
    assert last[n] in last;
    CursorPlaces(last[n], last[n]);
    BelowRow(last, n);
    assert last[n + 1..] == last[|last| - |first|..][|got|..];
  }

  /** The next page is the next piece of the first snapshot. */
  lemma NextPage(first: seq<Stamp>, last: seq<Stamp>, got: seq<Stamp>, limit: nat)
    requires limit >= 1 && Descending(last) && InRange(last) && GrowsAbove(first, last) && got != [] && got <= first
    ensures PageAt(last, Some(CursorOf(got[|got| - 1])), limit) == Ok(Cut(first[|got|..], limit))
  {
    RestOfFirst(first, last, got);
  }

  lemma PieceGoesOn(first: seq<Stamp>, got: seq<Stamp>, limit: nat, pages: nat)
    requires limit >= 1 && got != [] && got <= first && |got| >= pages
    ensures var page := Cut(first[|got|..], limit);
            Walked(Ok(HistoryPage(got + page.rows, page.nextCursor)), first, pages + 1)
  {
    assert first == got + first[|got|..];
  }

  lemma WalkGoesOn(sofar: Result<HistoryPage, Failure>, first: seq<Stamp>, last: seq<Stamp>, limit: nat, pages: nat)
    requires limit >= 1 && Descending(last) && InRange(last) && GrowsAbove(first, last) && Walked(sofar, first, pages)
    ensures Walked(Resume(sofar, last, limit), first, pages + 1)
  {
    if sofar.value.nextCursor.Some? {
      Resumed(first, last, sofar.value, limit);
      PieceGoesOn(first, sofar.value.rows, limit, pages);
    }
  }

  lemma Resumed(first: seq<Stamp>, last: seq<Stamp>, got: HistoryPage, limit: nat)
    requires limit >= 1 && Descending(last) && InRange(last) && GrowsAbove(first, last) && got.rows != [] &&
              got.rows <= first
    requires got.nextCursor == Some(CursorOf(got.rows[|got.rows| - 1]))
    ensures var page := Cut(first[|got.rows|..], limit);
            Resume(Ok(got), last, limit) == Ok(HistoryPage(got.rows + page.rows, page.nextCursor))
  {
    NextPage(first, last, got.rows, limit);
  }

  lemma {:induction false} WalkDelivers(snapshots: seq<seq<Stamp>>, limit: nat)
    requires limit >= 1 && snapshots != []
    requires forall s :: s in snapshots ==> Descending(s) && InRange(s) && GrowsAbove(snapshots[0], s)
    ensures Walked(Walk(snapshots, limit), snapshots[0], |snapshots|)
  {
    if |snapshots| > 1 {
      var front, last := snapshots[..|snapshots| - 1], snapshots[|snapshots| - 1];
      assert last in snapshots && forall s :: s in front ==> s in snapshots;
      WalkDelivers(front, limit);
      WalkGoesOn(Walk(front, limit), snapshots[0], last, limit, |front|);
    }
  }

  // ---------------------------------------------------------- histories in runs

  /** The stamps of a claim's revisions, newest first. */
  ghost predicate HistoryOf(f: Database.Facts, key: FactKey, rows: seq<Stamp>) {
    && Descending(rows)
    && (forall r :: r in rows ==>
        r.hash in f.revisions && f.revisions[r.hash].key == key && f.revisions[r.hash].asserted == r.time)
    && (forall h :: h in f.revisions && f.revisions[h].key == key ==>
          f.revisions[h].asserted >= 0 && Stamp(f.revisions[h].asserted, h) in rows)
  }

  /** A new revision of the claim goes on top, and no other row of its history moves,
      exactly when the claim can grow. */
  lemma RevisionGoesOnTop(operations: seq<Operation>, f: Database.Facts, f': Database.Facts, r: Revision, hash: Hash,
          now: Clock, rows: seq<Stamp>)
    requires Facts.Ledger(operations, f) && Facts.Grounded(operations, f) && Facts.Writes(f, f', r, hash)
    requires r.asserted == RevisionTime(ClaimAt(f, r.key), now) && r.asserted >= 0
    requires Projection.TimesInRange(f, I64_MAX) && Projection.CurrentIsLatest(f) && HistoryOf(f, r.key, rows)
    ensures HistoryOf(f', r.key, [Stamp(r.asserted, hash)] + rows) <==> Projection.CanGrow(f, r.key, hash)
  {
    Projection.WriteRestates(operations, f, f', r, hash);
    Projection.OwnLatest(operations, f, f', r, hash, now);
    TopOfHistory(f, f', r, hash, rows);
  }

  lemma TopOfHistory(f: Database.Facts, f': Database.Facts, r: Revision, hash: Hash, rows: seq<Stamp>)
    requires Projection.Restates(f, f', r, hash) && HistoryOf(f, r.key, rows) && r.asserted >= 0
    ensures HistoryOf(f', r.key, [Stamp(r.asserted, hash)] + rows) <==> Projection.Latest(f'.revisions, hash)
  {
    var top := Stamp(r.asserted, hash);
    var all := [top] + rows;
    if Projection.Latest(f'.revisions, hash) {
      forall s | s in rows ensures Above(top, s) {
        assert !Projection.Newer(f'.revisions, s.hash, hash);
      }
    }
    if HistoryOf(f', r.key, all) {
      forall g | g in f'.revisions && f'.revisions[g].key == r.key ensures !Projection.Newer(f'.revisions, g, hash) {
        var s := Stamp(f'.revisions[g].asserted, g);
        assert s in all;
        var i :| 0 <= i < |all| && all[i] == s;
        assert i > 0 ==> Above(all[0], all[i]);
      }
    }
  }

  lemma OtherHistoryStays(f: Database.Facts, f': Database.Facts, r: Revision, hash: Hash, key: FactKey,
          rows: seq<Stamp>)
    requires Projection.Restates(f, f', r, hash) && HistoryOf(f, key, rows) && r.key != key
    ensures HistoryOf(f', key, rows)
  {
  }

  /** A history listing is unique. */
  lemma {:induction false} OneListing(a: seq<Stamp>, b: seq<Stamp>)
    requires Descending(a) && Descending(b) && forall s :: s in a <==> s in b
    ensures a == b
  {
    HeadListed(a);
    HeadListed(b);
    if a != [] && b != [] {
      FirstStampsMeet(a, b);
      forall s ensures s in a[1..] <==> s in b[1..] {
        RestOfStamps(a, s);
        RestOfStamps(b, s);
      }
      OneListing(a[1..], b[1..]);
    }
  }

  lemma HeadListed(rows: seq<Stamp>)
    ensures rows != [] ==> rows[0] in rows
  {
  }

  lemma FirstStampsMeet(a: seq<Stamp>, b: seq<Stamp>)
    requires Descending(a) && Descending(b) && a != [] && b != [] && forall s :: s in a <==> s in b
    ensures a[0] == b[0]
  {
    assert a[0] in b && b[0] in a;
    var i :| 0 <= i < |b| && b[i] == a[0];
    var j :| 0 <= j < |a| && a[j] == b[0];
    if i > 0 && j > 0 {
      assert false;
    }
  }

  lemma RestOfStamps(rows: seq<Stamp>, s: Stamp)
    requires Descending(rows) && rows != []
    ensures s in rows[1..] <==> s in rows && s != rows[0]
  {
  }

  lemma SameHistory(f: Database.Facts, key: FactKey, a: seq<Stamp>, b: seq<Stamp>)
    requires HistoryOf(f, key, a) && HistoryOf(f, key, b)
    ensures a == b
  {
    forall s ensures s in a <==> s in b {
    }
    OneListing(a, b);
  }

  /** The commit of a request adds at most one row to the history of a claim, on top. */
  lemma CommitAddsOnTop(s: System, id: nat, now: Clock, bound: int, key: FactKey, rows: seq<Stamp>)
    returns (top: seq<Stamp>)
    requires Inv(s) && id in s.tasks && s.tasks[id].Committing? && CommitLocal(s.db, s.tasks[id].commit, now).Ok?
    requires Projection.CurrentIsLatest(s.db.facts) && Projection.TimesInRange(s.db.facts, bound) && bound < I64_MAX
    requires Projection.RealTimes(s.db.facts) && HistoryOf(s.db.facts, key, rows)
    ensures HistoryOf(CommitLocal(s.db, s.tasks[id].commit, now).value.facts, key, top + rows)
  {
    var c, db' := s.tasks[id].commit, CommitLocal(s.db, s.tasks[id].commit, now).value;
    assert TaskInv(s.db, s.tasks[id]);
    CommitParts(s.db, c, now, db');
    top := [];
    assert [] + rows == rows;
    if |c.projections| == 1 && c.projections[0].FactRevision? {
      var o, p := OperationRow(c, now), c.projections[0].fact;
      var r := Facts.ApplyWrites(s.db.docs.operations, o, s.db.facts, c.document.app, p, now, db'.facts);
      top := WriteAddsOnTop(s.db.docs.operations, s.db.facts, db'.facts, r, o.hash, now, key, rows);
    }
  }

  lemma WriteAddsOnTop(operations: seq<Operation>, f: Database.Facts, f': Database.Facts, r: Revision, hash: Hash,
          now: Clock, key: FactKey, rows: seq<Stamp>)
    returns (top: seq<Stamp>)
    requires Facts.Ledger(operations, f) && Facts.Grounded(operations, f) && Facts.Writes(f, f', r, hash)
    requires r.asserted == RevisionTime(ClaimAt(f, r.key), now) && Projection.RealTimes(f)
    requires Projection.CurrentIsLatest(f) && Projection.TimesInRange(f, I64_MAX - 1) && HistoryOf(f, key, rows)
    ensures HistoryOf(f', key, top + rows)
  {
    if r.key == key {
      top := [Stamp(r.asserted, hash)];
      RevisionGoesOnTop(operations, f, f', r, hash, now, rows);
    } else {
      top := [];
      assert [] + rows == rows;
      Projection.WriteRestates(operations, f, f', r, hash);
      OtherHistoryStays(f, f', r, hash, key, rows);
    }
  }

  lemma StepAddsOnTop(s: System, l: Label, bound: int, key: FactKey, rows: seq<Stamp>) returns (top: seq<Stamp>)
    requires Inv(s) && Projection.CurrentIsLatest(s.db.facts) && Projection.RealTimes(s.db.facts)
    requires Projection.TimesInRange(s.db.facts, bound) && bound < I64_MAX && HistoryOf(s.db.facts, key, rows)
    ensures HistoryOf(Next(s, l).db.facts, key, top + rows)
  {
    Theorems.OnlyCommitsWriteClaims(s, l);
    if Next(s, l).db.facts.revisions == s.db.facts.revisions {
      top := [];
      assert [] + rows == rows;
    } else {
      top := CommitAddsOnTop(s, l.id, l.now, bound, key, rows);
    }
  }

  /** Whatever a run goes on to do, a claim's history only grows above what it was, as long
      as the clock readings leave room for one millisecond per step. */
  lemma {:induction false} HistoryGrows(labels: seq<Label>, more: seq<Label>, latest: int, key: FactKey,
          rows: seq<Stamp>)
    returns (top: seq<Stamp>)
    requires Projection.ClocksUpTo(labels + more, latest) && 0 <= latest && latest + |labels + more| <= I64_MAX
    requires HistoryOf(Run(labels).db.facts, key, rows)
    ensures HistoryOf(Run(labels + more).db.facts, key, top + rows)
    decreases |more|
  {
    if more == [] {
      top := [];
      assert labels + more == labels && [] + rows == rows;
    } else {
      var front := more[..|more| - 1];
      assert labels + more == (labels + front) + [more[|more| - 1]];
      var sofar := HistoryGrows(labels, front, latest, key, rows);
      Projection.RunAgrees(labels + front, latest);
      Projection.RunTimes(labels + front);
      RunInv(labels + front);
      Theorems.RunSnoc(labels, more);
      var added := StepAddsOnTop(Run(labels + front), more[|more| - 1], latest + |labels + front|, key, sofar + rows);
      top := added + sofar;
      assert added + (sofar + rows) == top + rows;
    }
  }

  /** Every claim has a history listing in every such run. */
  lemma HistoryExists(labels: seq<Label>, latest: int, key: FactKey) returns (rows: seq<Stamp>)
    requires Projection.ClocksUpTo(labels, latest) && 0 <= latest && latest + |labels| <= I64_MAX
    ensures HistoryOf(Run(labels).db.facts, key, rows)
  {
    assert [] + labels == labels;
    assert Run([]) == INITIAL;
    var top := HistoryGrows([], labels, latest, key, []);
    rows := top + [];
  }

  /** Each snapshot is the claim's history as a run has reached it. */
  ghost predicate HistoriesOf(runs: seq<seq<Label>>, snapshots: seq<seq<Stamp>>, key: FactKey) {
    |snapshots| == |runs| && forall i :: 0 <= i < |runs| ==> HistoryOf(Run(runs[i]).db.facts, key, snapshots[i])
  }

  lemma SnapshotGrows(runs: seq<seq<Label>>, snapshots: seq<seq<Stamp>>, key: FactKey, latest: int, i: nat)
    requires i < |runs| && Paging.Continuing(runs) && HistoriesOf(runs, snapshots, key)
    requires Projection.ClocksUpTo(runs[i], latest) && 0 <= latest && latest + |runs[i]| <= I64_MAX
    ensures Descending(snapshots[i]) && InRange(snapshots[i]) && GrowsAbove(snapshots[0], snapshots[i])
  {
    var more := runs[i][|runs[0]|..];
    assert runs[i] == runs[0] + more;
    var top := HistoryGrows(runs[0], more, latest, key, snapshots[0]);
    SameHistory(Run(runs[i]).db.facts, key, snapshots[i], top + snapshots[0]);
    Projection.RunTimes(runs[i]);
  }

  /** Walking a claim's history while the store runs delivers the revisions there were when
      the walk began, newest first, each once, whatever is committed meanwhile. No page is
      refused, and the walk ends within as many pages as there were rows. */
  lemma HistoryDeliversAll(runs: seq<seq<Label>>, snapshots: seq<seq<Stamp>>, key: FactKey, latest: int, limit: nat)
    requires runs != [] && limit >= 1 && Paging.Continuing(runs) && HistoriesOf(runs, snapshots, key)
    requires 0 <= latest && forall i :: 0 <= i < |runs| ==>
              Projection.ClocksUpTo(runs[i], latest) && latest + |runs[i]| <= I64_MAX
    ensures Walked(Walk(snapshots, limit), snapshots[0], |snapshots|)
  {
    forall s | s in snapshots ensures Descending(s) && InRange(s) && GrowsAbove(snapshots[0], s) {
      var i :| 0 <= i < |snapshots| && snapshots[i] == s;
      SnapshotGrows(runs, snapshots, key, latest, i);
    }
    WalkDelivers(snapshots, limit);
  }
}
