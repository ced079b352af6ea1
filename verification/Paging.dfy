/** Cursor pages over a growing table: the change feed, read upwards while rows are
    appended. */
module Paging {
  import opened Wrappers
  import opened Domain
  import opened Database
  import opened Protocol
  import opened Safety
  import Docs = DocumentLog
  import Theorems

  // -------------------------------------------------------------- change feed

  datatype ChangesPage = ChangesPage(changes: seq<ChangeRow>, nextCursor: nat, hasMore: bool)

  predicate InScope(row: ChangeRow, app: string, community: string) {
    row.document.app == app && row.document.community == community
  }

  /** The rows of one scope with a change id above the cursor, in id order. */
  function Matching(rows: seq<ChangeRow>, app: string, community: string, after: nat): seq<ChangeRow> {
    if rows == [] then []
    else
      var earlier := Matching(rows[..|rows| - 1], app, community, after);
      var last := rows[|rows| - 1];
      if InScope(last, app, community) && last.id > after then earlier + [last] else earlier
  }

  function FirstOf<T>(rows: seq<T>, n: nat): seq<T> { if |rows| <= n then rows else rows[..n] }

  /** One page: fetch one row more than asked for, note whether it was there, drop it. */
  method Changes(rows: seq<ChangeRow>, app: string, community: string, after: nat, limit: nat)
    returns (page: ChangesPage)
    ensures page == PageOfChanges(rows, app, community, after, limit)
  {
    var changes := FirstOf(Matching(rows, app, community, after), limit + 1);
    var hasMore := |changes| > limit;
    if |changes| > limit { changes := changes[..limit]; }
    var nextCursor := if changes == [] then after else changes[|changes| - 1].id;
    return ChangesPage(changes, nextCursor, hasMore);
  }

  function PageOfChanges(rows: seq<ChangeRow>, app: string, community: string, after: nat, limit: nat): ChangesPage {
    var all := Matching(rows, app, community, after);
    var changes := FirstOf(all, limit);
    ChangesPage(changes, if changes == [] then after else changes[|changes| - 1].id, |all| > limit)
  }

  /** A client that asks for page after page while there are more, each page served from
      the next snapshot of the table. */
  function Chase(snapshots: seq<seq<ChangeRow>>, app: string, community: string, after: nat, limit: nat): ChangesPage {
    if snapshots == [] then ChangesPage([], after, true)
    else
      var sofar := Chase(snapshots[..|snapshots| - 1], app, community, after, limit);
      if !sofar.hasMore then sofar
      else
        var page := PageOfChanges(snapshots[|snapshots| - 1], app, community, sofar.nextCursor, limit);
        ChangesPage(sofar.changes + page.changes, page.nextCursor, page.hasMore)
  }

  /** AUTOINCREMENT ids rise, and rows are only appended between snapshots. */
  ghost predicate Rising(rows: seq<ChangeRow>) {
    forall i, j :: 0 <= i < j < |rows| ==> rows[i].id < rows[j].id
  }

  ghost predicate Growing<T(!new)>(snapshots: seq<seq<T>>) {
    forall i, j :: 0 <= i < j < |snapshots| ==> snapshots[i] <= snapshots[j]
  }

  lemma {:induction false} MatchingRises(rows: seq<ChangeRow>, app: string, community: string, after: nat)
    requires Rising(rows)
    ensures Rising(Matching(rows, app, community, after))
    ensures forall m :: m in Matching(rows, app, community, after) ==> m in rows && m.id > after
  {
    if rows != [] {
      var front := rows[..|rows| - 1];
      assert rows == front + [rows[|rows| - 1]];
      MatchingRises(front, app, community, after);
      assert forall m :: m in front ==> m.id < rows[|rows| - 1].id;
    }
  }

  lemma {:induction false} MatchingGrows(small: seq<ChangeRow>, large: seq<ChangeRow>, app: string, community: string,
          after: nat)
    requires small <= large
    ensures Matching(small, app, community, after) <= Matching(large, app, community, after)
  {
    if |small| < |large| {
      MatchingGrows(small, large[..|large| - 1], app, community, after);
    } else {
      assert small == large;
    }
  }

  /** Moving the cursor to a delivered row leaves exactly the rows after it. */
  lemma {:induction false} MatchingAfter(rows: seq<ChangeRow>, app: string, community: string, after: nat, n: nat)
    requires Rising(rows) && 0 < n <= |Matching(rows, app, community, after)|
    ensures Matching(rows, app, community, Matching(rows, app, community, after)[n - 1].id) ==
              Matching(rows, app, community, after)[n..]
    decreases |rows|
  {
    var all := Matching(rows, app, community, after);
    var front, last := rows[..|rows| - 1], rows[|rows| - 1];
    assert rows == front + [last];
    var earlier := Matching(front, app, community, after);
    MatchingRises(front, app, community, after);
    if n <= |earlier| {
      MatchingAfter(front, app, community, after, n);
      assert earlier[n - 1] in earlier && earlier[n - 1] == all[n - 1];
    } else {
      MatchingAbove(front, app, community, last.id);
    }
  }

  lemma {:induction false} MatchingAbove(rows: seq<ChangeRow>, app: string, community: string, cursor: nat)
    requires forall r :: r in rows ==> r.id <= cursor
    ensures Matching(rows, app, community, cursor) == []
  {
    if rows != [] {
      assert rows[|rows| - 1] in rows;
      MatchingAbove(rows[..|rows| - 1], app, community, cursor);
    }
  }

  /** What the client has received after some pages, against the matching rows. */
  ghost predicate Received(got: ChangesPage, all: seq<ChangeRow>, after: nat) {
    got.changes <= all && got.nextCursor == (if got.changes == [] then after else got.changes[|got.changes| - 1].id)
  }

  /** The rows received are all that some snapshot held. */
  ghost predicate CaughtUp(got: ChangesPage, snapshots: seq<seq<ChangeRow>>, app: string, community: string,
          after: nat) {
    exists i :: 0 <= i < |snapshots| && got.changes == Matching(snapshots[i], app, community, after)
  }

  lemma StillCaughtUp(got: ChangesPage, front: seq<seq<ChangeRow>>, last: seq<ChangeRow>, app: string,
          community: string, after: nat)
    requires CaughtUp(got, front, app, community, after)
    ensures CaughtUp(got, front + [last], app, community, after)
  {
    var i :| 0 <= i < |front| && got.changes == Matching(front[i], app, community, after);
    assert (front + [last])[i] == front[i];
  }

  lemma NowCaughtUp(got: ChangesPage, front: seq<seq<ChangeRow>>, last: seq<ChangeRow>, app: string,
          community: string, after: nat)
    requires got.changes == Matching(last, app, community, after)
    ensures CaughtUp(got, front + [last], app, community, after)
  {
    assert (front + [last])[|front|] == last;
  }

  lemma ChaseSnoc(front: seq<seq<ChangeRow>>, last: seq<ChangeRow>, app: string, community: string, after: nat,
          limit: nat)
    ensures var sofar := Chase(front, app, community, after, limit);
            var page := PageOfChanges(last, app, community, sofar.nextCursor, limit);
            Chase(front + [last], app, community, after, limit) ==
              if sofar.hasMore then ChangesPage(sofar.changes + page.changes, page.nextCursor, page.hasMore) else sofar
  {
  }

  /** Every page so far was full if there is more to come. */
  ghost predicate FullPages(got: ChangesPage, limit: nat, pages: nat) {
    got.hasMore ==> |got.changes| == limit * pages
  }

  lemma FeedStep(last: seq<ChangeRow>, app: string, community: string, after: nat, limit: nat, sofar: ChangesPage,
          pages: nat)
    requires Rising(last) && limit >= 1 && pages >= 1 && sofar.hasMore && FullPages(sofar, limit, pages)
    requires Received(sofar, Matching(last, app, community, after), after)
    ensures var page := PageOfChanges(last, app, community, sofar.nextCursor, limit);
            var got := ChangesPage(sofar.changes + page.changes, page.nextCursor, page.hasMore);
            && Received(got, Matching(last, app, community, after), after)
            && FullPages(got, limit, pages + 1)
            && (!got.hasMore ==> got.changes == Matching(last, app, community, after))
  {
    MoreBy(limit, pages);
    NextPage(last, app, community, after, limit, sofar.changes);
  }

  lemma ReceivedStill(got: ChangesPage, small: seq<ChangeRow>, large: seq<ChangeRow>, after: nat)
    requires Received(got, small, after) && small <= large
    ensures Received(got, large, after)
  {
  }

  /** Chasing the feed delivers the matching rows in order, each once and none skipped,
      however the table grows between pages; every page but the last is full, and once a
      page says there are no more, all the rows then in the table have been delivered.
      */
  lemma {:induction false} ChaseDelivers(snapshots: seq<seq<ChangeRow>>, app: string, community: string, after: nat,
          limit: nat)
    requires snapshots != [] && limit >= 1 && Growing(snapshots) && forall s :: s in snapshots ==> Rising(s)
    ensures var got := Chase(snapshots, app, community, after, limit);
            && Received(got, Matching(snapshots[|snapshots| - 1], app, community, after), after)
            && FullPages(got, limit, |snapshots|)
            && (!got.hasMore ==> CaughtUp(got, snapshots, app, community, after))
  {
    var front, last := snapshots[..|snapshots| - 1], snapshots[|snapshots| - 1];
    assert snapshots == front + [last] && last in snapshots;
    if front == [] {
      ChaseSnoc(front, last, app, community, after, limit);
      var got := Chase(snapshots, app, community, after, limit);
      FirstPage(last, app, community, after, limit);
      if !got.hasMore { NowCaughtUp(got, front, last, app, community, after); }
    } else {
      FeedEarlier(snapshots);
      ChaseDelivers(front, app, community, after, limit);
      FeedGoesOn(front, last, app, community, after, limit);
    }
  }

  lemma FeedGoesOn(front: seq<seq<ChangeRow>>, last: seq<ChangeRow>, app: string, community: string, after: nat,
          limit: nat)
    requires front != [] && limit >= 1 && front[|front| - 1] <= last && Rising(last)
    requires var sofar := Chase(front, app, community, after, limit);
             && Received(sofar, Matching(front[|front| - 1], app, community, after), after)
             && FullPages(sofar, limit, |front|)
             && (!sofar.hasMore ==> CaughtUp(sofar, front, app, community, after))
    ensures var got := Chase(front + [last], app, community, after, limit);
            && Received(got, Matching(last, app, community, after), after)
            && FullPages(got, limit, |front| + 1)
            && (!got.hasMore ==> CaughtUp(got, front + [last], app, community, after))
  {
    ChaseSnoc(front, last, app, community, after, limit);
    var sofar := Chase(front, app, community, after, limit);
    var got := Chase(front + [last], app, community, after, limit);
    MatchingGrows(front[|front| - 1], last, app, community, after);
    ReceivedStill(sofar, Matching(front[|front| - 1], app, community, after), Matching(last, app, community, after),
        after);
    if sofar.hasMore {
      FeedStep(last, app, community, after, limit, sofar, |front|);
      if !got.hasMore { NowCaughtUp(got, front, last, app, community, after); }
    } else {
      StillCaughtUp(sofar, front, last, app, community, after);
    }
  }

  lemma FeedEarlier(snapshots: seq<seq<ChangeRow>>)
    requires |snapshots| >= 2 && Growing(snapshots) && forall s :: s in snapshots ==> Rising(s)
    ensures var front := snapshots[..|snapshots| - 1];
            Growing(front) && (forall s :: s in front ==> Rising(s)) && front[|front| - 1] <= snapshots[|snapshots| - 1]
  {
  }

  lemma FirstPage(rows: seq<ChangeRow>, app: string, community: string, after: nat, limit: nat)
    requires limit >= 1
    ensures var page := PageOfChanges(rows, app, community, after, limit);
            var all := Matching(rows, app, community, after);
            && [] + page.changes == page.changes
            && Received(page, all, after)
            && (page.hasMore ==> |page.changes| == limit)
            && (!page.hasMore ==> page.changes == all)
  {
  }

  lemma MoreBy(limit: nat, n: nat)
    ensures limit * n + limit == limit * (n + 1) && (n > 0 && limit > 0 ==> limit * n > 0)
  {
  }

  /** The page after some delivered rows continues them. */
  lemma NextPage(rows: seq<ChangeRow>, app: string, community: string, after: nat, limit: nat, sofar: seq<ChangeRow>)
    requires Rising(rows) && limit >= 1 && sofar != [] && sofar <= Matching(rows, app, community, after)
    ensures var all := Matching(rows, app, community, after);
            var page := PageOfChanges(rows, app, community, sofar[|sofar| - 1].id, limit);
            && sofar + page.changes <= all
            && page.nextCursor == (sofar + page.changes)[|sofar + page.changes| - 1].id
            && (page.hasMore ==> |page.changes| == limit)
            && (!page.hasMore ==> sofar + page.changes == all)
  {
    var all := Matching(rows, app, community, after);
    MatchingAfter(rows, app, community, after, |sofar|);
    assert sofar == all[..|sofar|];
    assert Matching(rows, app, community, sofar[|sofar| - 1].id) == all[|sofar|..];
    Continued(all, sofar, limit);
  }

  lemma Continued<T>(all: seq<T>, sofar: seq<T>, limit: nat)
    requires sofar <= all && sofar != []
    ensures var next := FirstOf(all[|sofar|..], limit);
            && sofar + next <= all
            && (|all[|sofar|..]| <= limit ==> sofar + next == all)
            && (next == [] ==> (sofar + next)[|sofar + next| - 1] == sofar[|sofar| - 1])
            && (next != [] ==> (sofar + next)[|sofar + next| - 1] == next[|next| - 1])
  {
  }

  /** The change table of a later state extends that of an earlier one, ids rising. */
  lemma ChangesGrow(labels: seq<Label>, more: seq<Label>)
    ensures Rising(Run(labels).db.docs.changes)
    ensures Run(labels).db.docs.changes <= Run(labels + more).db.docs.changes
  {
    RunInv(labels);
    RunInv(labels + more);
    Theorems.NothingIsLost(labels, more);
    var d, d' := Run(labels).db.docs, Run(labels + more).db.docs;
    ChangesRise(d);
    ChangesFollowOperations(d, d');
  }

  /** The runs grow from one to the next. */
  ghost predicate Continuing(runs: seq<seq<Label>>) {
    forall i, j :: 0 <= i < j < |runs| ==> runs[i] <= runs[j]
  }

  /** Each snapshot is the change table a run has reached. */
  ghost predicate ChangesOf(runs: seq<seq<Label>>, snapshots: seq<seq<ChangeRow>>) {
    |snapshots| == |runs| && forall i :: 0 <= i < |runs| ==> snapshots[i] == Run(runs[i]).db.docs.changes
  }

  lemma SnapshotsGrow(runs: seq<seq<Label>>, snapshots: seq<seq<ChangeRow>>)
    requires Continuing(runs) && ChangesOf(runs, snapshots)
    ensures Growing(snapshots) && forall s :: s in snapshots ==> Rising(s)
  {
    forall i, j | 0 <= i < j < |snapshots| ensures snapshots[i] <= snapshots[j] {
      assert runs[j] == runs[i] + runs[j][|runs[i]|..];
      ChangesGrow(runs[i], runs[j][|runs[i]|..]);
    }
    forall s | s in snapshots ensures Rising(s) {
      var i :| 0 <= i < |snapshots| && snapshots[i] == s;
      ChangesGrow(runs[i], []);
    }
  }

  /** Chasing the change feed while the store runs delivers the rows of one application and
      community in order, each once and none skipped, whatever is committed between pages;
      every page but the last is full, and once a page says there are no more, all the rows
      then in the table have been delivered. */
  lemma FeedDeliversAll(runs: seq<seq<Label>>, snapshots: seq<seq<ChangeRow>>, app: string, community: string,
          after: nat, limit: nat)
    requires runs != [] && limit >= 1 && Continuing(runs) && ChangesOf(runs, snapshots)
    ensures var got := Chase(snapshots, app, community, after, limit);
            && Received(got, Matching(Run(runs[|runs| - 1]).db.docs.changes, app, community, after), after)
            && FullPages(got, limit, |runs|)
            && (!got.hasMore ==> CaughtUp(got, snapshots, app, community, after))
  {
    SnapshotsGrow(runs, snapshots);
    ChaseDelivers(snapshots, app, community, after, limit);
  }

  lemma ChangesRise(d: Documents)
    requires Docs.TablesAligned(d)
    ensures Rising(d.changes)
  {
    forall i, j | 0 <= i < j < |d.changes| ensures d.changes[i].id < d.changes[j].id {
      assert Docs.SameOperation(d, i) && Docs.SameOperation(d, j);
    }
  }

  lemma ChangesFollowOperations(d: Documents, d': Documents)
    requires Docs.TablesAligned(d) && Docs.TablesAligned(d') && d.operations <= d'.operations
    ensures d.changes <= d'.changes
  {
    forall i | 0 <= i < |d.changes| ensures d.changes[i] == d'.changes[i] {
      assert Docs.SameOperation(d, i) && Docs.SameOperation(d', i);
    }
  }
}
