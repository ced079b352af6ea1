/** The document tables: logs are gapless hash-linked chains, every operation owns one
    row in each table, and no committed update was staged from a stale document. */
module DocumentLog {
  import opened Wrappers
  import opened Domain
  import opened Database

  // ------------------------------------------------------ logs and their heads

  /** The operations of one author's log, in the order they were committed. */
  function LogOf(operations: seq<Operation>, author: Hash, log: LogId): seq<Operation> {
    if operations == [] then []
    else
      var earlier := LogOf(operations[..|operations| - 1], author, log);
      var last := operations[|operations| - 1];
      if last.author == author && last.log == log then earlier + [last] else earlier
  }

  function TipOf(log: seq<Operation>): Option<LogHead> {
    if log == [] then None else Some(LogHead(|log| - 1, log[|log| - 1].hash))
  }

  function BacklinkTo(log: seq<Operation>): Option<Hash> {
    if log == [] then None else Some(log[|log| - 1].hash)
  }

  /** The i-th operation continues its author's log: its sequence number counts the
      earlier entries and its backlink names the last of them. */
  ghost predicate Continues(operations: seq<Operation>, i: nat)
    requires i < |operations|
  {
    var o := operations[i];
    var earlier := LogOf(operations[..i], o.author, o.log);
    o.log == LogId(o.document) && o.sequence == |earlier| && o.backlink == BacklinkTo(earlier)
  }

  // ---------------------------------------------------- one row in each table

  /** The i-th rows of the four rowid tables belong to one operation. */
  ghost predicate SameOperation(d: Documents, i: nat)
    requires i < |d.operations| && i < |d.updates| && i < |d.changes| && i < |d.outbox|
  {
    var o := d.operations[i];
    && o.applied && d.updates[i].applied && d.updates[i].pending == None
    && d.updates[i].hash == o.hash && d.updates[i].document == o.document
    && d.changes[i] == ChangeRow(i + 1, o.hash, o.document)
    && d.outbox[i].id == i + 1 && d.outbox[i].hash == o.hash && d.outbox[i].priority == PriorityFor(o.kind)
  }

  /** The i-th update was staged from exactly the updates its document then had. */
  ghost predicate StagedFromAll(updates: seq<UpdateRow>, i: nat)
    requires i < |updates|
  {
    updates[i].update.base == Payloads(RowsOf(updates[..i], updates[i].document))
  }

  /** A response names an operation, and reports the number and the replayed state of
      the updates its document had once that operation was in. */
  ghost predicate Reports(d: Documents, response: Response, i: nat)
    requires i < |d.operations| && i < |d.updates|
  {
    var rows := RowsOf(d.updates[..i + 1], d.operations[i].document);
    && response.operation == d.operations[i].hash
    && response.revision == |rows|
    && response.state == Payloads(rows)
  }

  ghost predicate SameLengths(d: Documents) {
    |d.operations| == |d.updates| == |d.changes| == |d.outbox|
  }

  ghost predicate DistinctHashes(operations: seq<Operation>) {
    forall i, j :: 0 <= i < j < |operations| ==> operations[i].hash != operations[j].hash
  }

  ghost predicate TablesAligned(d: Documents) {
    && SameLengths(d)
    && DistinctHashes(d.operations)
    && forall i :: 0 <= i < |d.operations| ==> SameOperation(d, i)
  }

  ghost predicate LogsLinked(d: Documents) {
    && (forall i :: 0 <= i < |d.operations| ==> Continues(d.operations, i))
    && (forall author, log :: HeadOf(d, author, log) == TipOf(LogOf(d.operations, author, log)))
  }

  ghost predicate NoLostUpdate(d: Documents) {
    forall i :: 0 <= i < |d.updates| ==> StagedFromAll(d.updates, i)
  }

  /** The response reports one of the committed operations. */
  ghost predicate Answered(d: Documents, response: Response)
    requires SameLengths(d)
  {
    exists i :: 0 <= i < |d.operations| && Reports(d, response, i)
  }

  type Keys = map<(string, string), IdempotencyRow>

  /** No two keys name the same operation, and every operation has a key. */
  ghost predicate KeysMatch(keys: Keys, operations: seq<Operation>) {
    && (forall k, k' :: k in keys && k' in keys && keys[k].response.operation == keys[k'].response.operation ==>
        k == k')
    && (forall o :: o in operations ==> exists k :: k in keys && keys[k].response.operation == o.hash)
  }

  /** Idempotency keys and operations correspond one to one. */
  ghost predicate KeyedOnce(d: Documents)
    requires SameLengths(d)
  {
    && (forall k :: k in d.idempotency ==> Answered(d, d.idempotency[k].response))
    && KeysMatch(d.idempotency, d.operations)
  }

  ghost predicate DocumentsInv(d: Documents) {
    TablesAligned(d) && LogsLinked(d) && NoLostUpdate(d) && KeyedOnce(d)
  }

  // --------------------------------------------------- rows of one document

  lemma RowsOfAppend(rows: seq<UpdateRow>, row: UpdateRow, key: DocumentKey)
    ensures RowsOf(rows + [row], key) == RowsOf(rows, key) + (if row.document == key && row.applied then [row] else [])
  {
  }

  lemma {:induction false} RowsOfPrefix(rows: seq<UpdateRow>, n: nat, key: DocumentKey)
    requires n <= |rows|
    ensures RowsOf(rows[..n], key) <= RowsOf(rows, key)
  {
    if n < |rows| {
      RowsOfPrefix(rows[..|rows| - 1], n, key);
      assert rows[..|rows| - 1][..n] == rows[..n];
    } else {
      assert rows[..n] == rows;
    }
  }

  lemma PayloadsAppend(rows: seq<UpdateRow>, row: UpdateRow)
    ensures Payloads(rows + [row]) == Payloads(rows) + multiset{row.update}
  {
  }

  lemma {:induction false} PayloadsOfInsert(rows: seq<UpdateRow>, row: UpdateRow)
    ensures |InsertByTime(rows, row)| == |rows| + 1
    ensures Payloads(InsertByTime(rows, row)) == Payloads(rows) + multiset{row.update}
  {
    if rows == [] || ReplaysBefore(rows[|rows| - 1], row) {
      PayloadsAppend(rows, row);
    } else {
      PayloadsOfInsert(rows[..|rows| - 1], row);
      PayloadsAppend(InsertByTime(rows[..|rows| - 1], row), rows[|rows| - 1]);
    }
  }

  lemma {:induction false} PayloadsOfSort(rows: seq<UpdateRow>)
    ensures |SortByTime(rows)| == |rows|
    ensures Payloads(SortByTime(rows)) == Payloads(rows)
  {
    if rows != [] {
      PayloadsOfSort(rows[..|rows| - 1]);
      PayloadsOfInsert(SortByTime(rows[..|rows| - 1]), rows[|rows| - 1]);
    }
  }

  ghost predicate InReplayOrder(rows: seq<UpdateRow>) {
    forall i, j :: 0 <= i < j < |rows| ==> ReplaysBefore(rows[i], rows[j])
  }

  lemma {:induction false} InsertOnce(rows: seq<UpdateRow>, row: UpdateRow)
    ensures multiset(InsertByTime(rows, row)) == multiset(rows) + multiset{row}
  {
    if rows != [] && !ReplaysBefore(rows[|rows| - 1], row) {
      assert rows == rows[..|rows| - 1] + [rows[|rows| - 1]];
      InsertOnce(rows[..|rows| - 1], row);
    }
  }

  lemma {:induction false} InsertMembers(rows: seq<UpdateRow>, row: UpdateRow)
    ensures forall k :: 0 <= k < |InsertByTime(rows, row)| ==>
              InsertByTime(rows, row)[k] == row || InsertByTime(rows, row)[k] in rows
  {
    if rows != [] && !ReplaysBefore(rows[|rows| - 1], row) {
      InsertMembers(rows[..|rows| - 1], row);
      assert rows == rows[..|rows| - 1] + [rows[|rows| - 1]];
    }
  }

  lemma {:induction false} InsertReplays(rows: seq<UpdateRow>, row: UpdateRow)
    requires InReplayOrder(rows)
    ensures InReplayOrder(InsertByTime(rows, row))
  {
    if rows != [] && !ReplaysBefore(rows[|rows| - 1], row) {
      var front, last := rows[..|rows| - 1], rows[|rows| - 1];
      InsertReplays(front, row);
      InsertMembers(front, row);
      forall i | 0 <= i < |InsertByTime(front, row)| ensures ReplaysBefore(InsertByTime(front, row)[i], last) {
      }
    }
  }

  /** Updates are replayed by (time, hash), each exactly once. */
  lemma {:induction false} SortReplays(rows: seq<UpdateRow>)
    ensures InReplayOrder(SortByTime(rows)) && multiset(SortByTime(rows)) == multiset(rows)
  {
    if rows != [] {
      SortReplays(rows[..|rows| - 1]);
      InsertOnce(SortByTime(rows[..|rows| - 1]), rows[|rows| - 1]);
      InsertReplays(SortByTime(rows[..|rows| - 1]), rows[|rows| - 1]);
      assert rows == rows[..|rows| - 1] + [rows[|rows| - 1]];
    }
  }

  lemma {:induction false} PayloadsAreTheUpdates(rows: seq<UpdateRow>)
    ensures multiset(seq(|rows|, i requires 0 <= i < |rows| => rows[i].update)) == Payloads(rows)
  {
    if rows != [] {
      var front := rows[..|rows| - 1];
      var all := seq(|rows|, i requires 0 <= i < |rows| => rows[i].update);
      assert all == seq(|front|, i requires 0 <= i < |front| => front[i].update) + [rows[|rows| - 1].update];
      PayloadsAreTheUpdates(front);
    }
  }

  /** A read of the updates sees each update of the document, in replay order. */
  lemma LoadedUpdates(d: Documents, key: DocumentKey)
    ensures |LoadUpdates(d, key)| == |RowsOf(d.updates, key)|
    ensures multiset(LoadUpdates(d, key)) == Payloads(RowsOf(d.updates, key))
  {
    PayloadsOfSort(RowsOf(d.updates, key));
    PayloadsAreTheUpdates(SortByTime(RowsOf(d.updates, key)));
  }

  // ------------------------------------------------------------- one commit

  /** What the staging handler promises of the commit it is about to submit. The update
      was staged from the document as it was when its updates were read, some commits
      may have landed since. */
  ghost predicate Prepared(d: Documents, c: LocalCommit) {
    var rows := RowsOf(d.updates, c.document);
    && c.record.log == LogId(c.document)
    && (c.record.sequence == 0 ==> c.record.backlink == None)
    && c.expectedUpdates <= |rows|
    && c.update.base == Payloads(rows[..c.expectedUpdates])
    && c.response == Response(c.record.hash, c.expectedUpdates + 1, c.update.base + multiset{c.update})
  }

  function Committed(d: Documents, c: LocalCommit, now: int): Documents {
    InsertKey(InsertRows(d, c, now), c)
  }

  /** The commit passed every check of the transaction. */
  ghost predicate Admitted(d: Documents, c: LocalCommit) {
    && Prepared(d, c)
    && CommitGuards(d, c) == Ok(())
    && (c.command.caller, c.command.key) !in d.idempotency
  }

  lemma LogOfAppend(operations: seq<Operation>, o: Operation, author: Hash, log: LogId)
    ensures LogOf(operations + [o], author, log) ==
              LogOf(operations, author, log) + (if o.author == author && o.log == log then [o] else [])
  {
  }

  lemma CommitKeepsTables(d: Documents, c: LocalCommit, now: int)
    requires TablesAligned(d) && Admitted(d, c)
    ensures TablesAligned(Committed(d, c, now))
  {
    var d' := Committed(d, c, now);
    forall i | 0 <= i < |d'.operations| ensures SameOperation(d', i) {
      if i < |d.operations| { assert SameOperation(d, i); }
    }
    forall i, j | 0 <= i < j < |d'.operations| ensures d'.operations[i].hash != d'.operations[j].hash {
      if j == |d.operations| { assert d.operations[i] in d.operations; }
    }
  }

  lemma CommitKeepsLogs(d: Documents, c: LocalCommit, now: int)
    requires LogsLinked(d) && Admitted(d, c)
    ensures LogsLinked(Committed(d, c, now))
  {
    var d' := Committed(d, c, now);
    var o := OperationRow(c, now);
    forall i | 0 <= i < |d'.operations| ensures Continues(d'.operations, i) {
      if i < |d.operations| {
        assert Continues(d.operations, i);
        assert d'.operations[..i] == d.operations[..i];
      } else {
        assert d'.operations[..i] == d.operations;
        assert HeadOf(d, o.author, o.log) == TipOf(LogOf(d.operations, o.author, o.log));
      }
    }
    forall author, log ensures HeadOf(d', author, log) == TipOf(LogOf(d'.operations, author, log)) {
      LogOfAppend(d.operations, o, author, log);
      assert HeadOf(d, author, log) == TipOf(LogOf(d.operations, author, log));
    }
  }

  lemma {:induction false} PayloadsSize(rows: seq<UpdateRow>)
    ensures |Payloads(rows)| == |rows|
  {
    if rows != [] {
      PayloadsSize(rows[..|rows| - 1]);
    }
  }

  /** Of the two checks the update count is the one that decides: a prepared commit loses
      no update exactly when its document has the updates it was staged from and no more. */
  lemma CountCheckDecides(d: Documents, c: LocalCommit, now: int)
    requires NoLostUpdate(d) && Prepared(d, c)
    ensures NoLostUpdate(Committed(d, c, now)) <==> |RowsOf(d.updates, c.document)| == c.expectedUpdates
  {
    var d', n, rows := Committed(d, c, now), |d.updates|, RowsOf(d.updates, c.document);
    assert d'.updates[..n] == d.updates;
    PayloadsSize(rows);
    PayloadsSize(rows[..c.expectedUpdates]);
    assert rows[..|rows|] == rows;
    assert StagedFromAll(d'.updates, n) <==> |rows| == c.expectedUpdates;
    forall i | 0 <= i < n ensures StagedFromAll(d'.updates, i) {
      assert StagedFromAll(d.updates, i);
      assert d'.updates[..i] == d.updates[..i];
    }
  }

  /** An old response still reports the same thing once more rows are appended. */
  lemma ReportsStay(d: Documents, d': Documents, response: Response, i: nat)
    requires i < |d.operations| && i < |d.updates| && Reports(d, response, i)
    requires d.operations <= d'.operations && d.updates <= d'.updates
    ensures Reports(d', response, i)
  {
    assert d'.updates[..i + 1] == d.updates[..i + 1];
  }

  lemma CommitReports(d: Documents, c: LocalCommit, now: int)
    requires TablesAligned(d) && Admitted(d, c)
    ensures Reports(Committed(d, c, now), c.response, |d.operations|)
  {
    var d' := Committed(d, c, now);
    var row := UpdateRowOf(c, now);
    assert d'.updates[..|d.operations| + 1] == d.updates + [row];
    var rows := RowsOf(d.updates, c.document);
    RowsOfAppend(d.updates, row, c.document);
    PayloadsAppend(rows, row);
    assert rows[..|rows|] == rows;
  }

  lemma OldAnswersStay(d: Documents, c: LocalCommit, now: int, response: Response)
    requires TablesAligned(d) && Admitted(d, c) && Answered(d, response)
    requires SameLengths(Committed(d, c, now))
    ensures Answered(Committed(d, c, now), response) && response.operation != c.record.hash
  {
    var i :| 0 <= i < |d.operations| && Reports(d, response, i);
    ReportsStay(d, Committed(d, c, now), response, i);
    assert d.operations[i] in d.operations;
  }

  lemma AddKey(keys: Keys, operations: seq<Operation>, key: (string, string), row: IdempotencyRow, o: Operation)
    requires KeysMatch(keys, operations) && key !in keys && row.response.operation == o.hash
    requires forall k :: k in keys ==> keys[k].response.operation != o.hash
    ensures KeysMatch(keys[key := row], operations + [o])
  {
    var keys' := keys[key := row];
    forall p | p in operations + [o]
      ensures exists k :: k in keys' && keys'[k].response.operation == p.hash
    {
      if p in operations {
        var k :| k in keys && keys[k].response.operation == p.hash;
        assert keys'[k] == keys[k];
      } else {
        assert keys'[key].response.operation == o.hash;
      }
    }
  }

  lemma CommitKeepsAnswers(d: Documents, c: LocalCommit, now: int)
    requires TablesAligned(d) && KeyedOnce(d) && Admitted(d, c) && SameLengths(Committed(d, c, now))
    ensures forall k :: k in d.idempotency ==>
              Answered(Committed(d, c, now), d.idempotency[k].response) &&
                  d.idempotency[k].response.operation != c.record.hash
  {
    forall k | k in d.idempotency
      ensures Answered(Committed(d, c, now), d.idempotency[k].response) &&
                d.idempotency[k].response.operation != c.record.hash
    {
      OldAnswersStay(d, c, now, d.idempotency[k].response);
    }
  }

  lemma NewAnswer(d: Documents, c: LocalCommit, now: int)
    requires TablesAligned(d) && Admitted(d, c) && SameLengths(Committed(d, c, now))
    ensures Answered(Committed(d, c, now), c.response)
  {
    CommitReports(d, c, now);
  }

  lemma CommitKeepsKeys(d: Documents, c: LocalCommit, now: int)
    requires TablesAligned(d) && KeyedOnce(d) && Admitted(d, c) && SameLengths(Committed(d, c, now))
    ensures KeyedOnce(Committed(d, c, now))
  {
    CommitKeepsAnswers(d, c, now);
    NewAnswer(d, c, now);
    var d' := Committed(d, c, now);
    forall k | k in d'.idempotency ensures Answered(d', d'.idempotency[k].response) {
      assert k == (c.command.caller, c.command.key) || k in d.idempotency;
    }
    var row := IdempotencyRow(c.command.requestHash, c.response);
    AddKey(d.idempotency, d.operations, (c.command.caller, c.command.key), row, OperationRow(c, now));
  }

  lemma CommitKeepsDocuments(d: Documents, c: LocalCommit, now: int)
    requires DocumentsInv(d) && Admitted(d, c)
    ensures DocumentsInv(Committed(d, c, now))
  {
    CommitKeepsTables(d, c, now);
    CommitKeepsLogs(d, c, now);
    CountCheckDecides(d, c, now);
    CommitKeepsKeys(d, c, now);
  }

  lemma EmptyDocuments()
    ensures DocumentsInv(EMPTY_DOCUMENTS)
  {
  }

  // ---------------------------------------------------------- growth of the tables

  /** Rows are only ever appended, and a stored response is never replaced. */
  ghost predicate Extends(d: Documents, d': Documents) {
    && d.operations <= d'.operations
    && d.updates <= d'.updates
    && d.changes <= d'.changes
    && d.outbox <= d'.outbox
    && d.idempotency.Keys <= d'.idempotency.Keys
    && (forall k :: k in d.idempotency ==> d'.idempotency[k] == d.idempotency[k])
  }

  lemma PreparedStays(d: Documents, d': Documents, c: LocalCommit)
    requires Prepared(d, c) && Extends(d, d')
    ensures Prepared(d', c)
  {
    var rows, rows' := RowsOf(d.updates, c.document), RowsOf(d'.updates, c.document);
    RowsOfPrefix(d'.updates, |d.updates|, c.document);
    assert d'.updates[..|d.updates|] == d.updates;
    assert rows'[..c.expectedUpdates] == rows[..c.expectedUpdates];
  }

  /** Nobody but `author` wrote the document in the first `n` operations. */
  ghost predicate SoleAuthor(operations: seq<Operation>, n: nat, author: Hash, key: DocumentKey)
    requires n <= |operations|
  {
    forall j :: 0 <= j < n && operations[j].document == key ==> operations[j].author == author
  }

  /** An author's log of a document is as long as the document's history exactly when
      nobody else wrote it. */
  lemma {:induction false} OneAuthorRevision(d: Documents, n: nat, author: Hash, key: DocumentKey)
    requires TablesAligned(d) && LogsLinked(d) && n <= |d.operations|
    ensures |LogOf(d.operations[..n], author, LogId(key))| <= |RowsOf(d.updates[..n], key)|
    ensures |LogOf(d.operations[..n], author, LogId(key))| == |RowsOf(d.updates[..n], key)| <==>
              SoleAuthor(d.operations, n, author, key)
  {
    if n > 0 {
      OneAuthorRevision(d, n - 1, author, key);
      assert SameOperation(d, n - 1) && Continues(d.operations, n - 1);
      assert d.updates[..n] == d.updates[..n - 1] + [d.updates[n - 1]];
      assert d.operations[..n] == d.operations[..n - 1] + [d.operations[n - 1]];
      RowsOfAppend(d.updates[..n - 1], d.updates[n - 1], key);
      LogOfAppend(d.operations[..n - 1], d.operations[n - 1], author, LogId(key));
    }
  }

  /** An acknowledged revision is the sequence number of its operation plus one exactly
      when the document had no other author before, and never less. */
  lemma RevisionIsSequencePlusOne(d: Documents, response: Response, i: nat)
    requires TablesAligned(d) && LogsLinked(d) && i < |d.operations| && Reports(d, response, i)
    ensures response.revision >= d.operations[i].sequence + 1
    ensures response.revision == d.operations[i].sequence + 1 <==>
              SoleAuthor(d.operations, i, d.operations[i].author, d.operations[i].document)
  {
    OneAuthorRevision(d, i, d.operations[i].author, d.operations[i].document);
    RevisionCounts(d, response, i);
  }

  lemma RevisionCounts(d: Documents, response: Response, i: nat)
    requires TablesAligned(d) && LogsLinked(d) && i < |d.operations| && Reports(d, response, i)
    ensures response.revision == |RowsOf(d.updates[..i], d.operations[i].document)| + 1
    ensures d.operations[i].sequence ==
              |LogOf(d.operations[..i], d.operations[i].author, LogId(d.operations[i].document))|
  {
    assert Continues(d.operations, i) && SameOperation(d, i);
    assert d.updates[..i + 1] == d.updates[..i] + [d.updates[i]];
    RowsOfAppend(d.updates[..i], d.updates[i], d.operations[i].document);
  }
}
