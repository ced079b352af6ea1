/** What contention does to a mutation: of the two commit checks the one on the update
    count cannot be dropped, and a second author's log falls behind the document. */
module Contention {
  import opened Wrappers
  import opened Domain
  import opened Database
  import opened Protocol
  import opened Safety
  import opened Progress
  import Docs = DocumentLog

  /** One commit later the head has moved to it and the document has one update more. */
  lemma AfterCommit(db: Db, c: LocalCommit, now: Clock, db': Db)
    requires CommitLocal(db, c, now) == Ok(db') && c.projections == []
    ensures HeadOf(db'.docs, c.record.author, c.record.log) == Some(LogHead(c.record.sequence, c.record.hash))
    ensures |RowsOf(db'.docs.updates, c.document)| == |RowsOf(db.docs.updates, c.document)| + 1
    ensures Payloads(RowsOf(db'.docs.updates, c.document)) ==
              Payloads(RowsOf(db.docs.updates, c.document)) + multiset{c.update}
  {
  }

  // ------------------------------------------------------- two racing mutations

  /** A commit staged before another one landed, on top of the head the other one left. */
  lemma StaleCommitRefused(db: Db, w: Write, loaded: seq<Update>, forged: Forged, now: Clock, landed: Update)
    requires var head := HeadOf(db.docs, forged.author, LogId(w.document)); head.Some? && head.value.sequence < U32_MAX
    requires |RowsOf(db.docs.updates, w.document)| == |loaded| + 1
    requires Payloads(RowsOf(db.docs.updates, w.document)) == multiset(loaded) + multiset{landed}
    ensures StaleYetLinked(db, Stage(w, loaded, HeadOf(db.docs, forged.author, LogId(w.document)), forged), now)
  {
  }

  /** The commit continues the log, was staged from a document that has moved on, and is
      refused: the log-head check passes, the update count does not. */
  ghost predicate StaleYetLinked(db: Db, c: LocalCommit, now: Clock) {
    && ExtendsHead(HeadOf(db.docs, c.record.author, c.record.log), c.record)
    && c.update.base != Payloads(RowsOf(db.docs.updates, c.document))
    && CommitLocal(db, c, now) == Err(Conflict)
  }

  /** A mutation goes from its entry to the read of the log head. */
  lemma ReachesHead(s: System, id: nat, w: Write, now: Clock, forged: Forged) returns (more: seq<Label>)
    requires id !in s.tasks && Starts(MutateLookup(w)) && Expects(s.db.docs, w)
    requires (w.command.caller, w.command.key) !in s.db.docs.idempotency
    ensures After(s, more) == Goto(s, id, ReadingHead(w, LoadUpdates(s.db.docs, w.document)))
  {
    var s1, head := Goto(s, id, LockedLookup(w)), ReadingHead(w, LoadUpdates(s.db.docs, w.document));
    var a := MutationReachesLock(s, id, w, now, forged);
    var b := LockedReadsHead(s1, id, w, now, forged);
    AfterSplit(s, a, b);
    assert Goto(s1, id, head).tasks == Goto(s, id, head).tasks;
    more := a + b;
  }

  /** Both requests have read the updates, neither the head. */
  function BothRead(s: System, a: nat, b: nat, w: Write, w': Write): System {
    var loaded := LoadUpdates(s.db.docs, w.document);
    s.(tasks := s.tasks[a := ReadingHead(w, loaded)][b := ReadingHead(w', loaded)])
  }

  lemma BothReachHead(s: System, a: nat, b: nat, w: Write, w': Write, now: Clock, forged: Forged)
    returns (more: seq<Label>)
    requires a !in s.tasks && b !in s.tasks && a != b && w.document == w'.document
    requires Starts(MutateLookup(w)) && Starts(MutateLookup(w')) && Expects(s.db.docs, w) && Expects(s.db.docs, w')
    requires (w.command.caller, w.command.key) !in s.db.docs.idempotency
    requires (w'.command.caller, w'.command.key) !in s.db.docs.idempotency
    ensures After(s, more) == BothRead(s, a, b, w, w')
  {
    var first := ReachesHead(s, a, w, now, forged);
    var s1 := Goto(s, a, ReadingHead(w, LoadUpdates(s.db.docs, w.document)));
    var second := ReachesHead(s1, b, w', now, forged);
    AfterSplit(s, first, second);
    more := first + second;
  }

  /** The second request commits, then the first reads the head. */
  lemma SecondCommitsFirst(s: System, a: nat, b: nat, w: Write, w': Write, first: LocalCommit, forged: Forged,
          forged': Forged, now: Clock)
    returns (more: seq<Label>)
    requires a != b && w.document == w'.document && HeadRoom(s.db.docs, w'.document, forged'.author)
    requires first == Fresh(s.db.docs, w', forged') && CommitLocal(s.db, first, now).Ok?
    requires HeadRoom(CommitLocal(s.db, first, now).value.docs, w.document, forged.author)
    ensures var db' := CommitLocal(s.db, first, now).value;
            var s' := After(BothRead(s, a, b, w, w'), more);
            && s'.db == db' && a in s'.tasks
            && s'.tasks[a] ==
                Committing(Stage(w, LoadUpdates(s.db.docs, w.document),
                    HeadOf(db'.docs, forged.author, LogId(w.document)), forged))
  {
    var s2, loaded := BothRead(s, a, b, w, w'), LoadUpdates(s.db.docs, w.document);
    var m := HeadCommits(s2, b, w', loaded, first, now, forged');
    HeadMovesOn(Committed(s2, b, first, now), a, w, loaded, now, forged);
    AfterMore(s2, m, Call(a, now, forged));
    more := m + [Call(a, now, forged)];
  }

  /** From every reachable state two mutations of one document can race so that the first
      stages its update before the second commits and reads the head after: it passes the
      head check, and only the update count shows that its document has moved on. */
  lemma HeadCheckAloneIsNotEnough(labels: seq<Label>, a: nat, b: nat, w: Write, w': Write, forged: Forged,
          forged': Forged, now: Clock)
    returns (more: seq<Label>)
    requires var s := Run(labels);
             && a !in s.tasks && b !in s.tasks && a != b && w.document == w'.document && forged.author == forged'.author
             && Starts(MutateLookup(w)) && Starts(MutateLookup(w')) && Expects(s.db.docs, w) && Expects(s.db.docs, w')
             && (w.command.caller, w.command.key) !in s.db.docs.idempotency &&
                 Unused(s.db.docs, w'.command, forged'.hash)
             && var head := HeadOf(s.db.docs, forged.author, LogId(w.document)); head.Some? ==>
                 head.value.sequence < U32_MAX - 1
    ensures var s' := Run(labels + more);
            a in s'.tasks && s'.tasks[a].Committing? && StaleYetLinked(s'.db, s'.tasks[a].commit, now)
  {
    RunInv(labels);
    more := RaceFrom(Run(labels), a, b, w, w', forged, forged', now);
    RunAfter(labels, more);
  }

  lemma RaceFrom(s: System, a: nat, b: nat, w: Write, w': Write, forged: Forged, forged': Forged, now: Clock)
    returns (more: seq<Label>)
    requires DbInv(s.db) && a !in s.tasks && b !in s.tasks && a != b && w.document == w'.document &&
              forged.author == forged'.author
    requires Starts(MutateLookup(w)) && Starts(MutateLookup(w')) && Expects(s.db.docs, w) && Expects(s.db.docs, w')
    requires (w.command.caller, w.command.key) !in s.db.docs.idempotency && Unused(s.db.docs, w'.command, forged'.hash)
    requires var head := HeadOf(s.db.docs, forged.author, LogId(w.document)); head.Some? ==>
              head.value.sequence < U32_MAX - 1
    ensures var s' := After(s, more);
            a in s'.tasks && s'.tasks[a].Committing? && StaleYetLinked(s'.db, s'.tasks[a].commit, now)
  {
    var loaded, first := LoadUpdates(s.db.docs, w.document), Fresh(s.db.docs, w', forged');
    FreshCommitGoesThrough(s.db, w', forged', now);
    var db' := CommitLocal(s.db, first, now).value;
    AfterCommit(s.db, first, now, db');
    Docs.LoadedUpdates(s.db.docs, w.document);
    StaleCommitRefused(db', w, loaded, forged, now, first.update);
    var m := BothReachHead(s, a, b, w, w', now, forged);
    var n := SecondCommitsFirst(s, a, b, w, w', first, forged, forged', now);
    AfterSplit(s, m, n);
    more := m + n;
  }

  // ------------------------------------------------------------ a second author

  /** A writer new to a document that has been written starts a log of its own: its first
      operation has sequence 0, its revision counts everybody's updates. */
  lemma SecondAuthorRunsAhead(labels: seq<Label>, id: nat, w: Write, forged: Forged, now: Clock)
    returns (more: seq<Label>, i: nat)
    requires var s := Run(labels);
             && id !in s.tasks && Starts(MutateLookup(w)) && Expects(s.db.docs, w) &&
                 Unused(s.db.docs, w.command, forged.hash)
             && HeadOf(s.db.docs, forged.author, LogId(w.document)) == None &&
                 RowsOf(s.db.docs.updates, w.document) != []
    ensures var s, s' := Run(labels), Run(labels + more);
            && s'.answers != [] && i < |s'.db.docs.operations|
            && var a, o := s'.answers[|s'.answers| - 1], s'.db.docs.operations[i];
            && a.command == w.command && a.response.operation == o.hash && o.sequence == 0
            && a.response.revision == |RowsOf(s.db.docs.updates, w.document)| + 1 > o.sequence + 1
  {
    RunInv(labels);
    var s := Run(labels);
    more := UndisturbedMutationCommits(s, id, w, forged, now);
    RunAfter(labels, more);
    i := |s.db.docs.operations|;
    CommitParts(s.db, Fresh(s.db.docs, w, forged), now, CommitLocal(s.db, Fresh(s.db.docs, w, forged), now).value);
  }
}
