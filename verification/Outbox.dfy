/** Outbox leases: what a claim selects and leases, what an acknowledgement may settle,
    and what that means for every operation and transport over any history. */
module Outbox {
  import opened Wrappers
  import opened Domain
  import opened Database

  datatype Candidate = Candidate(id: nat, hash: Hash, size: nat, priority: int)

  // -------------------------------------------------------------- selection

  function OperationOf(operations: seq<Operation>, hash: Hash): Option<Operation> {
    if operations == [] then None
    else if operations[0].hash == hash then Some(operations[0])
    else OperationOf(operations[1..], hash)
  }

  /** Never leased to this transport, or leased and run out. */
  predicate Unleased(deliveries: Deliveries, hash: Hash, transport: string, now: int) {
    (hash, transport) !in deliveries ||
    (var d := deliveries[(hash, transport)]; d.state == Claimed && d.leaseUntil.Some? && d.leaseUntil.value < now)
  }

  /** The outbox rows a transport may claim now, joined with their operations. */
  function Ready(docs: Documents, rows: seq<OutboxRow>, deliveries: Deliveries, transport: string,
          now: int): seq<Candidate> {
    if rows == [] then []
    else
      var earlier := Ready(docs, rows[..|rows| - 1], deliveries, transport, now);
      var row := rows[|rows| - 1];
      match OperationOf(docs.operations, row.hash)
      case Some(o) =>
        if row.available <= now && Unleased(deliveries, row.hash, transport, now)
        then earlier + [Candidate(row.id, row.hash, |o.header| + |o.body|, row.priority)] else earlier
      case None => earlier
  }

  function InsertByPriority(sorted: seq<Candidate>, c: Candidate): seq<Candidate> {
    if sorted == [] || sorted[|sorted| - 1].priority <= c.priority then sorted + [c]
    else InsertByPriority(sorted[..|sorted| - 1], c) + [sorted[|sorted| - 1]]
  }

  /** `ORDER BY priority ASC, outbox_id ASC`: rows come in id order and keep it. */
  function ByPriority(rows: seq<Candidate>): seq<Candidate> {
    if rows == [] then [] else InsertByPriority(ByPriority(rows[..|rows| - 1]), rows[|rows| - 1])
  }

  function Limited(rows: seq<Candidate>, limit: nat): seq<Candidate> {
    var n := if limit < 256 then limit else 256;
    if |rows| <= n then rows else rows[..n]
  }

  function Candidates(docs: Documents, deliveries: Deliveries, transport: string, now: int,
          limit: nat): seq<Candidate> {
    Limited(ByPriority(Ready(docs, docs.outbox, deliveries, transport, now)), limit)
  }

  /** `priority ASC, outbox_id ASC` */
  predicate Precedes(a: Candidate, b: Candidate) {
    a.priority < b.priority || (a.priority == b.priority && a.id < b.id)
  }

  ghost predicate Ordered(rows: seq<Candidate>) {
    forall i, j :: 0 <= i < j < |rows| ==> Precedes(rows[i], rows[j])
  }

  ghost predicate IdsGrow(rows: seq<OutboxRow>) {
    forall i, j :: 0 <= i < j < |rows| ==> rows[i].id < rows[j].id
  }

  lemma {:induction false} InsertOnce(sorted: seq<Candidate>, c: Candidate)
    ensures multiset(InsertByPriority(sorted, c)) == multiset(sorted) + multiset{c}
  {
    if sorted == [] || sorted[|sorted| - 1].priority <= c.priority {
    } else {
      assert sorted == sorted[..|sorted| - 1] + [sorted[|sorted| - 1]];
      InsertOnce(sorted[..|sorted| - 1], c);
    }
  }

  lemma {:induction false} InsertOrders(sorted: seq<Candidate>, c: Candidate)
    requires Ordered(sorted) && forall i :: 0 <= i < |sorted| ==> sorted[i].id < c.id
    ensures Ordered(InsertByPriority(sorted, c))
  {
    if sorted == [] || sorted[|sorted| - 1].priority <= c.priority {
    } else {
      var front, last := sorted[..|sorted| - 1], sorted[|sorted| - 1];
      InsertOrders(front, c);
      InsertKeepsRows(front, c);
      var inserted := InsertByPriority(front, c);
      forall i | 0 <= i < |inserted| ensures Precedes(inserted[i], last) {
        assert inserted[i] in inserted;
        assert inserted[i] in front || inserted[i] == c;
      }
    }
  }

  lemma {:induction false} SortOrders(rows: seq<Candidate>)
    requires forall i, j :: 0 <= i < j < |rows| ==> rows[i].id < rows[j].id
    ensures Ordered(ByPriority(rows)) && multiset(ByPriority(rows)) == multiset(rows)
  {
    if rows != [] {
      var front, last := rows[..|rows| - 1], rows[|rows| - 1];
      assert rows == front + [last];
      SortOrders(front);
      forall i | 0 <= i < |ByPriority(front)| ensures ByPriority(front)[i].id < last.id {
        assert ByPriority(front)[i] in multiset(front);
      }
      InsertOnce(ByPriority(front), last);
      InsertOrders(ByPriority(front), last);
    }
  }

  lemma {:induction false} ReadyInIdOrder(docs: Documents, rows: seq<OutboxRow>, deliveries: Deliveries,
          transport: string, now: int)
    requires IdsGrow(rows)
    ensures var ready := Ready(docs, rows, deliveries, transport, now);
            && (forall i, j :: 0 <= i < j < |ready| ==> ready[i].id < ready[j].id)
            && (rows != [] ==> forall c :: c in ready ==> c.id <= rows[|rows| - 1].id)
  {
    if rows != [] {
      var front := rows[..|rows| - 1];
      ReadyInIdOrder(docs, front, deliveries, transport, now);
    }
  }

  /** The chosen rows are the first of the ready ones by priority and id, in that order,
      and as many as the limit and the hard limit of 256 allow. */
  ghost predicate MostUrgent(ready: seq<Candidate>, chosen: seq<Candidate>, limit: nat) {
    && |chosen| == (if |ready| <= limit && |ready| <= 256 then |ready| else if limit < 256 then limit else 256)
    && Ordered(chosen)
    && (forall c :: c in chosen ==> c in ready)
    && (forall c, r :: c in chosen && r in ready && r !in chosen ==> Precedes(c, r))
  }

  lemma MostUrgentFirst(docs: Documents, deliveries: Deliveries, transport: string, now: int, limit: nat)
    requires IdsGrow(docs.outbox)
    ensures MostUrgent(Ready(docs, docs.outbox, deliveries, transport, now),
              Candidates(docs, deliveries, transport, now, limit), limit)
  {
    var ready := Ready(docs, docs.outbox, deliveries, transport, now);
    ReadyInIdOrder(docs, docs.outbox, deliveries, transport, now);
    SortedAll(ready);
    FrontPrecedes(ByPriority(ready), |Limited(ByPriority(ready), limit)|);
  }

  lemma SortedAll(rows: seq<Candidate>)
    requires forall i, j :: 0 <= i < j < |rows| ==> rows[i].id < rows[j].id
    ensures Ordered(ByPriority(rows)) && |ByPriority(rows)| == |rows|
    ensures forall c :: c in ByPriority(rows) <==> c in rows
  {
    SortOrders(rows);
    SortKeepsRows(rows);
    assert |multiset(ByPriority(rows))| == |multiset(rows)|;
  }

  lemma FrontPrecedes(all: seq<Candidate>, n: nat)
    requires Ordered(all) && n <= |all|
    ensures Ordered(all[..n]) && forall c, r :: c in all[..n] && r in all && r !in all[..n] ==> Precedes(c, r)
  {
  }

  function Total(rows: seq<Candidate>): nat {
    if rows == [] then 0 else Total(rows[..|rows| - 1]) + rows[|rows| - 1].size
  }

  function DropOversized(rows: seq<Candidate>, budget: nat): seq<Candidate> {
    if rows != [] && rows[0].size > budget then DropOversized(rows[1..], budget) else rows
  }

  /** The longest prefix whose total size stays within the budget. */
  ghost predicate LongestPrefix(rows: seq<Candidate>, budget: nat, chosen: seq<Candidate>) {
    && chosen <= rows
    && Total(chosen) <= budget
    && (|chosen| < |rows| ==> Total(rows[..|chosen| + 1]) > budget)
  }

  /** What the claim loop keeps of its candidates. */
  function Selected(rows: seq<Candidate>, budget: nat): seq<Candidate> {
    Within(DropOversized(rows, budget), budget, 0)
  }

  /** Extend a prefix of `n` rows while the budget allows. */
  function Within(rows: seq<Candidate>, budget: nat, n: nat): seq<Candidate>
    requires n <= |rows|
    decreases |rows| - n
  {
    if n == |rows| || Total(rows[..n + 1]) > budget then rows[..n] else Within(rows, budget, n + 1)
  }

  lemma {:induction false} WithinIsLongest(rows: seq<Candidate>, budget: nat, n: nat)
    requires n <= |rows| && Total(rows[..n]) <= budget
    ensures LongestPrefix(rows, budget, Within(rows, budget, n))
    decreases |rows| - n
  {
    if n == |rows| || Total(rows[..n + 1]) > budget {
    } else {
      WithinIsLongest(rows, budget, n + 1);
    }
  }

  lemma {:induction false} TotalGrows(rows: seq<Candidate>, n: nat, m: nat)
    requires n <= m <= |rows|
    ensures Total(rows[..n]) <= Total(rows[..m])
  {
    if n < m {
      TotalGrows(rows, n, m - 1);
      assert rows[..m][..m - 1] == rows[..m - 1];
    }
  }

  /** There is only one longest prefix. */
  lemma LongestIsUnique(rows: seq<Candidate>, budget: nat, a: seq<Candidate>, b: seq<Candidate>)
    requires LongestPrefix(rows, budget, a) && LongestPrefix(rows, budget, b)
    ensures a == b
  {
    assert rows[..|a|] == a && rows[..|b|] == b;
    if |a| < |b| {
      TotalGrows(rows, |a| + 1, |b|);
    } else if |b| < |a| {
      TotalGrows(rows, |b| + 1, |a|);
    }
  }

  /** Dropping removes leading oversized rows, all of them and nothing else. */
  lemma {:induction false} Dropped(rows: seq<Candidate>, budget: nat) returns (n: nat)
    ensures n <= |rows| && DropOversized(rows, budget) == rows[n..]
    ensures forall k :: 0 <= k < n ==> rows[k].size > budget
    ensures n < |rows| ==> rows[n].size <= budget
  {
    n := 0;
    if rows != [] && rows[0].size > budget {
      var m := Dropped(rows[1..], budget);
      n := m + 1;
    }
  }

  /** A claim keeps the longest prefix within its budget of what is left once leading
      oversized rows are dropped; it comes back empty only when no row fits at all. */
  lemma SelectionExact(rows: seq<Candidate>, budget: nat)
    ensures LongestPrefix(DropOversized(rows, budget), budget, Selected(rows, budget))
    ensures Selected(rows, budget) == [] <==> forall c :: c in rows ==> c.size > budget
  {
    var rest := DropOversized(rows, budget);
    assert rest[..0] == [];
    WithinIsLongest(rest, budget, 0);
    var n := Dropped(rows, budget);
    if n < |rows| {
      assert rest[..1] == [rows[n]] && rest[..1][..0] == [];
      assert Total(rest[..1]) == rows[n].size;
      assert rows[n] in rows;
    }
  }

  // ----------------------------------------------------- facts about the loop

  lemma TotalSnoc(rows: seq<Candidate>, c: Candidate)
    ensures Total(rows + [c]) == Total(rows) + c.size
  {
  }

  lemma {:induction false} DropsTo(rows: seq<Candidate>, budget: nat, n: nat)
    requires n <= |rows| && (forall k :: 0 <= k < n ==> rows[k].size > budget)
    requires n < |rows| ==> rows[n].size <= budget
    ensures DropOversized(rows, budget) == rows[n..]
  {
    if n > 0 {
      DropsTo(rows[1..], budget, n - 1);
    }
  }

  /** What the loop has taken when it ends is the selection. */
  lemma LoopSelects(rows: seq<Candidate>, start: nat, i: nat, budget: nat)
    requires start <= i <= |rows| && (forall k :: 0 <= k < start ==> rows[k].size > budget)
    requires Total(rows[start..i]) <= budget && (start < i ==> rows[start].size <= budget)
    requires i < |rows| ==> start < i && Total(rows[start..i + 1]) > budget
    ensures rows[start..i] == Selected(rows, budget)
  {
    DropsTo(rows, budget, start);
    var rest := rows[start..];
    assert rest[..i - start] == rows[start..i];
    if i < |rows| { assert rest[..i - start + 1] == rows[start..i + 1]; }
    SelectionExact(rows, budget);
    LongestIsUnique(rest, budget, rows[start..i], Selected(rows, budget));
  }

  // ----------------------------------------------------------- claim and ack

  datatype Leased = Leased(deliveries: Deliveries, items: seq<OutboxItem>)

  function AttemptsAt(deliveries: Deliveries, at: (Hash, string)): nat {
    if at in deliveries then deliveries[at].attempts else 0
  }

  /** `INSERT … ON CONFLICT DO UPDATE SET attempts=attempts+1` */
  function LeaseOne(deliveries: Deliveries, hash: Hash, transport: string, now: int): Deliveries {
    deliveries[(hash, transport) := Delivery(Claimed, AttemptsAt(deliveries, (hash, transport)) + 1,
        Some(now + LEASE_MS))]
  }

  function LeaseAll(deliveries: Deliveries, rows: seq<Candidate>, transport: string, now: int): Result<Leased,
          Failure> {
    if rows == [] then Ok(Leased(deliveries, []))
    else
      var c := rows[|rows| - 1];
      match LeaseAll(deliveries, rows[..|rows| - 1], transport, now)
      case Err(e) => Err(e)
      case Ok(l) =>
        var attempt := AttemptsAt(l.deliveries, (c.hash, transport)) + 1;
        if attempt > U32_MAX then Err(Invalid)
        else Ok(Leased(LeaseOne(l.deliveries, c.hash, transport, now),
            l.items + [OutboxItem(c.hash, attempt, c.size, c.priority)]))
  }

  function ClaimOutbox(docs: Documents, deliveries: Deliveries, transport: string, now: int, limit: nat,
          maxBytes: nat): Result<Leased, Failure> {
    LeaseAll(deliveries, Selected(Candidates(docs, deliveries, transport, now, limit), maxBytes), transport, now)
  }

  lemma LeaseSnoc(deliveries: Deliveries, rows: seq<Candidate>, c: Candidate, transport: string, now: int)
    requires LeaseAll(deliveries, rows, transport, now).Ok?
    ensures var l := LeaseAll(deliveries, rows, transport, now).value;
            var attempt := AttemptsAt(l.deliveries, (c.hash, transport)) + 1;
            LeaseAll(deliveries, rows + [c], transport, now) ==
              if attempt > U32_MAX then Err(Invalid)
              else Ok(Leased(LeaseOne(l.deliveries, c.hash, transport, now),
                  l.items + [OutboxItem(c.hash, attempt, c.size, c.priority)]))
  {
  }

  lemma {:induction false} FailureSpreads(deliveries: Deliveries, rows: seq<Candidate>, n: nat, transport: string,
          now: int)
    requires n <= |rows| && LeaseAll(deliveries, rows[..n], transport, now) == Err(Invalid)
    ensures LeaseAll(deliveries, rows, transport, now) == Err(Invalid)
  {
    if n < |rows| {
      assert rows[..|rows| - 1][..n] == rows[..n];
      FailureSpreads(deliveries, rows[..|rows| - 1], n, transport, now);
    } else {
      assert rows[..n] == rows;
    }
  }

  /** A row the loop takes but cannot lease makes the whole claim fail. */
  lemma OverflowFails(deliveries: Deliveries, rows: seq<Candidate>, start: nat, i: nat, budget: nat,
          transport: string, now: int)
    requires start <= i < |rows| && (forall k :: 0 <= k < start ==> rows[k].size > budget) && rows[start].size <= budget
    requires Total(rows[start..i + 1]) <= budget
    requires LeaseAll(deliveries, rows[start..i + 1], transport, now) == Err(Invalid)
    ensures LeaseAll(deliveries, Selected(rows, budget), transport, now) == Err(Invalid)
  {
    DropsTo(rows, budget, start);
    SelectionExact(rows, budget);
    var rest, chosen := rows[start..], Selected(rows, budget);
    assert rest[..i + 1 - start] == rows[start..i + 1];
    assert chosen == rest[..|chosen|];
    if |chosen| < i + 1 - start {
      TotalGrows(rest, |chosen| + 1, i + 1 - start);
    }
    assert chosen[..i + 1 - start] == rows[start..i + 1];
    FailureSpreads(deliveries, chosen, i + 1 - start, transport, now);
  }

  // ------------------------------------------------------- the loop, step by step

  /** Where the claim loop stands before row `i`: the rows before `start` can never fit,
      those from `start` on are leased, listed and within the budget. */
  ghost predicate InLoop(rows: seq<Candidate>, start: nat, i: nat, budget: nat, used: nat, saved: Deliveries,
          l: Leased, transport: string, now: int)
  {
    && start <= i <= |rows|
    && (forall k :: 0 <= k < start ==> rows[k].size > budget)
    && (start < i ==> rows[start].size <= budget)
    && (l.items == [] <==> start == i)
    && used == Total(rows[start..i]) <= budget
    && LeaseAll(saved, rows[start..i], transport, now) == Ok(l)
  }

  lemma LoopStarts(rows: seq<Candidate>, budget: nat, saved: Deliveries, transport: string, now: int)
    ensures InLoop(rows, 0, 0, budget, 0, saved, Leased(saved, []), transport, now)
  {
  }

  /** A row that can never fit is passed over while nothing is leased. */
  lemma LoopSkips(rows: seq<Candidate>, start: nat, i: nat, budget: nat, used: nat, saved: Deliveries, l: Leased,
          transport: string, now: int)
    requires InLoop(rows, start, i, budget, used, saved, l, transport, now) && l.items == []
    requires i < |rows| && rows[i].size > budget
    ensures InLoop(rows, i + 1, i + 1, budget, used, saved, l, transport, now)
  {
    assert rows[start..i] == [] && rows[i + 1..i + 1] == [];
  }

  /** A row within the budget is leased, unless its attempts are used up: then the whole
      claim fails. */
  lemma LoopTakes(rows: seq<Candidate>, start: nat, i: nat, budget: nat, used: nat, saved: Deliveries, l: Leased,
          transport: string, now: int)
    requires InLoop(rows, start, i, budget, used, saved, l, transport, now)
    requires i < |rows| && used + rows[i].size <= budget
    ensures var attempt := AttemptsAt(l.deliveries, (rows[i].hash, transport)) + 1;
            if attempt > U32_MAX then LeaseAll(saved, Selected(rows, budget), transport, now) == Err(Invalid)
            else InLoop(rows, start, i + 1, budget, used + rows[i].size, saved,
                     Leased(LeaseOne(l.deliveries, rows[i].hash, transport, now),
                            l.items + [OutboxItem(rows[i].hash, attempt, rows[i].size, rows[i].priority)]),
                     transport, now)
  {
    assert rows[start..i + 1] == rows[start..i] + [rows[i]];
    TotalSnoc(rows[start..i], rows[i]);
    LeaseSnoc(saved, rows[start..i], rows[i], transport, now);
    if LeaseAll(saved, rows[start..i + 1], transport, now).Err? {
      OverflowFails(saved, rows, start, i, budget, transport, now);
    }
  }

  /** When the loop ends, at the last row or at one over the budget, it has claimed. */
  lemma LoopEnds(rows: seq<Candidate>, start: nat, i: nat, budget: nat, used: nat, saved: Deliveries, l: Leased,
          transport: string, now: int)
    requires InLoop(rows, start, i, budget, used, saved, l, transport, now)
    requires i < |rows| ==> l.items != [] && used + rows[i].size > budget
    ensures LeaseAll(saved, Selected(rows, budget), transport, now) == Ok(l)
  {
    if i < |rows| {
      assert rows[start..i + 1] == rows[start..i] + [rows[i]];
      TotalSnoc(rows[start..i], rows[i]);
    }
    LoopSelects(rows, start, i, budget);
  }

  predicate AckMatches(deliveries: Deliveries, ack: Ack, now: int) {
    && (ack.operation, ack.transport) in deliveries
    && var d := deliveries[(ack.operation, ack.transport)];
    && d.state == Claimed && d.attempts == ack.attempt && d.leaseUntil.Some? && d.leaseUntil.value >= now
  }

  function Settled(ack: Ack): DeliveryState { if ack.accepted then Delivered else Rejected }

  function AckOutbox(deliveries: Deliveries, ack: Ack, now: int): Result<Deliveries, Failure> {
    if AckMatches(deliveries, ack, now)
    then Ok(deliveries[(ack.operation, ack.transport) := Delivery(Settled(ack), ack.attempt, None)])
    else Err(Invalid)
  }

  // ---------------------------------------------------------------- history

  /** A lease as it was granted, an acknowledgement as it was accepted. */
  datatype Lease = Lease(operation: Hash, transport: string, attempt: nat, from: int, until: int)

  datatype Settlement = Settlement(ack: Ack, at: int)

  function LeaseKey(l: Lease): (Hash, string) { (l.operation, l.transport) }

  function AckKey(a: Settlement): (Hash, string) { (a.ack.operation, a.ack.transport) }

  /** The record of a lease: no later than the row's generation, and over by the time
      the row's lease is while the row is claimed. */
  ghost predicate LeaseRecorded(deliveries: Deliveries, l: Lease) {
    && LeaseKey(l) in deliveries
    && var d := deliveries[LeaseKey(l)];
    && 1 <= l.attempt <= d.attempts
    && l.until == l.from + LEASE_MS
    && (d.state == Claimed ==> d.leaseUntil.Some? && l.until <= d.leaseUntil.value)
  }

  /** Two leases of one row, the first granted first. */
  ghost predicate LeaseBefore(a: Lease, b: Lease) {
    LeaseKey(a) == LeaseKey(b) ==> a.attempt < b.attempt && a.until < b.from
  }

  /** An accepted acknowledgement settled its row for good, for its last generation and
      within that generation's lease. */
  ghost predicate AckRecorded(deliveries: Deliveries, leases: seq<Lease>, a: Settlement) {
    && AckKey(a) in deliveries
    && deliveries[AckKey(a)] == Delivery(Settled(a.ack), a.ack.attempt, None)
    && exists l :: l in leases && LeaseKey(l) == AckKey(a) && l.attempt == a.ack.attempt && a.at <= l.until
  }

  /** A claimed row's lease is the one its last generation was granted. */
  ghost predicate CurrentLease(deliveries: Deliveries, leases: seq<Lease>, at: (Hash, string))
    requires at in deliveries
  {
    deliveries[at].state == Claimed ==>
      deliveries[at].leaseUntil.Some? &&
      exists l :: l in leases && LeaseKey(l) == at && l.attempt == deliveries[at].attempts &&
          l.until == deliveries[at].leaseUntil.value
  }

  ghost predicate OutboxInv(deliveries: Deliveries, leases: seq<Lease>, acks: seq<Settlement>) {
    && (forall l :: l in leases ==> LeaseRecorded(deliveries, l))
    && (forall i, j :: 0 <= i < j < |leases| ==> LeaseBefore(leases[i], leases[j]))
    && (forall at :: at in deliveries ==> CurrentLease(deliveries, leases, at))
    && (forall a :: a in acks ==> AckRecorded(deliveries, leases, a))
    && (forall i, j :: 0 <= i < j < |acks| ==> AckKey(acks[i]) != AckKey(acks[j]))
  }

  lemma LeaseOneKeeps(deliveries: Deliveries, leases: seq<Lease>, acks: seq<Settlement>, hash: Hash,
          transport: string, now: int)
    requires OutboxInv(deliveries, leases, acks) && Unleased(deliveries, hash, transport, now)
    ensures OutboxInv(LeaseOne(deliveries, hash, transport, now),
                      leases + [Lease(hash, transport, AttemptsAt(deliveries, (hash, transport)) + 1, now,
                          now + LEASE_MS)], acks)
  {
    var at := (hash, transport);
    var d' := LeaseOne(deliveries, hash, transport, now);
    var l := Lease(hash, transport, AttemptsAt(deliveries, at) + 1, now, now + LEASE_MS);
    var leases' := leases + [l];
    forall m | m in leases' ensures LeaseRecorded(d', m) {
      if m in leases { assert LeaseRecorded(deliveries, m); }
    }
    forall i, j | 0 <= i < j < |leases'| ensures LeaseBefore(leases'[i], leases'[j]) {
      if j == |leases| { assert LeaseRecorded(deliveries, leases[i]); }
    }
    forall k | k in d' ensures CurrentLease(d', leases', k) {
      if k == at {
        assert l in leases';
      } else {
        assert CurrentLease(deliveries, leases, k);
      }
    }
    forall a | a in acks ensures AckRecorded(d', leases', a) {
      assert AckRecorded(deliveries, leases, a);
    }
  }

  lemma AckKeeps(deliveries: Deliveries, leases: seq<Lease>, acks: seq<Settlement>, ack: Ack, now: int)
    requires OutboxInv(deliveries, leases, acks) && AckMatches(deliveries, ack, now)
    ensures OutboxInv(AckOutbox(deliveries, ack, now).value, leases, acks + [Settlement(ack, now)])
  {
    var at := (ack.operation, ack.transport);
    var d' := AckOutbox(deliveries, ack, now).value;
    var acks' := acks + [Settlement(ack, now)];
    assert CurrentLease(deliveries, leases, at);
    forall l | l in leases ensures LeaseRecorded(d', l) {
      assert LeaseRecorded(deliveries, l);
    }
    forall k | k in d' ensures CurrentLease(d', leases, k) {
      if k != at { assert CurrentLease(deliveries, leases, k); }
    }
    forall a | a in acks' ensures AckRecorded(d', leases, a) {
      if a in acks { assert AckRecorded(deliveries, leases, a); }
    }
    forall i, j | 0 <= i < j < |acks'| ensures AckKey(acks'[i]) != AckKey(acks'[j]) {
      if j == |acks| { assert AckRecorded(deliveries, leases, acks[i]); }
    }
  }

  // ------------------------------------------------- a whole claim, row by row

  predicate DistinctRows(rows: seq<Candidate>) {
    forall i, j :: 0 <= i < j < |rows| ==> rows[i].hash != rows[j].hash
  }

  ghost predicate AllUnleased(deliveries: Deliveries, rows: seq<Candidate>, transport: string, now: int) {
    forall c :: c in rows ==> Unleased(deliveries, c.hash, transport, now)
  }

  function LeasesOf(items: seq<OutboxItem>, transport: string, now: int): seq<Lease> {
    seq(|items|,
        i requires 0 <= i < |items| => Lease(items[i].operation, transport, items[i].attempt, now, now + LEASE_MS))
  }

  /** Rows outside a claim keep their delivery row. */
  lemma {:induction false} LeaseAllUntouched(deliveries: Deliveries, rows: seq<Candidate>, transport: string,
          now: int, at: (Hash, string))
    requires LeaseAll(deliveries, rows, transport, now).Ok?
    requires at.1 != transport || forall c :: c in rows ==> c.hash != at.0
    ensures var d' := LeaseAll(deliveries, rows, transport, now).value.deliveries;
            (at in d' <==> at in deliveries) && (at in deliveries ==> d'[at] == deliveries[at])
  {
    if rows != [] {
      var front := rows[..|rows| - 1];
      assert forall c :: c in front ==> c in rows;
      assert rows[|rows| - 1] in rows;
      LeaseAllUntouched(deliveries, front, transport, now, at);
    }
  }

  /** The items are the rows, in order, each under its next attempt and leased from now. */
  ghost predicate Serves(items: seq<OutboxItem>, rows: seq<Candidate>, transport: string, now: int,
          before: Deliveries, after: Deliveries) {
    && |items| == |rows|
    && (forall i :: 0 <= i < |rows| ==>
          && items[i] ==
              OutboxItem(rows[i].hash, AttemptsAt(before, (rows[i].hash, transport)) + 1, rows[i].size,
                  rows[i].priority)
          && (rows[i].hash, transport) in after
          && after[(rows[i].hash, transport)] == Delivery(Claimed, items[i].attempt, Some(now + LEASE_MS)))
  }

  /** The delivery row of one of the items. */
  predicate Gains(items: seq<OutboxItem>, transport: string, at: (Hash, string)) {
    at.1 == transport && exists item :: item in items && item.operation == at.0
  }

  /** No other delivery row appears, changes or goes. */
  ghost predicate OnlyLeases(items: seq<OutboxItem>, transport: string, before: Deliveries, after: Deliveries) {
    forall at: (Hash, string) :: Gains(items, transport, at) ||
      ((at in after <==> at in before) && (at in before ==> after[at] == before[at]))
  }

  lemma {:induction false} LeaseAllServes(deliveries: Deliveries, rows: seq<Candidate>, transport: string, now: int)
    requires LeaseAll(deliveries, rows, transport, now).Ok? && DistinctRows(rows)
    ensures var l := LeaseAll(deliveries, rows, transport, now).value;
            Serves(l.items, rows, transport, now, deliveries, l.deliveries)
  {
    if rows != [] {
      var front, c := rows[..|rows| - 1], rows[|rows| - 1];
      LeaseAllServes(deliveries, front, transport, now);
      assert forall i :: 0 <= i < |front| ==> rows[i].hash != c.hash;
      forall x | x in front ensures x.hash != c.hash {
      }
      LeaseAllUntouched(deliveries, front, transport, now, (c.hash, transport));
    }
  }

  function Bytes(items: seq<OutboxItem>): nat {
    if items == [] then 0 else Bytes(items[..|items| - 1]) + items[|items| - 1].size
  }

  lemma {:induction false} SameBytes(items: seq<OutboxItem>, rows: seq<Candidate>)
    requires |items| == |rows| && forall i :: 0 <= i < |rows| ==> items[i].size == rows[i].size
    ensures Bytes(items) == Total(rows)
  {
    if rows != [] {
      SameBytes(items[..|items| - 1], rows[..|rows| - 1]);
    }
  }

  /** What a claim answers and what it does to the delivery rows. */
  ghost predicate ClaimExact(docs: Documents, deliveries: Deliveries, transport: string, now: int, limit: nat,
          maxBytes: nat, l: Leased) {
    var candidates := Candidates(docs, deliveries, transport, now, limit);
    && Serves(l.items, Selected(candidates, maxBytes), transport, now, deliveries, l.deliveries)
    && OnlyLeases(l.items, transport, deliveries, l.deliveries)
    && Bytes(l.items) <= maxBytes
    && (l.items == [] <==> forall c :: c in candidates ==> c.size > maxBytes)
  }

  lemma ClaimAnswers(docs: Documents, deliveries: Deliveries, transport: string, now: int, limit: nat, maxBytes: nat)
    requires forall i, j :: 0 <= i < j < |docs.outbox| ==> docs.outbox[i].hash != docs.outbox[j].hash
    requires ClaimOutbox(docs, deliveries, transport, now, limit, maxBytes).Ok?
    ensures ClaimExact(docs, deliveries, transport, now, limit, maxBytes,
                       ClaimOutbox(docs, deliveries, transport, now, limit, maxBytes).value)
  {
    var candidates := Candidates(docs, deliveries, transport, now, limit);
    var rows, l := Selected(candidates, maxBytes), ClaimOutbox(docs, deliveries, transport, now, limit, maxBytes).value;
    ClaimedRows(docs, deliveries, transport, now, limit, maxBytes);
    LeaseAllServes(deliveries, rows, transport, now);
    SameBytes(l.items, rows);
    SelectionExact(candidates, maxBytes);
    OthersUntouched(deliveries, rows, transport, now);
  }

  lemma OthersUntouched(deliveries: Deliveries, rows: seq<Candidate>, transport: string, now: int)
    requires LeaseAll(deliveries, rows, transport, now).Ok? && DistinctRows(rows)
    ensures var l := LeaseAll(deliveries, rows, transport, now).value; OnlyLeases(l.items, transport, deliveries,
              l.deliveries)
  {
    var l := LeaseAll(deliveries, rows, transport, now).value;
    LeaseAllServes(deliveries, rows, transport, now);
    forall at: (Hash, string) | !Gains(l.items, transport, at)
      ensures (at in l.deliveries <==> at in deliveries) && (at in deliveries ==> l.deliveries[at] == deliveries[at])
    {
      forall c | c in rows && at.1 == transport ensures c.hash != at.0 {
        var i :| 0 <= i < |rows| && rows[i] == c;
        assert l.items[i] in l.items;
      }
      LeaseAllUntouched(deliveries, rows, transport, now, at);
    }
  }

  lemma LeasesSnoc(leases: seq<Lease>, items: seq<OutboxItem>, item: OutboxItem, transport: string, now: int)
    ensures leases + LeasesOf(items + [item], transport, now)
         == (leases + LeasesOf(items, transport, now)) + [Lease(item.operation, transport, item.attempt, now,
             now + LEASE_MS)]
  {
  }

  lemma StillUnleased(deliveries: Deliveries, front: seq<Candidate>, c: Candidate, transport: string, now: int)
    requires LeaseAll(deliveries, front, transport, now).Ok? && Unleased(deliveries, c.hash, transport, now)
    requires forall x :: x in front ==> x.hash != c.hash
    ensures Unleased(LeaseAll(deliveries, front, transport, now).value.deliveries, c.hash, transport, now)
  {
  }

  /** The last row of a claim, once the rows before it are leased. */
  lemma LeaseLast(deliveries: Deliveries, leases: seq<Lease>, acks: seq<Settlement>, front: seq<Candidate>,
          c: Candidate, transport: string, now: int)
    requires LeaseAll(deliveries, front, transport, now).Ok? && LeaseAll(deliveries, front + [c], transport, now).Ok?
    requires var l := LeaseAll(deliveries, front, transport, now).value;
             && OutboxInv(l.deliveries, leases + LeasesOf(l.items, transport, now), acks)
             && Unleased(l.deliveries, c.hash, transport, now)
    ensures var l := LeaseAll(deliveries, front + [c], transport, now).value;
            OutboxInv(l.deliveries, leases + LeasesOf(l.items, transport, now), acks)
  {
    var l := LeaseAll(deliveries, front, transport, now).value;
    LeaseStep(deliveries, front, c, transport, now, l);
    LeaseItemKeeps(l, leases, acks, c, transport, now);
  }

  lemma LeaseStep(deliveries: Deliveries, front: seq<Candidate>, c: Candidate, transport: string, now: int, l: Leased)
    requires LeaseAll(deliveries, front, transport, now) == Ok(l) &&
              LeaseAll(deliveries, front + [c], transport, now).Ok?
    ensures LeaseAll(deliveries, front + [c], transport, now).value ==
              Leased(LeaseOne(l.deliveries, c.hash, transport, now),
                     l.items + [OutboxItem(c.hash, AttemptsAt(l.deliveries, (c.hash, transport)) + 1, c.size,
                         c.priority)])
  {
  }

  lemma LeaseItemKeeps(l: Leased, leases: seq<Lease>, acks: seq<Settlement>, c: Candidate, transport: string, now: int)
    requires OutboxInv(l.deliveries, leases + LeasesOf(l.items, transport, now), acks) &&
              Unleased(l.deliveries, c.hash, transport, now)
    ensures var item := OutboxItem(c.hash, AttemptsAt(l.deliveries, (c.hash, transport)) + 1, c.size, c.priority);
            OutboxInv(LeaseOne(l.deliveries, c.hash, transport, now),
                leases + LeasesOf(l.items + [item], transport, now), acks)
  {
    var item := OutboxItem(c.hash, AttemptsAt(l.deliveries, (c.hash, transport)) + 1, c.size, c.priority);
    LeaseOneKeeps(l.deliveries, leases + LeasesOf(l.items, transport, now), acks, c.hash, transport, now);
    LeasesSnoc(leases, l.items, item, transport, now);
  }

  lemma {:induction false} LeaseAllKeeps(deliveries: Deliveries, leases: seq<Lease>, acks: seq<Settlement>,
          rows: seq<Candidate>, transport: string, now: int)
    requires OutboxInv(deliveries, leases, acks) && DistinctRows(rows) && AllUnleased(deliveries, rows, transport, now)
    requires LeaseAll(deliveries, rows, transport, now).Ok?
    ensures var l := LeaseAll(deliveries, rows, transport, now).value;
            OutboxInv(l.deliveries, leases + LeasesOf(l.items, transport, now), acks)
  {
    if rows == [] {
      assert leases + LeasesOf([], transport, now) == leases;
    } else {
      var front, c := rows[..|rows| - 1], rows[|rows| - 1];
      assert rows == front + [c];
      SubsequenceKeeps(deliveries, rows, 0, |rows| - 1, transport, now);
      assert front == rows[0..|rows| - 1];
      LeaseAllKeeps(deliveries, leases, acks, front, transport, now);
      assert c in rows;
      StillUnleased(deliveries, front, c, transport, now);
      LeaseLast(deliveries, leases, acks, front, c, transport, now);
    }
  }

  lemma {:induction false} ReadyRows(docs: Documents, rows: seq<OutboxRow>, deliveries: Deliveries, transport: string,
          now: int)
    requires forall i, j :: 0 <= i < j < |rows| ==> rows[i].hash != rows[j].hash
    ensures var ready := Ready(docs, rows, deliveries, transport, now);
            && DistinctRows(ready) && AllUnleased(deliveries, ready, transport, now)
            && forall c :: c in ready ==> exists r :: r in rows && r.hash == c.hash
  {
    if rows != [] {
      var front := rows[..|rows| - 1];
      ReadyRows(docs, front, deliveries, transport, now);
      assert forall r :: r in front ==> r in rows && r.hash != rows[|rows| - 1].hash;
      assert rows[|rows| - 1] in rows;
    }
  }

  lemma {:induction false} InsertKeepsRows(sorted: seq<Candidate>, c: Candidate)
    ensures forall x :: x in InsertByPriority(sorted, c) <==> x in sorted || x == c
    ensures DistinctRows(sorted) && (forall x :: x in sorted ==> x.hash != c.hash) ==>
              DistinctRows(InsertByPriority(sorted, c))
  {
    if sorted == [] || sorted[|sorted| - 1].priority <= c.priority {
    } else {
      var front, last := sorted[..|sorted| - 1], sorted[|sorted| - 1];
      assert sorted == front + [last];
      InsertKeepsRows(front, c);
      var inserted := InsertByPriority(front, c);
      if DistinctRows(sorted) && forall x :: x in sorted ==> x.hash != c.hash {
        assert forall x :: x in front ==> x in sorted && x.hash != last.hash;
        assert last in sorted;
        assert forall i :: 0 <= i < |inserted| ==> inserted[i] in inserted;
      }
    }
  }

  lemma {:induction false} SortKeepsRows(rows: seq<Candidate>)
    ensures forall x :: x in ByPriority(rows) <==> x in rows
    ensures DistinctRows(rows) ==> DistinctRows(ByPriority(rows))
  {
    if rows != [] {
      var front, last := rows[..|rows| - 1], rows[|rows| - 1];
      assert rows == front + [last];
      SortKeepsRows(front);
      InsertKeepsRows(ByPriority(front), last);
    }
  }

  lemma SelectedIsSubsequence(rows: seq<Candidate>, budget: nat) returns (n: nat, m: nat)
    ensures n <= m <= |rows| && Selected(rows, budget) == rows[n..m]
  {
    var k := Dropped(rows, budget);
    SelectionExact(rows, budget);
    n, m := k, k + |Selected(rows, budget)|;
    assert Selected(rows, budget) == rows[k..][..|Selected(rows, budget)|];
  }

  /** A claim leases distinct rows, none of which held a live lease. */
  lemma ClaimedRows(docs: Documents, deliveries: Deliveries, transport: string, now: int, limit: nat, maxBytes: nat)
    requires forall i, j :: 0 <= i < j < |docs.outbox| ==> docs.outbox[i].hash != docs.outbox[j].hash
    ensures var rows := Selected(Candidates(docs, deliveries, transport, now, limit), maxBytes);
            DistinctRows(rows) && AllUnleased(deliveries, rows, transport, now)
  {
    var ready := Ready(docs, docs.outbox, deliveries, transport, now);
    ReadyRows(docs, docs.outbox, deliveries, transport, now);
    SortKeepsRows(ready);
    SubsequenceKeeps(deliveries, ByPriority(ready), 0, |Limited(ByPriority(ready), limit)|, transport, now);
    var candidates := Candidates(docs, deliveries, transport, now, limit);
    var n, m := SelectedIsSubsequence(candidates, maxBytes);
    assert candidates == ByPriority(ready)[0..|candidates|];
    SubsequenceKeeps(deliveries, candidates, n, m, transport, now);
  }

  lemma SubsequenceKeeps(deliveries: Deliveries, rows: seq<Candidate>, n: nat, m: nat, transport: string, now: int)
    requires n <= m <= |rows| && DistinctRows(rows) && AllUnleased(deliveries, rows, transport, now)
    ensures DistinctRows(rows[n..m]) && AllUnleased(deliveries, rows[n..m], transport, now)
  {
  }

  lemma ClaimKeeps(docs: Documents, deliveries: Deliveries, leases: seq<Lease>, acks: seq<Settlement>,
          transport: string, now: int, limit: nat, maxBytes: nat)
    requires forall i, j :: 0 <= i < j < |docs.outbox| ==> docs.outbox[i].hash != docs.outbox[j].hash
    requires OutboxInv(deliveries, leases, acks) && ClaimOutbox(docs, deliveries, transport, now, limit, maxBytes).Ok?
    ensures var l := ClaimOutbox(docs, deliveries, transport, now, limit, maxBytes).value;
            OutboxInv(l.deliveries, leases + LeasesOf(l.items, transport, now), acks)
  {
    ClaimedRows(docs, deliveries, transport, now, limit, maxBytes);
    LeaseAllKeeps(deliveries, leases, acks, Selected(Candidates(docs, deliveries, transport, now, limit), maxBytes),
        transport, now);
  }

  // --------------------------------------------- leases only of committed rows

  lemma {:induction false} OperationFound(operations: seq<Operation>, hash: Hash)
    ensures OperationOf(operations, hash).Some? ==> HashTaken(operations, hash)
  {
    if operations != [] && operations[0].hash != hash {
      OperationFound(operations[1..], hash);
    }
  }

  lemma {:induction false} ReadyIsKnown(docs: Documents, rows: seq<OutboxRow>, deliveries: Deliveries,
          transport: string, now: int)
    ensures forall c :: c in Ready(docs, rows, deliveries, transport, now) ==> HashTaken(docs.operations, c.hash)
  {
    if rows != [] {
      ReadyIsKnown(docs, rows[..|rows| - 1], deliveries, transport, now);
      OperationFound(docs.operations, rows[|rows| - 1].hash);
    }
  }

  lemma {:induction false} LeaseAllKeys(deliveries: Deliveries, rows: seq<Candidate>, transport: string, now: int)
    requires LeaseAll(deliveries, rows, transport, now).Ok?
    ensures forall at :: at in LeaseAll(deliveries, rows, transport, now).value.deliveries ==>
              at in deliveries || exists c :: c in rows && c.hash == at.0
  {
    if rows != [] {
      var front := rows[..|rows| - 1];
      assert rows == front + [rows[|rows| - 1]];
      assert forall c :: c in front ==> c in rows;
      assert rows[|rows| - 1] in rows;
      LeaseAllKeys(deliveries, front, transport, now);
    }
  }

  lemma ClaimKnows(docs: Documents, deliveries: Deliveries, transport: string, now: int, limit: nat, maxBytes: nat)
    requires forall at :: at in deliveries ==> HashTaken(docs.operations, at.0)
    requires ClaimOutbox(docs, deliveries, transport, now, limit, maxBytes).Ok?
    ensures forall at :: at in ClaimOutbox(docs, deliveries, transport, now, limit, maxBytes).value.deliveries ==>
              HashTaken(docs.operations, at.0)
  {
    var ready := Ready(docs, docs.outbox, deliveries, transport, now);
    ReadyIsKnown(docs, docs.outbox, deliveries, transport, now);
    SortKeepsRows(ready);
    var candidates := Candidates(docs, deliveries, transport, now, limit);
    assert forall c :: c in candidates ==> c in ByPriority(ready);
    var n, m := SelectedIsSubsequence(candidates, maxBytes);
    assert forall c :: c in candidates[n..m] ==> c in candidates;
    LeaseAllKeys(deliveries, Selected(candidates, maxBytes), transport, now);
  }
}
