/** The toolkit handlers of several cores, call by call. A core lets one handler at a time
    past its toolkit lock; the cores know nothing of each other's locks. */
module ToolkitProtocol {
  import opened Wrappers
  import opened ToolkitValues
  import opened ToolkitLedger
  import opened ToolkitSafety
  import Json = JsonSchema

  /** Where a handler stands: before the lock, reading the four tables in turn, or about
      to commit what it staged on the catalogue it has read. */
  datatype Stage =
    | Waiting(request: Request)
    | Reading(request: Request, seen: Catalog, read: nat)
    | Writing(request: Request, seen: Catalog, projection: Projection)

  datatype Task = Task(core: nat, stage: Stage)

  /** `locks` gives the handler that holds a core's toolkit lock; `written` lists the
      requests whose commits went through. */
  datatype System = System(tables: Catalog, locks: map<nat, nat>, tasks: map<nat, Task>, written: seq<Request>)

  const IDLE := System(NOTHING, map[], map[], [])

  datatype Label =
    | Arrive(id: nat, core: nat, request: Request)
    | Lock(id: nat)
    | Read(id: nat)
    | Commit(id: nat)
    | Die(id: nat)

  // -------------------------------------------------------------- transitions

  /** A handler ends, and whatever lock it held is free again. */
  function Leave(s: System, id: nat): System {
    s.(tasks := s.tasks - {id}, locks := map core | core in s.locks && s.locks[core] != id :: s.locks[core])
  }

  function Goto(s: System, id: nat, stage: Stage): System
    requires id in s.tasks
  {
    s.(tasks := s.tasks[id := s.tasks[id].(stage := stage)])
  }

  /** The catalogue with its next table read. */
  function Extended(seen: Catalog, tables: Catalog, read: nat): Catalog {
    match read
    case 0 => seen.(concepts := tables.concepts)
    case 1 => seen.(tools := tables.tools)
    case 2 => seen.(assertions := tables.assertions)
    case _ => seen.(reviews := tables.reviews)
  }

  ghost function ReadNext(s: System, id: nat): System
    requires id in s.tasks && s.tasks[id].stage.Reading?
  {
    var stage := s.tasks[id].stage;
    var seen := Extended(stage.seen, s.tables, stage.read);
    if stage.read < 3 then Goto(s, id, Reading(stage.request, seen, stage.read + 1))
    else
      match Staged(seen, stage.request)
      case None => Leave(s, id)
      case Some(p) => Goto(s, id, Writing(stage.request, seen, p))
  }

  function CommitNow(s: System, id: nat): System
    requires id in s.tasks && s.tasks[id].stage.Writing?
  {
    var stage := s.tasks[id].stage;
    match Stored(s.tables, stage.projection)
    case None => Leave(s, id)
    case Some(tables) => Leave(s, id).(tables := tables, written := s.written + [stage.request])
  }

  predicate Stands(s: System, id: nat, waiting: bool) { id in s.tasks && s.tasks[id].stage.Waiting? == waiting }

  /** A label that does not apply changes nothing. A handler may die at any point. */
  ghost function Next(s: System, l: Label): System {
    match l
    case Arrive(id, core, request) =>
      if id in s.tasks then s else s.(tasks := s.tasks[id := Task(core, Waiting(request))])
    case Lock(id) =>
      if !Stands(s, id, true) || s.tasks[id].core in s.locks then s
      else Goto(s.(locks := s.locks[s.tasks[id].core := id]), id, Reading(s.tasks[id].stage.request, NOTHING, 0))
    case Read(id) => if id in s.tasks && s.tasks[id].stage.Reading? then ReadNext(s, id) else s
    case Commit(id) => if id in s.tasks && s.tasks[id].stage.Writing? then CommitNow(s, id) else s
    case Die(id) => Leave(s, id)
  }

  ghost function Execute(labels: seq<Label>): System {
    if labels == [] then IDLE else Next(Execute(labels[..|labels| - 1]), labels[|labels| - 1])
  }

  // ------------------------------------------------- what holds for any cores

  /** A table that was read is a part of what the table is now. */
  ghost predicate StageOk(tables: Catalog, stage: Stage) {
    match stage
    case Waiting(_) => true
    case Reading(_, seen, _) => Keeps(seen, tables)
    case Writing(request, seen, p) => Keeps(seen, tables) && Staged(seen, request) == Some(p)
  }

  ghost predicate SystemOk(s: System) {
    Sound(s.tables) && forall id :: id in s.tasks ==> StageOk(s.tables, s.tasks[id].stage)
  }

  lemma ReadKeeps(seen: Catalog, tables: Catalog, read: nat)
    requires Keeps(seen, tables)
    ensures Keeps(Extended(seen, tables, read), tables)
  {
    match read {
      case 0 => assert Extended(seen, tables, read).assertions == seen.assertions;
      case 1 => assert Extended(seen, tables, read).assertions == seen.assertions;
      case 2 => assert Extended(seen, tables, read).assertions == tables.assertions;
      case _ => assert Extended(seen, tables, read).assertions == seen.assertions;
    }
  }

  lemma StagesStay(s: System, tables: Catalog)
    requires SystemOk(s) && Keeps(s.tables, tables)
    ensures forall id :: id in s.tasks ==> StageOk(tables, s.tasks[id].stage)
  {
    forall id | id in s.tasks ensures StageOk(tables, s.tasks[id].stage) {
      assert StageOk(s.tables, s.tasks[id].stage);
      var stage := s.tasks[id].stage;
      if !stage.Waiting? { KeepsOn(stage.seen, s.tables, tables); }
    }
  }

  lemma NothingKept(tables: Catalog)
    ensures Keeps(NOTHING, tables)
  {
  }

  lemma ReadKeepsOk(s: System, id: nat)
    requires SystemOk(s) && id in s.tasks && s.tasks[id].stage.Reading?
    ensures SystemOk(ReadNext(s, id))
  {
    assert StageOk(s.tables, s.tasks[id].stage);
    ReadKeeps(s.tasks[id].stage.seen, s.tables, s.tasks[id].stage.read);
  }

  lemma CommitKeepsOk(s: System, id: nat)
    requires SystemOk(s) && id in s.tasks && s.tasks[id].stage.Writing?
    ensures SystemOk(CommitNow(s, id))
  {
    var stage := s.tasks[id].stage;
    assert StageOk(s.tables, stage);
    var stored := Stored(s.tables, stage.projection);
    if stored.Some? {
      StoreKeepsSound(stage.seen, s.tables, stage.request, stage.projection);
      StoreKeeps(s.tables, stage.projection);
      StagesStay(s, stored.value);
    }
  }

  lemma NextKeepsOk(s: System, l: Label)
    requires SystemOk(s)
    ensures SystemOk(Next(s, l))
  {
    match l {
      case Arrive(id, core, request) =>
      case Lock(id) => NothingKept(s.tables);
      case Read(id) => if id in s.tasks && s.tasks[id].stage.Reading? { ReadKeepsOk(s, id); }
      case Commit(id) => if id in s.tasks && s.tasks[id].stage.Writing? { CommitKeepsOk(s, id); }
      case Die(id) =>
    }
  }

  /** However many cores write, and whatever their handlers had read: values fit their
      concepts, states follow from reviews, every concept has one active revision and
      every reference resolves. */
  lemma {:induction false} AlwaysSound(labels: seq<Label>)
    ensures SystemOk(Execute(labels))
  {
    if labels == [] {
      RunInv([]);
    } else {
      AlwaysSound(labels[..|labels| - 1]);
      NextKeepsOk(Execute(labels[..|labels| - 1]), labels[|labels| - 1]);
    }
  }

  // ----------------------------------------------------------------- one core

  ghost predicate OneCore(labels: seq<Label>, core: nat) {
    forall l :: l in labels && l.Arrive? ==> l.core == core
  }

  /** The tables read so far are the tables. */
  predicate UpToDate(seen: Catalog, tables: Catalog, read: nat) {
    && (read >= 1 ==> seen.concepts == tables.concepts) && (read >= 2 ==> seen.tools == tables.tools)
    && (read >= 3 ==> seen.assertions == tables.assertions) && (read >= 4 ==> seen.reviews == tables.reviews)
  }

  ghost predicate HolderOk(tables: Catalog, stage: Stage) {
    match stage
    case Waiting(_) => true
    case Reading(_, seen, read) => read <= 3 && UpToDate(seen, tables, read)
    case Writing(request, seen, p) => seen == tables && Staged(tables, request) == Some(p)
  }

  /** All handlers run in one core, only the holder of its lock is past it, and what the
      holder has read is current. */
  ghost predicate Exclusive(s: System, core: nat) {
    && (forall id :: id in s.tasks ==> s.tasks[id].core == core)
    && (forall id :: id in s.tasks && !s.tasks[id].stage.Waiting? ==> core in s.locks && s.locks[core] == id)
    && (forall id :: id in s.tasks ==> HolderOk(s.tables, s.tasks[id].stage))
  }

  ghost predicate Serial(s: System, core: nat) {
    Exclusive(s, core) && s.tables == Run(s.written)
  }

  lemma LeaveKeepsExclusive(s: System, id: nat, core: nat)
    requires Exclusive(s, core)
    ensures Exclusive(Leave(s, id), core)
  {
  }

  lemma WrittenOnce(written: seq<Request>, request: Request)
    requires Staged(Run(written), request).Some?
    ensures Stored(Run(written), Staged(Run(written), request).value) == Some(Run(written + [request]))
  {
    StagedStores(Run(written), request);
    assert (written + [request])[..|written|] == written;
  }

  /** After the holder's commit nobody is left past the lock. */
  lemma HolderCommits(s: System, id: nat, core: nat)
    requires Serial(s, core) && id in s.tasks && s.tasks[id].stage.Writing?
    ensures Serial(CommitNow(s, id), core)
  {
    var stage := s.tasks[id].stage;
    assert HolderOk(s.tables, stage);
    WrittenOnce(s.written, stage.request);
    var s' := CommitNow(s, id);
    forall other | other in s'.tasks ensures HolderOk(s'.tables, s'.tasks[other].stage) {
      assert s.tasks[other].stage.Waiting?;
    }
  }

  lemma HolderReads(s: System, id: nat, core: nat)
    requires Serial(s, core) && id in s.tasks && s.tasks[id].stage.Reading?
    ensures Serial(ReadNext(s, id), core)
  {
    var stage := s.tasks[id].stage;
    assert HolderOk(s.tables, stage);
    var seen := Extended(stage.seen, s.tables, stage.read);
    assert UpToDate(seen, s.tables, stage.read + 1);
    if stage.read == 3 {
      assert seen == s.tables;
      LeaveKeepsExclusive(s, id, core);
    }
  }

  lemma NextKeepsSerial(s: System, l: Label, core: nat)
    requires Serial(s, core) && (l.Arrive? ==> l.core == core)
    ensures Serial(Next(s, l), core)
  {
    match l {
      case Arrive(id, at, request) =>
      case Lock(id) =>
      case Read(id) => if id in s.tasks && s.tasks[id].stage.Reading? { HolderReads(s, id, core); }
      case Commit(id) => if id in s.tasks && s.tasks[id].stage.Writing? { HolderCommits(s, id, core); }
      case Die(id) => LeaveKeepsExclusive(s, id, core);
    }
  }

  lemma {:induction false} OneCoreIsSerial(labels: seq<Label>, core: nat)
    requires OneCore(labels, core)
    ensures Serial(Execute(labels), core)
  {
    if labels != [] {
      OneCoreIsSerial(labels[..|labels| - 1], core);
      NextKeepsSerial(Execute(labels[..|labels| - 1]), labels[|labels| - 1], core);
    }
  }

  /** In one core the lock makes each handler a single step: the tables are those of the
      committed requests one after the other, and so keep the cardinality promise. */
  lemma LockSerializes(labels: seq<Label>, core: nat)
    requires OneCore(labels, core)
    ensures Execute(labels).tables == Run(Execute(labels).written)
    ensures Inv(Execute(labels).tables)
  {
    OneCoreIsSerial(labels, core);
    RunInv(Execute(labels).written);
  }

  // -------------------------------------------------------------- many cores

  ghost function After(s: System, labels: seq<Label>): System {
    if labels == [] then s else Next(After(s, labels[..|labels| - 1]), labels[|labels| - 1])
  }

  lemma AfterMore(s: System, labels: seq<Label>, l: Label)
    ensures After(s, labels + [l]) == Next(After(s, labels), l)
  {
    assert (labels + [l])[..|labels + [l]| - 1] == labels;
  }

  lemma {:induction false} AfterSplit(s: System, a: seq<Label>, b: seq<Label>)
    ensures After(s, a + b) == After(After(s, a), b)
  {
    if b == [] {
      assert a + b == a;
    } else {
      AfterSplit(s, a, b[..|b| - 1]);
      assert (a + b)[..|a + b| - 1] == a + b[..|b| - 1];
    }
  }

  lemma {:induction false} ExecuteIsAfter(labels: seq<Label>)
    ensures Execute(labels) == After(IDLE, labels)
  {
    if labels != [] {
      ExecuteIsAfter(labels[..|labels| - 1]);
    }
  }

  lemma ExecuteAfter(labels: seq<Label>, more: seq<Label>)
    ensures Execute(labels + more) == After(Execute(labels), more)
  {
    ExecuteIsAfter(labels);
    ExecuteIsAfter(labels + more);
    AfterSplit(IDLE, labels, more);
  }

  /** The handler is past its core's lock and about to commit what it staged on the
      tables as they are. */
  function Ready(s: System, id: nat, core: nat, request: Request, p: Projection): System {
    s.(locks := s.locks[core := id], tasks := s.tasks[id := Task(core, Writing(request, s.tables, p))])
  }

  lemma ReadsOn(s: System, id: nat, core: nat, request: Request, read: nat, seen: Catalog)
    requires id in s.tasks && s.tasks[id] == Task(core, Reading(request, seen, read)) && read < 3
    ensures Next(s, Read(id)) ==
              s.(tasks := s.tasks[id := Task(core, Reading(request, Extended(seen, s.tables, read), read + 1))])
  {
  }

  /** Three of the four reads. */
  lemma ReadsThree(s: System, id: nat, core: nat, request: Request)
    requires id in s.tasks && s.tasks[id] == Task(core, Reading(request, NOTHING, 0))
    ensures After(s, [Read(id), Read(id), Read(id)]) ==
              s.(tasks := s.tasks[id := Task(core, Reading(request, s.tables.(reviews := map[]), 3))])
  {
    var l := Read(id);
    var seen1 := NOTHING.(concepts := s.tables.concepts);
    var seen2 := seen1.(tools := s.tables.tools);
    var s1 := s.(tasks := s.tasks[id := Task(core, Reading(request, seen1, 1))]);
    var s2 := s.(tasks := s.tasks[id := Task(core, Reading(request, seen2, 2))]);
    var s3 := s.(tasks := s.tasks[id := Task(core, Reading(request, s.tables.(reviews := map[]), 3))]);
    ReadsOn(s, id, core, request, 0, NOTHING);
    ReadsOn(s1, id, core, request, 1, seen1);
    ReadsOn(s2, id, core, request, 2, seen2);
    assert s1.tasks[id := s2.tasks[id]] == s2.tasks && s2.tasks[id := s3.tasks[id]] == s3.tasks;
    AfterMore(s, [], l);
    AfterMore(s, [l], l);
    AfterMore(s, [l, l], l);
    assert [] + [l] == [l] && [l] + [l] == [l, l] && [l, l] + [l] == [l, l, l];
  }

  lemma ReadsLast(s: System, id: nat, core: nat, request: Request, seen: Catalog, p: Projection)
    requires id in s.tasks && s.tasks[id] == Task(core, Reading(request, seen, 3))
    requires seen.(reviews := s.tables.reviews) == s.tables && Staged(s.tables, request) == Some(p)
    ensures Next(s, Read(id)) == s.(tasks := s.tasks[id := Task(core, Writing(request, s.tables, p))])
  {
  }

  /** The handler has its core's lock and has read nothing yet. */
  function Locked(s: System, id: nat, core: nat, request: Request): System {
    s.(locks := s.locks[core := id], tasks := s.tasks[id := Task(core, Reading(request, NOTHING, 0))])
  }

  lemma TakesLock(s: System, id: nat, core: nat, request: Request)
    requires id !in s.tasks && core !in s.locks
    ensures After(s, [Arrive(id, core, request), Lock(id)]) == Locked(s, id, core, request)
  {
    var first, second := Arrive(id, core, request), Lock(id);
    var s1 := s.(tasks := s.tasks[id := Task(core, Waiting(request))]);
    assert s1.tasks[id := Task(core, Reading(request, NOTHING, 0))] == Locked(s, id, core, request).tasks;
    AfterMore(s, [], first);
    AfterMore(s, [first], second);
    assert [] + [first] == [first] && [first] + [second] == [first, second];
  }

  lemma ReadsAll(s: System, id: nat, core: nat, request: Request, p: Projection)
    requires id in s.tasks && s.tasks[id] == Task(core, Reading(request, NOTHING, 0))
    requires Staged(s.tables, request) == Some(p)
    ensures After(s, [Read(id), Read(id), Read(id)] + [Read(id)]) ==
              s.(tasks := s.tasks[id := Task(core, Writing(request, s.tables, p))])
  {
    var pages := [Read(id), Read(id), Read(id)];
    var s3 := s.(tasks := s.tasks[id := Task(core, Reading(request, s.tables.(reviews := map[]), 3))]);
    ReadsThree(s, id, core, request);
    ReadsLast(s3, id, core, request, s.tables.(reviews := map[]), p);
    AfterMore(s, pages, Read(id));
    var last := Task(core, Writing(request, s.tables, p));
    assert s3.tasks[id := last] == s.tasks[id := last];
  }

  /** A handler that meets a free lock and an acceptable catalogue gets ready to commit. */
  lemma GetsReady(s: System, id: nat, core: nat, request: Request, p: Projection) returns (more: seq<Label>)
    requires id !in s.tasks && core !in s.locks && Staged(s.tables, request) == Some(p)
    ensures After(s, more) == Ready(s, id, core, request, p)
  {
    var start, pages := [Arrive(id, core, request), Lock(id)], [Read(id), Read(id), Read(id)] + [Read(id)];
    TakesLock(s, id, core, request);
    ReadsAll(Locked(s, id, core, request), id, core, request, p);
    AfterSplit(s, start, pages);
    var last := Task(core, Writing(request, s.tables, p));
    assert Locked(s, id, core, request).tasks[id := last] == s.tasks[id := last];
    more := start + pages;
  }

  /** What a handler that is ready leaves behind. */
  lemma Commits(s: System, id: nat, tables: Catalog)
    requires id in s.tasks && s.tasks[id].stage.Writing?
    requires Stored(s.tables, s.tasks[id].stage.projection) == Some(tables)
    ensures Next(s, Commit(id)) ==
              Leave(s, id).(tables := tables, written := s.written + [s.tasks[id].stage.request])
  {
  }

  ghost predicate Quiet(s: System) { s.tasks == map[] && s.locks == map[] }

  /** Every sequence of writes happens: one core can take its requests one by one. */
  lemma {:induction false} EveryRunHappens(requests: seq<Request>) returns (labels: seq<Label>)
    ensures Quiet(Execute(labels)) && Execute(labels).tables == Run(requests)
  {
    labels := [];
    if requests != [] {
      var front, request := requests[..|requests| - 1], requests[|requests| - 1];
      labels := EveryRunHappens(front);
      if Staged(Run(front), request).Some? {
        StagedStores(Run(front), request);
        var more := OneWrite(Execute(labels), request);
        ExecuteAfter(labels, more);
        labels := labels + more;
      }
    }
  }

  lemma OneWrite(s: System, request: Request) returns (more: seq<Label>)
    requires Quiet(s) && Staged(s.tables, request).Some? && Stored(s.tables, Staged(s.tables, request).value).Some?
    ensures Quiet(After(s, more)) && After(s, more).tables == Write(s.tables, request)
  {
    var p := Staged(s.tables, request).value;
    more := GetsReady(s, 0, 0, request, p);
    var ready := Ready(s, 0, 0, request, p);
    Commits(ready, 0, Stored(s.tables, p).value);
    AfterMore(s, more, Commit(0));
    more := more + [Commit(0)];
  }

  /** Two cores whose handlers overlap both commit what they staged on the same tables. */
  lemma TwoCoresOverlap(s: System, left: Request, right: Request) returns (more: seq<Label>)
    requires Quiet(s) && Staged(s.tables, left).Some? && Staged(s.tables, right).Some?
    requires
      var p, q := Staged(s.tables, left).value, Staged(s.tables, right).value;
      Stored(s.tables, p).Some? && Stored(Stored(s.tables, p).value, q).Some?
    ensures var p, q := Staged(s.tables, left).value, Staged(s.tables, right).value;
            After(s, more).tables == Stored(Stored(s.tables, p).value, q).value
  {
    var p, q := Staged(s.tables, left).value, Staged(s.tables, right).value;
    var a := GetsReady(s, 0, 0, left, p);
    var s1 := Ready(s, 0, 0, left, p);
    var b := GetsReady(s1, 1, 1, right, q);
    var s2 := Ready(s1, 1, 1, right, q);
    AfterSplit(s, a, b);
    Commits(s2, 0, Stored(s.tables, p).value);
    var s3 := Next(s2, Commit(0));
    assert s3.tasks[1] == s2.tasks[1];
    Commits(s3, 1, Stored(s3.tables, q).value);
    AfterMore(s, a + b, Commit(0));
    AfterMore(s, a + b + [Commit(0)], Commit(1));
    more := a + b + [Commit(0)] + [Commit(1)];
  }

  // ---------------------------------------------------------------- a witness

  const SWITCH := Definition(Attribute, Boolean, One, [], None, None, None, "")
  const SWITCH_KEY: ConceptKey := ("attr.switch", "r")
  const SETUP := [AddConcept(SWITCH_KEY, SWITCH), AddTool("lamp", true)]

  function Claim(id: string, on: bool): Request {
    Assert(id, "lamp", "attr.switch", Some("r"), Some(Json.Bool(on)), Verified)
  }

  lemma SwitchShape()
    ensures WellShaped("attr.switch", SWITCH) && ValidKey("lamp") && ValidKey("a") && ValidKey("b")
  {
    assert "attr.switch"[4] == '.';
  }

  /** One concept, one tool, no assertion. */
  lemma SetUp()
    ensures Run(SETUP) ==
              Catalog(map[SWITCH_KEY := Concept(SWITCH, true)], map["lamp" := true], map[], map[])
  {
    SwitchShape();
    assert SETUP[..1] == [SETUP[0]] && [SETUP[0]][..0] == [];
    assert Run([]) == NOTHING;
    var c1 := Catalog(map[SWITCH_KEY := Concept(SWITCH, true)], map[], map[], map[]);
    assert Staged(NOTHING, SETUP[0]) == Some(ConceptRow(SWITCH_KEY, SWITCH));
    assert Deactivated(map[], "attr.switch") == map[];
    assert Run([SETUP[0]]) == c1;
    assert Staged(c1, SETUP[1]) == Some(ToolRow("lamp", true));
  }

  lemma ClaimStaged(c: Catalog, id: string, on: bool)
    requires c == Run(SETUP) && (id == "a" || id == "b")
    ensures AssertAllowed(c, id, "lamp", SWITCH_KEY, Some(Json.Bool(on)), Verified)
    ensures Staged(c, Claim(id, on)) ==
              Some(AssertionRow(id, Assertion("lamp", SWITCH_KEY, Some(Json.Bool(on)), Verified, Verified, None)))
  {
    SetUp();
    SwitchShape();
    assert Named(c, SWITCH_KEY, "attr.switch", Some("r"));
    assert Resolve(c, "attr.switch", Some("r")) == Some(SWITCH_KEY);
  }

  /** Two cores break the promise: a run in which both commit a verified value of one tool
      under one single-valued concept, and the values differ. */
  lemma TwoCoresDisagree() returns (labels: seq<Label>)
    ensures !OneValue(Execute(labels).tables) && SystemOk(Execute(labels))
  {
    labels := EveryRunHappens(SETUP);
    var c, s := Run(SETUP), Execute(labels);
    SetUp();
    ClaimStaged(c, "a", true);
    ClaimStaged(c, "b", false);
    assert "a"[0] != "b"[0];
    RunInv(SETUP);
    UnlockedWritesDisagree(c, "a", "b", "lamp", SWITCH_KEY, Some(Json.Bool(true)), Some(Json.Bool(false)));
    var more := TwoCoresOverlap(s, Claim("a", true), Claim("b", false));
    ExecuteAfter(labels, more);
    AlwaysSound(labels + more);
    labels := labels + more;
  }
}
