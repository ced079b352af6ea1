/** What the planning handlers check on the catalogue they read, and why that keeps a
    community's plan consistent when the catalogue is the whole plan. */
module PlanningCatalog {
  import opened Wrappers
  import opened Domain
  import opened Database
  import Graph
  import Search = DependencySearch

  /** A catalogue as the five reads return it, in rows of id and value. */
  datatype Catalog = Catalog(
    version: nat, projects: seq<(string, string)>, tasks: seq<(string, TaskRow)>, events: seq<(string, TaskRow)>,
    dependencies: seq<(string, Search.Dependency)>)

  function EdgesOf(dependencies: map<string, Search.Dependency>): set<Graph.Edge> {
    set id | id in dependencies :: (dependencies[id].predecessor, dependencies[id].successor)
  }

  predicate ProjectExists(project: Option<string>, projects: set<string>) {
    project.Some? ==> project.value in projects
  }

  predicate Bounded(p: Plan) {
    && |p.projects| <= MAX_PROFILE_RECORDS && |p.tasks| <= MAX_PROFILE_RECORDS
    && |p.events| <= MAX_PROFILE_RECORDS && |p.dependencies| <= MAX_PROFILE_RECORDS
  }

  predicate ProjectsResolve(rows: map<string, TaskRow>, projects: set<string>) {
    forall id :: id in rows ==> ProjectExists(rows[id].project, projects)
  }

  predicate TasksResolve(dependencies: map<string, Search.Dependency>, tasks: set<string>) {
    forall id :: id in dependencies ==> dependencies[id].predecessor in tasks && dependencies[id].successor in tasks
  }

  /** Bounded, every reference resolves, and the dependency graph has no cycle. */
  ghost predicate PlanOk(p: Plan) {
    && Bounded(p)
    && ProjectsResolve(p.tasks, p.projects.Keys)
    && ProjectsResolve(p.events, p.projects.Keys)
    && TasksResolve(p.dependencies, p.tasks.Keys)
    && Graph.Acyclic(EdgesOf(p.dependencies))
  }

  // ---------------------------------------------------------------- reading

  /** `SELECT … LIMIT limit` over the rows of one table: distinct rows of the table, and
      all of them when the limit allows. */
  ghost predicate IsPage<T>(table: map<string, T>, limit: nat, rows: seq<(string, T)>) {
    && (forall i, j :: 0 <= i < j < |rows| ==> rows[i].0 != rows[j].0)
    && (forall r :: r in rows ==> r.0 in table && table[r.0] == r.1)
    && |rows| == if |table| <= limit then |table| else limit
  }

  function Ids<T(==)>(rows: seq<(string, T)>): set<string> {
    set r | r in rows :: r.0
  }

  lemma {:induction false} IdsSize<T>(rows: seq<(string, T)>)
    requires forall i, j :: 0 <= i < j < |rows| ==> rows[i].0 != rows[j].0
    ensures |Ids(rows)| == |rows|
  {
    if rows != [] {
      var front := rows[..|rows| - 1];
      IdsSize(front);
      assert Ids(rows) == Ids(front) + {rows[|rows| - 1].0};
    }
  }

  lemma {:induction false} SubsetOfSameSize(small: set<string>, large: set<string>)
    requires small <= large && |small| == |large|
    ensures small == large
  {
    if x :| x in large && x !in small {
      Search.SubsetSize(small, large - {x});
    }
  }

  /** Every table has a page. */
  lemma {:induction false} PageExists<T>(table: map<string, T>, limit: nat) returns (rows: seq<(string, T)>)
    ensures IsPage(table, limit, rows)
    decreases limit
  {
    rows := [];
    if limit > 0 && table != map[] {
      var id :| id in table;
      var rest := table - {id};
      assert rest.Keys == table.Keys - {id} && |rest| == |table| - 1;
      rows := PageExists(rest, limit - 1);
      rows := rows + [(id, table[id])];
    }
  }

  /** A page no shorter than its table allows lists the whole table. */
  lemma PageIsWhole<T>(table: map<string, T>, limit: nat, rows: seq<(string, T)>)
    requires IsPage(table, limit, rows) && |table| <= limit
    ensures Ids(rows) == table.Keys && |rows| == |table|
    ensures forall id :: id in table ==> (id, table[id]) in rows
  {
    IdsSize(rows);
    SubsetOfSameSize(Ids(rows), table.Keys);
    forall id | id in table ensures (id, table[id]) in rows {
      assert id in Ids(rows);
    }
  }

  // ------------------------------------------------------- the handlers' checks

  /** `validate_catalog_bound` */
  predicate CatalogBounded(c: Catalog) {
    && |c.projects| <= MAX_PROFILE_RECORDS && |c.tasks| <= MAX_PROFILE_RECORDS
    && |c.events| <= MAX_PROFILE_RECORDS && |c.dependencies| <= MAX_PROFILE_RECORDS
  }

  /** There is room for the row, or it replaces one. */
  predicate Room<T(==)>(rows: seq<(string, T)>, id: string) {
    |rows| == MAX_PROFILE_RECORDS ==> id in Ids(rows)
  }

  /** What the four put handlers demand of the catalogue before they stage a record. */
  ghost predicate CatalogAccepts(c: Catalog, row: PlanningRow) {
    && CatalogBounded(c)
    && match row
       case ProjectRow(id, _) => Room(c.projects, id)
       case TaskRowOf(id, task) => ProjectExists(task.project, Ids(c.projects)) && Room(c.tasks, id)
       case EventRowOf(id, event) => ProjectExists(event.project, Ids(c.projects)) && Room(c.events, id)
       case DependencyRow(id, d) =>
         && d.predecessor != d.successor
         && Room(c.dependencies, id)
         && d.predecessor in Ids(c.tasks) && d.successor in Ids(c.tasks)
         && !Search.ClosesCycle(c.dependencies, id, d)
  }

  /** The catalogue is the plan: its version and the whole of every table. */
  ghost predicate Whole(p: Plan, c: Catalog) {
    && c.version == p.version
    && IsPage(p.projects, MAX_PROFILE_ROWS, c.projects) && IsPage(p.tasks, MAX_PROFILE_ROWS, c.tasks)
    && IsPage(p.events, MAX_PROFILE_ROWS, c.events) && IsPage(p.dependencies, MAX_PROFILE_ROWS, c.dependencies)
  }

  /** Every plan can be read as a whole. */
  lemma CatalogExists(p: Plan) returns (c: Catalog)
    ensures Whole(p, c)
  {
    var projects := PageExists(p.projects, MAX_PROFILE_ROWS);
    var tasks := PageExists(p.tasks, MAX_PROFILE_ROWS);
    var events := PageExists(p.events, MAX_PROFILE_ROWS);
    var dependencies := PageExists(p.dependencies, MAX_PROFILE_ROWS);
    c := Catalog(p.version, projects, tasks, events, dependencies);
  }

  lemma UpdatedSize<T>(table: map<string, T>, id: string, value: T)
    ensures |table[id := value]| == if id in table then |table| else |table| + 1
  {
  }

  type Dependencies = map<string, Search.Dependency>

  lemma EdgeAt(table: Dependencies, id: string)
    requires id in table
    ensures (table[id].predecessor, table[id].successor) in EdgesOf(table)
  {
  }

  lemma CatalogEdges(table: Dependencies, rows: seq<(string, Search.Dependency)>, id: string)
    requires IsPage(table, MAX_PROFILE_ROWS, rows) && |table| <= MAX_PROFILE_RECORDS
    ensures Search.EdgesExcept(rows, id) == EdgesOf(table - {id})
  {
    PageIsWhole(table, MAX_PROFILE_ROWS, rows);
    var rest := table - {id};
    forall e | e in EdgesOf(rest) ensures e in Search.EdgesExcept(rows, id) {
      var k :| k in rest && e == (rest[k].predecessor, rest[k].successor);
      assert (k, table[k]) in rows;
    }
    forall e | e in Search.EdgesExcept(rows, id) ensures e in EdgesOf(rest) {
      var r :| r in rows && r.0 != id && e == (r.1.predecessor, r.1.successor);
      assert r.0 in rest && rest[r.0] == r.1;
      EdgeAt(rest, r.0);
    }
  }

  lemma EdgesAfter(table: Dependencies, id: string, d: Search.Dependency)
    ensures EdgesOf(table[id := d]) == EdgesOf(table - {id}) + {(d.predecessor, d.successor)}
  {
    var after, rest := table[id := d], table - {id};
    forall e | e in EdgesOf(rest) + {(d.predecessor, d.successor)} ensures e in EdgesOf(after) {
      if e in EdgesOf(rest) {
        var k :| k in rest && e == (rest[k].predecessor, rest[k].successor);
        assert after[k] == rest[k];
        EdgeAt(after, k);
      } else {
        assert after[id] == d;
        EdgeAt(after, id);
      }
    }
    forall e | e in EdgesOf(after) ensures e in EdgesOf(rest) + {(d.predecessor, d.successor)} {
      var k :| k in after && e == (after[k].predecessor, after[k].successor);
      if k != id {
        assert rest[k] == after[k];
        EdgeAt(rest, k);
      }
    }
  }

  lemma EdgesWithout(table: Dependencies, id: string)
    ensures EdgesOf(table - {id}) <= EdgesOf(table)
  {
  }

  lemma DependencyExact(table: Dependencies, rows: seq<(string, Search.Dependency)>, id: string, d: Search.Dependency)
    requires IsPage(table, MAX_PROFILE_ROWS, rows) && |table| <= MAX_PROFILE_RECORDS && Graph.Acyclic(EdgesOf(table))
    ensures !Search.ClosesCycle(rows, id, d) <==> Graph.Acyclic(EdgesOf(table[id := d]))
  {
    CatalogEdges(table, rows, id);
    EdgesWithout(table, id);
    Graph.SubgraphAcyclic(EdgesOf(table - {id}), EdgesOf(table));
    Search.AcceptsExactlyAcyclic(rows, id, d);
    EdgesAfter(table, id, d);
  }

  lemma SelfDependencyIsCycle(dependencies: map<string, Search.Dependency>, id: string)
    requires id in dependencies && dependencies[id].predecessor == dependencies[id].successor
    ensures !Graph.Acyclic(EdgesOf(dependencies))
  {
    var task := dependencies[id].predecessor;
    assert (task, task) in EdgesOf(dependencies);
    var nodes := [task, task];
    assert Graph.Walk(EdgesOf(dependencies), nodes);
  }

  lemma TaskExact(p: Plan, c: Catalog, id: string, task: TaskRow)
    requires PlanOk(p) && CatalogBounded(c) && Ids(c.projects) == p.projects.Keys
    requires Ids(c.tasks) == p.tasks.Keys && |c.tasks| == |p.tasks|
    ensures CatalogAccepts(c, TaskRowOf(id, task)) <==> PlanOk(Upsert(p, TaskRowOf(id, task)))
  {
    UpdatedSize(p.tasks, id, task);
    ProjectsAfter(p.tasks, p.projects.Keys, id, task);
    assert p.tasks.Keys <= p.tasks[id := task].Keys;
  }

  lemma ProjectsAfter(rows: map<string, TaskRow>, projects: set<string>, id: string, row: TaskRow)
    requires ProjectsResolve(rows, projects)
    ensures ProjectsResolve(rows[id := row], projects) <==> ProjectExists(row.project, projects)
  {
    assert rows[id := row][id] == row;
    assert forall k :: k in rows && k != id ==> rows[id := row][k] == rows[k];
  }

  lemma EventExact(p: Plan, c: Catalog, id: string, event: TaskRow)
    requires PlanOk(p) && CatalogBounded(c) && Ids(c.projects) == p.projects.Keys
    requires Ids(c.events) == p.events.Keys && |c.events| == |p.events|
    ensures CatalogAccepts(c, EventRowOf(id, event)) <==> PlanOk(Upsert(p, EventRowOf(id, event)))
  {
    var p' := Upsert(p, EventRowOf(id, event));
    UpdatedSize(p.events, id, event);
    assert p'.events[id] == event;
    assert forall k :: k in p.events && k != id ==> p'.events[k] == p.events[k];
  }

  lemma ProjectExact(p: Plan, c: Catalog, id: string, info: string)
    requires PlanOk(p) && CatalogBounded(c) && Ids(c.projects) == p.projects.Keys && |c.projects| == |p.projects|
    ensures CatalogAccepts(c, ProjectRow(id, info)) <==> PlanOk(Upsert(p, ProjectRow(id, info)))
  {
  }

  lemma ResolveAfter(table: Dependencies, tasks: set<string>, id: string, d: Search.Dependency)
    requires TasksResolve(table, tasks)
    ensures TasksResolve(table[id := d], tasks) <==> d.predecessor in tasks && d.successor in tasks
  {
    var after := table[id := d];
    assert after[id] == d;
    assert forall k :: k in table && k != id ==> after[k] == table[k];
  }

  lemma DependencyRowExact(p: Plan, c: Catalog, id: string, d: Search.Dependency)
    requires PlanOk(p) && CatalogBounded(c) && Ids(c.tasks) == p.tasks.Keys
    requires Ids(c.dependencies) == p.dependencies.Keys && |c.dependencies| == |p.dependencies|
    requires !Search.ClosesCycle(c.dependencies, id, d) <==> Graph.Acyclic(EdgesOf(p.dependencies[id := d]))
    requires d.predecessor == d.successor ==> !Graph.Acyclic(EdgesOf(p.dependencies[id := d]))
    ensures CatalogAccepts(c, DependencyRow(id, d)) <==> PlanOk(Upsert(p, DependencyRow(id, d)))
  {
    UpdatedSize(p.dependencies, id, d);
    ResolveAfter(p.dependencies, p.tasks.Keys, id, d);
  }

  /** On the whole plan the handlers accept a row exactly when writing it leaves the
      plan consistent. */
  lemma HandlerExact(p: Plan, c: Catalog, row: PlanningRow)
    requires Whole(p, c) && PlanOk(p)
    ensures CatalogAccepts(c, row) <==> PlanOk(Upsert(p, row))
  {
    PageIsWhole(p.projects, MAX_PROFILE_ROWS, c.projects);
    PageIsWhole(p.tasks, MAX_PROFILE_ROWS, c.tasks);
    PageIsWhole(p.events, MAX_PROFILE_ROWS, c.events);
    PageIsWhole(p.dependencies, MAX_PROFILE_ROWS, c.dependencies);
    match row {
      case ProjectRow(id, info) => ProjectExact(p, c, id, info);
      case TaskRowOf(id, task) => TaskExact(p, c, id, task);
      case EventRowOf(id, event) => EventExact(p, c, id, event);
      case DependencyRow(id, d) =>
        DependencyExact(p.dependencies, c.dependencies, id, d);
        if d.predecessor == d.successor {
          SelfDependencyIsCycle(p.dependencies[id := d], id);
        }
        DependencyRowExact(p, c, id, d);
    }
  }

  lemma EmptyPlan()
    ensures PlanOk(EMPTY_PLAN)
  {
    var edges := EdgesOf(EMPTY_PLAN.dependencies);
    assert edges == {};
    if !Graph.Acyclic(edges) {
      Graph.CycleNeedsEdge(edges);
    }
  }

  // ----------------------------------------------------------- torn catalogues

  /** What a handler that has read the version and the first `read` tables knows: the
      plan can only have moved on, and if it has not, what was read is the plan. */
  ghost predicate CatalogFits(p: Plan, c: Catalog, read: nat) {
    && c.version <= p.version
    && (c.version == p.version ==>
          && (read >= 1 ==> IsPage(p.projects, MAX_PROFILE_ROWS, c.projects))
          && (read >= 2 ==> IsPage(p.tasks, MAX_PROFILE_ROWS, c.tasks))
          && (read >= 3 ==> IsPage(p.events, MAX_PROFILE_ROWS, c.events))
          && (read >= 4 ==> IsPage(p.dependencies, MAX_PROFILE_ROWS, c.dependencies)))
  }

  /** What a handler about to commit knows: its row is fine for the plan its version names. */
  ghost predicate PlanReady(p: Plan, write: PlanningWrite) {
    && write.expectedVersion <= p.version
    && (write.expectedVersion == p.version ==> PlanOk(Upsert(p, write.row)))
  }

  /** A plan never changes without its version growing. */
  ghost predicate Advances(plans: Plans, plans': Plans) {
    forall k :: PlanOf(plans', k) == PlanOf(plans, k) || PlanOf(plans, k).version < PlanOf(plans', k).version
  }

  ghost predicate PlansInv(plans: Plans) {
    forall k :: PlanOk(PlanOf(plans, k))
  }

  lemma CatalogReady(p: Plan, c: Catalog, write: PlanningWrite)
    requires PlanOk(p) && CatalogFits(p, c, 4) && CatalogAccepts(c, write.row) && write.expectedVersion == c.version
    ensures PlanReady(p, write)
  {
    if c.version == p.version {
      HandlerExact(p, c, write.row);
    }
  }

  lemma PlanningCommitKeepsPlans(plans: Plans, grants: Grants, key: PlanKey, hash: Hash, write: PlanningWrite,
          plans': Plans)
    requires PlansInv(plans) && PlanReady(PlanOf(plans, key), write)
    requires ApplyPlanning(plans, grants, key, hash, write) == Ok(plans')
    ensures PlansInv(plans') && Advances(plans, plans')
  {
    OnePlanChanges(plans, grants, key, hash, write, plans');
    forall k ensures PlanOk(PlanOf(plans', k)) {
      if k != key { assert PlanOk(PlanOf(plans, k)); }
    }
  }

  /** The commit rewrites one plan and gives it the next version. */
  lemma OnePlanChanges(plans: Plans, grants: Grants, key: PlanKey, hash: Hash, write: PlanningWrite, plans': Plans)
    requires ApplyPlanning(plans, grants, key, hash, write) == Ok(plans')
    ensures PlanOf(plans', key) == Signed(Upsert(PlanOf(plans, key), write.row), write, hash)
    ensures PlanOf(plans', key).version == PlanOf(plans, key).version + 1
    ensures forall k :: k != key ==> PlanOf(plans', k) == PlanOf(plans, k)
    ensures Advances(plans, plans')
    ensures write.expectedVersion == PlanOf(plans, key).version
  {
  }

  // ------------------------------------------------------------------ origins

  predicate HasRow(p: Plan, slot: Slot) {
    match slot
    case ProjectSlot(id) => id in p.projects
    case TaskSlot(id) => id in p.tasks
    case EventSlot(id) => id in p.events
    case DependencySlot(id) => id in p.dependencies
  }

  /** The row was signed under the pinned profile and written by a committed operation
      of the plan's own namespace and community. */
  predicate OriginOk(operations: seq<Operation>, key: PlanKey, origin: Origin) {
    && origin.digest == PROFILE_DIGEST
    && exists o :: o in operations && o.hash == origin.source && o.document.app == key.namespace &&
        o.document.community == key.community
  }

  ghost predicate Sourced(operations: seq<Operation>, key: PlanKey, p: Plan) {
    && (forall slot :: slot in p.origins <==> HasRow(p, slot))
    && (forall slot :: slot in p.origins ==> OriginOk(operations, key, p.origins[slot]))
  }

  ghost predicate PlansSourced(operations: seq<Operation>, plans: Plans) {
    forall key :: key in plans ==> key.namespace == PLANNING_NAMESPACE && Sourced(operations, key, plans[key])
  }

  lemma SourcedStays(operations: seq<Operation>, o: Operation, plans: Plans)
    requires PlansSourced(operations, plans)
    ensures PlansSourced(operations + [o], plans)
  {
    forall key, slot | key in plans && slot in plans[key].origins
      ensures OriginOk(operations + [o], key, plans[key].origins[slot])
    {
      assert Sourced(operations, key, plans[key]);
      assert OriginOk(operations, key, plans[key].origins[slot]);
    }
    forall key | key in plans ensures Sourced(operations + [o], key, plans[key]) {
      assert Sourced(operations, key, plans[key]);
    }
  }

  lemma CommitIsSourced(operations: seq<Operation>, o: Operation, plans: Plans, grants: Grants, key: PlanKey,
          write: PlanningWrite, plans': Plans)
    requires PlansSourced(operations, plans) && ApplyPlanning(plans, grants, key, o.hash, write) == Ok(plans')
    requires write.digest == PROFILE_DIGEST && key == PlanKey(o.document.app, o.document.community)
    requires key.namespace == PLANNING_NAMESPACE
    ensures PlansSourced(operations + [o], plans')
  {
    SourcedStays(operations, o, plans);
    assert key in plans || PlanOf(plans, key) == EMPTY_PLAN;
    SignedIsSourced(operations + [o], o, key, PlanOf(plans, key), write);
    forall k | k in plans' ensures k.namespace == PLANNING_NAMESPACE && Sourced(operations + [o], k, plans'[k]) {
      if k != key { assert plans'[k] == plans[k]; }
    }
  }

  /** An upsert files its row and moves no other. */
  lemma UpsertFiles(p: Plan, row: PlanningRow)
    ensures Upsert(p, row).origins == p.origins
    ensures forall k :: HasRow(Upsert(p, row), k) <==> HasRow(p, k) || k == SlotOf(row)
  {
  }

  lemma SignedIsSourced(operations: seq<Operation>, o: Operation, key: PlanKey, p: Plan, write: PlanningWrite)
    requires Sourced(operations, key, p) && o in operations && key == PlanKey(o.document.app, o.document.community)
    requires write.digest == PROFILE_DIGEST
    ensures Sourced(operations, key, Signed(Upsert(p, write.row), write, o.hash))
  {
    var origin := Origin(write.digest, write.app, o.hash);
    UpsertFiles(p, write.row);
    assert OriginOk(operations, key, origin);
    OneOrigin(operations, key, p, Upsert(p, write.row), SlotOf(write.row), origin);
  }

  lemma OneOrigin(operations: seq<Operation>, key: PlanKey, p: Plan, p': Plan, slot: Slot, origin: Origin)
    requires Sourced(operations, key, p) && OriginOk(operations, key, origin)
    requires p'.origins == p.origins && forall k :: HasRow(p', k) <==> HasRow(p, k) || k == slot
    ensures Sourced(operations, key, p'.(origins := p'.origins[slot := origin]))
  {
    var p'' := p'.(origins := p'.origins[slot := origin]);
    forall k ensures HasRow(p'', k) <==> HasRow(p', k) {
    }
  }
}
