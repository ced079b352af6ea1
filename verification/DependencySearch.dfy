/** `reject_dependency_cycle` of the planning handlers: a depth-first search with
    an explicit stack over the edges a catalogue holds. */
module DependencySearch {
  import opened Graph

  datatype Dependency = Dependency(predecessor: string, successor: string, info: string)

  /** The edges of every listed dependency except the one being replaced. */
  function EdgesExcept(dependencies: seq<(string, Dependency)>, replaced: string): set<Edge> {
    set d | d in dependencies && d.0 != replaced :: (d.1.predecessor, d.1.successor)
  }

  /** The graph the search runs on: the replaced edge gone, the requested one added. */
  function RequestedEdges(dependencies: seq<(string, Dependency)>, id: string, request: Dependency): set<Edge> {
    EdgesExcept(dependencies, id) + {(request.predecessor, request.successor)}
  }

  /** The requested dependency closes a cycle. */
  ghost predicate ClosesCycle(dependencies: seq<(string, Dependency)>, id: string, request: Dependency) {
    Reaches(RequestedEdges(dependencies, id, request), request.successor, request.predecessor)
  }

  type Adjacency = map<string, seq<string>>

  /** An adjacency map lists exactly the edges of a set. */
  ghost predicate Lists(adjacency: Adjacency, edges: set<Edge>) {
    forall a, b :: (a, b) in edges <==> a in adjacency && b in adjacency[a]
  }

  /** `entry(source).or_default().push(target)`. */
  function Push(adjacency: Adjacency, source: string, target: string): (r: Adjacency)
    ensures forall a, b :: (a in r && b in r[a]) <==>
              (a in adjacency && b in adjacency[a]) || (a == source && b == target)
  {
    adjacency[source := (if source in adjacency then adjacency[source] else []) + [target]]
  }

  method BuildEdges(dependencies: seq<(string, Dependency)>, id: string, request: Dependency)
    returns (adjacency: Adjacency)
    ensures Lists(adjacency, RequestedEdges(dependencies, id, request))
  {
    adjacency := map[];
    for i := 0 to |dependencies|
      invariant Lists(adjacency, EdgesExcept(dependencies[..i], id))
    {
      var (dependencyId, d) := dependencies[i];
      assert dependencies[..i + 1] == dependencies[..i] + [dependencies[i]];
      ghost var before := EdgesExcept(dependencies[..i], id);
      if dependencyId != id {
        adjacency := Push(adjacency, d.predecessor, d.successor);
        assert EdgesExcept(dependencies[..i + 1], id) == before + {(d.predecessor, d.successor)};
      } else {
        assert EdgesExcept(dependencies[..i + 1], id) == before;
      }
    }
    assert dependencies[..|dependencies|] == dependencies;
    adjacency := Push(adjacency, request.predecessor, request.successor);
  }

  /** Every task an edge ends in, plus the start of the search. */
  ghost function Universe(edges: set<Edge>, start: string): set<string> {
    (set e | e in edges :: e.1) + {start}
  }

  /** What each round of the search keeps: only reachable tasks are met, the goal is
      not among the visited ones, and an edge out of a visited task leads to a task
      that is visited or still pending. */
  ghost predicate Searching(edges: set<Edge>, start: string, goal: string, pending: seq<string>, visited: set<string>) {
    && visited <= Universe(edges, start)
    && goal !in visited
    && (start in visited || start in pending)
    && (forall t :: t in pending ==> t in Universe(edges, start) && Reaches(edges, start, t))
    && (forall e :: e in edges && e.0 in visited ==> e.1 in visited || e.1 in pending)
  }

  lemma Visit(edges: set<Edge>, start: string, goal: string, pending: seq<string>, visited: set<string>,
          task: string, next: seq<string>)
    requires Searching(edges, start, goal, pending + [task], visited) && task != goal
    requires task !in visited ==> forall t :: t in next <==> (task, t) in edges
    requires task in visited ==> next == []
    ensures Searching(edges, start, goal, pending + next, visited + {task})
  {
    assert task in pending + [task];
    forall t | t in next ensures t in Universe(edges, start) && Reaches(edges, start, t) {
      assert (task, t) in edges;
      ReachesThenStep(edges, start, task, t);
    }
    forall e | e in edges && e.0 in visited + {task}
      ensures e.1 in visited + {task} || e.1 in pending + next
    {
      if e.0 == task && task !in visited {
        assert (task, e.1) in edges;
      } else {
        assert e.1 in visited || e.1 in pending + [task];
      }
    }
  }

  lemma ExhaustedSearch(edges: set<Edge>, start: string, goal: string, visited: set<string>)
    requires Searching(edges, start, goal, [], visited)
    ensures !Reaches(edges, start, goal)
  {
    if Reaches(edges, start, goal) {
      var nodes :| WalkBetween(edges, start, goal, nodes);
      ClosedHoldsReachable(edges, visited, nodes);
      assert false;
    }
  }

  /** The search rejects a dependency exactly when a walk leads from its successor
      back to its predecessor. It ends because each round either visits a new task
      or shortens the stack. */
  method RejectDependencyCycle(dependencies: seq<(string, Dependency)>, id: string, request: Dependency)
    returns (rejected: bool)
    ensures rejected <==> ClosesCycle(dependencies, id, request)
  {
    var adjacency := BuildEdges(dependencies, id, request);
    ghost var edges := RequestedEdges(dependencies, id, request);
    var pending := [request.successor];
    var visited: set<string> := {};
    ReachesItself(edges, request.successor);
    while pending != []
      invariant Searching(edges, request.successor, request.predecessor, pending, visited)
      decreases |Universe(edges, request.successor) - visited|, |pending|
    {
      var task := pending[|pending| - 1];
      assert pending == pending[..|pending| - 1] + [task];
      pending := pending[..|pending| - 1];
      if task == request.predecessor {
        assert task in pending + [task];
        return true;
      }
      var next := if task !in visited && task in adjacency then adjacency[task] else [];
      Visit(edges, request.successor, request.predecessor, pending, visited, task, next);
      if task !in visited {
        SmallerSet(Universe(edges, request.successor) - (visited + {task}),
            Universe(edges, request.successor) - visited, task);
        pending := pending + next;
        visited := visited + {task};
      } else {
        assert visited + {task} == visited && pending + next == pending;
      }
    }
    ExhaustedSearch(edges, request.successor, request.predecessor, visited);
    return false;
  }

  lemma SmallerSet(small: set<string>, large: set<string>, x: string)
    requires small <= large - {x} && x in large
    ensures |small| < |large|
  {
    SubsetSize(small, large - {x});
  }

  lemma SubsetSize(small: set<string>, large: set<string>)
    requires small <= large
    ensures |small| <= |large|
  {
    if small != {} {
      var x :| x in small;
      SubsetSize(small - {x}, large - {x});
    }
  }

  /** The rule of the search in graph terms: replacing the same-id edge and adding the
      requested one leaves an acyclic graph acyclic exactly when the search accepts. */
  lemma AcceptsExactlyAcyclic(dependencies: seq<(string, Dependency)>, id: string, request: Dependency)
    requires Acyclic(EdgesExcept(dependencies, id))
    ensures !ClosesCycle(dependencies, id, request) <==> Acyclic(RequestedEdges(dependencies, id, request))
  {
    AddEdge(EdgesExcept(dependencies, id), request.predecessor, request.successor);
  }
}
