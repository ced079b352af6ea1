/** Directed graphs as finite edge sets: the reference notion of a path and of a
    cycle against which the dependency search is proved. */
module Graph {
  type Edge = (string, string)

  /** A walk visits one node or follows edges from node to node. */
  ghost predicate Walk(edges: set<Edge>, nodes: seq<string>) {
    && nodes != []
    && forall i :: 0 <= i < |nodes| - 1 ==> (nodes[i], nodes[i + 1]) in edges
  }

  ghost predicate WalkBetween(edges: set<Edge>, from: string, to: string, nodes: seq<string>) {
    Walk(edges, nodes) && nodes[0] == from && nodes[|nodes| - 1] == to
  }

  /** `to` can be reached from `from` in zero or more steps. */
  ghost predicate Reaches(edges: set<Edge>, from: string, to: string) {
    exists nodes: seq<string> :: WalkBetween(edges, from, to, nodes)
  }

  /** No walk of one or more steps returns to its start. */
  ghost predicate Acyclic(edges: set<Edge>) {
    forall nodes: seq<string> :: Walk(edges, nodes) && |nodes| >= 2 ==> nodes[0] != nodes[|nodes| - 1]
  }

  lemma ReachesItself(edges: set<Edge>, node: string)
    ensures Reaches(edges, node, node)
  {
    assert WalkBetween(edges, node, node, [node]);
  }

  lemma ReachesThenStep(edges: set<Edge>, from: string, mid: string, to: string)
    requires Reaches(edges, from, mid) && (mid, to) in edges
    ensures Reaches(edges, from, to)
  {
    var nodes :| WalkBetween(edges, from, mid, nodes);
    assert WalkBetween(edges, from, to, nodes + [to]);
  }

  /** A set of nodes closed under the edges holds everything its members reach. */
  lemma {:induction false} ClosedHoldsReachable(edges: set<Edge>, closed: set<string>, nodes: seq<string>)
    requires Walk(edges, nodes) && nodes[0] in closed
    requires forall e :: e in edges && e.0 in closed ==> e.1 in closed
    ensures nodes[|nodes| - 1] in closed
  {
    if |nodes| > 1 {
      assert (nodes[0], nodes[1]) in edges;
      ClosedHoldsReachable(edges, closed, nodes[1..]);
    }
  }

  lemma SubgraphAcyclic(small: set<Edge>, large: set<Edge>)
    requires small <= large && Acyclic(large)
    ensures Acyclic(small)
  {
  }

  lemma CycleNeedsEdge(edges: set<Edge>)
    requires !Acyclic(edges)
    ensures edges != {}
  {
    var nodes: seq<string> :| Walk(edges, nodes) && |nodes| >= 2 && nodes[0] == nodes[|nodes| - 1];
    assert (nodes[0], nodes[0 + 1]) in edges;
  }

  /** Adding an edge to an acyclic graph keeps it acyclic exactly when the edge's
      target does not already reach its source once the edge is there. */
  lemma AddEdge(edges: set<Edge>, source: string, target: string)
    requires Acyclic(edges)
    ensures Acyclic(edges + {(source, target)}) <==> !Reaches(edges + {(source, target)}, target, source)
  {
    var more := edges + {(source, target)};
    if Reaches(more, target, source) {
      var nodes :| WalkBetween(more, target, source, nodes);
      var cycle := [source] + nodes;
      assert Walk(more, cycle) by {
        forall i | 0 <= i < |cycle| - 1 ensures (cycle[i], cycle[i + 1]) in more {
          if i > 0 { assert (nodes[i - 1], nodes[i]) in more; }
        }
      }
    } else {
      forall nodes: seq<string> | Walk(more, nodes) && |nodes| >= 2
        ensures nodes[0] != nodes[|nodes| - 1]
      {
        if nodes[0] == nodes[|nodes| - 1] {
          CycleUsesEdge(edges, source, target, nodes);
          assert false;
        }
      }
    }
  }

  lemma CycleUsesEdge(edges: set<Edge>, source: string, target: string, nodes: seq<string>)
    requires Acyclic(edges)
    requires Walk(edges + {(source, target)}, nodes) && |nodes| >= 2 && nodes[0] == nodes[|nodes| - 1]
    ensures Reaches(edges + {(source, target)}, target, source)
  {
    var more := edges + {(source, target)};
    if forall i :: 0 <= i < |nodes| - 1 ==> (nodes[i], nodes[i + 1]) in edges {
      assert Walk(edges, nodes);
      assert false;
    }
    var i :| 0 <= i < |nodes| - 1 && (nodes[i], nodes[i + 1]) !in edges;
    assert (nodes[i], nodes[i + 1]) in more;
    assert nodes[i] == source && nodes[i + 1] == target;
    Rotated(more, nodes, i);
    assert WalkBetween(more, target, source, nodes[i + 1..] + nodes[1..i + 1]);
  }

  /** A cycle walked from another of its nodes, short of closing it again. */
  lemma Rotated(edges: set<Edge>, nodes: seq<string>, i: nat)
    requires Walk(edges, nodes) && nodes[0] == nodes[|nodes| - 1] && i < |nodes| - 1
    ensures Walk(edges, nodes[i + 1..] + nodes[1..i + 1])
  {
  }
}
