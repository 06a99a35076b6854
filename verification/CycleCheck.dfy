/** The check that a graph's ordinary edges, back edges aside, have no directed cycle. */
module CycleCheck {

  type Node = string

  datatype Edge = Edge(from: Node, to: Node, backEdge: bool)

  datatype Status = Ok | SourceMissing | DestinationMissing | UndeclaredCycle

  /** An ordinary edge leads from `a` to `b`. */
  ghost predicate Leads(edges: seq<Edge>, a: Node, b: Node) {
    Edge(a, b, false) in edges
  }

  ghost predicate IsPath(edges: seq<Edge>, path: seq<Node>) {
    forall i :: 0 <= i < |path| - 1 ==> Leads(edges, path[i], path[i + 1])
  }

  ghost predicate IsCycle(edges: seq<Edge>, path: seq<Node>) {
    |path| >= 2 && path[0] == path[|path| - 1] && IsPath(edges, path)
  }

  ghost predicate HasCycle(edges: seq<Edge>) {
    exists path :: IsCycle(edges, path)
  }

  /** A topological order, as a number for every node that falls along every ordinary edge. */
  ghost predicate Ranks(edges: seq<Edge>, rank: map<Node, nat>) {
    forall a, b :: Leads(edges, a, b) ==> a in rank && b in rank && rank[b] < rank[a]
  }

  ghost predicate HasOrder(edges: seq<Edge>) {
    exists rank :: Ranks(edges, rank)
  }

  lemma {:induction false} RankFalls(edges: seq<Edge>, rank: map<Node, nat>, path: seq<Node>)
    requires Ranks(edges, rank) && IsPath(edges, path) && |path| >= 2
    ensures path[0] in rank && path[|path| - 1] in rank && rank[path[|path| - 1]] < rank[path[0]]
  {
    assert Leads(edges, path[0], path[1]);
    if |path| > 2 {
      forall i | 0 <= i < |path[1..]| - 1
        ensures Leads(edges, path[1..][i], path[1..][i + 1])
      {
        assert Leads(edges, path[i + 1], path[i + 2]);
      }
      RankFalls(edges, rank, path[1..]);
    }
  }

  lemma OrderExcludesCycle(edges: seq<Edge>)
    requires HasOrder(edges)
    ensures !HasCycle(edges)
  {
    var rank :| Ranks(edges, rank);
    forall path | IsPath(edges, path) && |path| >= 2
      ensures path[0] != path[|path| - 1]
    {
      RankFalls(edges, rank, path);
    }
  }

  /** Finished nodes have only finished successors, of smaller rank. */
  ghost predicate FinishedIn(nodes: set<Node>, edges: seq<Edge>, visited: set<Node>, rank: map<Node, nat>) {
    && rank.Keys == visited <= nodes
    && (forall a :: a in rank ==> rank[a] < |rank|)
    && (forall a, b :: a in visited && Leads(edges, a, b) ==> b in visited && rank[b] < rank[a])
  }

  lemma FinishOne(nodes: set<Node>, edges: seq<Edge>, visited: set<Node>, rank: map<Node, nat>, node: Node)
    requires FinishedIn(nodes, edges, visited, rank) && node in nodes && node !in visited
    requires forall b :: Leads(edges, node, b) ==> b in visited
    ensures FinishedIn(nodes, edges, visited + {node}, rank[node := |rank|])
  {
    var rank' := rank[node := |rank|];
    assert rank'.Keys == rank.Keys + {node};
    assert |rank'| == |rank'.Keys| == |rank.Keys| + 1 == |rank| + 1;
  }

  // ---------------------------------------------------------------------------
  // The depth-first search
  // ---------------------------------------------------------------------------

  class CycleChecker {
    const nodes: set<Node>
    const edges: seq<Edge>
    var adjacency: map<Node, seq<Node>>
    var visiting: set<Node>
    var visited: set<Node>
    /** Numbers given to nodes as they are finished. */
    ghost var rank: map<Node, nat>

    constructor (nodes: set<Node>, edges: seq<Edge>)
      ensures this.nodes == nodes && this.edges == edges
      ensures visiting == {} && visited == {} && rank == map[] && adjacency == map[]
    {
      this.nodes, this.edges := nodes, edges;
      adjacency, visiting, visited, rank := map[], {}, {}, map[];
    }

    function Next(a: Node): seq<Node>
      reads this`adjacency
    {
      if a in adjacency then adjacency[a] else []
    }

    ghost predicate AdjacencyBuilt()
      reads this`adjacency
    {
      forall a, b :: b in Next(a) <==> Leads(edges, a, b)
    }

    ghost predicate Closed()
    {
      forall a, b :: Leads(edges, a, b) ==> a in nodes && b in nodes
    }

    ghost predicate Finished()
      reads this`visited, this`rank
    {
      FinishedIn(nodes, edges, visited, rank)
    }

    method BuildAdjacency()
      requires adjacency == map[]
      modifies this`adjacency
      ensures AdjacencyBuilt()
    {
      for i := 0 to |edges|
        invariant forall a, b :: b in Next(a) <==> Leads(edges[..i], a, b)
      {
        var e := edges[i];
        assert edges[..i + 1] == edges[..i] + [e];
        assert forall a, b :: Leads(edges[..i + 1], a, b) <==> Leads(edges[..i], a, b) || e == Edge(a, b, false);
        if !e.backEdge {
          ghost var before := Next(e.from);
          adjacency := adjacency[e.from := Next(e.from) + [e.to]];
          assert forall b :: b in Next(e.from) <==> b in before || b == e.to;
        }
      }
      assert edges[..|edges|] == edges;
    }

    /** `trail` is the chain of nodes being visited, ending just before `node`. */
    method Visit(node: Node, ghost trail: seq<Node>) returns (ok: bool)
      requires AdjacencyBuilt() && Closed() && Finished()
      requires node in nodes && visiting <= nodes && visiting !! visited
      requires IsPath(edges, trail + [node]) && forall x :: x in visiting <==> x in trail
      modifies this`visiting, this`visited, this`rank
      ensures ok ==> Finished() && visiting == old(visiting) && visiting !! visited
      ensures ok ==> old(visited) <= visited && node in visited
      ensures !ok ==> HasCycle(edges)
      decreases nodes - visiting, 0
    {
      if node in visiting {
        CycleOnTrail(edges, trail, node);
        return false;
      }
      if node in visited {
        return true;
      }
      ghost var before := visiting;
      visiting := visiting + {node};
      ok := VisitSuccessors(node, trail + [node]);
      if !ok {
        return;
      }
      visiting := visiting - {node};
      assert visiting == before;
      FinishOne(nodes, edges, visited, rank, node);
      visited := visited + {node};
      rank := rank[node := |rank|];
    }

    /** The loop over a node's successors; `trail` now ends with the node itself. */
    method VisitSuccessors(node: Node, ghost trail: seq<Node>) returns (ok: bool)
      requires AdjacencyBuilt() && Closed() && Finished()
      requires node in visiting && visiting <= nodes && visiting !! visited
      requires trail != [] && trail[|trail| - 1] == node && IsPath(edges, trail)
      requires forall x :: x in visiting <==> x in trail
      modifies this`visiting, this`visited, this`rank
      ensures ok ==> Finished() && visiting == old(visiting) && visiting !! visited && old(visited) <= visited
      ensures ok ==> forall b :: Leads(edges, node, b) ==> b in visited
      ensures !ok ==> HasCycle(edges)
      decreases nodes - visiting, 1
    {
      var next := Next(node);
      for i := 0 to |next|
        invariant Finished() && visiting == old(visiting) && visiting !! visited && old(visited) <= visited
        invariant forall j :: 0 <= j < i ==> next[j] in visited
      {
        assert next[i] in Next(node) && Leads(edges, node, next[i]);
        PathExtends(edges, trail, next[i]);
        ok := Visit(next[i], trail);
        if !ok {
          return;
        }
      }
      forall b | Leads(edges, node, b)
        ensures b in visited
      {
        assert b in next;
      }
      ok := true;
    }

    method ValidateAcyclic() returns (ok: bool)
      requires adjacency == map[] && visiting == {} && visited == {} && rank == map[] && Closed()
      modifies this
      ensures ok <==> !HasCycle(edges)
      ensures ok <==> HasOrder(edges)
    {
      BuildAdjacency();
      var rest := nodes;
      while rest != {}
        invariant AdjacencyBuilt() && Finished() && visiting == {} && nodes - rest <= visited
        decreases rest
      {
        var node :| node in rest;
        var good := Visit(node, []);
        if !good {
          CycleExcludesOrder(edges);
          return false;
        }
        rest := rest - {node};
      }
      assert Ranks(edges, rank);
      OrderExcludesCycle(edges);
      return true;
    }
  }

  lemma CycleExcludesOrder(edges: seq<Edge>)
    requires HasCycle(edges)
    ensures !HasOrder(edges)
  {
    if HasOrder(edges) { OrderExcludesCycle(edges); }
  }

  lemma PathExtends(edges: seq<Edge>, trail: seq<Node>, x: Node)
    requires trail != [] && IsPath(edges, trail) && Leads(edges, trail[|trail| - 1], x)
    ensures IsPath(edges, trail + [x])
  {
    var longer := trail + [x];
    forall i | 0 <= i < |longer| - 1
      ensures Leads(edges, longer[i], longer[i + 1])
    {
      if i < |trail| - 1 { assert Leads(edges, trail[i], trail[i + 1]); }
    }
  }

  /** Reaching a node that is still being visited closes a cycle. */
  lemma CycleOnTrail(edges: seq<Edge>, trail: seq<Node>, node: Node)
    requires IsPath(edges, trail + [node]) && node in trail
    ensures HasCycle(edges)
  {
    var k :| 0 <= k < |trail| && trail[k] == node;
    var whole := trail + [node];
    var loop := whole[k..];
    forall i | 0 <= i < |loop| - 1
      ensures Leads(edges, loop[i], loop[i + 1])
    {
      assert Leads(edges, whole[k + i], whole[k + i + 1]);
    }
    assert IsCycle(edges, loop);
  }

  predicate Joined(nodes: set<Node>, e: Edge) {
    e.from in nodes && e.to in nodes
  }

  /** The first edge with a missing endpoint. */
  predicate FirstDangling(nodes: set<Node>, edges: seq<Edge>, i: int) {
    0 <= i < |edges| && !Joined(nodes, edges[i]) && forall j :: 0 <= j < i ==> Joined(nodes, edges[j])
  }

  /** Every edge's endpoints exist, checked source first, and then there is no undeclared cycle. */
  method Validate(nodes: set<Node>, edges: seq<Edge>) returns (status: Status)
    ensures status == Ok <==> (forall e :: e in edges ==> e.from in nodes && e.to in nodes) && !HasCycle(edges)
    ensures status == UndeclaredCycle ==> HasCycle(edges)
    ensures status == SourceMissing ==> exists i :: FirstDangling(nodes, edges, i) && edges[i].from !in nodes
    ensures status == DestinationMissing ==>
      exists i :: FirstDangling(nodes, edges, i) && edges[i].from in nodes && edges[i].to !in nodes
  {
    for i := 0 to |edges|
      invariant forall j :: 0 <= j < i ==> Joined(nodes, edges[j])
    {
      assert !Joined(nodes, edges[i]) ==> FirstDangling(nodes, edges, i);
      if edges[i].from !in nodes {
        return SourceMissing;
      }
      if edges[i].to !in nodes {
        return DestinationMissing;
      }
    }
    var checker := new CycleChecker(nodes, edges);
    var ok := checker.ValidateAcyclic();
    status := if ok then Ok else UndeclaredCycle;
  }
}
