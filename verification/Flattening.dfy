/** Delayables, chains and groups, and the one graph of delayables that they stand for. */
module Flattening {
  import opened Graphs

  /** What a node is made of; nodes are known by their position in the list of all nodes. */
  datatype Kind =
    | Delayable
    | Chain(first: nat, last: nat)
    | Group(members: set<nat>)

  /** A node and the graph that it carries, whose vertices are nodes again. */
  datatype Node = Node(kind: Kind, graph: Adjacency<nat>)

  ghost predicate NodeOk(nodes: seq<Node>, i: nat)
    requires i < |nodes|
  {
    && Closed(nodes[i].graph) && (forall v | v in nodes[i].graph :: v < |nodes|)
    && match nodes[i].kind
       case Delayable => i in nodes[i].graph
       case Chain(first, last) => first < i && last < i && first in nodes[i].graph && last in nodes[i].graph
       case Group(members) => members <= nodes[i].graph.Keys && forall m | m in members :: m < i
  }

  ghost predicate NodesOk(nodes: seq<Node>) {
    forall i | 0 <= i < |nodes| :: NodeOk(nodes, i)
  }

  /** A graph without edges. */
  function Plain(vs: set<nat>): Adjacency<nat> {
    map v | v in vs :: {}
  }

  /** The head of a chain is the tail of its first node, as in the original. */
  function Heads(nodes: seq<Node>, n: nat): set<nat>
    decreases n, 0
  {
    if n >= |nodes| then {}
    else
      match nodes[n].kind
      case Delayable => {n}
      case Chain(first, last) => if first < n then Tails(nodes, first) else {}
      case Group(members) => set m, h | m in members && m < n && h in Heads(nodes, m) :: h
  }

  /** The tail of a chain is the head of its last node. */
  function Tails(nodes: seq<Node>, n: nat): set<nat>
    decreases n, 0
  {
    if n >= |nodes| then {}
    else
      match nodes[n].kind
      case Delayable => {n}
      case Chain(first, last) => if last < n then Heads(nodes, last) else {}
      case Group(members) => set m, h | m in members && m < n && h in Tails(nodes, m) :: h
  }

  // ---------------------------------------------------------------- merging

  function HeadsOf(nodes: seq<Node>, ns: set<nat>): set<nat> {
    set n, h | n in ns && h in Heads(nodes, n) :: h
  }

  /** A vertex that some vertices of a node graph stand for. */
  ghost predicate HasVertex(nodes: seq<Node>, vs: set<nat>, t: nat) {
    exists v | v in vs :: t in Tails(nodes, v)
  }

  /** An edge that the edges of a node graph from some of its vertices stand for. */
  ghost predicate HasEdge(nodes: seq<Node>, g: Adjacency<nat>, vs: set<nat>, t: nat, h: nat) {
    exists v | v in vs && v in g :: t in Tails(nodes, v) && h in HeadsOf(nodes, g[v])
  }

  /** `g` is `before` and what the edges of `n` from the vertices `vs` stand for. */
  ghost predicate MergesPart(
    nodes: seq<Node>, n: Adjacency<nat>, vs: set<nat>, before: Adjacency<nat>, g: Adjacency<nat>)
  {
    && (forall t :: t in g <==> t in before || HasVertex(nodes, vs, t))
    && (forall t, h :: Edge(g, t, h) <==> Edge(before, t, h) || HasEdge(nodes, n, vs, t, h))
  }

  ghost predicate InSome(nodes: seq<Node>, merged: set<nat>, t: nat) {
    exists n | n in merged && n < |nodes| :: HasVertex(nodes, nodes[n].graph.Keys, t)
  }

  ghost predicate LinkedInSome(nodes: seq<Node>, merged: set<nat>, t: nat, h: nat) {
    exists n | n in merged && n < |nodes| :: HasEdge(nodes, nodes[n].graph, nodes[n].graph.Keys, t, h)
  }

  /** `g` is what the graphs of the nodes `merged` stand for together. */
  ghost predicate Merges(nodes: seq<Node>, merged: set<nat>, g: Adjacency<nat>) {
    && (forall t :: t in g <==> InSome(nodes, merged, t))
    && (forall t, h :: Edge(g, t, h) <==> LinkedInSome(nodes, merged, t, h))
  }

  lemma {:induction false} MergesOneMore(
    nodes: seq<Node>, n: Adjacency<nat>, vs: set<nat>, v: nat, before: Adjacency<nat>, g: Adjacency<nat>,
    g': Adjacency<nat>)
    requires v in n && MergesPart(nodes, n, vs, before, g) && g'.Keys == g.Keys + Tails(nodes, v)
    requires forall t, h :: Edge(g', t, h) <==> Edge(g, t, h) || (t in Tails(nodes, v) && h in HeadsOf(nodes, n[v]))
    ensures MergesPart(nodes, n, vs + {v}, before, g')
  {
    forall t ensures HasVertex(nodes, vs + {v}, t) <==> HasVertex(nodes, vs, t) || t in Tails(nodes, v) {}
    forall t, h ensures HasEdge(nodes, n, vs + {v}, t, h) <==>
                        HasEdge(nodes, n, vs, t, h) || (t in Tails(nodes, v) && h in HeadsOf(nodes, n[v])) {}
  }

  lemma {:induction false} MergesAll(
    nodes: seq<Node>, merged: set<nat>, n: nat, before: Adjacency<nat>, g: Adjacency<nat>)
    requires n < |nodes| && Merges(nodes, merged, before)
    requires MergesPart(nodes, nodes[n].graph, nodes[n].graph.Keys, before, g)
    ensures Merges(nodes, merged + {n}, g)
  {
    forall t ensures InSome(nodes, merged + {n}, t) <==>
                     InSome(nodes, merged, t) || HasVertex(nodes, nodes[n].graph.Keys, t) {}
    forall t, h ensures LinkedInSome(nodes, merged + {n}, t, h) <==>
                        LinkedInSome(nodes, merged, t, h) ||
                        HasEdge(nodes, nodes[n].graph, nodes[n].graph.Keys, t, h) {}
  }

  class MergedGraph {
    const nodes: seq<Node>
    var graph: Adjacency<nat>

    constructor (nodes: seq<Node>)
      ensures this.nodes == nodes && graph == map[]
    {
      this.nodes, graph := nodes, map[];
    }

    method MergeGraph(n: nat, ghost merged: set<nat>)
      requires n < |nodes| && Merges(nodes, merged, graph)
      modifies this
      ensures Merges(nodes, merged + {n}, graph)
    {
      ghost var before := graph;
      var todo := nodes[n].graph.Keys;
      while todo != {}
        invariant todo <= nodes[n].graph.Keys
        invariant MergesPart(nodes, nodes[n].graph, nodes[n].graph.Keys - todo, before, graph)
        decreases todo
      {
        var vertex :| vertex in todo;
        ghost var g, done := graph, nodes[n].graph.Keys - todo;
        ConnectTails(vertex, nodes[n].graph[vertex]);
        MergesOneMore(nodes, nodes[n].graph, done, vertex, before, g, graph);
        assert done + {vertex} == nodes[n].graph.Keys - (todo - {vertex});
        todo := todo - {vertex};
      }
      assert nodes[n].graph.Keys - todo == nodes[n].graph.Keys;
      MergesAll(nodes, merged, n, before, graph);
    }

    /** Connects the tails of a vertex with the heads of its neighbours. */
    method ConnectTails(vertex: nat, neighbours: set<nat>)
      modifies this
      ensures graph.Keys == old(graph.Keys) + Tails(nodes, vertex)
      ensures forall t, h :: Edge(graph, t, h) <==>
                Edge(old(graph), t, h) || (t in Tails(nodes, vertex) && h in HeadsOf(nodes, neighbours))
    {
      var tails := Tails(nodes, vertex);
      ghost var before := graph;
      while tails != {}
        invariant tails <= Tails(nodes, vertex)
        invariant graph.Keys == before.Keys + (Tails(nodes, vertex) - tails)
        invariant forall t, h :: Edge(graph, t, h) <==>
                    Edge(before, t, h) || (t in Tails(nodes, vertex) - tails && h in HeadsOf(nodes, neighbours))
        decreases tails
      {
        var tail :| tail in tails;
        tails := tails - {tail};
        var heads := HeadsOf(nodes, neighbours);
        graph := graph[tail := (if tail in graph then graph[tail] else {}) + heads];
      }
    }
  }

  // ---------------------------------------------------------------- visiting all graphs

  /** Node b is in the graph of a node in the graph of ... node a, k graphs deep. */
  ghost predicate Reaches(nodes: seq<Node>, a: nat, b: nat, k: nat)
    decreases k
  {
    if k == 0 then a == b
    else exists m: nat | m < |nodes| :: Reaches(nodes, a, m, k - 1) && b in nodes[m].graph
  }

  ghost predicate IsReachable(nodes: seq<Node>, a: nat, b: nat) {
    exists k: nat :: Reaches(nodes, a, b, k)
  }

  ghost function Reachable(nodes: seq<Node>, start: nat): set<nat> {
    set n: nat | n < |nodes| && IsReachable(nodes, start, n)
  }

  /** The graphs of all visited nodes have been looked into. */
  ghost predicate Visited(nodes: seq<Node>, seen: set<nat>, found: set<nat>) {
    forall n | n in seen :: n < |nodes| && nodes[n].graph.Keys <= found
  }

  lemma {:induction false} VisitedAll(nodes: seq<Node>, start: nat, seen: set<nat>, b: nat, k: nat)
    requires start in seen && Visited(nodes, seen, seen) && Reaches(nodes, start, b, k)
    ensures b in seen
    decreases k
  {
    if k > 0 {
      var m: nat :| m < |nodes| && Reaches(nodes, start, m, k - 1) && b in nodes[m].graph;
      VisitedAll(nodes, start, seen, m, k - 1);
    }
  }

  lemma {:induction false} OneDeeper(nodes: seq<Node>, start: nat, n: nat, v: nat)
    requires NodesOk(nodes) && n in Reachable(nodes, start) && v in nodes[n].graph
    ensures v in Reachable(nodes, start)
  {
    assert NodeOk(nodes, n);
    var k: nat :| Reaches(nodes, start, n, k);
    assert Reaches(nodes, start, v, k + 1);
  }

  /** The one graph that a node and everything reachable from it stand for. */
  method ConnectGraphs(nodes: seq<Node>, start: nat) returns (connected: Adjacency<nat>)
    requires NodesOk(nodes) && start < |nodes|
    ensures Merges(nodes, Reachable(nodes, start), connected)
  {
    var graph := new MergedGraph(nodes);
    graph.MergeGraph(start, {});
    ghost var found := {start};
    assert Reaches(nodes, start, start, 0);
    var seen: set<nat> := {};
    var visitStack := [start];
    assert {} + {start} == found;
    while visitStack != []
      invariant fresh(graph) && graph.nodes == nodes && Merges(nodes, found, graph.graph)
      invariant start in found && found <= Reachable(nodes, start)
      invariant Set(visitStack) + seen == found && Visited(nodes, seen, found)
      decreases Reachable(nodes, start) - seen, |visitStack|
    {
      var current := visitStack[0];
      assert visitStack == [current] + visitStack[1..];
      visitStack := visitStack[1..];
      if current !in seen {
        visitStack, found := VisitVertices(graph, start, current, visitStack, found);
        seen := seen + {current};
      }
    }
    forall n | n in Reachable(nodes, start) ensures n in found {
      var k: nat :| Reaches(nodes, start, n, k);
      VisitedAll(nodes, start, found, n, k);
    }
    assert found == Reachable(nodes, start);
    connected := graph.graph;
  }

  /** Merges the graphs of all vertices of a node's graph and queues them to be visited. */
  method VisitVertices(graph: MergedGraph, ghost start: nat, current: nat, visitStack: seq<nat>, ghost found: set<nat>)
    returns (stack: seq<nat>, ghost found': set<nat>)
    requires NodesOk(graph.nodes) && current in Reachable(graph.nodes, start)
    requires Merges(graph.nodes, found, graph.graph)
    modifies graph
    ensures Merges(graph.nodes, found', graph.graph) && found' == found + graph.nodes[current].graph.Keys
    ensures Set(stack) == Set(visitStack) + graph.nodes[current].graph.Keys
    ensures graph.nodes[current].graph.Keys <= Reachable(graph.nodes, start)
  {
    stack, found' := visitStack, found;
    var nodes := graph.nodes;
    assert NodeOk(nodes, current);
    var todo := nodes[current].graph.Keys;
    while todo != {}
      invariant todo <= nodes[current].graph.Keys && nodes[current].graph.Keys - todo <= Reachable(nodes, start)
      invariant Merges(nodes, found', graph.graph) && found' == found + (nodes[current].graph.Keys - todo)
      invariant Set(stack) == Set(visitStack) + (nodes[current].graph.Keys - todo)
      decreases todo
    {
      var vertex :| vertex in todo;
      todo := todo - {vertex};
      OneDeeper(nodes, start, current, vertex);
      graph.MergeGraph(vertex, found');
      found' := found' + {vertex};
      assert Set(stack + [vertex]) == Set(stack) + {vertex};
      stack := stack + [vertex];
    }
  }

  // ---------------------------------------------------------------- what the connected graph is

  /** Heads and tails are delayables that can be reached. */
  lemma {:induction false} EndsAreReachable(nodes: seq<Node>, start: nat, n: nat, d: nat)
    requires NodesOk(nodes) && n in Reachable(nodes, start) && d in Heads(nodes, n) + Tails(nodes, n)
    ensures d in Reachable(nodes, start) && nodes[d].kind.Delayable?
    decreases n
  {
    assert NodeOk(nodes, n);
    match nodes[n].kind
    case Delayable =>
    case Chain(first, last) =>
      var m := if d in Heads(nodes, n) then first else last;
      OneDeeper(nodes, start, n, m);
      EndsAreReachable(nodes, start, m, d);
    case Group(members) =>
      var m :| m in members && m < n && d in Heads(nodes, m) + Tails(nodes, m);
      OneDeeper(nodes, start, n, m);
      EndsAreReachable(nodes, start, m, d);
  }

  /** The connected graph has exactly the delayables that can be reached, and its edges stay among them. */
  lemma {:induction false} ConnectsDelayables(nodes: seq<Node>, start: nat, g: Adjacency<nat>)
    requires NodesOk(nodes) && start < |nodes| && Merges(nodes, Reachable(nodes, start), g)
    ensures Closed(g)
    ensures forall d :: d in g <==> d in Reachable(nodes, start) && nodes[d].kind.Delayable?
  {
    var all := Reachable(nodes, start);
    forall d | d in all && nodes[d].kind.Delayable? ensures d in g {
      assert NodeOk(nodes, d) && d in Tails(nodes, d);
      assert HasVertex(nodes, nodes[d].graph.Keys, d) && InSome(nodes, all, d);
    }
    forall d | d in g ensures d in all && nodes[d].kind.Delayable? {
      assert InSome(nodes, all, d);
      var n :| n in all && n < |nodes| && HasVertex(nodes, nodes[n].graph.Keys, d);
      var v :| v in nodes[n].graph.Keys && d in Tails(nodes, v);
      OneDeeper(nodes, start, n, v);
      EndsAreReachable(nodes, start, v, d);
    }
    forall t, h | Edge(g, t, h) ensures h in g {
      assert LinkedInSome(nodes, all, t, h);
      var n :| n in all && n < |nodes| && HasEdge(nodes, nodes[n].graph, nodes[n].graph.Keys, t, h);
      var v :| v in nodes[n].graph && t in Tails(nodes, v) && h in HeadsOf(nodes, nodes[n].graph[v]);
      var w :| w in nodes[n].graph[v] && h in Heads(nodes, w);
      assert NodeOk(nodes, n);
      OneDeeper(nodes, start, n, w);
      EndsAreReachable(nodes, start, w, h);
    }
    forall t | t in g ensures g[t] <= g.Keys {
      forall h | h in g[t] ensures h in g {
        assert Edge(g, t, h);
      }
    }
  }
}
