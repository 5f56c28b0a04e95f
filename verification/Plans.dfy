/** Chains of stages, how they are built, and the graph that they stand for. */
module Plans {
  import opened Graphs
  import opened Flattening

  ghost predicate IsDelayable(nodes: seq<Node>, d: nat) {
    d < |nodes| && nodes[d] == Node(Delayable, Plain({d}))
  }

  /** A delayable, or a group of delayables. */
  ghost predicate IsStage(nodes: seq<Node>, s: nat) {
    || IsDelayable(nodes, s)
    || (&& s < |nodes| && nodes[s].kind.Group? && nodes[s].graph == Plain(nodes[s].kind.members)
        && forall d | d in nodes[s].kind.members :: d < s && IsDelayable(nodes, d))
  }

  function Members(nodes: seq<Node>, s: nat): set<nat> {
    if s < |nodes| && nodes[s].kind.Group? then nodes[s].kind.members else {s}
  }

  /** A chain of different stages. */
  ghost predicate IsChain(nodes: seq<Node>, c: nat, stages: seq<nat>) {
    && c < |nodes| && stages != [] && Distinct(stages)
    && nodes[c].kind == Chain(stages[0], stages[|stages| - 1])
    && (forall i | 0 <= i < |stages| :: stages[i] < c && IsStage(nodes, stages[i]))
    && nodes[c].graph.Keys == Set(stages)
    && forall v, w :: Edge(nodes[c].graph, v, w) <==> Follows(stages, v, w)
  }

  ghost predicate Follows<T>(list: seq<T>, v: T, w: T) {
    exists i | 0 <= i < |list| - 1 :: list[i] == v && list[i + 1] == w
  }

  /** One chain of stages, or a group of such chains. */
  ghost predicate IsPlan(nodes: seq<Node>, start: nat, plan: map<nat, seq<nat>>) {
    && NodesOk(nodes) && start < |nodes|
    && (|| plan.Keys == {start}
        || (start !in plan && nodes[start] == Node(Group(plan.Keys), Plain(plan.Keys))))
    && (forall c | c in plan :: IsChain(nodes, c, plan[c]))
  }

  /** No delayable occurs twice in a plan. */
  ghost predicate NoRepeats(nodes: seq<Node>, plan: map<nat, seq<nat>>) {
    forall c, d, i, k | c in plan && d in plan && 0 <= i < |plan[c]| && 0 <= k < |plan[d]| && (c != d || i != k) ::
         Members(nodes, plan[c][i]) !! Members(nodes, plan[d][k])
  }

  /** A delayable of some stage. */
  ghost predicate InPlan(nodes: seq<Node>, plan: map<nat, seq<nat>>, d: nat) {
    exists c, i | c in plan && 0 <= i < |plan[c]| :: d in Members(nodes, plan[c][i])
  }

  /** Delayables of two consecutive stages of a chain. */
  ghost predicate Consecutive(nodes: seq<Node>, plan: map<nat, seq<nat>>, t: nat, h: nat) {
    exists c, i | c in plan && 0 <= i < |plan[c]| - 1 ::
      t in Members(nodes, plan[c][i]) && h in Members(nodes, plan[c][i + 1])
  }

  lemma {:induction false} StageEnds(nodes: seq<Node>, s: nat)
    requires IsStage(nodes, s)
    ensures Heads(nodes, s) == Members(nodes, s) == Tails(nodes, s)
    ensures forall d | d in Members(nodes, s) :: IsDelayable(nodes, d)
    ensures nodes[s].graph == Plain(Members(nodes, s))
  {
    if nodes[s].kind.Group? {
      forall d | d in nodes[s].kind.members ensures Heads(nodes, d) == {d} == Tails(nodes, d) {
        assert IsDelayable(nodes, d);
      }
      assert Heads(nodes, s) == nodes[s].kind.members == Tails(nodes, s);
    }
  }

  /** Everything reachable is the start, a chain, a stage or a delayable of a stage. */
  ghost predicate Known(nodes: seq<Node>, start: nat, plan: map<nat, seq<nat>>, n: nat) {
    || n == start || n in plan || InPlan(nodes, plan, n)
    || exists c, i | c in plan && 0 <= i < |plan[c]| :: n == plan[c][i]
  }

  lemma {:induction false} ReachableIsKnown(nodes: seq<Node>, start: nat, plan: map<nat, seq<nat>>, n: nat, k: nat)
    requires IsPlan(nodes, start, plan) && Reaches(nodes, start, n, k)
    ensures Known(nodes, start, plan, n)
    decreases k
  {
    if k > 0 {
      var m: nat :| m < |nodes| && Reaches(nodes, start, m, k - 1) && n in nodes[m].graph;
      ReachableIsKnown(nodes, start, plan, m, k - 1);
      KnownGraphs(nodes, start, plan, m, n);
    }
  }

  lemma {:induction false} KnownGraphs(nodes: seq<Node>, start: nat, plan: map<nat, seq<nat>>, m: nat, n: nat)
    requires IsPlan(nodes, start, plan) && Known(nodes, start, plan, m) && m < |nodes| && n in nodes[m].graph
    ensures Known(nodes, start, plan, n)
  {
    if m in plan {
      assert IsChain(nodes, m, plan[m]) && n in Set(plan[m]);
    } else if m != start {
      StageGraphs(nodes, start, plan, m, n);
    }
  }

  /** The graph of a stage, or of a delayable of a stage, has delayables of that stage only, and no edges. */
  lemma {:induction false} StageGraphs(nodes: seq<Node>, start: nat, plan: map<nat, seq<nat>>, m: nat, n: nat)
    requires IsPlan(nodes, start, plan) && Known(nodes, start, plan, m) && m < |nodes| && m !in plan && m != start
    requires n in nodes[m].graph
    ensures InPlan(nodes, plan, n) && nodes[m].graph[n] == {}
  {
    if c, i :| c in plan && 0 <= i < |plan[c]| && m == plan[c][i] {
      assert IsChain(nodes, c, plan[c]);
      StageEnds(nodes, m);
      assert n in Members(nodes, plan[c][i]);
    } else {
      var c, i :| c in plan && 0 <= i < |plan[c]| && m in Members(nodes, plan[c][i]);
      assert IsChain(nodes, c, plan[c]);
      StageEnds(nodes, plan[c][i]);
      assert IsDelayable(nodes, m) && n in Members(nodes, plan[c][i]);
    }
  }

  lemma {:induction false} ChainsAreReachable(nodes: seq<Node>, start: nat, plan: map<nat, seq<nat>>, c: nat)
    requires IsPlan(nodes, start, plan) && c in plan
    ensures c in Reachable(nodes, start)
  {
    assert Reaches(nodes, start, start, 0);
    if start !in plan {
      OneDeeper(nodes, start, start, c);
    }
  }

  lemma {:induction false} PlanIsReachable(nodes: seq<Node>, start: nat, plan: map<nat, seq<nat>>, d: nat)
    requires IsPlan(nodes, start, plan) && InPlan(nodes, plan, d)
    ensures d in Reachable(nodes, start) && nodes[d].kind.Delayable?
  {
    var c, i :| c in plan && 0 <= i < |plan[c]| && d in Members(nodes, plan[c][i]);
    ChainsAreReachable(nodes, start, plan, c);
    assert IsChain(nodes, c, plan[c]) && plan[c][i] in Set(plan[c]);
    OneDeeper(nodes, start, c, plan[c][i]);
    StageEnds(nodes, plan[c][i]);
    OneDeeper(nodes, start, plan[c][i], d);
    assert IsDelayable(nodes, d);
  }

  lemma {:induction false} ReachableIsInPlan(nodes: seq<Node>, start: nat, plan: map<nat, seq<nat>>, d: nat)
    requires IsPlan(nodes, start, plan) && d in Reachable(nodes, start) && nodes[d].kind.Delayable?
    ensures InPlan(nodes, plan, d)
  {
    var k: nat :| Reaches(nodes, start, d, k);
    ReachableIsKnown(nodes, start, plan, d, k);
    forall c | c in plan ensures c < |nodes| && nodes[c].kind.Chain? {
      assert IsChain(nodes, c, plan[c]);
    }
    if c, i :| c in plan && 0 <= i < |plan[c]| && d == plan[c][i] {
      assert d in Members(nodes, plan[c][i]);
    }
  }

  lemma {:induction false} EdgesAreConsecutive(
    nodes: seq<Node>, start: nat, plan: map<nat, seq<nat>>, n: nat, t: nat, h: nat)
    requires IsPlan(nodes, start, plan) && n in Reachable(nodes, start)
    requires HasEdge(nodes, nodes[n].graph, nodes[n].graph.Keys, t, h)
    ensures Consecutive(nodes, plan, t, h)
  {
    var v :| v in nodes[n].graph && t in Tails(nodes, v) && h in HeadsOf(nodes, nodes[n].graph[v]);
    var w :| w in nodes[n].graph[v] && h in Heads(nodes, w);
    var k: nat :| Reaches(nodes, start, n, k);
    ReachableIsKnown(nodes, start, plan, n, k);
    if n in plan {
      EdgeOfChain(nodes, n, plan[n], v, w);
      var i :| 0 <= i < |plan[n]| - 1 && plan[n][i] == v && plan[n][i + 1] == w;
      assert t in Members(nodes, plan[n][i]) && h in Members(nodes, plan[n][i + 1]);
    } else if n != start {
      StageGraphs(nodes, start, plan, n, v);
    }
  }

  /** An edge of the graph of a chain links two consecutive stages. */
  lemma {:induction false} EdgeOfChain(nodes: seq<Node>, c: nat, stages: seq<nat>, v: nat, w: nat)
    requires IsChain(nodes, c, stages) && Edge(nodes[c].graph, v, w)
    ensures Follows(stages, v, w)
    ensures Tails(nodes, v) == Members(nodes, v) && Heads(nodes, w) == Members(nodes, w)
  {
    var i :| 0 <= i < |stages| - 1 && stages[i] == v && stages[i + 1] == w;
    StageEnds(nodes, stages[i]);
    StageEnds(nodes, stages[i + 1]);
  }

  lemma {:induction false} ConsecutiveAreEdges(nodes: seq<Node>, start: nat, plan: map<nat, seq<nat>>, t: nat, h: nat)
    requires IsPlan(nodes, start, plan) && Consecutive(nodes, plan, t, h)
    ensures LinkedInSome(nodes, Reachable(nodes, start), t, h)
  {
    var c, i :| c in plan && 0 <= i < |plan[c]| - 1
                && t in Members(nodes, plan[c][i]) && h in Members(nodes, plan[c][i + 1]);
    ChainsAreReachable(nodes, start, plan, c);
    assert IsChain(nodes, c, plan[c]);
    ChainHasEdge(nodes, c, plan[c], i, t, h);
  }

  lemma {:induction false} ChainHasEdge(nodes: seq<Node>, c: nat, stages: seq<nat>, i: nat, t: nat, h: nat)
    requires IsChain(nodes, c, stages) && i < |stages| - 1
    requires t in Members(nodes, stages[i]) && h in Members(nodes, stages[i + 1])
    ensures HasEdge(nodes, nodes[c].graph, nodes[c].graph.Keys, t, h)
  {
    var v, w := stages[i], stages[i + 1];
    assert Follows(stages, v, w) && Edge(nodes[c].graph, v, w);
    EdgeOfChain(nodes, c, stages, v, w);
    EdgeCounts(nodes, nodes[c].graph, v, w, t, h);
  }

  lemma {:induction false} EdgeCounts(nodes: seq<Node>, g: Adjacency<nat>, v: nat, w: nat, t: nat, h: nat)
    requires Edge(g, v, w) && t in Tails(nodes, v) && h in Heads(nodes, w)
    ensures HasEdge(nodes, g, g.Keys, t, h)
  {
    assert h in HeadsOf(nodes, g[v]);
  }

  /** A chain of stages, or a group of such chains, stands for its delayables, linked from each stage to the next. */
  lemma {:induction false} FlattenPlan(nodes: seq<Node>, start: nat, plan: map<nat, seq<nat>>, g: Adjacency<nat>)
    requires IsPlan(nodes, start, plan) && Merges(nodes, Reachable(nodes, start), g)
    ensures forall d :: d in g <==> InPlan(nodes, plan, d)
    ensures forall t, h :: Edge(g, t, h) <==> Consecutive(nodes, plan, t, h)
  {
    ConnectsDelayables(nodes, start, g);
    forall d ensures d in g <==> InPlan(nodes, plan, d) {
      if d in g {
        ReachableIsInPlan(nodes, start, plan, d);
      } else if InPlan(nodes, plan, d) {
        PlanIsReachable(nodes, start, plan, d);
      }
    }
    forall t, h ensures Edge(g, t, h) <==> Consecutive(nodes, plan, t, h) {
      if Edge(g, t, h) {
        var n :| n in Reachable(nodes, start) && n < |nodes|
              && HasEdge(nodes, nodes[n].graph, nodes[n].graph.Keys, t, h);
        EdgesAreConsecutive(nodes, start, plan, n, t, h);
      } else if Consecutive(nodes, plan, t, h) {
        ConsecutiveAreEdges(nodes, start, plan, t, h);
      }
    }
  }

  ghost predicate EdgesAdvance(nodes: seq<Node>, plan: map<nat, seq<nat>>, g: Adjacency<nat>) {
    forall t, h | Edge(g, t, h) :: Consecutive(nodes, plan, t, h)
  }

  lemma {:induction false} NextStage(nodes: seq<Node>, plan: map<nat, seq<nat>>, t: nat, h: nat, c: nat, i: nat)
    requires NoRepeats(nodes, plan) && Consecutive(nodes, plan, t, h)
    requires c in plan && i < |plan[c]| && t in Members(nodes, plan[c][i])
    ensures i + 1 < |plan[c]| && h in Members(nodes, plan[c][i + 1])
  {
    var d, k :| d in plan && 0 <= k < |plan[d]| - 1 && t in Members(nodes, plan[d][k])
          && h in Members(nodes, plan[d][k + 1]);
    assert !(Members(nodes, plan[c][i]) !! Members(nodes, plan[d][k]));
  }

  /** Along the edges the stage number grows. */
  lemma {:induction false} WalksAdvance(
    nodes: seq<Node>, plan: map<nat, seq<nat>>, g: Adjacency<nat>, p: seq<nat>, c: nat, i: nat)
    requires NoRepeats(nodes, plan) && EdgesAdvance(nodes, plan, g) && Closed(g)
    requires Walk(g, p) && c in plan && i < |plan[c]| && p[0] in Members(nodes, plan[c][i])
    ensures i + |p| <= |plan[c]| && p[|p| - 1] in Members(nodes, plan[c][i + |p| - 1])
    decreases |p|
  {
    if |p| > 1 {
      assert Edge(g, p[0], p[1]);
      NextStage(nodes, plan, p[0], p[1], c, i);
      forall j | 0 <= j < |p[1..]| - 1 ensures Edge(g, p[1..][j], p[1..][j + 1]) {
        assert Edge(g, p[j + 1], p[j + 2]);
      }
      WalksAdvance(nodes, plan, g, p[1..], c, i + 1);
    }
  }

  lemma {:induction false} NoCycle(nodes: seq<Node>, plan: map<nat, seq<nat>>, g: Adjacency<nat>, p: seq<nat>)
    requires NoRepeats(nodes, plan) && EdgesAdvance(nodes, plan, g) && Closed(g)
    requires Walk(g, p) && |p| > 1 && InPlan(nodes, plan, p[0])
    ensures p[0] != p[|p| - 1]
  {
    var c, i :| c in plan && 0 <= i < |plan[c]| && p[0] in Members(nodes, plan[c][i]);
    WalksAdvance(nodes, plan, g, p, c, i);
    assert Members(nodes, plan[c][i]) !! Members(nodes, plan[c][i + |p| - 1]);
  }

  lemma {:induction false} PlanIsAcyclic(nodes: seq<Node>, start: nat, plan: map<nat, seq<nat>>, g: Adjacency<nat>)
    requires IsPlan(nodes, start, plan) && NoRepeats(nodes, plan) && Merges(nodes, Reachable(nodes, start), g)
    ensures Acyclic(g)
  {
    FlattenPlan(nodes, start, plan, g);
    ConnectsDelayables(nodes, start, g);
    forall p ensures !Cycle(g, p) {
      if Cycle(g, p) {
        assert InPlan(nodes, plan, p[0]);
        NoCycle(nodes, plan, g, p);
      }
    }
  }

  // ---------------------------------------------------------------- building chains and groups

  /** The nodes made so far. */
  class Workspace {
    var nodes: seq<Node>

    constructor ()
      ensures nodes == []
    {
      nodes := [];
    }

    method NewDelayable() returns (d: nat)
      requires NodesOk(nodes)
      modifies this
      ensures NodesOk(nodes) && d == |old(nodes)| && nodes == old(nodes) + [Node(Delayable, Plain({d}))]
      ensures IsDelayable(nodes, d)
    {
      d := |nodes|;
      nodes := nodes + [Node(Delayable, Plain({d}))];
      NodesStay(old(nodes), nodes[d]);
    }

    method NewGroup(members: set<nat>) returns (g: nat)
      requires NodesOk(nodes) && forall m | m in members :: m < |nodes|
      modifies this
      ensures NodesOk(nodes) && g == |old(nodes)| && nodes == old(nodes) + [Node(Group(members), Plain(members))]
      ensures (forall d | d in members :: IsDelayable(old(nodes), d)) ==> IsStage(nodes, g)
    {
      g := |nodes|;
      nodes := nodes + [Node(Group(members), Plain(members))];
      NodesStay(old(nodes), nodes[g]);
    }

    /** Links the listed nodes one after another. */
    method NewChain(list: seq<nat>) returns (c: nat)
      requires NodesOk(nodes) && list != [] && forall i | 0 <= i < |list| :: list[i] < |nodes|
      modifies this
      ensures NodesOk(nodes) && c == |old(nodes)| && |nodes| == c + 1 && nodes[..c] == old(nodes)
      ensures nodes[c].kind == Chain(list[0], list[|list| - 1]) && nodes[c].graph.Keys == Set(list)
      ensures forall v, w :: Edge(nodes[c].graph, v, w) <==> Follows(list, v, w)
      ensures Distinct(list) && (forall i | 0 <= i < |list| :: IsStage(old(nodes), list[i])) ==> IsChain(nodes, c, list)
    {
      c := |nodes|;
      var graph, head := LinkInOrder(list);
      ChainIsOk(nodes, list, graph);
      nodes := nodes + [Node(Chain(list[0], head), graph)];
    }

    method LinkInOrder(list: seq<nat>) returns (links: Adjacency<nat>, head: nat)
      requires list != []
      ensures Closed(links) && links.Keys == Set(list) && head == list[|list| - 1]
      ensures forall v, w :: Edge(links, v, w) <==> Follows(list, v, w)
    {
      var graph := new Graph<nat>();
      head := list[0];
      graph.AddVertex(head);
      for i := 1 to |list|
        invariant fresh(graph) && graph.Valid() && head == list[i - 1] && graph.graph.Keys == Set(list[..i])
        invariant forall v, w :: Edge(graph.graph, v, w) <==> Follows(list[..i], v, w)
      {
        FollowsOneMore(list, i);
        graph.AddEdge(head, list[i]);
        head := list[i];
      }
      assert list[..|list|] == list;
      links := graph.graph;
    }

    /** The children may run once node n is done. */
    method OnDone(n: nat, children: set<nat>)
      requires NodesOk(nodes) && n < |nodes| && forall m | m in children :: m < |nodes|
      modifies this
      ensures NodesOk(nodes) && |nodes| == |old(nodes)|
      ensures forall i | 0 <= i < |nodes| && i != n :: nodes[i] == old(nodes)[i]
      ensures nodes[n].kind == old(nodes)[n].kind
      ensures forall v, w :: Edge(nodes[n].graph, v, w) <==>
                Edge(old(nodes)[n].graph, v, w) || (v in Ends(n, old(nodes)[n].kind) && w in children)
    {
      assert NodeOk(nodes, n);
      var graph := new Graph<nat>.Of(nodes[n].graph);
      ghost var before := graph.graph;
      var ends := Ends(n, nodes[n].kind);
      var parents := ends;
      while parents != {}
        invariant fresh(graph) && graph.Valid() && parents <= ends && nodes == old(nodes)
        invariant before.Keys <= graph.graph.Keys && forall v | v in graph.graph :: v < |nodes|
        invariant forall v, w :: Edge(graph.graph, v, w) <==>
                Edge(before, v, w) || (v in ends - parents && w in children)
        decreases parents
      {
        var parent :| parent in parents;
        AddEdges(graph, parent, children);
        parents := parents - {parent};
      }
      nodes := nodes[n := Node(nodes[n].kind, graph.graph)];
      forall i | 0 <= i < |nodes| ensures NodeOk(nodes, i) {
        assert NodeOk(old(nodes), i);
      }
    }

    method AddEdges(graph: Graph<nat>, parent: nat, children: set<nat>)
      requires graph.Valid()
      modifies graph
      ensures graph.Valid() && old(graph.graph).Keys <= graph.graph.Keys <= old(graph.graph).Keys + {parent} + children
      ensures forall v, w :: Edge(graph.graph, v, w) <==> Edge(old(graph.graph), v, w) || (v == parent && w in children)
    {
      ghost var before := graph.graph;
      var todo := children;
      while todo != {}
        invariant graph.Valid() && todo <= children
        invariant before.Keys <= graph.graph.Keys <= before.Keys + {parent} + children
        invariant forall v, w :: Edge(graph.graph, v, w) <==>
                Edge(before, v, w) || (v == parent && w in children - todo)
        decreases todo
      {
        var child :| child in todo;
        graph.AddEdge(parent, child);
        todo := todo - {child};
      }
    }
  }

  /** The nodes from which a node is connected to others. */
  function Ends(n: nat, kind: Kind): set<nat> {
    match kind
    case Delayable => {n}
    case Chain(first, last) => {last}
    case Group(members) => members
  }

  lemma {:induction false} NodesStay(nodes: seq<Node>, node: Node)
    requires NodesOk(nodes) && NodeOk(nodes + [node], |nodes|)
    ensures NodesOk(nodes + [node])
  {
    forall i | 0 <= i < |nodes| ensures NodeOk(nodes + [node], i) {
      assert NodeOk(nodes, i);
    }
  }

  lemma {:induction false} ChainIsOk(nodes: seq<Node>, list: seq<nat>, graph: Adjacency<nat>)
    requires NodesOk(nodes) && list != [] && forall i | 0 <= i < |list| :: list[i] < |nodes|
    requires Closed(graph) && graph.Keys == Set(list) && forall v, w :: Edge(graph, v, w) <==> Follows(list, v, w)
    ensures var chain := Node(Chain(list[0], list[|list| - 1]), graph);
            && NodesOk(nodes + [chain])
            && (Distinct(list) && (forall i | 0 <= i < |list| :: IsStage(nodes, list[i])) ==>
                  IsChain(nodes + [chain], |nodes|, list))
  {
    var chain := Node(Chain(list[0], list[|list| - 1]), graph);
    assert list[0] in Set(list) && list[|list| - 1] in Set(list);
    NodesStay(nodes, chain);
    if forall i | 0 <= i < |list| :: IsStage(nodes, list[i]) {
      forall i | 0 <= i < |list| ensures IsStage(nodes + [chain], list[i]) {
        assert IsStage(nodes, list[i]);
        if nodes[list[i]].kind.Group? {
          assert forall d | d in nodes[list[i]].kind.members :: IsDelayable(nodes, d);
        }
      }
    }
  }

  lemma {:induction false} FollowsOneMore(list: seq<nat>, i: nat)
    requires 0 < i < |list|
    ensures Set(list[..i + 1]) == Set(list[..i]) + {list[i]}
    ensures forall v, w :: Follows(list[..i + 1], v, w) <==>
            Follows(list[..i], v, w) || (v == list[i - 1] && w == list[i])
  {
    forall v, w | Follows(list[..i], v, w) ensures Follows(list[..i + 1], v, w) {
      var k :| 0 <= k < i - 1 && list[..i][k] == v && list[..i][k + 1] == w;
      assert list[..i + 1][k] == v && list[..i + 1][k + 1] == w;
    }
    assert list[..i + 1][i - 1] == list[i - 1] && list[..i + 1][i - 1 + 1] == list[i];
    assert Follows(list[..i + 1], list[i - 1], list[i]);
    forall v, w | Follows(list[..i + 1], v, w) ensures Follows(list[..i], v, w) || (v == list[i - 1] && w == list[i]) {
      var k :| 0 <= k < i && list[..i + 1][k] == v && list[..i + 1][k + 1] == w;
      if k < i - 1 {
        assert list[..i][k] == v && list[..i][k + 1] == w;
      }
    }
  }
}
