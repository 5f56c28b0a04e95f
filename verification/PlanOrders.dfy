/** In which order the delayables of a plan can be executed. */
module PlanOrders {
  import opened Graphs
  import opened Flattening
  import opened Plans

  ghost predicate Precedes(order: seq<nat>, t: nat, h: nat) {
    exists i, k | 0 <= i < k < |order| :: order[i] == t && order[k] == h
  }

  /** A delayable of one stage comes before every delayable of a later stage, if no stage in between is empty. */
  lemma {:induction false} StagesInOrder(nodes: seq<Node>, plan: map<nat, seq<nat>>, g: Adjacency<nat>, order: seq<nat>,
                                         c: nat, i: nat, k: nat, t: nat, h: nat)
    requires ParentsFirst(g, order) && Set(order) == g.Keys
    requires forall t, h :: Edge(g, t, h) <==> Consecutive(nodes, plan, t, h)
    requires forall d :: d in g <==> InPlan(nodes, plan, d)
    requires c in plan && i < k < |plan[c]| && t in Members(nodes, plan[c][i]) && h in Members(nodes, plan[c][k])
    requires forall j | i < j < k :: Members(nodes, plan[c][j]) != {}
    ensures Precedes(order, t, h)
    decreases k - i
  {
    assert InPlan(nodes, plan, h) && h in Set(order);
    var n :| 0 <= n < |order| && order[n] == h;
    var m :| m in Members(nodes, plan[c][k - 1]) && (k - 1 == i ==> m == t);
    assert Consecutive(nodes, plan, m, h) && Edge(g, m, h) && m in Parents(g, h);
    var l :| 0 <= l < n && order[..n][l] == m;
    if k - 1 > i {
      StagesInOrder(nodes, plan, g, order, c, i, k - 1, t, m);
      var a, b :| 0 <= a < b < |order| && order[a] == t && order[b] == m;
      assert b == l;
    }
  }

  /** The delayables of a chain after stage j. */
  ghost function AfterStage(nodes: seq<Node>, plan: map<nat, seq<nat>>, c: nat, j: nat): set<nat>
    requires c in plan
  {
    set i, d | j < i < |plan[c]| && d in Members(nodes, plan[c][i]) :: d
  }

  /** Nothing connects what comes after an empty stage with what comes before. */
  lemma {:induction false} AfterEmptyStage(
    nodes: seq<Node>, plan: map<nat, seq<nat>>, g: Adjacency<nat>, c: nat, j: nat)
    requires NoRepeats(nodes, plan) && EdgesAdvance(nodes, plan, g)
    requires c in plan && j < |plan[c]| && Members(nodes, plan[c][j]) == {}
    ensures ParentClosed(g, AfterStage(nodes, plan, c, j))
  {
    forall d, p | d in AfterStage(nodes, plan, c, j) && p in Parents(g, d) ensures p in AfterStage(nodes, plan, c, j) {
      assert Edge(g, p, d);
      var i :| j < i < |plan[c]| && d in Members(nodes, plan[c][i]);
      PreviousStage(nodes, plan, p, d, c, i);
    }
  }

  lemma {:induction false} PreviousStage(nodes: seq<Node>, plan: map<nat, seq<nat>>, t: nat, h: nat, c: nat, i: nat)
    requires NoRepeats(nodes, plan) && Consecutive(nodes, plan, t, h)
    requires c in plan && i < |plan[c]| && h in Members(nodes, plan[c][i])
    ensures i > 0 && t in Members(nodes, plan[c][i - 1])
  {
    var d, k :| d in plan && 0 <= k < |plan[d]| - 1
                && t in Members(nodes, plan[d][k]) && h in Members(nodes, plan[d][k + 1]);
    assert !(Members(nodes, plan[c][i]) !! Members(nodes, plan[d][k + 1]));
  }

  /** What comes after an empty stage may be put before everything else. */
  lemma {:induction false} EmptyStageFirst(
    nodes: seq<Node>, start: nat, plan: map<nat, seq<nat>>, g: Adjacency<nat>, c: nat, j: nat)
    returns (first: seq<nat>)
    requires IsPlan(nodes, start, plan) && NoRepeats(nodes, plan) && Merges(nodes, Reachable(nodes, start), g)
    requires c in plan && j < |plan[c]| && Members(nodes, plan[c][j]) == {}
    ensures Closed(g) && Acyclic(g) && ParentsFirst(g, first) && Set(first) == AfterStage(nodes, plan, c, j)
  {
    ConnectsDelayables(nodes, start, g);
    PlanIsAcyclic(nodes, start, plan, g);
    FlattenPlan(nodes, start, plan, g);
    AfterEmptyStage(nodes, plan, g, c, j);
    forall d | d in AfterStage(nodes, plan, c, j) ensures d in g {
      assert InPlan(nodes, plan, d);
    }
    first := ExtendOrder(g, [], AfterStage(nodes, plan, c, j));
  }

  lemma {:induction false} EmptyStageUnordered(
    nodes: seq<Node>, start: nat, plan: map<nat, seq<nat>>, g: Adjacency<nat>, c: nat, i: nat, j: nat, k: nat,
    t: nat, h: nat) returns (order: seq<nat>)
    requires IsPlan(nodes, start, plan) && NoRepeats(nodes, plan) && Merges(nodes, Reachable(nodes, start), g)
    requires c in plan && i < j < k < |plan[c]| && Members(nodes, plan[c][j]) == {}
    requires t in Members(nodes, plan[c][i]) && h in Members(nodes, plan[c][k])
    ensures ParentsFirst(g, order) && Set(order) == g.Keys && !Precedes(order, t, h)
  {
    var first := EmptyStageFirst(nodes, start, plan, g, c, j);
    NotAfterStage(nodes, plan, c, i, j, t);
    order := ExtendOrder(g, first, g.Keys);
    assert h in AfterStage(nodes, plan, c, j);
    BeginsWithout(first, order, t, h);
  }

  /** An order that begins with h among others, but without t, does not have t before h. */
  lemma {:induction false} BeginsWithout(first: seq<nat>, order: seq<nat>, t: nat, h: nat)
    requires |first| <= |order| && order[..|first|] == first && Distinct(order)
    requires h in Set(first) && t !in Set(first)
    ensures !Precedes(order, t, h)
  {
    var l :| 0 <= l < |first| && first[l] == h;
    assert order[l] == h;
    forall a, b | 0 <= a < b < |order| && order[b] == h ensures order[a] != t {
      assert b == l && order[a] == first[a];
    }
  }

  lemma {:induction false} NotAfterStage(nodes: seq<Node>, plan: map<nat, seq<nat>>, c: nat, i: nat, j: nat, t: nat)
    requires NoRepeats(nodes, plan) && c in plan && i <= j < |plan[c]| && t in Members(nodes, plan[c][i])
    ensures t !in AfterStage(nodes, plan, c, j)
  {
    forall k | j < k < |plan[c]| ensures t !in Members(nodes, plan[c][k]) {
      assert Members(nodes, plan[c][i]) !! Members(nodes, plan[c][k]);
    }
  }

  /** Every complete order has t before h. */
  ghost predicate AlwaysPrecedes(g: Adjacency<nat>, t: nat, h: nat) {
    forall order: seq<nat> | ParentsFirst(g, order) && Set(order) == g.Keys :: Precedes(order, t, h)
  }

  /** Every complete order has a delayable before one of a later stage exactly if no stage in between is empty. */
  lemma {:induction false} StagesOrderedExactly(
    nodes: seq<Node>, start: nat, plan: map<nat, seq<nat>>, g: Adjacency<nat>, c: nat, i: nat, k: nat, t: nat,
    h: nat)
    requires IsPlan(nodes, start, plan) && NoRepeats(nodes, plan) && Merges(nodes, Reachable(nodes, start), g)
    requires c in plan && i < k < |plan[c]| && t in Members(nodes, plan[c][i]) && h in Members(nodes, plan[c][k])
    ensures AlwaysPrecedes(g, t, h) <==> forall j | i < j < k :: Members(nodes, plan[c][j]) != {}
  {
    if j :| i < j < k && Members(nodes, plan[c][j]) == {} {
      var order := EmptyStageUnordered(nodes, start, plan, g, c, i, j, k, t, h);
    } else {
      FlattenPlan(nodes, start, plan, g);
      forall order: seq<nat> | ParentsFirst(g, order) && Set(order) == g.Keys ensures Precedes(order, t, h) {
        StagesInOrder(nodes, plan, g, order, c, i, k, t, h);
      }
    }
  }

  /** A chain of node 0, the empty group 1 and node 2. */
  const Gap: seq<Node> := [
    Node(Delayable, Plain({0})), Node(Group({}), Plain({})), Node(Delayable, Plain({2})),
    Node(Chain(0, 2), map[0 := {1}, 1 := {2}, 2 := {}])]

  const GapPlan: map<nat, seq<nat>> := map[3 := [0, 1, 2]]

  lemma GapIsOk()
    ensures NodesOk(Gap) && IsStage(Gap, 0) && IsStage(Gap, 1) && IsStage(Gap, 2)
  {
    assert IsDelayable(Gap, 0) && IsDelayable(Gap, 2);
  }

  lemma GapIsChain()
    ensures IsChain(Gap, 3, [0, 1, 2])
  {
    GapIsOk();
    var list: seq<nat>, g := [0, 1, 2], Gap[3].graph;
    forall v: nat, w: nat ensures Edge(g, v, w) <==> Follows(list, v, w) {
      if Edge(g, v, w) {
        assert list[v] == v && list[v + 1] == w;
      }
    }
  }

  lemma GapIsPlan()
    ensures IsPlan(Gap, 3, GapPlan) && NoRepeats(Gap, GapPlan)
  {
    GapIsOk();
    GapIsChain();
    GapRepeatsNothing();
  }

  lemma GapRepeatsNothing()
    ensures NoRepeats(Gap, GapPlan)
  {
    assert Members(Gap, 0) == {0} && Members(Gap, 1) == {} && Members(Gap, 2) == {2};
    assert GapPlan[3][0] == 0 && GapPlan[3][1] == 1 && GapPlan[3][2] == 2;
  }

  lemma GapStages()
    ensures forall d: nat :: InPlan(Gap, GapPlan, d) <==> d == 0 || d == 2
    ensures forall t: nat, h: nat :: !Consecutive(Gap, GapPlan, t, h)
  {
    assert Members(Gap, 0) == {0} && Members(Gap, 1) == {} && Members(Gap, 2) == {2};
    assert GapPlan[3][0] == 0 && GapPlan[3][1] == 1 && GapPlan[3][2] == 2;
  }

  lemma GapConnects(g: Adjacency<nat>)
    requires Merges(Gap, Reachable(Gap, 3), g)
    ensures forall d: nat :: d in g <==> d == 0 || d == 2
    ensures forall t: nat, h: nat :: !Edge(g, t, h)
  {
    GapIsPlan();
    GapStages();
    FlattenPlan(Gap, 3, GapPlan, g);
  }

  /** The last node may be executed first: the empty group cuts the chain. */
  lemma EmptyGroupCutsChain(g: Adjacency<nat>)
    requires Merges(Gap, Reachable(Gap, 3), g)
    ensures ParentsFirst(g, [2, 0]) && Set([2, 0]) == g.Keys
  {
    GapConnects(g);
    forall d: nat, p: nat ensures p !in Parents(g, d) {
      assert !Edge(g, p, d);
    }
    assert Set([2, 0]) == {0, 2};
    assert g.Keys == {0, 2};
  }

  /** Executes the delayables of a node at once, in the order of the connected graph. */
  method ExecuteGraphDirect(nodes: seq<Node>, start: nat, ghost plan: map<nat, seq<nat>>) returns (order: seq<nat>)
    requires NodesOk(nodes) && start < |nodes|
    ensures Distinct(order) && forall d | d in order :: d in Reachable(nodes, start) && nodes[d].kind.Delayable?
    ensures IsPlan(nodes, start, plan) && NoRepeats(nodes, plan) ==> forall d :: d in order <==> InPlan(nodes, plan, d)
    ensures IsPlan(nodes, start, plan) && NoRepeats(nodes, plan) ==>
              forall c, i, k, t, h |
                c in plan && 0 <= i < k < |plan[c]| && t in Members(nodes, plan[c][i])
                && h in Members(nodes, plan[c][k])
                && (forall j | i < j < k :: Members(nodes, plan[c][j]) != {}) :: Precedes(order, t, h)
  {
    var connected := ConnectGraphs(nodes, start);
    ConnectsDelayables(nodes, start, connected);
    var graph := new Graph<nat>.Of(connected);
    order := graph.TopologicalSort();
    assert forall d | d in order :: d in Set(order);
    if IsPlan(nodes, start, plan) && NoRepeats(nodes, plan) {
      PlanIsAcyclic(nodes, start, plan, connected);
      FlattenPlan(nodes, start, plan, connected);
      assert forall d :: d in order <==> d in Set(order);
      forall c, i, k, t, h |
        c in plan && 0 <= i < k < |plan[c]| && t in Members(nodes, plan[c][i]) && h in Members(nodes, plan[c][k])
        && (forall j | i < j < k :: Members(nodes, plan[c][j]) != {})
        ensures Precedes(order, t, h)
      {
        StagesInOrder(nodes, plan, connected, order, c, i, k, t, h);
      }
    }
  }
}
