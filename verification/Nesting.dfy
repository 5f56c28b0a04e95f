/** Chains and groups nested in each other: when heads and tails are where a node starts and stops. */
module Nesting {
  import opened Graphs
  import opened Flattening
  import opened Plans

  /** The delayables with which a node is meant to start: those of the first node of a chain. */
  function Starts(nodes: seq<Node>, n: nat): set<nat>
    decreases n
  {
    if n >= |nodes| then {}
    else
      match nodes[n].kind
      case Delayable => {n}
      case Chain(first, last) => if first < n then Starts(nodes, first) else {}
      case Group(members) => set m, h | m in members && m < n && h in Starts(nodes, m) :: h
  }

  /** The delayables with which a node is meant to stop: those of the last node of a chain. */
  function Stops(nodes: seq<Node>, n: nat): set<nat>
    decreases n
  {
    if n >= |nodes| then {}
    else
      match nodes[n].kind
      case Delayable => {n}
      case Chain(first, last) => if last < n then Stops(nodes, last) else {}
      case Group(members) => set m, h | m in members && m < n && h in Stops(nodes, m) :: h
  }

  /** No chain of two or more nodes is reached through groups and chains of one node. */
  ghost predicate Symmetric(nodes: seq<Node>, n: nat)
    decreases n
  {
    n < |nodes| &&
    match nodes[n].kind
    case Delayable => true
    case Chain(first, last) => first == last && first < n && Symmetric(nodes, first)
    case Group(members) => forall m | m in members :: m < n && Symmetric(nodes, m)
  }

  /** Every chain begins and ends with a symmetric node; in between it may have anything. */
  ghost predicate EndsMatch(nodes: seq<Node>, all: set<nat>) {
    forall c | c in all && c < |nodes| && nodes[c].kind.Chain? ::
      Symmetric(nodes, nodes[c].kind.first) && Symmetric(nodes, nodes[c].kind.last)
  }

  /** Heads and tails are what they are meant to be. */
  ghost predicate Right(nodes: seq<Node>, n: nat) {
    Heads(nodes, n) == Starts(nodes, n) && Tails(nodes, n) == Stops(nodes, n)
  }

  /** With a node, its own nodes are in the set. */
  ghost predicate SubNodesIn(nodes: seq<Node>, all: set<nat>) {
    forall n | n in all :: n < |nodes| &&
      match nodes[n].kind
      case Delayable => true
      case Chain(first, last) => first < n && last < n && first in all && last in all
      case Group(members) => forall m | m in members :: m < n && m in all
  }

  lemma {:induction false} ReachableHasSubNodes(nodes: seq<Node>, start: nat)
    requires NodesOk(nodes)
    ensures SubNodesIn(nodes, Reachable(nodes, start))
  {
    forall n, m | n in Reachable(nodes, start) && m in nodes[n].graph ensures m in Reachable(nodes, start) {
      OneDeeper(nodes, start, n, m);
    }
    forall n | n in Reachable(nodes, start) ensures NodeOk(nodes, n) {}
  }

  // ---------------------------------------------------------------- where heads and tails are right

  lemma {:induction false} SymmetricEnds(nodes: seq<Node>, n: nat)
    requires Symmetric(nodes, n)
    ensures Heads(nodes, n) == Tails(nodes, n) == Starts(nodes, n) == Stops(nodes, n)
    decreases n
  {
    match nodes[n].kind
    case Delayable =>
    case Chain(first, last) => SymmetricEnds(nodes, first);
    case Group(members) =>
      forall m | m in members
        ensures Heads(nodes, m) == Tails(nodes, m) == Starts(nodes, m) == Stops(nodes, m)
      {
        SymmetricEnds(nodes, m);
      }
  }

  lemma {:induction false} MatchingIsRight(nodes: seq<Node>, all: set<nat>, n: nat)
    requires SubNodesIn(nodes, all) && EndsMatch(nodes, all) && n in all
    ensures Right(nodes, n)
    decreases n
  {
    match nodes[n].kind
    case Delayable =>
    case Chain(first, last) =>
      SymmetricEnds(nodes, first);
      SymmetricEnds(nodes, last);
    case Group(members) =>
      forall m | m in members ensures Right(nodes, m) {
        MatchingIsRight(nodes, all, m);
      }
  }

  // ---------------------------------------------------------------- where they are wrong

  /** The delayables with which a node can start or stop, rightly or wrongly. */
  function Outer(nodes: seq<Node>, n: nat): set<nat>
    decreases n
  {
    if n >= |nodes| then {}
    else
      match nodes[n].kind
      case Delayable => {n}
      case Chain(first, last) =>
        (if first < n then Outer(nodes, first) else {}) + (if last < n then Outer(nodes, last) else {})
      case Group(members) => set m, h | m in members && m < n && h in Outer(nodes, m) :: h
  }

  /** No group is empty, and different nodes of a chain or group have no delayables in common at their ends. */
  ghost predicate Apart(nodes: seq<Node>, all: set<nat>) {
    forall n | n in all && n < |nodes| ::
      match nodes[n].kind
      case Delayable => true
      case Chain(first, last) => first != last ==> Outer(nodes, first) !! Outer(nodes, last)
      case Group(members) =>
        && members != {}
        && forall m, k | m in members && k in members && m != k :: Outer(nodes, m) !! Outer(nodes, k)
  }

  datatype Side = Head | Tail | First | Last

  function EndOf(nodes: seq<Node>, n: nat, side: Side): set<nat> {
    match side
    case Head => Heads(nodes, n)
    case Tail => Tails(nodes, n)
    case First => Starts(nodes, n)
    case Last => Stops(nodes, n)
  }

  lemma {:induction false} EndIsOuter(nodes: seq<Node>, all: set<nat>, n: nat, side: Side)
    requires SubNodesIn(nodes, all) && Apart(nodes, all) && n in all
    ensures EndOf(nodes, n, side) != {} && EndOf(nodes, n, side) <= Outer(nodes, n)
    decreases n
  {
    match nodes[n].kind
    case Delayable =>
    case Chain(first, last) =>
      match side {
        case Head => EndIsOuter(nodes, all, first, Tail);
        case Tail => EndIsOuter(nodes, all, last, Head);
        case First => EndIsOuter(nodes, all, first, First);
        case Last => EndIsOuter(nodes, all, last, Last);
      }
    case Group(members) =>
      forall m | m in members ensures EndOf(nodes, m, side) != {} && EndOf(nodes, m, side) <= Outer(nodes, m) {
        EndIsOuter(nodes, all, m, side);
      }
      var m :| m in members;
      GroupHas(nodes, n, m);
      forall x | x in EndOf(nodes, n, side) ensures x in Outer(nodes, n) {
        var k :| k in members && x in EndOf(nodes, k, side);
        assert x in Outer(nodes, k);
      }
  }

  lemma {:induction false} EndsAreOuter(nodes: seq<Node>, all: set<nat>, n: nat)
    requires SubNodesIn(nodes, all) && Apart(nodes, all) && n in all
    ensures Heads(nodes, n) != {} && Tails(nodes, n) != {} && Starts(nodes, n) != {} && Stops(nodes, n) != {}
    ensures Heads(nodes, n) + Tails(nodes, n) + Starts(nodes, n) + Stops(nodes, n) <= Outer(nodes, n)
  {
    EndIsOuter(nodes, all, n, Head);
    EndIsOuter(nodes, all, n, Tail);
    EndIsOuter(nodes, all, n, First);
    EndIsOuter(nodes, all, n, Last);
  }

  lemma {:induction false} GroupHas(nodes: seq<Node>, n: nat, m: nat)
    requires n < |nodes| && nodes[n].kind.Group? && m in nodes[n].kind.members && m < n
    ensures Heads(nodes, m) <= Heads(nodes, n) && Tails(nodes, m) <= Tails(nodes, n)
    ensures Starts(nodes, m) <= Starts(nodes, n) && Stops(nodes, m) <= Stops(nodes, n)
  {}

  /** If every node is right, a node whose tails are its starts, or whose heads are its stops, is symmetric. */
  lemma {:induction false} MustBeSymmetric(nodes: seq<Node>, all: set<nat>, n: nat)
    requires SubNodesIn(nodes, all) && Apart(nodes, all) && n in all && forall k | k in all :: Right(nodes, k)
    requires Tails(nodes, n) == Starts(nodes, n) || Heads(nodes, n) == Stops(nodes, n)
    ensures Symmetric(nodes, n)
    decreases n
  {
    match nodes[n].kind
    case Delayable =>
    case Chain(first, last) =>
      EndsAreOuter(nodes, all, first);
      EndsAreOuter(nodes, all, last);
      assert Right(nodes, n);
      MustBeSymmetric(nodes, all, first);
    case Group(members) =>
      forall m | m in members ensures Symmetric(nodes, m) {
        MemberMatches(nodes, all, n, m);
        MustBeSymmetric(nodes, all, m);
      }
  }

  lemma {:induction false} MemberMatches(nodes: seq<Node>, all: set<nat>, n: nat, m: nat)
    requires SubNodesIn(nodes, all) && Apart(nodes, all) && n in all && nodes[n].kind.Group?
    requires m in nodes[n].kind.members
    ensures Tails(nodes, n) == Starts(nodes, n) ==> Tails(nodes, m) == Starts(nodes, m)
    ensures Heads(nodes, n) == Stops(nodes, n) ==> Heads(nodes, m) == Stops(nodes, m)
  {
    forall k | k in nodes[n].kind.members
      ensures Heads(nodes, k) + Tails(nodes, k) + Starts(nodes, k) + Stops(nodes, k) <= Outer(nodes, k)
    {
      EndsAreOuter(nodes, all, k);
    }
    GroupHas(nodes, n, m);
    forall x | x in Outer(nodes, m)
      ensures x in Tails(nodes, n) <==> x in Tails(nodes, m)
      ensures x in Starts(nodes, n) <==> x in Starts(nodes, m)
      ensures x in Heads(nodes, n) <==> x in Heads(nodes, m)
      ensures x in Stops(nodes, n) <==> x in Stops(nodes, m)
    {
      assert forall k | k in nodes[n].kind.members && k != m :: x !in Outer(nodes, k);
    }
  }

  /**
   * The heads and tails of all nodes are where they start and stop exactly if no chain begins or ends,
   * through groups and chains of one node, with a chain of several nodes.
   */
  lemma {:induction false} HeadsAreStarts(nodes: seq<Node>, all: set<nat>)
    requires SubNodesIn(nodes, all)
    ensures EndsMatch(nodes, all) ==> forall n | n in all :: Right(nodes, n)
    ensures Apart(nodes, all) && (forall n | n in all :: Right(nodes, n)) ==> EndsMatch(nodes, all)
  {
    if EndsMatch(nodes, all) {
      forall n | n in all ensures Right(nodes, n) {
        MatchingIsRight(nodes, all, n);
      }
    }
    if Apart(nodes, all) && forall n | n in all :: Right(nodes, n) {
      forall c | c in all && c < |nodes| && nodes[c].kind.Chain?
        ensures Symmetric(nodes, nodes[c].kind.first) && Symmetric(nodes, nodes[c].kind.last)
      {
        assert Right(nodes, c);
        MustBeSymmetric(nodes, all, nodes[c].kind.first);
        MustBeSymmetric(nodes, all, nodes[c].kind.last);
      }
    }
  }

  // ---------------------------------------------------------------- the connected graph

  /** A node of some reachable graph stops with t, and one that comes next to it starts with h. */
  ghost predicate Meant(nodes: seq<Node>, all: set<nat>, t: nat, h: nat) {
    exists n, v, w | n in all && n < |nodes| && Edge(nodes[n].graph, v, w) ::
      t in Stops(nodes, v) && h in Starts(nodes, w)
  }

  /** Nodes nested in any way connect as they are meant to, if the ends of all chains match. */
  lemma {:induction false} FlattenNested(nodes: seq<Node>, start: nat, g: Adjacency<nat>)
    requires NodesOk(nodes) && start < |nodes| && Merges(nodes, Reachable(nodes, start), g)
    requires EndsMatch(nodes, Reachable(nodes, start))
    ensures forall d :: d in g <==> d in Reachable(nodes, start) && nodes[d].kind.Delayable?
    ensures forall t, h :: Edge(g, t, h) <==> Meant(nodes, Reachable(nodes, start), t, h)
  {
    var all := Reachable(nodes, start);
    ConnectsDelayables(nodes, start, g);
    ReachableHasSubNodes(nodes, start);
    forall t, h ensures LinkedInSome(nodes, all, t, h) <==> Meant(nodes, all, t, h) {
      if LinkedInSome(nodes, all, t, h) {
        LinkedIsMeant(nodes, start, t, h);
      } else if Meant(nodes, all, t, h) {
        MeantIsLinked(nodes, start, t, h);
      }
    }
  }

  lemma {:induction false} LinkedIsMeant(nodes: seq<Node>, start: nat, t: nat, h: nat)
    requires NodesOk(nodes) && EndsMatch(nodes, Reachable(nodes, start)) && SubNodesIn(nodes, Reachable(nodes, start))
    requires LinkedInSome(nodes, Reachable(nodes, start), t, h)
    ensures Meant(nodes, Reachable(nodes, start), t, h)
  {
    var all := Reachable(nodes, start);
    var n :| n in all && n < |nodes| && HasEdge(nodes, nodes[n].graph, nodes[n].graph.Keys, t, h);
    var v :| v in nodes[n].graph && t in Tails(nodes, v) && h in HeadsOf(nodes, nodes[n].graph[v]);
    var w :| w in nodes[n].graph[v] && h in Heads(nodes, w);
    RightAlong(nodes, start, n, v, w);
    assert Edge(nodes[n].graph, v, w);
  }

  lemma {:induction false} MeantIsLinked(nodes: seq<Node>, start: nat, t: nat, h: nat)
    requires NodesOk(nodes) && EndsMatch(nodes, Reachable(nodes, start)) && SubNodesIn(nodes, Reachable(nodes, start))
    requires Meant(nodes, Reachable(nodes, start), t, h)
    ensures LinkedInSome(nodes, Reachable(nodes, start), t, h)
  {
    var all := Reachable(nodes, start);
    var n, v, w :| n in all && n < |nodes| && Edge(nodes[n].graph, v, w) && t in Stops(nodes, v)
                   && h in Starts(nodes, w);
    RightAlong(nodes, start, n, v, w);
    assert h in HeadsOf(nodes, nodes[n].graph[v]);
    assert HasEdge(nodes, nodes[n].graph, nodes[n].graph.Keys, t, h);
  }

  lemma {:induction false} RightAlong(nodes: seq<Node>, start: nat, n: nat, v: nat, w: nat)
    requires NodesOk(nodes) && EndsMatch(nodes, Reachable(nodes, start)) && SubNodesIn(nodes, Reachable(nodes, start))
    requires n in Reachable(nodes, start) && Edge(nodes[n].graph, v, w)
    ensures Right(nodes, v) && Right(nodes, w)
  {
    assert NodeOk(nodes, n);
    OneDeeper(nodes, start, n, v);
    OneDeeper(nodes, start, n, w);
    MatchingIsRight(nodes, Reachable(nodes, start), v);
    MatchingIsRight(nodes, Reachable(nodes, start), w);
  }

  // ---------------------------------------------------------------- what comes after a node

  /** The nodes to which `on_done` attaches others are where the node stops. */
  lemma {:induction false} AttachedWhereItStops(nodes: seq<Node>, n: nat, d: nat)
    requires NodesOk(nodes) && n < |nodes|
    ensures d in Stops(nodes, n) <==> exists v | v in Ends(n, nodes[n].kind) :: d in Stops(nodes, v)
  {
    assert NodeOk(nodes, n);
    match nodes[n].kind
    case Delayable =>
    case Chain(first, last) => assert last in Ends(n, nodes[n].kind);
    case Group(members) =>
  }

  // ---------------------------------------------------------------- a chain that starts with a chain

  /** A chain of node 5 and node 4, which is a chain of node 2 and node 3; node 2 is the chain of nodes 0 and 1. */
  const Nested: seq<Node> := [
    Node(Delayable, Plain({0})),
    Node(Delayable, Plain({1})),
    Node(Chain(0, 1), map[0 := {1}, 1 := {}]),
    Node(Delayable, Plain({3})),
    Node(Chain(2, 3), map[2 := {3}, 3 := {}]),
    Node(Delayable, Plain({5})),
    Node(Chain(5, 4), map[5 := {4}, 4 := {}])]

  lemma NestedIsOk()
    ensures NodesOk(Nested)
  {
    assert NodeOk(Nested, 0) && NodeOk(Nested, 1) && NodeOk(Nested, 3) && NodeOk(Nested, 5);
    ChainsAreOk();
  }

  lemma ChainsAreOk()
    ensures NodeOk(Nested, 2) && NodeOk(Nested, 4) && NodeOk(Nested, 6)
  {
    assert Nested[2].graph.Keys == {0, 1} && Nested[4].graph.Keys == {2, 3} && Nested[6].graph.Keys == {4, 5};
  }

  lemma NestedEnds()
    ensures Heads(Nested, 4) == {1} && Starts(Nested, 4) == {0} && Stops(Nested, 5) == {5}
    ensures forall v | 0 <= v < |Nested| && 5 in Tails(Nested, v) :: v == 5
  {
    assert Tails(Nested, 0) == {0} && Heads(Nested, 1) == {1} == Tails(Nested, 1);
    assert Heads(Nested, 3) == {3} == Tails(Nested, 3) && Tails(Nested, 5) == {5};
    assert Tails(Nested, 2) == Heads(Nested, 1);
    assert Heads(Nested, 4) == Tails(Nested, 2) && Tails(Nested, 4) == Heads(Nested, 3);
    assert Starts(Nested, 4) == Starts(Nested, 2) == Starts(Nested, 0);
    assert Tails(Nested, 6) == Heads(Nested, 4);
  }

  /**
   * Node 0 is meant to wait for node 5, but node 1 waits for it instead, and node 0 waits for nothing:
   * the head of the chain in node 4 is where the chain in node 2 stops, not where it starts.
   */
  lemma NestedConnectsWrongly(g: Adjacency<nat>)
    requires Merges(Nested, Reachable(Nested, 6), g)
    ensures Meant(Nested, Reachable(Nested, 6), 5, 0) && !Edge(g, 5, 0) && Edge(g, 5, 1)
    ensures !EndsMatch(Nested, Reachable(Nested, 6))
  {
    var all := Reachable(Nested, 6);
    NestedIsOk();
    NestedEnds();
    NestedReaches();
    assert Edge(Nested[6].graph, 5, 4);
    assert 1 in HeadsOf(Nested, Nested[6].graph[5]);
    assert HasEdge(Nested, Nested[6].graph, Nested[6].graph.Keys, 5, 1);
    assert LinkedInSome(Nested, all, 5, 1);
    if LinkedInSome(Nested, all, 5, 0) {
      var n :| n in all && n < |Nested| && HasEdge(Nested, Nested[n].graph, Nested[n].graph.Keys, 5, 0);
      NotLinked(n);
    }
    assert !Symmetric(Nested, 2);
  }

  lemma NestedReaches()
    requires NodesOk(Nested)
    ensures 6 in Reachable(Nested, 6) && 4 in Reachable(Nested, 6)
  {
    assert Reaches(Nested, 6, 6, 0);
    OneDeeper(Nested, 6, 6, 4);
  }

  lemma NotLinked(n: nat)
    requires n < |Nested|
    ensures !HasEdge(Nested, Nested[n].graph, Nested[n].graph.Keys, 5, 0)
  {
    NestedEnds();
    NestedIsOk();
    assert NodeOk(Nested, n);
    if v :| v in Nested[n].graph && 5 in Tails(Nested, v) {
      assert v == 5;
      assert HeadsOf(Nested, Nested[n].graph[v]) <= {1};
    }
  }
}
