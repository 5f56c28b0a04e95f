/** Directed graphs, the enumeration of their maximal paths, and their topological order. */
module Graphs {

  type Adjacency<V> = map<V, set<V>>

  /** Every neighbour is a vertex. */
  ghost predicate Closed<V(!new)>(g: Adjacency<V>) {
    forall u | u in g :: g[u] <= g.Keys
  }

  ghost predicate Edge<V>(g: Adjacency<V>, u: V, v: V) {
    u in g && v in g[u]
  }

  ghost function Parents<V(!new)>(g: Adjacency<V>, v: V): set<V> {
    set u | u in g && v in g[u]
  }

  ghost predicate Distinct<V>(p: seq<V>) {
    forall i, k | 0 <= i < k < |p| :: p[i] != p[k]
  }

  function Set<V>(p: seq<V>): set<V> {
    set v | v in p
  }

  lemma {:induction false} SetGrows<V>(p: seq<V>, i: nat)
    requires i < |p|
    ensures Set(p[..i + 1]) == Set(p[..i]) + {p[i]}
  {
    assert p[..i + 1] == p[..i] + [p[i]];
  }

  /** A walk along edges. */
  ghost predicate Walk<V>(g: Adjacency<V>, p: seq<V>) {
    && p != [] && p[0] in g
    && forall i | 0 <= i < |p| - 1 :: Edge(g, p[i], p[i + 1])
  }

  /** A cycle-free path that cannot be continued. */
  ghost predicate MaximalPath<V(!new)>(g: Adjacency<V>, p: seq<V>) {
    && Walk(g, p) && Distinct(p)
    && forall v | Edge(g, p[|p| - 1], v) :: v in p
  }

  ghost predicate Cycle<V>(g: Adjacency<V>, p: seq<V>) {
    Walk(g, p) && |p| > 1 && p[0] == p[|p| - 1]
  }

  ghost predicate Acyclic<V(!new)>(g: Adjacency<V>) {
    forall p :: !Cycle(g, p)
  }

  // ---------------------------------------------------------------- paths

  ghost predicate StartsWith<V>(p: seq<V>, prefix: seq<V>) {
    |prefix| <= |p| && p[..|prefix|] == prefix
  }

  /** Every maximal path that starts with `path` and continues with a vertex of `nexts`, each once, and nothing else. */
  ghost predicate FoundVia<V(!new)>(g: Adjacency<V>, path: seq<V>, nexts: set<V>, found: seq<seq<V>>) {
    && Distinct(found)
    && forall p :: p in found <==> MaximalPath(g, p) && |p| > |path| && StartsWith(p, path) && p[|path|] in nexts
  }

  /** Every maximal path that starts with `path`, each once, and nothing else. */
  ghost predicate Found<V(!new)>(g: Adjacency<V>, path: seq<V>, found: seq<seq<V>>) {
    && Distinct(found)
    && forall p :: p in found <==> MaximalPath(g, p) && StartsWith(p, path)
  }

  lemma {:induction false} FoundMore<V(!new)>(
    g: Adjacency<V>, path: seq<V>, nexts: set<V>, v: V, found: seq<seq<V>>, more: seq<seq<V>>)
    requires FoundVia(g, path, nexts, found) && v !in nexts && Found(g, path + [v], more)
    ensures FoundVia(g, path, nexts + {v}, found + more)
  {
    forall p ensures StartsWith(p, path + [v]) <==> |p| > |path| && StartsWith(p, path) && p[|path|] == v {
      if |p| > |path| {
        assert p[..|path| + 1] == p[..|path|] + [p[|path|]];
      }
    }
    forall i, k | 0 <= i < |found| && 0 <= k < |more| ensures found[i] != more[k] {
      assert found[i] in found && more[k] in more;
    }
  }

  /** A path that can be continued is found via its continuations; one that cannot is maximal itself. */
  lemma {:induction false} FoundAll<V(!new)>(g: Adjacency<V>, path: seq<V>, nexts: set<V>, found: seq<seq<V>>)
    requires Walk(g, path) && Distinct(path) && path[|path| - 1] in g
    requires nexts == set v | v in g[path[|path| - 1]] && v !in path
    requires FoundVia(g, path, nexts, found)
    ensures nexts == {} ==> found == [] && Found(g, path, [path])
    ensures nexts != {} ==> Found(g, path, found)
  {
    forall p | MaximalPath(g, p) && StartsWith(p, path) ensures if nexts == {} then p == path else p in found {
      var n := |path|;
      assert p[n - 1] == path[n - 1];
      if |p| > n {
        assert Edge(g, p[n - 1], p[n]);
        assert p[n] !in path by {
          assert forall i | 0 <= i < n :: path[i] == p[i];
        }
        assert p[n] in nexts;
      } else {
        assert p == path;
        assert forall v | v in nexts :: Edge(g, p[n - 1], v);
      }
    }
    if nexts == {} {
      assert forall i | 0 <= i < |found| :: found[i] in found;
      forall v | Edge(g, path[|path| - 1], v) ensures v in path {
        assert v !in nexts;
      }
    }
  }

  /** The search keeps the path walked so far and the set of its vertices. */
  class PathSearch<V(==,!new)> {
    const graph: Adjacency<V>
    var path: seq<V>
    var seen: set<V>

    ghost predicate Valid()
      reads this
    {
      Closed(graph) && Walk(graph, path) && Distinct(path) && seen == Set(path) && seen <= graph.Keys
    }

    constructor (graph: Adjacency<V>, vertex: V)
      requires Closed(graph) && vertex in graph
      ensures Valid() && this.graph == graph && path == [vertex]
    {
      this.graph, path, seen := graph, [vertex], {vertex};
    }

    method Search() returns (found: seq<seq<V>>)
      requires Valid()
      modifies this
      ensures Valid() && path == old(path) && seen == old(seen)
      ensures Found(graph, path, found)
      decreases graph.Keys - seen
    {
      LastIsVertex(graph, path);
      found := [];
      var deadEnd := true;
      var todo := graph[path[|path| - 1]];
      ghost var nexts := {};
      while todo != {}
        invariant Valid() && path == old(path) && seen == old(seen)
        invariant todo <= graph[path[|path| - 1]]
        invariant nexts == set v | v in graph[path[|path| - 1]] - todo && v !in path
        invariant deadEnd <==> nexts == {}
        invariant FoundVia(graph, path, nexts, found)
        decreases todo
      {
        var neighbour :| neighbour in todo;
        todo := todo - {neighbour};
        if neighbour !in seen {
          deadEnd := false;
          var more := SearchFrom(neighbour);
          FoundMore(graph, path, nexts, neighbour, found, more);
          found := found + more;
          nexts := nexts + {neighbour};
        }
      }
      FoundAll(graph, path, nexts, found);
      if deadEnd {
        found := found + [path];
      }
    }

    /** Continues the search with one more vertex, and goes back. */
    method SearchFrom(neighbour: V) returns (found: seq<seq<V>>)
      requires Valid() && Edge(graph, path[|path| - 1], neighbour) && neighbour !in seen
      modifies this
      ensures Valid() && path == old(path) && seen == old(seen)
      ensures Found(graph, path + [neighbour], found)
      decreases graph.Keys - seen, 0
    {
      seen := seen + {neighbour};
      path := path + [neighbour];
      assert Walk(graph, path);
      found := Search();
      path := path[..|path| - 1];
      seen := seen - {neighbour};
    }
  }

  lemma {:induction false} LastIsVertex<V(!new)>(g: Adjacency<V>, p: seq<V>)
    requires Closed(g) && Walk(g, p)
    ensures p[|p| - 1] in g
  {
    if |p| > 1 {
      assert Edge(g, p[|p| - 2], p[|p| - 1]);
    }
  }

  // ---------------------------------------------------------------- topological order

  /** No vertex twice, and none before one of its parents. */
  ghost predicate ParentsFirst<V(!new)>(g: Adjacency<V>, order: seq<V>) {
    && Distinct(order) && Set(order) <= g.Keys
    && forall i | 0 <= i < |order| :: Parents(g, order[i]) <= Set(order[..i])
  }

  /** Along a walk the position in the order grows. */
  lemma {:induction false} WalkGoesForward<V(!new)>(g: Adjacency<V>, order: seq<V>, p: seq<V>, i: nat, k: nat)
    requires Closed(g) && ParentsFirst(g, order) && Walk(g, p) && i < |order| && k < |order|
    requires |p| > 1 && p[0] == order[i] && p[|p| - 1] == order[k]
    ensures i < k
  {
    var q := p[..|p| - 1];
    var u := p[|p| - 2];
    assert Edge(g, u, p[|p| - 1]) && u in Parents(g, order[k]);
    var l :| 0 <= l < k && order[..k][l] == u;
    if |q| > 1 {
      forall j | 0 <= j < |q| - 1 ensures Edge(g, q[j], q[j + 1]) {
        assert Edge(g, p[j], p[j + 1]);
      }
      WalkGoesForward(g, order, q, i, l);
    }
  }

  lemma {:induction false} CompleteIsAcyclic<V(!new)>(g: Adjacency<V>, order: seq<V>)
    requires Closed(g) && ParentsFirst(g, order) && Set(order) == g.Keys
    ensures Acyclic(g)
  {
    forall p ensures !Cycle(g, p) {
      if Cycle(g, p) {
        assert p[0] in Set(order);
        var i :| 0 <= i < |order| && order[i] == p[0];
        WalkGoesForward(g, order, p, i, i);
      }
    }
  }

  ghost predicate ParentIn<V(!new)>(g: Adjacency<V>, v: V, s: set<V>) {
    exists u | u in s :: Edge(g, u, v)
  }

  /** Some parent has not been yielded yet. */
  ghost predicate OpenIn<V(!new)>(g: Adjacency<V>, v: V, done: set<V>) {
    !(Parents(g, v) <= done)
  }

  /** Where every vertex of a finite set has a parent in the set, walking backwards ends up in a cycle. */
  lemma {:induction false} BackwardsIntoCycle<V(!new)>(g: Adjacency<V>, rest: set<V>, p: seq<V>) returns (cycle: seq<V>)
    requires Walk(g, p) && Distinct(p) && Set(p) <= rest
    requires forall v {:trigger ParentIn(g, v, rest)} | v in rest :: ParentIn(g, v, rest)
    ensures Cycle(g, cycle)
    decreases rest - Set(p)
  {
    assert p[0] in Set(p);
    assert ParentIn(g, p[0], rest);
    var u :| u in rest && Edge(g, u, p[0]);
    assert Walk(g, [u] + p) by {
      forall i | 0 <= i < |p| ensures Edge(g, ([u] + p)[i], ([u] + p)[i + 1]) {
        assert i > 0 ==> Edge(g, p[i - 1], p[i]);
      }
    }
    if k :| 0 <= k < |p| && p[k] == u {
      cycle := ([u] + p)[..k + 2];
      forall i | 0 <= i < |cycle| - 1 ensures Edge(g, cycle[i], cycle[i + 1]) {
        assert Edge(g, ([u] + p)[i], ([u] + p)[i + 1]);
      }
    } else {
      assert Set([u] + p) == Set(p) + {u};
      cycle := BackwardsIntoCycle(g, rest, [u] + p);
    }
  }

  lemma StuckIsCyclic<V(!new)>(g: Adjacency<V>, done: set<V>)
    requires Closed(g) && done <= g.Keys
    requires forall v {:trigger OpenIn(g, v, done)} | v in g && v !in done :: OpenIn(g, v, done)
    requires done != g.Keys
    ensures !Acyclic(g)
  {
    var rest := g.Keys - done;
    assert g.Keys == done + rest;
    var v :| v in rest;
    forall x | x in rest ensures ParentIn(g, x, rest) {
      assert OpenIn(g, x, done);
      var u :| u in Parents(g, x) && u !in done;
      assert u in rest && Edge(g, u, x);
    }
    var p := BackwardsIntoCycle(g, rest, [v]);
  }

  ghost function Open<V(!new)>(g: Adjacency<V>, v: V, done: set<V>): nat {
    |Parents(g, v) - done|
  }

  lemma OneLessOpen<V(!new)>(g: Adjacency<V>, v: V, done: set<V>, u: V)
    requires u in g && u !in done
    ensures Open(g, v, done) == Open(g, v, done + {u}) + if v in g[u] then 1 else 0
  {
    if v in g[u] {
      assert u in Parents(g, v);
      assert Parents(g, v) - done == Parents(g, v) - (done + {u}) + {u};
    } else {
      assert Parents(g, v) - done == Parents(g, v) - (done + {u});
    }
  }

  lemma NoneOpen<V(!new)>(g: Adjacency<V>, v: V, done: set<V>)
    ensures Open(g, v, done) == 0 <==> !OpenIn(g, v, done)
  {
    if !OpenIn(g, v, done) {
      assert Parents(g, v) - done == {};
    } else {
      var u :| u in Parents(g, v) && u !in done;
      assert u in Parents(g, v) - done;
    }
  }

  /** `done` has been yielded, `queued` has no open dependency, and every other vertex has some. */
  ghost predicate Sorting<V(!new)>(g: Adjacency<V>, done: set<V>, dependsPerNode: map<V, int>, queued: set<V>) {
    && dependsPerNode.Keys == g.Keys && done <= g.Keys
    && queued <= g.Keys && done !! queued
    && (forall v | v in g :: dependsPerNode[v] == Open(g, v, done))
    && (forall v | v in g :: v in done || v in queued <==> dependsPerNode[v] == 0)
  }

  lemma NothingDone<V(!new)>(g: Adjacency<V>, v: V)
    ensures Open(g, v, {}) == |Parents(g, v)| && (|Parents(g, v)| == 0 <==> Parents(g, v) == {})
  {
    assert Parents(g, v) - {} == Parents(g, v);
  }

  lemma SortingStarts<V(!new)>(g: Adjacency<V>, count: map<V, int>, roots: set<V>)
    requires count.Keys == g.Keys && forall v | v in g :: count[v] == |Parents(g, v)|
    requires roots == set v | v in g && Parents(g, v) == {}
    ensures Sorting(g, {}, count, roots)
  {
    forall v | v in g ensures count[v] == Open(g, v, {}) && (v in roots <==> count[v] == 0) {
      NothingDone(g, v);
    }
  }

  /** `r` lists the elements of `s`, each of them once. */
  ghost predicate Lists<V>(r: seq<V>, s: set<V>) {
    Distinct(r) && Set(r) == s
  }

  lemma {:induction false} Dequeued<V>(r: seq<V>, s: set<V>)
    requires Lists(r, s) && r != []
    ensures r[0] in s && Lists(r[1..], s - {r[0]})
  {
    assert r == [r[0]] + r[1..];
  }

  lemma {:induction false} Enqueued<V>(r: seq<V>, s: set<V>, v: V)
    requires Lists(r, s) && v !in s
    ensures Lists(r + [v], s + {v})
  {}

  lemma {:induction false} OrderGrows<V(!new)>(g: Adjacency<V>, order: seq<V>, done: set<V>, v: V)
    requires ParentsFirst(g, order) && Set(order) == done && v in g && v !in done && !OpenIn(g, v, done)
    ensures ParentsFirst(g, order + [v]) && Set(order + [v]) == done + {v}
  {
    forall i | 0 <= i < |order + [v]| ensures Parents(g, (order + [v])[i]) <= Set((order + [v])[..i]) {
      assert (order + [v])[..i] == order[..i];
      assert order[..|order|] == order;
    }
  }

  lemma QueuedIsFree<V(!new)>(g: Adjacency<V>, done: set<V>, count: map<V, int>, queued: set<V>, v: V)
    requires Sorting(g, done, count, queued) && v in queued
    ensures v in g && v !in done && !OpenIn(g, v, done)
  {
    NoneOpen(g, v, done);
  }

  ghost predicate ParentClosed<V(!new)>(g: Adjacency<V>, s: set<V>) {
    forall v | v in s :: Parents(g, v) <= s
  }

  /** In an acyclic graph, the beginning of an order can be completed for any set that has all its parents. */
  lemma {:induction false} ExtendOrder<V(!new)>(g: Adjacency<V>, order: seq<V>, s: set<V>) returns (r: seq<V>)
    requires Closed(g) && Acyclic(g) && ParentsFirst(g, order) && Set(order) <= s <= g.Keys && ParentClosed(g, s)
    ensures ParentsFirst(g, r) && Set(r) == s && |order| <= |r| && r[..|order|] == order
    decreases s - Set(order)
  {
    var done := Set(order);
    if done == s {
      r := order;
    } else {
      var v := SomeIsFree(g, done, s);
      OrderGrows(g, order, done, v);
      r := ExtendOrder(g, order + [v], s);
      assert r[..|order|] == (order + [v])[..|order|] == order;
    }
  }

  lemma SomeIsFree<V(!new)>(g: Adjacency<V>, done: set<V>, s: set<V>) returns (v: V)
    requires Closed(g) && Acyclic(g) && done < s && s <= g.Keys && ParentClosed(g, s)
    ensures v in s && v !in done && !OpenIn(g, v, done)
  {
    var rest := s - done;
    var x :| x in s && x !in done;
    if forall y {:trigger ParentIn(g, y, rest)} | y in rest :: ParentIn(g, y, rest) {
      var cycle := BackwardsIntoCycle(g, rest, [x]);
    }
    v :| v in rest && !ParentIn(g, v, rest);
    forall u | u in Parents(g, v) ensures u in done {
      assert u in s && Edge(g, u, v);
    }
  }

  /** Nothing is ready any more: either all has been yielded, or the rest has a cycle. */
  lemma {:induction false} AllOrCyclic<V(!new)>(g: Adjacency<V>, order: seq<V>, count: map<V, int>)
    requires Closed(g) && ParentsFirst(g, order) && Sorting(g, Set(order), count, {})
    ensures Set(order) == g.Keys <==> Acyclic(g)
  {
    if Set(order) == g.Keys {
      CompleteIsAcyclic(g, order);
    } else {
      forall v | v in g && v !in Set(order) ensures OpenIn(g, v, Set(order)) {
        NoneOpen(g, v, Set(order));
      }
      StuckIsCyclic(g, Set(order));
    }
  }

  /** A list of the elements of a set, in any order. */
  method List<V(==)>(s: set<V>) returns (r: seq<V>)
    ensures Lists(r, s)
  {
    r := [];
    var todo := s;
    while todo != {}
      invariant todo <= s && Lists(r, s - todo)
      decreases todo
    {
      var v :| v in todo;
      Enqueued(r, s - todo, v);
      assert s - todo + {v} == s - (todo - {v});
      todo := todo - {v};
      r := r + [v];
    }
  }

  class Graph<V(==,!new)> {
    var graph: Adjacency<V>

    ghost predicate Valid()
      reads this
    {
      Closed(graph)
    }

    constructor ()
      ensures Valid() && graph == map[]
    {
      graph := map[];
    }

    constructor Of(graph: Adjacency<V>)
      requires Closed(graph)
      ensures Valid() && this.graph == graph
    {
      this.graph := graph;
    }

    method AddVertex(vertex: V)
      requires Valid()
      modifies this
      ensures Valid() && graph.Keys == old(graph.Keys) + {vertex}
      ensures forall u, v :: Edge(graph, u, v) <==> Edge(old(graph), u, v)
    {
      if vertex !in graph {
        graph := graph[vertex := {}];
      }
    }

    method AddEdge(parent: V, child: V)
      requires Valid()
      modifies this
      ensures Valid() && graph.Keys == old(graph.Keys) + {parent, child}
      ensures forall u, v :: Edge(graph, u, v) <==> Edge(old(graph), u, v) || (u == parent && v == child)
    {
      AddVertex(child);
      AddVertex(parent);
      graph := graph[parent := graph[parent] + {child}];
    }

    method Edges() returns (links: seq<(V, V)>)
      ensures Distinct(links)
      ensures forall l :: l in links <==> Edge(graph, l.0, l.1)
    {
      links := [];
      var vertices := graph.Keys;
      while vertices != {}
        invariant vertices <= graph.Keys && Distinct(links)
        invariant forall l :: l in links <==> Edge(graph, l.0, l.1) && l.0 !in vertices
        decreases vertices
      {
        var vertex :| vertex in vertices;
        vertices := vertices - {vertex};
        var neighbours := graph[vertex];
        while neighbours != {}
          invariant neighbours <= graph[vertex] && Distinct(links)
          invariant forall l :: l in links <==>
                      Edge(graph, l.0, l.1) && l.0 !in vertices && !(l.0 == vertex && l.1 in neighbours)
          decreases neighbours
        {
          var neighbour :| neighbour in neighbours;
          neighbours := neighbours - {neighbour};
          links := links + [(vertex, neighbour)];
        }
      }
    }

    /** The maximal cycle-free paths from a vertex, on any graph, cyclic or not. */
    method Paths(vertex: V) returns (found: seq<seq<V>>)
      requires Valid() && vertex in graph
      ensures Distinct(found)
      ensures forall p :: p in found <==> MaximalPath(graph, p) && p[0] == vertex
    {
      var search := new PathSearch(graph, vertex);
      found := search.Search();
      assert forall p | p != [] :: StartsWith(p, [vertex]) <==> p[0] == vertex;
    }

    /** The vertices without parents. */
    method RootVertices() returns (roots: set<V>)
      ensures roots == set v | v in graph && Parents(graph, v) == {}
    {
      var dependencies: set<V> := {};
      var todo := graph.Keys;
      while todo != {}
        invariant todo <= graph.Keys
        invariant forall v :: v in dependencies <==> exists u | u in graph.Keys - todo :: v in graph[u]
        decreases todo
      {
        var u :| u in todo;
        todo := todo - {u};
        dependencies := dependencies + graph[u];
      }
      roots := graph.Keys - dependencies;
      forall v | v in graph ensures v in dependencies <==> Parents(graph, v) != {} {
        if v in dependencies {
          var u :| u in graph && v in graph[u];
          assert u in Parents(graph, v);
        }
      }
    }

    /** For every vertex, the number of its parents. */
    method CountParents() returns (count: map<V, int>)
      requires Valid()
      ensures count.Keys == graph.Keys && forall v | v in graph :: count[v] == |Parents(graph, v)|
    {
      var edges := Edges();
      count := map v | v in graph :: 0;
      for i := 0 to |edges|
        invariant count.Keys == graph.Keys
        invariant forall v | v in graph :: count[v] == CountTo(edges[..i], v)
      {
        var tail := edges[i].1;
        assert edges[i] in edges && Edge(graph, edges[i].0, tail);
        assert edges[..i + 1][..i] == edges[..i];
        count := count[tail := count[tail] + 1];
      }
      assert edges[..|edges|] == edges;
      forall v | v in graph ensures count[v] == |Parents(graph, v)| {
        CountIsSources(edges, v);
        EdgesToParents(graph, edges, v);
      }
    }

    /**
     * Yields the vertices so that none comes before one of its parents; all of them are yielded
     * exactly if the graph has no cycle.
     */
    method TopologicalSort() returns (order: seq<V>)
      requires Valid()
      ensures ParentsFirst(graph, order)
      ensures Set(order) == graph.Keys <==> Acyclic(graph)
    {
      var dependsPerNode := CountParents();
      var roots := RootVertices();
      SortingStarts(graph, dependsPerNode, roots);
      var queue := List(roots);
      order := [];
      ghost var done: set<V>, queued := {}, roots;
      while queue != []
        invariant ParentsFirst(graph, order) && Set(order) == done && Lists(queue, queued)
        invariant Sorting(graph, done, dependsPerNode, queued)
        decreases graph.Keys - done
      {
        var vertex := queue[0];
        Dequeued(queue, queued);
        QueuedIsFree(graph, done, dependsPerNode, queued, vertex);
        OrderGrows(graph, order, done, vertex);
        queue := queue[1..];
        order := order + [vertex];
        dependsPerNode, queue, queued := Resolve(vertex, done, dependsPerNode, queue, queued);
        done := done + {vertex};
      }
      AllOrCyclic(graph, order, dependsPerNode);
    }

    /** The children of a yielded vertex have one open dependency less; those without any are ready. */
    method Resolve(vertex: V, ghost done: set<V>, dependsPerNode: map<V, int>, queue: seq<V>, ghost queued: set<V>)
      returns (depends: map<V, int>, ready: seq<V>, ghost readied: set<V>)
      requires Valid() && vertex in queued && Sorting(graph, done, dependsPerNode, queued)
      requires Lists(queue, queued - {vertex})
      ensures Lists(ready, readied) && Sorting(graph, done + {vertex}, depends, readied)
    {
      depends, ready, readied := dependsPerNode, queue, queued - {vertex};
      ResolvingStarts(graph, done, vertex, dependsPerNode, queued);
      var todo := graph[vertex];
      while todo != {}
        invariant todo <= graph[vertex] && Lists(ready, readied)
        invariant Resolving(graph[vertex] - todo, done + {vertex}, dependsPerNode, depends, readied)
        decreases todo
      {
        var node :| node in todo;
        OneResolved(graph[vertex], todo, node, done + {vertex}, dependsPerNode, depends, readied);
        todo := todo - {node};
        depends := depends[node := depends[node] - 1];
        if depends[node] == 0 {
          Enqueued(ready, readied, node);
          ready := ready + [node];
          readied := readied + {node};
        }
      }
      ResolvingEnds(graph, done, vertex, dependsPerNode, depends, readied);
    }
  }

  /** The vertices of `resolved` have one open dependency less than `before`; those without any are ready. */
  ghost predicate Resolving<V(!new)>(
    resolved: set<V>, done: set<V>, before: map<V, int>, depends: map<V, int>, ready: set<V>)
  {
    && depends.Keys == before.Keys && ready <= depends.Keys && done !! ready
    && (forall v | v in depends :: depends[v] == before[v] - if v in resolved then 1 else 0)
    && (forall v | v in depends :: v in done || v in ready <==> depends[v] == 0)
  }

  lemma ResolvingStarts<V(!new)>(g: Adjacency<V>, done: set<V>, vertex: V, before: map<V, int>, queued: set<V>)
    requires Closed(g) && vertex in queued && Sorting(g, done, before, queued)
    ensures Resolving({}, done + {vertex}, before, before, queued - {vertex})
    ensures forall v | v in g[vertex] :: v in g && before[v] > 0
  {
    forall v | v in g[vertex] ensures before[v] > 0 {
      OneLessOpen(g, v, done, vertex);
    }
  }

  lemma OneResolved<V(!new)>(
    children: set<V>, todo: set<V>, node: V, done: set<V>, before: map<V, int>, depends: map<V, int>, ready: set<V>)
    requires node in todo && todo <= children && node in depends && before.Keys == depends.Keys && before[node] > 0
    requires Resolving(children - todo, done, before, depends, ready)
    ensures var d := depends[node := depends[node] - 1];
            && node !in ready
            && Resolving(children - (todo - {node}), done, before, d, if d[node] == 0 then ready + {node} else ready)
  {}

  lemma ResolvingEnds<V(!new)>(
    g: Adjacency<V>, done: set<V>, vertex: V, before: map<V, int>, depends: map<V, int>, ready: set<V>)
    requires vertex !in done && vertex in g && done <= g.Keys && before.Keys == g.Keys
    requires forall v | v in g :: before[v] == Open(g, v, done)
    requires Resolving(g[vertex], done + {vertex}, before, depends, ready)
    ensures Sorting(g, done + {vertex}, depends, ready)
  {
    forall v | v in g ensures depends[v] == Open(g, v, done + {vertex}) {
      OneLessOpen(g, v, done, vertex);
    }
  }

  ghost function Sources<V(!new)>(edges: seq<(V, V)>, v: V): set<V> {
    set i | 0 <= i < |edges| && edges[i].1 == v :: edges[i].0
  }

  lemma {:induction false} EdgesToParents<V(!new)>(g: Adjacency<V>, edges: seq<(V, V)>, v: V)
    requires forall l :: l in edges <==> Edge(g, l.0, l.1)
    ensures Sources(edges, v) == Parents(g, v)
  {
    forall u | u in Parents(g, v) ensures u in Sources(edges, v) {
      assert Edge(g, u, v);
      assert (u, v) in edges;
    }
    forall i | 0 <= i < |edges| ensures Edge(g, edges[i].0, edges[i].1) {
      assert edges[i] in edges;
    }
  }

  function CountTo<V(==)>(edges: seq<(V, V)>, v: V): nat {
    if edges == [] then 0
    else CountTo(edges[..|edges| - 1], v) + if edges[|edges| - 1].1 == v then 1 else 0
  }

  lemma {:induction false} CountIsSources<V(!new)>(edges: seq<(V, V)>, v: V)
    requires Distinct(edges)
    ensures CountTo(edges, v) == |Sources(edges, v)|
  {
    if edges != [] {
      CountIsSources(edges[..|edges| - 1], v);
      OneMoreSource(edges, v);
    }
  }

  lemma {:induction false} OneMoreSource<V(!new)>(edges: seq<(V, V)>, v: V)
    requires Distinct(edges) && edges != []
    ensures var e, before := edges[|edges| - 1], edges[..|edges| - 1];
            if e.1 == v then e.0 !in Sources(before, v) && Sources(edges, v) == Sources(before, v) + {e.0}
            else Sources(edges, v) == Sources(before, v)
  {
    var i := |edges| - 1;
    assert forall k | 0 <= k < i :: edges[..i][k] == edges[k] && edges[k] != edges[i];
  }
}
