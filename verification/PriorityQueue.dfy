/** A binary heap of jobs and, on top of it, the priority queue with lazy removal. */
module PriorityQueues {
  import opened Jobs
  import opened Wrappers

  // ---------------------------------------------------------------- the heap

  function Parent(i: nat): (p: nat)
    requires i > 0
    ensures p < i
  {
    (i - 1) / 2
  }

  ghost function Elements(h: seq<Job>): set<Job> {
    set j | j in h
  }

  /**
   * What the jobs of one heap have in common, so that any two can be compared: either none has an
   * ETA, or all have one and wait in their home channel.
   */
  datatype Kind = Untimed | Timed(home: nat)

  ghost predicate Fits(e: Etas, kind: Kind, j: Job) {
    match kind
    case Untimed => EtaOf(e, j) == 0.0
    case Timed(home) => EtaOf(e, j) != 0.0 && j.channel == home
  }

  ghost predicate OfKind(e: Etas, s: set<Job>, kind: Kind) {
    forall j | j in s :: Fits(e, kind, j)
  }

  /** Jobs of one kind can be compared, and their order is a strict weak order: sorting them makes sense. */
  lemma LessSorts(e: Etas, kind: Kind, a: Job, b: Job, c: Job)
    requires Fits(e, kind, a) && Fits(e, kind, b) && Fits(e, kind, c)
    ensures !(Less(e, a, b) && Less(e, b, a))
    ensures Less(e, a, b) && Less(e, b, c) ==> Less(e, a, c)
    ensures !Less(e, a, b) && !Less(e, b, c) ==> !Less(e, a, c)
  {}

  /** Any jobs of one kind have a least one. */
  lemma {:induction false} LeastExists(e: Etas, kind: Kind, s: set<Job>) returns (least: Job)
    requires OfKind(e, s, kind) && s != {}
    ensures least in s && forall x | x in s :: !Less(e, x, least)
  {
    var j :| j in s;
    least := j;
    if s != {j} {
      assert s - {j} != {};
      var other := LeastExists(e, kind, s - {j});
      if Less(e, other, j) {
        least := other;
      }
      forall x | x in s ensures !Less(e, x, least) {
        if x != j {
          assert x in s - {j};
          LessSorts(e, kind, x, other, least);
        }
      }
    }
  }

  /**
   * Clearing ETAs cannot put the jobs of a heap out of order: the order of jobs without an ETA stays
   * as it is, and a job with an ETA moves to another heap before its ETA is cleared.
   */
  lemma {:induction false} ClearingKeepsOrder(e: Etas, kind: Kind, h: seq<Job>, moved: Job)
    requires IsHeap(e, h) && OfKind(e, Elements(h), kind) && (moved in h ==> kind.Untimed?)
    ensures IsHeap(e[moved := 0.0], h) && OfKind(e[moved := 0.0], Elements(h), kind)
  {
    var f := e[moved := 0.0];
    forall i | 0 < i < |h| ensures Ordered(f, h, i) {
      assert Ordered(e, h, i) && h[i] in Elements(h) && h[Parent(i)] in Elements(h);
    }
  }

  /** The order holds between position i and its parent. */
  ghost predicate Ordered(e: Etas, h: seq<Job>, i: nat)
    requires 0 < i < |h|
  {
    !EtaLess(e, h[i], h[Parent(i)])
  }

  ghost predicate IsHeap(e: Etas, h: seq<Job>) {
    forall i | 0 < i < |h| :: Ordered(e, h, i)
  }

  lemma {:induction false} RootIsLeast(e: Etas, h: seq<Job>, i: nat)
    requires IsHeap(e, h) && i < |h|
    ensures !EtaLess(e, h[i], h[0])
  {
    if i > 0 {
      RootIsLeast(e, h, Parent(i));
      assert Ordered(e, h, i);
    }
  }

  function Swap(h: seq<Job>, i: nat, j: nat): (r: seq<Job>)
    requires i < |h| && j < |h|
    ensures |r| == |h| && r[i] == h[j] && r[j] == h[i]
    ensures forall k | 0 <= k < |h| && k != i && k != j :: r[k] == h[k]
    ensures multiset(r) == multiset(h)
  {
    h[i := h[j]][j := h[i]]
  }

  lemma {:induction false} SameElements(h: seq<Job>, r: seq<Job>, s: set<Job>)
    requires multiset(r) == multiset(h) + multiset(s)
    ensures Elements(r) == Elements(h) + s
  {
    forall x | x in Elements(r) ensures x in Elements(h) + s {
      assert x in multiset(r);
    }
    forall x | x in Elements(h) + s ensures x in Elements(r) {
      assert x in multiset(h) + multiset(s);
      assert x in multiset(r);
    }
  }

  /** Every position is ordered below its parent, except that position `hole` may be too small. */
  ghost predicate HeapUpTo(e: Etas, h: seq<Job>, hole: nat)
    requires hole < |h|
  {
    && (forall k | 0 < k < |h| && k != hole :: Ordered(e, h, k))
    && (forall k | 0 < k < |h| && hole > 0 && Parent(k) == hole :: !EtaLess(e, h[k], h[Parent(hole)]))
  }

  /** Every position is ordered below its parent, except that position `hole` may be too large. */
  ghost predicate HeapDownFrom(e: Etas, h: seq<Job>, hole: nat)
    requires hole < |h|
  {
    && (forall k | 0 < k < |h| && Parent(k) != hole :: Ordered(e, h, k))
    && (forall k | 0 < k < |h| && hole > 0 && Parent(k) == hole :: !EtaLess(e, h[k], h[Parent(hole)]))
  }

  lemma {:induction false} SiftUpStep(e: Etas, h: seq<Job>, i: nat)
    requires 0 < i < |h| && HeapUpTo(e, h, i) && EtaLess(e, h[i], h[Parent(i)])
    ensures HeapUpTo(e, Swap(h, i, Parent(i)), Parent(i))
  {
    var p := Parent(i);
    var r := Swap(h, i, p);
    forall k | 0 < k < |r| && k != p ensures Ordered(e, r, k) {
      assert k != i ==> Ordered(e, h, k);
    }
    forall k | 0 < k < |r| && p > 0 && Parent(k) == p ensures !EtaLess(e, r[k], r[Parent(p)]) {
      assert Ordered(e, h, p) && (k != i ==> Ordered(e, h, k));
    }
  }

  lemma {:induction false} SiftDownStep(e: Etas, h: seq<Job>, i: nat, c: nat)
    requires 0 < c < |h| && Parent(c) == i && HeapDownFrom(e, h, i) && EtaLess(e, h[c], h[i])
    requires forall k | 0 < k < |h| && Parent(k) == i :: !EtaLess(e, h[k], h[c])
    ensures HeapDownFrom(e, Swap(h, i, c), c)
  {
    var r := Swap(h, i, c);
    forall k | 0 < k < |r| && Parent(k) != c ensures Ordered(e, r, k) {
      assert Parent(k) != i ==> Ordered(e, h, k);
      assert k == i ==> !EtaLess(e, h[c], h[Parent(i)]);
    }
    forall k | 0 < k < |r| && Parent(k) == c ensures !EtaLess(e, r[k], r[Parent(c)]) {
      assert Ordered(e, h, k);
    }
  }

  /** Stands for heapq.heappush. */
  method HeapPush(e: Etas, h: seq<Job>, x: Job, ghost kind: Kind) returns (r: seq<Job>)
    requires IsHeap(e, h) && OfKind(e, Elements(h) + {x}, kind)
    ensures |r| == |h| + 1 && multiset(r) == multiset(h) + multiset{x}
    ensures Elements(r) == Elements(h) + {x} && IsHeap(e, r)
  {
    r := h + [x];
    SameElements(h, r, {x});
    var i := |h|;
    forall k | 0 < k < |r| && k != i ensures Ordered(e, r, k) {
      assert Ordered(e, h, k);
    }
    assert r[i] in Elements(r);
    while i > 0 && (assert r[Parent(i)] in Elements(r); Less(e, r[i], r[Parent(i)]))
      invariant 0 <= i < |r| == |h| + 1
      invariant multiset(r) == multiset(h) + multiset{x}
      invariant Elements(r) == Elements(h) + {x} && r[i] in Elements(r)
      invariant HeapUpTo(e, r, i)
    {
      SiftUpStep(e, r, i);
      SameElements(r, Swap(r, i, Parent(i)), {});
      r := Swap(r, i, Parent(i));
      i := Parent(i);
    }
    forall k | 0 < k < |r| ensures Ordered(e, r, k) {}
  }

  lemma {:induction false} LastToRoot(e: Etas, h: seq<Job>, r: seq<Job>)
    requires IsHeap(e, h) && |h| > 1 && r == [h[|h| - 1]] + h[1..|h| - 1]
    ensures multiset(h) == multiset(r) + multiset{h[0]}
    ensures Elements(h) == Elements(r) + {h[0]} && HeapDownFrom(e, r, 0)
  {
    assert h == [h[0]] + h[1..|h| - 1] + [h[|h| - 1]];
    SameElements(r, h, {h[0]});
    forall k | 0 < k < |r| && Parent(k) != 0 ensures Ordered(e, r, k) {
      assert Ordered(e, h, k);
    }
  }

  method SmallestChild(e: Etas, h: seq<Job>, i: nat, ghost kind: Kind) returns (c: nat)
    requires 2 * i + 1 < |h| && OfKind(e, Elements(h), kind)
    ensures i < c < |h| && Parent(c) == i
    ensures forall k | 0 < k < |h| && Parent(k) == i :: !EtaLess(e, h[k], h[c])
  {
    c := 2 * i + 1;
    assert forall k | 0 <= k < |h| :: h[k] in Elements(h);
    if c + 1 < |h| && Less(e, h[c + 1], h[c]) {
      c := c + 1;
    }
    forall k | 0 < k < |h| && Parent(k) == i ensures !EtaLess(e, h[k], h[c]) {
      assert k == 2 * i + 1 || k == 2 * i + 2;
    }
  }

  method SiftDown(e: Etas, h: seq<Job>, ghost kind: Kind) returns (r: seq<Job>)
    requires |h| > 0 && HeapDownFrom(e, h, 0) && OfKind(e, Elements(h), kind)
    ensures |r| == |h| && multiset(r) == multiset(h) && Elements(r) == Elements(h) && IsHeap(e, r)
  {
    r := h;
    var i := 0;
    while 2 * i + 1 < |r|
      invariant 0 <= i < |r| == |h|
      invariant multiset(h) == multiset(r) && Elements(h) == Elements(r)
      invariant HeapDownFrom(e, r, i)
      decreases |r| - i
    {
      var c := SmallestChild(e, r, i, kind);
      assert r[c] in Elements(r) && r[i] in Elements(r);
      if !Less(e, r[c], r[i]) {
        forall k | 0 < k < |r| ensures Ordered(e, r, k) {
          assert Parent(k) == i ==> !EtaLess(e, r[k], r[c]);
        }
        return;
      }
      SiftDownStep(e, r, i, c);
      SameElements(r, Swap(r, i, c), {});
      r := Swap(r, i, c);
      i := c;
    }
    forall k | 0 < k < |r| ensures Ordered(e, r, k) {
      assert Parent(k) != i;
    }
  }

  /** Stands for heapq.heappop on a non-empty list. */
  method HeapPop(e: Etas, h: seq<Job>, ghost kind: Kind) returns (x: Job, r: seq<Job>)
    requires IsHeap(e, h) && |h| > 0 && OfKind(e, Elements(h), kind)
    ensures x == h[0] && |r| == |h| - 1 && multiset(h) == multiset(r) + multiset{x}
    ensures Elements(h) == Elements(r) + {x} && IsHeap(e, r)
    ensures forall k | 0 <= k < |h| :: !EtaLess(e, h[k], x)
  {
    x := h[0];
    forall k | 0 <= k < |h| ensures !EtaLess(e, h[k], x) {
      RootIsLeast(e, h, k);
    }
    if |h| == 1 {
      r := [];
      assert h == [x];
    } else {
      r := [h[|h| - 1]] + h[1..|h| - 1];
      LastToRoot(e, h, r);
      r := SiftDown(e, r, kind);
    }
  }

  // ---------------------------------------------------------------- a heap that holds each job once

  /** The first n positions hold the jobs of `s`, each of them once and ordered below its parent. */
  ghost predicate HeapOf(e: Etas, s: set<Job>, kind: Kind, h: seq<Job>, n: nat) {
    if n == 0 then
      s == {}
    else
      && n <= |h| && h[n - 1] in s && HeapOf(e, s - {h[n - 1]}, kind, h, n - 1)
      && Fits(e, kind, h[n - 1])
      && (n > 1 ==> Ordered(e, h, n - 1))
  }

  lemma {:induction false} HeapOfMeans(e: Etas, s: set<Job>, kind: Kind, h: seq<Job>, n: nat)
    requires n <= |h|
    ensures HeapOf(e, s, kind, h, n) <==>
            && multiset(h[..n]) == multiset(s) && OfKind(e, s, kind)
            && (forall i | 0 < i < n :: Ordered(e, h, i))
  {
    if n > 0 {
      HeapOfMeans(e, s - {h[n - 1]}, kind, h, n - 1);
      LastOf(s, h, n);
      assert h[n - 1] in s ==> s == s - {h[n - 1]} + {h[n - 1]};
    }
  }

  lemma {:induction false} LastOf(s: set<Job>, h: seq<Job>, n: nat)
    requires 0 < n <= |h|
    ensures multiset(h[..n]) == multiset(s) <==> h[n - 1] in s && multiset(h[..n - 1]) == multiset(s - {h[n - 1]})
  {
    var j := h[n - 1];
    assert h[..n] == h[..n - 1] + [j];
    assert multiset(h[..n]) == multiset(h[..n - 1]) + multiset{j};
    if multiset(h[..n]) == multiset(s) {
      assert j in multiset(h[..n]);
      MultisetOfSet(s, j);
      assert multiset(h[..n - 1]) == multiset(s) - multiset{j};
    }
    if j in s {
      MultisetOfSet(s, j);
    }
  }

  /** `h` is a heap that holds each job of `s` once, and all of them can be compared. */
  ghost predicate Holds(e: Etas, s: set<Job>, kind: Kind, h: seq<Job>) {
    HeapOf(e, s, kind, h, |h|)
  }

  lemma {:induction false} HoldsMeans(e: Etas, s: set<Job>, kind: Kind, h: seq<Job>)
    ensures Holds(e, s, kind, h) <==> IsHeap(e, h) && multiset(h) == multiset(s) && OfKind(e, s, kind)
    ensures Holds(e, s, kind, h) ==> Elements(h) == s
  {
    HeapOfMeans(e, s, kind, h, |h|);
    assert h[..|h|] == h;
    if multiset(h) == multiset(s) {
      SameElements([], h, s);
    }
  }

  lemma MultisetOfSet(s: set<Job>, o: Job)
    requires o in s
    ensures multiset(s) == multiset(s - {o}) + multiset{o}
  {}

  // ---------------------------------------------------------------- the queue

  /**
   * A priority queue that supports removing arbitrary objects: a removed object stays in the heap
   * until it reaches the top. `Live` is the set of objects that are in the queue for its users.
   */
  class PriorityQueue {
    ghost const tag: nat     // distinguishes the queues of a channel tree
    ghost const kind: Kind
    var heap: seq<Job>
    var known: set<Job>      // all objects in the heap, removed ones included
    var removed: set<Job>    // the objects in the heap that have been removed

    /** `e` has the current ETAs: no object in the heap has changed its key since it was added. */
    ghost predicate Valid(e: Etas)
      reads this
    {
      Holds(e, known, kind, heap) && removed <= known
    }

    ghost function Live(): set<Job>
      reads this
    {
      known - removed
    }

    constructor (ghost tag: nat, ghost kind: Kind)
      ensures known == {} == Live() && this.tag == tag && this.kind == kind
      ensures forall e :: Valid(e)
    {
      this.tag, this.kind := tag, kind;
      heap, known, removed := [], {}, {};
    }

    method Len(ghost e: Etas) returns (n: int)
      requires Valid(e)
      ensures n == |Live()|
    {
      n := |known| - |removed|;
      assert known == Live() + removed;
    }

    predicate Contains(o: Job): (b: bool)
      reads this
      ensures b == (o in Live())
    {
      o in known && o !in removed
    }

    /** Only the keys of the objects in the heap matter. */
    lemma ValidStays(e: Etas, f: Etas)
      requires Valid(e) && forall j | j in known :: EtaOf(e, j) == EtaOf(f, j)
      ensures Valid(f)
    {
      HoldsMeans(e, known, kind, heap);
      forall i | 0 < i < |heap| ensures Ordered(f, heap, i) {
        assert Ordered(e, heap, i) && heap[i] in Elements(heap) && heap[Parent(i)] in Elements(heap);
      }
      HoldsMeans(f, known, kind, heap);
    }

    lemma KindHolds(e: Etas)
      requires Valid(e)
      ensures OfKind(e, known, kind)
    {
      HoldsMeans(e, known, kind, heap);
    }

    lemma EmptyHeap(e: Etas)
      requires Valid(e)
      ensures heap == [] <==> known == {}
    {
      HoldsMeans(e, known, kind, heap);
    }

    /** Takes the first object off the heap. */
    method TakeTop(e: Etas) returns (o: Job)
      requires Valid(e) && heap != []
      modifies this`heap, this`known
      ensures o == old(heap)[0] && o in old(known) && known == old(known) - {o}
      ensures Holds(e, known, kind, heap) && |heap| < |old(heap)|
      ensures forall x | x in old(known) :: !EtaLess(e, x, o)
    {
      HoldsMeans(e, known, kind, heap);
      var rest;
      o, rest := HeapPop(e, heap, kind);
      assert heap[0] in Elements(heap);
      MultisetOfSet(known, o);
      assert multiset(rest) == multiset(known) - multiset{o};
      HoldsMeans(e, known - {o}, kind, rest);
      forall x | x in known ensures !EtaLess(e, x, o) {
        assert x in Elements(heap);
      }
      heap, known := rest, known - {o};
    }

    /** Drops the removed objects on top of the heap and returns the first live one. */
    method Peek(e: Etas) returns (r: Option<Job>)
      requires Valid(e)
      modifies this
      ensures Valid(e) && Live() == old(Live()) && known <= old(known)
      ensures r.None? <==> Live() == {}
      ensures r.Some? ==> r.value in Live() && forall x | x in Live() :: !EtaLess(e, x, r.value)
    {
      while heap != []
        invariant Valid(e) && Live() == old(Live()) && known <= old(known)
        decreases |heap|
      {
        var o := heap[0];
        if o in removed {
          var o2 := TakeTop(e);
          assert o2 == o;
          removed := removed - {o};
        } else {
          TopIsLeast(e);
          assert o in Live();
          return Some(o);
        }
      }
      EmptyHeap(e);
      return None;
    }

    lemma TopIsLeast(e: Etas)
      requires Valid(e) && heap != []
      ensures heap[0] in known && forall x | x in known :: !EtaLess(e, x, heap[0])
    {
      HoldsMeans(e, known, kind, heap);
      assert heap[0] in Elements(heap);
      forall x | x in known ensures !EtaLess(e, x, heap[0]) {
        assert x in Elements(heap);
        var i :| 0 <= i < |heap| && heap[i] == x;
        RootIsLeast(e, heap, i);
      }
    }

    /** Adding an object that is in the queue is a no-op; adding a removed one revives it. */
    method Add(e: Etas, o: Job)
      requires Valid(e) && Fits(e, kind, o)
      modifies this
      ensures Valid(e) && Live() == old(Live()) + {o} && known == old(known) + {o}
    {
      removed := removed - {o};
      if o !in known {
        Push(e, o);
      }
    }

    method Push(e: Etas, o: Job)
      requires Valid(e) && o !in known && Fits(e, kind, o)
      modifies this`heap, this`known
      ensures Holds(e, known, kind, heap) && known == old(known) + {o}
    {
      HoldsMeans(e, known, kind, heap);
      heap := HeapPush(e, heap, o, kind);
      known := known + {o};
      MultisetOfSet(known, o);
      HoldsMeans(e, known, kind, heap);
    }

    method Remove(o: Job)
      modifies this`removed
      ensures Live() == old(Live()) - {o}
      ensures forall e :: old(Valid(e)) ==> Valid(e)
    {
      if o in known {
        removed := removed + {o};
      }
    }

    /** Returns a least live object and takes it out of the queue. */
    method Pop(e: Etas) returns (r: Option<Job>)
      requires Valid(e)
      modifies this
      ensures Valid(e) && known <= old(known)
      ensures r.None? <==> old(Live()) == {}
      ensures r.None? ==> Live() == {}
      ensures r.Some? ==>
                && r.value in old(Live()) && Live() == old(Live()) - {r.value} && r.value !in known
                && forall x | x in old(Live()) :: !EtaLess(e, x, r.value)
    {
      while heap != []
        invariant Valid(e) && Live() == old(Live()) && known <= old(known)
        decreases |heap|
      {
        var o := TakeTop(e);
        if o in removed {
          removed := removed - {o};
        } else {
          assert o in old(Live());
          return Some(o);
        }
      }
      EmptyHeap(e);
      return None;
    }
  }
}
