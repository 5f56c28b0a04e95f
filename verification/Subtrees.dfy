/** Which channels flow into which, and how a pass over a subtree is put together. */
module Subtrees {
  import opened Jobs
  import opened SchedulerSpec
  import opened Wrappers

  /** Channel d is channel c or flows into it. */
  ghost predicate Below(t: seq<Config>, d: int, c: int)
    requires IsTree(t) && 0 <= d < |t|
    decreases d
  {
    d == c || (d > 0 && Below(t, t[d].parent, c))
  }

  ghost function Subtree(t: seq<Config>, c: nat): set<nat>
    requires IsTree(t)
  {
    set d: nat | d < |t| && Below(t, d, c)
  }

  lemma {:induction false} BelowIsLater(t: seq<Config>, d: int, c: int)
    requires IsTree(t) && 0 <= d < |t| && Below(t, d, c)
    ensures c <= d
  {
    if d != c {
      BelowIsLater(t, t[d].parent, c);
    }
  }

  lemma {:induction false} AllBelowRoot(t: seq<Config>, d: int)
    requires IsTree(t) && 0 <= d < |t|
    ensures Below(t, d, 0)
  {
    if d > 0 {
      AllBelowRoot(t, t[d].parent);
    }
  }

  lemma {:induction false} BelowParent(t: seq<Config>, d: int, c: int)
    requires IsTree(t) && 0 <= d < |t| && 0 < c < |t| && Below(t, d, c)
    ensures Below(t, d, t[c].parent)
  {
    if d != c {
      BelowParent(t, t[d].parent, c);
    }
  }

  /** A channel below c other than c is below one of the children of c. */
  lemma {:induction false} BelowSomeChild(t: seq<Config>, d: int, c: int) returns (k: int)
    requires IsTree(t) && 0 <= d < |t| && c >= 0 && Below(t, d, c) && d != c
    ensures 0 < k < |t| && t[k].parent == c && Below(t, d, k)
  {
    if t[d].parent == c {
      k := d;
    } else {
      k := BelowSomeChild(t, t[d].parent, c);
    }
  }

  /** Two channels above the same channel are above one another. */
  lemma {:induction false} AboveIsAChain(t: seq<Config>, d: int, a: int, b: int)
    requires IsTree(t) && 0 <= d < |t| && 0 <= a < |t| && 0 <= b < |t| && Below(t, d, a) && Below(t, d, b)
    ensures Below(t, a, b) || Below(t, b, a)
  {
    if d != a && d != b {
      AboveIsAChain(t, t[d].parent, a, b);
    }
  }

  lemma {:induction false} SiblingsApart(t: seq<Config>, d: int, a: int, b: int)
    requires IsTree(t) && 0 <= d < |t| && 0 < a < |t| && 0 < b < |t| && t[a].parent == t[b].parent
    requires Below(t, d, a) && Below(t, d, b)
    ensures a == b
  {
    AboveIsAChain(t, d, a, b);
    if a != b {
      if Below(t, a, b) {
        BelowIsLater(t, t[a].parent, b);
      } else {
        BelowIsLater(t, t[b].parent, a);
      }
    }
  }

  // ---------------------------------------------------------------- a pass over part of the tree

  /** The pass has been done at the channels of D. */
  ghost predicate Passed(
    t: seq<Config>, s0: seq<Chan>, now: Time, s: seq<Chan>, f: Etas, outs: seq<seq<Job>>, D: set<nat>)
  {
    && |t| == |s0| == |s| == |outs|
    && forall d | d in D :: d < |t| && PassAt(t, s0, now, s, f, outs, d)
  }

  /** Nothing has happened yet at the channels of D. */
  ghost predicate Untouched(s0: seq<Chan>, s: seq<Chan>, outs: seq<seq<Job>>, D: set<nat>) {
    |s0| == |s| == |outs| && forall d | d in D :: d < |s| && s[d] == s0[d] && outs[d] == []
  }

  /** Channels outside D are as they were. */
  ghost predicate SameOutside(s: seq<Chan>, outs: seq<seq<Job>>, s': seq<Chan>, outs': seq<seq<Job>>, D: set<nat>) {
    && |s| == |s'| == |outs| == |outs'|
    && forall d: nat | d < |s| && d !in D :: s'[d] == s[d] && outs'[d] == outs[d]
  }

  /** Every job has the ETA it had before the pass or the one it has after it. */
  ghost predicate Between(e0: Etas, f: Etas, e: Etas) {
    e.Keys == e0.Keys == f.Keys && forall j | j in e :: e[j] == e0[j] || e[j] == f[j]
  }

  /** The jobs at home in D have their new ETA, and the others are as they were. */
  ghost predicate EtasMoved(e: Etas, e': Etas, f: Etas, D: set<nat>) {
    && e.Keys == e'.Keys == f.Keys
    && forall j | j in e :: e'[j] == if j.channel in D then f[j] else e[j]
  }

  ghost predicate EtasUntouched(e0: Etas, e: Etas, D: set<nat>) {
    e0.Keys == e.Keys && forall j | j in e && j.channel in D :: e[j] == e0[j]
  }

  /** The contract of a pass over the subtree of channel c. */
  ghost predicate CanPass(
    t: seq<Config>, s0: seq<Chan>, e0: Etas, now: Time, s: seq<Chan>, e: Etas, outs: seq<seq<Job>>, c: nat)
  {
    && IsTree(t) && |s0| == |t|
    && Untouched(s0, s, outs, Subtree(t, c))
    && Between(e0, EtasAfter(t, s0, e0, now), e) && EtasUntouched(e0, e, Subtree(t, c))
  }

  ghost predicate HasPassed(
    t: seq<Config>, s0: seq<Chan>, e0: Etas, now: Time, s: seq<Chan>, e: Etas, outs: seq<seq<Job>>, s': seq<Chan>,
    e': Etas, outs': seq<seq<Job>>, D: set<nat>)
  {
    && |s0| == |t|
    && Passed(t, s0, now, s', EtasAfter(t, s0, e0, now), outs', D)
    && SameOutside(s, outs, s', outs', D)
    && EtasMoved(e, e', EtasAfter(t, s0, e0, now), D)
  }

  /** The pass at a channel depends on what its own children yield only. */
  lemma {:induction false} PassAtStays(t: seq<Config>, s0: seq<Chan>, now: Time, s: seq<Chan>, s': seq<Chan>, f: Etas,
                    outs: seq<seq<Job>>, outs': seq<seq<Job>>, d: nat)
    requires d < |t| == |s0| == |s| == |s'| == |outs| == |outs'| && PassAt(t, s0, now, s, f, outs, d)
    requires s'[d] == s[d] && outs'[d] == outs[d]
    requires forall k | 0 <= k < |t| && t[k].parent == d :: outs'[k] == outs[k]
    ensures PassAt(t, s0, now, s', f, outs', d)
  {
    InflowStays(t, outs, outs', d);
  }

  lemma {:induction false} InflowStays(t: seq<Config>, outs: seq<seq<Job>>, outs': seq<seq<Job>>, d: nat)
    requires |t| == |outs| == |outs'| && forall k | 0 <= k < |t| && t[k].parent == d :: outs'[k] == outs[k]
    ensures Inflow(t, outs', d) == Inflow(t, outs, d)
  {}

  // ---------------------------------------------------------------- the children of a channel

  ghost function SubtreesOf(t: seq<Config>, list: seq<nat>): set<nat>
    requires IsTree(t)
  {
    if list == [] then {} else SubtreesOf(t, list[..|list| - 1]) + Subtree(t, list[|list| - 1])
  }

  /** Distinct channels with parent c. */
  ghost predicate Kids(t: seq<Config>, c: nat, list: seq<nat>) {
    && (forall k | 0 <= k < |list| :: 0 < list[k] < |t| && t[list[k]].parent == c)
    && (forall k, l | 0 <= k < l < |list| :: list[k] != list[l])
  }

  lemma {:induction false} InSubtrees(t: seq<Config>, list: seq<nat>, d: nat)
    requires IsTree(t)
    ensures d in SubtreesOf(t, list) <==> exists k | 0 <= k < |list| :: d in Subtree(t, list[k])
  {
    if list != [] {
      var n := |list| - 1;
      InSubtrees(t, list[..n], d);
      if k :| 0 <= k < |list| && d in Subtree(t, list[k]) {
        assert k < n ==> list[..n][k] == list[k];
      }
    }
  }

  /** What lies below one more child is new, and neither contains c nor a channel whose child is below. */
  lemma {:induction false} NextChild(t: seq<Config>, c: nat, list: seq<nat>, n: nat)
    requires IsTree(t) && c < |t| && Kids(t, c, list) && n < |list|
    ensures Subtree(t, list[n]) !! SubtreesOf(t, list[..n]) && c !in Subtree(t, list[n])
    ensures Subtree(t, list[n]) <= Subtree(t, c) && list[n] in Subtree(t, list[n])
    ensures SubtreesOf(t, list[..n + 1]) == SubtreesOf(t, list[..n]) + Subtree(t, list[n])
  {
    assert list[..n + 1][..n] == list[..n];
    forall d | d in Subtree(t, list[n]) ensures d !in SubtreesOf(t, list[..n]) && d != c && d in Subtree(t, c) {
      BelowIsLater(t, d, list[n]);
      BelowParent(t, d, list[n]);
      InSubtrees(t, list[..n], d);
      if k :| 0 <= k < n && d in Subtree(t, list[..n][k]) {
        SiblingsApart(t, d, list[k], list[n]);
      }
    }
  }

  lemma {:induction false} AllChildren(t: seq<Config>, c: nat, list: seq<nat>)
    requires IsTree(t) && c < |t| && Kids(t, c, list)
    requires forall d | 0 <= d < |t| && t[d].parent == c :: d in list
    ensures Subtree(t, c) == SubtreesOf(t, list) + {c} && c !in SubtreesOf(t, list)
  {
    forall d: nat ensures d in Subtree(t, c) <==> d in SubtreesOf(t, list) + {c} {
      InSubtrees(t, list, d);
      if d in Subtree(t, c) && d != c {
        var k := BelowSomeChild(t, d, c);
        var i :| 0 <= i < |list| && list[i] == k;
        assert d in Subtree(t, list[i]);
      }
      if d in SubtreesOf(t, list) {
        var k :| 0 <= k < |list| && d in Subtree(t, list[k]);
        BelowParent(t, d, list[k]);
      }
    }
    InSubtrees(t, list, c);
    if k :| 0 <= k < |list| && c in Subtree(t, list[k]) {
      BelowIsLater(t, c, list[k]);
    }
  }

  // ---------------------------------------------------------------- putting a pass together

  /** Midway through the children of c: the queue of c has what the first children yielded. */
  ghost predicate Midway(t: seq<Config>, s0: seq<Chan>, e0: Etas, now: Time, s: seq<Chan>, e: Etas, outs: seq<seq<Job>>,
                         s': seq<Chan>, e': Etas, outs': seq<seq<Job>>, c: nat, D: set<nat>)
  {
    && c < |t| == |s0| == |s'| == |outs'|
    && s'[c] == Filled(t, s0, outs', c)
    && HasPassed(t, s0, e0, now, s, e, outs, s'[c := s0[c]], e', outs', D)
    && forall j | j in Inflow(t, outs', c) :: EtaOf(e', j) == 0.0
  }

  lemma {:induction false} MidwayStart(
    t: seq<Config>, s0: seq<Chan>, e0: Etas, now: Time, s: seq<Chan>, e: Etas, outs: seq<seq<Job>>, c: nat)
    requires CanPass(t, s0, e0, now, s, e, outs, c) && c < |t| == |s|
    ensures Midway(t, s0, e0, now, s, e, outs, s, e, outs, c, {})
  {
    assert c in Subtree(t, c);
    forall d: nat | d < |t| && t[d].parent == c ensures outs[d] == [] {
      assert Below(t, d, t[d].parent);
      assert d in Subtree(t, c);
    }
    assert Inflow(t, outs, c) == {};
    assert s[c] == Filled(t, s0, outs, c);
    assert s[c := s0[c]] == s;
  }

  /** The next child may start. */
  lemma {:induction false} ChildCanPass(
    t: seq<Config>, s0: seq<Chan>, e0: Etas, now: Time, s: seq<Chan>, e: Etas, outs: seq<seq<Job>>, s': seq<Chan>,
    e': Etas, outs': seq<seq<Job>>, c: nat, list: seq<nat>, n: nat)
    requires CanPass(t, s0, e0, now, s, e, outs, c) && c < |t| == |s|
    requires Kids(t, c, list) && n < |list|
    requires Midway(t, s0, e0, now, s, e, outs, s', e', outs', c, SubtreesOf(t, list[..n]))
    ensures CanPass(t, s0, e0, now, s', e', outs', list[n])
  {
    NextChild(t, c, list, n);
    forall d | d in Subtree(t, list[n]) ensures d < |s'| && s'[d] == s0[d] && outs'[d] == [] {
      assert d in Subtree(t, c) && s'[d] == s'[c := s0[c]][d];
    }
  }

  /** The jobs that one more child has yielded are in the queue of c. */
  lemma {:induction false} ChildPassed(
    t: seq<Config>, s0: seq<Chan>, e0: Etas, now: Time, s: seq<Chan>, e: Etas, outs: seq<seq<Job>>,
    s': seq<Chan>, e': Etas, outs': seq<seq<Job>>, c: nat, list: seq<nat>, n: nat,
    s'': seq<Chan>, e'': Etas, outs'': seq<seq<Job>>)
    requires CanPass(t, s0, e0, now, s, e, outs, c) && c < |t| == |s|
    requires Kids(t, c, list) && n < |list|
    requires Midway(t, s0, e0, now, s, e, outs, s', e', outs', c, SubtreesOf(t, list[..n]))
    requires HasPassed(t, s0, e0, now, s', e', outs', s'', e'', outs'', Subtree(t, list[n]))
    requires forall j | j in outs''[list[n]] :: EtaOf(e'', j) == 0.0
    ensures Midway(t, s0, e0, now, s, e, outs, s''[c := Joined(s''[c], outs''[list[n]])], e'', outs'', c,
                   SubtreesOf(t, list[..n + 1]))
  {
    NextChild(t, c, list, n);
    ChildCanPass(t, s0, e0, now, s, e, outs, s', e', outs', c, list, n);
    var kid, f, D, K := list[n], EtasAfter(t, s0, e0, now), SubtreesOf(t, list[..n]), Subtree(t, list[n]);
    var s3 := s''[c := Joined(s''[c], outs''[kid])];
    ChildFillsQueue(t, s0, s', outs', s'', outs'', c, kid);
    ChildrenStayInside(t, list[..n]);
    assert s3[c := s0[c]] == s''[c := s0[c]] by {
      UpdatedTwice(s'', c, s3[c], s0[c]);
    }
    BothPassed(t, s0, now, f, s'[c := s0[c]], outs', D, s'', outs'', K, s3[c := s0[c]], c);
    StayZero(e0, f, e', e'', K, Inflow(t, outs', c));
  }

  lemma {:induction false} ChildFillsQueue(
    t: seq<Config>, s0: seq<Chan>, s: seq<Chan>, outs: seq<seq<Job>>, s': seq<Chan>, outs': seq<seq<Job>>, c: nat,
    kid: nat)
    requires IsTree(t) && c < |t| == |s0| == |s| == |outs| && kid < |t| && t[kid].parent == c
    requires SameOutside(s, outs, s', outs', Subtree(t, kid)) && outs[kid] == []
    requires s[c] == Filled(t, s0, outs, c) && c !in Subtree(t, kid)
    ensures Inflow(t, outs', c) == Inflow(t, outs, c) + Set(outs'[kid])
    ensures Joined(s'[c], outs'[kid]) == Filled(t, s0, outs', c)
  {
    forall k: nat | k < |t| && k != kid && t[k].parent == c ensures outs'[k] == outs[k] {
      if k in Subtree(t, kid) {
        BelowSibling(t, k, kid);
      }
    }
    assert Inflow(t, outs', c) == Inflow(t, outs, c) + Set(outs'[kid]);
  }

  /** Two parts of the tree that have passed, the second after the first. */
  lemma {:induction false} BothPassed(
    t: seq<Config>, s0: seq<Chan>, now: Time, f: Etas, s: seq<Chan>, outs: seq<seq<Job>>, D: set<nat>,
    s': seq<Chan>, outs': seq<seq<Job>>, K: set<nat>, s'': seq<Chan>, c: nat)
    requires Passed(t, s0, now, s, f, outs, D) && Passed(t, s0, now, s', f, outs', K) && D !! K
    requires |s''| == |t| && c !in D + K
    requires forall d: nat | d < |t| && d != c && d !in K :: s'[d] == s[d] && outs'[d] == outs[d]
    requires forall d: nat | d < |t| && d != c :: s''[d] == s'[d]
    requires Closed(t, D)
    ensures Passed(t, s0, now, s'', f, outs', D + K)
  {
    forall d | d in D + K ensures d < |t| && PassAt(t, s0, now, s'', f, outs', d) {
      if d in D {
        PassAtStays(t, s0, now, s, s'', f, outs, outs', d);
      } else {
        PassAtStays(t, s0, now, s', s'', f, outs', outs', d);
      }
    }
  }

  lemma {:induction false} BelowSibling(t: seq<Config>, a: nat, b: nat)
    requires IsTree(t) && 0 < a < |t| && 0 < b < |t| && t[a].parent == t[b].parent && Below(t, a, b)
    ensures a == b
  {
    SiblingsApart(t, a, a, b);
  }

  /** D has the children of all its channels. */
  ghost predicate Closed(t: seq<Config>, D: set<nat>) {
    forall d, k: nat | d in D && k < |t| && t[k].parent == d :: k in D
  }

  lemma {:induction false} ChildrenStayInside(t: seq<Config>, list: seq<nat>)
    requires IsTree(t)
    ensures Closed(t, SubtreesOf(t, list))
  {
    forall d, k: nat | d in SubtreesOf(t, list) && k < |t| && t[k].parent == d ensures k in SubtreesOf(t, list) {
      InSubtrees(t, list, d);
      var i :| 0 <= i < |list| && d in Subtree(t, list[i]);
      assert Below(t, k, list[i]);
      InSubtrees(t, list, k);
    }
  }

  lemma {:induction false} UpdatedTwice<T>(s: seq<T>, c: nat, a: T, b: T)
    requires c < |s|
    ensures s[c := a][c := b] == s[c := b]
  {}

  lemma {:induction false} StayZero(e0: Etas, f: Etas, e: Etas, e': Etas, D: set<nat>, js: set<Job>)
    requires Between(e0, f, e) && EtasMoved(e, e', f, D) && forall j | j in e0 && e0[j] == 0.0 :: f[j] == 0.0
    requires forall j | j in js :: EtaOf(e, j) == 0.0
    ensures forall j | j in js :: EtaOf(e', j) == 0.0
  {}

  // ---------------------------------------------------------------- the channel itself

  /** Only ready jobs of the queue are yielded. */
  lemma {:induction false} YieldedJobs(cfg: Config, e: Etas, ch: Chan, now: Time, out: seq<Job>)
    requires Yields(cfg, e, ch, now, out)
    ensures forall j | j in out :: j in ch.queue && EtaOf(e, j) == 0.0
    ensures forall i, k | 0 <= i < k < |out| :: out[i] != out[k]
  {
    if !Paused(cfg, ch, now) {
      forall i | 0 <= i < |out| ensures out[i] in ch.queue && EtaOf(e, out[i]) == 0.0 {
        assert Takes(cfg, e, ch, out, i);
      }
      forall i, k | 0 <= i < k < |out| ensures out[i] != out[k] {
        assert Takes(cfg, e, ch, out, k);
        assert out[..k][i] == out[i] && out[i] in Set(out[..k]);
      }
    }
  }

  lemma {:induction false} JoinOne(ch: Chan, jobs: seq<Job>, i: nat)
    requires i < |jobs|
    ensures Joined(ch, jobs[..i + 1]) == Joined(ch, jobs[..i]).(queue := Joined(ch, jobs[..i]).queue + {jobs[i]})
  {
    assert Set(jobs[..i + 1]) == Set(jobs[..i]) + {jobs[i]};
  }

  /** Only the ETAs of the queued jobs matter. */
  lemma {:induction false} YieldsStays(cfg: Config, e: Etas, f: Etas, ch: Chan, now: Time, out: seq<Job>)
    requires Yields(cfg, e, ch, now, out)
    requires Polls(cfg, ch, now) ==> forall j | j in ch.queue :: EtaOf(e, j) == EtaOf(f, j)
    ensures Yields(cfg, f, ch, now, out)
  {
    if !HasCapacity(cfg, ch) {
      assert out != [] ==> Takes(cfg, e, ch, out, 0) && After(ch, out[..0]) == ch;
      assert After(ch, []) == ch;
    } else if !Paused(cfg, ch, now) {
      forall i | 0 <= i < |out| ensures Takes(cfg, f, ch, out, i) {
        assert Takes(cfg, e, ch, out, i);
        PopsStays(cfg.sequential, e, f, After(ch, out[..i]).queue, Some(out[i]));
      }
      if Pops(cfg.sequential, e, After(ch, out).queue, None) {
        PopsStays(cfg.sequential, e, f, After(ch, out).queue, None);
      }
    }
  }

  lemma {:induction false} PopsStays(sequential: bool, e: Etas, f: Etas, q: set<Job>, r: Option<Job>)
    requires forall j | j in q :: EtaOf(e, j) == EtaOf(f, j)
    requires Pops(sequential, e, q, r)
    ensures Pops(sequential, f, q, r)
  {
    assert Ready(e, q) == Ready(f, q) && Waiting(e, q) == Waiting(f, q);
    assert HeldBack(e, q) <==> HeldBack(f, q) by {
      if w, r :| w in q && r in q && EtaLeast(e, Waiting(e, q), w) && Least(Ready(e, q), r) && KeyLess(w.key, r.key) {
        assert EtaLeast(f, Waiting(f, q), w) && Least(Ready(f, q), r);
      }
      if w, r :| w in q && r in q && EtaLeast(f, Waiting(f, q), w) && Least(Ready(f, q), r) && KeyLess(w.key, r.key) {
        assert EtaLeast(e, Waiting(e, q), w) && Least(Ready(e, q), r);
      }
    }
  }

  /** The channel itself yields after its children. */
  lemma {:induction false} HerePassed(
    t: seq<Config>, s0: seq<Chan>, e0: Etas, now: Time, s: seq<Chan>, e: Etas, outs: seq<seq<Job>>,
    s': seq<Chan>, e': Etas, outs': seq<seq<Job>>, c: nat, list: seq<nat>, e'': Etas, out: seq<Job>)
    requires CanPass(t, s0, e0, now, s, e, outs, c) && c < |t| == |s|
    requires Kids(t, c, list) && forall d | 0 <= d < |t| && t[d].parent == c :: d in list
    requires Midway(t, s0, e0, now, s, e, outs, s', e', outs', c, SubtreesOf(t, list))
    requires WaitAtHome(e', s'[c].queue, c)
    requires Yields(t[c], e'', s'[c], now, out)
    requires e'' == if Polls(t[c], s'[c], now) then Promoted(e', s'[c].queue, now) else e'
    ensures HasPassed(t, s0, e0, now, s, e, outs,
                      s'[c := Drained(t[c], s'[c], now, out)], e'', outs'[c := out], Subtree(t, c))
  {
    AllChildren(t, c, list);
    var f, D := EtasAfter(t, s0, e0, now), SubtreesOf(t, list);
    HereEtas(t, s0, e0, now, e, e', D, c, s'[c], Inflow(t, outs', c), e'');
    YieldsStays(t[c], e'', f, s'[c], now, out);
    ChildrenStayInside(t, list);
    OneMorePassed(t, s0, now, f, s'[c := s0[c]], outs', D, c, out);
    assert s'[c := s0[c]][c := Drained(t[c], s'[c], now, out)] == s'[c := Drained(t[c], s'[c], now, out)];
    assert c in Subtree(t, c);
  }

  lemma {:induction false} OneMorePassed(
    t: seq<Config>, s0: seq<Chan>, now: Time, f: Etas, s: seq<Chan>, outs: seq<seq<Job>>, D: set<nat>, c: nat,
    out: seq<Job>)
    requires IsTree(t) && c < |t| && c !in D && Passed(t, s0, now, s, f, outs, D)
    requires Yields(t[c], f, Filled(t, s0, outs, c), now, out)
    requires Closed(t, D)
    ensures Passed(t, s0, now, s[c := Drained(t[c], Filled(t, s0, outs, c), now, out)], f, outs[c := out], D + {c})
  {
    var s', outs' := s[c := Drained(t[c], Filled(t, s0, outs, c), now, out)], outs[c := out];
    assert t[c].parent != c;
    InflowStays(t, outs, outs', c);
    forall d | d in D ensures PassAt(t, s0, now, s', f, outs', d) {
      PassAtStays(t, s0, now, s, s', f, outs, outs', d);
    }
  }

  /** The ETAs after the channel itself has been polled. */
  lemma {:induction false} HereEtas(
    t: seq<Config>, s0: seq<Chan>, e0: Etas, now: Time, e: Etas, e': Etas, D: set<nat>, c: nat, ch: Chan,
    inflow: set<Job>, e'': Etas)
    requires IsTree(t) && c < |t| == |s0| && c !in D
    requires Between(e0, EtasAfter(t, s0, e0, now), e) && EtasUntouched(e0, e, D + {c})
    requires EtasMoved(e, e', EtasAfter(t, s0, e0, now), D)
    requires ch == s0[c].(queue := s0[c].queue + inflow) && forall j | j in inflow :: EtaOf(e', j) == 0.0
    requires WaitAtHome(e', ch.queue, c)
    requires e'' == if Polls(t[c], ch, now) then Promoted(e', ch.queue, now) else e'
    ensures EtasMoved(e, e'', EtasAfter(t, s0, e0, now), D + {c})
    ensures Polls(t[c], ch, now) ==> forall j | j in ch.queue :: EtaOf(e'', j) == EtaOf(EtasAfter(t, s0, e0, now), j)
  {
    var f := EtasAfter(t, s0, e0, now);
    assert Polls(t[c], ch, now) == Polls(t[c], s0[c], now);
    forall j | j in e ensures e''[j] == if j.channel in D + {c} then f[j] else e[j] {
      if j.channel == c {
        assert e'[j] == e0[j];
        assert j in ch.queue ==> j in s0[c].queue || e'[j] == 0.0;
      } else if j in ch.queue {
        assert e'[j] == 0.0;
      }
    }
  }
}
