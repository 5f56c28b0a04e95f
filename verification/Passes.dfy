/** What one pass over all channels does to every job and every channel. */
module Passes {
  import opened Jobs
  import opened Wrappers
  import opened SchedulerSpec
  import opened Subtrees
  import opened JobFlow

  // ---------------------------------------------------------------- what is yielded

  /** Every job is somewhere only on the path from its home channel to the root. */
  ghost predicate QueuesFromBelow(t: seq<Config>, s: seq<Chan>) {
    && IsTree(t) && |s| == |t|
    && forall c, j | 0 <= c < |t| && j in s[c].queue :: j.channel < |t| && Below(t, j.channel, c)
  }

  lemma {:induction false} YieldedFromBelow(t: seq<Config>, a: Sched, now: Time, b: Sched, outs: seq<seq<Job>>, c: nat)
    requires QueuesFromBelow(t, a.ch) && Pass(t, a, now, b, outs) && c < |t|
    ensures forall j | j in outs[c] :: j in Filled(t, a.ch, outs, c).queue && EtaOf(b.eta, j) == 0.0
    ensures forall j | j in Filled(t, a.ch, outs, c).queue :: j.channel < |t| && Below(t, j.channel, c)
    decreases |t| - c
  {
    assert PassAt(t, a.ch, now, b.ch, b.eta, outs, c);
    YieldedJobs(t[c], b.eta, Filled(t, a.ch, outs, c), now, outs[c]);
    forall j | j in Filled(t, a.ch, outs, c).queue ensures j.channel < |t| && Below(t, j.channel, c) {
      if j !in a.ch[c].queue {
        var d :| 0 <= d < |t| && t[d].parent == c && j in outs[d];
        YieldedFromBelow(t, a, now, b, outs, d);
        BelowParent(t, j.channel, d);
      }
    }
  }

  /** A job flows into a channel only from the channel below it on its path. */
  lemma {:induction false} InflowFrom(
    t: seq<Config>, a: Sched, now: Time, b: Sched, outs: seq<seq<Job>>, d: nat, j: Job)
    requires QueuesFromBelow(t, a.ch) && Pass(t, a, now, b, outs) && 0 < d < |t|
    requires j.channel < |t| && Below(t, j.channel, d)
    ensures j in Inflow(t, outs, t[d].parent) <==> j in outs[d]
  {
    if k :| 0 <= k < |t| && t[k].parent == t[d].parent && j in outs[k] {
      YieldedFromBelow(t, a, now, b, outs, k);
      SiblingsApart(t, j.channel, d, k);
    }
  }

  lemma {:induction false} NoInflowAtHome(t: seq<Config>, a: Sched, now: Time, b: Sched, outs: seq<seq<Job>>, j: Job)
    requires QueuesFromBelow(t, a.ch) && Pass(t, a, now, b, outs) && j.channel < |t|
    ensures j !in Inflow(t, outs, j.channel)
  {
    if d :| 0 <= d < |t| && t[d].parent == j.channel && j in outs[d] {
      YieldedFromBelow(t, a, now, b, outs, d);
      BelowIsLater(t, j.channel, d);
    }
  }

  // ---------------------------------------------------------------- the pass keeps the shapes

  /** From where a job is before the pass, and whether it comes in, to where it is afterwards. */
  lemma {:induction false} PlaceAfter(
    t: seq<Config>, a: Sched, now: Time, b: Sched, outs: seq<seq<Job>>, c: nat, j: Job)
    requires QueuesFromBelow(t, a.ch) && Pass(t, a, now, b, outs) && c < |t|
    requires PlaceOf(a.ch[c], j) != Mixed
    requires j in Inflow(t, outs, c) ==> PlaceOf(a.ch[c], j) == Nowhere
    ensures j in outs[c] ==> j in Inflow(t, outs, c) || PlaceOf(a.ch[c], j) == Queued
    ensures PlaceOf(b.ch[c], j) == if j in outs[c] then Running
                                   else if j in Inflow(t, outs, c) then Queued else PlaceOf(a.ch[c], j)
  {
    assert PassAt(t, a.ch, now, b.ch, b.eta, outs, c);
    YieldedFromBelow(t, a, now, b, outs, c);
  }

  lemma {:induction false} PathAfter(t: seq<Config>, a: Sched, now: Time, b: Sched, outs: seq<seq<Job>>, c: int, j: Job)
    requires QueuesFromBelow(t, a.ch) && Pass(t, a, now, b, outs) && At(t, a.ch, c)
    requires c >= 0 ==> j.channel < |t| && Below(t, j.channel, c)
    requires Clean(t, a.ch, c, j) || Flows(t, a.ch, c, j)
    requires c >= 0 && j in Inflow(t, outs, c) ==> Clean(t, a.ch, c, j)
    ensures Clean(t, a.ch, c, j) && !(c >= 0 && j in Inflow(t, outs, c)) ==> Clean(t, b.ch, c, j)
    ensures Flows(t, a.ch, c, j) || (c >= 0 && j in Inflow(t, outs, c)) ==> Flows(t, b.ch, c, j)
    decreases c + 1
  {
    if c >= 0 {
      PlaceAfter(t, a, now, b, outs, c, j);
      if c > 0 {
        InflowFrom(t, a, now, b, outs, c, j);
        BelowParent(t, j.channel, c);
      }
      PathAfter(t, a, now, b, outs, t[c].parent, j);
    }
  }

  lemma {:induction false} PassKeepsShape(t: seq<Config>, a: Sched, now: Time, b: Sched, outs: seq<seq<Job>>, j: Job)
    requires QueuesFromBelow(t, a.ch) && Pass(t, a, now, b, outs) && Shaped(t, a.ch, j)
    ensures Shaped(t, b.ch, j)
  {
    forall c | 0 <= c < |t| && !(j.channel < |t| && Below(t, j.channel, c)) ensures PlaceOf(b.ch[c], j) == Nowhere {
      YieldedFromBelow(t, a, now, b, outs, c);
      assert Inflow(t, outs, c) <= Filled(t, a.ch, outs, c).queue;
      PlaceAfter(t, a, now, b, outs, c, j);
    }
    var h := j.channel;
    if h < |t| {
      NoInflowAtHome(t, a, now, b, outs, j);
      if PlaceOf(a.ch[h], j) == Failed {
        PlaceAfter(t, a, now, b, outs, h, j);
        if h > 0 {
          InflowFrom(t, a, now, b, outs, h, j);
          BelowParent(t, h, h);
        }
        PathAfter(t, a, now, b, outs, t[h].parent, j);
      } else {
        PathAfter(t, a, now, b, outs, h, j);
      }
    }
  }

  lemma {:induction false} PassKeepsShapes(t: seq<Config>, a: Sched, now: Time, b: Sched, outs: seq<seq<Job>>)
    requires AllShaped(t, a.ch) && Pass(t, a, now, b, outs)
    ensures AllShaped(t, b.ch) && QueuesFromBelow(t, a.ch)
    ensures forall j | j in outs[0] :: PlaceOf(b.ch[0], j) == Running
  {
    assert QueuesFromBelow(t, a.ch) by {
      forall c, j | 0 <= c < |t| && j in a.ch[c].queue ensures j.channel < |t| && Below(t, j.channel, c) {
        assert Shaped(t, a.ch, j) && PlaceOf(a.ch[c], j) != Nowhere;
      }
    }
    forall j ensures Shaped(t, b.ch, j) {
      PassKeepsShape(t, a, now, b, outs, j);
    }
    forall j | j in outs[0] ensures PlaceOf(b.ch[0], j) == Running {
      YieldedFromBelow(t, a, now, b, outs, 0);
      assert Shaped(t, b.ch, j) && PassAt(t, a.ch, now, b.ch, b.eta, outs, 0);
      assert j in b.ch[0].running;
      ShapeAt(t, b.ch, 0, j);
    }
  }

  // ---------------------------------------------------------------- the pass respects the capacities

  ghost predicate WithinCapacity(cfg: Config, ch: Chan) {
    cfg.capacity != 0 ==> |ch.running| <= if cfg.capacity > 0 then cfg.capacity else 0
  }

  lemma {:induction false} OneMoreRuns(cfg: Config, ch: Chan, out: seq<Job>)
    requires out != [] && HasCapacity(cfg, After(ch, out[..|out| - 1]))
    ensures WithinCapacity(cfg, After(ch, out))
  {
    var n := |out| - 1;
    assert Set(out) == Set(out[..n]) + {out[n]};
    var before := After(ch, out[..n]).running;
    assert After(ch, out).running == before + {out[n]};
    assert |before + {out[n]}| <= |before| + 1;
  }

  lemma {:induction false} DrainsWithinCapacity(cfg: Config, e: Etas, ch: Chan, out: seq<Job>)
    requires Drains(cfg, e, ch, out) && WithinCapacity(cfg, ch)
    ensures WithinCapacity(cfg, After(ch, out))
  {
    if out == [] {
      assert After(ch, out).running == ch.running;
    } else {
      assert Takes(cfg, e, ch, out, |out| - 1);
      OneMoreRuns(cfg, ch, out);
    }
  }

  lemma {:induction false} PassKeepsCapacity(t: seq<Config>, a: Sched, now: Time, b: Sched, outs: seq<seq<Job>>, c: nat)
    requires Pass(t, a, now, b, outs) && c < |t| && WithinCapacity(t[c], a.ch[c])
    ensures WithinCapacity(t[c], b.ch[c])
  {
    assert PassAt(t, a.ch, now, b.ch, b.eta, outs, c);
    if !Paused(t[c], Filled(t, a.ch, outs, c), now) {
      DrainsWithinCapacity(t[c], b.eta, Filled(t, a.ch, outs, c), outs[c]);
    }
  }

  // ---------------------------------------------------------------- what a pass leaves behind

  /** A sequential channel with a failed job runs nothing more, and a limited one no more jobs than its capacity. */
  ghost predicate Full(cfg: Config, ch: Chan) {
    (cfg.sequential && ch.failed != {}) || (cfg.capacity != 0 && |ch.running| >= cfg.capacity)
  }

  ghost predicate StillPaused(cfg: Config, ch: Chan, now: Time) {
    cfg.throttle != 0.0 && ch.pauseUntil != 0.0 && now < ch.pauseUntil
  }

  /** A queue from which nothing may be taken: nothing is ready, or what is ready waits its turn. */
  ghost predicate NothingToTake(cfg: Config, e: Etas, q: set<Job>) {
    Ready(e, q) == {} || (cfg.sequential && HeldBack(e, q))
  }

  /**
   * A pass leaves a channel without throttle full or with nothing to take from its queue; if it is not
   * sequential, without any ready job.
   */
  lemma {:induction false} PassIsThorough(t: seq<Config>, a: Sched, now: Time, b: Sched, outs: seq<seq<Job>>, c: nat)
    requires Pass(t, a, now, b, outs) && c < |t| && t[c].throttle == 0.0
    ensures Full(t[c], b.ch[c]) || NothingToTake(t[c], b.eta, b.ch[c].queue)
    ensures !t[c].sequential ==> Full(t[c], b.ch[c]) || Ready(b.eta, b.ch[c].queue) == {}
  {
    assert PassAt(t, a.ch, now, b.ch, b.eta, outs, c);
  }

  /**
   * A channel yields nothing exactly if it was full or paused, or its queue, with what its children
   * yielded, had nothing to take. In particular a failed job blocks a sequential channel.
   */
  lemma {:induction false} PassYieldsExactly(
    t: seq<Config>, a: Sched, now: Time, b: Sched, outs: seq<seq<Job>>, c: nat)
    requires Pass(t, a, now, b, outs) && c < |t|
    ensures outs[c] == [] <==>
            || Full(t[c], a.ch[c]) || StillPaused(t[c], a.ch[c], now)
            || NothingToTake(t[c], b.eta, a.ch[c].queue + Inflow(t, outs, c))
    ensures t[c].sequential && a.ch[c].failed != {} ==> outs[c] == []
    ensures t[c].capacity != 0 && outs[c] != [] ==> |b.ch[c].running| <= t[c].capacity
  {
    assert PassAt(t, a.ch, now, b.ch, b.eta, outs, c);
    YieldsExactly(t[c], b.eta, Filled(t, a.ch, outs, c), now, outs[c]);
  }

  lemma {:induction false} YieldsExactly(cfg: Config, e: Etas, ch: Chan, now: Time, out: seq<Job>)
    requires Yields(cfg, e, ch, now, out)
    ensures out == [] <==> Full(cfg, ch) || StillPaused(cfg, ch, now) || NothingToTake(cfg, e, ch.queue)
    ensures cfg.capacity != 0 && out != [] ==> |After(ch, out).running| <= cfg.capacity
  {
    if out == [] {
      assert After(ch, out) == ch;
    } else {
      assert Takes(cfg, e, ch, out, 0) && After(ch, out[..0]) == ch;
      assert Takes(cfg, e, ch, out, |out| - 1);
      if cfg.capacity != 0 {
        OneMoreRuns(cfg, ch, out);
      }
    }
  }

  /** A throttled channel that has yielded pauses for its throttle; one that yields nothing only sees its pause end. */
  lemma {:induction false} PassPauses(t: seq<Config>, a: Sched, now: Time, b: Sched, outs: seq<seq<Job>>, c: nat)
    requires Pass(t, a, now, b, outs) && c < |t|
    ensures b.ch[c].pauseUntil ==
            if t[c].throttle == 0.0 || StillPaused(t[c], a.ch[c], now) then a.ch[c].pauseUntil
            else if outs[c] != [] then now + t[c].throttle
            else 0.0
  {
    assert PassAt(t, a.ch, now, b.ch, b.eta, outs, c);
  }

  /** A channel yields its jobs in order, and no ready job is left behind that should have come first. */
  lemma {:induction false} PassIsInOrder(t: seq<Config>, a: Sched, now: Time, b: Sched, outs: seq<seq<Job>>, c: nat)
    requires Pass(t, a, now, b, outs) && c < |t|
    ensures forall i, k | 0 <= i < k < |outs[c]| :: !KeyLess(outs[c][k].key, outs[c][i].key) && outs[c][i] != outs[c][k]
    ensures forall i, x | 0 <= i < |outs[c]| && x in Ready(b.eta, b.ch[c].queue) :: !KeyLess(x.key, outs[c][i].key)
  {
    var ch, out := Filled(t, a.ch, outs, c), outs[c];
    assert PassAt(t, a.ch, now, b.ch, b.eta, outs, c);
    YieldedJobs(t[c], b.eta, ch, now, out);
    forall i | 0 <= i < |out|
      ensures forall k | i < k < |out| :: !KeyLess(out[k].key, out[i].key)
      ensures forall x | x in Ready(b.eta, b.ch[c].queue) :: !KeyLess(x.key, out[i].key)
    {
      assert Takes(t[c], b.eta, ch, out, i);
      forall x | x in Ready(b.eta, b.ch[c].queue) ensures x in Ready(b.eta, After(ch, out[..i]).queue) {
        assert x !in Set(out[..i]);
      }
      forall k | i < k < |out| ensures out[k] in Ready(b.eta, After(ch, out[..i]).queue) {
        assert out[k] !in Set(out[..i]);
      }
    }
  }
}
