/** Sleeping until the wakeup time after a pass loses nothing. */
module Wakeup {
  import opened Jobs
  import opened Wrappers
  import opened SchedulerSpec
  import opened Subtrees
  import opened Passes

  /** Jobs with an ETA wait at home, and only throttled channels are ever paused. */
  ghost predicate Orderly(t: seq<Config>, a: Sched) {
    && QueuesFromBelow(t, a.ch)
    && forall c | 0 <= c < |t| ::
         WaitAtHome(a.eta, a.ch[c].queue, c) && (a.ch[c].pauseUntil != 0.0 ==> t[c].throttle != 0.0)
  }

  lemma {:induction false} YieldedIsKnown(t: seq<Config>, a: Sched, now: Time, b: Sched, outs: seq<seq<Job>>, c: nat)
    requires Orderly(t, a) && Pass(t, a, now, b, outs) && c < |t|
    ensures forall j | j in Filled(t, a.ch, outs, c).queue :: j in b.eta && (b.eta[j] == 0.0 || j in a.ch[c].queue)
    decreases |t| - c
  {
    forall j | j in Inflow(t, outs, c) ensures j in b.eta && b.eta[j] == 0.0 {
      var d :| 0 <= d < |t| && t[d].parent == c && j in outs[d];
      YieldedFromBelow(t, a, now, b, outs, d);
      YieldedIsKnown(t, a, now, b, outs, d);
    }
    assert WaitAtHome(a.eta, a.ch[c].queue, c);
  }

  lemma {:induction false} PassKeepsOrder(t: seq<Config>, a: Sched, now: Time, b: Sched, outs: seq<seq<Job>>)
    requires Orderly(t, a) && Pass(t, a, now, b, outs)
    ensures Orderly(t, b)
  {
    forall c | 0 <= c < |t|
      ensures b.ch[c].queue <= Filled(t, a.ch, outs, c).queue
      ensures WaitAtHome(b.eta, b.ch[c].queue, c) && (b.ch[c].pauseUntil != 0.0 ==> t[c].throttle != 0.0)
    {
      assert PassAt(t, a.ch, now, b.ch, b.eta, outs, c);
      YieldedFromBelow(t, a, now, b, outs, c);
      YieldedIsKnown(t, a, now, b, outs, c);
      assert WaitAtHome(a.eta, a.ch[c].queue, c);
    }
    forall c, j | 0 <= c < |t| && j in b.ch[c].queue ensures j.channel < |t| && Below(t, j.channel, c) {
      YieldedFromBelow(t, a, now, b, outs, c);
    }
  }

  /**
   * What is ready once a channel is looked at: the jobs of its queue that have no ETA or a past one,
   * and what its children have yielded.
   */
  lemma {:induction false} ReadyIsDue(t: seq<Config>, a: Sched, now: Time, b: Sched, outs: seq<seq<Job>>, c: nat)
    requires Orderly(t, a) && Pass(t, a, now, b, outs) && c < |t|
    requires !Full(t[c], a.ch[c]) && !StillPaused(t[c], a.ch[c], now)
    ensures Ready(b.eta, a.ch[c].queue + Inflow(t, outs, c)) ==
            (set j | j in a.ch[c].queue && (EtaOf(a.eta, j) == 0.0 || EtaOf(a.eta, j) <= now)) + Inflow(t, outs, c)
  {
    assert WaitAtHome(a.eta, a.ch[c].queue, c);
    forall j | j in Inflow(t, outs, c) ensures EtaOf(b.eta, j) == 0.0 {
      var d :| 0 <= d < |t| && t[d].parent == c && j in outs[d];
      YieldedFromBelow(t, a, now, b, outs, d);
    }
    assert Polls(t[c], a.ch[c], now);
    forall j | j in a.ch[c].queue
      ensures EtaOf(b.eta, j) == 0.0 <==> EtaOf(a.eta, j) == 0.0 || EtaOf(a.eta, j) <= now
    {
      assert j in a.eta;
    }
  }

  // ---------------------------------------------------------------- right after a pass

  /** Times in the future, as seen from `now`. */
  ghost predicate AllAfter(s: set<Time>, now: Time) {
    forall x | x in s :: x > now
  }

  lemma {:induction false} FirstYielded(cfg: Config, e: Etas, ch: Chan, out: seq<Job>)
    requires Drains(cfg, e, ch, out) && out != []
    ensures HasCapacity(cfg, ch) && Pops(cfg.sequential, e, ch.queue, Some(out[0]))
  {
    assert Takes(cfg, e, ch, out, 0) && After(ch, out[..0]) == ch;
  }

  lemma {:induction false} NothingToYield(cfg: Config, e: Etas, ch: Chan, now: Time, out: seq<Job>)
    requires Yields(cfg, e, ch, now, out)
    requires !HasCapacity(cfg, ch) || Paused(cfg, ch, now) || Pops(cfg.sequential, e, ch.queue, None)
    ensures out == []
  {
    if !Paused(cfg, ch, now) && out != [] {
      FirstYielded(cfg, e, ch, out);
    }
  }

  /** A channel that has yielded and is still open with capacity has nothing more to yield. */
  lemma {:induction false} LeftOpen(cfg: Config, e: Etas, ch: Chan, now: Time, out: seq<Job>)
    requires Yields(cfg, e, ch, now, out) && cfg.throttle >= 0.0 && now > 0.0
    requires HasCapacity(cfg, Drained(cfg, ch, now, out))
    ensures var ch' := Drained(cfg, ch, now, out);
            && (ch'.pauseUntil != 0.0 && cfg.throttle != 0.0 ==> ch'.pauseUntil > now)
            && (ch'.pauseUntil == 0.0 ==> Polls(cfg, ch, now) && Pops(cfg.sequential, e, ch'.queue, None))
  {
    assert After(ch, []) == ch;
    if !HasCapacity(cfg, ch) {
      NothingToYield(cfg, e, ch, now, out);
    }
  }

  /** A channel that a pass has left open and with capacity has nothing to hand on, and waits for later times only. */
  lemma {:induction false} AfterPass(t: seq<Config>, a: Sched, now: Time, b: Sched, outs: seq<seq<Job>>, c: nat)
    requires Orderly(t, a) && Pass(t, a, now, b, outs) && c < |t| && t[c].throttle >= 0.0 && now > 0.0
    requires HasCapacity(t[c], b.ch[c])
    ensures b.ch[c].pauseUntil != 0.0 ==> b.ch[c].pauseUntil > now
    ensures b.ch[c].pauseUntil == 0.0 ==>
              Pops(t[c].sequential, b.eta, b.ch[c].queue, None) && AllAfter(WaitTimes(b.eta, b.ch[c].queue), now)
  {
    assert PassAt(t, a.ch, now, b.ch, b.eta, outs, c);
    LeftOpen(t[c], b.eta, Filled(t, a.ch, outs, c), now, outs[c]);
    YieldedIsKnown(t, a, now, b, outs, c);
    assert WaitAtHome(a.eta, a.ch[c].queue, c);
  }

  lemma {:induction false} AsksAfterPass(t: seq<Config>, a: Sched, now: Time, b: Sched, outs: seq<seq<Job>>, c: nat)
    requires Orderly(t, a) && Pass(t, a, now, b, outs) && c < |t| && now > 0.0
    requires forall d | 0 <= d < |t| :: t[d].throttle >= 0.0
    ensures AllAfter(Asks(t, b.ch, b.eta, c), now)
    decreases |t| - c
  {
    if HasCapacity(t[c], b.ch[c]) {
      AfterPass(t, a, now, b, outs, c);
      forall d | c < d < |t| ensures AllAfter(Asks(t, b.ch, b.eta, d), now) {
        AsksAfterPass(t, a, now, b, outs, d);
      }
    }
  }

  // ---------------------------------------------------------------- what is asked for

  /** From channel d on, all channels above it up to c are neither full nor paused. */
  ghost predicate FlowsFreely(t: seq<Config>, s: seq<Chan>, d: int, c: int)
    requires IsTree(t) && |s| == |t| && 0 <= d < |t|
    decreases d
  {
    || d == c
    || (&& d > 0 && !Full(t[t[d].parent], s[t[d].parent]) && s[t[d].parent].pauseUntil == 0.0
        && FlowsFreely(t, s, t[d].parent, c))
  }

  /** Channel d itself has something to do at time x: its pause ends, or a job of its queue is due. */
  ghost predicate DueAt(t: seq<Config>, s: seq<Chan>, e: Etas, d: nat, x: Time)
    requires |s| == |t| && d < |t|
  {
    !Full(t[d], s[d]) &&
    if s[d].pauseUntil != 0.0 then x == s[d].pauseUntil
    else exists j | j in s[d].queue :: EtaOf(e, j) != 0.0 && EtaOf(e, j) == x
  }

  /**
   * A time is asked for exactly if a channel of the subtree has something to do then, and all channels
   * above it are open: the wakeup time is never too early either.
   */
  lemma {:induction false} AskedExactly(t: seq<Config>, s: seq<Chan>, e: Etas, c: nat, x: Time)
    requires IsTree(t) && |s| == |t| && c < |t|
    ensures x in Asks(t, s, e, c) <==> exists d | 0 <= d < |t| :: DueAt(t, s, e, d, x) && FlowsFreely(t, s, d, c)
  {
    if x in Asks(t, s, e, c) {
      var d := AskedBy(t, s, e, c, x);
    } else if d :| 0 <= d < |t| && DueAt(t, s, e, d, x) && FlowsFreely(t, s, d, c) {
      AsksItself(t, s, e, d, x);
      AskIsPassedOn(t, s, e, d, c, x);
    }
  }

  lemma {:induction false} AsksItself(t: seq<Config>, s: seq<Chan>, e: Etas, d: nat, x: Time)
    requires |s| == |t| && d < |t| && DueAt(t, s, e, d, x)
    ensures x in Asks(t, s, e, d)
  {}

  lemma {:induction false} AskIsPassedOn(t: seq<Config>, s: seq<Chan>, e: Etas, d: nat, c: nat, x: Time)
    requires IsTree(t) && |s| == |t| && c < |t| && d < |t| && x in Asks(t, s, e, d) && FlowsFreely(t, s, d, c)
    ensures x in Asks(t, s, e, c)
    decreases d
  {
    if d != c {
      AskIsPassedOn(t, s, e, t[d].parent, c, x);
    }
  }

  lemma {:induction false} AskedBy(t: seq<Config>, s: seq<Chan>, e: Etas, c: nat, x: Time) returns (d: nat)
    requires IsTree(t) && |s| == |t| && c < |t| && x in Asks(t, s, e, c)
    ensures d < |t| && DueAt(t, s, e, d, x) && FlowsFreely(t, s, d, c)
    decreases |t| - c
  {
    if s[c].pauseUntil != 0.0 || x in WaitTimes(e, s[c].queue) {
      d := c;
    } else {
      var k :| c < k < |t| && t[k].parent == c && x in Asks(t, s, e, k);
      d := AskedBy(t, s, e, k, x);
      FreelyOneMore(t, s, d, k, c);
    }
  }

  lemma {:induction false} FreelyOneMore(t: seq<Config>, s: seq<Chan>, d: int, k: int, c: nat)
    requires IsTree(t) && |s| == |t| && 0 <= d < |t| && 0 < k < |t| && t[k].parent == c && FlowsFreely(t, s, d, k)
    requires !Full(t[c], s[c]) && s[c].pauseUntil == 0.0
    ensures FlowsFreely(t, s, d, c)
    decreases d
  {
    if d != k {
      FreelyOneMore(t, s, t[d].parent, k, c);
    }
  }

  // ---------------------------------------------------------------- until the wakeup time

  /** Before time w (or ever, if w is no time) a pass gets nothing out of channel c. */
  ghost predicate Quiet(t: seq<Config>, a: Sched, w: Time, c: nat)
    requires |t| == |a.ch| && c < |t|
    decreases |t| - c
  {
    || !HasCapacity(t[c], a.ch[c])
    || (a.ch[c].pauseUntil != 0.0 && w != 0.0 && w <= a.ch[c].pauseUntil)
    || (&& a.ch[c].pauseUntil == 0.0
        && Pops(t[c].sequential, a.eta, a.ch[c].queue, None)
        && LaterThan(WaitTimes(a.eta, a.ch[c].queue), w)
        && forall d | c < d < |t| && t[d].parent == c :: Quiet(t, a, w, d))
  }

  /** Nothing is due before time w; and nothing at all, if w is no time. */
  ghost predicate LaterThan(s: set<Time>, w: Time) {
    if w == 0.0 then s == {} else forall x | x in s :: w <= x
  }

  lemma {:induction false} QuietAfterPass(
    t: seq<Config>, a: Sched, now: Time, b: Sched, outs: seq<seq<Job>>, w: Time, c: nat)
    requires Orderly(t, a) && Pass(t, a, now, b, outs) && c < |t| && now > 0.0
    requires forall d | 0 <= d < |t| :: t[d].throttle >= 0.0
    requires LaterThan(Asks(t, b.ch, b.eta, c), w)
    ensures Quiet(t, b, w, c)
    decreases |t| - c
  {
    if HasCapacity(t[c], b.ch[c]) {
      AfterPass(t, a, now, b, outs, c);
      if b.ch[c].pauseUntil != 0.0 {
        assert b.ch[c].pauseUntil in Asks(t, b.ch, b.eta, c);
      } else {
        assert LaterThan(WaitTimes(b.eta, b.ch[c].queue), w);
        forall d | c < d < |t| && t[d].parent == c ensures Quiet(t, b, w, d) {
          assert Asks(t, b.ch, b.eta, d) <= Asks(t, b.ch, b.eta, c);
          QuietAfterPass(t, a, now, b, outs, w, d);
        }
      }
    }
  }

  ghost predicate Before(now: Time, w: Time) {
    w == 0.0 || now < w
  }

  /** A pass over a quiet channel gets nothing out of it. */
  lemma {:induction false} QuietYieldsNothing(
    t: seq<Config>, a: Sched, now: Time, b: Sched, outs: seq<seq<Job>>, w: Time, c: nat)
    requires Orderly(t, a) && Pass(t, a, now, b, outs) && c < |t| && Before(now, w) && Quiet(t, a, w, c)
    ensures outs[c] == []
    decreases |t| - c
  {
    var cfg, ch := t[c], Filled(t, a.ch, outs, c);
    assert PassAt(t, a.ch, now, b.ch, b.eta, outs, c);
    if HasCapacity(cfg, ch) && !Paused(cfg, ch, now) {
      QuietQueue(t, a, now, b, outs, w, c);
      PopsStays(cfg.sequential, a.eta, b.eta, ch.queue, None);
    }
    NothingToYield(cfg, b.eta, ch, now, outs[c]);
  }

  /** Nothing reaches the queue of a quiet channel that is open, and nothing in it becomes ready. */
  lemma {:induction false} QuietQueue(
    t: seq<Config>, a: Sched, now: Time, b: Sched, outs: seq<seq<Job>>, w: Time, c: nat)
    requires Orderly(t, a) && Pass(t, a, now, b, outs) && c < |t| && Before(now, w) && Quiet(t, a, w, c)
    requires HasCapacity(t[c], a.ch[c]) && !Paused(t[c], a.ch[c], now)
    ensures a.ch[c].pauseUntil == 0.0 && Filled(t, a.ch, outs, c) == a.ch[c]
    ensures forall j | j in a.ch[c].queue :: EtaOf(b.eta, j) == EtaOf(a.eta, j)
    decreases |t| - c, 0
  {
    forall d | 0 <= d < |t| && t[d].parent == c ensures outs[d] == [] {
      QuietYieldsNothing(t, a, now, b, outs, w, d);
    }
    assert Inflow(t, outs, c) == {};
    forall j | j in a.ch[c].queue ensures EtaOf(b.eta, j) == EtaOf(a.eta, j) {
      assert WaitAtHome(a.eta, a.ch[c].queue, c);
      if a.eta[j] != 0.0 {
        assert j in Waiting(a.eta, a.ch[c].queue) && a.eta[j] in WaitTimes(a.eta, a.ch[c].queue);
      }
    }
  }

  lemma {:induction false} StaysQuiet(
    t: seq<Config>, a: Sched, now: Time, b: Sched, outs: seq<seq<Job>>, w: Time, c: nat)
    requires Orderly(t, a) && Pass(t, a, now, b, outs) && c < |t| && Before(now, w) && Quiet(t, a, w, c)
    ensures Quiet(t, b, w, c)
    decreases |t| - c
  {
    var cfg, ch := t[c], Filled(t, a.ch, outs, c);
    assert PassAt(t, a.ch, now, b.ch, b.eta, outs, c);
    QuietYieldsNothing(t, a, now, b, outs, w, c);
    assert After(ch, []) == ch;
    if HasCapacity(cfg, a.ch[c]) && !Paused(cfg, a.ch[c], now) {
      QuietQueue(t, a, now, b, outs, w, c);
      PopsStays(cfg.sequential, a.eta, b.eta, ch.queue, None);
      assert WaitTimes(b.eta, b.ch[c].queue) == WaitTimes(a.eta, a.ch[c].queue);
      forall d | c < d < |t| && t[d].parent == c ensures Quiet(t, b, w, d) {
        StaysQuiet(t, a, now, b, outs, w, d);
      }
    }
  }

  // ---------------------------------------------------------------- the theorem

  /** Passes one after another, each with what it hands out, and nothing else happens in between. */
  datatype Round = Round(now: Time, after: Sched, outs: seq<seq<Job>>)

  ghost predicate Rounds(t: seq<Config>, a: Sched, rounds: seq<Round>)
    decreases |rounds|
  {
    rounds != [] ==>
      Pass(t, a, rounds[0].now, rounds[0].after, rounds[0].outs) && Rounds(t, rounds[0].after, rounds[1..])
  }

  lemma {:induction false} QuietRounds(t: seq<Config>, a: Sched, rounds: seq<Round>, w: Time)
    requires Orderly(t, a) && Rounds(t, a, rounds) && Quiet(t, a, w, 0)
    requires forall i | 0 <= i < |rounds| :: Before(rounds[i].now, w)
    ensures forall i | 0 <= i < |rounds| :: |rounds[i].outs| > 0 && rounds[i].outs[0] == []
    decreases |rounds|
  {
    if rounds != [] {
      var r := rounds[0];
      QuietYieldsNothing(t, a, r.now, r.after, r.outs, w, 0);
      StaysQuiet(t, a, r.now, r.after, r.outs, w, 0);
      PassKeepsOrder(t, a, r.now, r.after, r.outs);
      QuietRounds(t, r.after, rounds[1..], w);
      forall i | 0 < i < |rounds| ensures |rounds[i].outs| > 0 && rounds[i].outs[0] == [] {
        assert rounds[i] == rounds[1..][i - 1];
      }
    }
  }

  /**
   * After a pass the wakeup time is in the future, and unless a notification comes in, every pass
   * before that time hands out nothing.
   */
  lemma {:induction false} NoMissedWakeup(
    t: seq<Config>, a: Sched, now: Time, b: Sched, outs: seq<seq<Job>>, w: Time, rounds: seq<Round>)
    requires Orderly(t, a) && Pass(t, a, now, b, outs) && now > 0.0
    requires forall d | 0 <= d < |t| :: t[d].throttle >= 0.0
    requires Soonest(Asks(t, b.ch, b.eta, 0), w)
    requires Rounds(t, b, rounds) && forall i | 0 <= i < |rounds| :: Before(rounds[i].now, w)
    ensures w == 0.0 || w > now
    ensures forall i | 0 <= i < |rounds| :: |rounds[i].outs| > 0 && rounds[i].outs[0] == []
  {
    AsksAfterPass(t, a, now, b, outs, 0);
    QuietAfterPass(t, a, now, b, outs, w, 0);
    PassKeepsOrder(t, a, now, b, outs);
    QuietRounds(t, b, rounds, w);
  }
}
