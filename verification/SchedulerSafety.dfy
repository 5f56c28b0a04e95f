/** Waking up, throttling and hand-outs over whole runs of the scheduler. */
module SchedulerSafety {
  import opened Jobs
  import opened SchedulerSpec
  import opened Subtrees
  import opened ManagerSpec
  import opened JobFlow
  import opened Passes
  import opened Wakeup
  import opened SchedulerRuns

  // ---------------------------------------------------------------- waking up

  lemma {:induction false} LastStep(t: seq<Config>, m: Manager, log: seq<Entry>)
    requires Run(t, m, log) && log != []
    ensures Run(t, m, log[..|log| - 1])
    ensures Step(t, End(m, log[..|log| - 1]), log[|log| - 1].event, log[|log| - 1].after)
    decreases |log|
  {
    if |log| > 1 {
      LastStep(t, log[0].after, log[1..]);
      assert log[..|log| - 1][1..] == log[1..][..|log| - 2];
    }
  }

  /**
   * After any run that ends with a pass, sleeping until the wakeup time loses nothing: it is in the
   * future, and passes before it hand out nothing as long as no notification comes in.
   */
  lemma {:induction false} RunsMissNoWakeup(t: seq<Config>, m: Manager, log: seq<Entry>, w: Time, rounds: seq<Round>)
    requires Initial(t, m) && Run(t, m, log) && log != [] && log[|log| - 1].event.Passed?
    requires log[|log| - 1].event.now > 0.0 && forall d | 0 <= d < |t| :: t[d].throttle >= 0.0
    requires |End(m, log).sched.ch| == |t| && Soonest(Asks(t, End(m, log).sched.ch, End(m, log).sched.eta, 0), w)
    requires Rounds(t, End(m, log).sched, rounds) && forall i | 0 <= i < |rounds| :: Before(rounds[i].now, w)
    ensures w == 0.0 || w > log[|log| - 1].event.now
    ensures forall i | 0 <= i < |rounds| :: |rounds[i].outs| > 0 && rounds[i].outs[0] == []
  {
    var before, last := End(m, log[..|log| - 1]), log[|log| - 1];
    LastStep(t, m, log);
    InitialIsGood(t, m);
    RunsAreGood(t, m, log[..|log| - 1]);
    NoMissedWakeup(t, before.sched, last.event.now, last.after.sched, last.event.outs, w, rounds);
  }

  // ---------------------------------------------------------------- throttling

  lemma {:induction false} OnlyPassesPause(t: seq<Config>, m: Manager, ev: Event, n: Manager, c: nat)
    requires Step(t, m, ev, n) && !ev.Passed? && c < |t|
    ensures |n.sched.ch| == |t| && n.sched.ch[c].pauseUntil == m.sched.ch[c].pauseUntil
  {
    if ev.Notified? && Agrees(m, ev.msg) {
      if ev.msg.uuid in m.jobs {
        RemoveMoves(t, m.sched.ch, m.jobs[ev.msg.uuid].channel, m.jobs[ev.msg.uuid]);
      }
      var r := Renewed(t, m, ev.msg);
      DispatchMoves(t, r.sched.ch, r.jobs[ev.msg.uuid], ev.msg.state);
    }
  }

  ghost predicate LetsThrough(ev: Event, c: nat) {
    ev.Passed? && c < |ev.outs| && ev.outs[c] != []
  }

  /** The clock does not go back. */
  ghost predicate InTime(log: seq<Entry>) {
    forall i, k | 0 <= i < k < |log| && log[i].event.Passed? && log[k].event.Passed? ::
      log[i].event.now <= log[k].event.now
  }

  /** A throttled channel lets at most one job through in a pass, is not paused then, and pauses itself. */
  lemma {:induction false} PassAtThrottle(
    t: seq<Config>, m: Manager, now: Time, outs: seq<seq<Job>>, n: Manager, c: nat)
    requires Step(t, m, Passed(now, outs), n) && c < |t| && t[c].throttle > 0.0
    ensures |outs[c]| <= 1
    ensures outs[c] != [] ==> n.sched.ch[c].pauseUntil == now + t[c].throttle
    ensures m.sched.ch[c].pauseUntil != 0.0 && now < m.sched.ch[c].pauseUntil ==>
              outs[c] == [] && n.sched.ch[c].pauseUntil == m.sched.ch[c].pauseUntil
  {
    assert PassAt(t, m.sched.ch, now, n.sched.ch, n.sched.eta, outs, c);
    ThrottledYieldsOne(t[c], n.sched.eta, Filled(t, m.sched.ch, outs, c), now, outs[c]);
  }

  lemma {:induction false} ThrottledYieldsOne(cfg: Config, e: Etas, ch: Chan, now: Time, out: seq<Job>)
    requires Yields(cfg, e, ch, now, out) && cfg.throttle != 0.0
    ensures |out| <= 1
  {
    if out != [] {
      assert Takes(cfg, e, ch, out, |out| - 1);
    }
  }

  lemma {:induction false} PauseHolds(t: seq<Config>, m: Manager, log: seq<Entry>, c: nat, until: Time)
    requires Run(t, m, log) && InTime(log) && c < |t| && t[c].throttle > 0.0 && log != []
    requires LetsThrough(log[|log| - 1].event, c)
    requires |m.sched.ch| == |t| && m.sched.ch[c].pauseUntil == until && until != 0.0
    ensures log[|log| - 1].event.now >= until
    decreases |log|
  {
    var ev := log[0].event;
    if ev.Passed? {
      PassAtThrottle(t, m, ev.now, ev.outs, log[0].after, c);
      if ev.now < until {
        PauseHolds(t, log[0].after, log[1..], c, until);
      }
    } else {
      OnlyPassesPause(t, m, ev, log[0].after, c);
      PauseHolds(t, log[0].after, log[1..], c, until);
    }
  }

  /** Jobs that a throttled channel lets through in different passes are at least its throttle apart. */
  lemma {:induction false} ThrottleSpacing(t: seq<Config>, m: Manager, log: seq<Entry>, c: nat)
    requires Run(t, m, log) && InTime(log) && |log| >= 2 && c < |t| && t[c].throttle > 0.0
    requires LetsThrough(log[0].event, c) && LetsThrough(log[|log| - 1].event, c) && log[0].event.now > 0.0
    ensures |log[0].event.outs[c]| == 1
    ensures log[|log| - 1].event.now >= log[0].event.now + t[c].throttle
  {
    PassAtThrottle(t, m, log[0].event.now, log[0].event.outs, log[0].after, c);
    PauseHolds(t, log[0].after, log[1..], c, log[0].event.now + t[c].throttle);
  }

  // ---------------------------------------------------------------- one hand-out per pending notification

  ghost predicate HandsOut(ev: Event, uuid: string) {
    ev.Passed? && |ev.outs| > 0 && exists i | 0 <= i < |ev.outs[0]| :: ev.outs[0][i].uuid == uuid
  }

  ghost predicate MakesPending(ev: Event, uuid: string) {
    ev.Notified? && ev.msg.uuid == uuid && ev.msg.state.Pending?
  }

  ghost predicate NotQueued(s: seq<Chan>, uuid: string) {
    forall c, j | 0 <= c < |s| && j in s[c].queue :: j.uuid != uuid
  }

  lemma {:induction false} NotQueuedAfterHandOut(
    t: seq<Config>, m: Manager, now: Time, outs: seq<seq<Job>>, n: Manager, i: nat)
    requires Good(t, m) && Step(t, m, Passed(now, outs), n) && i < |outs[0]|
    ensures NotQueued(n.sched.ch, outs[0][i].uuid)
    ensures forall k | 0 <= k < |outs[0]| && k != i :: outs[0][k].uuid != outs[0][i].uuid
  {
    var j := outs[0][i];
    StepKeepsGood(t, m, Passed(now, outs), n);
    PassKeepsShapes(t, m.sched, now, n.sched, outs);
    PassKeepsKnown(t, m, now, n, outs, 0);
    PassIsInOrder(t, m.sched, now, n.sched, outs, 0);
    assert j in Set(outs[0]) && Shaped(t, n.sched.ch, j);
    forall c | 0 <= c < |t| ensures j !in n.sched.ch[c].queue {
      if j.channel < |t| && Below(t, j.channel, c) {
        RunningAtRoot(t, n.sched.ch, c, j);
      }
    }
    forall c, x | 0 <= c < |t| && x in n.sched.ch[c].queue ensures x.uuid != j.uuid {
      assert x in All(n.sched.ch[c]);
    }
    forall k | 0 <= k < |outs[0]| && k != i ensures outs[0][k].uuid != j.uuid {
      assert outs[0][k] in Set(outs[0]);
    }
  }

  lemma {:induction false} NoneFlowsIn(
    t: seq<Config>, m: Manager, now: Time, outs: seq<seq<Job>>, n: Manager, uuid: string, c: nat)
    requires Good(t, m) && Step(t, m, Passed(now, outs), n) && NotQueued(m.sched.ch, uuid) && c < |t|
    ensures forall j | j in n.sched.ch[c].queue + Set(outs[c]) :: j.uuid != uuid
    decreases |t| - c
  {
    assert PassAt(t, m.sched.ch, now, n.sched.ch, n.sched.eta, outs, c);
    YieldedFromBelow(t, m.sched, now, n.sched, outs, c);
    forall j | j in Inflow(t, outs, c) ensures j.uuid != uuid {
      var d :| 0 <= d < |t| && t[d].parent == c && j in outs[d];
      NoneFlowsIn(t, m, now, outs, n, uuid, d);
    }
  }

  lemma {:induction false} NotifyKeepsNotQueued(t: seq<Config>, m: Manager, msg: Msg, uuid: string)
    requires Good(t, m) && msg.channel < |t| && NotQueued(m.sched.ch, uuid)
    requires Agrees(m, msg) ==> !MakesPending(Notified(msg), uuid)
    ensures NotQueued(Notify(t, m, msg).sched.ch, uuid)
  {
    if Agrees(m, msg) {
      if msg.uuid in m.jobs {
        RemoveMoves(t, m.sched.ch, m.jobs[msg.uuid].channel, m.jobs[msg.uuid]);
      }
      var r := Renewed(t, m, msg);
      RenewKeepsGood(t, m, msg);
      var j := r.jobs[msg.uuid];
      DispatchMoves(t, r.sched.ch, j, msg.state);
      forall c, x | 0 <= c < |t| && x in Dispatch(t, r.sched.ch, j, msg.state)[c].queue ensures x.uuid != uuid {
        assert OnlyMoves(r.sched.ch[c], Dispatch(t, r.sched.ch, j, msg.state)[c], j,
                         c == if msg.state.Pending? then j.channel else -1);
      }
    }
  }

  lemma {:induction false} StepKeepsNotQueued(t: seq<Config>, m: Manager, ev: Event, n: Manager, uuid: string)
    requires Good(t, m) && Step(t, m, ev, n) && NotQueued(m.sched.ch, uuid)
    requires MakesPending(ev, uuid) ==> !Agrees(m, ev.msg)
    ensures NotQueued(n.sched.ch, uuid) && !HandsOut(ev, uuid)
  {
    match ev
    case Notified(msg) => NotifyKeepsNotQueued(t, m, msg, uuid);
    case Forgot(uuids) =>
    case Passed(now, outs) =>
      forall c | 0 <= c < |t| ensures forall j | j in n.sched.ch[c].queue + Set(outs[c]) :: j.uuid != uuid {
        NoneFlowsIn(t, m, now, outs, n, uuid, c);
      }
      assert forall i | 0 <= i < |outs[0]| :: outs[0][i] in Set(outs[0]);
  }

  /** Somewhere in the run the job is announced as pending, and the announcement is accepted. */
  ghost predicate Requeued(m: Manager, log: seq<Entry>, uuid: string)
    decreases |log|
  {
    log != [] &&
    (|| (MakesPending(log[0].event, uuid) && Agrees(m, log[0].event.msg))
     || Requeued(log[0].after, log[1..], uuid))
  }

  lemma {:induction false} StaysOut(t: seq<Config>, m: Manager, log: seq<Entry>, uuid: string)
    requires Good(t, m) && Run(t, m, log) && NotQueued(m.sched.ch, uuid) && log != [] && !Requeued(m, log, uuid)
    ensures !HandsOut(log[|log| - 1].event, uuid)
    decreases |log|
  {
    StepKeepsGood(t, m, log[0].event, log[0].after);
    StepKeepsNotQueued(t, m, log[0].event, log[0].after, uuid);
    if |log| > 1 {
      StaysOut(t, log[0].after, log[1..], uuid);
    }
  }

  /**
   * Between two hand-outs of a job, however often its job object has been replaced, a pending
   * notification for it has been accepted; and one pass hands it out at most once.
   */
  lemma {:induction false} OneHandOutPerPending(t: seq<Config>, m: Manager, log: seq<Entry>, uuid: string)
    requires Good(t, m) && Run(t, m, log) && |log| >= 2
    requires HandsOut(log[0].event, uuid) && HandsOut(log[|log| - 1].event, uuid)
    ensures Requeued(log[0].after, log[1..|log| - 1], uuid)
    ensures forall i, k | 0 <= i < k < |log[0].event.outs[0]| ::
              log[0].event.outs[0][i].uuid != log[0].event.outs[0][k].uuid
  {
    var ev, n := log[0].event, log[0].after;
    forall i | 0 <= i < |ev.outs[0]|
      ensures forall k | 0 <= k < |ev.outs[0]| && k != i :: ev.outs[0][k].uuid != ev.outs[0][i].uuid
      ensures NotQueued(n.sched.ch, ev.outs[0][i].uuid)
    {
      NotQueuedAfterHandOut(t, m, ev.now, ev.outs, n, i);
    }
    StepKeepsGood(t, m, ev, n);
    if !Requeued(n, log[1..|log| - 1], uuid) {
      assert log[1..][..|log| - 2] == log[1..|log| - 1];
      NotByTheLast(n, log[1..], uuid);
      StaysOut(t, n, log[1..], uuid);
    }
  }

  /** A run whose last event is a pass is requeued by one of the others, if at all. */
  lemma {:induction false} NotByTheLast(m: Manager, log: seq<Entry>, uuid: string)
    requires log != [] && log[|log| - 1].event.Passed?
    ensures Requeued(m, log, uuid) ==> Requeued(m, log[..|log| - 1], uuid)
    decreases |log|
  {
    if |log| == 1 {
      assert !Requeued(log[0].after, log[1..], uuid);
    } else {
      assert log[1..][..|log| - 2] == log[..|log| - 1][1..];
      NotByTheLast(log[0].after, log[1..], uuid);
    }
  }
}
