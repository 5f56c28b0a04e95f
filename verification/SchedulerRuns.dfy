/** What holds throughout every run of notifications and passes. */
module SchedulerRuns {
  import opened Jobs
  import opened SchedulerSpec
  import opened Subtrees
  import opened ManagerSpec
  import opened JobFlow
  import opened Passes
  import opened Wakeup

  /** One thing that happens to the channel manager; `outs[c]` is what channel c yields in a pass. */
  datatype Event =
    | Notified(msg: Msg)
    | Forgot(uuids: set<string>)
    | Passed(now: Time, outs: seq<seq<Job>>)

  ghost predicate Step(t: seq<Config>, m: Manager, ev: Event, n: Manager) {
    ManagerAt(t, m) &&
    match ev
    case Notified(msg) => msg.channel < |t| && n == Notify(t, m, msg)
    case Forgot(uuids) => JobsRemoved(t, m, uuids, n)
    case Passed(now, outs) => Pass(t, m.sched, now, n.sched, outs) && n.jobs == m.jobs && n.made == m.made
  }

  datatype Entry = Entry(event: Event, after: Manager)

  ghost predicate Run(t: seq<Config>, m: Manager, log: seq<Entry>)
    decreases |log|
  {
    log == [] || (Step(t, m, log[0].event, log[0].after) && Run(t, log[0].after, log[1..]))
  }

  /** The state at the end of a run. Every part of a run is itself a run. */
  function End(m: Manager, log: seq<Entry>): Manager {
    if log == [] then m else log[|log| - 1].after
  }

  // ---------------------------------------------------------------- the invariant of all runs

  function All(ch: Chan): set<Job> {
    ch.queue + ch.running + ch.failed
  }

  /** Every job object in the channels is the one known under its uuid. */
  ghost predicate OnlyKnown(m: Manager) {
    forall c, j | 0 <= c < |m.sched.ch| && j in All(m.sched.ch[c]) :: j.uuid in m.jobs && m.jobs[j.uuid] == j
  }

  ghost predicate Good(t: seq<Config>, m: Manager) {
    ManagerAt(t, m) && AllShaped(t, m.sched.ch) && Orderly(t, m.sched) && OnlyKnown(m)
  }

  ghost predicate Initial(t: seq<Config>, m: Manager) {
    && IsTree(t) && m == Manager(Sched(m.sched.ch, map[]), map[], 0) && |m.sched.ch| == |t|
    && forall c | 0 <= c < |t| :: m.sched.ch[c] == Chan({}, {}, {}, 0.0)
  }

  lemma {:induction false} InitialIsGood(t: seq<Config>, m: Manager)
    requires Initial(t, m)
    ensures Good(t, m)
  {
    forall j ensures Shaped(t, m.sched.ch, j) {
      if j.channel < |t| {
        EmptyIsClean(t, m.sched.ch, j.channel, j);
      }
    }
  }

  lemma {:induction false} EmptyIsClean(t: seq<Config>, s: seq<Chan>, c: int, j: Job)
    requires At(t, s, c) && forall d | 0 <= d < |s| :: PlaceOf(s[d], j) == Nowhere
    ensures Clean(t, s, c, j)
    decreases c + 1
  {
    if c >= 0 {
      EmptyIsClean(t, s, t[c].parent, j);
    }
  }

  // ---------------------------------------------------------------- what the transitions leave alone

  /** From `ch` to `r` only job j may have come in, and only into the queue if `queued`. */
  ghost predicate OnlyMoves(ch: Chan, r: Chan, j: Job, queued: bool) {
    && r.pauseUntil == ch.pauseUntil && All(r) <= All(ch) + {j}
    && r.queue <= ch.queue + if queued then {j} else {}
  }

  ghost predicate MovesOnly(s: seq<Chan>, r: seq<Chan>, j: Job, c: int) {
    |r| == |s| && forall d | 0 <= d < |s| :: OnlyMoves(s[d], r[d], j, d == c)
  }

  lemma {:induction false} RemoveMoves(t: seq<Config>, s: seq<Chan>, c: int, j: Job)
    requires At(t, s, c)
    ensures MovesOnly(s, Remove(t, s, c, j), j, -1)
    ensures forall d | 0 <= d < |s| :: Remove(t, s, c, j)[d].running <= s[d].running
    decreases c + 1
  {
    if c >= 0 {
      RemoveMoves(t, s[c := RemoveAt(s[c], j)], t[c].parent, j);
    }
  }

  lemma {:induction false} SetRunningMoves(t: seq<Config>, s: seq<Chan>, c: int, j: Job)
    requires At(t, s, c)
    ensures MovesOnly(s, SetRunning(t, s, c, j), j, -1)
    ensures forall d | 0 <= d < |s| ::
              SetRunning(t, s, c, j)[d].running <= s[d].running + if c >= 0 && Below(t, c, d) then {j} else {}
    decreases c + 1
  {
    if c >= 0 && j !in s[c].running {
      SetRunningMoves(t, s[c := RunAt(s[c], j)], t[c].parent, j);
    }
  }

  /** Only a pending notification puts a job into a queue, the one of its home channel. */
  lemma {:induction false} DispatchMoves(t: seq<Config>, s: seq<Chan>, j: Job, state: JobState)
    requires IsTree(t) && |s| == |t| && j.channel < |t|
    ensures MovesOnly(s, Dispatch(t, s, j, state), j, if state.Pending? then j.channel else -1)
    ensures !state.Enqueued? && !state.Started? ==>
              forall d | 0 <= d < |s| :: Dispatch(t, s, j, state)[d].running <= s[d].running
  {
    var h := j.channel;
    RemoveMoves(t, s, h, j);
    RemoveMoves(t, s[h := PendAt(s[h], j)], t[h].parent, j);
    RemoveMoves(t, s[h := FailAt(s[h], j)], t[h].parent, j);
    SetRunningMoves(t, s, h, j);
  }

  lemma {:induction false} DispatchKeepsShapes(t: seq<Config>, s: seq<Chan>, j: Job, state: JobState)
    requires AllShaped(t, s) && j.channel < |t|
    ensures AllShaped(t, Dispatch(t, s, j, state))
  {
    RemoveKeepsShapes(t, s, j);
    SetPendingKeepsShapes(t, s, j);
    SetRunningKeepsShapes(t, s, j);
    SetFailedKeepsShapes(t, s, j);
  }

  // ---------------------------------------------------------------- every step keeps the invariant

  lemma {:induction false} RemoveJobRemoves(t: seq<Config>, m: Manager, uuid: string)
    requires ManagerAt(t, m)
    ensures JobsRemoved(t, m, {uuid}, RemoveJob(t, m, uuid))
  {
    assert JobsRemoved(t, m, {}, m) by {
      assert m.jobs - {} == m.jobs;
      forall c | 0 <= c < |t| ensures m.sched.ch[c] == Without(m.sched.ch[c], Through(t, m, {}, c)) {
        assert Through(t, m, {}, c) == {};
      }
    }
    OneMoreRemoved(t, m, {}, m, uuid);
    assert {} + {uuid} == {uuid};
  }

  /** A forgotten job is nowhere, and the others are where they were. */
  lemma {:induction false} ForgottenPlaces(t: seq<Config>, m: Manager, uuids: set<string>, n: Manager, j: Job)
    requires Good(t, m) && JobsRemoved(t, m, uuids, n)
    ensures if j.uuid in uuids && j.uuid in m.jobs && m.jobs[j.uuid] == j
            then forall c | 0 <= c < |t| :: PlaceOf(n.sched.ch[c], j) == Nowhere
            else SamePlaces(m.sched.ch, n.sched.ch, j)
  {
    if j.uuid in uuids && j.uuid in m.jobs && m.jobs[j.uuid] == j {
      forall c | 0 <= c < |t| ensures PlaceOf(n.sched.ch[c], j) == Nowhere {
        assert Shaped(t, m.sched.ch, j);
        assert Below(t, j.channel, c) ==> j in Through(t, m, uuids, c);
      }
    } else {
      forall c | 0 <= c < |t| ensures PlaceOf(n.sched.ch[c], j) == PlaceOf(m.sched.ch[c], j) {
        assert j !in Through(t, m, uuids, c);
      }
    }
  }

  lemma {:induction false} ForgetKeepsGood(t: seq<Config>, m: Manager, uuids: set<string>, n: Manager)
    requires Good(t, m) && JobsRemoved(t, m, uuids, n)
    ensures Good(t, n)
  {
    forall j ensures Shaped(t, n.sched.ch, j) {
      ForgottenPlaces(t, m, uuids, n, j);
      assert Shaped(t, m.sched.ch, j);
      if SamePlaces(m.sched.ch, n.sched.ch, j) {
        SameShape(t, m.sched.ch, n.sched.ch, j);
      } else if j.channel < |t| {
        EmptyIsClean(t, n.sched.ch, j.channel, j);
      }
    }
    forall c, j | 0 <= c < |t| && j in All(n.sched.ch[c]) ensures j.uuid in n.jobs && n.jobs[j.uuid] == j {
      ForgottenPlaces(t, m, uuids, n, j);
      assert j in All(m.sched.ch[c]) && PlaceOf(n.sched.ch[c], j) != Nowhere;
    }
    forall c | 0 <= c < |t| ensures WaitAtHome(n.sched.eta, n.sched.ch[c].queue, c) {
      assert WaitAtHome(m.sched.eta, m.sched.ch[c].queue, c);
    }
    ShapesGiveQueues(t, n.sched.ch);
  }

  lemma {:induction false} ShapesGiveQueues(t: seq<Config>, s: seq<Chan>)
    requires AllShaped(t, s)
    ensures QueuesFromBelow(t, s)
  {
    forall c, j | 0 <= c < |t| && j in s[c].queue ensures j.channel < |t| && Below(t, j.channel, c) {
      assert Shaped(t, s, j) && PlaceOf(s[c], j) != Nowhere;
    }
  }

  /** A new job object is in no channel, and the one it replaces is gone. */
  lemma {:induction false} EnterKeepsGood(t: seq<Config>, m: Manager, msg: Msg)
    requires Good(t, m) && msg.channel < |t| && msg.uuid !in m.jobs
    ensures Good(t, EnterJob(m, msg))
  {
    var n := EnterJob(m, msg);
    forall c | 0 <= c < |t| ensures WaitAtHome(n.sched.eta, n.sched.ch[c].queue, c) {
      assert WaitAtHome(m.sched.eta, m.sched.ch[c].queue, c);
    }
  }

  lemma {:induction false} RenewKeepsGood(t: seq<Config>, m: Manager, msg: Msg)
    requires Good(t, m) && msg.channel < |t|
    ensures Good(t, Renewed(t, m, msg))
  {
    if !Unchanged(m, msg) {
      var n := RemoveJob(t, m, msg.uuid);
      RemoveJobRemoves(t, m, msg.uuid);
      ForgetKeepsGood(t, m, {msg.uuid}, n);
      EnterKeepsGood(t, n, msg);
    }
  }

  lemma {:induction false} DispatchKeepsGood(t: seq<Config>, m: Manager, j: Job, state: JobState)
    requires Good(t, m) && j.uuid in m.jobs && m.jobs[j.uuid] == j
    ensures Good(t, m.(sched := Sched(Dispatch(t, m.sched.ch, j, state), m.sched.eta)))
  {
    var r := Dispatch(t, m.sched.ch, j, state);
    DispatchMoves(t, m.sched.ch, j, state);
    DispatchKeepsShapes(t, m.sched.ch, j, state);
    ShapesGiveQueues(t, r);
    forall c | 0 <= c < |t|
      ensures WaitAtHome(m.sched.eta, r[c].queue, c) && r[c].pauseUntil == m.sched.ch[c].pauseUntil
      ensures All(r[c]) <= All(m.sched.ch[c]) + {j}
    {
      assert WaitAtHome(m.sched.eta, m.sched.ch[c].queue, c);
      assert OnlyMoves(m.sched.ch[c], r[c], j, c == if state.Pending? then j.channel else -1);
    }
  }

  lemma {:induction false} PassKeepsKnown(
    t: seq<Config>, m: Manager, now: Time, n: Manager, outs: seq<seq<Job>>, c: nat)
    requires Good(t, m) && Pass(t, m.sched, now, n.sched, outs) && c < |t|
    ensures forall j | j in All(n.sched.ch[c]) + Set(outs[c]) :: j.uuid in m.jobs && m.jobs[j.uuid] == j
    decreases |t| - c
  {
    forall j | j in Inflow(t, outs, c) ensures j.uuid in m.jobs && m.jobs[j.uuid] == j {
      var d :| 0 <= d < |t| && t[d].parent == c && j in outs[d];
      PassKeepsKnown(t, m, now, n, outs, d);
    }
    OnlyFromBefore(t, m, now, n, outs, c);
    assert forall j | j in All(m.sched.ch[c]) :: j.uuid in m.jobs && m.jobs[j.uuid] == j;
  }

  /** After a pass, a channel has only what it had before and what came in. */
  lemma {:induction false} OnlyFromBefore(
    t: seq<Config>, m: Manager, now: Time, n: Manager, outs: seq<seq<Job>>, c: nat)
    requires Good(t, m) && Pass(t, m.sched, now, n.sched, outs) && c < |t|
    ensures All(n.sched.ch[c]) + Set(outs[c]) <= All(m.sched.ch[c]) + Inflow(t, outs, c)
  {
    assert PassAt(t, m.sched.ch, now, n.sched.ch, n.sched.eta, outs, c);
    YieldedFromBelow(t, m.sched, now, n.sched, outs, c);
  }

  lemma {:induction false} StepKeepsGood(t: seq<Config>, m: Manager, ev: Event, n: Manager)
    requires Good(t, m) && Step(t, m, ev, n)
    ensures Good(t, n)
  {
    match ev
    case Notified(msg) =>
      if Agrees(m, msg) {
        RenewKeepsGood(t, m, msg);
        var r := Renewed(t, m, msg);
        DispatchKeepsGood(t, r, r.jobs[msg.uuid], msg.state);
      }
    case Forgot(uuids) =>
      ForgetKeepsGood(t, m, uuids, n);
    case Passed(now, outs) =>
      PassKeepsShapes(t, m.sched, now, n.sched, outs);
      PassKeepsOrder(t, m.sched, now, n.sched, outs);
      forall c, j | 0 <= c < |t| && j in All(n.sched.ch[c]) ensures j.uuid in n.jobs && n.jobs[j.uuid] == j {
        PassKeepsKnown(t, m, now, n, outs, c);
      }
  }

  /** In every reachable state each job has one of the four shapes, and jobs wait where they may. */
  lemma {:induction false} RunsAreGood(t: seq<Config>, m: Manager, log: seq<Entry>)
    requires Good(t, m) && Run(t, m, log)
    ensures Good(t, End(m, log))
    decreases |log|
  {
    if log != [] {
      StepKeepsGood(t, m, log[0].event, log[0].after);
      RunsAreGood(t, log[0].after, log[1..]);
    }
  }
}
