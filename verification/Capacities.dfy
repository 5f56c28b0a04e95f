/** The capacity of a channel over whole runs, for all jobs of its subtree. */
module Capacities {
  import opened Jobs
  import opened SchedulerSpec
  import opened Subtrees
  import opened ManagerSpec
  import opened JobFlow
  import opened Passes
  import opened SchedulerRuns

  ghost predicate InCapacity(t: seq<Config>, s: seq<Chan>) {
    |s| == |t| && forall c | 0 <= c < |t| :: WithinCapacity(t[c], s[c])
  }

  lemma {:induction false} SmallerSet(a: set<Job>, b: set<Job>)
    requires a <= b
    ensures |a| <= |b|
  {
    if a != {} {
      var x :| x in a;
      SmallerSet(a - {x}, b - {x});
    }
  }

  lemma {:induction false} LessRunning(t: seq<Config>, s: seq<Chan>, r: seq<Chan>)
    requires InCapacity(t, s) && |r| == |s| && forall c | 0 <= c < |s| :: r[c].running <= s[c].running
    ensures InCapacity(t, r)
  {
    forall c | 0 <= c < |t| ensures WithinCapacity(t[c], r[c]) {
      SmallerSet(r[c].running, s[c].running);
    }
  }

  function Limit(cfg: Config): int {
    if cfg.capacity > 0 then cfg.capacity else 0
  }

  // ---------------------------------------------------------------- a job that is announced as running

  /** The job runs already, or every limited channel on its path can run one more. */
  ghost predicate HasRoom(t: seq<Config>, s: seq<Chan>, j: Job)
    requires IsTree(t) && |s| == |t| && j.channel < |t|
  {
    || j in s[j.channel].running
    || forall c | 0 <= c < |t| && Below(t, j.channel, c) && t[c].capacity != 0 :: |s[c].running + {j}| <= Limit(t[c])
  }

  /** Marking a job running that does not run yet adds it to the channels of its path and to no others. */
  lemma {:induction false} RunsOnPath(t: seq<Config>, s: seq<Chan>, j: Job, c: nat)
    requires AllShaped(t, s) && j.channel < |t| && j !in s[j.channel].running && c < |t|
    ensures SetRunning(t, s, j.channel, j)[c].running == s[c].running + if Below(t, j.channel, c) then {j} else {}
  {
    var r := SetRunning(t, s, j.channel, j);
    SetRunningKeepsShapes(t, s, j);
    SetRunningPlaces(t, s, j.channel, j);
    SetRunningMoves(t, s, j.channel, j);
    if Below(t, j.channel, c) {
      assert PlaceOf(r[c], j) == Running;
      forall x | x in s[c].running ensures x in r[c].running {
        if x != j {
          assert SamePlaces(s, r, x) && Shaped(t, s, x) && Shaped(t, r, x);
          NotMixed(t, s, x, c);
        }
      }
    }
  }

  lemma {:induction false} NotMixed(t: seq<Config>, s: seq<Chan>, j: Job, c: nat)
    requires AllShaped(t, s) && c < |t|
    ensures PlaceOf(s[c], j) != Mixed
  {
    assert Shaped(t, s, j);
    if PlaceOf(s[c], j) != Nowhere {
      ShapeAt(t, s, c, j);
    }
  }

  /** Marking a job running keeps all channels within their capacities exactly if there is room for it. */
  lemma {:induction false} RoomDecides(t: seq<Config>, s: seq<Chan>, j: Job)
    requires AllShaped(t, s) && InCapacity(t, s) && j.channel < |t|
    ensures InCapacity(t, SetRunning(t, s, j.channel, j)) <==> HasRoom(t, s, j)
  {
    var r := SetRunning(t, s, j.channel, j);
    if j !in s[j.channel].running {
      forall c | 0 <= c < |t|
        ensures WithinCapacity(t[c], r[c]) <==>
                (Below(t, j.channel, c) && t[c].capacity != 0 ==> |s[c].running + {j}| <= Limit(t[c]))
      {
        RunsOnPath(t, s, j, c);
        assert WithinCapacity(t[c], s[c]);
        assert !Below(t, j.channel, c) ==> r[c].running == s[c].running;
      }
    }
  }

  // ---------------------------------------------------------------- one step

  predicate SaysRunning(state: JobState) {
    state.Enqueued? || state.Started?
  }

  /** If the event announces that a job runs, there is room for the job object that then stands for it. */
  ghost predicate FindsRoom(t: seq<Config>, m: Manager, ev: Event) {
    ev.Notified? && SaysRunning(ev.msg.state) && ManagerAt(t, m) && ev.msg.channel < |t| && Agrees(m, ev.msg) ==>
      var n := Renewed(t, m, ev.msg);
      HasRoom(t, n.sched.ch, n.jobs[ev.msg.uuid])
  }

  lemma {:induction false} RenewedRunsNoMore(t: seq<Config>, m: Manager, msg: Msg)
    requires ManagerAt(t, m) && InCapacity(t, m.sched.ch) && msg.channel < |t|
    ensures InCapacity(t, Renewed(t, m, msg).sched.ch)
  {
    if !Unchanged(m, msg) && msg.uuid in m.jobs {
      RemoveMoves(t, m.sched.ch, m.jobs[msg.uuid].channel, m.jobs[msg.uuid]);
    }
    LessRunning(t, m.sched.ch, Renewed(t, m, msg).sched.ch);
  }

  lemma {:induction false} DispatchKeepsCapacity(t: seq<Config>, s: seq<Chan>, j: Job, state: JobState)
    requires AllShaped(t, s) && InCapacity(t, s) && j.channel < |t|
    ensures InCapacity(t, Dispatch(t, s, j, state)) <==> (SaysRunning(state) ==> HasRoom(t, s, j))
  {
    if SaysRunning(state) {
      RoomDecides(t, s, j);
    } else {
      DispatchMoves(t, s, j, state);
      LessRunning(t, s, Dispatch(t, s, j, state));
    }
  }

  lemma {:induction false} NotifyKeepsCapacity(t: seq<Config>, m: Manager, msg: Msg)
    requires Good(t, m) && InCapacity(t, m.sched.ch) && msg.channel < |t|
    ensures InCapacity(t, Notify(t, m, msg).sched.ch) <==> FindsRoom(t, m, Notified(msg))
  {
    if Agrees(m, msg) {
      var n := Renewed(t, m, msg);
      RenewedRunsNoMore(t, m, msg);
      RenewKeepsGood(t, m, msg);
      DispatchKeepsCapacity(t, n.sched.ch, n.jobs[msg.uuid], msg.state);
    }
  }

  /** A step keeps all channels within their capacities exactly if what it announces as running finds room. */
  lemma {:induction false} StepKeepsCapacity(t: seq<Config>, m: Manager, ev: Event, n: Manager)
    requires Good(t, m) && InCapacity(t, m.sched.ch) && Step(t, m, ev, n)
    ensures InCapacity(t, n.sched.ch) <==> FindsRoom(t, m, ev)
  {
    match ev
    case Notified(msg) => NotifyKeepsCapacity(t, m, msg);
    case Forgot(uuids) => LessRunning(t, m.sched.ch, n.sched.ch);
    case Passed(now, outs) =>
      forall c | 0 <= c < |t| ensures WithinCapacity(t[c], n.sched.ch[c]) {
        PassKeepsCapacity(t, m.sched, now, n.sched, outs, c);
      }
  }

  // ---------------------------------------------------------------- whole runs

  /** In every state of the run, all channels are within their capacities. */
  ghost predicate AlwaysInCapacity(t: seq<Config>, m: Manager, log: seq<Entry>)
    decreases |log|
  {
    InCapacity(t, m.sched.ch) && (log == [] || AlwaysInCapacity(t, log[0].after, log[1..]))
  }

  /** Whatever is announced as running during the run finds room. */
  ghost predicate AlwaysRoom(t: seq<Config>, m: Manager, log: seq<Entry>)
    decreases |log|
  {
    log == [] || (FindsRoom(t, m, log[0].event) && AlwaysRoom(t, log[0].after, log[1..]))
  }

  /** A run keeps all channels within their capacities exactly if whatever it announces as running finds room. */
  lemma {:induction false} RunsKeepCapacity(t: seq<Config>, m: Manager, log: seq<Entry>)
    requires Good(t, m) && InCapacity(t, m.sched.ch) && Run(t, m, log)
    ensures AlwaysInCapacity(t, m, log) <==> AlwaysRoom(t, m, log)
    decreases |log|
  {
    if log != [] {
      StepKeepsGood(t, m, log[0].event, log[0].after);
      StepKeepsCapacity(t, m, log[0].event, log[0].after);
      if InCapacity(t, log[0].after.sched.ch) {
        RunsKeepCapacity(t, log[0].after, log[1..]);
      }
    }
  }

  lemma {:induction false} AlwaysAtEnd(t: seq<Config>, m: Manager, log: seq<Entry>)
    requires AlwaysInCapacity(t, m, log)
    ensures InCapacity(t, End(m, log).sched.ch)
    decreases |log|
  {
    if log != [] {
      AlwaysAtEnd(t, log[0].after, log[1..]);
    }
  }

  /** The jobs from the subtree of channel c that are handed out and not finished. */
  ghost function HandedOut(t: seq<Config>, s: seq<Chan>, c: nat): set<Job>
    requires IsTree(t) && |s| == |t| && c < |t|
  {
    set j | j in s[0].running && j.channel < |t| && Below(t, j.channel, c)
  }

  lemma {:induction false} HandedOutWithin(t: seq<Config>, s: seq<Chan>, c: nat)
    requires AllShaped(t, s) && InCapacity(t, s) && c < |t| && t[c].capacity != 0
    ensures |HandedOut(t, s, c)| <= Limit(t[c])
  {
    forall j | j in HandedOut(t, s, c) ensures j in s[c].running {
      RunningAtRoot(t, s, c, j);
    }
    SmallerSet(HandedOut(t, s, c), s[c].running);
    assert WithinCapacity(t[c], s[c]);
  }

  /**
   * From an empty start, and if whatever is announced as running finds room, no more jobs of a subtree
   * are ever out at once than its channel may run.
   */
  lemma {:induction false} SubtreeCapacity(t: seq<Config>, m: Manager, log: seq<Entry>, c: nat)
    requires Initial(t, m) && Run(t, m, log) && AlwaysRoom(t, m, log) && c < |t| && t[c].capacity != 0
    ensures |End(m, log).sched.ch| == |t|
    ensures |HandedOut(t, End(m, log).sched.ch, c)| <= Limit(t[c])
  {
    InitialIsGood(t, m);
    RunsKeepCapacity(t, m, log);
    AlwaysAtEnd(t, m, log);
    RunsAreGood(t, m, log);
    HandedOutWithin(t, End(m, log).sched.ch, c);
  }

  // ---------------------------------------------------------------- notifications about jobs that are handed out

  /** A notification that a job runs names a job that has been handed out and has kept its channel. */
  ghost predicate Honest(m: Manager, ev: Event) {
    ev.Notified? && SaysRunning(ev.msg.state) ==>
      && |m.sched.ch| > 0 && ev.msg.uuid in m.jobs
      && m.jobs[ev.msg.uuid] in m.sched.ch[0].running && m.jobs[ev.msg.uuid].channel == ev.msg.channel
  }

  /** One job that ran at a channel has made room for another. */
  lemma {:induction false} Replaced(cfg: Config, ch: Chan, r: Chan, o: Job, j: Job)
    requires WithinCapacity(cfg, ch) && o in ch.running && r.running <= ch.running - {o} + {j}
    ensures WithinCapacity(cfg, r)
  {
    SmallerSet(r.running, ch.running - {o} + {j});
  }

  /** What channel c runs once o has been removed and j runs in its place. */
  lemma {:induction false} RerunAt(t: seq<Config>, s: seq<Chan>, o: Job, j: Job, h: nat, c: nat)
    requires IsTree(t) && |s| == |t| && h < |t| && c < |t|
    ensures SetRunning(t, Remove(t, s, h, o), h, j)[c].running <=
            if Below(t, h, c) then s[c].running - {o} + {j} else s[c].running
  {
    RemoveAlongPath(t, s, h, o, c);
    SetRunningMoves(t, Remove(t, s, h, o), h, j);
  }

  /** Removing a job that is handed out and running another from the same channel on keeps the capacities. */
  lemma {:induction false} RerunKeepsCapacity(t: seq<Config>, s: seq<Chan>, o: Job, j: Job, h: nat)
    requires AllShaped(t, s) && InCapacity(t, s) && h < |t| && o in s[0].running && o.channel == h
    ensures InCapacity(t, SetRunning(t, Remove(t, s, h, o), h, j))
  {
    var r := SetRunning(t, Remove(t, s, h, o), h, j);
    forall c | 0 <= c < |t| ensures WithinCapacity(t[c], r[c]) {
      RerunAt(t, s, o, j, h, c);
      if Below(t, h, c) {
        RunningAtRoot(t, s, c, o);
        Replaced(t[c], s[c], r[c], o, j);
      } else {
        SmallerSet(r[c].running, s[c].running);
      }
    }
  }

  /** A job that is handed out always finds room, also when a new object takes its place. */
  lemma {:induction false} HonestFindsRoom(t: seq<Config>, m: Manager, ev: Event)
    requires Good(t, m) && InCapacity(t, m.sched.ch) && Honest(m, ev)
    ensures FindsRoom(t, m, ev)
  {
    if ev.Notified? && SaysRunning(ev.msg.state) && ev.msg.channel < |t| && Agrees(m, ev.msg) {
      var n, o := Renewed(t, m, ev.msg), m.jobs[ev.msg.uuid];
      if Unchanged(m, ev.msg) {
        RunningAtRoot(t, m.sched.ch, o.channel, o);
      } else {
        RenewedRunsNoMore(t, m, ev.msg);
        RenewKeepsGood(t, m, ev.msg);
        RerunKeepsCapacity(t, m.sched.ch, o, n.jobs[ev.msg.uuid], ev.msg.channel);
        RoomDecides(t, n.sched.ch, n.jobs[ev.msg.uuid]);
      }
    }
  }

  ghost predicate HonestRun(m: Manager, log: seq<Entry>)
    decreases |log|
  {
    log == [] || (Honest(m, log[0].event) && HonestRun(log[0].after, log[1..]))
  }

  /** So a run in which only jobs that are handed out are announced as running keeps the capacities. */
  lemma {:induction false} HonestRunsFindRoom(t: seq<Config>, m: Manager, log: seq<Entry>)
    requires Good(t, m) && InCapacity(t, m.sched.ch) && Run(t, m, log) && HonestRun(m, log)
    ensures AlwaysRoom(t, m, log)
    decreases |log|
  {
    if log != [] {
      HonestFindsRoom(t, m, log[0].event);
      StepKeepsGood(t, m, log[0].event, log[0].after);
      StepKeepsCapacity(t, m, log[0].event, log[0].after);
      HonestRunsFindRoom(t, log[0].after, log[1..]);
    }
  }

  // ---------------------------------------------------------------- two jobs that are announced at the start

  /** With a root of capacity one, the first of two jobs announced as started finds room, and the second does not. */
  lemma {:induction false} SecondFindsNoRoom(t: seq<Config>, m: Manager, key: Key, eta: Time) returns (log: seq<Entry>)
    requires Initial(t, m) && t == [Config(-1, 1, 0.0, false)]
    ensures Run(t, m, log) && |log| == 2 && FindsRoom(t, m, log[0].event) && !FindsRoom(t, log[0].after, log[1].event)
    ensures |End(m, log).sched.ch| == 1 && |HandedOut(t, End(m, log).sched.ch, 0)| == 2
  {
    var a, b := Msg("db", 0, "a", key, eta, Started), Msg("db", 0, "b", key, eta, Started);
    var m1 := Notify(t, m, a);
    var m2 := Notify(t, m1, b);
    log := [Entry(Notified(a), m1), Entry(Notified(b), m2)];
    assert log[1..] == [Entry(Notified(b), m2)] && log[1..][1..] == [];
    BothRun(t, m, a, b);
    InitialIsGood(t, m);
    StepKeepsGood(t, m, Notified(a), m1);
    StepKeepsCapacity(t, m, Notified(a), m1);
    StepKeepsCapacity(t, m1, Notified(b), m2);
  }

  lemma {:induction false} BothRun(t: seq<Config>, m: Manager, a: Msg, b: Msg)
    requires Initial(t, m) && t == [Config(-1, 1, 0.0, false)]
    requires a.channel == b.channel == 0 && a.uuid != b.uuid && a.state.Started? && b.state.Started?
    ensures var m1 := Notify(t, m, a);
            var m2 := Notify(t, m1, b);
            && InCapacity(t, m1.sched.ch) && !InCapacity(t, m2.sched.ch)
            && |m2.sched.ch| == 1 && |HandedOut(t, m2.sched.ch, 0)| == 2
  {
    var m1 := Notify(t, m, a);
    var m2 := Notify(t, m1, b);
    var ja, jb := NewJob(m, a), NewJob(m1, b);
    assert m1.sched.ch[0].running == {ja} && m1.jobs == map[a.uuid := ja];
    assert m2.sched.ch[0].running == {ja, jb};
    assert HandedOut(t, m2.sched.ch, 0) == {ja, jb};
    assert !WithinCapacity(t[0], m2.sched.ch[0]);
  }
}
