/** The runner and the stored jobs together: what it is told is what the rows say when it looks. */
module RunnerRuns {
  import opened Jobs
  import opened SchedulerSpec
  import opened Subtrees
  import opened ManagerSpec
  import opened JobFlow
  import opened Passes
  import opened SchedulerRuns
  import opened SchedulerSafety
  import opened Capacities
  import opened Notifications
  import JobSteps
  import Dependencies

  /** The channel manager of the runner, and the stored jobs. */
  datatype World = World(m: Manager, s: JobSteps.System)

  /** Something happens to the stored jobs; the runner reads a row, or finds none, or makes a pass. */
  datatype Happening =
    | Stored(step: JobSteps.Step)
    | Heard(msg: Msg)
    | Missed(uuid: string)
    | Handed(now: Time, outs: seq<seq<Job>>)

  datatype Moment = Moment(what: Happening, after: World)

  function StateOf(state: JobSteps.State): JobState {
    match state
    case WaitDependencies => WaitDependencies
    case Pending => Pending
    case Enqueued => Enqueued
    case Started => Started
    case Done => Done
    case Failed => JobState.Failed
  }

  /** Different jobs have different rows. */
  ghost predicate OneToOne(id: string -> nat) {
    forall u, v :: id(u) == id(v) ==> u == v
  }

  ghost function Rows(id: string -> nat, out: seq<Job>): set<nat> {
    set i | 0 <= i < |out| :: id(out[i].uuid)
  }

  /** The runner's update: it does not look at the state that it overwrites. */
  function Marked(rows: JobSteps.Rows, js: set<nat>): JobSteps.Rows {
    map j | j in rows :: if j in js then rows[j].(state := JobSteps.Enqueued) else rows[j]
  }

  /** `Stored` is any step of the stored jobs but the hand-out, which only a pass of the runner makes. */
  ghost predicate Occurs(t: seq<Config>, id: string -> nat, w: World, what: Happening, w': World) {
    match what
    case Stored(step) =>
      !step.HandOut? && JobSteps.Enabled(w.s, step) && w' == World(w.m, JobSteps.Next(w.s, step))
    case Heard(msg) =>
      && id(msg.uuid) in w.s.rows && msg.state == StateOf(w.s.rows[id(msg.uuid)].state)
      && Step(t, w.m, Notified(msg), w'.m) && w'.s == w.s
    case Missed(uuid) => id(uuid) !in w.s.rows && Step(t, w.m, Forgot({uuid}), w'.m) && w'.s == w.s
    case Handed(now, outs) =>
      && Step(t, w.m, Passed(now, outs), w'.m)
      && w'.s == JobSteps.System(Marked(w.s.rows, Rows(id, outs[0])), w.s.owing)
  }

  ghost predicate History(t: seq<Config>, id: string -> nat, w: World, log: seq<Moment>)
    decreases |log|
  {
    log == [] || (Occurs(t, id, w, log[0].what, log[0].after) && History(t, id, log[0].after, log[1..]))
  }

  function Last(w: World, log: seq<Moment>): World {
    if log == [] then w else log[|log| - 1].after
  }

  // ---------------------------------------------------------------- what is queued is pending

  ghost predicate PendingRow(id: string -> nat, s: JobSteps.System, uuid: string) {
    id(uuid) in s.rows && s.rows[id(uuid)].state == JobSteps.Pending
  }

  ghost function AllQueued(s: seq<Chan>): set<Job> {
    set c, j | 0 <= c < |s| && j in s[c].queue :: j
  }

  ghost predicate InStep(t: seq<Config>, id: string -> nat, w: World) {
    Good(t, w.m) && forall j | j in AllQueued(w.m.sched.ch) :: PendingRow(id, w.s, j.uuid)
  }

  /** What a pass yields or leaves in a queue was in some queue before. */
  lemma {:induction false} WasQueued(t: seq<Config>, m: Manager, now: Time, outs: seq<seq<Job>>, n: Manager, c: nat)
    requires Good(t, m) && Step(t, m, Passed(now, outs), n) && c < |t|
    ensures n.sched.ch[c].queue + Set(outs[c]) <= AllQueued(m.sched.ch)
    decreases |t| - c
  {
    assert PassAt(t, m.sched.ch, now, n.sched.ch, n.sched.eta, outs, c);
    YieldedFromBelow(t, m.sched, now, n.sched, outs, c);
    forall j | j in Inflow(t, outs, c) ensures j in AllQueued(m.sched.ch) {
      var d :| 0 <= d < |t| && t[d].parent == c && j in outs[d];
      WasQueued(t, m, now, outs, n, d);
    }
  }

  /** A notification puts nothing into a queue but the job it announces as pending. */
  lemma {:induction false} NotifyQueues(t: seq<Config>, m: Manager, msg: Msg, j: Job)
    requires Good(t, m) && msg.channel < |t| && j in AllQueued(Notify(t, m, msg).sched.ch)
    ensures j in AllQueued(m.sched.ch) || (j.uuid == msg.uuid && msg.state.Pending?)
  {
    if Agrees(m, msg) {
      var n := Renewed(t, m, msg);
      if msg.uuid in m.jobs {
        RemoveMoves(t, m.sched.ch, m.jobs[msg.uuid].channel, m.jobs[msg.uuid]);
      }
      var o, r := n.jobs[msg.uuid], Dispatch(t, n.sched.ch, n.jobs[msg.uuid], msg.state);
      DispatchMoves(t, n.sched.ch, o, msg.state);
      var c :| 0 <= c < |r| && j in r[c].queue;
      assert OnlyMoves(n.sched.ch[c], r[c], o, c == if msg.state.Pending? then o.channel else -1);
      assert n.sched.ch[c].queue <= m.sched.ch[c].queue;
    }
  }

  /** Nothing but a hand-out takes a row out of the pending state. */
  lemma PendingStays(id: string -> nat, s: JobSteps.System, step: JobSteps.Step, uuid: string)
    requires JobSteps.Enabled(s, step) && !step.HandOut? && PendingRow(id, s, uuid)
    ensures PendingRow(id, JobSteps.Next(s, step), uuid)
  {}

  lemma {:induction false} PassKeepsInStep(
    t: seq<Config>, id: string -> nat, w: World, now: Time, outs: seq<seq<Job>>, w': World)
    requires OneToOne(id) && InStep(t, id, w) && Occurs(t, id, w, Handed(now, outs), w')
    ensures forall j | j in AllQueued(w'.m.sched.ch) :: PendingRow(id, w'.s, j.uuid)
  {
    forall j | j in AllQueued(w'.m.sched.ch) ensures PendingRow(id, w'.s, j.uuid) {
      var c :| 0 <= c < |w'.m.sched.ch| && j in w'.m.sched.ch[c].queue;
      WasQueued(t, w.m, now, outs, w'.m, c);
      forall i | 0 <= i < |outs[0]| ensures id(outs[0][i].uuid) != id(j.uuid) {
        NotQueuedAfterHandOut(t, w.m, now, outs, w'.m, i);
      }
    }
  }

  lemma {:induction false} StaysInStep(t: seq<Config>, id: string -> nat, w: World, what: Happening, w': World)
    requires OneToOne(id) && InStep(t, id, w) && Occurs(t, id, w, what, w')
    ensures InStep(t, id, w')
  {
    match what
    case Stored(step) =>
      forall j | j in AllQueued(w.m.sched.ch) ensures PendingRow(id, w'.s, j.uuid) {
        PendingStays(id, w.s, step, j.uuid);
      }
    case Heard(msg) =>
      StepKeepsGood(t, w.m, Notified(msg), w'.m);
      forall j | j in AllQueued(w'.m.sched.ch) ensures PendingRow(id, w'.s, j.uuid) {
        NotifyQueues(t, w.m, msg, j);
      }
    case Missed(uuid) =>
      StepKeepsGood(t, w.m, Forgot({uuid}), w'.m);
    case Handed(now, outs) =>
      StepKeepsGood(t, w.m, Passed(now, outs), w'.m);
      PassKeepsInStep(t, id, w, now, outs, w');
  }

  /** A hand-out always finds the row of the job pending, although the runner does not look. */
  lemma {:induction false} HandOutFindsPending(t: seq<Config>, id: string -> nat, w: World, log: seq<Moment>)
    requires OneToOne(id) && InStep(t, id, w) && History(t, id, w, log) && log != [] && log[|log| - 1].what.Handed?
    ensures |log[|log| - 1].what.outs| > 0
    ensures var before, out := Last(w, log[..|log| - 1]), log[|log| - 1].what.outs[0];
            forall j | j in out :: PendingRow(id, before.s, j.uuid)
    decreases |log|
  {
    if |log| == 1 {
      WasQueued(t, w.m, log[0].what.now, log[0].what.outs, log[0].after.m, 0);
    } else {
      StaysInStep(t, id, w, log[0].what, log[0].after);
      HandOutFindsPending(t, id, log[0].after, log[1..]);
      assert log[..|log| - 1][1..] == log[1..][..|log| - 2];
    }
  }

  // ---------------------------------------------------------------- the rows go through their own steps

  lemma {:induction false} Appended(s: JobSteps.System, a: seq<JobSteps.Step>, b: seq<JobSteps.Step>)
    requires JobSteps.Run(s, a) && JobSteps.Run(JobSteps.End(s, a), b)
    ensures JobSteps.Run(s, a + b) && JobSteps.End(s, a + b) == JobSteps.End(JobSteps.End(s, a), b)
    decreases |a|
  {
    if a == [] {
      assert a + b == b;
    } else {
      Appended(JobSteps.Next(s, a[0]), a[1..], b);
      assert (a + b)[1..] == a[1..] + b;
    }
  }

  function HandOuts(id: string -> nat, out: seq<Job>): seq<JobSteps.Step> {
    seq(|out|, i requires 0 <= i < |out| => JobSteps.HandOut(id(out[i].uuid)))
  }

  /** Marking the rows of different pending jobs is handing them out one after another. */
  lemma {:induction false} MarksAreHandOuts(id: string -> nat, s: JobSteps.System, out: seq<Job>)
    requires OneToOne(id) && forall j | j in out :: PendingRow(id, s, j.uuid)
    requires forall i, k | 0 <= i < k < |out| :: out[i].uuid != out[k].uuid
    ensures JobSteps.Run(s, HandOuts(id, out))
    ensures JobSteps.End(s, HandOuts(id, out)) == JobSteps.System(Marked(s.rows, Rows(id, out)), s.owing)
    decreases |out|
  {
    if out == [] {
      assert Marked(s.rows, {}) == s.rows;
    } else {
      var step := JobSteps.HandOut(id(out[0].uuid));
      var s' := JobSteps.Next(s, step);
      assert HandOuts(id, out)[1..] == HandOuts(id, out[1..]);
      assert out[0] in out;
      forall j | j in out[1..] ensures PendingRow(id, s', j.uuid) {
        assert j in out && id(j.uuid) != id(out[0].uuid);
      }
      MarksAreHandOuts(id, s', out[1..]);
      assert Rows(id, out) == Rows(id, out[1..]) + {id(out[0].uuid)};
      assert Marked(s'.rows, Rows(id, out[1..])) == Marked(s.rows, Rows(id, out));
    }
  }

  /** Whatever happens is a run of the steps of the stored jobs. */
  lemma {:induction false} OccursInSteps(t: seq<Config>, id: string -> nat, w: World, what: Happening, w': World)
    returns (steps: seq<JobSteps.Step>)
    requires OneToOne(id) && InStep(t, id, w) && Occurs(t, id, w, what, w')
    ensures JobSteps.Run(w.s, steps) && JobSteps.End(w.s, steps) == w'.s
  {
    match what
    case Stored(step) =>
      steps := [step];
      assert steps[1..] == [];
    case Heard(_) | Missed(_) =>
      steps := [];
    case Handed(now, outs) =>
      WasQueued(t, w.m, now, outs, w'.m, 0);
      forall i | 0 <= i < |outs[0]|
        ensures forall k | 0 <= k < |outs[0]| && k != i :: outs[0][k].uuid != outs[0][i].uuid
      {
        NotQueuedAfterHandOut(t, w.m, now, outs, w'.m, i);
      }
      MarksAreHandOuts(id, w.s, outs[0]);
      steps := HandOuts(id, outs[0]);
  }

  /** So what holds of all runs of the stored jobs holds with the runner: dependency safety, for one. */
  lemma {:induction false} HistoryIsRun(t: seq<Config>, id: string -> nat, w: World, log: seq<Moment>)
    returns (steps: seq<JobSteps.Step>)
    requires OneToOne(id) && InStep(t, id, w) && History(t, id, w, log)
    ensures JobSteps.Run(w.s, steps) && JobSteps.End(w.s, steps) == Last(w, log).s
    decreases |log|
  {
    if log == [] {
      steps := [];
    } else {
      var first := OccursInSteps(t, id, w, log[0].what, log[0].after);
      StaysInStep(t, id, w, log[0].what, log[0].after);
      var rest := HistoryIsRun(t, id, log[0].after, log[1..]);
      Appended(w.s, first, rest);
      steps := first + rest;
    }
  }

  lemma {:induction false} HistoryIsSafe(t: seq<Config>, id: string -> nat, w: World, log: seq<Moment>)
    requires OneToOne(id) && InStep(t, id, w) && History(t, id, w, log)
    requires Dependencies.Stored(w.s) && Dependencies.Safe(w.s)
    ensures Dependencies.Safe(Last(w, log).s)
  {
    var steps := HistoryIsRun(t, id, w, log);
    Dependencies.DependencySafety(w.s, steps);
  }

  // ---------------------------------------------------------------- what executes is handed out

  ghost predicate ExecutingRow(id: string -> nat, s: JobSteps.System, uuid: string) {
    id(uuid) in s.rows && JobSteps.Executing(s.rows[id(uuid)])
  }

  /** The job is known, at home in its channel, and running up to the root. */
  ghost predicate IsOut(m: Manager, uuid: string, home: string -> nat) {
    && |m.sched.ch| > 0 && uuid in m.jobs
    && m.jobs[uuid] in m.sched.ch[0].running && m.jobs[uuid].channel == home(uuid)
  }

  ghost predicate OutInStep(t: seq<Config>, id: string -> nat, home: string -> nat, w: World) {
    && InStep(t, id, w)
    && (forall u | u in w.m.jobs :: w.m.jobs[u].channel == home(u))
    && forall u | ExecutingRow(id, w.s, u) :: IsOut(w.m, u, home)
  }

  /** A job keeps its channel. */
  ghost predicate AtHome(home: string -> nat, what: Happening) {
    what.Heard? ==> what.msg.channel == home(what.msg.uuid)
  }

  lemma {:induction false} OthersStayOut(t: seq<Config>, m: Manager, msg: Msg, u: string)
    requires Good(t, m) && msg.channel < |t| && Agrees(m, msg) && u != msg.uuid
    requires u in m.jobs && m.jobs[u] in m.sched.ch[0].running
    ensures u in Notify(t, m, msg).jobs && Notify(t, m, msg).jobs[u] == m.jobs[u]
    ensures m.jobs[u] in Notify(t, m, msg).sched.ch[0].running
  {
    var n, x := Renewed(t, m, msg), m.jobs[u];
    RenewKeepsGood(t, m, msg);
    if msg.uuid in m.jobs {
      RemovePlaces(t, m.sched.ch, m.jobs[msg.uuid].channel, m.jobs[msg.uuid]);
      assert SamePlaces(m.sched.ch, Remove(t, m.sched.ch, m.jobs[msg.uuid].channel, m.jobs[msg.uuid]), x);
    }
    NotMixed(t, m.sched.ch, x, 0);
    assert PlaceOf(n.sched.ch[0], x) == Running;
    OthersStay(t, n.sched.ch, n.jobs[msg.uuid], msg.state, x);
  }

  /** A job that is out, or whose object is new, is out after it has been announced as running. */
  lemma {:induction false} AnnouncedIsOut(t: seq<Config>, m: Manager, msg: Msg)
    requires Good(t, m) && msg.channel < |t| && Agrees(m, msg) && SaysRunning(msg.state)
    requires msg.uuid in m.jobs && m.jobs[msg.uuid] in m.sched.ch[0].running
    ensures var n := Notify(t, m, msg); msg.uuid in n.jobs && n.jobs[msg.uuid] in n.sched.ch[0].running
  {
    RenewedIsOut(t, m, msg);
  }

  lemma {:induction false} RenewedIsOut(t: seq<Config>, m: Manager, msg: Msg)
    requires Good(t, m) && msg.channel < |t|
    requires msg.uuid in m.jobs && m.jobs[msg.uuid] in m.sched.ch[0].running
    ensures var n := Renewed(t, m, msg);
            n.jobs[msg.uuid] in SetRunning(t, n.sched.ch, msg.channel, n.jobs[msg.uuid])[0].running
  {
    if Unchanged(m, msg) {
      RunsAlready(t, m.sched.ch, m.jobs[msg.uuid]);
    } else {
      RenewKeepsGood(t, m, msg);
      NewIsNowhere(t, m, msg);
      NewRuns(t, Renewed(t, m, msg).sched.ch, Renewed(t, m, msg).jobs[msg.uuid]);
    }
  }

  lemma {:induction false} RunsAlready(t: seq<Config>, s: seq<Chan>, j: Job)
    requires AllShaped(t, s) && j.channel < |t| && j in s[0].running
    ensures SetRunning(t, s, j.channel, j) == s
  {
    RunningAtRoot(t, s, j.channel, j);
  }

  lemma {:induction false} NewRuns(t: seq<Config>, s: seq<Chan>, j: Job)
    requires AllShaped(t, s) && j.channel < |t| && j !in s[j.channel].running
    ensures j in SetRunning(t, s, j.channel, j)[0].running
  {
    SetRunningKeepsShapes(t, s, j);
    AllBelowRoot(t, j.channel);
    assert PlaceOf(SetRunning(t, s, j.channel, j)[0], j) == Running;
  }

  /** A new job object is in no channel yet. */
  lemma {:induction false} NewIsNowhere(t: seq<Config>, m: Manager, msg: Msg)
    requires Good(t, m) && msg.channel < |t| && !Unchanged(m, msg)
    ensures var n := Renewed(t, m, msg); n.jobs[msg.uuid] !in n.sched.ch[msg.channel].running
  {
    var r := RemoveJob(t, m, msg.uuid);
    RemoveJobRemoves(t, m, msg.uuid);
    ForgetKeepsGood(t, m, {msg.uuid}, r);
    forall j | j in All(r.sched.ch[msg.channel]) ensures j in r.sched.eta {
      assert j.uuid in r.jobs && r.jobs[j.uuid] == j;
    }
    assert NewJob(r, msg) !in All(r.sched.ch[msg.channel]);
  }

  /** What a pass hands out is out, and what was out stays out. */
  lemma {:induction false} PassedIsOut(t: seq<Config>, m: Manager, now: Time, outs: seq<seq<Job>>, n: Manager,
                                       home: string -> nat, u: string)
    requires Good(t, m) && Step(t, m, Passed(now, outs), n) && forall v | v in m.jobs :: m.jobs[v].channel == home(v)
    requires IsOut(m, u, home) || exists i | 0 <= i < |outs[0]| :: outs[0][i].uuid == u
    ensures IsOut(n, u, home)
  {
    assert PassAt(t, m.sched.ch, now, n.sched.ch, n.sched.eta, outs, 0);
    PassKeepsKnown(t, m, now, n, outs, 0);
    if i :| 0 <= i < |outs[0]| && outs[0][i].uuid == u {
      PassKeepsShapes(t, m.sched, now, n.sched, outs);
      assert outs[0][i] in Set(outs[0]) && outs[0][i] in outs[0];
    }
  }

  lemma {:induction false} HeardKeepsOut(
    t: seq<Config>, id: string -> nat, home: string -> nat, w: World, msg: Msg, w': World)
    requires OneToOne(id) && OutInStep(t, id, home, w) && Occurs(t, id, w, Heard(msg), w')
    requires msg.channel == home(msg.uuid)
    ensures forall u | ExecutingRow(id, w'.s, u) :: IsOut(w'.m, u, home)
  {
    forall u | ExecutingRow(id, w'.s, u) ensures IsOut(w'.m, u, home) {
      assert ExecutingRow(id, w.s, u) && IsOut(w.m, u, home);
      if Agrees(w.m, msg) {
        if u == msg.uuid {
          AnnouncedIsOut(t, w.m, msg);
        } else {
          OthersStayOut(t, w.m, msg, u);
        }
      }
    }
  }

  lemma {:induction false} StaysOutInStep(
    t: seq<Config>, id: string -> nat, home: string -> nat, w: World, what: Happening, w': World)
    requires OneToOne(id) && OutInStep(t, id, home, w) && Occurs(t, id, w, what, w') && AtHome(home, what)
    ensures OutInStep(t, id, home, w')
  {
    StaysInStep(t, id, w, what, w');
    match what
    case Stored(step) =>
      forall u | ExecutingRow(id, w'.s, u) ensures ExecutingRow(id, w.s, u) {}
    case Heard(msg) =>
      HeardKeepsOut(t, id, home, w, msg, w');
    case Missed(uuid) =>
      forall u | ExecutingRow(id, w'.s, u) ensures IsOut(w'.m, u, home) {
        assert ExecutingRow(id, w.s, u) && u != uuid;
        assert w.m.jobs[u].uuid == u;
      }
    case Handed(now, outs) =>
      forall u | ExecutingRow(id, w'.s, u) ensures IsOut(w'.m, u, home) {
        if id(u) in Rows(id, outs[0]) {
          var i :| 0 <= i < |outs[0]| && id(outs[0][i].uuid) == id(u);
          assert outs[0][i].uuid == u;
        } else {
          assert ExecutingRow(id, w.s, u);
        }
        PassedIsOut(t, w.m, now, outs, w'.m, home, u);
      }
  }

  /** Whatever the runner hears to be running has been handed out by it. */
  lemma {:induction false} HearsHonestly(
    t: seq<Config>, id: string -> nat, home: string -> nat, w: World, msg: Msg, w': World)
    requires OutInStep(t, id, home, w) && Occurs(t, id, w, Heard(msg), w') && msg.channel == home(msg.uuid)
    ensures Honest(w.m, Notified(msg))
  {
    if SaysRunning(msg.state) {
      assert ExecutingRow(id, w.s, msg.uuid);
    }
  }

  ghost predicate AllAtHome(home: string -> nat, log: seq<Moment>) {
    forall i | 0 <= i < |log| :: AtHome(home, log[i].what)
  }

  lemma {:induction false} HistoryKeepsCapacity(
    t: seq<Config>, id: string -> nat, home: string -> nat, w: World, log: seq<Moment>)
    requires OneToOne(id) && OutInStep(t, id, home, w) && InCapacity(t, w.m.sched.ch)
    requires History(t, id, w, log) && AllAtHome(home, log)
    ensures OutInStep(t, id, home, Last(w, log)) && InCapacity(t, Last(w, log).m.sched.ch)
    decreases |log|
  {
    if log != [] {
      var what, w' := log[0].what, log[0].after;
      StaysOutInStep(t, id, home, w, what, w');
      match what {
        case Stored(step) =>
        case Heard(msg) =>
          HearsHonestly(t, id, home, w, msg, w');
          HonestFindsRoom(t, w.m, Notified(msg));
          StepKeepsCapacity(t, w.m, Notified(msg), w'.m);
        case Missed(uuid) =>
          StepKeepsCapacity(t, w.m, Forgot({uuid}), w'.m);
        case Handed(now, outs) =>
          StepKeepsCapacity(t, w.m, Passed(now, outs), w'.m);
      }
      HistoryKeepsCapacity(t, id, home, w', log[1..]);
    }
  }

  /**
   * A runner that starts with no jobs, and is told of jobs that keep their channels, never has more
   * jobs of a subtree out at once than its channel may run, and runs no job before its parents.
   */
  lemma {:induction false} RunnerKeepsCapacity(
    t: seq<Config>, id: string -> nat, home: string -> nat, w: World, log: seq<Moment>, c: nat)
    requires OneToOne(id) && Initial(t, w.m) && w.s == Dependencies.Empty
    requires History(t, id, w, log) && AllAtHome(home, log) && c < |t| && t[c].capacity != 0
    ensures |Last(w, log).m.sched.ch| == |t| && |HandedOut(t, Last(w, log).m.sched.ch, c)| <= Limit(t[c])
    ensures Dependencies.Safe(Last(w, log).s)
  {
    InitialIsGood(t, w.m);
    HistoryKeepsCapacity(t, id, home, w, log);
    HandedOutWithin(t, Last(w, log).m.sched.ch, c);
    HistoryIsSafe(t, id, w, log);
  }
}
