/** From chains and groups to stored jobs: the stages of a chain run one after another. */
module Workflows {
  import opened Graphs
  import opened Flattening
  import opened Plans
  import opened PlanOrders
  import opened JobSteps
  import opened Dependencies

  /** Jobs keep their dependencies for ever. */
  lemma {:induction false} ParentsStay(s: System, log: seq<Step>, j: Id)
    requires Run(s, log) && j in s.rows
    ensures j in End(s, log).rows && End(s, log).rows[j].parents == s.rows[j].parents
    decreases |log|
  {
    if log != [] {
      var s' := Next(s, log[0]);
      assert j in s'.rows && s'.rows[j].parents == s.rows[j].parents;
      ParentsStay(s', log[1..], j);
    }
  }

  /** New jobs for the delayables of a plan, connected as the plan says. */
  ghost predicate Planned(nodes: seq<Node>, plan: map<nat, seq<nat>>, batch: map<Id, NewJob>) {
    && (forall d :: d in batch <==> InPlan(nodes, plan, d))
    && (forall t, h | h in batch :: t in batch[h].parents <==> Consecutive(nodes, plan, t, h))
  }

  /** What is stored for the connected graph of a plan is connected as the plan says. */
  lemma {:induction false} ConnectedIsPlanned(
    nodes: seq<Node>, start: nat, plan: map<nat, seq<nat>>, g: Adjacency<nat>, batch: map<Id, NewJob>)
    requires IsPlan(nodes, start, plan) && Merges(nodes, Reachable(nodes, start), g)
    requires batch.Keys == g.Keys && forall j | j in g :: batch[j].parents == Parents(g, j)
    ensures Planned(nodes, plan, batch)
  {
    FlattenPlan(nodes, start, plan, g);
    forall t, h | h in batch ensures t in batch[h].parents <==> Consecutive(nodes, plan, t, h) {
      assert t in Parents(g, h) <==> Edge(g, t, h);
    }
  }

  /** The stored jobs depend on each other as the plan says. */
  ghost predicate FollowsPlan(nodes: seq<Node>, plan: map<nat, seq<nat>>, rows: Rows) {
    forall t, h | Consecutive(nodes, plan, t, h) :: h in rows && t in rows[h].parents
  }

  /**
   * In every state that can be reached, a job that no longer waits has all jobs of the earlier stages
   * of its chain behind it, if no stage in between is empty: they are done.
   */
  lemma {:induction false} StagesRunInOrder(
    nodes: seq<Node>, plan: map<nat, seq<nat>>, batch: map<Id, NewJob>, log: seq<Step>, c: nat, i: nat, k: nat,
    t: nat, h: nat)
    requires Planned(nodes, plan, batch) && log != [] && log[0] == Create(batch) && Run(Empty, log)
    requires c in plan && i < k < |plan[c]| && t in Members(nodes, plan[c][i]) && h in Members(nodes, plan[c][k])
    requires forall j | i < j < k :: Members(nodes, plan[c][j]) != {}
    requires h in End(Empty, log).rows && End(Empty, log).rows[h].state != WaitDependencies
    ensures t in End(Empty, log).rows && End(Empty, log).rows[t].state == Done
  {
    RunsFollowPlan(nodes, plan, batch, log);
    DependencySafety(Empty, log);
    EarlierStagesDone(nodes, plan, End(Empty, log), c, i, k, t, h);
  }

  lemma {:induction false} RunsFollowPlan(
    nodes: seq<Node>, plan: map<nat, seq<nat>>, batch: map<Id, NewJob>, log: seq<Step>)
    requires Planned(nodes, plan, batch) && log != [] && log[0] == Create(batch) && Run(Empty, log)
    ensures FollowsPlan(nodes, plan, End(Empty, log).rows)
  {
    var rows := End(Empty, log).rows;
    forall t, h | Consecutive(nodes, plan, t, h) ensures h in rows && t in rows[h].parents {
      assert InPlan(nodes, plan, h);
      ParentsOfNew(batch, log, h);
    }
  }

  lemma {:induction false} EarlierStagesDone(
    nodes: seq<Node>, plan: map<nat, seq<nat>>, s: System, c: nat, i: nat, k: nat, t: nat, h: nat)
    requires Safe(s) && FollowsPlan(nodes, plan, s.rows)
    requires c in plan && i < k < |plan[c]| && t in Members(nodes, plan[c][i]) && h in Members(nodes, plan[c][k])
    requires forall j | i < j < k :: Members(nodes, plan[c][j]) != {}
    requires h in s.rows && s.rows[h].state != WaitDependencies
    ensures t in s.rows && s.rows[t].state == Done
    decreases k - i
  {
    var m :| m in Members(nodes, plan[c][k - 1]) && (k - 1 == i ==> m == t);
    assert Consecutive(nodes, plan, m, h);
    assert AllDone(s.rows, s.rows[h].parents);
    if k - 1 > i {
      EarlierStagesDone(nodes, plan, s, c, i, k - 1, t, m);
    }
  }

  lemma {:induction false} ParentsOfNew(batch: map<Id, NewJob>, log: seq<Step>, j: Id)
    requires log != [] && log[0] == Create(batch) && Run(Empty, log) && j in batch
    ensures j in End(Empty, log).rows && End(Empty, log).rows[j].parents == batch[j].parents
  {
    var s := Next(Empty, log[0]);
    assert j in s.rows && s.rows[j].parents == batch[j].parents;
    ParentsStay(s, log[1..], j);
  }

  // ---------------------------------------------------------------- a plan never deadlocks

  ghost predicate CreatesNothing(log: seq<Step>) {
    forall i | 0 <= i < |log| :: !log[i].Create?
  }

  lemma {:induction false} GraphStays(s: System, log: seq<Step>)
    requires Run(s, log) && CreatesNothing(log)
    ensures DependencyGraph(End(s, log).rows) == DependencyGraph(s.rows)
    decreases |log|
  {
    if log != [] {
      SameParents(s, log[0]);
      GraphStays(Next(s, log[0]), log[1..]);
    }
  }

  /**
   * The jobs stored for a plan never deadlock: whatever has happened to them, as long as no worker has
   * died before a release and none of them has failed, they are all done, or some can proceed, or a
   * release is outstanding; and all of them can still be brought to an end.
   */
  lemma {:induction false} PlanNeverDeadlocks(
    nodes: seq<Node>, start: nat, plan: map<nat, seq<nat>>, g: Adjacency<nat>, batch: map<Id, NewJob>,
    log: seq<Step>) returns (more: seq<Step>)
    requires IsPlan(nodes, start, plan) && NoRepeats(nodes, plan) && Merges(nodes, Reachable(nodes, start), g)
    requires batch.Keys == g.Keys && forall j | j in g :: batch[j].parents == Parents(g, j)
    requires Run(Empty, [Create(batch)] + log) && CreatesNothing(log) && NoDeathBeforeRelease(log)
    requires var s := End(Empty, [Create(batch)] + log); forall j | j in s.rows :: s.rows[j].state != Failed
    ensures var s := End(Empty, [Create(batch)] + log);
            && (s.owing == {} ==> AllDone(s.rows, s.rows.Keys) || CanProceed(s))
            && Run(s, more) && AllDone(End(s, more).rows, g.Keys)
  {
    var all := [Create(batch)] + log;
    assert all[1..] == log;
    ConnectsDelayables(nodes, start, g);
    PlanIsAcyclic(nodes, start, plan, g);
    CreatedGraph(g, batch);
    GraphStays(Next(Empty, all[0]), log);
    assert NoDeathBeforeRelease(all);
    more := RunsDoNotDeadlock(all);
    KeysStay(Next(Empty, all[0]), log);
  }

  lemma {:induction false} KeysStay(s: System, log: seq<Step>)
    requires Run(s, log)
    ensures s.rows.Keys <= End(s, log).rows.Keys
    decreases |log|
  {
    if log != [] {
      assert s.rows.Keys <= Next(s, log[0]).rows.Keys;
      KeysStay(Next(s, log[0]), log[1..]);
    }
  }

  // ---------------------------------------------------------------- what an empty stage lets through

  /** The jobs of the batch are stored, those of `done` are done, and the others have not begun. */
  ghost predicate Worked(batch: map<Id, NewJob>, s: System, done: set<Id>) {
    && s.rows.Keys == batch.Keys && s.owing == {} && done <= batch.Keys && Stored(s) && NotLost(s)
    && forall j | j in batch ::
         && s.rows[j].parents == batch[j].parents
         && if j in done then s.rows[j].state == Done else s.rows[j].state in {WaitDependencies, Pending}
  }

  lemma BatchWorked(batch: map<Id, NewJob>)
    requires Enabled(Empty, Create(batch))
    ensures Worked(batch, Next(Empty, Create(batch)), {})
  {
    StepKeepsSafe(Empty, Create(batch));
    StepKeepsNotLost(Empty, Create(batch));
  }

  /** A job that has not begun and whose parents are all done can be handed out. */
  lemma CanBegin(batch: map<Id, NewJob>, s: System, done: set<Id>, v: Id)
    requires Worked(batch, s, done) && v in batch && v !in done && batch[v].parents <= done
    ensures s.rows[v].state == Pending
  {
    assert !ToBeReleased(s, v);
  }

  /** As `Worked`, but job v is in some state while a worker has it. */
  ghost predicate Busy(batch: map<Id, NewJob>, s: System, done: set<Id>, v: Id, state: State) {
    && s.rows.Keys == batch.Keys && s.owing == {} && done <= batch.Keys && Stored(s) && NotLost(s) && Safe(s)
    && v in batch && v !in done && s.rows[v].state == state && s.rows[v].parents == batch[v].parents
    && forall j | j in batch && j != v ::
         && s.rows[j].parents == batch[j].parents
         && if j in done then s.rows[j].state == Done else s.rows[j].state in {WaitDependencies, Pending}
  }

  lemma Takes(batch: map<Id, NewJob>, s: System, done: set<Id>, v: Id)
    requires Worked(batch, s, done) && Safe(s) && v in batch && v !in done && batch[v].parents <= done
    ensures Enabled(s, HandOut(v)) && Busy(batch, Next(s, HandOut(v)), done, v, Enqueued)
  {
    CanBegin(batch, s, done, v);
    StepKeepsSafe(s, HandOut(v));
    StepKeepsNotLost(s, HandOut(v));
  }

  lemma Begins(batch: map<Id, NewJob>, s: System, done: set<Id>, v: Id)
    requires Busy(batch, s, done, v, Enqueued)
    ensures Enabled(s, Start(v)) && Busy(batch, Next(s, Start(v)), done, v, Started)
  {
    StepKeepsSafe(s, Start(v));
    StepKeepsNotLost(s, Start(v));
  }

  lemma Releases(batch: map<Id, NewJob>, s: System, done: set<Id>, v: Id)
    requires Busy(batch, s, done, v, Started)
    ensures Enabled(s, Finish(v, Succeeds))
    ensures var s' := Next(s, Finish(v, Succeeds));
            Enabled(s', Release(v)) && Worked(batch, Next(s', Release(v)), done + {v}) && Safe(Next(s', Release(v)))
  {
    var s' := Next(s, Finish(v, Succeeds));
    var s'' := Next(s', Release(v));
    StepKeepsSafe(s, Finish(v, Succeeds));
    StepKeepsNotLost(s, Finish(v, Succeeds));
    StepKeepsSafe(s', Release(v));
    StepKeepsNotLost(s', Release(v));
    forall j | j in batch
      ensures s''.rows[j].parents == batch[j].parents
      ensures if j in done + {v} then s''.rows[j].state == Done else s''.rows[j].state in {WaitDependencies, Pending}
    {
      assert j != v ==> s'.rows[j] == s.rows[j];
    }
  }

  /** One job is taken from being handed out to the release of its children. */
  lemma {:induction false} WorkOne(
    batch: map<Id, NewJob>, log: seq<Step>, done: set<Id>, v: Id) returns (more: seq<Step>)
    requires log != [] && Run(Empty, log) && Worked(batch, End(Empty, log), done) && Safe(End(Empty, log))
    requires v in batch && v !in done && batch[v].parents <= done
    ensures more != [] && more[0] == log[0] && Run(Empty, more)
    ensures Worked(batch, End(Empty, more), done + {v}) && Safe(End(Empty, more))
  {
    Takes(batch, End(Empty, log), done, v);
    OneMoreStep(Empty, log, HandOut(v));
    more := log + [HandOut(v)];
    Begins(batch, End(Empty, more), done, v);
    OneMoreStep(Empty, more, Start(v));
    more := more + [Start(v)];
    more := CompleteOne(batch, more, done, v);
  }

  lemma {:induction false} CompleteOne(
    batch: map<Id, NewJob>, log: seq<Step>, done: set<Id>, v: Id) returns (more: seq<Step>)
    requires log != [] && Run(Empty, log) && Busy(batch, End(Empty, log), done, v, Started)
    ensures more != [] && more[0] == log[0] && Run(Empty, more)
    ensures Worked(batch, End(Empty, more), done + {v}) && Safe(End(Empty, more))
  {
    Releases(batch, End(Empty, log), done, v);
    OneMoreStep(Empty, log, Finish(v, Succeeds));
    more := log + [Finish(v, Succeeds)];
    OneMoreStep(Empty, more, Release(v));
    more := more + [Release(v)];
  }

  /** The jobs of a batch can be worked off in any order that has parents first, and the others left alone. */
  lemma {:induction false} WorkOff(batch: map<Id, NewJob>, g: Adjacency<Id>, order: seq<Id>) returns (log: seq<Step>)
    requires Enabled(Empty, Create(batch)) && batch.Keys == g.Keys && ParentsFirst(g, order)
    requires forall j | j in g :: batch[j].parents == Parents(g, j)
    ensures log != [] && log[0] == Create(batch) && Run(Empty, log)
    ensures Worked(batch, End(Empty, log), Set(order)) && Safe(End(Empty, log))
    decreases |order|
  {
    if order == [] {
      BatchWorked(batch);
      StepKeepsSafe(Empty, Create(batch));
      log := [Create(batch)];
      assert log[1..] == [];
    } else {
      var n := |order| - 1;
      FirstPart(g, order, n);
      log := WorkOff(batch, g, order[..n]);
      log := WorkOne(batch, log, Set(order[..n]), order[n]);
      SetGrows(order, n);
      assert order[..n + 1] == order;
    }
  }

  lemma {:induction false} FirstPart(g: Adjacency<Id>, order: seq<Id>, n: nat)
    requires ParentsFirst(g, order) && n < |order|
    ensures ParentsFirst(g, order[..n]) && order[n] in g && order[n] !in Set(order[..n])
    ensures Parents(g, order[n]) <= Set(order[..n])
  {
    assert order[n] in Set(order);
    forall i | 0 <= i < n ensures Parents(g, order[..n][i]) <= Set(order[..n][..i]) {
      assert order[..n][..i] == order[..i];
    }
  }

  /** Behind an empty stage, a job can be done before a job of an earlier stage has begun. */
  lemma {:induction false} EmptyStageOvertakes(
    nodes: seq<Node>, start: nat, plan: map<nat, seq<nat>>, g: Adjacency<nat>, batch: map<Id, NewJob>, c: nat,
    i: nat, j: nat, k: nat, t: nat, h: nat)
    returns (log: seq<Step>)
    requires IsPlan(nodes, start, plan) && NoRepeats(nodes, plan) && Merges(nodes, Reachable(nodes, start), g)
    requires batch.Keys == g.Keys && forall d | d in g :: batch[d].parents == Parents(g, d)
    requires c in plan && i < j < k < |plan[c]| && Members(nodes, plan[c][j]) == {}
    requires t in Members(nodes, plan[c][i]) && h in Members(nodes, plan[c][k])
    ensures log != [] && log[0] == Create(batch) && Run(Empty, log)
    ensures h in End(Empty, log).rows && End(Empty, log).rows[h].state == Done
    ensures t in End(Empty, log).rows && End(Empty, log).rows[t].state != Done
  {
    var first := EmptyStageFirst(nodes, start, plan, g, c, j);
    NotAfterStage(nodes, plan, c, i, j, t);
    InGraph(nodes, start, plan, g, c, i, t);
    CanBeCreated(g, batch);
    assert h in AfterStage(nodes, plan, c, j);
    log := WorkOff(batch, g, first);
    StatesOf(batch, End(Empty, log), Set(first), h, t);
  }

  lemma CanBeCreated(g: Adjacency<Id>, batch: map<Id, NewJob>)
    requires Acyclic(g) && batch.Keys == g.Keys && forall d | d in g :: batch[d].parents == Parents(g, d)
    ensures Enabled(Empty, Create(batch))
  {
    forall d | d in g ensures d !in Parents(g, d) {
      assert !Cycle(g, [d, d]);
      assert !Edge(g, d, d);
    }
  }

  lemma {:induction false} InGraph(
    nodes: seq<Node>, start: nat, plan: map<nat, seq<nat>>, g: Adjacency<nat>, c: nat, i: nat, t: nat)
    requires IsPlan(nodes, start, plan) && Merges(nodes, Reachable(nodes, start), g)
    requires c in plan && i < |plan[c]| && t in Members(nodes, plan[c][i])
    ensures t in g
  {
    FlattenPlan(nodes, start, plan, g);
    assert InPlan(nodes, plan, t);
  }

  lemma StatesOf(batch: map<Id, NewJob>, s: System, done: set<Id>, h: Id, t: Id)
    requires Worked(batch, s, done) && h in done && t in batch && t !in done
    ensures h in s.rows && s.rows[h].state == Done && t in s.rows && s.rows[t].state != Done
  {}

  /** In every reachable state of these jobs, t is done if h no longer waits. */
  ghost predicate RunsBefore(batch: map<Id, NewJob>, t: Id, h: Id) {
    forall log: seq<Step> | log != [] && log[0] == Create(batch) && Run(Empty, log) ::
      var rows := End(Empty, log).rows;
      h in rows && rows[h].state != WaitDependencies ==> t in rows && rows[t].state == Done
  }

  /** A job runs after the jobs of an earlier stage, in every run, exactly if no stage in between is empty. */
  lemma {:induction false} StagesRunExactly(
    nodes: seq<Node>, start: nat, plan: map<nat, seq<nat>>, g: Adjacency<nat>, batch: map<Id, NewJob>, c: nat,
    i: nat, k: nat, t: nat, h: nat)
    requires IsPlan(nodes, start, plan) && NoRepeats(nodes, plan) && Merges(nodes, Reachable(nodes, start), g)
    requires batch.Keys == g.Keys && forall d | d in g :: batch[d].parents == Parents(g, d)
    requires c in plan && i < k < |plan[c]| && t in Members(nodes, plan[c][i]) && h in Members(nodes, plan[c][k])
    ensures RunsBefore(batch, t, h) <==> forall j | i < j < k :: Members(nodes, plan[c][j]) != {}
  {
    if j :| i < j < k && Members(nodes, plan[c][j]) == {} {
      var log := EmptyStageOvertakes(nodes, start, plan, g, batch, c, i, j, k, t, h);
    } else {
      ConnectedIsPlanned(nodes, start, plan, g, batch);
      forall log: seq<Step> | log != [] && log[0] == Create(batch) && Run(Empty, log)
        && h in End(Empty, log).rows && End(Empty, log).rows[h].state != WaitDependencies
        ensures t in End(Empty, log).rows && End(Empty, log).rows[t].state == Done
      {
        StagesRunInOrder(nodes, plan, batch, log, c, i, k, t, h);
      }
    }
  }
}
