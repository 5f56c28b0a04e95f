/** Jobs run after the jobs they depend on, and no job waits for ever. */
module Dependencies {
  import opened Graphs
  import opened JobSteps

  /** Parents are stored jobs, and what owes a release is done. */
  ghost predicate Stored(s: System) {
    && (forall j | j in s.rows :: s.rows[j].parents <= s.rows.Keys)
    && AllDone(s.rows, s.owing)
  }

  /** A job that has left the waiting state has all its parents done. */
  ghost predicate Safe(s: System) {
    forall j | j in s.rows && s.rows[j].state != WaitDependencies :: AllDone(s.rows, s.rows[j].parents)
  }

  /** Some parent of the job is not done, or has still to release it. */
  ghost predicate ToBeReleased(s: System, j: Id)
    requires j in s.rows
  {
    exists p | p in s.rows[j].parents :: p in s.owing || (p in s.rows && s.rows[p].state != Done)
  }

  ghost predicate NotLost(s: System) {
    forall j | j in s.rows && s.rows[j].state == WaitDependencies :: ToBeReleased(s, j)
  }

  const Empty := System(map[], {})

  /** Done is for ever. */
  lemma DoneStays(s: System, step: Step, js: set<Id>)
    requires Enabled(s, step) && AllDone(s.rows, js)
    ensures AllDone(Next(s, step).rows, js)
  {}

  lemma StepKeepsSafe(s: System, step: Step)
    requires Stored(s) && Safe(s) && Enabled(s, step)
    ensures Stored(Next(s, step)) && Safe(Next(s, step))
  {
    var s' := Next(s, step);
    forall j | j in s'.rows && s'.rows[j].state != WaitDependencies ensures AllDone(s'.rows, s'.rows[j].parents) {
      DoneStays(s, step, s'.rows[j].parents);
    }
    DoneStays(s, step, s.owing);
  }

  /** A waiting job stays promised its release: from its last parent, or from the step that releases it. */
  lemma StepKeepsNotLost(s: System, step: Step)
    requires Stored(s) && NotLost(s) && Enabled(s, step) && !step.DieBeforeRelease?
    ensures NotLost(Next(s, step))
  {
    var s' := Next(s, step);
    forall j | j in s'.rows && s'.rows[j].state == WaitDependencies ensures ToBeReleased(s', j) {
      if j in s.rows && s.rows[j].state == WaitDependencies {
        var p :| p in s.rows[j].parents && (p in s.owing || (p in s.rows && s.rows[p].state != Done));
        if step.Release? && p == step.job {
          assert !AllDone(s.rows, s.rows[j].parents);
        }
      }
    }
  }

  ghost predicate NoDeathBeforeRelease(log: seq<Step>) {
    forall i | 0 <= i < |log| :: !log[i].DieBeforeRelease?
  }

  /** In every reachable state, whatever has left the waiting state has all its parents done. */
  lemma {:induction false} DependencySafety(s: System, log: seq<Step>)
    requires Stored(s) && Safe(s) && Run(s, log)
    ensures Stored(End(s, log)) && Safe(End(s, log))
    decreases |log|
  {
    if log != [] {
      StepKeepsSafe(s, log[0]);
      DependencySafety(Next(s, log[0]), log[1..]);
    }
  }

  /** As long as no worker dies between committing and releasing, no release is lost. */
  lemma {:induction false} NoLostRelease(s: System, log: seq<Step>)
    requires Stored(s) && Safe(s) && NotLost(s) && Run(s, log) && NoDeathBeforeRelease(log)
    ensures NotLost(End(s, log))
    decreases |log|
  {
    if log != [] {
      StepKeepsSafe(s, log[0]);
      StepKeepsNotLost(s, log[0]);
      NoLostRelease(Next(s, log[0]), log[1..]);
    }
  }

  // ---------------------------------------------------------------- no deadlock

  /** From every job to the jobs that depend on it. */
  ghost function DependencyGraph(rows: Rows): Adjacency<Id> {
    map p | p in rows :: set c | c in rows && p in rows[c].parents
  }

  ghost predicate CanProceed(s: System) {
    exists j | j in s.rows :: s.rows[j].state == Pending || Executing(s.rows[j])
  }

  /**
   * Where dependencies have no cycle, nothing has failed and no release is outstanding, either all
   * jobs are done or some job can proceed.
   */
  lemma NoDeadlock(s: System)
    requires Stored(s) && NotLost(s) && s.owing == {} && Acyclic(DependencyGraph(s.rows))
    requires forall j | j in s.rows :: s.rows[j].state != Failed
    ensures AllDone(s.rows, s.rows.Keys) || CanProceed(s)
  {
    if !CanProceed(s) && !AllDone(s.rows, s.rows.Keys) {
      var rest := InStates(s.rows, {WaitDependencies});
      var v :| v in s.rows && s.rows[v].state != Done;
      assert v in rest;
      forall j | j in rest ensures ParentIn(DependencyGraph(s.rows), j, rest) {
        WaitsForWaiting(s, j);
      }
      AllWaitingIsCyclic(DependencyGraph(s.rows), rest, v);
    }
  }

  lemma AllWaitingIsCyclic(g: Adjacency<Id>, rest: set<Id>, v: Id)
    requires v in rest && v in g
    requires forall j {:trigger ParentIn(g, j, rest)} | j in rest :: ParentIn(g, j, rest)
    ensures !Acyclic(g)
  {
    var cycle := BackwardsIntoCycle(g, rest, [v]);
  }

  lemma WaitsForWaiting(s: System, j: Id)
    requires Stored(s) && s.owing == {} && j in s.rows && ToBeReleased(s, j) && !CanProceed(s)
    requires forall j | j in s.rows :: s.rows[j].state != Failed
    ensures ParentIn(DependencyGraph(s.rows), j, InStates(s.rows, {WaitDependencies}))
  {
    var p :| p in s.rows[j].parents && p in s.rows && s.rows[p].state != Done;
    assert Edge(DependencyGraph(s.rows), p, j);
  }

  ghost function InStates(rows: Rows, states: set<State>): set<Id> {
    set j | j in rows && rows[j].state in states
  }

  // ---------------------------------------------------------------- completion

  ghost predicate Healthy(s: System) {
    && Stored(s) && Safe(s) && NotLost(s) && Acyclic(DependencyGraph(s.rows))
    && forall j | j in s.rows :: s.rows[j].state != Failed
  }

  /** The steps that bring jobs closer to being done. */
  ghost predicate Helps(s: System, step: Step) {
    Enabled(s, step) && (step.HandOut? || step.Start? || step.Release? || (step.Finish? && step.outcome == Succeeds))
  }

  lemma SomethingHelps(s: System) returns (step: Step)
    requires s.owing != {} || CanProceed(s)
    ensures Helps(s, step)
  {
    if s.owing != {} {
      var p :| p in s.owing;
      step := Release(p);
    } else {
      var j :| j in s.rows && (s.rows[j].state == Pending || Executing(s.rows[j]));
      match s.rows[j].state
      case Pending => step := HandOut(j);
      case Enqueued => step := Start(j);
      case _ => step := Finish(j, Succeeds);
    }
  }

  lemma SameParents(s: System, step: Step)
    requires Enabled(s, step) && !step.Create?
    ensures DependencyGraph(Next(s, step).rows) == DependencyGraph(s.rows)
  {
    var rows := Next(s, step).rows;
    assert rows.Keys == s.rows.Keys && forall j | j in rows :: rows[j].parents == s.rows[j].parents;
    forall p | p in rows ensures DependencyGraph(rows)[p] == DependencyGraph(s.rows)[p] {}
  }

  lemma HelpKeepsHealthy(s: System, step: Step)
    requires Healthy(s) && Helps(s, step)
    ensures Healthy(Next(s, step)) && Next(s, step).rows.Keys == s.rows.Keys
  {
    StepKeepsSafe(s, step);
    StepKeepsNotLost(s, step);
    SameParents(s, step);
  }

  lemma HelpComesCloser(s: System, step: Step)
    requires Helps(s, step) && AllDone(s.rows, s.owing)
    ensures Closer(s, Next(s, step))
  {
    if step.Release? {
      ReleaseMovesOn(s.rows, step.job);
    } else {
      MovesOn(s.rows, step.job, Next(s, step).rows[step.job]);
      assert step.job in InStates(s.rows, Unfinished);
    }
  }

  const Unfinished := {WaitDependencies, Pending, Enqueued, Started}
  const BeforeStart := {WaitDependencies, Pending, Enqueued}
  const BeforeHandOut := {WaitDependencies, Pending}

  /** Fewer jobs are unfinished; or as many, and fewer have still to be handed out; and so on. */
  ghost predicate Closer(s: System, s': System) {
    var a, a' := InStates(s.rows, Unfinished), InStates(s'.rows, Unfinished);
    var b, b' := InStates(s.rows, BeforeHandOut), InStates(s'.rows, BeforeHandOut);
    var c, c' := InStates(s.rows, BeforeStart), InStates(s'.rows, BeforeStart);
    a' < a || (a' == a && (b' < b || (b' == b && (c' < c || (c' == c && s'.owing < s.owing)))))
  }

  lemma MovesOn(rows: Rows, j: Id, row: Row)
    requires j in rows
    ensures forall states ::
            InStates(rows[j := row], states) == InStates(rows, states) - {j} + if row.state in states then {j} else {}
  {}

  lemma ReleaseMovesOn(rows: Rows, j: Id)
    ensures InStates(Released(rows, j), Unfinished) == InStates(rows, Unfinished)
    ensures InStates(Released(rows, j), BeforeHandOut) == InStates(rows, BeforeHandOut)
    ensures InStates(Released(rows, j), BeforeStart) == InStates(rows, BeforeStart)
  {}

  lemma {:induction false} Prepended(s: System, step: Step, rest: seq<Step>)
    requires Enabled(s, step) && !step.DieBeforeRelease? && Run(Next(s, step), rest) && NoDeathBeforeRelease(rest)
    ensures Run(s, [step] + rest) && NoDeathBeforeRelease([step] + rest)
    ensures End(s, [step] + rest) == End(Next(s, step), rest)
  {
    assert ([step] + rest)[1..] == rest;
  }

  /** Whatever state has been reached, all jobs can still be brought to an end. */
  lemma {:induction false} CanComplete(s: System) returns (log: seq<Step>)
    requires Healthy(s)
    ensures Run(s, log) && NoDeathBeforeRelease(log)
    ensures End(s, log).rows.Keys == s.rows.Keys && AllDone(End(s, log).rows, s.rows.Keys)
    decreases InStates(s.rows, Unfinished), InStates(s.rows, BeforeHandOut), InStates(s.rows, BeforeStart), s.owing
  {
    if s.owing == {} && AllDone(s.rows, s.rows.Keys) {
      log := [];
    } else {
      if s.owing == {} {
        NoDeadlock(s);
      }
      var step := SomethingHelps(s);
      HelpKeepsHealthy(s, step);
      HelpComesCloser(s, step);
      var rest := CanComplete(Next(s, step));
      log := [step] + rest;
      Prepended(s, step, rest);
    }
  }

  /** A run from no jobs at all cannot deadlock, and what it has begun can be completed. */
  lemma {:induction false} RunsDoNotDeadlock(log: seq<Step>) returns (more: seq<Step>)
    requires Run(Empty, log) && NoDeathBeforeRelease(log) && Acyclic(DependencyGraph(End(Empty, log).rows))
    requires forall j | j in End(Empty, log).rows :: End(Empty, log).rows[j].state != Failed
    ensures var s := End(Empty, log);
            && (s.owing == {} ==> AllDone(s.rows, s.rows.Keys) || CanProceed(s))
            && Run(s, more) && End(s, more).rows.Keys == s.rows.Keys && AllDone(End(s, more).rows, s.rows.Keys)
  {
    DependencySafety(Empty, log);
    NoLostRelease(Empty, log);
    if End(Empty, log).owing == {} {
      NoDeadlock(End(Empty, log));
    }
    more := CanComplete(End(Empty, log));
  }

  /** The stored dependencies of a graph of new jobs are the edges of the graph. */
  lemma CreatedGraph(graph: Adjacency<Id>, batch: map<Id, NewJob>)
    requires Closed(graph) && batch.Keys == graph.Keys && Enabled(Empty, Create(batch))
    requires forall j | j in graph :: batch[j].parents == Parents(graph, j)
    ensures DependencyGraph(Next(Empty, Create(batch)).rows) == graph
  {
    var rows := Next(Empty, Create(batch)).rows;
    assert rows.Keys == graph.Keys && forall j | j in rows :: rows[j].parents == Parents(graph, j);
    GraphOfParents(rows, graph);
  }

  lemma GraphOfParents(rows: Rows, graph: Adjacency<Id>)
    requires Closed(graph) && rows.Keys == graph.Keys && forall j | j in rows :: rows[j].parents == Parents(graph, j)
    ensures DependencyGraph(rows) == graph
  {
    forall p | p in graph ensures DependencyGraph(rows)[p] == graph[p] {
      forall c ensures c in DependencyGraph(rows)[p] <==> c in graph[p] {
        assert c in graph ==> (p in Parents(graph, c) <==> c in graph[p]);
      }
    }
  }

  // ---------------------------------------------------------------- the gap between the two steps

  /** Job 1 depends on job 0, whose worker dies after committing that it is done. */
  const GapLog := [
    Create(map[0 := NewJob(0, {}), 1 := NewJob(0, {0})]),
    HandOut(0), Start(0), Finish(0, Succeeds), DieBeforeRelease(0)]

  /** A worker that dies in the gap leaves a job waiting for ever: its parent is done, and nobody will release it. */
  lemma ReleaseLostInGap()
    ensures Run(Empty, GapLog) && Lost(End(Empty, GapLog), 1) && !CanProceed(End(Empty, GapLog))
  {
    var s := System(map[0 := Row(Pending, 0, 0, {}), 1 := Row(WaitDependencies, 0, 0, {0})], {});
    assert Next(Empty, GapLog[0]) == s;
    GapRun(s);
    Follow(Empty, GapLog[0], s, GapLog[1..]);
  }

  lemma GapRun(s: System)
    requires s.rows.Keys == {0, 1} && s.owing == {} && s.rows[0] == Row(Pending, 0, 0, {})
    requires s.rows[1] == Row(WaitDependencies, 0, 0, {0})
    ensures Run(s, GapLog[1..]) && Lost(End(s, GapLog[1..]), 1) && !CanProceed(End(s, GapLog[1..]))
  {
    var s1 := Next(s, HandOut(0));
    var s2 := Next(s1, Start(0));
    GapEnd(s2);
    Follow(s1, Start(0), s2, GapLog[3..]);
    Follow(s, HandOut(0), s1, GapLog[2..]);
  }

  lemma GapEnd(s: System)
    requires s.rows.Keys == {0, 1} && s.owing == {} && s.rows[0] == Row(Started, 0, 0, {})
    requires s.rows[1] == Row(WaitDependencies, 0, 0, {0})
    ensures Run(s, GapLog[3..]) && Lost(End(s, GapLog[3..]), 1) && !CanProceed(End(s, GapLog[3..]))
  {
    var s1 := Next(s, Finish(0, Succeeds));
    var s2 := Next(s1, DieBeforeRelease(0));
    Follow(s1, DieBeforeRelease(0), s2, []);
    Follow(s, Finish(0, Succeeds), s1, GapLog[4..]);
  }

  /** The job waits, although all its parents are done and none of them owes a release. */
  ghost predicate Lost(s: System, c: Id) {
    && c in s.rows && s.rows[c].state == WaitDependencies
    && AllDone(s.rows, s.rows[c].parents) && s.rows[c].parents !! s.owing
  }

  /** What is lost once stays lost, whatever happens. */
  lemma {:induction false} LostForEver(s: System, log: seq<Step>, c: Id)
    requires Stored(s) && Lost(s, c) && Run(s, log)
    ensures Lost(End(s, log), c)
    decreases |log|
  {
    if log != [] {
      StaysLost(s, log[0], c);
      LostForEver(Next(s, log[0]), log[1..], c);
    }
  }

  lemma StaysLost(s: System, step: Step, c: Id)
    requires Stored(s) && Lost(s, c) && Enabled(s, step)
    ensures Stored(Next(s, step)) && Lost(Next(s, step), c)
  {
    DoneStays(s, step, s.owing);
    DoneStays(s, step, s.rows[c].parents);
  }

  lemma {:induction false} Follow(s: System, step: Step, s': System, rest: seq<Step>)
    requires Enabled(s, step) && Next(s, step) == s' && Run(s', rest)
    ensures Run(s, [step] + rest) && End(s, [step] + rest) == End(s', rest)
  {
    assert ([step] + rest)[1..] == rest;
  }

  /** A worker that dies in the gap loses exactly the children that have nobody else left to release them. */
  lemma GapLosesChildren(s: System, j: Id, c: Id)
    requires Stored(s) && NotLost(s) && j in s.owing && c in s.rows && s.rows[c].state == WaitDependencies
    ensures Lost(Next(s, DieBeforeRelease(j)), c) <==>
            AllDone(s.rows, s.rows[c].parents) && s.rows[c].parents * s.owing == {j}
  {
    assert ToBeReleased(s, c);
  }
}
