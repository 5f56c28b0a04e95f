/** Job objects and the table in which jobs are stored. */
module JobTables {
  import opened Graphs
  import opened JobSteps
  import opened Wrappers

  /** How the execution of a job method ends for its worker. */
  datatype Raised = Nothing | NothingToDoJob | RetryableJobError | FailedJobError

  /** A number of seconds, or a range from which one is drawn. */
  datatype Wait = Seconds(n: int) | Between(low: int, high: int)

  const RetryInterval := Seconds(600)

  /** The k-th entry of the pattern has been reached, and the next one, if there is one, has not. */
  predicate LastReached(pattern: seq<(int, Wait)>, retry: int, k: int) {
    0 <= k < |pattern| && pattern[k].0 <= retry && (k + 1 < |pattern| ==> retry < pattern[k + 1].0)
  }

  /** How long to postpone a job: the entry of the pattern with the highest count that has been reached. */
  method GetRetrySeconds(seconds: Wait, pattern: seq<(int, Wait)>, retry: int) returns (wait: Wait)
    requires forall i, k | 0 <= i < k < |pattern| :: pattern[i].0 < pattern[k].0
    ensures seconds != Seconds(0) ==> wait == seconds
    ensures seconds == Seconds(0) && (forall i | 0 <= i < |pattern| :: retry < pattern[i].0) ==>
              wait == Seconds(10 * 60)
    ensures seconds == Seconds(0) ==>
              forall k | LastReached(pattern, retry, k) :: wait == pattern[k].1
  {
    wait := seconds;
    if seconds == Seconds(0) {
      wait := RetryInterval;
      var i := 0;
      while i < |pattern| && retry >= pattern[i].0
        invariant 0 <= i <= |pattern|
        invariant forall k | 0 <= k < i :: pattern[k].0 <= retry
        invariant wait == if i == 0 then RetryInterval else pattern[i - 1].1
      {
        wait := pattern[i].1;
        i := i + 1;
      }
    }
  }

  class Job {
    const uuid: Id
    const maxRetries: nat
    const dependsOn: set<Id>
    var state: State
    var retry: nat

    constructor (uuid: Id, row: Row)
      ensures this.uuid == uuid && Value() == row
    {
      this.uuid, maxRetries, dependsOn, state, retry := uuid, row.maxRetries, row.parents, row.state, row.retry;
    }

    function Value(): Row
      reads this
    {
      Row(state, retry, maxRetries, dependsOn)
    }

    /** Executes the method of the job; `outcome` is what the method comes to. */
    method Perform(outcome: Outcome) returns (raised: Raised)
      modifies this`retry
      ensures retry == if outcome == Retryable(true) then old(retry) else old(retry) + 1
      ensures raised == match outcome
                        case Succeeds => Nothing
                        case NothingToDo => NothingToDoJob
                        case Raises => FailedJobError
                        case Conflict => RetryableJobError
                        case Retryable(ignoreRetry) =>
                          if !ignoreRetry && maxRetries != 0 && old(retry) + 1 >= maxRetries then FailedJobError
                          else RetryableJobError
    {
      retry := retry + 1;
      match outcome
      case Succeeds => raised := Nothing;
      case NothingToDo => raised := NothingToDoJob;
      case Raises => raised := FailedJobError;
      case Conflict => raised := RetryableJobError;
      case Retryable(ignoreRetry) =>
        raised := RetryableJobError;
        if ignoreRetry {
          retry := retry - 1;
        } else if maxRetries != 0 && retry >= maxRetries {
          raised := FailedJobError;
        }
    }

    method SetPending(rows: Rows, resetRetry: bool)
      modifies this
      ensures Value() == JobSteps.SetPending(rows, old(Value()), if resetRetry then 0 else old(retry))
    {
      state := if AllDone(rows, dependsOn) then Pending else WaitDependencies;
      if resetRetry {
        retry := 0;
      }
    }

    method SetState(newState: State)
      modifies this`state
      ensures Value() == old(Value()).(state := newState)
    {
      state := newState;
    }
  }

  class JobTable {
    var rows: Rows
    var children: map<Id, set<Id>>   // what each job has stored about the jobs that depend on it
    ghost var owing: set<Id>

    ghost function Value(): System
      reads this
    {
      System(rows, owing)
    }

    /** A job knows exactly the jobs that depend on it, and parents are stored. */
    ghost predicate Valid()
      reads this
    {
      Linked(rows, children)
    }

    constructor ()
      ensures Valid() && Value() == System(map[], {})
    {
      rows, children, owing := map[], map[], {};
    }

    /** Creates and stores the jobs of a graph; a job cannot depend on itself. */
    method Delay(graph: Adjacency<Id>, maxRetries: map<Id, nat>) returns (ok: bool, ghost batch: map<Id, NewJob>)
      requires Valid() && Closed(graph) && graph.Keys !! rows.Keys && maxRetries.Keys == graph.Keys
      modifies this
      ensures Valid() && batch == map j | j in graph :: NewJob(maxRetries[j], Parents(graph, j))
      ensures ok <==> Enabled(old(Value()), Create(batch))
      ensures ok <==> forall j | j in graph :: j !in graph[j]
      ensures Value() == if ok then Next(old(Value()), Create(batch)) else old(Value())
    {
      batch := map j | j in graph :: NewJob(maxRetries[j], Parents(graph, j));
      var jobs, after;
      ok, jobs, after := BuildJobs(graph, maxRetries);
      BatchOfGraph(graph, batch);
      if ok {
        LinkedBatch(rows, children, graph, batch, jobs);
        rows := rows + jobs;
        children := children + after;
      }
    }

    /** The jobs of a graph, connected along its edges, and the jobs that come after each of them. */
    static method BuildJobs(graph: Adjacency<Id>, maxRetries: map<Id, nat>)
      returns (ok: bool, jobs: Rows, after: map<Id, set<Id>>)
      requires Closed(graph) && maxRetries.Keys == graph.Keys
      ensures ok <==> forall j | j in graph :: j !in graph[j]
      ensures ok ==> jobs == map j | j in graph :: NewRow(NewJob(maxRetries[j], Parents(graph, j)))
      ensures ok ==> after == graph
    {
      jobs := map j | j in graph :: Row(Pending, 0, maxRetries[j], {});
      after := map j | j in graph :: {};
      var g := new Graph<Id>.Of(graph);
      var edges := g.Edges();
      EdgesInside(graph, edges);
      ok, jobs, after := ConnectAll(graph, maxRetries, edges, jobs, after);
      if ok {
        BuiltAll(graph, maxRetries, Set(edges), jobs, after);
      } else {
        LoopInGraph(graph, edges);
      }
    }

    /** Connects the jobs along the edges, up to the first one that is a loop. */
    static method ConnectAll(
      ghost graph: Adjacency<Id>, ghost maxRetries: map<Id, nat>, edges: seq<(Id, Id)>, unconnected: Rows,
      childless: map<Id, set<Id>>)
      returns (ok: bool, jobs: Rows, after: map<Id, set<Id>>)
      requires Built(graph, maxRetries, {}, unconnected, childless)
      requires forall i | 0 <= i < |edges| :: edges[i].0 in graph && edges[i].1 in graph
      ensures ok <==> NoLoops(Set(edges))
      ensures ok ==> Built(graph, maxRetries, Set(edges), jobs, after)
    {
      ok, jobs, after := true, unconnected, childless;
      var i := 0;
      while i < |edges| && ok
        invariant 0 <= i <= |edges|
        invariant ok ==> NoLoops(Set(edges[..i])) && Built(graph, maxRetries, Set(edges[..i]), jobs, after)
        invariant !ok ==> !NoLoops(Set(edges))
      {
        assert edges[i] in Set(edges);
        BuiltOneMore(graph, maxRetries, Set(edges[..i]), edges[i], jobs, after);
        SetGrows(edges, i);
        ok, jobs, after := AddDepends(jobs, after, edges[i].1, edges[i].0);
        i := i + 1;
      }
      assert ok ==> edges[..i] == edges;
    }

    /** The child waits for the parent, unless the parent is done; fails if they are the same. */
    static method AddDepends(jobs: Rows, after: map<Id, set<Id>>, child: Id, parent: Id)
      returns (ok: bool, jobs': Rows, after': map<Id, set<Id>>)
      requires child in jobs && parent in jobs && jobs.Keys == after.Keys
      ensures ok <==> child != parent
      ensures ok ==> after' == after[parent := after[parent] + {child}]
      ensures ok ==>
                var row := jobs[child].(parents := jobs[child].parents + {parent});
                jobs' == jobs[child := if jobs[parent].state != Done then row.(state := WaitDependencies) else row]
    {
      ok, jobs', after' := child != parent, jobs, after;
      if ok {
        jobs' := jobs[child := jobs[child].(parents := jobs[child].parents + {parent})];
        after' := after[parent := after[parent] + {child}];
        if jobs[parent].state != Done {
          jobs' := jobs'[child := jobs'[child].(state := WaitDependencies)];
        }
      }
    }

    /** The runner marks a job as enqueued. */
    method SetJobEnqueued(j: Id)
      requires Valid()
      modifies this`rows
      ensures Valid()
      ensures Enabled(old(Value()), HandOut(j)) ==> Value() == Next(old(Value()), HandOut(j))
    {
      if j in rows {
        rows := rows[j := rows[j].(state := Enqueued)];
      }
    }

    /** A worker is asked to run a job: unless the job is enqueued, nothing happens. */
    method StartJob(j: Id) returns (job: Option<Job>)
      requires Valid()
      modifies this`rows
      ensures Valid() && (job.Some? <==> Enabled(old(Value()), Start(j)))
      ensures Value() == if job.Some? then Next(old(Value()), Start(j)) else old(Value())
      ensures job.Some? ==> fresh(job.value) && job.value.uuid == j && job.value.Value() == rows[j]
    {
      if j !in rows || rows[j].state != Enqueued {
        job := None;
      } else {
        var loaded := new Job(j, rows[j]);
        loaded.SetState(Started);
        rows := rows[j := loaded.Value()];
        job := Some(loaded);
      }
    }

    /** The worker executes the method of the job it has started and commits what came of it. */
    method FinishJob(job: Job, outcome: Outcome) returns (release: bool)
      requires Valid() && job.uuid in rows && rows[job.uuid] == job.Value() && job.state == Started
      modifies this`rows, this`owing, job
      ensures Valid() && Value() == Next(old(Value()), Finish(job.uuid, outcome))
      ensures release == (rows[job.uuid].state == Done) && rows[job.uuid] == job.Value()
    {
      release := Conclude(job, outcome);
      StoreKeepsLinks(rows, children, job.uuid, job.Value());
      rows := rows[job.uuid := job.Value()];
      if release {
        owing := owing + {job.uuid};
      }
    }

    /** What the end of the execution means for the job object. */
    method Conclude(job: Job, outcome: Outcome) returns (release: bool)
      requires job.state == Started
      modifies job
      ensures job.Value() == Finished(rows, old(job.Value()), outcome) && release == (job.state == Done)
    {
      var raised := job.Perform(outcome);
      match raised {
        case Nothing | NothingToDoJob => job.SetState(Done);
        case RetryableJobError => job.SetPending(rows, false);
        case FailedJobError => job.SetState(Failed);
      }
      release := raised.Nothing? || raised.NothingToDoJob?;
    }

    /** Releases the jobs that wait for a done job, going by what the job has stored about them. */
    method EnqueueWaiting(j: Id)
      requires Valid() && j in rows
      modifies this`rows, this`owing
      ensures Valid() && Value() == System(Released(old(rows), j), old(owing) - {j})
      ensures old(Enabled(Value(), Release(j))) ==> Value() == Next(old(Value()), Release(j))
    {
      var ready := set c | c in children[j] && c in rows && ParentsDone(rows, c);
      var released := map c | c in rows ::
        if c in ready && rows[c].state == WaitDependencies then rows[c].(state := Pending) else rows[c];
      ReleasedChildren(rows, children, j, ready, released);
      rows, owing := released, owing - {j};
    }

    /** The runner finds that nobody works on some jobs; those that should be executing are dead. */
    method RequeueDeadJobs(unlocked: set<Id>) returns (dead: set<Id>)
      requires Valid()
      modifies this`rows
      ensures dead == set j | j in unlocked && j in old(rows) && Executing(old(rows)[j])
      ensures Valid() && Value() == Next(old(Value()), FindDead(dead))
    {
      dead := set j | j in unlocked && j in rows && Executing(rows[j]);
      var todo := dead;
      ghost var before, done: set<Id> := rows, {};
      assert AllFoundDead(before, {}) == before;
      while todo != {}
        invariant Valid() && done + todo == dead && done !! todo
        invariant rows == AllFoundDead(before, done)
        decreases todo
      {
        var j :| j in todo;
        todo := todo - {j};
        OneMoreDead(before, done, j);
        done := done + {j};
        RequeueDead(j);
      }
    }

    method RequeueDead(j: Id)
      requires Valid() && j in rows
      modifies this`rows
      ensures Valid() && rows == old(rows)[j := FoundDead(old(rows)[j])]
    {
      var row := rows[j];
      var exhausted := row.maxRetries != 0 && row.retry > row.maxRetries;
      StoreKeepsLinks(rows, children, j, FoundDead(row));
      rows := rows[j := Row(if exhausted then Failed else Pending,
                            if row.state == Started then row.retry + 1 else row.retry, row.maxRetries, row.parents)];
    }
  }

  /** A job knows exactly the jobs that depend on it, and parents are stored. */
  ghost predicate Linked(rows: Rows, children: map<Id, set<Id>>) {
    && children.Keys == rows.Keys
    && (forall p, c | p in rows :: c in children[p] <==> c in rows && p in rows[c].parents)
    && forall c | c in rows :: rows[c].parents <= rows.Keys
  }

  lemma BatchOfGraph(graph: Adjacency<Id>, batch: map<Id, NewJob>)
    requires Closed(graph) && batch.Keys == graph.Keys && forall j | j in graph :: batch[j].parents == Parents(graph, j)
    ensures forall j | j in batch :: batch[j].parents <= batch.Keys
    ensures (forall j | j in batch :: j !in batch[j].parents) <==> (forall j | j in graph :: j !in graph[j])
  {
    forall j | j in graph ensures j in batch[j].parents <==> j in graph[j] {}
  }

  lemma LinkedBatch(rows: Rows, children: map<Id, set<Id>>, graph: Adjacency<Id>, batch: map<Id, NewJob>, jobs: Rows)
    requires Linked(rows, children) && Closed(graph) && rows.Keys !! graph.Keys && batch.Keys == graph.Keys
    requires forall j | j in graph :: batch[j].parents == Parents(graph, j)
    requires jobs.Keys == graph.Keys && forall j | j in graph :: jobs[j] == NewRow(batch[j])
    ensures jobs == map j | j in batch :: NewRow(batch[j])
    ensures Linked(rows + jobs, children + graph)
  {
    forall p, c | p in graph ensures c in graph[p] <==> c in jobs && p in jobs[c].parents {}
    LinkedBoth(rows, children, jobs, graph);
  }

  lemma LinkedBoth(rows: Rows, children: map<Id, set<Id>>, jobs: Rows, after: map<Id, set<Id>>)
    requires Linked(rows, children) && Linked(jobs, after) && rows.Keys !! jobs.Keys
    ensures Linked(rows + jobs, children + after)
  {}

  lemma StoreKeepsLinks(rows: Rows, children: map<Id, set<Id>>, j: Id, row: Row)
    requires Linked(rows, children) && j in rows && row.parents == rows[j].parents
    ensures Linked(rows[j := row], children)
  {}

  lemma OneMoreDead(rows: Rows, js: set<Id>, j: Id)
    requires j in rows && j !in js
    ensures AllFoundDead(rows, js + {j}) == AllFoundDead(rows, js)[j := FoundDead(rows[j])]
    ensures AllFoundDead(rows, js)[j] == rows[j]
  {}

  /** All parents that are stored are done: the update joins a job with the parents that it finds. */
  predicate ParentsDone(rows: Rows, c: Id)
    requires c in rows
  {
    forall p | p in rows[c].parents && p in rows :: rows[p].state == Done
  }

  lemma ReleasedChildren(rows: Rows, children: map<Id, set<Id>>, j: Id, ready: set<Id>, released: Rows)
    requires Linked(rows, children) && j in rows
    requires ready == set c | c in children[j] && c in rows && ParentsDone(rows, c)
    requires released == map c | c in rows ::
               if c in ready && rows[c].state == WaitDependencies then rows[c].(state := Pending) else rows[c]
    ensures released == Released(rows, j) && Linked(released, children)
  {
    forall c | c in rows ensures c in ready <==> j in rows[c].parents && AllDone(rows, rows[c].parents) {
      assert rows[c].parents <= rows.Keys;
    }
  }

  ghost predicate NoLoops(edges: set<(Id, Id)>) {
    forall e | e in edges :: e.0 != e.1
  }

  lemma {:induction false} EdgesInside(graph: Adjacency<Id>, edges: seq<(Id, Id)>)
    requires Closed(graph) && forall l :: l in edges <==> Edge(graph, l.0, l.1)
    ensures forall i | 0 <= i < |edges| :: edges[i].0 in graph && edges[i].1 in graph
    ensures forall l :: l in Set(edges) <==> Edge(graph, l.0, l.1)
  {
    forall i | 0 <= i < |edges| ensures edges[i].0 in graph && edges[i].1 in graph {
      assert edges[i] in edges && Edge(graph, edges[i].0, edges[i].1);
    }
  }

  lemma {:induction false} LoopInGraph(graph: Adjacency<Id>, edges: seq<(Id, Id)>)
    requires !NoLoops(Set(edges)) && forall l :: l in edges <==> Edge(graph, l.0, l.1)
    ensures exists j | j in graph :: j in graph[j]
  {
    var e :| e in Set(edges) && e.0 == e.1;
    assert Edge(graph, e.0, e.1);
  }

  /** The jobs as they are once the given edges have been connected. */
  ghost predicate Built(
    graph: Adjacency<Id>, maxRetries: map<Id, nat>, edges: set<(Id, Id)>, jobs: Rows, after: map<Id, set<Id>>)
  {
    && jobs.Keys == graph.Keys == after.Keys == maxRetries.Keys
    && (forall j | j in graph :: jobs[j] == NewRow(NewJob(maxRetries[j], jobs[j].parents)))
    && (forall j, p | j in graph :: p in jobs[j].parents <==> (p, j) in edges)
    && forall p, c | p in graph :: c in after[p] <==> (p, c) in edges
  }

  lemma BuiltOneMore(
    graph: Adjacency<Id>, maxRetries: map<Id, nat>, edges: set<(Id, Id)>, e: (Id, Id), jobs: Rows,
    after: map<Id, set<Id>>)
    requires e.0 in graph && e.1 in graph && Built(graph, maxRetries, edges, jobs, after)
    ensures var (p, c) := e;
            && jobs[p].state != Done
            && Built(graph, maxRetries, edges + {e},
                     jobs[c := jobs[c].(parents := jobs[c].parents + {p}, state := WaitDependencies)],
                     after[p := after[p] + {c}])
  {
    var (p, c) := e;
    var jobs' := jobs[c := jobs[c].(parents := jobs[c].parents + {p}, state := WaitDependencies)];
    forall j, x | j in graph ensures x in jobs'[j].parents <==> (x, j) in edges + {e} {
      assert (x, j) == e <==> x == p && j == c;
    }
    var after' := after[p := after[p] + {c}];
    forall j, x | j in graph ensures x in after'[j] <==> (j, x) in edges + {e} {
      assert (j, x) == e <==> j == p && x == c;
    }
  }

  lemma BuiltAll(
    graph: Adjacency<Id>, maxRetries: map<Id, nat>, edges: set<(Id, Id)>, jobs: Rows, after: map<Id, set<Id>>)
    requires Built(graph, maxRetries, edges, jobs, after) && NoLoops(edges)
    requires forall l :: l in edges <==> Edge(graph, l.0, l.1)
    ensures jobs == map j | j in graph :: NewRow(NewJob(maxRetries[j], Parents(graph, j)))
    ensures after == graph && forall j | j in graph :: j !in graph[j]
  {
    forall j | j in graph ensures jobs[j].parents == Parents(graph, j) && after[j] == graph[j] && j !in graph[j] {
      BuiltAt(graph, maxRetries, edges, jobs, after, j);
    }
    SameJobs(graph, maxRetries, jobs);
  }

  lemma SameJobs(graph: Adjacency<Id>, maxRetries: map<Id, nat>, jobs: Rows)
    requires jobs.Keys == graph.Keys == maxRetries.Keys
    requires forall j | j in graph ::
               jobs[j] == NewRow(NewJob(maxRetries[j], jobs[j].parents)) && jobs[j].parents == Parents(graph, j)
    ensures jobs == map j | j in graph :: NewRow(NewJob(maxRetries[j], Parents(graph, j)))
  {}

  lemma BuiltAt(
    graph: Adjacency<Id>, maxRetries: map<Id, nat>, edges: set<(Id, Id)>, jobs: Rows, after: map<Id, set<Id>>, j: Id)
    requires Built(graph, maxRetries, edges, jobs, after) && NoLoops(edges) && j in graph
    requires forall l :: l in edges <==> Edge(graph, l.0, l.1)
    ensures jobs[j].parents == Parents(graph, j) && after[j] == graph[j] && j !in graph[j]
  {
    forall p: Id ensures p in jobs[j].parents <==> Edge(graph, p, j) {
      assert (p, j) in edges <==> Edge(graph, p, j);
    }
    forall c: Id ensures c in after[j] <==> Edge(graph, j, c) {
      assert (j, c) in edges <==> Edge(graph, j, c);
    }
    assert (j, j) in edges <==> Edge(graph, j, j);
  }
}
