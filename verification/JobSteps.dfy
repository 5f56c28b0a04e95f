/**
 * The life of stored jobs, as atomic steps of the runner, of the workers and of whoever creates jobs.
 * A worker commits that a job is done in one step and releases the jobs that wait for it in another.
 */
module JobSteps {

  type Id = nat

  datatype State = WaitDependencies | Pending | Enqueued | Started | Done | Failed

  /** A stored job; `maxRetries` 0 means no limit. */
  datatype Row = Row(state: State, retry: nat, maxRetries: nat, parents: set<Id>)

  type Rows = map<Id, Row>

  datatype NewJob = NewJob(maxRetries: nat, parents: set<Id>)

  /** What executing the method of a job comes to; Conflict is a concurrency error of the database. */
  datatype Outcome = Succeeds | NothingToDo | Retryable(ignoreRetry: bool) | Conflict | Raises

  datatype Step =
    | Create(batch: map<Id, NewJob>)
    | HandOut(job: Id)
    | Start(job: Id)
    | Finish(job: Id, outcome: Outcome)
    | Release(job: Id)
    | FindDead(jobs: set<Id>)
    | DieBeforeRelease(job: Id)

  /** The stored jobs, and the done jobs whose waiting jobs have still to be released. */
  datatype System = System(rows: Rows, owing: set<Id>)

  predicate AllDone(rows: Rows, js: set<Id>) {
    forall j | j in js :: j in rows && rows[j].state == Done
  }

  predicate Executing(row: Row) {
    row.state == Enqueued || row.state == Started
  }

  ghost predicate Enabled(s: System, step: Step) {
    match step
    case Create(batch) =>
      && batch.Keys !! s.rows.Keys
      && forall j | j in batch :: batch[j].parents <= batch.Keys && j !in batch[j].parents
    case HandOut(j) => j in s.rows && s.rows[j].state == Pending
    case Start(j) => j in s.rows && s.rows[j].state == Enqueued
    case Finish(j, _) => j in s.rows && s.rows[j].state == Started
    case Release(j) => j in s.owing
    case FindDead(js) => forall j | j in js :: j in s.rows && Executing(s.rows[j])
    case DieBeforeRelease(j) => j in s.owing
  }

  /** A new job waits if it depends on any job: none of its parents can be done yet. */
  function NewRow(job: NewJob): Row {
    Row(if job.parents == {} then Pending else WaitDependencies, 0, job.maxRetries, job.parents)
  }

  function SetPending(rows: Rows, row: Row, retry: nat): Row {
    Row(if AllDone(rows, row.parents) then Pending else WaitDependencies, retry, row.maxRetries, row.parents)
  }

  /** The row of a started job once its method has been executed. */
  function Finished(rows: Rows, row: Row, outcome: Outcome): Row {
    match outcome
    case Succeeds | NothingToDo => row.(state := Done, retry := row.retry + 1)
    case Raises => row.(state := Failed, retry := row.retry + 1)
    case Conflict => SetPending(rows, row, row.retry + 1)
    case Retryable(true) => SetPending(rows, row, row.retry)
    case Retryable(false) =>
      if row.maxRetries != 0 && row.retry + 1 >= row.maxRetries then row.(state := Failed, retry := row.retry + 1)
      else SetPending(rows, row, row.retry + 1)
  }

  function FoundDead(row: Row): Row {
    row.(state := if row.maxRetries != 0 && row.retry > row.maxRetries then Failed else Pending,
         retry := if row.state == Started then row.retry + 1 else row.retry)
  }

  /** The children of a job whose parents are now all done stop waiting. */
  function Released(rows: Rows, j: Id): Rows {
    map c | c in rows ::
      if j in rows[c].parents && rows[c].state == WaitDependencies && AllDone(rows, rows[c].parents)
      then rows[c].(state := Pending) else rows[c]
  }

  function AllFoundDead(rows: Rows, js: set<Id>): Rows {
    map j | j in rows :: if j in js then FoundDead(rows[j]) else rows[j]
  }

  ghost function Next(s: System, step: Step): System
    requires Enabled(s, step)
  {
    match step
    case Create(batch) => System(s.rows + map j | j in batch :: NewRow(batch[j]), s.owing)
    case HandOut(j) => System(s.rows[j := s.rows[j].(state := Enqueued)], s.owing)
    case Start(j) => System(s.rows[j := s.rows[j].(state := Started)], s.owing)
    case Finish(j, outcome) =>
      var row := Finished(s.rows, s.rows[j], outcome);
      System(s.rows[j := row], if row.state == Done then s.owing + {j} else s.owing)
    case Release(j) => System(Released(s.rows, j), s.owing - {j})
    case FindDead(js) => System(AllFoundDead(s.rows, js), s.owing)
    case DieBeforeRelease(j) => System(s.rows, s.owing - {j})
  }

  ghost predicate Run(s: System, log: seq<Step>)
    decreases |log|
  {
    log == [] || (Enabled(s, log[0]) && Run(Next(s, log[0]), log[1..]))
  }

  ghost function End(s: System, log: seq<Step>): System
    requires Run(s, log)
    decreases |log|
  {
    if log == [] then s else End(Next(s, log[0]), log[1..])
  }

  lemma {:induction false} OneMoreStep(s: System, log: seq<Step>, step: Step)
    requires Run(s, log) && Enabled(End(s, log), step)
    ensures Run(s, log + [step]) && End(s, log + [step]) == Next(End(s, log), step)
    decreases |log|
  {
    if log == [] {
      assert [step][1..] == [];
    } else {
      OneMoreStep(Next(s, log[0]), log[1..], step);
      assert (log + [step])[1..] == log[1..] + [step];
    }
  }
}
