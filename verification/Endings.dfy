/** How the stored jobs change in each step, and how jobs come to be done or failed. */
module Endings {
  import opened JobSteps
  import opened Dependencies

  /** Only the row of job j may differ. */
  ghost predicate OnlyRow(s: System, s': System, j: Id) {
    s'.rows.Keys == s.rows.Keys && forall k | k in s.rows && k != j :: s'.rows[k] == s.rows[k]
  }

  // ---------------------------------------------------------------- each step

  /**
   * A finished attempt makes a job done exactly if its method succeeds or has nothing to do, and only
   * then it owes a release; failed exactly if it raises, or asks to be retried at the limit; and
   * otherwise pending or, with open parents, waiting. Every attempt counts unless it asks not to.
   */
  lemma FinishExactly(s: System, j: Id, outcome: Outcome)
    requires Enabled(s, Finish(j, outcome))
    ensures var s' := Next(s, Finish(j, outcome));
            var before, after := s.rows[j], s'.rows[j];
            var atLimit := before.maxRetries != 0 && before.retry + 1 >= before.maxRetries;
            && OnlyRow(s, s', j)
            && (after.state == Done <==> outcome.Succeeds? || outcome.NothingToDo?)
            && (after.state == Failed <==> outcome.Raises? || (outcome == Retryable(false) && atLimit))
            && (after.state == Pending ==> forall p | p in before.parents :: p in s.rows && s.rows[p].state == Done)
            && (after.state == WaitDependencies ==>
                    exists p | p in before.parents :: !(p in s.rows && s.rows[p].state == Done))
            && after.state !in {Enqueued, Started}
            && after.retry == before.retry + (if outcome == Retryable(true) then 0 else 1)
            && after.parents == before.parents && after.maxRetries == before.maxRetries
            && s'.owing == s.owing + if after.state == Done then {j} else {}
  {}

  /** A dead job fails exactly if it has a limit and its retries exceed it; a started one counts one more. */
  lemma FindDeadExactly(s: System, js: set<Id>, j: Id)
    requires Enabled(s, FindDead(js)) && j in s.rows
    ensures var s' := Next(s, FindDead(js));
            && s'.rows.Keys == s.rows.Keys && s'.owing == s.owing
            && var before, after := s.rows[j], s'.rows[j];
               && (j !in js ==> after == before)
               && (j in js ==>
                     && after.parents == before.parents && after.maxRetries == before.maxRetries
                     && after.state in {Pending, Failed}
                     && (after.state == Failed <==> before.maxRetries != 0 && before.retry > before.maxRetries)
                     && after.retry == before.retry + if before.state == Started then 1 else 0)
  {}

  /** A release lets exactly the waiting children go whose parents are all done, and changes nothing else. */
  lemma ReleaseExactly(s: System, j: Id, c: Id)
    requires Enabled(s, Release(j)) && c in s.rows
    ensures var s' := Next(s, Release(j));
            && s'.rows.Keys == s.rows.Keys && s'.owing == s.owing - {j}
            && var before, after := s.rows[c], s'.rows[c];
               && after.(state := before.state) == before
               && (after.state != before.state <==>
                     && before.state == WaitDependencies && j in before.parents
                     && forall p | p in before.parents :: p in s.rows && s.rows[p].state == Done)
               && (after.state != before.state ==> after.state == Pending)
  {}

  /** New jobs have not been tried yet; they wait exactly if they depend on any. */
  lemma CreateExactly(s: System, batch: map<Id, NewJob>, j: Id)
    requires Enabled(s, Create(batch))
    ensures var s' := Next(s, Create(batch));
            && s'.rows.Keys == s.rows.Keys + batch.Keys && s'.owing == s.owing
            && (j in s.rows ==> s'.rows[j] == s.rows[j])
            && (j in batch ==>
                  && s'.rows[j].retry == 0 && s'.rows[j].maxRetries == batch[j].maxRetries
                  && s'.rows[j].parents == batch[j].parents
                  && s'.rows[j].state == if batch[j].parents == {} then Pending else WaitDependencies)
  {}

  lemma HandOutAndStartExactly(s: System, j: Id)
    ensures Enabled(s, HandOut(j)) ==>
              && OnlyRow(s, Next(s, HandOut(j)), j) && Next(s, HandOut(j)).owing == s.owing
              && s.rows[j].state == Pending && Next(s, HandOut(j)).rows[j] == s.rows[j].(state := Enqueued)
    ensures Enabled(s, Start(j)) ==>
              && OnlyRow(s, Next(s, Start(j)), j) && Next(s, Start(j)).owing == s.owing
              && s.rows[j].state == Enqueued && Next(s, Start(j)).rows[j] == s.rows[j].(state := Started)
  {}

  // ---------------------------------------------------------------- whole runs

  ghost predicate HasState(s: System, j: Id, state: State) {
    j in s.rows && s.rows[j].state == state
  }

  /** A job that has come to be done has succeeded, or had nothing to do, in the run. */
  lemma {:induction false} DoneBySuccess(s: System, log: seq<Step>, j: Id)
    requires Run(s, log) && !HasState(s, j, Done) && HasState(End(s, log), j, Done)
    ensures exists i | 0 <= i < |log| :: log[i] == Finish(j, Succeeds) || log[i] == Finish(j, NothingToDo)
    decreases |log|
  {
    if log != [] && !HasState(Next(s, log[0]), j, Done) {
      DoneBySuccess(Next(s, log[0]), log[1..], j);
      var i :| 0 <= i < |log[1..]| && (log[1..][i] == Finish(j, Succeeds) || log[1..][i] == Finish(j, NothingToDo));
      assert log[i + 1] == log[1..][i];
    } else {
      assert log[0] == Finish(j, Succeeds) || log[0] == Finish(j, NothingToDo);
    }
  }

  /** A job without a limit fails only if it raises: no number of retries, conflicts or deaths makes it fail. */
  lemma {:induction false} NoLimitNoFailure(s: System, log: seq<Step>, j: Id)
    requires Run(s, log) && j in s.rows && s.rows[j].maxRetries == 0 && s.rows[j].state != Failed
    requires forall i | 0 <= i < |log| :: log[i] != Finish(j, Raises)
    ensures j in End(s, log).rows && End(s, log).rows[j].state != Failed
    decreases |log|
  {
    if log != [] {
      var s' := Next(s, log[0]);
      assert log[0] != Finish(j, Raises);
      assert j in s'.rows && s'.rows[j].maxRetries == 0 && s'.rows[j].state != Failed;
      NoLimitNoFailure(s', log[1..], j);
    }
  }

  /** Failed is for ever, as far as the automatic steps go. */
  lemma {:induction false} FailedStays(s: System, log: seq<Step>, j: Id)
    requires Run(s, log) && HasState(s, j, Failed)
    ensures HasState(End(s, log), j, Failed)
    decreases |log|
  {
    if log != [] {
      assert HasState(Next(s, log[0]), j, Failed);
      FailedStays(Next(s, log[0]), log[1..], j);
    }
  }

  /** A job whose method raises never lets its dependents go. */
  lemma {:induction false} RaisingBlocksChildren(s: System, j: Id, log: seq<Step>, c: Id)
    requires Stored(s) && Safe(s) && Enabled(s, Finish(j, Raises)) && Run(Next(s, Finish(j, Raises)), log)
    requires var end := End(Next(s, Finish(j, Raises)), log); c in end.rows && j in end.rows[c].parents
    ensures End(Next(s, Finish(j, Raises)), log).rows[c].state == WaitDependencies
  {
    var s' := Next(s, Finish(j, Raises));
    StepKeepsSafe(s, Finish(j, Raises));
    DependencySafety(s', log);
    FailedStays(s', log, j);
    assert !AllDone(End(s', log).rows, End(s', log).rows[c].parents);
  }
}
