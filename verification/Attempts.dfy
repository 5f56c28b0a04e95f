/** How often a job with a limit on its retries can be started. */
module Attempts {
  import opened JobSteps

  ghost predicate IsStart(step: Step, j: Id) {
    step.Start? && step.job == j
  }

  /** An attempt that says it does not count. */
  ghost predicate IsIgnored(step: Step, j: Id) {
    step.Finish? && step.job == j && step.outcome == Retryable(true)
  }

  /** An attempt that ends in a conflict is counted, but never checked against the limit. */
  ghost predicate IsConflict(step: Step, j: Id) {
    step.Finish? && step.job == j && step.outcome.Conflict?
  }

  ghost predicate IsDeath(step: Step, j: Id) {
    step.FindDead? && j in step.jobs
  }

  ghost function Starts(log: seq<Step>, j: Id): nat {
    if log == [] then 0 else Starts(log[1..], j) + if IsStart(log[0], j) then 1 else 0
  }

  ghost function Ignored(log: seq<Step>, j: Id): nat {
    if log == [] then 0 else Ignored(log[1..], j) + if IsIgnored(log[0], j) then 1 else 0
  }

  ghost function Conflicts(log: seq<Step>, j: Id): nat {
    if log == [] then 0 else Conflicts(log[1..], j) + if IsConflict(log[0], j) then 1 else 0
  }

  /** How many attempts have been made or are under way, as far as the row tells. */
  function Attempts(row: Row): nat {
    row.retry + if row.state == Started then 1 else 0
  }

  /** A job that may still be started has at most `limit` attempts behind it, and a finished one at most one more. */
  predicate Within(row: Row, limit: int) {
    row.retry <= if row.state in {Done, Failed} then limit + 1 else limit
  }

  /** Every attempt shows in the row, unless it said that it does not count. */
  lemma {:induction false} AttemptsAreCounted(s: System, log: seq<Step>, j: Id)
    requires Run(s, log) && j in s.rows
    ensures j in End(s, log).rows
    ensures Attempts(End(s, log).rows[j]) + Ignored(log, j) == Attempts(s.rows[j]) + Starts(log, j)
    decreases |log|
  {
    if log != [] {
      OneStepCounted(s, log[0], j);
      AttemptsAreCounted(Next(s, log[0]), log[1..], j);
    }
  }

  lemma OneStepCounted(s: System, step: Step, j: Id)
    requires Enabled(s, step) && j in s.rows
    ensures j in Next(s, step).rows && Next(s, step).rows[j].maxRetries == s.rows[j].maxRetries
    ensures Attempts(Next(s, step).rows[j]) + (if IsIgnored(step, j) then 1 else 0)
            == Attempts(s.rows[j]) + if IsStart(step, j) then 1 else 0
  {}

  lemma OneStepWithin(s: System, step: Step, j: Id, limit: int)
    requires Enabled(s, step) && j in s.rows && s.rows[j].maxRetries > 0 && Within(s.rows[j], limit)
    requires limit >= if IsDeath(step, j) then s.rows[j].maxRetries + 1 else s.rows[j].maxRetries - 1
    ensures Within(Next(s, step).rows[j], limit + if IsConflict(step, j) then 1 else 0)
  {}

  lemma {:induction false} RetriesAreLimited(s: System, log: seq<Step>, j: Id, limit: int)
    requires Run(s, log) && j in s.rows && s.rows[j].maxRetries > 0 && Within(s.rows[j], limit)
    requires limit >= s.rows[j].maxRetries - 1
    requires limit >= s.rows[j].maxRetries + 1 || forall i | 0 <= i < |log| :: !IsDeath(log[i], j)
    ensures j in End(s, log).rows && Within(End(s, log).rows[j], limit + Conflicts(log, j))
    decreases |log|
  {
    if log != [] {
      OneStepCounted(s, log[0], j);
      OneStepWithin(s, log[0], j, limit);
      RetriesAreLimited(Next(s, log[0]), log[1..], j, limit + if IsConflict(log[0], j) then 1 else 0);
    }
  }

  // ---------------------------------------------------------------- exactly when the limit is exceeded

  /** The last allowed attempt ends unchecked: its worker is found dead, or it conflicts. */
  ghost predicate Slips(s: System, step: Step, j: Id) {
    && (IsDeath(step, j) || IsConflict(step, j))
    && j in s.rows && s.rows[j].state == Started && s.rows[j].retry + 1 >= s.rows[j].maxRetries
  }

  ghost predicate StartsLater(log: seq<Step>, j: Id) {
    exists k | 0 <= k < |log| :: IsStart(log[k], j)
  }

  /** The last allowed attempt slips, and the job is started again. */
  ghost predicate RestartsAfterSlip(s: System, log: seq<Step>, j: Id)
    requires Run(s, log)
    decreases |log|
  {
    log != [] &&
    (|| (Slips(s, log[0], j) && StartsLater(log[1..], j))
     || RestartsAfterSlip(Next(s, log[0]), log[1..], j))
  }

  /** At some time more attempts have been made than `limit`, not counting those that said so. */
  ghost predicate Exceeds(log: seq<Step>, j: Id, limit: int) {
    exists n | 0 <= n <= |log| :: Starts(log[..n], j) > limit + Ignored(log[..n], j)
  }

  /** The same, seen from the rows. */
  ghost predicate Overruns(s: System, log: seq<Step>, j: Id, limit: int)
    requires Run(s, log)
    decreases |log|
  {
    (j in s.rows && Attempts(s.rows[j]) > limit) || (log != [] && Overruns(Next(s, log[0]), log[1..], j, limit))
  }

  lemma {:induction false} OverrunsShow(s: System, log: seq<Step>, j: Id, limit: int)
    requires Run(s, log) && j in s.rows
    ensures Overruns(s, log, j, limit) <==> Exceeds(log, j, limit - Attempts(s.rows[j]))
    decreases |log|
  {
    var rest := limit - Attempts(s.rows[j]);
    assert Starts(log[..0], j) == 0 == Ignored(log[..0], j);
    if log != [] {
      OneStepCounted(s, log[0], j);
      OverrunsShow(Next(s, log[0]), log[1..], j, limit);
      var more := limit - Attempts(Next(s, log[0]).rows[j]);
      forall n | 1 <= n <= |log|
        ensures Starts(log[..n], j) - Ignored(log[..n], j) - rest
                == Starts(log[1..][..n - 1], j) - Ignored(log[1..][..n - 1], j) - more
      {
        assert log[..n][1..] == log[1..][..n - 1];
      }
      if n :| 0 <= n <= |log| && Starts(log[..n], j) > rest + Ignored(log[..n], j) && n > 0 {
        assert Starts(log[1..][..n - 1], j) > more + Ignored(log[1..][..n - 1], j);
      }
      if k :| 0 <= k <= |log[1..]| && Starts(log[1..][..k], j) > more + Ignored(log[1..][..k], j) {
        assert Starts(log[..k + 1], j) > rest + Ignored(log[..k + 1], j);
      }
    }
  }

  /** A job that waits for more than the last allowed attempt overruns exactly if it is started. */
  lemma {:induction false} OneMoreOverruns(s: System, log: seq<Step>, j: Id)
    requires Run(s, log) && j in s.rows && s.rows[j].state in {WaitDependencies, Pending, Enqueued}
    requires s.rows[j].maxRetries > 0 && s.rows[j].retry == s.rows[j].maxRetries
    ensures Overruns(s, log, j, s.rows[j].maxRetries) <==> StartsLater(log, j)
    decreases |log|
  {
    if log != [] {
      var s' := Next(s, log[0]);
      OneStepCounted(s, log[0], j);
      if IsStart(log[0], j) {
        assert Attempts(s'.rows[j]) > s.rows[j].maxRetries;
      } else {
        OneMoreOverruns(s', log[1..], j);
        if k :| 0 <= k < |log| && IsStart(log[k], j) {
          assert log[1..][k - 1] == log[k];
        }
        if k :| 0 <= k < |log[1..]| && IsStart(log[1..][k], j) {
          assert log[k + 1] == log[1..][k];
        }
      }
    }
  }

  lemma {:induction false} RestartNeedsStart(s: System, log: seq<Step>, j: Id)
    requires Run(s, log) && RestartsAfterSlip(s, log, j)
    ensures StartsLater(log, j)
    decreases |log|
  {
    if !(Slips(s, log[0], j) && StartsLater(log[1..], j)) {
      RestartNeedsStart(Next(s, log[0]), log[1..], j);
    }
    var k :| 0 <= k < |log[1..]| && IsStart(log[1..][k], j);
    assert log[k + 1] == log[1..][k];
  }

  lemma {:induction false} OverrunsBySlip(s: System, log: seq<Step>, j: Id)
    requires Run(s, log) && j in s.rows && s.rows[j].maxRetries > 0 && Within(s.rows[j], s.rows[j].maxRetries - 1)
    ensures Overruns(s, log, j, s.rows[j].maxRetries) <==> RestartsAfterSlip(s, log, j)
    decreases |log|
  {
    if log != [] {
      var s' := Next(s, log[0]);
      OneStepCounted(s, log[0], j);
      if Slips(s, log[0], j) {
        OneMoreOverruns(s', log[1..], j);
        if RestartsAfterSlip(s', log[1..], j) {
          RestartNeedsStart(s', log[1..], j);
        }
      } else {
        OverrunsBySlip(s', log[1..], j);
      }
    }
  }

  /**
   * A new job with M retries is started more than M times, not counting attempts that ask for it,
   * exactly if the last allowed attempt ends in a death or a conflict and the job is started again.
   */
  lemma {:induction false} LimitExceeded(s: System, log: seq<Step>, j: Id)
    requires Run(s, log) && j in s.rows && s.rows[j].maxRetries > 0
    requires s.rows[j].retry == 0 && s.rows[j].state in {WaitDependencies, Pending}
    ensures Exceeds(log, j, s.rows[j].maxRetries) <==> RestartsAfterSlip(s, log, j)
  {
    OverrunsShow(s, log, j, s.rows[j].maxRetries);
    OverrunsBySlip(s, log, j);
  }

  /**
   * A new job with M retries is started at most M times, whatever dies or conflicts, as long as the
   * last allowed attempt does not slip and the job is not started again after that; and otherwise at
   * most M + 2 times, and M times if nothing dies, with one more start for every conflict. Attempts
   * that ask not to be counted add to all these bounds. Having been started that often, the job is
   * running, done or failed.
   */
  lemma {:induction false} AttemptBound(s: System, log: seq<Step>, j: Id)
    requires Run(s, log) && j in s.rows && s.rows[j].maxRetries > 0
    requires s.rows[j].retry == 0 && s.rows[j].state in {WaitDependencies, Pending}
    ensures j in End(s, log).rows
    ensures !RestartsAfterSlip(s, log, j) ==> Starts(log, j) <= s.rows[j].maxRetries + Ignored(log, j)
    ensures var deaths := exists i | 0 <= i < |log| :: IsDeath(log[i], j);
            var bound := s.rows[j].maxRetries + (if deaths then 2 else 0) + Conflicts(log, j) + Ignored(log, j);
            && Starts(log, j) <= bound
            && (Starts(log, j) == bound ==> End(s, log).rows[j].state in {Started, Done, Failed})
  {
    var deaths := exists i | 0 <= i < |log| :: IsDeath(log[i], j);
    AttemptsAreCounted(s, log, j);
    RetriesAreLimited(s, log, j, s.rows[j].maxRetries + if deaths then 1 else -1);
    LimitExceeded(s, log, j);
    assert log[..|log|] == log;
  }

  // ---------------------------------------------------------------- the bound is reached

  /** A worker takes the job and dies, n times over. */
  ghost function Dying(j: Id, n: nat): seq<Step> {
    if n == 0 then [] else [HandOut(j), Start(j), FindDead({j})] + Dying(j, n - 1)
  }

  ghost function Cycled(s: System, j: Id): System
    requires j in s.rows
  {
    System(s.rows[j := FoundDead(s.rows[j].(state := Started))], s.owing)
  }

  lemma {:induction false} OneDeath(s: System, j: Id, rest: seq<Step>)
    requires j in s.rows && s.rows[j].state == Pending && Run(Cycled(s, j), rest)
    ensures Run(s, [HandOut(j), Start(j), FindDead({j})] + rest)
    ensures End(s, [HandOut(j), Start(j), FindDead({j})] + rest) == End(Cycled(s, j), rest)
    ensures Starts([HandOut(j), Start(j), FindDead({j})] + rest, j) == 1 + Starts(rest, j)
  {
    var s1 := Next(s, HandOut(j));
    var s2 := Next(s1, Start(j));
    assert Next(s2, FindDead({j})) == Cycled(s, j);
    FirstStep(s2, FindDead({j}), rest, j);
    FirstStep(s1, Start(j), [FindDead({j})] + rest, j);
    FirstStep(s, HandOut(j), [Start(j)] + ([FindDead({j})] + rest), j);
    assert [HandOut(j)] + ([Start(j)] + ([FindDead({j})] + rest)) == [HandOut(j), Start(j), FindDead({j})] + rest;
  }

  lemma {:induction false} FirstStep(s: System, step: Step, rest: seq<Step>, j: Id)
    requires Enabled(s, step) && Run(Next(s, step), rest)
    ensures Run(s, [step] + rest) && End(s, [step] + rest) == End(Next(s, step), rest)
    ensures Starts([step] + rest, j) == Starts(rest, j) + if IsStart(step, j) then 1 else 0
  {
    assert ([step] + rest)[1..] == rest;
  }

  lemma {:induction false} DyingRun(s: System, j: Id, n: nat)
    requires j in s.rows && s.rows[j].state == Pending && s.rows[j].maxRetries > 0
    requires n > 0 && s.rows[j].retry + n == s.rows[j].maxRetries + 2
    ensures Run(s, Dying(j, n)) && Starts(Dying(j, n), j) == n
    ensures j in End(s, Dying(j, n)).rows && End(s, Dying(j, n)).rows[j].state == Failed
    decreases n
  {
    if n > 1 {
      DyingRun(Cycled(s, j), j, n - 1);
    }
    OneDeath(s, j, Dying(j, n - 1));
  }

  /** A job whose workers always die is started two times more often than its limit says. */
  lemma BoundIsReached(s: System, j: Id)
    requires j in s.rows && s.rows[j].maxRetries > 0 && s.rows[j].retry == 0 && s.rows[j].state == Pending
    ensures exists log :: Run(s, log) && Starts(log, j) == s.rows[j].maxRetries + 2
  {
    DyingRun(s, j, s.rows[j].maxRetries + 2);
  }
}
