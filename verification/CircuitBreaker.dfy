/** The circuit breaker of the Ejar client, under any interleaving of its callers. */
module CircuitBreakers {

  datatype State = Closed | Open | HalfOpen

  const FailureThreshold := 5
  const RecoveryTimeout := 60.0
  const SuccessThreshold := 2

  datatype Breaker = Breaker(state: State, failures: nat, lastFailureAt: real, halfOpenSuccesses: nat)

  const Initial := Breaker(Closed, 0, 0.0, 0)

  datatype Verdict = Admitted | Refused(retryAfter: int)

  /** What comes back for a request that was admitted. */
  datatype Response = NoResponse | Status(code: int)

  /** What callers do to the breaker, in the order in which they get hold of its lock. */
  datatype Event = Checked(at: real) | Succeeded | Failed(at: real)

  type History = seq<Event>

  function Check(b: Breaker, now: real): Breaker {
    if b.state == Open && now - b.lastFailureAt >= RecoveryTimeout
    then b.(state := HalfOpen, halfOpenSuccesses := 0) else b
  }

  predicate Admits(b: Breaker, now: real) {
    b.state != Open || now - b.lastFailureAt >= RecoveryTimeout
  }

  function Success(b: Breaker): Breaker {
    match b.state
    case Closed => b.(failures := 0)
    case Open => b
    case HalfOpen =>
      if b.halfOpenSuccesses + 1 >= SuccessThreshold then Breaker(Closed, 0, b.lastFailureAt, b.halfOpenSuccesses + 1)
      else b.(halfOpenSuccesses := b.halfOpenSuccesses + 1)
  }

  function Failure(b: Breaker, now: real): Breaker {
    b.(failures := b.failures + 1, lastFailureAt := now,
       state := if b.failures + 1 >= FailureThreshold then Open else b.state)
  }

  function Step(b: Breaker, ev: Event): Breaker {
    match ev
    case Checked(now) => Check(b, now)
    case Succeeded => Success(b)
    case Failed(now) => Failure(b, now)
  }

  function After(h: History): Breaker {
    if h == [] then Initial else Step(After(h[..|h| - 1]), h[|h| - 1])
  }

  // ---------------------------------------------------------------- the breaker itself

  class CircuitBreaker {
    var state: State
    var failureCount: nat
    var lastFailureAt: real
    var halfOpenSuccessCount: nat

    function Value(): Breaker
      reads this
    {
      Breaker(state, failureCount, lastFailureAt, halfOpenSuccessCount)
    }

    constructor ()
      ensures Value() == Initial
    {
      state, failureCount, lastFailureAt, halfOpenSuccessCount := Closed, 0, 0.0, 0;
    }

    /** Refuses a request, and says after how many whole seconds it may come again, or admits it. */
    method CircuitCheck(now: real) returns (verdict: Verdict)
      modifies this
      ensures Value() == Step(old(Value()), Checked(now))
      ensures verdict.Admitted? <==> Admits(old(Value()), now)
      ensures verdict.Refused? ==>
                var wait, left := verdict.retryAfter as real, RecoveryTimeout - (now - lastFailureAt);
                wait <= left < wait + 1.0 && forall later | later >= now + wait + 1.0 :: Admits(Value(), later)
    {
      verdict := Admitted;
      if state == Open {
        var elapsed := now - lastFailureAt;
        if elapsed < RecoveryTimeout {
          verdict := Refused((RecoveryTimeout - elapsed).Floor);
        } else {
          state, halfOpenSuccessCount := HalfOpen, 0;
        }
      }
    }

    method RecordSuccess()
      modifies this
      ensures Value() == Step(old(Value()), Succeeded)
    {
      if state == HalfOpen {
        halfOpenSuccessCount := halfOpenSuccessCount + 1;
        if halfOpenSuccessCount >= SuccessThreshold {
          state, failureCount := Closed, 0;
        }
      } else if state == Closed {
        failureCount := 0;
      }
    }

    method RecordFailure(now: real)
      modifies this
      ensures Value() == Step(old(Value()), Failed(now))
    {
      failureCount := failureCount + 1;
      lastFailureAt := now;
      if failureCount >= FailureThreshold {
        state := Open;
      }
    }

    /**
     * Records what came back: no response, too many requests and server errors are failures; other
     * errors are the caller's and count neither way.
     */
    method RecordResponse(response: Response, now: real)
      modifies this
      ensures response.NoResponse? || response.code in {429, 500, 502, 503, 504} ==>
                Value() == Step(old(Value()), Failed(now))
      ensures response.Status? && 200 <= response.code < 300 ==> Value() == Step(old(Value()), Succeeded)
      ensures response.Status? && !(200 <= response.code < 300) && response.code !in {429, 500, 502, 503, 504} ==>
                Value() == old(Value())
    {
      match response
      case NoResponse => RecordFailure(now);
      case Status(code) =>
        if 200 <= code < 300 {
          RecordSuccess();
        } else if code == 429 || code == 500 || (502 <= code && code <= 504) {
          RecordFailure(now);
        }
    }
  }

  // ---------------------------------------------------------------- what the history says

  function Failures(h: History): nat {
    if h == [] then 0 else Failures(h[..|h| - 1]) + if h[|h| - 1].Failed? then 1 else 0
  }

  function Successes(h: History): nat {
    if h == [] then 0 else Successes(h[..|h| - 1]) + if h[|h| - 1].Succeeded? then 1 else 0
  }

  /** Event i is a success recorded while closed, or the one that closes the breaker. */
  ghost predicate Resets(h: History, i: nat)
    requires i < |h|
  {
    h[i].Succeeded? && After(h[..i + 1]).state == Closed
  }

  /** From event r on nothing has reset the counter, and event r - 1 did, if there is one. */
  ghost predicate SinceReset(h: History, r: nat) {
    && r <= |h|
    && (r > 0 ==> Resets(h, r - 1))
    && forall i | r <= i < |h| :: !Resets(h, i)
  }

  /** Closed exactly below the threshold: so a single failure while half-open opens the breaker again. */
  lemma {:induction false} StateByCount(h: History)
    ensures After(h).state == Closed <==> After(h).failures < 5
  {
    if h != [] {
      StateByCount(h[..|h| - 1]);
    }
  }

  /** The counter is the number of failures since the last success recorded while closed or the last closing. */
  lemma {:induction false} CountsSinceReset(h: History) returns (r: nat)
    ensures SinceReset(h, r) && After(h).failures == Failures(h[r..])
  {
    if h == [] {
      r := 0;
    } else {
      var n := |h| - 1;
      StateByCount(h[..n]);
      assert h[..n + 1] == h;
      if Resets(h, n) {
        r := |h|;
      } else {
        r := CountsSinceReset(h[..n]);
        assert h[r..][..n - r] == h[..n][r..];
        forall i | 0 <= i < n ensures Resets(h, i) <==> Resets(h[..n], i) {
          assert h[..n][..i + 1] == h[..i + 1];
        }
      }
    }
  }

  /** The last failure that was recorded, if any, is remembered with its time. */
  lemma {:induction false} LastFailureIsRemembered(h: History, i: nat)
    requires i < |h| && h[i].Failed? && forall k | i < k < |h| :: !h[k].Failed?
    ensures After(h).lastFailureAt == h[i].at
    decreases |h|
  {
    if i < |h| - 1 {
      LastFailureIsRemembered(h[..|h| - 1], i);
    }
  }

  // ---------------------------------------------------------------- half-open periods

  /** The check at event a found the breaker open and its time over; since then no failure, and it has not closed. */
  ghost predicate Probing(h: History, a: nat) {
    && a < |h| && h[a].Checked?
    && After(h[..a]).state == Open && h[a].at - After(h[..a]).lastFailureAt >= 60.0
    && (forall i | a <= i < |h| :: !h[i].Failed? && After(h[..i + 1]).state == HalfOpen)
  }

  lemma {:induction false} HalfOpenPeriod(h: History) returns (a: nat)
    requires After(h).state == HalfOpen
    ensures Probing(h, a) && Successes(h[a..]) == After(h).halfOpenSuccesses < 2
  {
    var n := |h| - 1;
    StateByCount(h[..n]);
    if After(h[..n]).state == HalfOpen {
      a := HalfOpenPeriod(h[..n]);
      assert h[a..][..n - a] == h[..n][a..];
      assert h[..n][..a] == h[..a] && h[..n + 1] == h;
      forall i | a <= i < n ensures !h[i].Failed? && After(h[..i + 1]).state == HalfOpen {
        assert h[..n][i] == h[i] && h[..n][..i + 1] == h[..i + 1];
      }
    } else {
      a := n;
      assert h[..n + 1] == h && h[n..] == [h[n]] && h[n..][..0] == [];
    }
  }

  /** The breaker closes only on the second success of a half-open period without failures. */
  lemma {:induction false} ClosingTakesTwoSuccesses(h: History) returns (a: nat)
    requires h != [] && After(h).state == Closed && After(h[..|h| - 1]).state != Closed
    ensures h[|h| - 1].Succeeded? && Probing(h[..|h| - 1], a) && Successes(h[a..]) == 2
  {
    var n := |h| - 1;
    StateByCount(h[..n]);
    a := HalfOpenPeriod(h[..n]);
    assert h[a..][..n - a] == h[..n][a..];
  }

  // ---------------------------------------------------------------- what opens it, and what closes it again

  /** A caller is admitted exactly if the breaker is not open or 60 seconds have gone since the last failure. */
  lemma AdmittedExactly(h: History, now: real)
    ensures Admits(After(h), now) <==> After(h).state != Open || now - After(h).lastFailureAt >= 60.0
  {}

  /** An admitted caller leaves the breaker as it was or, if it was open, half-open; a refused one changes nothing. */
  lemma {:induction false} AdmittedOpensUp(h: History, now: real)
    ensures var b, b' := After(h), After(h + [Checked(now)]);
            && (b'.state == Open <==> !Admits(b, now))
            && (b.state != Open || !Admits(b, now) ==> b' == b)
            && (b.state == Open && Admits(b, now) ==>
                  b' == Breaker(HalfOpen, b.failures, b.lastFailureAt, 0))
  {
    assert (h + [Checked(now)])[..|h|] == h;
  }

  /** A failure opens the breaker exactly if it is the fifth or a later one since the last reset. */
  lemma {:induction false} FifthFailureOpens(h: History, now: real) returns (r: nat)
    ensures SinceReset(h, r) && (After(h + [Failed(now)]).state == Open <==> Failures(h[r..]) + 1 >= 5)
    ensures After(h + [Failed(now)]).lastFailureAt == now
  {
    assert (h + [Failed(now)])[..|h|] == h;
    StateByCount(h);
    r := CountsSinceReset(h);
  }

  /** Successes that come in while the breaker is open change nothing. */
  lemma {:induction false} OpenIgnoresSuccess(h: History)
    requires After(h).state == Open
    ensures After(h + [Succeeded]) == After(h)
  {
    assert (h + [Succeeded])[..|h|] == h;
  }

  /**
   * Once a caller has been admitted to an open breaker, and as long as nothing fails, the breaker is
   * closed exactly after the second success and half-open until then, whoever else calls.
   */
  lemma {:induction false} TwoSuccessesClose(h: History, a: nat)
    requires a < |h| && h[a].Checked? && After(h[..a]).state == Open && h[a].at - After(h[..a]).lastFailureAt >= 60.0
    requires forall i | a <= i < |h| :: !h[i].Failed?
    ensures After(h).state == if Successes(h[a..]) >= 2 then Closed else HalfOpen
    ensures After(h).state == HalfOpen ==> After(h).halfOpenSuccesses == Successes(h[a..])
    decreases |h|
  {
    var n := |h| - 1;
    if n > a {
      assert h[..n][..a] == h[..a] && h[a..][..n - a] == h[..n][a..];
      TwoSuccessesClose(h[..n], a);
    } else {
      assert h[a..] == [h[a]] && h[a..][..0] == [];
    }
  }

  // ---------------------------------------------------------------- nothing is admitted too early

  ghost predicate HasTime(ev: Event) {
    ev.Checked? || ev.Failed?
  }

  /** The clock does not go back. */
  ghost predicate InTime(h: History) {
    forall i, k | 0 <= i < k < |h| && HasTime(h[i]) && HasTime(h[k]) :: h[i].at <= h[k].at
  }

  /** While the recovery time of a failure that opened the breaker lasts, the breaker stays open. */
  lemma {:induction false} StaysOpen(h: History, i: nat, k: nat, now: real)
    requires InTime(h) && i < k <= |h| && h[i].Failed? && After(h[..i + 1]).state == Open
    requires now < h[i].at + 60.0 && forall l | i < l < k && HasTime(h[l]) :: h[l].at <= now
    ensures After(h[..k]).state == Open && After(h[..k]).lastFailureAt >= h[i].at
    decreases k
  {
    assert h[..k][..k - 1] == h[..k - 1];
    StateByCount(h[..k - 1]);
    if k > i + 1 {
      StaysOpen(h, i, k - 1, now);
    }
  }

  /** No caller is admitted within the recovery time after a failure that left the breaker open. */
  lemma {:induction false} NothingAdmittedTooEarly(h: History, i: nat, k: nat)
    requires InTime(h) && i < k < |h| && h[i].Failed? && After(h[..i + 1]).state == Open
    requires h[k].Checked? && h[k].at < h[i].at + 60.0
    ensures !Admits(After(h[..k]), h[k].at)
  {
    StaysOpen(h, i, k, h[k].at);
  }
}
