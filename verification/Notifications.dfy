/** What a notification achieves, in each state that a job can have. */
module Notifications {
  import opened Jobs
  import opened SchedulerSpec
  import opened Subtrees
  import opened ManagerSpec
  import opened JobFlow
  import opened SchedulerRuns

  ghost predicate IsNowhere(s: seq<Chan>, j: Job) {
    forall c | 0 <= c < |s| :: PlaceOf(s[c], j) == Nowhere
  }

  /** The job is in one place in its home channel, and in no other channel. */
  ghost predicate OnlyAtHome(s: seq<Chan>, j: Job, place: Place) {
    forall c | 0 <= c < |s| :: PlaceOf(s[c], j) == if c == j.channel then place else Nowhere
  }

  /** The job runs in every channel of its path, and is in no other channel. */
  ghost predicate RunsAllTheWay(t: seq<Config>, s: seq<Chan>, j: Job)
    requires IsTree(t) && |s| == |t| && j.channel < |t|
  {
    forall c | 0 <= c < |t| :: PlaceOf(s[c], j) == if Below(t, j.channel, c) then Running else Nowhere
  }

  // ---------------------------------------------------------------- one transition

  lemma {:induction false} DoneAchieves(t: seq<Config>, s: seq<Chan>, j: Job)
    requires AllShaped(t, s) && j.channel < |t|
    ensures IsNowhere(Remove(t, s, j.channel, j), j)
  {
    RemovePlaces(t, s, j.channel, j);
    assert Shaped(t, s, j);
  }

  /** A job that a shape puts into one place at home is nowhere else. */
  lemma {:induction false} HomeOnly(t: seq<Config>, s: seq<Chan>, j: Job)
    requires AllShaped(t, s) && j.channel < |t| && PlaceOf(s[j.channel], j) in {Queued, Place.Failed}
    ensures OnlyAtHome(s, j, PlaceOf(s[j.channel], j))
  {
    var h := j.channel;
    assert Shaped(t, s, j) && Clean(t, s, t[h].parent, j);
    forall c | 0 <= c < |t| && c != h ensures PlaceOf(s[c], j) == Nowhere {
      if Below(t, h, c) {
        assert h > 0 && Below(t, t[h].parent, c);
        FlowsToParent(t, s, t[h].parent, c, j);
      }
    }
  }

  lemma {:induction false} PendingAchieves(t: seq<Config>, s: seq<Chan>, j: Job)
    requires AllShaped(t, s) && j.channel < |t|
    ensures OnlyAtHome(SetPending(t, s, j.channel, j), j, Queued)
  {
    var r := SetPending(t, s, j.channel, j);
    SetPendingKeepsShapes(t, s, j);
    AtHomeAfter(t, s, j, PendAt(s[j.channel], j));
    assert j in r[j.channel].queue;
    assert Shaped(t, r, j);
    HomeOnly(t, r, j);
  }

  lemma {:induction false} FailedAchieves(t: seq<Config>, s: seq<Chan>, j: Job)
    requires AllShaped(t, s) && j.channel < |t|
    ensures OnlyAtHome(SetFailed(t, s, j.channel, j), j, Place.Failed)
  {
    var r := SetFailed(t, s, j.channel, j);
    SetFailedKeepsShapes(t, s, j);
    AtHomeAfter(t, s, j, FailAt(s[j.channel], j));
    assert j in r[j.channel].failed;
    assert Shaped(t, r, j);
    HomeOnly(t, r, j);
  }

  lemma {:induction false} AtHomeAfter(t: seq<Config>, s: seq<Chan>, j: Job, ch: Chan)
    requires IsTree(t) && |s| == |t| && j.channel < |t|
    ensures Remove(t, s[j.channel := ch], t[j.channel].parent, j)[j.channel] == ch
  {
    var h := j.channel;
    RemovePlaces(t, s[h := ch], t[h].parent, j);
    if t[h].parent >= 0 && Below(t, t[h].parent, h) {
      BelowIsLater(t, t[h].parent, h);
    }
  }

  /** A job that did not run runs all the way; one that runs at home stays where it is. */
  lemma {:induction false} RunningAchieves(t: seq<Config>, s: seq<Chan>, j: Job)
    requires AllShaped(t, s) && j.channel < |t|
    ensures j in s[j.channel].running ==> SetRunning(t, s, j.channel, j) == s
    ensures j !in s[j.channel].running ==> RunsAllTheWay(t, SetRunning(t, s, j.channel, j), j)
  {
    if j !in s[j.channel].running {
      SetRunningKeepsShapes(t, s, j);
      SetRunningPlaces(t, s, j.channel, j);
      assert Shaped(t, s, j);
    }
  }

  // ---------------------------------------------------------------- the job object

  /** The job is known with exactly the properties of the notification. */
  ghost predicate KnownAs(m: Manager, msg: Msg) {
    && msg.uuid in m.jobs
    && m.jobs[msg.uuid] == Job(m.jobs[msg.uuid].id, msg.dbName, msg.uuid, msg.channel, msg.key)
    && EtaOf(m.sched.eta, m.jobs[msg.uuid]) == msg.eta
  }

  /** An accepted notification leaves the job known with its properties, and keeps the object that has them all. */
  lemma {:induction false} RenewAchieves(t: seq<Config>, m: Manager, msg: Msg)
    requires Good(t, m) && msg.channel < |t| && Agrees(m, msg)
    ensures var n := Renewed(t, m, msg);
            && KnownAs(n, msg)
            && (KnownAs(m, msg) ==> n == m)
            && (!KnownAs(m, msg) ==>
                  && n.jobs[msg.uuid].id == m.made && IsNowhere(n.sched.ch, n.jobs[msg.uuid])
                  && (msg.uuid in m.jobs ==> IsNowhere(n.sched.ch, m.jobs[msg.uuid])))
            && (forall u | u in m.jobs && u != msg.uuid :: u in n.jobs && n.jobs[u] == m.jobs[u])
            && (forall x: Job | x.uuid != msg.uuid :: SamePlaces(m.sched.ch, n.sched.ch, x))
  {
    var r, n := RemoveJob(t, m, msg.uuid), Renewed(t, m, msg);
    if !KnownAs(m, msg) {
      RemoveJobRemoves(t, m, msg.uuid);
      ForgetKeepsGood(t, m, {msg.uuid}, r);
      NotYetThere(t, r, n.jobs[msg.uuid]);
      forall x: Job ensures x.uuid != msg.uuid ==> SamePlaces(m.sched.ch, n.sched.ch, x) {
        ForgottenPlaces(t, m, {msg.uuid}, r, x);
      }
      if msg.uuid in m.jobs {
        ForgottenPlaces(t, m, {msg.uuid}, r, m.jobs[msg.uuid]);
      }
    }
  }

  lemma {:induction false} NotYetThere(t: seq<Config>, m: Manager, j: Job)
    requires Good(t, m) && j !in m.sched.eta
    ensures IsNowhere(m.sched.ch, j)
  {
    forall c | 0 <= c < |t| ensures PlaceOf(m.sched.ch[c], j) == Nowhere {
      assert j !in All(m.sched.ch[c]);
    }
  }

  // ---------------------------------------------------------------- the whole notification

  /** What the notification makes of its job, when the channels were `s` and are `r` now. */
  ghost predicate Achieved(t: seq<Config>, s: seq<Chan>, r: seq<Chan>, j: Job, state: JobState)
    requires IsTree(t) && |s| == |r| == |t| && j.channel < |t|
  {
    match state
    case NoState | Done | Cancelled => IsNowhere(r, j)
    case Pending => OnlyAtHome(r, j, Queued)
    case Failed => OnlyAtHome(r, j, Place.Failed)
    case Enqueued | Started => if j in s[j.channel].running then SamePlaces(s, r, j) else RunsAllTheWay(t, r, j)
    case WaitDependencies | Other(_) => SamePlaces(s, r, j)
  }

  lemma {:induction false} DispatchAchieves(t: seq<Config>, s: seq<Chan>, j: Job, state: JobState)
    requires AllShaped(t, s) && j.channel < |t|
    ensures Achieved(t, s, Dispatch(t, s, j, state), j, state)
    ensures forall x | x != j :: SamePlaces(s, Dispatch(t, s, j, state), x)
  {
    forall x | x != j ensures SamePlaces(s, Dispatch(t, s, j, state), x) {
      OthersStay(t, s, j, state, x);
    }
    match state
    case NoState | Done | Cancelled => DoneAchieves(t, s, j);
    case Pending => PendingAchieves(t, s, j);
    case Failed => FailedAchieves(t, s, j);
    case Enqueued | Started => RunningAchieves(t, s, j);
    case WaitDependencies | Other(_) =>
  }

  /** A transition of one job leaves all others where they are. */
  lemma {:induction false} OthersStay(t: seq<Config>, s: seq<Chan>, j: Job, state: JobState, x: Job)
    requires AllShaped(t, s) && j.channel < |t| && x != j
    ensures SamePlaces(s, Dispatch(t, s, j, state), x)
  {
    var h := j.channel;
    RemovePlaces(t, s, h, j);
    SetRunningPlaces(t, s, h, j);
    OthersStayAbove(t, s, j, PendAt(s[h], j), x);
    OthersStayAbove(t, s, j, FailAt(s[h], j), x);
  }

  lemma {:induction false} OthersStayAbove(t: seq<Config>, s: seq<Chan>, j: Job, ch: Chan, x: Job)
    requires IsTree(t) && |s| == |t| && j.channel < |t| && x != j && PlaceOf(ch, x) == PlaceOf(s[j.channel], x)
    ensures SamePlaces(s, Remove(t, s[j.channel := ch], t[j.channel].parent, j), x)
  {
    var s1 := s[j.channel := ch];
    RemovePlaces(t, s1, t[j.channel].parent, j);
    assert SamePlaces(s, s1, x) && SamePlaces(s1, Remove(t, s1, t[j.channel].parent, j), x);
  }

  /**
   * A notification that is accepted leaves the job known with its properties and where its state says;
   * an object that it has replaced is nowhere, and jobs with other uuids are where they were.
   */
  lemma {:induction false} NotifyAchieves(t: seq<Config>, m: Manager, msg: Msg)
    requires Good(t, m) && msg.channel < |t| && Agrees(m, msg)
    ensures var n := Notify(t, m, msg);
            && KnownAs(n, msg) && n.jobs[msg.uuid].channel < |t|
            && Achieved(t, Renewed(t, m, msg).sched.ch, n.sched.ch, n.jobs[msg.uuid], msg.state)
            && (msg.uuid in m.jobs && !KnownAs(m, msg) ==> IsNowhere(n.sched.ch, m.jobs[msg.uuid]))
            && forall x: Job | x.uuid != msg.uuid :: SamePlaces(m.sched.ch, n.sched.ch, x)
  {
    var r := Renewed(t, m, msg);
    var j, s' := r.jobs[msg.uuid], Notify(t, m, msg).sched.ch;
    RenewAchieves(t, m, msg);
    RenewKeepsGood(t, m, msg);
    DispatchAchieves(t, r.sched.ch, j, msg.state);
    forall x: Job | x.uuid != msg.uuid ensures SamePlaces(m.sched.ch, s', x) {
      assert SamePlaces(m.sched.ch, r.sched.ch, x) && SamePlaces(r.sched.ch, s', x);
    }
    if msg.uuid in m.jobs && !KnownAs(m, msg) {
      assert SamePlaces(r.sched.ch, s', m.jobs[msg.uuid]);
    }
  }

  /** A notification is refused exactly if the job is known with another database or creation date. */
  lemma {:induction false} RefusedExactly(t: seq<Config>, m: Manager, msg: Msg)
    requires Good(t, m) && msg.channel < |t|
    ensures !Agrees(m, msg) <==>
            msg.uuid in m.jobs &&
            !(m.jobs[msg.uuid].dbName == msg.dbName && m.jobs[msg.uuid].key.dateCreated == msg.key.dateCreated)
    ensures !Agrees(m, msg) ==> Notify(t, m, msg) == m
  {}
}
