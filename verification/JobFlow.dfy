/** Where a job can be along the path from its home channel to the root. */
module JobFlow {
  import opened Jobs
  import opened SchedulerSpec
  import opened Subtrees

  datatype Place = Nowhere | Queued | Running | Failed | Mixed

  function PlaceOf(ch: Chan, j: Job): Place {
    match (j in ch.queue, j in ch.running, j in ch.failed)
    case (false, false, false) => Nowhere
    case (true, false, false) => Queued
    case (false, true, false) => Running
    case (false, false, true) => Failed
    case _ => Mixed
  }

  /** Absent from channel c and all channels above it. */
  ghost predicate Clean(t: seq<Config>, s: seq<Chan>, c: int, j: Job)
    requires At(t, s, c)
    decreases c + 1
  {
    c == -1 || (PlaceOf(s[c], j) == Nowhere && Clean(t, s, t[c].parent, j))
  }

  /** Running from channel c up to some channel, queued at the next and absent above it; or running up to the root. */
  ghost predicate Flows(t: seq<Config>, s: seq<Chan>, c: int, j: Job)
    requires At(t, s, c)
    decreases c + 1
  {
    || c == -1
    || (PlaceOf(s[c], j) == Running && Flows(t, s, t[c].parent, j))
    || (PlaceOf(s[c], j) == Queued && Clean(t, s, t[c].parent, j))
  }

  /** The four shapes: absent, failed at home only, flowing, or (part of flowing) running everywhere. */
  ghost predicate OnPath(t: seq<Config>, s: seq<Chan>, j: Job)
    requires At(t, s, j.channel)
  {
    || Clean(t, s, j.channel, j)
    || (PlaceOf(s[j.channel], j) == Failed && Clean(t, s, t[j.channel].parent, j))
    || Flows(t, s, j.channel, j)
  }

  /** The job is nowhere but on its path, and there it has one of the four shapes. */
  ghost predicate Shaped(t: seq<Config>, s: seq<Chan>, j: Job)
    requires IsTree(t) && |s| == |t|
  {
    && (forall c | 0 <= c < |t| :: (j.channel < |t| && Below(t, j.channel, c)) || PlaceOf(s[c], j) == Nowhere)
    && (j.channel < |t| ==> OnPath(t, s, j))
  }

  ghost predicate AllShaped(t: seq<Config>, s: seq<Chan>) {
    && IsTree(t) && |s| == |t|
    && forall j :: Shaped(t, s, j)
  }

  // ---------------------------------------------------------------- what follows from the shapes

  lemma {:induction false} FlowsToParent(t: seq<Config>, s: seq<Chan>, c: int, d: int, j: Job)
    requires At(t, s, c) && 0 <= c && 0 <= d < |t| && Below(t, c, d)
    ensures Clean(t, s, c, j) ==> Clean(t, s, d, j)
    ensures Flows(t, s, c, j) ==> Flows(t, s, d, j) || Clean(t, s, d, j)
    decreases c
  {
    if c != d {
      FlowsToParent(t, s, t[c].parent, d, j);
    }
  }

  /** At every channel a job of its subtree is absent, failed (at home only), or flowing. */
  lemma {:induction false} ShapeAt(t: seq<Config>, s: seq<Chan>, c: nat, j: Job)
    requires IsTree(t) && |s| == |t| && c < |t| && j.channel < |t| && Shaped(t, s, j) && Below(t, j.channel, c)
    ensures Clean(t, s, c, j) || Flows(t, s, c, j) || (c == j.channel && PlaceOf(s[c], j) == Failed)
  {
    FlowsToParent(t, s, j.channel, c, j);
    if c != j.channel {
      BelowIsLater(t, j.channel, c);
      if PlaceOf(s[j.channel], j) == Failed {
        FlowsToParent(t, s, t[j.channel].parent, c, j);
      }
    }
  }

  /** What a channel runs is what its parent has from it, queued or running. */
  lemma {:induction false} RunningIsPassedOn(t: seq<Config>, s: seq<Chan>, c: nat)
    requires AllShaped(t, s) && 0 < c < |t|
    ensures s[c].running ==
            set j | j in s[t[c].parent].queue + s[t[c].parent].running && j.channel < |t| && Below(t, j.channel, c)
  {
    var p := t[c].parent;
    forall j | j in s[c].running ensures j in s[p].queue + s[p].running && j.channel < |t| && Below(t, j.channel, c) {
      assert Shaped(t, s, j) && PlaceOf(s[c], j) != Nowhere;
      ShapeAt(t, s, c, j);
    }
    forall j | j in s[p].queue + s[p].running && j.channel < |t| && Below(t, j.channel, c) ensures j in s[c].running {
      assert Shaped(t, s, j) && PlaceOf(s[p], j) != Nowhere;
      ShapeAt(t, s, c, j);
      assert !Clean(t, s, p, j);
    }
  }

  /** A job that is handed out runs in every channel of its path. */
  lemma {:induction false} RunningAtRoot(t: seq<Config>, s: seq<Chan>, c: nat, j: Job)
    requires AllShaped(t, s) && c < |t| && j in s[0].running && j.channel < |t| && Below(t, j.channel, c)
    ensures PlaceOf(s[c], j) == Running
    decreases c
  {
    assert Shaped(t, s, j);
    AllBelowRoot(t, c);
    ShapeAt(t, s, c, j);
    if c > 0 {
      BelowParent(t, j.channel, c);
      RunningAtRoot(t, s, t[c].parent, j);
      assert !Clean(t, s, t[c].parent, j);
    } else {
      assert PlaceOf(s[0], j) != Nowhere;
    }
  }

  // ---------------------------------------------------------------- job transitions keep the shapes

  ghost predicate SamePlaces(s: seq<Chan>, s': seq<Chan>, j: Job) {
    |s| == |s'| && forall c | 0 <= c < |s| :: PlaceOf(s[c], j) == PlaceOf(s'[c], j)
  }

  lemma {:induction false} SamePath(t: seq<Config>, s: seq<Chan>, s': seq<Chan>, c: int, j: Job)
    requires At(t, s, c) && SamePlaces(s, s', j)
    ensures Clean(t, s, c, j) == Clean(t, s', c, j) && Flows(t, s, c, j) == Flows(t, s', c, j)
    decreases c + 1
  {
    if c >= 0 {
      SamePath(t, s, s', t[c].parent, j);
    }
  }

  lemma {:induction false} SameShape(t: seq<Config>, s: seq<Chan>, s': seq<Chan>, j: Job)
    requires IsTree(t) && |s| == |t| && Shaped(t, s, j) && SamePlaces(s, s', j)
    ensures Shaped(t, s', j)
  {
    if j.channel < |t| {
      SamePath(t, s, s', j.channel, j);
      SamePath(t, s, s', t[j.channel].parent, j);
    }
  }

  /** Removing a job does not concern the others, and nothing happens below. */
  lemma {:induction false} RemovePlaces(t: seq<Config>, s: seq<Chan>, c: int, j: Job)
    requires At(t, s, c)
    ensures forall x | x != j :: SamePlaces(s, Remove(t, s, c, j), x)
    ensures Clean(t, Remove(t, s, c, j), c, j)
    ensures forall d | 0 <= d < |t| && (c < 0 || !Below(t, c, d)) :: Remove(t, s, c, j)[d] == s[d]
    ensures forall d | 0 <= d < |t| && c >= 0 && Below(t, c, d) :: PlaceOf(Remove(t, s, c, j)[d], j) == Nowhere
    decreases c + 1
  {
    if c >= 0 {
      var s1 := s[c := RemoveAt(s[c], j)];
      RemovePlaces(t, s1, t[c].parent, j);
      forall x | x != j ensures SamePlaces(s, Remove(t, s, c, j), x) {
        assert SamePlaces(s1, Remove(t, s1, t[c].parent, j), x);
        assert SamePlaces(s, s1, x);
      }
      if t[c].parent >= 0 && Below(t, t[c].parent, c) {
        BelowIsLater(t, t[c].parent, c);
      }
    }
  }

  lemma {:induction false} RemoveKeepsShapes(t: seq<Config>, s: seq<Chan>, j: Job)
    requires AllShaped(t, s) && j.channel < |t|
    ensures AllShaped(t, Remove(t, s, j.channel, j))
  {
    var s' := Remove(t, s, j.channel, j);
    RemovePlaces(t, s, j.channel, j);
    forall x ensures Shaped(t, s', x) {
      if x != j {
        SameShape(t, s, s', x);
      } else {
        assert Shaped(t, s, j);
      }
    }
  }

  /** The job is put into one place at home and leaves the channels above. */
  lemma {:induction false} HomeOnlyKeepsShapes(t: seq<Config>, s: seq<Chan>, j: Job, ch: Chan)
    requires AllShaped(t, s) && j.channel < |t|
    requires PlaceOf(ch, j) in {Queued, Failed} && forall x | x != j :: PlaceOf(ch, x) == PlaceOf(s[j.channel], x)
    ensures AllShaped(t, Remove(t, s[j.channel := ch], t[j.channel].parent, j))
  {
    var h := j.channel;
    var s1, s' := s[h := ch], Remove(t, s[h := ch], t[h].parent, j);
    RemovePlaces(t, s1, t[h].parent, j);
    if t[h].parent >= 0 && Below(t, t[h].parent, h) {
      BelowIsLater(t, t[h].parent, h);
    }
    forall x ensures Shaped(t, s', x) {
      assert Shaped(t, s, x);
      if x != j {
        assert SamePlaces(s, s1, x) && SamePlaces(s1, s', x);
        SameShape(t, s, s', x);
      }
    }
  }

  lemma {:induction false} SetPendingKeepsShapes(t: seq<Config>, s: seq<Chan>, j: Job)
    requires AllShaped(t, s) && j.channel < |t|
    ensures AllShaped(t, SetPending(t, s, j.channel, j))
  {
    if j !in s[j.channel].queue {
      HomeOnlyKeepsShapes(t, s, j, PendAt(s[j.channel], j));
    }
  }

  lemma {:induction false} SetFailedKeepsShapes(t: seq<Config>, s: seq<Chan>, j: Job)
    requires AllShaped(t, s) && j.channel < |t|
    ensures AllShaped(t, SetFailed(t, s, j.channel, j))
  {
    if j !in s[j.channel].failed {
      HomeOnlyKeepsShapes(t, s, j, FailAt(s[j.channel], j));
    }
  }

  /** Marking a job running from channel c on, where it is absent above c. */
  lemma {:induction false} SetRunningPlaces(t: seq<Config>, s: seq<Chan>, c: int, j: Job)
    requires At(t, s, c)
    ensures forall x | x != j :: SamePlaces(s, SetRunning(t, s, c, j), x)
    ensures forall d | 0 <= d < |t| && (c < 0 || !Below(t, c, d)) :: SetRunning(t, s, c, j)[d] == s[d]
    ensures c >= 0 && PlaceOf(s[c], j) != Mixed && PlaceOf(s[c], j) != Running && Clean(t, s, t[c].parent, j) ==>
              forall d | 0 <= d < |t| && Below(t, c, d) :: PlaceOf(SetRunning(t, s, c, j)[d], j) == Running
    decreases c + 1
  {
    if c >= 0 && j !in s[c].running {
      var s1 := s[c := RunAt(s[c], j)];
      SetRunningPlaces(t, s1, t[c].parent, j);
      forall x | x != j ensures SamePlaces(s, SetRunning(t, s, c, j), x) {
        assert SamePlaces(s1, SetRunning(t, s1, t[c].parent, j), x);
        assert SamePlaces(s, s1, x);
      }
      if t[c].parent >= 0 && Below(t, t[c].parent, c) {
        BelowIsLater(t, t[c].parent, c);
      }
      if Clean(t, s, t[c].parent, j) {
        CleanBelow(t, s, s1, c, t[c].parent, j);
      }
    }
  }

  /** What happens at a channel below does not concern the path above. */
  lemma {:induction false} CleanBelow(t: seq<Config>, s: seq<Chan>, s': seq<Chan>, c: int, d: int, j: Job)
    requires At(t, s, d) && |s'| == |s| && d < c && Clean(t, s, d, j)
    requires forall b | 0 <= b < c && b < |s| :: s'[b] == s[b]
    ensures Clean(t, s', d, j)
    decreases d + 1
  {
    if d >= 0 {
      CleanBelow(t, s, s', c, t[d].parent, j);
    }
  }

  lemma {:induction false} RunningUpFlows(t: seq<Config>, s: seq<Chan>, c: int, j: Job)
    requires At(t, s, c)
    requires c >= 0 ==> forall d | 0 <= d < |t| && Below(t, c, d) :: PlaceOf(s[d], j) == Running
    ensures Flows(t, s, c, j)
    decreases c + 1
  {
    if c >= 0 {
      assert Below(t, c, c);
      RunningUpFlows(t, s, t[c].parent, j);
    }
  }

  lemma {:induction false} SetRunningKeepsShapes(t: seq<Config>, s: seq<Chan>, j: Job)
    requires AllShaped(t, s) && j.channel < |t|
    ensures AllShaped(t, SetRunning(t, s, j.channel, j))
    ensures j !in s[j.channel].running ==>
              forall d | 0 <= d < |t| && Below(t, j.channel, d) ::
                PlaceOf(SetRunning(t, s, j.channel, j)[d], j) == Running
  {
    var s' := SetRunning(t, s, j.channel, j);
    SetRunningPlaces(t, s, j.channel, j);
    assert Shaped(t, s, j);
    forall x ensures Shaped(t, s', x) {
      assert Shaped(t, s, x);
      if x != j {
        SameShape(t, s, s', x);
      } else if j !in s[j.channel].running {
        RunningUpFlows(t, s', j.channel, j);
      }
    }
  }
}
