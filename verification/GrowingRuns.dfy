/** Runs during which channels are added to the tree. */
module GrowingRuns {
  import opened Jobs
  import opened SchedulerSpec
  import opened Subtrees
  import opened ManagerSpec
  import opened JobFlow
  import opened SchedulerRuns

  const NewChannel := Chan({}, {}, {}, 0.0)

  function Grown(m: Manager): Manager {
    m.(sched := Sched(m.sched.ch + [NewChannel], m.sched.eta))
  }

  /** A new channel is below no other channel than its parents, and nothing is below it. */
  lemma {:induction false} BelowStays(t: seq<Config>, cfg: Config, c: nat, d: int)
    requires IsTree(t) && IsTree(t + [cfg]) && c < |t|
    ensures Below(t + [cfg], c, d) <==> Below(t, c, d)
  {
    if c > 0 {
      BelowStays(t, cfg, t[c].parent, d);
    }
  }

  lemma {:induction false} PathStays(t: seq<Config>, cfg: Config, s: seq<Chan>, c: int, j: Job)
    requires At(t, s, c) && IsTree(t + [cfg])
    ensures Clean(t + [cfg], s + [NewChannel], c, j) <==> Clean(t, s, c, j)
    ensures Flows(t + [cfg], s + [NewChannel], c, j) <==> Flows(t, s, c, j)
    decreases c + 1
  {
    if c >= 0 {
      PathStays(t, cfg, s, t[c].parent, j);
    }
  }

  lemma {:induction false} ShapeStays(t: seq<Config>, cfg: Config, s: seq<Chan>, j: Job)
    requires IsTree(t) && |s| == |t| && IsTree(t + [cfg]) && Shaped(t, s, j)
    ensures Shaped(t + [cfg], s + [NewChannel], j)
  {
    if j.channel < |t| {
      forall c | 0 <= c < |t| ensures Below(t, j.channel, c) ==> Below(t + [cfg], j.channel, c) {
        BelowStays(t, cfg, j.channel, c);
      }
      PathStays(t, cfg, s, j.channel, j);
      PathStays(t, cfg, s, t[j.channel].parent, j);
    } else if j.channel == |t| {
      EmptyIsClean(t + [cfg], s + [NewChannel], j.channel, j);
    }
  }

  /** Adding a channel keeps everything that holds of the state. */
  lemma {:induction false} GrowingKeepsGood(t: seq<Config>, cfg: Config, m: Manager)
    requires Good(t, m) && 0 <= cfg.parent < |t|
    ensures Good(t + [cfg], Grown(m))
  {
    forall j ensures Shaped(t + [cfg], m.sched.ch + [NewChannel], j) {
      ShapeStays(t, cfg, m.sched.ch, j);
    }
    ShapesGiveQueues(t + [cfg], m.sched.ch + [NewChannel]);
    forall c | 0 <= c < |t| ensures WaitAtHome(m.sched.eta, (m.sched.ch + [NewChannel])[c].queue, c) {
      assert WaitAtHome(m.sched.eta, m.sched.ch[c].queue, c);
    }
  }

  datatype LiveEvent = Happens(event: Event) | Adds(cfg: Config)

  datatype LiveEntry = LiveEntry(event: LiveEvent, conf: seq<Config>, after: Manager)

  ghost predicate LiveStep(t: seq<Config>, m: Manager, e: LiveEntry) {
    match e.event
    case Happens(event) => e.conf == t && Step(t, m, event, e.after)
    case Adds(cfg) => 0 <= cfg.parent < |t| && e.conf == t + [cfg] && e.after == Grown(m)
  }

  ghost predicate LiveRun(t: seq<Config>, m: Manager, log: seq<LiveEntry>)
    decreases |log|
  {
    log == [] || (LiveStep(t, m, log[0]) && LiveRun(log[0].conf, log[0].after, log[1..]))
  }

  /** The invariant of all runs also holds in runs that add channels, in the tree that there is in the end. */
  lemma {:induction false} LiveRunsAreGood(t: seq<Config>, m: Manager, log: seq<LiveEntry>)
    requires Good(t, m) && LiveRun(t, m, log)
    ensures if log == [] then Good(t, m) else Good(log[|log| - 1].conf, log[|log| - 1].after)
    decreases |log|
  {
    if log != [] {
      match log[0].event {
        case Happens(event) => StepKeepsGood(t, m, event, log[0].after);
        case Adds(cfg) => GrowingKeepsGood(t, cfg, m);
      }
      LiveRunsAreGood(log[0].conf, log[0].after, log[1..]);
    }
  }
}
