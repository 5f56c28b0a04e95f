/** The channels and their transitions. A channel is known by its position in the table of channels. */
module Channels {
  import opened Jobs
  import opened Wrappers
  import opened QueueBanks
  import opened SchedulerSpec
  import opened Subtrees

  /** Every channel lists the channels whose parent it is, each of them once. */
  ghost predicate Listed(conf: seq<Config>, children: seq<seq<nat>>) {
    |children| == |conf| && forall c | 0 <= c < |conf| :: ListsAt(conf, c, children[c])
  }

  ghost predicate ListsAt(conf: seq<Config>, c: nat, list: seq<nat>) {
    && (forall k | 0 <= k < |list| :: c < list[k] < |conf| && conf[list[k]].parent == c)
    && (forall k, l | 0 <= k < l < |list| :: list[k] != list[l])
    && (forall d | 0 <= d < |conf| && conf[d].parent == c :: d in list)
  }

  class ChannelTree {
    const bank: QueueBank
    var conf: seq<Config>
    var children: seq<seq<nat>>
    var running: seq<set<Job>>
    var failed: seq<set<Job>>
    var pauseUntil: seq<Time>
    ghost var st: seq<Chan>

    /** A tree that has only the root channel. */
    constructor (capacity: int)
      ensures Valid() && fresh(bank) && fresh(bank.Repr)
      ensures conf == [Config(-1, capacity, 0.0, false)] && st == [Chan({}, {}, {}, 0.0)] && bank.slots.eta == map[]
    {
      var b := NewBank();
      bank := b;
      conf, children := [Config(-1, capacity, 0.0, false)], [[]];
      running, failed, pauseUntil, st := [{}], [{}], [0.0], [Chan({}, {}, {}, 0.0)];
      RootIsTree(Config(-1, capacity, 0.0, false));
    }

    /** A new channel below an existing one. */
    method AddChannel(cfg: Config) returns (c: nat)
      requires Valid() && 0 <= cfg.parent < |conf|
      modifies this, bank
      ensures Valid() && c == old(|conf|) && conf == old(conf) + [cfg]
      ensures st == old(st) + [Chan({}, {}, {}, 0.0)] && fresh(bank.Repr - old(bank.Repr))
    {
      c := |conf|;
      bank.NewQueue(cfg.sequential);
      Connect(cfg);
    }

    /** Enters a channel whose queue has just been made. */
    method Connect(cfg: Config)
      requires IsTree(conf) && Listed(conf, children) && 0 <= cfg.parent < |conf|
      requires bank.Valid() && this !in bank.Repr && |bank.contents| == |conf| + 1
      requires bank.contents[|conf|] == {} && Links(st, bank.contents[..|conf|], running, failed, pauseUntil)
      requires |st| == |conf|
      requires bank.sequential[|conf|] == cfg.sequential
      requires forall c | 0 <= c < |conf| :: bank.sequential[c] == conf[c].sequential
      modifies this
      ensures Valid() && conf == old(conf) + [cfg] && st == old(st) + [Chan({}, {}, {}, 0.0)]
    {
      TreeOneMore(conf, children, cfg);
      conf, children := conf + [cfg], children[cfg.parent := children[cfg.parent] + [|conf|]] + [[]];
      running, failed, pauseUntil := running + [{}], failed + [{}], pauseUntil + [0.0];
      st := st + [Chan({}, {}, {}, 0.0)];
    }

    ghost predicate Valid()
      reads this, bank, bank.slots, bank.Repr
    {
      && IsTree(conf) && |st| == |conf| && Listed(conf, children)
      && bank.Valid() && this !in bank.Repr
      && Linked()
      && |bank.sequential| == |conf|
      && (forall c | 0 <= c < |conf| :: bank.sequential[c] == conf[c].sequential)
    }


    /** `st` is the state that the fields and the queues make up. */
    ghost predicate Linked()
      reads this, bank
    {
      Links(st, bank.contents, running, failed, pauseUntil)
    }

    predicate CanRun(c: nat)
      requires c < |conf| == |running| == |failed|
      reads this
    {
      if conf[c].sequential && failed[c] != {} then false
      else if conf[c].capacity == 0 then true
      else |running[c]| < conf[c].capacity
    }

    // What each transition does to channel c itself.

    method RemoveHere(c: nat, job: Job)
      requires Valid() && c < |conf|
      modifies this`st, this`running, this`failed, bank`contents, bank.Repr - {bank.slots}
      ensures Valid() && st == old(st)[c := RemoveAt(old(st)[c], job)]
    {
      bank.Remove(c, job);
      running := running[c := running[c] - {job}];
      failed := failed[c := failed[c] - {job}];
      st := st[c := RemoveAt(st[c], job)];
    }

    method PendHere(c: nat, job: Job)
      requires Valid() && c < |conf| && job in bank.slots.eta && job.channel == c
      modifies this`st, this`running, this`failed, bank`contents, bank.Repr - {bank.slots}
      ensures Valid() && st == old(st)[c := PendAt(old(st)[c], job)]
    {
      bank.Add(c, job);
      running := running[c := running[c] - {job}];
      failed := failed[c := failed[c] - {job}];
      st := st[c := PendAt(st[c], job)];
    }

    method RunHere(c: nat, job: Job)
      requires Valid() && c < |conf|
      modifies this`st, this`running, this`failed, bank`contents, bank.Repr - {bank.slots}
      ensures Valid() && st == old(st)[c := RunAt(old(st)[c], job)]
    {
      bank.Remove(c, job);
      running := running[c := running[c] + {job}];
      failed := failed[c := failed[c] - {job}];
      st := st[c := RunAt(st[c], job)];
    }

    method FailHere(c: nat, job: Job)
      requires Valid() && c < |conf|
      modifies this`st, this`running, this`failed, bank`contents, bank.Repr - {bank.slots}
      ensures Valid() && st == old(st)[c := FailAt(old(st)[c], job)]
    {
      bank.Remove(c, job);
      running := running[c := running[c] - {job}];
      failed := failed[c := failed[c] + {job}];
      st := st[c := FailAt(st[c], job)];
    }

    /** The job leaves channel c and all channels above it. */
    method Remove(c: nat, job: Job)
      requires Valid() && c < |conf|
      modifies this`st, this`running, this`failed, bank`contents, bank.Repr - {bank.slots}
      ensures Valid() && st == SchedulerSpec.Remove(conf, old(st), c, job)
      decreases c
    {
      RemoveHere(c, job);
      if conf[c].parent >= 0 {
        Remove(conf[c].parent, job);
      }
    }

    method SetDone(job: Job)
      requires Valid() && job.channel < |conf|
      modifies this`st, this`running, this`failed, bank`contents, bank.Repr - {bank.slots}
      ensures Valid() && st == SchedulerSpec.Remove(conf, old(st), job.channel, job)
    {
      Remove(job.channel, job);
    }

    /** The job goes to the queue of its channel and leaves the channels above. */
    method SetPending(job: Job)
      requires Valid() && job.channel < |conf| && job in bank.slots.eta
      modifies this`st, this`running, this`failed, bank`contents, bank.Repr - {bank.slots}
      ensures Valid() && st == SchedulerSpec.SetPending(conf, old(st), job.channel, job)
    {
      if !bank.Contains(job.channel, job) {
        PendHere(job.channel, job);
        if conf[job.channel].parent >= 0 {
          Remove(conf[job.channel].parent, job);
        }
      }
    }

    /** The job is running in channel c and in all channels above it. */
    method SetRunning(c: nat, job: Job)
      requires Valid() && c < |conf|
      modifies this`st, this`running, this`failed, bank`contents, bank.Repr - {bank.slots}
      ensures Valid() && st == SchedulerSpec.SetRunning(conf, old(st), c, job)
      decreases c
    {
      if job !in running[c] {
        RunHere(c, job);
        if conf[c].parent >= 0 {
          SetRunning(conf[c].parent, job);
        }
      }
    }

    method SetFailed(job: Job)
      requires Valid() && job.channel < |conf|
      modifies this`st, this`running, this`failed, bank`contents, bank.Repr - {bank.slots}
      ensures Valid() && st == SchedulerSpec.SetFailed(conf, old(st), job.channel, job)
    {
      if job !in failed[job.channel] {
        FailHere(job.channel, job);
        if conf[job.channel].parent >= 0 {
          Remove(conf[job.channel].parent, job);
        }
      }
    }

    /** Takes one job that may run from the queue of channel c. */
    method TakeNext(c: nat, now: Time) returns (r: Option<Job>)
      requires Valid() && c < |conf|
      modifies this`st, this`running, bank`contents, bank.Repr
      ensures Valid() && bank.slots.eta == Promoted(old(bank.slots.eta), old(st)[c].queue, now)
      ensures Pops(conf[c].sequential, bank.slots.eta, old(st)[c].queue, r)
      ensures st == if r.None? then old(st) else old(st)[c := Moved(old(st)[c], r.value)]
    {
      r := bank.Pop(c, now);
      if r.Some? {
        running := running[c := running[c] + {r.value}];
        st := st[c := Moved(st[c], r.value)];
      }
    }

    /** The jobs that channel c yields from its queue, if it is not paused. */
    method Drain(c: nat, now: Time) returns (out: seq<Job>)
      requires Valid() && c < |conf|
      modifies this`st, this`running, bank`contents, bank.Repr
      ensures Valid()
      ensures st == old(st)[c := After(old(st)[c], out)]
      ensures Drains(conf[c], Promoted(old(bank.slots.eta), old(st)[c].queue, now), old(st)[c], out)
      ensures bank.slots.eta == EtasIfRun(conf[c], old(st)[c], old(bank.slots.eta), now)
    {
      ghost var ch, e := st[c], bank.slots.eta;
      out := [];
      DrainingStarts(conf[c], Promoted(e, ch.queue, now), ch);
      var canRun := CanRun(c);
      while canRun
        invariant Valid() && st == old(st)[c := After(ch, out)]
        invariant Draining(conf[c], Promoted(e, ch.queue, now), ch, out)
        invariant out == [] && canRun ==> bank.slots.eta == e
        invariant out != [] || !canRun ==> bank.slots.eta == EtasIfRun(conf[c], ch, e, now)
        invariant canRun ==> MayTakeMore(conf[c], ch, out)
        invariant !canRun ==> Drains(conf[c], Promoted(e, ch.queue, now), ch, out)
        decreases canRun, ch.queue - Set(out)
      {
        ghost var before := out;
        canRun, out := DrainStep(c, now, ch, e, out);
        UpdatedTwice(old(st), c, After(ch, before), After(ch, out));
      }
    }

    /** One round of the loop that yields jobs. */
    method DrainStep(c: nat, now: Time, ghost ch: Chan, ghost e: Etas, out: seq<Job>)
      returns (canRun: bool, more: seq<Job>)
      requires Valid() && c < |conf| && st[c] == After(ch, out)
      requires Draining(conf[c], Promoted(e, ch.queue, now), ch, out) && MayTakeMore(conf[c], ch, out)
      requires bank.slots.eta == if out == [] then e else Promoted(e, ch.queue, now)
      modifies this`st, this`running, bank`contents, bank.Repr
      ensures Valid() && st == old(st)[c := After(ch, more)]
      ensures bank.slots.eta == Promoted(e, ch.queue, now) && HasCapacity(conf[c], ch)
      ensures Draining(conf[c], Promoted(e, ch.queue, now), ch, more)
      ensures canRun ==> MayTakeMore(conf[c], ch, more) && Set(out) < Set(more) && more != []
      ensures !canRun ==> Drains(conf[c], Promoted(e, ch.queue, now), ch, more)
    {
      var job := TakeAnother(c, now, ch, e, out);
      Stepped(conf[c], bank.slots.eta, ch, out, job);
      canRun, more := false, out;
      if job.Some? {
        more := out + [job.value];
        if conf[c].throttle == 0.0 {
          canRun := CanRun(c);
        }
      }
    }

    /** Takes one more job once those of `out` have been taken. */
    method TakeAnother(c: nat, now: Time, ghost ch: Chan, ghost e: Etas, ghost out: seq<Job>) returns (r: Option<Job>)
      requires Valid() && c < |conf| && st[c] == After(ch, out) && MayTakeMore(conf[c], ch, out)
      requires Draining(conf[c], Promoted(e, ch.queue, now), ch, out)
      requires bank.slots.eta == if out == [] then e else Promoted(e, ch.queue, now)
      modifies this`st, this`running, bank`contents, bank.Repr
      ensures Valid() && bank.slots.eta == Promoted(e, ch.queue, now) && HasCapacity(conf[c], ch)
      ensures Pops(conf[c].sequential, bank.slots.eta, After(ch, out).queue, r)
      ensures st == if r.None? then old(st) else old(st)[c := Moved(After(ch, out), r.value)]
    {
      DrainingStarts(conf[c], Promoted(e, ch.queue, now), ch);
      PromotedAgain(e, ch.queue, After(ch, out).queue, now);
      r := TakeNext(c, now);
    }

    /** The part of a pass that concerns channel c alone. */
    method YieldJobs(c: nat, now: Time) returns (out: seq<Job>)
      requires Valid() && c < |conf|
      modifies this`st, this`running, this`pauseUntil, bank`contents, bank.Repr
      ensures Valid()
      ensures st == old(st)[c := Drained(conf[c], old(st)[c], now, out)]
      ensures Yields(conf[c], bank.slots.eta, old(st)[c], now, out)
      ensures bank.slots.eta == EtasIfPolled(conf[c], old(st)[c], old(bank.slots.eta), now)
    {
      ghost var cfg, ch, e := conf[c], st[c], bank.slots.eta;
      var paused := CheckPause(c, now);
      if paused {
        out := [];
      } else {
        out := Drain(c, now);
        Unpausing(cfg, ch, e, now, out);
        UpdatedTwice(old(st), c, Unpaused(cfg, ch), After(Unpaused(cfg, ch), out));
        if out != [] && conf[c].throttle != 0.0 {
          UpdatedTwice(old(st), c, After(Unpaused(cfg, ch), out), Drained(cfg, ch, now, out));
          SetPause(c, now + conf[c].throttle);
        }
      }
    }

    method AddHere(c: nat, job: Job)
      requires Valid() && c < |conf| && job in bank.slots.eta && (bank.slots.eta[job] == 0.0 || job.channel == c)
      modifies this`st, bank`contents, bank.Repr - {bank.slots}
      ensures Valid() && st == old(st)[c := old(st)[c].(queue := old(st)[c].queue + {job})]
    {
      bank.Add(c, job);
      st := st[c := st[c].(queue := st[c].queue + {job})];
    }

    /** The jobs that a child has yielded wait in the queue of channel c. */
    method AddAll(c: nat, jobs: seq<Job>)
      requires Valid() && c < |conf| && forall j | j in jobs :: j in bank.slots.eta && bank.slots.eta[j] == 0.0
      modifies this`st, bank`contents, bank.Repr - {bank.slots}
      ensures Valid() && st == old(st)[c := Joined(old(st)[c], jobs)]
    {
      ghost var ch := st[c];
      assert Joined(ch, jobs[..0]) == ch by {
        assert Set(jobs[..0]) == {};
      }
      for i := 0 to |jobs|
        invariant Valid() && st == old(st)[c := Joined(ch, jobs[..i])]
      {
        JoinOne(ch, jobs, i);
        UpdatedTwice(old(st), c, st[c], Joined(ch, jobs[..i + 1]));
        AddHere(c, jobs[i]);
      }
      assert jobs[..|jobs|] == jobs;
    }

    /** What a pass over the subtree of channel c does, when it starts from state `s` and ETAs `e`. */
    ghost predicate PassedFrom(now: Time, s0: seq<Chan>, e0: Etas, s: seq<Chan>, e: Etas, outs: seq<seq<Job>>,
                               out: seq<Job>, outs': seq<seq<Job>>, c: nat)
      requires IsTree(conf)
      reads this, bank, bank.slots
    {
      && HasPassed(conf, s0, e0, now, s, e, outs, st, bank.slots.eta, outs', Subtree(conf, c))
      && c < |outs'| && out == outs'[c]
      && forall j | j in out :: j in bank.slots.eta && bank.slots.eta[j] == 0.0
    }

    /**
     * A pass over the subtree of channel c: its children yield their jobs into its queue, then it
     * yields its own. Before the whole pass the state was `s0` and the ETAs were `e0`; `outs` has
     * what each channel has yielded so far.
     */
    method GetJobsToRun(c: nat, now: Time, ghost s0: seq<Chan>, ghost e0: Etas, ghost outs: seq<seq<Job>>)
      returns (out: seq<Job>, ghost outs': seq<seq<Job>>)
      requires Valid() && c < |conf|
      requires CanPass(conf, s0, e0, now, st, bank.slots.eta, outs, c)
      modifies this`st, this`running, this`pauseUntil, bank`contents, bank.Repr
      ensures Valid() && PassedFrom(now, s0, e0, old(st), old(bank.slots.eta), outs, out, outs', c)
      decreases |conf| - c, 1
    {
      ghost var s, e := st, bank.slots.eta;
      outs' := outs;
      MidwayStart(conf, s0, e0, now, s, e, outs, c);
      assert ListsAt(conf, c, children[c]);
      for k := 0 to |children[c]|
        invariant Valid()
        invariant Midway(conf, s0, e0, now, s, e, outs, st, bank.slots.eta, outs', c,
                         SubtreesOf(conf, children[c][..k]))
      {
        outs' := ChildYields(c, k, now, s0, e0, s, e, outs, outs');
      }
      assert children[c][..|children[c]|] == children[c];
      out, outs' := OwnYield(c, now, s0, e0, s, e, outs, outs');
    }

    /** The k-th child of channel c yields its jobs into the queue of c. */
    method ChildYields(c: nat, k: nat, now: Time, ghost s0: seq<Chan>, ghost e0: Etas,
                       ghost s: seq<Chan>, ghost e: Etas, ghost outs: seq<seq<Job>>, ghost outs1: seq<seq<Job>>)
      returns (ghost outs': seq<seq<Job>>)
      requires Valid() && c < |conf| && k < |children[c]|
      requires CanPass(conf, s0, e0, now, s, e, outs, c) && |s| == |conf|
      requires Midway(conf, s0, e0, now, s, e, outs, st, bank.slots.eta, outs1, c, SubtreesOf(conf, children[c][..k]))
      modifies this`st, this`running, this`pauseUntil, bank`contents, bank.Repr
      ensures Valid()
      ensures Midway(conf, s0, e0, now, s, e, outs, st, bank.slots.eta, outs', c,
                     SubtreesOf(conf, children[c][..k + 1]))
      decreases |conf| - c, 0
    {
      assert ListsAt(conf, c, children[c]);
      ghost var s1, e1 := st, bank.slots.eta;
      ChildCanPass(conf, s0, e0, now, s, e, outs, s1, e1, outs1, c, children[c], k);
      var jobs;
      jobs, outs' := GetJobsToRun(children[c][k], now, s0, e0, outs1);
      JoinJobs(c, k, jobs, now, s0, e0, s, e, outs, s1, e1, outs1, outs');
    }

    /** The jobs of the k-th child of channel c join the queue of c. */
    method JoinJobs(c: nat, k: nat, jobs: seq<Job>, ghost now: Time, ghost s0: seq<Chan>, ghost e0: Etas,
                    ghost s: seq<Chan>, ghost e: Etas, ghost outs: seq<seq<Job>>,
                    ghost s1: seq<Chan>, ghost e1: Etas, ghost outs1: seq<seq<Job>>, ghost outs': seq<seq<Job>>)
      requires Valid() && c < |conf| && k < |children[c]| && children[c][k] < |conf|
      requires CanPass(conf, s0, e0, now, s, e, outs, c) && |s| == |conf|
      requires Midway(conf, s0, e0, now, s, e, outs, s1, e1, outs1, c, SubtreesOf(conf, children[c][..k]))
      requires PassedFrom(now, s0, e0, s1, e1, outs1, jobs, outs', children[c][k])
      modifies this`st, bank`contents, bank.Repr - {bank.slots}
      ensures Valid()
      ensures Midway(conf, s0, e0, now, s, e, outs, st, bank.slots.eta, outs', c,
                     SubtreesOf(conf, children[c][..k + 1]))
    {
      assert ListsAt(conf, c, children[c]);
      ChildPassed(conf, s0, e0, now, s, e, outs, s1, e1, outs1, c, children[c], k, st, bank.slots.eta, outs');
      AddAll(c, jobs);
    }

    /** Channel c yields from its own queue after its children. */
    method OwnYield(c: nat, now: Time, ghost s0: seq<Chan>, ghost e0: Etas,
                    ghost s: seq<Chan>, ghost e: Etas, ghost outs: seq<seq<Job>>, ghost outs1: seq<seq<Job>>)
      returns (out: seq<Job>, ghost outs': seq<seq<Job>>)
      requires Valid() && c < |conf|
      requires CanPass(conf, s0, e0, now, s, e, outs, c) && |s| == |conf|
      requires Midway(conf, s0, e0, now, s, e, outs, st, bank.slots.eta, outs1, c, SubtreesOf(conf, children[c]))
      modifies this`st, this`running, this`pauseUntil, bank`contents, bank.Repr
      ensures Valid() && PassedFrom(now, s0, e0, s, e, outs, out, outs', c)
    {
      assert ListsAt(conf, c, children[c]);
      bank.QueuedAtHome(c);
      ghost var s1, e1 := st, bank.slots.eta;
      out := YieldJobs(c, now);
      HerePassed(conf, s0, e0, now, s, e, outs, s1, e1, outs1, c, children[c], bank.slots.eta, out);
      YieldedJobs(conf[c], bank.slots.eta, s1[c], now, out);
      outs' := outs1[c := out];
    }

    /** A full pass over all channels: the jobs that the root yields are handed out. */
    method Pass(now: Time) returns (out: seq<Job>, ghost outs: seq<seq<Job>>)
      requires Valid()
      modifies this`st, this`running, this`pauseUntil, bank`contents, bank.Repr
      ensures Valid()
      ensures SchedulerSpec.Pass(conf, Sched(old(st), old(bank.slots.eta)), now, Sched(st, bank.slots.eta), outs)
      ensures out == outs[0]
    {
      ghost var nothing := seq(|conf|, (c: int) => []);
      StartOfPass(conf, st, bank.slots.eta, now, nothing);
      out, outs := GetJobsToRun(0, now, st, bank.slots.eta, nothing);
      EndOfPass(conf, old(st), old(bank.slots.eta), now, nothing, st, bank.slots.eta, outs);
    }

    /** The earlier of the given time and the times at which the subtree of channel c has something to do. */
    method GetWakeupTime(c: nat, wakeupTime: Time) returns (w: Time)
      requires Valid() && c < |conf|
      modifies bank.Repr - {bank.slots}
      ensures Valid()
      ensures Soonest(Given(wakeupTime) + Asks(conf, st, bank.slots.eta, c), w)
      decreases |conf| - c, 1
    {
      w := wakeupTime;
      if CanRun(c) {
        if pauseUntil[c] != 0.0 {
          if wakeupTime == 0.0 || pauseUntil[c] < wakeupTime {
            w := pauseUntil[c];
          }
        } else {
          w := bank.GetWakeupTime(c, wakeupTime);
          w := ChildrenWakeupTime(c, wakeupTime, w);
        }
      }
    }

    /** Takes in what the children of channel c ask for. */
    method ChildrenWakeupTime(c: nat, ghost given: Time, wakeupTime: Time) returns (w: Time)
      requires Valid() && c < |conf| && CanRun(c) && pauseUntil[c] == 0.0
      requires Soonest(AsksUpTo(conf, st, bank.slots.eta, c, [], 0, given), wakeupTime)
      modifies bank.Repr - {bank.slots}
      ensures Valid()
      ensures Soonest(Given(given) + Asks(conf, st, bank.slots.eta, c), w)
      decreases |conf| - c, 0
    {
      ghost var e := bank.slots.eta;
      w := wakeupTime;
      assert ListsAt(conf, c, children[c]);
      for k := 0 to |children[c]|
        invariant bank.Valid()
        invariant Soonest(AsksUpTo(conf, st, e, c, children[c], k, given), w)
      {
        ghost var w0 := w;
        w := GetWakeupTime(children[c][k], w);
        MoreAsks(conf, st, e, c, children[c], k, given, w0, w);
      }
      AllAsks(conf, st, e, c, children[c], given);
    }

    method SetPause(c: nat, until: Time)
      requires Valid() && c < |conf|
      modifies this`st, this`pauseUntil
      ensures Valid() && st == old(st)[c := old(st)[c].(pauseUntil := until)]
    {
      pauseUntil := pauseUntil[c := until];
      st := st[c := st[c].(pauseUntil := until)];
    }

    /** Ends the pause of a throttled channel once it is over. */
    method CheckPause(c: nat, now: Time) returns (paused: bool)
      requires Valid() && c < |conf|
      modifies this`st, this`pauseUntil
      ensures Valid() && paused == Paused(conf[c], old(st)[c], now)
      ensures paused ==> st == old(st)
      ensures !paused ==> st == old(st)[c := Unpaused(conf[c], old(st)[c])]
    {
      paused := false;
      if conf[c].throttle != 0.0 && pauseUntil[c] != 0.0 {
        if now < pauseUntil[c] {
          paused := true;
        } else {
          SetPause(c, 0.0);
        }
      }
    }
  }

  lemma {:induction false} StartOfPass(t: seq<Config>, s: seq<Chan>, e: Etas, now: Time, outs: seq<seq<Job>>)
    requires IsTree(t) && |t| == |s| == |outs| && forall c | 0 <= c < |outs| :: outs[c] == []
    ensures CanPass(t, s, e, now, s, e, outs, 0)
  {}

  lemma {:induction false} EndOfPass(t: seq<Config>, s: seq<Chan>, e: Etas, now: Time, nothing: seq<seq<Job>>,
                                     s': seq<Chan>, e': Etas, outs: seq<seq<Job>>)
    requires IsTree(t) && |s| == |t| && HasPassed(t, s, e, now, s, e, nothing, s', e', outs, Subtree(t, 0))
    ensures SchedulerSpec.Pass(t, Sched(s, e), now, Sched(s', e'), outs)
  {
    forall c | 0 <= c < |t| ensures c in Subtree(t, 0) {
      AllBelowRoot(t, c);
    }
    EtasAtEnd(t, s, e, e', now);
  }

  lemma {:induction false} EtasAtEnd(t: seq<Config>, s: seq<Chan>, e: Etas, e': Etas, now: Time)
    requires |s| == |t| && IsTree(t) && EtasMoved(e, e', EtasAfter(t, s, e, now), Subtree(t, 0))
    requires forall c | 0 <= c < |t| :: c in Subtree(t, 0)
    ensures e' == EtasAfter(t, s, e, now)
  {}

  lemma {:induction false} ZeroIsNotAsked(t: seq<Config>, s: seq<Chan>, e: Etas, c: nat)
    requires |t| == |s| && c < |t|
    ensures 0.0 !in Asks(t, s, e, c)
    decreases |t| - c
  {
    forall d | c < d < |t| ensures 0.0 !in Asks(t, s, e, d) {
      ZeroIsNotAsked(t, s, e, d);
    }
  }

  lemma SoonestOfBoth(a: set<Time>, b: set<Time>, x: Time, y: Time)
    requires 0.0 !in a + b && Soonest(a, x) && Soonest(Given(x) + b, y)
    ensures Soonest(a + b, y)
  {
    if a == {} {
      assert a + b == Given(x) + b;
    } else {
      assert x in Given(x) + b;
    }
  }

  /** The given time, and what channel c and its first n children ask for. */
  ghost function AsksUpTo(t: seq<Config>, s: seq<Chan>, e: Etas, c: nat, list: seq<nat>, n: nat, given: Time): set<Time>
    requires |t| == |s| && c < |t| && n <= |list| && forall k | 0 <= k < |list| :: list[k] < |t|
  {
    if n == 0 then Given(given) + WaitTimes(e, s[c].queue)
    else AsksUpTo(t, s, e, c, list, n - 1, given) + Asks(t, s, e, list[n - 1])
  }

  lemma {:induction false} InAsksUpTo(
    t: seq<Config>, s: seq<Chan>, e: Etas, c: nat, list: seq<nat>, n: nat, given: Time, x: Time)
    requires |t| == |s| && c < |t| && n <= |list| && forall k | 0 <= k < |list| :: list[k] < |t|
    ensures x in AsksUpTo(t, s, e, c, list, n, given) <==>
            || x in Given(given) + WaitTimes(e, s[c].queue)
            || exists k | 0 <= k < n :: x in Asks(t, s, e, list[k])
  {
    if n > 0 {
      InAsksUpTo(t, s, e, c, list, n - 1, given, x);
    }
  }

  /** `st` is put together from the other arguments. */
  ghost predicate Links(
    st: seq<Chan>, queues: seq<set<Job>>, running: seq<set<Job>>, failed: seq<set<Job>>, pauseUntil: seq<Time>)
  {
    && |st| == |running| == |failed| == |pauseUntil| == |queues|
    && forall c | 0 <= c < |st| :: st[c] == Chan(queues[c], running[c], failed[c], pauseUntil[c])
  }

  lemma RootIsTree(cfg: Config)
    requires cfg.parent == -1
    ensures IsTree([cfg]) && Listed([cfg], [[]])
  {}

  lemma {:induction false} TreeOneMore(conf: seq<Config>, children: seq<seq<nat>>, cfg: Config)
    requires IsTree(conf) && Listed(conf, children) && 0 <= cfg.parent < |conf|
    ensures IsTree(conf + [cfg])
    ensures Listed(conf + [cfg], children[cfg.parent := children[cfg.parent] + [|conf|]] + [[]])
  {
    var conf', children' := conf + [cfg], children[cfg.parent := children[cfg.parent] + [|conf|]] + [[]];
    forall c | 0 <= c < |conf'| ensures ListsAt(conf', c, children'[c]) {
      if c < |conf| {
        assert ListsAt(conf, c, children[c]);
        ListOneMore(conf, cfg, c, children[c]);
      }
    }
  }

  lemma {:induction false} ListOneMore(conf: seq<Config>, cfg: Config, c: nat, list: seq<nat>)
    requires c < |conf| && ListsAt(conf, c, list)
    ensures ListsAt(conf + [cfg], c, if cfg.parent == c then list + [|conf|] else list)
  {
    var list' := if cfg.parent == c then list + [|conf|] else list;
    forall d | 0 <= d < |conf + [cfg]| && (conf + [cfg])[d].parent == c ensures d in list' {
      if d < |conf| {
        assert conf[d].parent == c;
        var k :| 0 <= k < |list| && list[k] == d;
        assert list'[k] == d;
      } else {
        assert list'[|list|] == d;
      }
    }
  }

  /** The time found so far takes in what one more child asks for. */
  lemma {:induction false} MoreAsks(t: seq<Config>, s: seq<Chan>, e: Etas, c: nat, list: seq<nat>, n: nat,
                                    given: Time, w: Time, w': Time)
    requires |t| == |s| && c < |t| && n < |list| && forall k | 0 <= k < |list| :: list[k] < |t|
    requires Soonest(AsksUpTo(t, s, e, c, list, n, given), w)
    requires Soonest(Given(w) + Asks(t, s, e, list[n]), w')
    ensures Soonest(AsksUpTo(t, s, e, c, list, n + 1, given), w')
  {
    InAsksUpTo(t, s, e, c, list, n, given, 0.0);
    forall d | 0 <= d < |t| ensures 0.0 !in Asks(t, s, e, d) {
      ZeroIsNotAsked(t, s, e, d);
    }
    SoonestOfBoth(AsksUpTo(t, s, e, c, list, n, given), Asks(t, s, e, list[n]), w, w');
  }

  /** All the children of a channel are listed. */
  lemma {:induction false} AllAsks(t: seq<Config>, s: seq<Chan>, e: Etas, c: nat, list: seq<nat>, given: Time)
    requires |t| == |s| && c < |t| && ListsAt(t, c, list)
    requires HasCapacity(t[c], s[c]) && s[c].pauseUntil == 0.0
    ensures AsksUpTo(t, s, e, c, list, |list|, given) == Given(given) + Asks(t, s, e, c)
  {
    forall x ensures x in AsksUpTo(t, s, e, c, list, |list|, given) <==> x in Given(given) + Asks(t, s, e, c) {
      InAsksUpTo(t, s, e, c, list, |list|, given, x);
      if d :| c < d < |t| && t[d].parent == c && x in Asks(t, s, e, d) {
        assert d in list;
      }
    }
  }

  function Unpaused(cfg: Config, ch: Chan): Chan {
    if cfg.throttle != 0.0 then ch.(pauseUntil := 0.0) else ch
  }

  ghost function EtasIfRun(cfg: Config, ch: Chan, e: Etas, now: Time): Etas {
    if HasCapacity(cfg, ch) then Promoted(e, ch.queue, now) else e
  }

  ghost function EtasIfPolled(cfg: Config, ch: Chan, e: Etas, now: Time): Etas {
    if Polls(cfg, ch, now) then Promoted(e, ch.queue, now) else e
  }

  /** A pass of an unpaused channel, seen from the state before its pause ended. */
  lemma {:induction false} Unpausing(cfg: Config, ch: Chan, e: Etas, now: Time, out: seq<Job>)
    requires !Paused(cfg, ch, now) && Drains(cfg, Promoted(e, ch.queue, now), Unpaused(cfg, ch), out)
    ensures Yields(cfg, EtasIfPolled(cfg, ch, e, now), ch, now, out)
    ensures EtasIfRun(cfg, Unpaused(cfg, ch), e, now) == EtasIfPolled(cfg, ch, e, now)
    ensures Drained(cfg, ch, now, out) ==
            if out != [] && cfg.throttle != 0.0 then After(Unpaused(cfg, ch), out).(pauseUntil := now + cfg.throttle)
            else After(Unpaused(cfg, ch), out)
  {
    PauseDoesNotMatter(cfg, ch, Promoted(e, ch.queue, now), out);
    if !HasCapacity(cfg, ch) {
      NothingWithoutCapacity(cfg, ch, Promoted(e, ch.queue, now), e, out);
    }
  }

  lemma {:induction false} PauseDoesNotMatter(cfg: Config, ch: Chan, f: Etas, out: seq<Job>)
    requires Drains(cfg, f, Unpaused(cfg, ch), out)
    ensures Drains(cfg, f, ch, out)
  {
    forall i | 0 <= i < |out| ensures Takes(cfg, f, ch, out, i) {
      assert Takes(cfg, f, Unpaused(cfg, ch), out, i);
    }
  }

  lemma {:induction false} NothingWithoutCapacity(cfg: Config, ch: Chan, f: Etas, e: Etas, out: seq<Job>)
    requires Drains(cfg, f, ch, out) && !HasCapacity(cfg, ch)
    ensures Drains(cfg, e, ch, out)
  {
    assert After(ch, []) == ch;
    assert out != [] ==> Takes(cfg, f, ch, out, 0) && After(ch, out[..0]) == ch;
  }

  /** What holds while a channel yields jobs. */
  ghost predicate Draining(cfg: Config, e: Etas, ch: Chan, out: seq<Job>) {
    && (forall i | 0 <= i < |out| :: Takes(cfg, e, ch, out, i))
    && Set(out) <= ch.queue && (out != [] ==> HasCapacity(cfg, ch))
    && (forall j | j in out :: EtaOf(e, j) == 0.0)
  }

  ghost predicate MayTakeMore(cfg: Config, ch: Chan, out: seq<Job>) {
    HasCapacity(cfg, After(ch, out)) && (cfg.throttle != 0.0 ==> out == [])
  }

  lemma DrainingStarts(cfg: Config, e: Etas, ch: Chan)
    ensures After(ch, []) == ch && Draining(cfg, e, ch, [])
  {
    assert Set([]) == {};
  }

  lemma {:induction false} Appended(cfg: Config, e: Etas, ch: Chan, out: seq<Job>, j: Job)
    requires Draining(cfg, e, ch, out) && MayTakeMore(cfg, ch, out)
    requires Pops(cfg.sequential, e, After(ch, out).queue, Some(j))
    ensures Draining(cfg, e, ch, out + [j])
    ensures After(ch, out + [j]) == Moved(After(ch, out), j) && Set(out + [j]) == Set(out) + {j} && j !in Set(out)
  {
    AllTaken(cfg, e, ch, out, j);
    SetAppended(out, j);
    AfterAppended(ch, out, j);
    if out == [] {
      DrainingStarts(cfg, e, ch);
    }
  }

  /** What one round of the loop that yields jobs comes to. */
  lemma {:induction false} Stepped(cfg: Config, e: Etas, ch: Chan, out: seq<Job>, job: Option<Job>)
    requires Draining(cfg, e, ch, out) && MayTakeMore(cfg, ch, out)
    requires Pops(cfg.sequential, e, After(ch, out).queue, job)
    ensures job.None? ==> Drains(cfg, e, ch, out)
    ensures job.Some? ==>
              var more := out + [job.value];
              && Draining(cfg, e, ch, more) && After(ch, more) == Moved(After(ch, out), job.value)
              && Set(out) < Set(more)
              && (cfg.throttle != 0.0 || !HasCapacity(cfg, After(ch, more)) ==> Drains(cfg, e, ch, more))
  {
    if job.Some? {
      Appended(cfg, e, ch, out, job.value);
      assert job.value in Set(out + [job.value]);
    }
  }

  lemma {:induction false} SetAppended(out: seq<Job>, j: Job)
    ensures Set(out + [j]) == Set(out) + {j}
  {}

  lemma {:induction false} AfterAppended(ch: Chan, out: seq<Job>, j: Job)
    ensures After(ch, out + [j]) == Moved(After(ch, out), j)
  {
    SetAppended(out, j);
  }

  lemma {:induction false} AllTaken(cfg: Config, e: Etas, ch: Chan, out: seq<Job>, j: Job)
    requires (forall i | 0 <= i < |out| :: Takes(cfg, e, ch, out, i)) && MayTakeMore(cfg, ch, out)
    requires Pops(cfg.sequential, e, After(ch, out).queue, Some(j))
    ensures forall i | 0 <= i <= |out| :: Takes(cfg, e, ch, out + [j], i)
  {
    forall i | 0 <= i <= |out| ensures Takes(cfg, e, ch, out + [j], i) {
      assert (out + [j])[..i] == out[..i];
      if i < |out| {
        assert Takes(cfg, e, ch, out, i);
      } else {
        assert out[..i] == out;
      }
    }
  }

  function Moved(ch: Chan, j: Job): Chan {
    ch.(queue := ch.queue - {j}, running := ch.running + {j})
  }

  lemma PromotedAgain(e: Etas, q: set<Job>, r: set<Job>, now: Time)
    requires r <= q
    ensures Promoted(Promoted(e, q, now), r, now) == Promoted(e, q, now)
  {}
}
