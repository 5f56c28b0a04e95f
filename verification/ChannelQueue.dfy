/** A queue of jobs in which jobs with an ETA are set aside until their ETA is past. */
module ChannelQueues {
  import opened Jobs
  import opened Wrappers
  import opened PriorityQueues
  import opened SchedulerSpec

  class ChannelQueue {
    ghost const tag: nat
    const queue: PriorityQueue
    const etaQueue: PriorityQueue
    var sequential: bool

    ghost function Known(): set<Job>
      reads queue, etaQueue
    {
      queue.known + etaQueue.known
    }

    ghost predicate Valid(e: Etas)
      reads queue, etaQueue
    {
      && queue.tag == 2 * tag && etaQueue.tag == 2 * tag + 1
      && queue.kind == Untimed && etaQueue.kind == Timed(tag)
      && queue.Valid(e) && etaQueue.Valid(e)
    }

    ghost function Contents(): set<Job>
      reads queue, etaQueue
    {
      etaQueue.Live() + queue.Live()
    }

    constructor (ghost tag: nat, sequential: bool)
      ensures (forall e :: Valid(e)) && Known() == {} == Contents() && this.sequential == sequential && this.tag == tag
      ensures fresh(queue) && fresh(etaQueue)
    {
      this.tag := tag;
      queue := new PriorityQueue(2 * tag, Untimed);
      etaQueue := new PriorityQueue(2 * tag + 1, Timed(tag));
      this.sequential := sequential;
    }

    method Len(ghost e: Etas) returns (n: int)
      requires Valid(e)
      ensures n == |Contents()|
    {
      var a := etaQueue.Len(e);
      var b := queue.Len(e);
      n := a + b;
      Separate(e);
    }

    lemma Separate(e: Etas)
      requires Valid(e)
      ensures OfKind(e, queue.known, Untimed) && OfKind(e, etaQueue.known, Timed(tag))
      ensures queue.known !! etaQueue.known
      ensures Ready(e, Contents()) == queue.Live() && Waiting(e, Contents()) == etaQueue.Live()
    {
      queue.KindHolds(e);
      etaQueue.KindHolds(e);
    }

    /** Only the ETAs of the jobs in the two heaps matter. */
    lemma ValidStays(e: Etas, f: Etas)
      requires Valid(e) && forall j | j in Known() :: EtaOf(e, j) == EtaOf(f, j)
      ensures Valid(f)
    {
      queue.ValidStays(e, f);
      etaQueue.ValidStays(e, f);
    }

    /** A promotion in another channel does not concern this queue. */
    lemma PromotedElsewhere(e: Etas, other: ChannelQueue, now: Time)
      requires Valid(e) && other.Valid(e) && other.tag != tag
      ensures Valid(Promoted(e, other.Contents(), now))
    {
      Separate(e);
      other.Separate(e);
      ValidStays(e, Promoted(e, other.Contents(), now));
    }

    predicate Contains(o: Job): (b: bool)
      reads queue, etaQueue
      ensures b == (o in Contents())
    {
      etaQueue.Contains(o) || queue.Contains(o)
    }

    method Add(e: Etas, job: Job)
      requires Valid(e) && (EtaOf(e, job) == 0.0 || job.channel == tag)
      modifies queue, etaQueue
      ensures Valid(e) && Contents() == old(Contents()) + {job}
      ensures Known() == old(Known()) + {job}
    {
      if EtaOf(e, job) != 0.0 {
        etaQueue.Add(e, job);
      } else {
        queue.Add(e, job);
      }
    }

    method Remove(job: Job)
      modifies queue`removed, etaQueue`removed
      requires queue != etaQueue
      ensures forall e :: old(Valid(e)) ==> Valid(e)
      ensures Contents() == old(Contents()) - {job}
    {
      etaQueue.Remove(job);
      queue.Remove(job);
    }

    /** Takes the first job off the ETA queue and lets it compete with the jobs without an ETA. */
    method MoveFirst(slots: JobSlots) returns (moved: Job)
      requires Valid(slots.eta) && etaQueue.Live() != {}
      modifies queue, etaQueue, slots
      ensures Valid(slots.eta) && Known() <= old(Known()) && slots.eta == old(slots.eta)[moved := 0.0]
      ensures EtaLeast(old(slots.eta), old(etaQueue.Live()), moved) && EtaOf(old(slots.eta), moved) != 0.0
      ensures etaQueue.Live() == old(etaQueue.Live()) - {moved} && queue.Live() == old(queue.Live()) + {moved}
    {
      Separate(slots.eta);
      var r := etaQueue.Pop(slots.eta);
      moved := r.value;
      queue.ValidStays(slots.eta, slots.eta[moved := 0.0]);
      etaQueue.ValidStays(slots.eta, slots.eta[moved := 0.0]);
      slots.SetNoEta(moved);
      queue.Add(slots.eta, moved);
    }

    /** Whether the ETA of the first job of the ETA queue is past. */
    method FirstIsDue(e: Etas, now: Time) returns (due: bool)
      requires Valid(e)
      modifies etaQueue
      ensures Valid(e) && etaQueue.Live() == old(etaQueue.Live()) && etaQueue.known <= old(etaQueue.known)
      ensures due ==> etaQueue.Live() != {}
      ensures due ==> forall m | EtaLeast(e, etaQueue.Live(), m) :: EtaOf(e, m) <= now
      ensures !due ==> forall j | j in etaQueue.Live() :: EtaOf(e, j) > now
    {
      var n := etaQueue.Len(e);
      if n == 0 {
        return false;
      }
      var top := etaQueue.Peek(e);
      due := EtaOf(e, top.value) <= now;
    }

    /** Lets every job whose ETA is past compete with the jobs without one. */
    method Promote(slots: JobSlots, now: Time)
      requires Valid(slots.eta)
      modifies queue, etaQueue, slots
      ensures Valid(slots.eta) && Contents() == old(Contents()) && Known() <= old(Known())
      ensures slots.eta == Promoted(old(slots.eta), old(Contents()), now)
    {
      var due := FirstIsDue(slots.eta, now);
      while due
        invariant Valid(slots.eta) && Contents() == old(Contents()) && Known() <= old(Known())
        invariant PartlyPromoted(old(slots.eta), slots.eta, old(Contents()), now)
        invariant due ==> etaQueue.Live() != {}
        invariant due ==> forall m | EtaLeast(slots.eta, etaQueue.Live(), m) :: EtaOf(slots.eta, m) <= now
        invariant !due ==> forall j | j in etaQueue.Live() :: EtaOf(slots.eta, j) > now
        decreases due, etaQueue.Live()
      {
        ghost var before := slots.eta;
        var moved := MoveFirst(slots);
        PromoteOne(old(slots.eta), before, old(Contents()), now, moved);
        due := FirstIsDue(slots.eta, now);
      }
      Separate(slots.eta);
      PromotedAll(old(slots.eta), slots.eta, old(Contents()), now);
    }

    /** Returns the first job without an ETA. */
    method PopReady(e: Etas) returns (r: Option<Job>)
      requires Valid(e)
      modifies queue
      ensures Valid(e) && Known() <= old(Known())
      ensures r.None? ==> Ready(e, old(Contents())) == {} && Contents() == old(Contents())
      ensures r.Some? ==> Least(Ready(e, old(Contents())), r.value) && Contents() == old(Contents()) - {r.value}
    {
      Separate(e);
      ghost var ready, waiting := queue.Live(), etaQueue.Live();
      r := queue.Pop(e);
      if r.Some? {
        LeastOf(e, ready, r.value);
        assert Contents() == waiting + (ready - {r.value});
      }
    }

    method Pop(slots: JobSlots, now: Time) returns (r: Option<Job>)
      requires Valid(slots.eta)
      modifies queue, etaQueue, slots
      ensures Valid(slots.eta) && Known() <= old(Known())
      ensures slots.eta == Promoted(old(slots.eta), old(Contents()), now)
      ensures Pops(sequential, slots.eta, old(Contents()), r)
      ensures Contents() == if r.Some? then old(Contents()) - {r.value} else old(Contents())
    {
      Promote(slots, now);
      if sequential {
        var wait := MustWait(slots.eta);
        if wait {
          return None;
        }
      }
      r := PopReady(slots.eta);
    }

    method GetWakeupTime(e: Etas, wakeupTime: Time) returns (w: Time)
      requires Valid(e)
      modifies etaQueue
      ensures Valid(e) && etaQueue.Live() == old(etaQueue.Live()) && Known() <= old(Known())
      ensures Soonest(Given(wakeupTime) + WaitTimes(e, Contents()), w)
    {
      Separate(e);
      var n := etaQueue.Len(e);
      if n == 0 {
        w := wakeupTime;
      } else {
        var first := etaQueue.Peek(e);
        w := EtaOf(e, first.value);
        if wakeupTime != 0.0 && wakeupTime < w {
          w := wakeupTime;
        }
      }
      Separate(e);
      SoonestOf(e, Contents(), wakeupTime, w);
    }

    /** Whether the first job with an ETA would go before the first job without one. */
    method MustWait(e: Etas) returns (b: bool)
      requires Valid(e)
      modifies queue, etaQueue
      ensures Valid(e) && Known() <= old(Known())
      ensures queue.Live() == old(queue.Live()) && etaQueue.Live() == old(etaQueue.Live())
      ensures b <==> HeldBack(e, Contents())
    {
      var n := etaQueue.Len(e);
      var m := queue.Len(e);
      Separate(e);
      if n == 0 || m == 0 {
        return false;
      }
      var etaJob := etaQueue.Peek(e);
      var job := queue.Peek(e);
      Separate(e);
      HeldBackBy(e, Contents(), etaJob.value, job.value);
      b := KeyLess(etaJob.value.key, job.value.key);
    }
  }

  /** The jobs that may be taken from a queue at some time: those without an ETA, or with a past one. */
  ghost function Due(e: Etas, q: set<Job>, now: Time): set<Job> {
    set j | j in q && (EtaOf(e, j) == 0.0 || EtaOf(e, j) <= now)
  }

  /**
   * In terms of the ETAs before: what a queue that is not sequential returns is a least job, ignoring
   * ETAs, among those that are due, and nothing if there is none. ETAs that are left are in the future.
   */
  lemma PopsDue(e: Etas, q: set<Job>, now: Time, r: Option<Job>)
    requires q <= e.Keys && Pops(false, Promoted(e, q, now), q, r)
    ensures r.None? <==> Due(e, q, now) == {}
    ensures r.Some? ==> Least(Due(e, q, now), r.value)
    ensures forall j | j in Waiting(Promoted(e, q, now), q) :: EtaOf(e, j) > now
  {
    assert Ready(Promoted(e, q, now), q) == Due(e, q, now);
  }

  /** Some job that is not due yet, with the earliest ETA of those, would go before every job that is due. */
  ghost predicate Overtaken(e: Etas, q: set<Job>, now: Time) {
    exists w, r | w in q && r in q ::
      EtaLeast(e, q - Due(e, q, now), w) && Least(Due(e, q, now), r) && KeyLess(w.key, r.key)
  }

  /** A sequential queue returns nothing while it is overtaken, and what any other queue would otherwise. */
  lemma PopsInSequence(e: Etas, q: set<Job>, now: Time, r: Option<Job>)
    requires q <= e.Keys
    ensures Pops(true, Promoted(e, q, now), q, r) <==>
            if Overtaken(e, q, now) then r.None? else Pops(false, Promoted(e, q, now), q, r)
    ensures Overtaken(e, q, now) ==> Due(e, q, now) != {}
  {
    var f := Promoted(e, q, now);
    assert Ready(f, q) == Due(e, q, now);
    assert Waiting(f, q) == q - Due(e, q, now);
    assert forall w :: EtaLeast(f, Waiting(f, q), w) <==> EtaLeast(e, q - Due(e, q, now), w);
    assert HeldBack(f, q) <==> Overtaken(e, q, now);
  }

  /** The earlier of the given time and the ETA of the first waiting job. */
  lemma SoonestOf(e: Etas, q: set<Job>, given: Time, w: Time)
    requires if Waiting(e, q) == {} then w == given else
               exists first :: EtaLeast(e, Waiting(e, q), first) &&
                 w == if given != 0.0 && given < EtaOf(e, first) then given else EtaOf(e, first)
    ensures Soonest(Given(given) + WaitTimes(e, q), w)
  {
    if Waiting(e, q) == {} {
      assert WaitTimes(e, q) == {};
      assert Given(given) + WaitTimes(e, q) == Given(given);
    } else {
      var first :| EtaLeast(e, Waiting(e, q), first) &&
        w == if given != 0.0 && given < EtaOf(e, first) then given else EtaOf(e, first);
      assert EtaOf(e, first) in WaitTimes(e, q);
    }
  }

  lemma LeastOf(e: Etas, s: set<Job>, j: Job)
    requires OfKind(e, s, Untimed) && j in s && forall x | x in s :: !EtaLess(e, x, j)
    ensures Least(s, j)
  {}

  lemma HeldBackBy(e: Etas, q: set<Job>, w: Job, r: Job)
    requires EtaLeast(e, Waiting(e, q), w) && Least(Ready(e, q), r)
    ensures HeldBack(e, q) <==> KeyLess(w.key, r.key)
  {}

  lemma PromotedAll(before: Etas, e: Etas, q: set<Job>, now: Time)
    requires PartlyPromoted(before, e, q, now)
    requires forall j | j in Waiting(e, q) :: EtaOf(e, j) > now
    ensures e == Promoted(before, q, now)
  {
    forall j | j in before ensures e[j] == Promoted(before, q, now)[j] {
      assert j in q ==> j in Waiting(e, q) || e[j] == 0.0;
    }
  }

  ghost predicate PartlyPromoted(before: Etas, e: Etas, q: set<Job>, now: Time) {
    && e.Keys == before.Keys
    && forall j | j in before :: e[j] == before[j] || (j in q && before[j] <= now && e[j] == 0.0)
  }

  lemma PromoteOne(before: Etas, e: Etas, q: set<Job>, now: Time, moved: Job)
    requires PartlyPromoted(before, e, q, now)
    requires moved in q && EtaOf(e, moved) != 0.0 && EtaOf(e, moved) <= now
    ensures PartlyPromoted(before, e[moved := 0.0], q, now)
  {}
}
