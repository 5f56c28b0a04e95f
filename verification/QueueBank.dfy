/** The queues of all channels, by position of the channel. */
module QueueBanks {
  import opened Jobs
  import opened Wrappers
  import opened ChannelQueues
  import opened SchedulerSpec

  class QueueBank {
    const slots: JobSlots
    var queues: seq<ChannelQueue>
    ghost var contents: seq<set<Job>>
    ghost var sequential: seq<bool>
    ghost var Repr: set<object>

    ghost predicate Valid()
      reads this, slots, Repr
    {
      && slots in Repr && this !in Repr
      && |contents| == |sequential| == |queues|
      && QueuesOk(|queues|)
    }

    ghost predicate QueuesOk(n: nat)
      requires n <= |queues| == |contents| == |sequential|
      reads this, slots, Repr
    {
      n > 0 ==> QueuesOk(n - 1) && QueueOk(n - 1)
    }

    ghost predicate QueueOk(i: nat)
      requires i < |queues| == |contents| == |sequential|
      reads this, slots, Repr
    {
      && {queues[i], queues[i].queue, queues[i].etaQueue} <= Repr
      && queues[i].tag == i && queues[i].Valid(slots.eta)
      && queues[i].Contents() == contents[i] && queues[i].sequential == sequential[i]
      && queues[i].Known() <= slots.eta.Keys
    }

    lemma {:induction false} QueuesOkMeans(n: nat)
      requires n <= |queues| == |contents| == |sequential|
      ensures QueuesOk(n) <==> forall i | 0 <= i < n :: QueueOk(i)
    {
      if n > 0 {
        QueuesOkMeans(n - 1);
      }
    }

    constructor (slots: JobSlots)
      ensures Valid() && queues == [] && contents == [] && this.slots == slots && Repr == {slots}
    {
      this.slots := slots;
      queues, contents, sequential, Repr := [], [], [], {slots};
    }

    lemma Apart(c: nat)
      requires Valid() && c < |queues|
      ensures QueueOk(c)
      ensures forall i | 0 <= i < |queues| && i != c ::
                && QueueOk(i) && queues[i] != queues[c]
                && queues[i].queue != queues[c].queue && queues[i].queue != queues[c].etaQueue
                && queues[i].etaQueue != queues[c].queue && queues[i].etaQueue != queues[c].etaQueue
    {
      QueuesOkMeans(|queues|);
      assert QueueOk(c);
      forall i | 0 <= i < |queues| && i != c
        ensures QueueOk(i) && queues[i] != queues[c]
        ensures queues[i].queue != queues[c].queue && queues[i].queue != queues[c].etaQueue
        ensures queues[i].etaQueue != queues[c].queue && queues[i].etaQueue != queues[c].etaQueue
      {
        assert QueueOk(i);
      }
    }

    /** A queue for one more channel. */
    method AddQueue(q: ChannelQueue)
      requires Valid() && q.tag == |queues| && q.Valid(slots.eta) && q.Contents() == {} == q.Known()
      requires this !in {q as object, q.queue, q.etaQueue}
      modifies this
      ensures Valid() && queues == old(queues) + [q] && Repr == old(Repr) + {q, q.queue, q.etaQueue}
      ensures contents == old(contents) + [{}] && sequential == old(sequential) + [q.sequential]
    {
      QueuesOkMeans(|queues|);
      ghost var n := |queues|;
      queues, contents, sequential := queues + [q], contents + [{}], sequential + [q.sequential];
      Repr := Repr + {q, q.queue, q.etaQueue};
      forall i | 0 <= i < n ensures QueueOk(i) {
        assert old(QueueOk(i)) && queues[i] == old(queues)[i];
      }
      assert QueueOk(n);
      QueuesOkMeans(|queues|);
    }

    /** An empty queue for a new channel. */
    method NewQueue(sequential: bool)
      requires Valid()
      modifies this
      ensures Valid() && fresh(Repr - old(Repr)) && |queues| == |old(queues)| + 1
      ensures contents == old(contents) + [{}] && this.sequential == old(this.sequential) + [sequential]
    {
      var q := new ChannelQueue(|queues|, sequential);
      AddQueue(q);
    }

    /** A new job object is in no queue. */
    method EnterJob(job: Job, eta: Time)
      requires Valid() && job !in slots.eta
      modifies slots
      ensures Valid() && slots.eta == old(slots.eta)[job := eta]
    {
      NewJobIsNowhere(job, eta);
      slots.eta := slots.eta[job := eta];
      QueuesOkMeans(|queues|);
    }

    lemma NewJobIsNowhere(job: Job, eta: Time)
      requires Valid() && job !in slots.eta
      ensures forall i | 0 <= i < |queues| :: QueueOk(i) && queues[i].Valid(slots.eta[job := eta])
    {
      QueuesOkMeans(|queues|);
      forall i | 0 <= i < |queues| ensures QueueOk(i) && queues[i].Valid(slots.eta[job := eta]) {
        assert QueueOk(i);
        queues[i].ValidStays(slots.eta, slots.eta[job := eta]);
      }
    }

    /** Queued jobs are known, and those with an ETA are at home. */
    lemma QueuedAtHome(c: nat)
      requires Valid() && c < |queues|
      ensures WaitAtHome(slots.eta, contents[c], c)
    {
      Apart(c);
      queues[c].Separate(slots.eta);
    }

    predicate Contains(c: nat, job: Job): (b: bool)
      requires Valid() && c < |queues|
      reads this, slots, Repr
      ensures b == (job in contents[c])
    {
      Apart(c);
      queues[c].Contains(job)
    }

    method Remove(c: nat, job: Job)
      requires Valid() && c < |queues|
      modifies this`contents, Repr - {slots}
      ensures Valid() && contents == old(contents)[c := old(contents)[c] - {job}]
    {
      Apart(c);
      queues[c].Remove(job);
      Settle(c);
    }

    method Add(c: nat, job: Job)
      requires Valid() && c < |queues| && job in slots.eta && (slots.eta[job] == 0.0 || job.channel == c)
      modifies this`contents, Repr - {slots}
      ensures Valid() && contents == old(contents)[c := old(contents)[c] + {job}]
    {
      Apart(c);
      queues[c].Add(slots.eta, job);
      Settle(c);
    }

    method GetWakeupTime(c: nat, wakeupTime: Time) returns (w: Time)
      requires Valid() && c < |queues|
      modifies Repr - {slots}
      ensures Valid() && Soonest(Given(wakeupTime) + WaitTimes(slots.eta, contents[c]), w)
    {
      Apart(c);
      w := queues[c].GetWakeupTime(slots.eta, wakeupTime);
      QueuesOkMeans(|queues|);
    }

    method Pop(c: nat, now: Time) returns (r: Option<Job>)
      requires Valid() && c < |queues|
      modifies this`contents, Repr
      ensures Valid() && slots.eta == Promoted(old(slots.eta), old(contents)[c], now)
      ensures Pops(sequential[c], slots.eta, old(contents)[c], r)
      ensures contents == if r.Some? then old(contents)[c := old(contents)[c] - {r.value}] else old(contents)
    {
      r := TakeFrom(c, now);
      Settle(c);
    }

    /** Brings the ghost contents up to date after one queue has changed. */
    ghost method Settle(c: nat)
      requires slots in Repr && this !in Repr && |contents| == |sequential| == |queues| && c < |queues|
      requires forall i | 0 <= i < |queues| && i != c :: QueueOk(i)
      requires {queues[c], queues[c].queue, queues[c].etaQueue} <= Repr && queues[c].tag == c
      requires queues[c].Valid(slots.eta) && queues[c].Known() <= slots.eta.Keys
      requires queues[c].sequential == sequential[c]
      modifies this`contents
      ensures Valid() && contents == old(contents)[c := queues[c].Contents()]
    {
      contents := contents[c := queues[c].Contents()];
      forall i | 0 <= i < |queues| ensures QueueOk(i) {
        assert i != c ==> old(QueueOk(i));
      }
      QueuesOkMeans(|queues|);
    }

    /** Takes a job from one queue; the other queues are not concerned. */
    method TakeFrom(c: nat, now: Time) returns (r: Option<Job>)
      requires Valid() && c < |queues|
      modifies Repr
      ensures slots.eta == Promoted(old(slots.eta), contents[c], now)
      ensures Pops(sequential[c], slots.eta, contents[c], r)
      ensures slots in Repr && this !in Repr && |contents| == |sequential| == |queues|
      ensures forall i | 0 <= i < |queues| && i != c :: QueueOk(i)
      ensures {queues[c], queues[c].queue, queues[c].etaQueue} <= Repr && queues[c].tag == c
      ensures queues[c].Valid(slots.eta) && queues[c].Known() <= slots.eta.Keys && queues[c].sequential == sequential[c]
      ensures queues[c].Contents() == if r.Some? then contents[c] - {r.value} else contents[c]
    {
      PopNow(c, now);
      ghost var e := Promoted(slots.eta, contents[c], now);
      Apart(c);
      r := queues[c].Pop(slots, now);
      assert slots.eta == e;
    }

    lemma PopNow(c: nat, now: Time)
      requires Valid() && c < |queues|
      ensures forall i | 0 <= i < |queues| && i != c :: queues[i].Valid(Promoted(slots.eta, contents[c], now))
    {
      Apart(c);
      forall i | 0 <= i < |queues| && i != c ensures queues[i].Valid(Promoted(slots.eta, contents[c], now)) {
        queues[i].PromotedElsewhere(slots.eta, queues[c], now);
      }
    }
  }

  /** A bank with the queue of the root. */
  method NewBank() returns (b: QueueBank)
    ensures fresh(b) && fresh(b.Repr) && b !in b.Repr && b.Valid()
    ensures b.contents == [{}] && b.sequential == [false] && b.slots.eta == map[]
  {
    var slots := new JobSlots();
    b := new QueueBank(slots);
    b.NewQueue(false);
  }
}
