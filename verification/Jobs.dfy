/** Channel jobs and the orders in which the queues compare them. */
module Jobs {

  /** Seconds since the epoch; 0.0 stands for "none", as every truth test of the runner reads it. */
  type Time = real

  /** The part of the sorting key that never changes once a job object exists. */
  datatype Key = Key(priority: int, dateCreated: int, seqNo: int)

  predicate KeyLess(a: Key, b: Key) {
    || a.priority < b.priority
    || (a.priority == b.priority && a.dateCreated < b.dateCreated)
    || (a.priority == b.priority && a.dateCreated == b.dateCreated && a.seqNo < b.seqNo)
  }

  /**
   * A job object of the runner. Two job objects are equal only when they are the same object, so
   * `id` is part of the value and every new object gets an id of its own. `channel` is the position
   * of the job's home channel in the table of channels. The one attribute of a job object that
   * changes, its ETA, is kept in a JobSlots object.
   */
  datatype Job = Job(id: nat, dbName: string, uuid: string, channel: nat, key: Key)

  /** The ETAs of some jobs at one moment. */
  type Etas = map<Job, Time>

  function EtaOf(e: Etas, j: Job): Time {
    if j in e then e[j] else 0.0
  }

  predicate EtaLess(e: Etas, a: Job, b: Job) {
    EtaOf(e, a) < EtaOf(e, b) || (EtaOf(e, a) == EtaOf(e, b) && KeyLess(a.key, b.key))
  }

  /**
   * Compares the sorting keys of two jobs. A job with an ETA and a job without one cannot be
   * compared: the original raises TypeError, which is the precondition here.
   */
  predicate Less(e: Etas, a: Job, b: Job)
    requires (EtaOf(e, a) == 0.0) == (EtaOf(e, b) == 0.0)
  {
    EtaLess(e, a, b)
  }

  /**
   * A smaller priority goes first; among equal priorities the earlier date, whatever the sequence; and
   * among those of one date the smaller sequence. Only jobs that agree in all three are not ordered.
   */
  lemma KeysCompare(a: Key, b: Key)
    ensures a.priority < b.priority ==> KeyLess(a, b) && !KeyLess(b, a)
    ensures a.priority == b.priority && a.dateCreated < b.dateCreated ==> KeyLess(a, b) && !KeyLess(b, a)
    ensures a.priority == b.priority && a.dateCreated == b.dateCreated ==> (KeyLess(a, b) <==> a.seqNo < b.seqNo)
    ensures !KeyLess(a, b) && !KeyLess(b, a) <==> a == b
  {}

  /** The ETA decides first. */
  lemma EtasCompare(e: Etas, a: Job, b: Job)
    ensures EtaOf(e, a) < EtaOf(e, b) ==> EtaLess(e, a, b) && !EtaLess(e, b, a)
    ensures EtaOf(e, a) == EtaOf(e, b) ==> (EtaLess(e, a, b) <==> KeyLess(a.key, b.key))
  {}

  /** The changing attribute of all the job objects. */
  class JobSlots {
    var eta: Etas

    constructor ()
      ensures eta == map[]
    {
      eta := map[];
    }

    method SetNoEta(j: Job)
      modifies this
      ensures eta == old(eta)[j := 0.0]
    {
      eta := eta[j := 0.0];
    }
  }
}
