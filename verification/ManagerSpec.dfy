/** What notifications do to the channels and to the table of known jobs, on values. */
module ManagerSpec {
  import opened Jobs
  import opened SchedulerSpec
  import opened Subtrees

  datatype JobState =
    | NoState | Done | Cancelled | Pending | Enqueued | Started | Failed | WaitDependencies | Other(name: string)

  /** What the runner reads about a job when it is notified; `channel` is already looked up. */
  datatype Msg = Msg(dbName: string, channel: nat, uuid: string, key: Key, eta: Time, state: JobState)

  /** The channels, the known jobs by uuid, and how many job objects have been made. */
  datatype Manager = Manager(sched: Sched, jobs: map<string, Job>, made: nat)

  /** Known jobs have a channel and an ETA slot, and new job objects are different from all older ones. */
  ghost predicate Registered(t: seq<Config>, m: Manager) {
    && (forall u | u in m.jobs :: m.jobs[u].uuid == u && m.jobs[u] in m.sched.eta && m.jobs[u].channel < |t|)
    && (forall j | j in m.sched.eta :: j.id < m.made)
  }

  ghost predicate ManagerAt(t: seq<Config>, m: Manager) {
    IsTree(t) && |m.sched.ch| == |t| && Registered(t, m)
  }

  /** The database and the creation date of a job never change; otherwise the notification is refused. */
  predicate Agrees(m: Manager, msg: Msg) {
    msg.uuid in m.jobs ==>
      m.jobs[msg.uuid].dbName == msg.dbName && m.jobs[msg.uuid].key.dateCreated == msg.key.dateCreated
  }

  /** Nothing that decides when the job runs has changed. */
  predicate Unchanged(m: Manager, msg: Msg) {
    && msg.uuid in m.jobs && m.jobs[msg.uuid].key.seqNo == msg.key.seqNo
    && m.jobs[msg.uuid].key.priority == msg.key.priority
    && EtaOf(m.sched.eta, m.jobs[msg.uuid]) == msg.eta && m.jobs[msg.uuid].channel == msg.channel
  }

  ghost function RemoveJob(t: seq<Config>, m: Manager, uuid: string): (r: Manager)
    requires ManagerAt(t, m)
    ensures ManagerAt(t, r)
  {
    if uuid !in m.jobs then m
    else
      Manager(Sched(Remove(t, m.sched.ch, m.jobs[uuid].channel, m.jobs[uuid]), m.sched.eta), m.jobs - {uuid}, m.made)
  }

  function NewJob(m: Manager, msg: Msg): Job {
    Job(m.made, msg.dbName, msg.uuid, msg.channel, msg.key)
  }

  function EnterJob(m: Manager, msg: Msg): Manager {
    var job := NewJob(m, msg);
    Manager(Sched(m.sched.ch, m.sched.eta[job := msg.eta]), m.jobs[msg.uuid := job], m.made + 1)
  }

  /** The state transition of a job that is known with its current properties. */
  ghost function Dispatch(t: seq<Config>, s: seq<Chan>, job: Job, state: JobState): (r: seq<Chan>)
    requires IsTree(t) && |s| == |t| && job.channel < |t|
    ensures |r| == |t|
  {
    match state
    case NoState | Done | Cancelled => Remove(t, s, job.channel, job)
    case Pending => SetPending(t, s, job.channel, job)
    case Enqueued | Started => SetRunning(t, s, job.channel, job)
    case Failed => SetFailed(t, s, job.channel, job)
    case WaitDependencies | Other(_) => s
  }

  /** The job object of a notification: the known one, or a new one in its place. */
  ghost function Renewed(t: seq<Config>, m: Manager, msg: Msg): (r: Manager)
    requires ManagerAt(t, m) && msg.channel < |t|
    ensures ManagerAt(t, r) && msg.uuid in r.jobs && r.jobs[msg.uuid].channel == msg.channel
  {
    if Unchanged(m, msg) then m else EnterJob(RemoveJob(t, m, msg.uuid), msg)
  }

  ghost function Notify(t: seq<Config>, m: Manager, msg: Msg): (r: Manager)
    requires ManagerAt(t, m) && msg.channel < |t|
    ensures ManagerAt(t, r)
  {
    if !Agrees(m, msg) then m
    else
      var n := Renewed(t, m, msg);
      n.(sched := Sched(Dispatch(t, n.sched.ch, n.jobs[msg.uuid], msg.state), n.sched.eta))
  }

  /** The known jobs under some uuids that pass through channel c. */
  ghost function Through(t: seq<Config>, m: Manager, uuids: set<string>, c: int): set<Job>
    requires ManagerAt(t, m)
  {
    set u | u in uuids && u in m.jobs && Below(t, m.jobs[u].channel, c) :: m.jobs[u]
  }

  function Without(ch: Chan, js: set<Job>): Chan {
    Chan(ch.queue - js, ch.running - js, ch.failed - js, ch.pauseUntil)
  }

  /** `r` is `m` once the jobs under some uuids have been removed, in whatever order. */
  ghost predicate JobsRemoved(t: seq<Config>, m: Manager, uuids: set<string>, r: Manager)
    requires ManagerAt(t, m)
  {
    && r.jobs == m.jobs - uuids && r.made == m.made && r.sched.eta == m.sched.eta && |r.sched.ch| == |t|
    && forall c | 0 <= c < |t| :: r.sched.ch[c] == Without(m.sched.ch[c], Through(t, m, uuids, c))
  }

  ghost function UuidsOf(m: Manager, db: string): set<string> {
    set u | u in m.jobs && m.jobs[u].dbName == db
  }

  /** The jobs of all databases but one. */
  function OfOthers(jobs: map<string, Job>, db: string): map<string, Job> {
    map u | u in jobs && jobs[u].dbName != db :: jobs[u]
  }

  lemma DbForgotten(m: Manager, db: string)
    ensures m.jobs - UuidsOf(m, db) == OfOthers(m.jobs, db)
  {
    var left := m.jobs - UuidsOf(m, db);
    assert left.Keys == OfOthers(m.jobs, db).Keys;
  }

  lemma {:induction false} RemoveAlongPath(t: seq<Config>, s: seq<Chan>, c: int, j: Job, d: nat)
    requires At(t, s, c) && d < |t|
    ensures Remove(t, s, c, j)[d] == if c >= 0 && Below(t, c, d) then RemoveAt(s[d], j) else s[d]
    decreases c + 1
  {
    if c >= 0 {
      RemoveAlongPath(t, s[c := RemoveAt(s[c], j)], t[c].parent, j, d);
      if t[c].parent >= 0 && Below(t, t[c].parent, d) {
        BelowIsLater(t, t[c].parent, d);
      }
    }
  }

  lemma {:induction false} OneMoreRemoved(t: seq<Config>, m: Manager, uuids: set<string>, r: Manager, u: string)
    requires ManagerAt(t, m) && ManagerAt(t, r) && JobsRemoved(t, m, uuids, r) && u !in uuids
    ensures JobsRemoved(t, m, uuids + {u}, RemoveJob(t, r, u))
  {
    forall c | 0 <= c < |t|
      ensures RemoveJob(t, r, u).sched.ch[c] == Without(m.sched.ch[c], Through(t, m, uuids + {u}, c))
    {
      if u in m.jobs {
        RemoveAlongPath(t, r.sched.ch, m.jobs[u].channel, m.jobs[u], c);
        assert Through(t, m, uuids + {u}, c) ==
          Through(t, m, uuids, c) + if Below(t, m.jobs[u].channel, c) then {m.jobs[u]} else {};
      } else {
        assert Through(t, m, uuids + {u}, c) == Through(t, m, uuids, c);
      }
    }
  }

  /** A full pass, and the jobs it hands out. */
  ghost predicate Hands(t: seq<Config>, m: Manager, now: Time, r: Manager, out: seq<Job>) {
    exists outs ::
      Pass(t, m.sched, now, r.sched, outs) && |outs| > 0 && out == outs[0] && r.jobs == m.jobs && r.made == m.made
  }
}
