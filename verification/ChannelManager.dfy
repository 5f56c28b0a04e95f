/** Keeps the jobs of all databases in the tree of channels. */
module ChannelManagers {
  import opened Jobs
  import opened SchedulerSpec
  import opened Channels
  import opened ManagerSpec

  class ChannelManager {
    const tree: ChannelTree
    var jobsByUuid: map<string, Job>
    var made: nat

    constructor ()
      ensures Valid() && jobsByUuid == map[] && tree.conf == [Config(-1, 1, 0.0, false)]
    {
      tree := new ChannelTree(1);
      jobsByUuid, made := map[], 0;
    }

    /** A new channel below an existing one; the known jobs stay where they are. */
    method AddChannel(cfg: Config) returns (c: nat)
      requires Valid() && 0 <= cfg.parent < |tree.conf|
      modifies tree, tree.bank
      ensures Valid() && c == old(|tree.conf|) && tree.conf == old(tree.conf) + [cfg]
      ensures tree.st == old(tree.st) + [Chan({}, {}, {}, 0.0)]
    {
      c := tree.AddChannel(cfg);
    }

    ghost predicate Valid()
      reads this, tree, tree.bank, tree.bank.slots, tree.bank.Repr
    {
      tree.Valid() && this !in tree.bank.Repr && Registered(tree.conf, Value())
    }

    ghost function Value(): Manager
      reads this, tree, tree.bank, tree.bank.slots
    {
      Manager(Sched(tree.st, tree.bank.slots.eta), jobsByUuid, made)
    }

    method Notify(msg: Msg) returns (ok: bool)
      requires Valid() && msg.channel < |tree.conf|
      modifies this, tree`st, tree`running, tree`failed, tree.bank`contents, tree.bank.Repr
      ensures Valid() && Value() == ManagerSpec.Notify(tree.conf, old(Value()), msg)
      ensures ok == Agrees(old(Value()), msg)
    {
      ok := msg.uuid in jobsByUuid ==>
        jobsByUuid[msg.uuid].dbName == msg.dbName && jobsByUuid[msg.uuid].key.dateCreated == msg.key.dateCreated;
      if ok {
        Renew(msg);
        Dispatch(jobsByUuid[msg.uuid], msg.state);
      }
    }

    /** Drops a job whose properties have changed and makes a new job object for it. */
    method Renew(msg: Msg)
      requires Valid() && msg.channel < |tree.conf|
      modifies this, tree`st, tree`running, tree`failed, tree.bank`contents, tree.bank.Repr
      ensures Valid() && Value() == Renewed(tree.conf, old(Value()), msg)
    {
      if !IsUnchanged(msg) {
        RemoveJob(msg.uuid);
        EnterJob(msg);
      }
    }

    predicate IsUnchanged(msg: Msg)
      requires Valid()
      reads this, tree, tree.bank, tree.bank.slots, tree.bank.Repr
      ensures IsUnchanged(msg) == Unchanged(Value(), msg)
    {
      msg.uuid in jobsByUuid &&
      var job := jobsByUuid[msg.uuid];
      && msg.key.seqNo == job.key.seqNo && msg.key.priority == job.key.priority
      && msg.eta == EtaOf(tree.bank.slots.eta, job) && msg.channel == job.channel
    }

    method EnterJob(msg: Msg)
      requires Valid() && msg.channel < |tree.conf|
      modifies this, tree.bank.slots
      ensures Valid() && Value() == ManagerSpec.EnterJob(old(Value()), msg)
    {
      var job := Job(made, msg.dbName, msg.uuid, msg.channel, msg.key);
      tree.bank.EnterJob(job, msg.eta);
      jobsByUuid, made := jobsByUuid[msg.uuid := job], made + 1;
    }

    method Dispatch(job: Job, state: JobState)
      requires Valid() && job.channel < |tree.conf| && job in tree.bank.slots.eta
      modifies tree`st, tree`running, tree`failed, tree.bank`contents, tree.bank.Repr - {tree.bank.slots}
      ensures tree.Valid() && tree.st == ManagerSpec.Dispatch(tree.conf, old(tree.st), job, state)
    {
      match state
      case NoState | Done | Cancelled => tree.SetDone(job);
      case Pending => tree.SetPending(job);
      case Enqueued | Started => tree.SetRunning(job.channel, job);
      case Failed => tree.SetFailed(job);
      case WaitDependencies | Other(_) =>
    }

    method RemoveJob(uuid: string)
      requires Valid()
      modifies this`jobsByUuid, tree`st, tree`running, tree`failed
      modifies tree.bank`contents, tree.bank.Repr - {tree.bank.slots}
      ensures Valid() && Value() == ManagerSpec.RemoveJob(tree.conf, old(Value()), uuid)
    {
      if uuid in jobsByUuid {
        var job := jobsByUuid[uuid];
        tree.Remove(job.channel, job);
        jobsByUuid := jobsByUuid - {uuid};
      }
    }

    /** Forgets all jobs of a database; the order in which the table lists its jobs does not matter. */
    method RemoveDb(db: string)
      requires Valid()
      modifies this`jobsByUuid, tree`st, tree`running, tree`failed
      modifies tree.bank`contents, tree.bank.Repr - {tree.bank.slots}
      ensures Valid() && JobsRemoved(tree.conf, old(Value()), UuidsOf(old(Value()), db), Value())
      ensures jobsByUuid == OfOthers(old(jobsByUuid), db)
    {
      ghost var m := Value();
      var todo := jobsByUuid.Keys;
      ghost var gone: set<string> := {};
      assert m.jobs - {} == m.jobs;
      while todo != {}
        invariant Valid() && JobsRemoved(tree.conf, m, gone, Value())
        invariant todo <= jobsByUuid.Keys && todo !! gone && gone <= UuidsOf(m, db) <= gone + todo
        decreases todo
      {
        var uuid :| uuid in todo;
        todo := todo - {uuid};
        if jobsByUuid[uuid].dbName == db {
          OneMoreRemoved(tree.conf, m, gone, Value(), uuid);
          RemoveJob(uuid);
          gone := gone + {uuid};
        }
      }
      assert gone == UuidsOf(m, db);
      DbForgotten(m, db);
    }

    method GetJobsToRun(now: Time) returns (out: seq<Job>)
      requires Valid()
      modifies tree`st, tree`running, tree`pauseUntil, tree.bank`contents, tree.bank.Repr
      ensures Valid() && Hands(tree.conf, old(Value()), now, Value(), out)
    {
      ghost var outs;
      out, outs := tree.Pass(now);
    }

    method GetWakeupTime() returns (w: Time)
      requires Valid()
      modifies tree.bank.Repr - {tree.bank.slots}
      ensures Valid() && Soonest(Asks(tree.conf, tree.st, tree.bank.slots.eta, 0), w)
    {
      w := tree.GetWakeupTime(0, 0.0);
    }
  }
}
