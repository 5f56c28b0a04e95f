# A verified model of the job queue, the Ejar circuit breaker and the rent schedule

The project models, in Dafny, the parts of the repository that hold real algorithms, and proves what they promise.

- **Channel scheduler** (`Jobs`, `PriorityQueue`, `ChannelQueue`, `QueueBank`, `Channels`, `ChannelManager`). Heaps with lazy removal, queues that set jobs with an ETA aside, and a tree of channels with capacity, throttle and sequential mode. The classes are proved to follow `SchedulerSpec` and `ManagerSpec`, which describe one pass and one notification on values; `Subtrees` puts a pass over the tree together from its subtrees. `Notifications`, `JobFlow`, `Passes`, `Wakeup`, `SchedulerRuns`, `SchedulerSafety`, `Capacities` and `GrowingRuns` prove what follows: the path-shape invariant, capacity of subtrees, throttle spacing, no missed wakeup, one hand-out per pending notification. `RunnerRuns` puts the scheduler and the stored jobs together.
- **Job graphs** (`Graphs`, `Flattening`, `Plans`, `PlanOrders`, `Nesting`, `Workflows`). Maximal paths by backtracking, Kahn's topological sort, and the one graph that nested chains and groups stand for; `Workflows` follows the stages of a chain into the stored jobs.
- **Life of stored jobs** (`JobSteps`, `Endings`, `Dependencies`, `Attempts`, `JobTable`). An interleaved step system in which a worker commits that a job is done in one step and releases its dependents in another; the job objects and the table of jobs are proved to take these steps.
- **Circuit breaker** (`CircuitBreaker`), against what a history of interleaved callers says.
- **Rent schedule** (`Calendar`, `RentSchedule`, `Renewals`). The date loop against the closed-form month count, and chains of renewals.

How to read it: contracts of methods refer to definitions on values, and what these mean is said by lemmas in other words, without their names (`Passes.PassYieldsExactly`, `Notifications.NotifyAchieves`, `Endings.FinishExactly`, `CircuitBreakers.TwoSuccessesClose`, `Renewals.RenewalTerms` and others). `SchedulerSpec.Pass` relates the states before and after one pass by saying, for every channel, what it may yield and how it ends; `Flows` and `Clean` in `JobFlow` are the shapes of a job on its path; a `Run` is any sequence of steps, and since every part of a run is a run, a theorem about the end of a run is one about all reachable states.

Times are real numbers of seconds, and 0 stands for "no time", as the truth tests of the code read it; a capacity of 0 or None is no limit. Sets are iterated in any order. A generator is a method that returns all it would yield.

Where the code differs from what its comments promise, the model follows the code, gives the input, and proves exactly when the promise holds:
- A capacity is exceeded if a job is announced as running for which there is no room, as can happen when the runner starts (`Capacities.RunsKeepCapacity`, `Capacities.SecondFindsNoRoom`); with a runner that started with no jobs it is not (`RunnerRuns.RunnerKeepsCapacity`).
- `max_retries` is documented as a maximum of retries; it is exceeded exactly if the last allowed attempt ends in a death or a conflict and the job is started again (`Attempts.LimitExceeded`), by up to two starts without conflicts (`Attempts.BoundIsReached`).
- A worker that dies between committing and releasing leaves dependents waiting for ever (`Dependencies.ReleaseLostInGap`): exactly those that `Dependencies.GapLosesChildren` names.
- A chain waits for its first stage before its later ones except across an empty group (`PlanOrders.EmptyGroupCutsChain`, `PlanOrders.StagesOrderedExactly`, `Workflows.StagesRunExactly`).
- The head of a chain is the tail of its first node and the other way round, which is wrong exactly for chains that begin or end with chains (`Nesting.NestedConnectsWrongly`, `Nesting.HeadsAreStarts`).
- The topological sort is documented for graphs without cycles; it yields all vertices exactly for these (`Graphs.Graph.TopologicalSort`).
- A schedule that starts on the 29th to 31st may bill one period too many (`RentSchedules.DriftExample`, with the exact condition in `RentSchedules.PeriodsCoverMonths`).
- A given start of a renewal is used exactly if the old tenancy has an end or the start is today (`Renewals.GivenStart`, `Renewals.GivenStartIgnored`).

`dafny verify dfyconfig.toml` checks the whole project.

## Model

| member | source | states |
|---|---|---|
| Jobs.KeysCompare | addons/queue_job/jobrunner/channels.py:222-228 | A smaller priority goes first, then an earlier date, then a smaller sequence; only jobs that agree in all three are not ordered |
| PriorityQueues.LessSorts | addons/queue_job/jobrunner/channels.py:225-228 | Jobs of which either none has an ETA or all have one can be compared, and their order by ETA, priority, date and sequence is a strict weak order |
| PriorityQueues.LeastExists | addons/queue_job/jobrunner/channels.py:93-104 | So any such jobs have a least one |
| PriorityQueues.ClearingKeepsOrder | addons/queue_job/jobrunner/channels.py:199-200 | Clearing the ETA of a job leaves every heap in order: jobs without an ETA keep their order, and a job with one has left its heap before |
| PriorityQueues.PriorityQueue.Peek | addons/queue_job/jobrunner/channels.py:59-72 | Returns a least live object without taking it, or none exactly if nothing is live; the live set stays as it is while removed objects leave the top of the heap |
| PriorityQueues.PriorityQueue.Add | addons/queue_job/jobrunner/channels.py:77-84 | The object becomes live, also if it had been removed and is still in the heap, which then holds it once as before |
| PriorityQueues.PriorityQueue.Remove | addons/queue_job/jobrunner/channels.py:86-91 | The object is no longer live; nothing else changes, and the heap stays valid under every assignment of keys |
| PriorityQueues.PriorityQueue.Pop | addons/queue_job/jobrunner/channels.py:93-104 | Takes a least live object out, or returns none exactly if nothing is live |
| PriorityQueues.PriorityQueue.Len | addons/queue_job/jobrunner/channels.py:56-57 | The length is the number of live objects |
| PriorityQueues.PriorityQueue.Contains | addons/queue_job/jobrunner/channels.py:74-75 | Membership is being live |
| ChannelQueues.ChannelQueue.Pop | addons/queue_job/jobrunner/channels.py:335-349 | Jobs whose ETA is past lose it and compete; the queue returns what `Pops` allows and loses that job only |
| ChannelQueues.PopsDue | addons/queue_job/jobrunner/channels.py:335-349 | In terms of the ETAs before: a queue that is not sequential returns a least job among those without an ETA or with a past one, none exactly if there is none, and all ETAs left are in the future |
| ChannelQueues.PopsInSequence | addons/queue_job/jobrunner/channels.py:340-348 | In terms of the ETAs before: a sequential queue returns nothing exactly while the waiting job whose ETA comes first would go before every job that is due (or nothing is due), and what any other queue would otherwise |
| ChannelQueues.ChannelQueue.Promote | addons/queue_job/jobrunner/channels.py:336-339 | The loop that moves jobs from the ETA queue clears exactly the past ETAs of this queue, keeps its contents, and never compares a job with an ETA with one without |
| ChannelQueues.ChannelQueue.MustWait | addons/queue_job/jobrunner/channels.py:340-348 | The test of a sequential queue on its two tops says whether the first waiting job goes before the first ready one |
| ChannelQueues.ChannelQueue.GetWakeupTime | addons/queue_job/jobrunner/channels.py:351-357 | The earlier of the given time and the ETAs in the queue; 0 stands for none |
| ChannelQueues.ChannelQueue.Add | addons/queue_job/jobrunner/channels.py:325-329 | The job joins the queue it belongs to by its ETA |
| ChannelQueues.ChannelQueue.Remove | addons/queue_job/jobrunner/channels.py:331-333 | The job leaves both queues, and no other job is concerned |
| QueueBanks.QueueBank.Pop | addons/queue_job/jobrunner/channels.py:335-349 | Popping one channel's queue clears ETAs of that channel's waiting jobs only and leaves the queues of all other channels valid and unchanged |
| Channels.ChannelTree.AddChannel | addons/queue_job/jobrunner/channels.py:407-420 | A new, empty channel is listed once by its parent; nothing else changes |
| Channels.ChannelTree.Remove | addons/queue_job/jobrunner/channels.py:466-472 | The job leaves the channel and all channels above it |
| Channels.ChannelTree.SetPending | addons/queue_job/jobrunner/channels.py:482-494 | The job is queued at home and leaves the channels above, unless it is queued already |
| Channels.ChannelTree.SetRunning | addons/queue_job/jobrunner/channels.py:496-507 | The job is running from its home upwards, up to the first channel that already runs it |
| Channels.ChannelTree.SetFailed | addons/queue_job/jobrunner/channels.py:509-517 | The job is failed at home and leaves the channels above, unless it has failed already |
| Channels.ChannelTree.Drain | addons/queue_job/jobrunner/channels.py:560-575 | The loop yields one least ready job after another while there is capacity (one if throttled), and stops only when full, throttled or with nothing to take |
| Channels.ChannelTree.YieldJobs | addons/queue_job/jobrunner/channels.py:548-575 | A paused channel yields nothing; any other ends its pause, drains its queue and pauses again if it has yielded and is throttled |
| Channels.ChannelTree.GetJobsToRun | addons/queue_job/jobrunner/channels.py:544-575 | The recursion over a subtree does at every channel of it what one pass does there, and nothing elsewhere |
| Channels.ChannelTree.Pass | addons/queue_job/jobrunner/channels.py:528-575 | A whole pass is the relation `Pass` between the states before and after, and hands out what the root yields |
| Channels.ChannelTree.GetWakeupTime | addons/queue_job/jobrunner/channels.py:577-595 | The earliest of the given time and all times that the open channels of the subtree ask for |
| ChannelManagers.ChannelManager.Notify | addons/queue_job/jobrunner/channels.py:1026-1064 | A notification is refused if database or creation date differ; otherwise the job object is kept or replaced, and takes the transition of its state |
| ChannelManagers.ChannelManager.Renew | addons/queue_job/jobrunner/channels.py:1036-1051 | A job whose sequence, priority, ETA or channel has changed is dropped everywhere and gets a new job object |
| ChannelManagers.ChannelManager.RemoveJob | addons/queue_job/jobrunner/channels.py:1066-1070 | The job leaves its channels and the table; an unknown uuid changes nothing |
| ChannelManagers.ChannelManager.RemoveDb | addons/queue_job/jobrunner/channels.py:1072-1076 | Exactly the jobs of the database leave the table and all channels on their paths, in whatever order they are listed |
| ChannelManagers.ChannelManager.GetJobsToRun | addons/queue_job/jobrunner/channels.py:1078-1079 | Hands out what a pass from the root yields and keeps the table of jobs |
| ChannelManagers.ChannelManager.GetWakeupTime | addons/queue_job/jobrunner/channels.py:1081-1082 | The earliest time that the channels ask for, or 0 |
| Notifications.NotifyAchieves | addons/queue_job/jobrunner/channels.py:1026-1064 | An accepted notification leaves its job known with its properties, and nowhere after done, cancelled or no state; queued or failed at home only after pending or failed; running all the way after enqueued or started, if it did not run yet; and where it was otherwise. A replaced object is nowhere, and jobs with other uuids stay where they were |
| Notifications.RenewAchieves | addons/queue_job/jobrunner/channels.py:1036-1051 | The job object is kept exactly if it has all properties of the notification, and a new one is in no channel yet |
| Notifications.RefusedExactly | addons/queue_job/jobrunner/channels.py:1030-1034 | A notification is refused, and changes nothing, exactly if the job is known with another database or creation date |
| JobFlow.SetPendingKeepsShapes | addons/queue_job/jobrunner/channels.py:482-494 | After set_pending every job still has one of the four shapes on its path and is nowhere else |
| JobFlow.SetRunningKeepsShapes | addons/queue_job/jobrunner/channels.py:496-507 | After set_running every job still has one of the four shapes, and a job that was not running at home runs all the way |
| JobFlow.SetFailedKeepsShapes | addons/queue_job/jobrunner/channels.py:509-517 | After set_failed every job still has one of the four shapes |
| JobFlow.RemoveKeepsShapes | addons/queue_job/jobrunner/channels.py:466-472 | After remove every job still has one of the four shapes |
| Passes.PassKeepsShapes | addons/queue_job/jobrunner/channels.py:544-575 | After a pass every job still has one of the four shapes, and what is handed out runs at the root |
| JobFlow.RunningIsPassedOn | addons/queue_job/jobrunner/channels.py:392-395 | What a channel runs is exactly what its parent has, queued or running, from below that channel |
| JobFlow.RunningAtRoot | addons/queue_job/jobrunner/channels.py:392-395 | A job that is handed out runs in every channel of its path |
| SchedulerRuns.StepKeepsGood | addons/queue_job/jobrunner/channels.py:1026-1079 | Every notification, removal and pass keeps the invariant: four shapes, jobs with an ETA at home, only known job objects in the channels |
| SchedulerRuns.RunsAreGood | addons/queue_job/jobrunner/channels.py:1026-1079 | The invariant holds in every state of every run |
| Passes.PassYieldsExactly | addons/queue_job/jobrunner/channels.py:519-575 | A channel yields nothing exactly if it is sequential with a failed job, runs as many jobs as its capacity, is paused, or has nothing to take from its queue; and never runs more than its capacity by yielding |
| Passes.PassIsThorough | addons/queue_job/jobrunner/channels.py:560-575 | After a pass, a channel without throttle is full in that sense or has nothing it may take; if it is not sequential, no ready job at all |
| Passes.PassPauses | addons/queue_job/jobrunner/channels.py:548-575 | A throttled channel that has yielded pauses for exactly its throttle; a pause ends in the first pass at or after its end |
| Wakeup.ReadyIsDue | addons/queue_job/jobrunner/channels.py:335-339 | What is ready when a channel is looked at are the jobs of its queue without an ETA or with one that is not after now, and what its children have yielded |
| Passes.PassIsInOrder | addons/queue_job/jobrunner/channels.py:335-349 | Jobs are yielded in order of priority, date and sequence, each once, and no ready job left behind should have come before one of them |
| Wakeup.NoMissedWakeup | addons/queue_job/jobrunner/channels.py:528-595 | After a pass the wakeup time is 0 or in the future, and any later passes before it (or any at all, if it is 0) hand out nothing while no notification comes in |
| Wakeup.AskedExactly | addons/queue_job/jobrunner/channels.py:577-595 | A time is asked for exactly if it ends the pause of a channel or is the ETA of a job in the queue of a channel, and that channel and all above it are open |
| SchedulerSafety.RunsMissNoWakeup | addons/queue_job/jobrunner/channels.py:528-595 | The same after every run from an empty start that ends with a pass |
| Capacities.RoomDecides | addons/queue_job/jobrunner/channels.py:496-507 | Marking a job running keeps all channels within their capacities exactly if it runs already or every limited channel on its path can run one more |
| Capacities.StepKeepsCapacity | addons/queue_job/jobrunner/channels.py:1026-1064 | A step keeps all capacities exactly if the job it announces as running, if any, finds room in this sense |
| Capacities.RunsKeepCapacity | addons/queue_job/jobrunner/channels.py:519-526 | A run is within all capacities in every state exactly if every job it announces as running finds room; this includes jobs found started when the runner starts |
| Capacities.SubtreeCapacity | addons/queue_job/jobrunner/channels.py:519-526 | Then no more unfinished jobs of a subtree are ever out at once than its channel may run |
| Capacities.HonestFindsRoom | addons/queue_job/jobrunner/channels.py:1036-1058 | A job that is handed out and keeps its channel always finds room, also when it is announced with other properties and gets a new object |
| Capacities.SecondFindsNoRoom | addons/queue_job/jobrunner/channels.py:496-507 | Of two jobs announced as started at a root of capacity one, the first finds room, the second does not, and both are out |
| SchedulerSafety.ThrottleSpacing | addons/queue_job/jobrunner/channels.py:548-575 | With a clock that does not go back, jobs that a throttled channel lets through in different passes are at least its throttle apart, and each pass lets one through |
| SchedulerSafety.OneHandOutPerPending | addons/queue_job/jobrunner/channels.py:1026-1064 | Between two hand-outs of the same job a pending notification for it has been accepted, even if its object has been replaced; one pass hands it out at most once |
| GrowingRuns.LiveRunsAreGood | addons/queue_job/jobrunner/channels.py:1017-1024 | The invariant of all runs also holds in runs during which channels are created, as a notification can do |
| RunnerRuns.HandOutFindsPending | addons/queue_job/jobrunner/runner.py:317-325 | When the runner reads the current row at each notification, every job it hands out is pending in the table at that time, although the update does not look |
| RunnerRuns.HistoryIsRun | addons/queue_job/jobrunner/runner.py:526-565 | With the runner, the stored jobs go through steps of their own only, so all theorems about those hold |
| RunnerRuns.HearsHonestly | addons/queue_job/jobrunner/runner.py:543-565 | A job that the runner reads to be enqueued or started is out in its channels, if it started with no jobs and jobs keep their channels |
| RunnerRuns.RunnerKeepsCapacity | addons/queue_job/jobrunner/runner.py:526-565 | So capacities of all subtrees and dependency safety hold for the runner and the stored jobs together, without further conditions |
| Graphs.Graph.AddEdge | addons/queue_job/delay.py:76-82 | Adds exactly this edge and its two vertices; every neighbour stays a vertex |
| Graphs.Graph.Edges | addons/queue_job/delay.py:88-94 | Lists every edge once |
| Graphs.Graph.Paths | addons/queue_job/delay.py:98-123 | Yields exactly the maximal cycle-free paths from the vertex, each once, on cyclic graphs too |
| Graphs.PathSearch.Search | addons/queue_job/delay.py:107-123 | The search yields exactly the maximal continuations of its path, and restores its path and its set of seen vertices |
| Graphs.Graph.TopologicalSort | addons/queue_job/delay.py:125-145 | Yields no vertex twice and none before one of its parents, and all vertices exactly if the graph is acyclic |
| Graphs.Graph.RootVertices | addons/queue_job/delay.py:147-155 | Exactly the vertices without parents |
| Flattening.MergedGraph.MergeGraph | addons/queue_job/delay.py:172-186 | Adds exactly the vertices and edges that a node's graph stands for |
| Flattening.ConnectGraphs | addons/queue_job/delay.py:188-212 | Ends on every graph of nodes, cyclic ones too, with what all reachable node graphs stand for together |
| Flattening.ConnectsDelayables | addons/queue_job/delay.py:188-212 | The vertices of the connected graph are exactly the reachable delayables, and its edges stay among them |
| Plans.FlattenPlan | addons/queue_job/delay.py:188-212 | A chain of delayables and groups, or a group of such chains, stands for exactly its delayables and the pairs from one stage to the next |
| Plans.PlanIsAcyclic | addons/queue_job/delay.py:319-334 | Such a graph has no cycle if no delayable is repeated |
| Plans.Workspace.NewChain | addons/queue_job/delay.py:319-328 | A chain's graph links the listed nodes one after another |
| Plans.Workspace.NewGroup | addons/queue_job/delay.py:376-380 | A group's graph has its members and no edges |
| Plans.Workspace.OnDone | addons/queue_job/delay.py:340-348 | Adds the edges from the end of a chain (392-401: from each member of a group; 513-521: from a delayable) to the given nodes, and no others |
| PlanOrders.StagesOrderedExactly | addons/queue_job/delay.py:300-306 | Every complete order puts a delayable before one of a later stage exactly if no stage in between is empty |
| PlanOrders.EmptyGroupCutsChain | addons/queue_job/delay.py:188-212 | A chain of a delayable, an empty group and a delayable flattens to a graph that may run the last one first; splitting an empty recordset makes such a group (527-568) |
| PlanOrders.ExecuteGraphDirect | addons/queue_job/delay.py:293-295 | Executing a plan directly runs each delayable once, and those of a later stage later if no stage in between is empty |
| Nesting.HeadsAreStarts | addons/queue_job/delay.py:330-334 | Heads and tails of all nodes, nested in any way, are where they start and stop, exactly if no chain begins or ends, through groups and chains of one node, with a chain of several (the converse if the ends of different nodes are apart and no group is empty) |
| Nesting.AttachedWhereItStops | addons/queue_job/delay.py:340-348 | The nodes from which on_done connects a node (also 392-401 and 513-521) are where the node stops |
| Nesting.FlattenNested | addons/queue_job/delay.py:172-212 | Then the connected graph has exactly the edges from where a node stops to where the next one starts, at any depth |
| Nesting.NestedConnectsWrongly | addons/queue_job/delay.py:330-334 | Otherwise edges go wrong: the chain of 5 and the chain of the chain of 0 and 1, and 3, has 1 wait for 5, and 0 for nothing |
| JobTables.Job.Perform | addons/queue_job/job.py:509-534 | Counts the attempt unless it asks not to be counted, and turns the last allowed retry into a failure |
| JobTables.Job.SetPending | addons/queue_job/job.py:789-802 | Waits if some parent is not done, and is pending otherwise |
| JobTables.GetRetrySeconds | addons/queue_job/job.py:839-854 | A given delay is kept; otherwise the entry of the pattern with the highest count reached, or ten minutes |
| JobTables.JobTable.AddDepends | addons/queue_job/job.py:498-507 | A job cannot depend on itself; it waits if the parent is not done, and both sides know of each other |
| JobTables.JobTable.BuildJobs | addons/queue_job/delay.py:252-264 | The jobs built from a graph have exactly its edges as dependencies on both sides, and fail exactly on a loop |
| JobTables.JobTable.Delay | addons/queue_job/delay.py:248-291 | Stores all jobs of a graph in one step, or none if it has a loop |
| JobTables.JobTable.StartJob | addons/queue_job/controllers/main.py:96-111 | A worker starts a job exactly if it is enqueued |
| JobTables.JobTable.FinishJob | addons/queue_job/controllers/main.py:113-158 | What a worker commits for each way in which a job can end (38-45 if nothing is raised), and whether it goes on to release |
| JobTables.JobTable.EnqueueWaiting | addons/queue_job/job.py:536-569 | The update driven by stored reverse dependencies releases exactly the waiting children whose parents are all done |
| JobTables.JobTable.RequeueDeadJobs | addons/queue_job/jobrunner/runner.py:327-366 | Dead jobs become pending, or failed if their retries already exceed the limit; started ones count one retry more |
| Endings.FinishExactly | addons/queue_job/controllers/main.py:113-158 | A finished attempt makes its job done, and owe a release, exactly if it succeeds or has nothing to do; failed exactly if it raises or asks for a retry at the limit; and otherwise pending or waiting by its parents. It counts unless it asks not to |
| Endings.FindDeadExactly | addons/queue_job/jobrunner/runner.py:327-366 | A dead job fails exactly if it has a limit and its retries exceed it, and is pending otherwise; a started one counts one retry more; others stay as they are |
| Endings.ReleaseExactly | addons/queue_job/job.py:536-569 | A release lets exactly the waiting children go whose parents are all done |
| Endings.CreateExactly | addons/queue_job/delay.py:248-291 | New jobs have no retries behind them and wait exactly if they depend on any |
| Endings.DoneBySuccess | addons/queue_job/controllers/main.py:38-45 | In every run, a job that has come to be done has succeeded or had nothing to do |
| Endings.NoLimitNoFailure | addons/queue_job/job.py:520-521 | In every run, a job without a limit fails only if it raises |
| Endings.RaisingBlocksChildren | addons/queue_job/controllers/main.py:146-158 | In every run after a job has raised, its dependents go on waiting |
| Dependencies.DependencySafety | addons/queue_job/job.py:498-507 | In every reachable state, a job that has left the waiting state has all its parents done, whatever was retried, found dead or lost |
| Dependencies.NoLostRelease | addons/queue_job/controllers/main.py:160-162 | As long as no worker dies between committing and releasing, a waiting job has a parent that is not done or still owes the release |
| Dependencies.NoDeadlock | addons/queue_job/job.py:536-569 | Without cycles, failures and outstanding releases, all jobs are done or some job can proceed |
| Dependencies.CanComplete | addons/queue_job/controllers/main.py:38-45 | From every such state there is a run that brings all jobs to an end |
| Dependencies.RunsDoNotDeadlock | addons/queue_job/controllers/main.py:160-162 | The same for every run that starts with no jobs |
| Dependencies.ReleaseLostInGap | addons/queue_job/controllers/main.py:43-45 | A worker that dies between its two commits leaves a job waiting for ever: a concrete run |
| Dependencies.LostForEver | addons/queue_job/job.py:536-569 | A job that has lost its release waits in every state that any later run reaches |
| Dependencies.GapLosesChildren | addons/queue_job/controllers/main.py:43-45 | A worker that dies in the gap loses exactly the waiting children whose parents are all done and of whom no other owes a release |
| Dependencies.CreatedGraph | addons/queue_job/delay.py:263-264 | The dependencies stored for a graph of jobs are its edges |
| Workflows.ConnectedIsPlanned | addons/queue_job/delay.py:248-264 | The jobs built for a plan depend on each other exactly from one stage to the next |
| Workflows.StagesRunExactly | addons/queue_job/delay.py:304-306 | In every run of the stored jobs of a plan, a job waits until those of an earlier stage are done, exactly if no stage in between is empty |
| Workflows.PlanNeverDeadlocks | addons/queue_job/delay.py:248-291 | The stored jobs of a plan never deadlock and can always be completed, unless one fails or a worker dies before a release |
| Attempts.LimitExceeded | addons/queue_job/job.py:520-532 | A job with M retries is started more than M times, not counting attempts that ask for it, exactly if its last allowed attempt ends in a death or a conflict and it is started again |
| Attempts.AttemptBound | addons/queue_job/jobrunner/runner.py:327-366 | It is then started at most M + 2 times, and M times if nothing dies, with one more for every conflict; having reached the bound it is running, done or failed |
| Attempts.AttemptsAreCounted | addons/queue_job/job.py:514-520 | The stored retry counts every start, except those that asked not to be counted |
| Attempts.BoundIsReached | addons/queue_job/jobrunner/runner.py:327-366 | The M + 2 starts do happen, when the worker dies every time |
| CircuitBreakers.CircuitBreaker.CircuitCheck | addons/l10n_sa_ejar/services/ejar_client.py:254-273 | Refuses within the recovery time of an open breaker, with a waiting time after which it admits, and starts a half-open period otherwise |
| CircuitBreakers.CircuitBreaker.RecordSuccess | addons/l10n_sa_ejar/services/ejar_client.py:275-288 | Resets the counter when closed, counts towards closing when half-open, and does nothing when open |
| CircuitBreakers.CircuitBreaker.RecordFailure | addons/l10n_sa_ejar/services/ejar_client.py:290-302 | Counts and dates the failure, and opens at the threshold from any state |
| CircuitBreakers.CircuitBreaker.RecordResponse | addons/l10n_sa_ejar/services/ejar_client.py:373-437 | No response, 429 and 500, 502 to 504 are failures, 2xx is a success, everything else counts neither way |
| CircuitBreakers.AdmittedExactly | addons/l10n_sa_ejar/services/ejar_client.py:256-267 | A caller is admitted exactly if the breaker is not open or 60 seconds have gone since the last failure |
| CircuitBreakers.AdmittedOpensUp | addons/l10n_sa_ejar/services/ejar_client.py:257-273 | An admitted caller leaves no breaker open: it is half-open with no successes then, or as it was; a refused one changes nothing |
| CircuitBreakers.FifthFailureOpens | addons/l10n_sa_ejar/services/ejar_client.py:290-302 | A failure opens the breaker exactly if it is the fifth or a later one since the last reset |
| CircuitBreakers.TwoSuccessesClose | addons/l10n_sa_ejar/services/ejar_client.py:275-288 | After an admission to an open breaker, and while nothing fails, it is closed exactly from the second success on, and half-open until then |
| CircuitBreakers.OpenIgnoresSuccess | addons/l10n_sa_ejar/services/ejar_client.py:275-288 | Successes that come in while it is open change nothing |
| CircuitBreakers.StateByCount | addons/l10n_sa_ejar/services/ejar_client.py:290-302 | Closed exactly below five failures; so one failure while half-open opens it again |
| CircuitBreakers.CountsSinceReset | addons/l10n_sa_ejar/services/ejar_client.py:275-302 | The counter is the number of failures since the last success while closed or the last closing, for every history of interleaved callers |
| CircuitBreakers.LastFailureIsRemembered | addons/l10n_sa_ejar/services/ejar_client.py:293-294 | The time kept is that of the last failure |
| CircuitBreakers.HalfOpenPeriod | addons/l10n_sa_ejar/services/ejar_client.py:254-288 | A half-open breaker was opened by a check after the recovery time, has had no failure since, and counts the successes since |
| CircuitBreakers.ClosingTakesTwoSuccesses | addons/l10n_sa_ejar/services/ejar_client.py:278-283 | It closes only on the second success of one half-open period without failures |
| CircuitBreakers.NothingAdmittedTooEarly | addons/l10n_sa_ejar/services/ejar_client.py:257-267 | With a clock that does not go back, nobody is admitted within 60 seconds of a failure that left it open |
| Calendar.MonthsBetweenIsGreatest | addons/sa_rental_cycle/models/sa_rent_payment.py:536-540 | The difference in months is the greatest number of months that does not go past the end |
| Calendar.MonthLengths | addons/sa_rental_cycle/models/sa_rent_payment.py:504-512 | The months have their lengths, February with its leap days |
| Calendar.AddMonthsIsLatest | addons/sa_rental_cycle/models/sa_rent_payment.py:512-512 | Adding months gives the latest date of the month reached that has no later day |
| RentSchedules.YearIsYear | addons/sa_rental_cycle/models/sa_rent_payment.py:484-490 | In every periodic schedule the payments of a year are twelve months apart in all and come to the rent of twelve months (542-549) |
| RentSchedules.RentPayments | addons/sa_rental_cycle/models/sa_rent_payment.py:502-512 | The loop makes one payment for each due date up to the end |
| RentSchedules.DueIs | addons/sa_rental_cycle/models/sa_rent_payment.py:512-512 | The k-th due date: its day is the start day cut down by every shorter month on the way |
| RentSchedules.PeriodsCoverMonths | addons/sa_rental_cycle/models/sa_rent_payment.py:494-540 | For all dates: the periods cover the total months and less than one period more, except exactly where the due dates drift, when it is one whole period more |
| RentSchedules.MonthlyPayments | addons/sa_rental_cycle/models/sa_rent_payment.py:536-540 | The monthly loop makes as many payments as there are total months, except exactly where the due dates drift, when it makes one more; never for start days up to 28 |
| RentSchedules.DriftsInClosedForm | addons/sa_rental_cycle/models/sa_rent_payment.py:504-512 | Due dates drift exactly if the months are a multiple of the interval and the day lost on the way decides whether the last due date is in time: a test on the dates alone |
| RentSchedules.BilledCoversMonths | addons/sa_rental_cycle/models/sa_rent_payment.py:494-549 | The same in money, for every schedule that is not paid at once: at least the rent of all months, less than one period more, and one whole period more exactly where the due dates drift |
| RentSchedules.MonthlyIsOneTime | addons/sa_rental_cycle/models/sa_rent_payment.py:494-500 | For start days up to 28, monthly payments sum up to the single payment |
| RentSchedules.DriftExample | addons/sa_rental_cycle/models/sa_rent_payment.py:505-512 | From 31 January to 30 March three months are billed for two |
| RentSchedules.Tenancy.GeneratePaymentSchedule | addons/sa_rental_cycle/models/sa_rent_payment.py:471-523 | Refuses without dates or rent; otherwise every payment that is pending or overdue goes, every other one is kept, and the deposit and the rents are added |
| RentSchedules.KeptExactly | addons/sa_rental_cycle/models/sa_rent_payment.py:478-481 | Exactly the payments that are neither pending nor overdue are kept, as often as they were there |
| RentSchedules.KeptInOrder | addons/sa_rental_cycle/models/sa_rent_payment.py:478-481 | and in their order |
| Renewals.RenewalTerms | addons/sa_rental_cycle/models/sa_tenancy_renewal.py:113-124 | The period is the one asked for, that of the lease, or twelve months; the rent the one asked for, or the old one raised by the percentage unless rents are frozen |
| Renewals.LeaseBook.DoRenewal | addons/sa_rental_cycle/models/sa_tenancy_renewal.py:145-160 | A lease is renewed once; the two leases point at each other and nothing else changes |
| Renewals.GivenStart | addons/sa_rental_cycle/models/sa_tenancy_renewal.py:114-115 | A given start is used exactly if the old tenancy has an end, or the start is today |
| Renewals.GivenStartIgnored | addons/sa_rental_cycle/models/sa_tenancy_renewal.py:114-115 | A tenancy without an end that is renewed from 1 February on is renewed from today, 15 January, on |
| Renewals.RenewalBills | addons/sa_rental_cycle/models/sa_tenancy_renewal.py:111-116 | A renewal of p months is p total months and p monthly payments, or p + 1 exactly if a month on the way is too short; the day after it is p months after its start |
| Renewals.RenewalBilledTwice | addons/sa_rental_cycle/models/sa_tenancy_renewal.py:113-116 | A renewal from 30 January for three months is billed four times |
| Renewals.ChainTiles | addons/sa_rental_cycle/models/sa_tenancy_renewal.py:113-116 | A chain of renewals covers each day from its start to its end by exactly one of them |
| Renewals.ChainBills | addons/sa_rental_cycle/models/sa_tenancy_renewal.py:113-116 | From a start day up to 28 a chain bills exactly the sum of its periods and ends where they end |
| Renewals.RenewalContinues | addons/sa_rental_cycle/models/sa_tenancy_renewal.py:113-116 | A renewal without a given start is the next link of such a chain |

## Left out

- Channels.ChannelTree: the channels are kept in a table and known by their position, not linked objects; two channels cannot share a queue or a set in the original either, so what is lost is aliasing of channel objects only.
- QueueBanks.QueueBank: groups the queues of all channels in one object; the original has one queue object in each channel.
- Jobs.JobSlots: the one attribute of a job object that changes, its ETA, is kept beside the jobs; a job object is a value with an identity of its own.
- PriorityQueues.HeapPush: stands for the library's heap operations, as do HeapPop and SiftDown; their order among equal keys is not the library's.
- Jobs.Time: an ETA of exactly 0 is no ETA, as the code treats it; the difference between None and 0 is not modelled.
- ChannelManagers.ChannelManager.Notify: takes a channel that has been looked up already; names, the fallback to parent channels and the creation of channels during the lookup are not modelled.
- ChannelManagers.ChannelManager.GetJobsToRun: the generator is consumed to its end; the runner may stop in the middle of it when it is shut down.
- Graphs.Graph.Of: a graph that is given as a whole must have every neighbour as a vertex; on others the original fails with a missing key.
- Configuration strings, and changing the configuration of a channel while jobs are in it.
- The collection of job objects that nobody refers to any more: the table of jobs is an ordinary map.
- Threads, sockets, notifications of the database and the select loop of the runner, with its cap on the time it sleeps.
- Sequential channels against waiting jobs other than the one whose ETA comes first: the code looks at that one only.
- Nesting.HeadsAreStarts: the converse is proved where the ends of different nodes of a chain or group have no delayables in common and no group is empty; that a wrong head also makes an edge wrong is shown for one input, since a head that nothing precedes makes none.
- PlanOrders.ExecuteGraphDirect: the execution of the jobs themselves, and the choice between executing and storing.
- JobTables.JobTable.Delay: identity keys, which may replace new jobs by existing ones, and dependencies on jobs that are stored already.
- JobTables.GetRetrySeconds: returns the range from which the original draws a number; the drawing is not modelled.
- JobTables.JobTable.FinishJob: the ETA of a postponed job is computed but not stored; a worker that was taken for dead while it was about to lock its row, and goes on, is not modelled; nor are repeated tries of a release after a concurrency error.
- JobTables.JobTable.RequeueDeadJobs: which workers are gone is a parameter, in place of locks and the ten seconds of grace.
- RunnerRuns.RunnerKeepsCapacity: jobs that are moved to another channel while they run, and a runner that starts while jobs run; Capacities.RunsKeepCapacity covers both.
- GrowingRuns.LiveRunsAreGood: the theorems on throttling, wakeup and hand-outs are about runs with one set of channels.
- Attempts.AttemptBound: conflicts and attempts that ask not to be counted are not limited by the code; they add to the bound.
- JobTables.Job.SetPending: the dates, the result and the ETA of a job are not part of its row, so the ETA of a postponed job is only computed (JobTables.GetRetrySeconds), not stored.
- The graph uuid that the jobs of one graph share: job numbers are unique here.
- Buttons that requeue, cancel or finish jobs by hand, which break the dependency invariant by design, and the deletion of old jobs.
- The HTTP session of the Ejar client with its own retries, and refreshing credentials after an authentication error.
- RentSchedules.Billed: amounts are real numbers, without the rounding of floating point.
- Renewals.LeaseBook.DoRenewal: messages, activities and the daily job that picks the tenancies to renew.
- The Ejar contract states and the rest of the repository (dashboards, portals, exports, notifications): record handling without algorithms of its own.
