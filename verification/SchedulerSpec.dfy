/**
 * What one scheduling pass and each job transition do to the channels, on values.
 * The classes of module Channels are proved to follow these definitions, and module
 * SchedulerRuns proves what follows from them for whole runs.
 */
module SchedulerSpec {
  import opened Jobs
  import opened Wrappers

  /** Configuration of one channel; the parent of the root is -1 and every parent comes before its children. */
  datatype Config = Config(parent: int, capacity: int, throttle: Time, sequential: bool)

  datatype Chan = Chan(queue: set<Job>, running: set<Job>, failed: set<Job>, pauseUntil: Time)

  datatype Sched = Sched(ch: seq<Chan>, eta: Etas)

  ghost predicate IsTree(t: seq<Config>) {
    && |t| > 0 && t[0].parent == -1
    && forall c | 0 < c < |t| :: 0 <= t[c].parent < c
  }

  /** A place in the tree; -1 is above the root. */
  ghost predicate At(t: seq<Config>, s: seq<Chan>, c: int) {
    IsTree(t) && |s| == |t| && -1 <= c < |t|
  }

  // ---------------------------------------------------------------- queues

  /** Jobs of the queue whose ETA is past lose it. */
  function Promoted(e: Etas, q: set<Job>, now: Time): Etas {
    map j | j in e :: if j in q && e[j] <= now then 0.0 else e[j]
  }

  ghost function Ready(e: Etas, q: set<Job>): set<Job> {
    set j | j in q && EtaOf(e, j) == 0.0
  }

  ghost function Waiting(e: Etas, q: set<Job>): set<Job> {
    set j | j in q && EtaOf(e, j) != 0.0
  }

  ghost predicate Least(s: set<Job>, j: Job) {
    j in s && forall x | x in s :: !KeyLess(x.key, j.key)
  }

  ghost predicate EtaLeast(e: Etas, s: set<Job>, j: Job) {
    j in s && forall x | x in s :: !EtaLess(e, x, j)
  }

  /** The waiting job whose ETA comes first would go before every ready job. */
  ghost predicate HeldBack(e: Etas, q: set<Job>) {
    exists w, r | w in q && r in q :: EtaLeast(e, Waiting(e, q), w) && Least(Ready(e, q), r) && KeyLess(w.key, r.key)
  }

  /** What a queue may return once the jobs whose ETA is past have lost it. */
  ghost predicate Pops(sequential: bool, e: Etas, q: set<Job>, r: Option<Job>) {
    match r
    case None => Ready(e, q) == {} || (sequential && HeldBack(e, q))
    case Some(j) => Least(Ready(e, q), j) && !(sequential && HeldBack(e, q))
  }

  /** Jobs with an ETA wait in their home channel only. */
  ghost predicate WaitAtHome(e: Etas, q: set<Job>, c: nat) {
    forall j | j in q :: j in e && (e[j] == 0.0 || j.channel == c)
  }

  // ---------------------------------------------------------------- job transitions

  function RemoveAt(ch: Chan, j: Job): Chan {
    Chan(ch.queue - {j}, ch.running - {j}, ch.failed - {j}, ch.pauseUntil)
  }

  function PendAt(ch: Chan, j: Job): Chan {
    Chan(ch.queue + {j}, ch.running - {j}, ch.failed - {j}, ch.pauseUntil)
  }

  function RunAt(ch: Chan, j: Job): Chan {
    Chan(ch.queue - {j}, ch.running + {j}, ch.failed - {j}, ch.pauseUntil)
  }

  function FailAt(ch: Chan, j: Job): Chan {
    Chan(ch.queue - {j}, ch.running - {j}, ch.failed + {j}, ch.pauseUntil)
  }

  /** The job leaves channel c and all channels above it. */
  ghost function Remove(t: seq<Config>, s: seq<Chan>, c: int, j: Job): (r: seq<Chan>)
    requires At(t, s, c)
    ensures |r| == |s|
    decreases c + 1
  {
    if c == -1 then s else Remove(t, s[c := RemoveAt(s[c], j)], t[c].parent, j)
  }

  ghost function SetPending(t: seq<Config>, s: seq<Chan>, c: int, j: Job): (r: seq<Chan>)
    requires At(t, s, c) && c >= 0
    ensures |r| == |s|
  {
    if j in s[c].queue then s else Remove(t, s[c := PendAt(s[c], j)], t[c].parent, j)
  }

  ghost function SetRunning(t: seq<Config>, s: seq<Chan>, c: int, j: Job): (r: seq<Chan>)
    requires At(t, s, c)
    ensures |r| == |s|
    decreases c + 1
  {
    if c == -1 || j in s[c].running then s else SetRunning(t, s[c := RunAt(s[c], j)], t[c].parent, j)
  }

  ghost function SetFailed(t: seq<Config>, s: seq<Chan>, c: int, j: Job): (r: seq<Chan>)
    requires At(t, s, c) && c >= 0
    ensures |r| == |s|
  {
    if j in s[c].failed then s else Remove(t, s[c := FailAt(s[c], j)], t[c].parent, j)
  }

  // ---------------------------------------------------------------- one scheduling pass

  predicate HasCapacity(cfg: Config, ch: Chan) {
    if cfg.sequential && ch.failed != {} then false
    else cfg.capacity == 0 || |ch.running| < cfg.capacity
  }

  predicate Paused(cfg: Config, ch: Chan, now: Time) {
    cfg.throttle != 0.0 && ch.pauseUntil != 0.0 && now < ch.pauseUntil
  }

  /** Whether the pass looks at the queue of the channel at all. */
  predicate Polls(cfg: Config, ch: Chan, now: Time) {
    !Paused(cfg, ch, now) && HasCapacity(cfg, ch)
  }

  ghost function Set(out: seq<Job>): set<Job> {
    set j | j in out
  }

  /** The channel once the jobs of `out` have gone from its queue to its running set. */
  ghost function After(ch: Chan, out: seq<Job>): Chan {
    ch.(queue := ch.queue - Set(out), running := ch.running + Set(out))
  }

  /** The channel once the jobs have entered its queue. */
  ghost function Joined(ch: Chan, jobs: seq<Job>): Chan {
    ch.(queue := ch.queue + Set(jobs))
  }

  /** The i-th job yielded: there was capacity for it, and it is what the queue may return then. */
  ghost predicate Takes(cfg: Config, e: Etas, ch: Chan, out: seq<Job>, i: nat)
    requires i < |out|
  {
    && HasCapacity(cfg, After(ch, out[..i]))
    && Pops(cfg.sequential, e, After(ch, out[..i]).queue, Some(out[i]))
    && (cfg.throttle != 0.0 ==> i == 0)
  }

  /** A channel that is not paused may yield `out`, in this order; `e` has the ETAs once promoted. */
  ghost predicate Drains(cfg: Config, e: Etas, ch: Chan, out: seq<Job>) {
    && (forall i | 0 <= i < |out| :: Takes(cfg, e, ch, out, i))
    && (|| !HasCapacity(cfg, After(ch, out))
        || (cfg.throttle != 0.0 && out != [])
        || Pops(cfg.sequential, e, After(ch, out).queue, None))
  }

  /** The channel after a pass in which it yielded `out`. */
  ghost function Drained(cfg: Config, ch: Chan, now: Time, out: seq<Job>): Chan {
    if Paused(cfg, ch, now) then ch
    else
      After(ch, out).(pauseUntil :=
        if cfg.throttle == 0.0 then ch.pauseUntil else if out == [] then 0.0 else now + cfg.throttle)
  }

  /** The pass at one channel whose queue already holds what its children yielded. */
  ghost predicate Yields(cfg: Config, e: Etas, ch: Chan, now: Time, out: seq<Job>) {
    if Paused(cfg, ch, now) then out == [] else Drains(cfg, e, ch, out)
  }

  ghost function Inflow(t: seq<Config>, outs: seq<seq<Job>>, c: int): set<Job>
    requires |outs| == |t|
  {
    set d, j | 0 <= d < |t| && t[d].parent == c && j in outs[d] :: j
  }

  ghost function Filled(t: seq<Config>, s: seq<Chan>, outs: seq<seq<Job>>, c: int): Chan
    requires |t| == |s| == |outs| && 0 <= c < |t|
  {
    s[c].(queue := s[c].queue + Inflow(t, outs, c))
  }

  /** What a pass does to the ETAs: a job is promoted in its home channel only. */
  ghost function EtasAfter(t: seq<Config>, s: seq<Chan>, e: Etas, now: Time): Etas
    requires |t| == |s|
  {
    map j | j in e ::
      if j.channel < |t| && Polls(t[j.channel], s[j.channel], now) && j in s[j.channel].queue && e[j] <= now
      then 0.0 else e[j]
  }

  ghost predicate PassAt(t: seq<Config>, s: seq<Chan>, now: Time, s': seq<Chan>, e': Etas, outs: seq<seq<Job>>, c: int)
    requires |t| == |s| == |s'| == |outs| && 0 <= c < |t|
  {
    && Yields(t[c], e', Filled(t, s, outs, c), now, outs[c])
    && s'[c] == Drained(t[c], Filled(t, s, outs, c), now, outs[c])
  }

  /** A full pass: `outs[c]` is what channel c yields, and the root's part is handed out. */
  ghost predicate Pass(t: seq<Config>, a: Sched, now: Time, b: Sched, outs: seq<seq<Job>>) {
    && |t| == |a.ch| == |b.ch| == |outs|
    && b.eta == EtasAfter(t, a.ch, a.eta, now)
    && forall c | 0 <= c < |t| :: PassAt(t, a.ch, now, b.ch, b.eta, outs, c)
  }

  // ---------------------------------------------------------------- the next wakeup

  ghost function WaitTimes(e: Etas, q: set<Job>): set<Time> {
    set j | j in Waiting(e, q) :: EtaOf(e, j)
  }

  /** The times at which channel c and the channels that flow into it ask to be woken up. */
  ghost function Asks(t: seq<Config>, s: seq<Chan>, e: Etas, c: nat): set<Time>
    requires |t| == |s| && c < |t|
    decreases |t| - c
  {
    if !HasCapacity(t[c], s[c]) then {}
    else if s[c].pauseUntil != 0.0 then {s[c].pauseUntil}
    else
      WaitTimes(e, s[c].queue) + set d, x | c < d < |t| && t[d].parent == c && x in Asks(t, s, e, d) :: x
  }

  /** 0.0 is no time at all. */
  function Given(w: Time): set<Time> {
    if w == 0.0 then {} else {w}
  }

  ghost predicate Soonest(s: set<Time>, w: Time) {
    if s == {} then w == 0.0 else w in s && forall x | x in s :: w <= x
  }
}
