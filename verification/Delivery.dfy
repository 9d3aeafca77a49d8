/**
 The delivery protocol: attempts table, sorted set and payload hash, kept consistent by ordered
 writes alone. Every Redis command, SQL statement and SQL commit is one step; between any two
 steps any other thread may run, a thread may crash, and a command may fail before or after
 taking effect.
 */
module Delivery {
  import opened Common
  import opened TaskQueue
  import opened Attempts
  import Paths

  type Pid = nat

  /** constants.TaskQueuePreScheduleTimeWindow and TaskQueueVisibilityTimeout, in milliseconds. */
  const PRE_SCHEDULE := 180_000
  const VISIBILITY: nat := 65_000

  /** Retry delays in seconds, per endpoint. */
  type Retry = Id -> seq<nat>

  /** One thread of control, named after the write it performs next. */
  datatype Proc =
    | Scheduling(tasks: seq<NewTask>, cancels: seq<Id>, task: Option<Id>)   // HSET of ScheduleAttempts
    | Enqueuing(tasks: seq<NewTask>, cancels: seq<Id>, task: Option<Id>)    // ZADD of ScheduleAttempts
    | Marking(ids: set<Id>, cancels: seq<Id>, task: Option<Id>)             // status update, or requeue commit
    | Fetching(claimed: seq<Task>)                                          // submitTask of the tasks claimed
    | Running(id: Id, data: Option<Payload>)                                // handleTask up to the HTTP request
    | Delivered(id: Id, payload: Payload, ok: bool, exhausted: bool, finishAt: int)  // UpdateDelivery
    | Retrying(id: Id, payload: Payload, finishAt: int)                     // Insert of the next attempt
    | Dropping(id: Id)                                                      // HDEL of DeleteTask
    | Removing(id: Id)                                                      // ZREM of DeleteTask

  /** History: what became of each handling of a task. */
  datatype Outcome =
    | Sent(id: Id, ok: bool, exhausted: bool, finishAt: int)          // request sent
    | Recorded(id: Id, ok: bool, exhausted: bool, finishAt: int)      // its result written to the row
    | Dropped(id: Id)                                                 // canceled without a request

  /** History: why a row exists. */
  datatype Origin = Root | RetryOf(parent: Id, finishAt: int)

  datatype State = State(rows: Rows, queue: Queue, procs: map<Pid, Proc>, clock: int,
                         log: seq<Outcome>, origin: map<Id, Origin>)

  datatype Step =
    | Tick(to: int)
    | Crash(pid: Pid)
    | Dispatch(pid: Pid, targets: map<Id, (Id, Id)>, tasks: seq<NewTask>)
    | Pick(pid: Pid, batch: set<Id>, cancels: seq<Id>, tasks: seq<NewTask>)
    | HSetStep(pid: Pid, applied: bool, ok: bool)
    | ZAddStep(pid: Pid, applied: bool, ok: bool)
    | MarkStep(pid: Pid, applied: bool, ok: bool)
    | Fetch(pid: Pid, count: int)
    | Submit(pid: Pid, worker: Pid)
    | Reject(pid: Pid, applied: bool)
    | BadPayload(pid: Pid)
    | RateLimit(pid: Pid, period: nat, applied: bool)
    | Cancel(pid: Pid, applied: bool, ok: bool)
    | Deliver(pid: Pid, is2xx: bool, denied: bool)
    | Write(pid: Pid, applied: bool, ok: bool)
    | Retry(pid: Pid, id: Id, applied: bool, ok: bool, tasks: seq<NewTask>)
    | HDelStep(pid: Pid, applied: bool)
    | ZRemStep(pid: Pid, applied: bool)

  // ------------------------------------------------------------------ the step relation

  /** The task list ScheduleAttempts builds: the batch members due before now plus the pre-schedule window. */
  ghost predicate TasksFor(rows: Rows, batch: set<Id>, now: int, tasks: seq<NewTask>)
  {
    && batch <= rows.Keys
    && (forall t :: t in tasks ==> t.id in batch && t == TaskOf(t.id, rows[t.id]))
    && TaskIds(tasks) == set id | id in batch && rows[id].scheduledAt < now + PRE_SCHEDULE
  }

  /** ScheduleAttempts returns at once when it has no task. */
  function Start(tasks: seq<NewTask>, cancels: seq<Id>, task: Option<Id>): Proc
  {
    if tasks == [] then Marking({}, cancels, task) else Scheduling(tasks, cancels, task)
  }

  function NewRows(targets: map<Id, (Id, Id)>, retry: Retry, now: int): Rows
    requires forall id :: id in targets ==> retry(targets[id].1) != []
  {
    map id | id in targets ::
      Row(targets[id].0, targets[id].1, 1, now + 1000 * retry(targets[id].1)[0], Init, false)
  }

  function Next(payload: Payload, finishAt: int, delay: nat): Row
  {
    Row(payload.event, payload.endpoint, payload.number + 1, finishAt + 1000 * delay, Init, false)
  }

  /** A finished thread goes on to DeleteTask when it was handling a task. */
  function Finish(procs: map<Pid, Proc>, pid: Pid, task: Option<Id>): map<Pid, Proc>
  {
    if task.Some? then procs[pid := Dropping(task.value)] else procs - {pid}
  }

  function CancelLog(ids: seq<Id>): seq<Outcome> { seq(|ids|, i requires 0 <= i < |ids| => Dropped(ids[i])) }

  /**
   The bound on the retry list's index in Retry is no restriction: RetryChain.RetryIndexInRange shows that it always
   holds.
   */
  ghost predicate Enabled(retry: Retry, s: State, step: Step)
  {
    match step
    case Tick(to) => to >= s.clock
    case Crash(pid) => pid in s.procs
    case Dispatch(pid, targets, tasks) =>
      && pid !in s.procs && targets.Keys !! s.rows.Keys
      && (forall id :: id in targets ==> retry(targets[id].1) != [])
      && TasksFor(s.rows + NewRows(targets, retry, s.clock), targets.Keys, s.clock, tasks)
    case Pick(pid, batch, cancels, tasks) =>
      && pid !in s.procs && Distinct(cancels)
      && (forall id :: id in batch ==> id in s.rows && s.rows[id].status == Init)
      && (forall id :: id in cancels ==> id in s.rows && s.rows[id].status == Init)
      && TasksFor(s.rows, batch, s.clock, tasks)
    case HSetStep(pid, applied, ok) => pid in s.procs && s.procs[pid].Scheduling? && (ok ==> applied)
    case ZAddStep(pid, applied, ok) => pid in s.procs && s.procs[pid].Enqueuing? && (ok ==> applied)
    case MarkStep(pid, applied, ok) => pid in s.procs && s.procs[pid].Marking? && (ok ==> applied)
    case Fetch(pid, count) => pid !in s.procs
    case Submit(pid, worker) =>
      pid in s.procs && s.procs[pid].Fetching? && s.procs[pid].claimed != [] && worker !in s.procs
    case Reject(pid, applied) => pid in s.procs && s.procs[pid].Fetching? && s.procs[pid].claimed != []
    case BadPayload(pid) => pid in s.procs && s.procs[pid].Running? && s.procs[pid].data.None?
    case RateLimit(pid, _, _) => pid in s.procs && s.procs[pid].Running? && s.procs[pid].data.Some?
    case Cancel(pid, applied, ok) =>
      pid in s.procs && s.procs[pid].Running? && s.procs[pid].data.Some? && (ok ==> applied)
    case Deliver(pid, _, _) => pid in s.procs && s.procs[pid].Running? && s.procs[pid].data.Some?
    case Write(pid, applied, ok) => pid in s.procs && s.procs[pid].Delivered? && (ok ==> applied)
    case Retry(pid, id, applied, ok, tasks) =>
      && pid in s.procs && s.procs[pid].Retrying? && (ok ==> applied) && id !in s.rows
      && var p := s.procs[pid];
         && p.payload.number < |retry(p.payload.endpoint)|
         && var row := Next(p.payload, p.finishAt, retry(p.payload.endpoint)[p.payload.number]);
            TasksFor(s.rows[id := row], {id}, s.clock, tasks)
    case HDelStep(pid, _) => pid in s.procs && s.procs[pid].Dropping?
    case ZRemStep(pid, _) => pid in s.procs && s.procs[pid].Removing?
  }

  ghost function Exec(retry: Retry, s: State, step: Step): State
    requires Enabled(retry, s, step)
  {
    match step
    case Tick(to) => s.(clock := to)
    case Crash(pid) => s.(procs := s.procs - {pid})
    case Dispatch(pid, targets, tasks) =>
      s.(rows := s.rows + NewRows(targets, retry, s.clock),
         origin := s.origin + map id | id in targets :: Root,
         procs := s.procs[pid := Start(tasks, [], None)])
    case Pick(pid, batch, cancels, tasks) =>
      s.(procs := s.procs[pid := Start(tasks, cancels, None)])
    case HSetStep(pid, applied, ok) =>
      var p := s.procs[pid];
      s.(queue := if applied then HSet(s.queue, p.tasks) else s.queue,
         procs := s.procs[pid := if ok then Enqueuing(p.tasks, p.cancels, p.task) else Marking({}, p.cancels, p.task)])
    case ZAddStep(pid, applied, ok) =>
      var p := s.procs[pid];
      s.(queue := if applied then ZAdd(s.queue, p.tasks) else s.queue,
         procs := s.procs[pid := Marking(if ok then TaskIds(p.tasks) else {}, p.cancels, p.task)])
    case MarkStep(pid, applied, _) =>
      var p := s.procs[pid];
      s.(rows := if applied then UpdateStatusToQueued(CancelAll(s.rows, p.cancels), p.ids) else s.rows,
         log := if applied then s.log + CancelLog(p.cancels) else s.log,
         procs := Finish(s.procs, pid, p.task))
    case Fetch(pid, count) =>
      var ids := GetIds(s.queue, s.clock, count);
      s.(queue := Claimed(s.queue, ids, s.clock + VISIBILITY),
         procs := s.procs[pid := Fetching(seq(|ids|, i requires 0 <= i < |ids| => Fetched(s.queue, ids[i])))])
    case Submit(pid, worker) =>
      var t := s.procs[pid].claimed[0];
      s.(procs := s.procs[pid := Fetching(s.procs[pid].claimed[1..])][worker := Running(t.id, t.payload)])
    case Reject(pid, applied) =>
      var t := s.procs[pid].claimed[0];
      s.(queue := if applied then Schedule(s.queue, t.id, t.score) else s.queue,
         procs := s.procs[pid := Fetching(s.procs[pid].claimed[1..])])
    case BadPayload(pid) => s.(procs := s.procs[pid := Dropping(s.procs[pid].id)])
    case RateLimit(pid, period, applied) =>
      s.(queue := if applied then Schedule(s.queue, s.procs[pid].id, s.clock + 1000 * period) else s.queue,
         procs := s.procs - {pid})
    case Cancel(pid, applied, ok) =>
      var id := s.procs[pid].id;
      s.(rows := if applied then UpdateErrorCode(s.rows, id, Canceled) else s.rows,
         log := if applied then s.log + [Dropped(id)] else s.log,
         procs := if ok then s.procs[pid := Dropping(id)] else s.procs - {pid})
    case Deliver(pid, is2xx, denied) =>
      var p := s.procs[pid];
      var exhausted := denied || p.data.value.number >= |retry(p.data.value.endpoint)|;
      s.(log := s.log + [Sent(p.id, is2xx, exhausted, s.clock)],
         procs := s.procs[pid := Delivered(p.id, p.data.value, is2xx, exhausted, s.clock)])
    case Write(pid, applied, ok) =>
      var p := s.procs[pid];
      var status := if p.ok then Successful else Failed;
      s.(rows := if applied then UpdateDelivery(s.rows, p.id, status, p.exhausted) else s.rows,
         log := if applied then s.log + [Recorded(p.id, p.ok, p.exhausted, p.finishAt)] else s.log,
         procs := if !ok then s.procs - {pid}
                  else if p.ok || p.exhausted then s.procs[pid := Dropping(p.id)]
                  else s.procs[pid := Retrying(p.id, p.payload, p.finishAt)])
    case Retry(pid, id, applied, ok, tasks) =>
      var p := s.procs[pid];
      var row := Next(p.payload, p.finishAt, retry(p.payload.endpoint)[p.payload.number]);
      s.(rows := if applied then s.rows[id := row] else s.rows,
         origin := if applied then s.origin[id := RetryOf(p.id, p.finishAt)] else s.origin,
         procs := if ok then s.procs[pid := Start(tasks, [], Some(p.id))] else s.procs - {pid})
    case HDelStep(pid, applied) =>
      s.(queue := if applied then HDel(s.queue, {s.procs[pid].id}) else s.queue,
         procs := s.procs[pid := Removing(s.procs[pid].id)])
    case ZRemStep(pid, applied) =>
      s.(queue := if applied then ZRem(s.queue, {s.procs[pid].id}) else s.queue,
         procs := s.procs - {pid})
  }

  ghost function Machine(retry: Retry): (State, Step) -> Option<State>
  {
    (s, step) => if Enabled(retry, s, step) then Some(Exec(retry, s, step)) else None
  }

  const EMPTY := State(map[], Queue(map[], map[]), map[], 0, [], map[])

  /** A run: states linked by enabled steps, from the empty system. */
  ghost predicate Run(retry: Retry, states: seq<State>, steps: seq<Step>)
  {
    Paths.Trace(Machine(retry), states, steps) && states[0] == EMPTY
  }

  lemma RunStep(retry: Retry, states: seq<State>, steps: seq<Step>, i: nat)
    requires Run(retry, states, steps) && i < |steps|
    ensures Enabled(retry, states[i], steps[i]) && states[i + 1] == Exec(retry, states[i], steps[i])
  {
    assert Machine(retry)(states[i], steps[i]) == Some(states[i + 1]);
  }

  // ------------------------------------------------------------------ the invariant

  ghost predicate HasData(s: State, id: Id) { Terminal(s.rows, id) || id in s.queue.data }

  ghost predicate InQueue(s: State, id: Id) { Terminal(s.rows, id) || (id in s.queue.data && id in s.queue.scores) }

  ghost predicate TasksOk(s: State, tasks: seq<NewTask>)
  {
    forall t :: t in tasks ==> t.id in s.rows && t.payload == PayloadOf(s.rows[t.id])
  }

  /** A claimed task carries the row's own payload; it carries none only once the row is terminal. */
  ghost predicate ClaimOk(s: State, id: Id, payload: Option<Payload>)
  {
    && id in s.rows && HasData(s, id)
    && (payload.None? ==> Terminal(s.rows, id))
    && (payload.Some? ==> payload.value == PayloadOf(s.rows[id]))
  }

  ghost predicate Handled(s: State, task: Option<Id>) { task.Some? ==> Terminal(s.rows, task.value) }

  ghost predicate ProcOk(s: State, p: Proc)
  {
    match p
    case Scheduling(tasks, _, task) => TasksOk(s, tasks) && Handled(s, task)
    case Enqueuing(tasks, _, task) =>
      TasksOk(s, tasks) && Handled(s, task) && forall t :: t in tasks ==> HasData(s, t.id)
    case Marking(ids, _, task) => Handled(s, task) && forall id :: id in ids ==> id in s.rows && InQueue(s, id)
    case Fetching(tasks) => forall t :: t in tasks ==> ClaimOk(s, t.id, t.payload)
    case Running(id, payload) => ClaimOk(s, id, payload)
    case Delivered(id, payload, _, _, _) => ClaimOk(s, id, Some(payload))
    case Retrying(id, payload, _) => ClaimOk(s, id, Some(payload)) && Terminal(s.rows, id)
    case Dropping(id) => Terminal(s.rows, id)
    case Removing(id) => Terminal(s.rows, id)
  }

  ghost predicate StoresOk(s: State)
  {
    && s.queue.scores.Keys <= s.rows.Keys && s.queue.data.Keys <= s.rows.Keys
    && (forall id :: id in s.queue.data ==> s.queue.data[id] == PayloadOf(s.rows[id]))
    && (forall id :: id in s.queue.scores ==> HasData(s, id))
    && (forall id :: id in s.rows && s.rows[id].status == Queued ==> InQueue(s, id))
  }

  ghost predicate Inv(s: State)
  {
    && StoresOk(s)
    && forall pid :: pid in s.procs ==> ProcOk(s, s.procs[pid])
  }

  /** What one step may do to rows and queue: rows keep their identity, terminal rows stay terminal,
      and the queue forgets terminal attempts only. */
  ghost predicate Evolves(s: State, t: State)
  {
    && s.rows.Keys <= t.rows.Keys
    && (forall id :: id in s.rows ==> PayloadOf(t.rows[id]) == PayloadOf(s.rows[id]))
    && (forall id :: id in s.rows ==> t.rows[id].scheduledAt == s.rows[id].scheduledAt)
    && (forall id :: id in s.rows && Terminal(s.rows, id) ==> Terminal(t.rows, id))
    && (forall id :: id in s.rows && id in s.queue.data && !Terminal(t.rows, id) ==> id in t.queue.data)
    && (forall id :: id in s.rows && id in s.queue.scores && !Terminal(t.rows, id) ==> id in t.queue.scores)
  }

  lemma ProcOkStable(s: State, t: State, p: Proc)
    requires Evolves(s, t) && ProcOk(s, p)
    requires s.queue.data.Keys <= s.rows.Keys && s.queue.scores.Keys <= s.rows.Keys
    ensures ProcOk(t, p)
  {
    assert forall id :: id in s.rows && HasData(s, id) ==> HasData(t, id);
    assert forall id :: id in s.rows && InQueue(s, id) ==> InQueue(t, id);
  }

  // One lemma per kind of store change.

  ghost predicate Advances(s: State, t: State) { Evolves(s, t) && StoresOk(t) }

  lemma RowsAdded(s: State, t: State)
    requires StoresOk(s) && t.queue == s.queue && s.rows.Keys <= t.rows.Keys
    requires forall id :: id in s.rows ==> t.rows[id] == s.rows[id]
    requires forall id :: id in t.rows && id !in s.rows ==> t.rows[id].status == Init
    ensures Advances(s, t)
  {
  }

  lemma RowsUpdated(s: State, t: State)
    requires StoresOk(s) && t.queue == s.queue && s.rows.Keys == t.rows.Keys
    requires forall id :: id in s.rows ==> PayloadOf(t.rows[id]) == PayloadOf(s.rows[id])
    requires forall id :: id in s.rows ==> t.rows[id].scheduledAt == s.rows[id].scheduledAt
    requires forall id :: id in s.rows ==>
      || t.rows[id].status == s.rows[id].status
      || Done(t.rows[id].status)
      || (s.rows[id].status == Init && t.rows[id].status == Queued && InQueue(s, id))
    ensures Advances(s, t)
  {
  }

  lemma PayloadsAdded(s: State, t: State, tasks: seq<NewTask>)
    requires StoresOk(s) && t.rows == s.rows && t.queue == HSet(s.queue, tasks) && TasksOk(s, tasks)
    ensures Advances(s, t)
  {
    HSetKeys(s.queue, tasks);
  }

  lemma ScoresSet(s: State, t: State)
    requires StoresOk(s) && t.rows == s.rows && t.queue.data == s.queue.data
    requires s.queue.scores.Keys <= t.queue.scores.Keys
    requires forall id :: id in t.queue.scores && id !in s.queue.scores ==> id in s.rows && HasData(s, id)
    ensures Advances(s, t)
  {
  }

  lemma TaskRemoved(s: State, t: State, id: Id)
    requires StoresOk(s) && t.rows == s.rows && Terminal(s.rows, id)
    requires t.queue == HDel(s.queue, {id}) || t.queue == ZRem(s.queue, {id})
    ensures Advances(s, t)
  {
  }

  lemma EnqueueStores(retry: Retry, s: State, step: Step)
    requires Inv(s) && Enabled(retry, s, step) && (step.HSetStep? || step.ZAddStep?)
    ensures Advances(s, Exec(retry, s, step))
  {
    var t := Exec(retry, s, step);
    assert ProcOk(s, s.procs[step.pid]);
    if !step.applied {
      ScoresSet(s, t);
    } else if step.HSetStep? {
      PayloadsAdded(s, t, s.procs[step.pid].tasks);
    } else {
      ZAddKeys(s.queue, s.procs[step.pid].tasks);
      ScoresSet(s, t);
    }
  }

  lemma NewAreInit(retry: Retry, s: State, step: Step)
    requires Enabled(retry, s, step) && (step.Dispatch? || step.Retry? || step.Pick?)
    ensures var t := Exec(retry, s, step);
            && t.queue == s.queue && s.rows.Keys <= t.rows.Keys
            && (forall id :: id in s.rows ==> t.rows[id] == s.rows[id])
            && (forall id :: id in t.rows && id !in s.rows ==> t.rows[id].status == Init)
  {
  }

  /** Every step of a scheduler evolves the stores and keeps them consistent. */
  lemma SchedulerStores(retry: Retry, s: State, step: Step)
    requires Inv(s) && Enabled(retry, s, step)
    requires IsScheduling(step)
    ensures Advances(s, Exec(retry, s, step))
  {
    var t := Exec(retry, s, step);
    if step.Dispatch? || step.Retry? || step.Pick? {
      NewAreInit(retry, s, step);
      RowsAdded(s, t);
    } else if step.MarkStep? {
      assert ProcOk(s, s.procs[step.pid]);
      RowsUpdated(s, t);
    } else {
      EnqueueStores(retry, s, step);
    }
  }

  lemma ResultStores(retry: Retry, s: State, step: Step)
    requires Inv(s) && Enabled(retry, s, step) && (step.Cancel? || step.Write?)
    ensures Advances(s, Exec(retry, s, step))
  {
    assert ProcOk(s, s.procs[step.pid]);
    RowsUpdated(s, Exec(retry, s, step));
  }

  /** Every step of a worker, the clock and the crashes likewise. */
  lemma WorkerStores(retry: Retry, s: State, step: Step)
    requires Inv(s) && Enabled(retry, s, step)
    requires !IsScheduling(step)
    ensures Advances(s, Exec(retry, s, step))
  {
    var t := Exec(retry, s, step);
    if step.Cancel? || step.Write? {
      ResultStores(retry, s, step);
    } else if (step.HDelStep? || step.ZRemStep?) && step.applied {
      assert ProcOk(s, s.procs[step.pid]);
      TaskRemoved(s, t, s.procs[step.pid].id);
    } else {
      if step.Reject? || step.RateLimit? { assert ProcOk(s, s.procs[step.pid]); }
      ScoresSet(s, t);
    }
  }

  lemma RetryProcs(retry: Retry, s: State, step: Step)
    requires Inv(s) && Enabled(retry, s, step) && Advances(s, Exec(retry, s, step))
    requires step.Retry? && step.pid in Exec(retry, s, step).procs
    ensures ProcOk(Exec(retry, s, step), Exec(retry, s, step).procs[step.pid])
  {
    ProcOkStable(s, Exec(retry, s, step), s.procs[step.pid]);
  }

  lemma StartProcs(retry: Retry, s: State, step: Step)
    requires Inv(s) && Enabled(retry, s, step) && Advances(s, Exec(retry, s, step))
    requires (step.Dispatch? || step.Pick? || step.Retry?) && step.pid in Exec(retry, s, step).procs
    ensures ProcOk(Exec(retry, s, step), Exec(retry, s, step).procs[step.pid])
  {
    if step.Retry? { RetryProcs(retry, s, step); }
  }

  lemma EnqueueProcs(retry: Retry, s: State, step: Step)
    requires Inv(s) && Enabled(retry, s, step) && Advances(s, Exec(retry, s, step))
    requires (step.HSetStep? || step.ZAddStep?) && step.pid in Exec(retry, s, step).procs
    ensures ProcOk(Exec(retry, s, step), Exec(retry, s, step).procs[step.pid])
  {
    ProcOkStable(s, Exec(retry, s, step), s.procs[step.pid]);
    if step.HSetStep? {
      HSetKeys(s.queue, s.procs[step.pid].tasks);
    } else {
      ZAddKeys(s.queue, s.procs[step.pid].tasks);
    }
  }

  /** The threads a scheduler's step moves are left in order. */
  lemma SchedulerProcs(retry: Retry, s: State, step: Step)
    requires Inv(s) && Enabled(retry, s, step) && Advances(s, Exec(retry, s, step))
    requires IsScheduling(step)
    requires step.pid in Exec(retry, s, step).procs
    ensures ProcOk(Exec(retry, s, step), Exec(retry, s, step).procs[step.pid])
  {
    if step.MarkStep? {
      ProcOkStable(s, Exec(retry, s, step), s.procs[step.pid]);
    } else if step.HSetStep? || step.ZAddStep? {
      EnqueueProcs(retry, s, step);
    } else {
      StartProcs(retry, s, step);
    }
  }

  lemma ClaimProcs(retry: Retry, s: State, step: Step)
    requires Inv(s) && Enabled(retry, s, step) && Advances(s, Exec(retry, s, step))
    requires (step.Reject? || step.Submit? || step.Fetch?) && step.pid in Exec(retry, s, step).procs
    ensures ProcOk(Exec(retry, s, step), Exec(retry, s, step).procs[step.pid])
    ensures step.Submit? ==> ProcOk(Exec(retry, s, step), Exec(retry, s, step).procs[step.worker])
  {
    if step.pid in s.procs { ProcOkStable(s, Exec(retry, s, step), s.procs[step.pid]); }
    if step.Submit? {
      assert s.procs[step.pid].claimed[0] in s.procs[step.pid].claimed;
    }
  }

  lemma ResultProcs(retry: Retry, s: State, step: Step)
    requires Inv(s) && Enabled(retry, s, step) && Advances(s, Exec(retry, s, step))
    requires step.Cancel? || step.Write?
    requires step.pid in Exec(retry, s, step).procs
    ensures ProcOk(Exec(retry, s, step), Exec(retry, s, step).procs[step.pid])
  {
    ProcOkStable(s, Exec(retry, s, step), s.procs[step.pid]);
  }

  lemma PhaseProcs(retry: Retry, s: State, step: Step)
    requires Inv(s) && Enabled(retry, s, step) && Advances(s, Exec(retry, s, step))
    requires step.BadPayload? || step.Deliver? || step.HDelStep?
    ensures step.pid in Exec(retry, s, step).procs
    ensures ProcOk(Exec(retry, s, step), Exec(retry, s, step).procs[step.pid])
  {
    ProcOkStable(s, Exec(retry, s, step), s.procs[step.pid]);
  }

  /** The threads a worker's step moves are left in order. */
  lemma WorkerProcs(retry: Retry, s: State, step: Step)
    requires Inv(s) && Enabled(retry, s, step) && Advances(s, Exec(retry, s, step))
    requires step.Cancel? || step.Write? || step.BadPayload? || step.Deliver? || step.Reject? || step.HDelStep?
      || step.Submit? || step.Fetch?
    requires step.pid in Exec(retry, s, step).procs
    ensures ProcOk(Exec(retry, s, step), Exec(retry, s, step).procs[step.pid])
    ensures step.Submit? ==> ProcOk(Exec(retry, s, step), Exec(retry, s, step).procs[step.worker])
  {
    if step.Reject? || step.Submit? || step.Fetch? {
      ClaimProcs(retry, s, step);
    } else if step.Cancel? || step.Write? {
      ResultProcs(retry, s, step);
    } else {
      PhaseProcs(retry, s, step);
    }
  }

  predicate IsScheduling(step: Step)
  {
    step.Dispatch? || step.Pick? || step.HSetStep? || step.ZAddStep? || step.MarkStep? || step.Retry?
  }

  /** The threads a step may start, move or end. */
  predicate Moves(step: Step, pid: Pid) { !step.Tick? && (pid == step.pid || (step.Submit? && pid == step.worker)) }

  lemma OthersStay(retry: Retry, s: State, step: Step, pid: Pid)
    requires Enabled(retry, s, step) && pid in Exec(retry, s, step).procs && !Moves(step, pid)
    ensures pid in s.procs && Exec(retry, s, step).procs[pid] == s.procs[pid]
  {
  }

  lemma SomeEnd(retry: Retry, s: State, step: Step)
    requires Enabled(retry, s, step) && (step.Crash? || step.RateLimit? || step.ZRemStep?)
    ensures step.pid !in Exec(retry, s, step).procs
  {
  }

  lemma StepProcs(retry: Retry, s: State, step: Step, pid: Pid)
    requires Inv(s) && Enabled(retry, s, step) && Advances(s, Exec(retry, s, step)) && pid in Exec(retry, s, step).procs
    ensures ProcOk(Exec(retry, s, step), Exec(retry, s, step).procs[pid])
  {
    if !Moves(step, pid) {
      OthersStay(retry, s, step, pid);
      ProcOkStable(s, Exec(retry, s, step), s.procs[pid]);
    } else if IsScheduling(step) {
      SchedulerProcs(retry, s, step);
    } else {
      if step.Crash? || step.RateLimit? || step.ZRemStep? { SomeEnd(retry, s, step); }
      WorkerProcs(retry, s, step);
    }
  }

  lemma StepKeepsInv(retry: Retry, s: State, step: Step)
    requires Inv(s) && Enabled(retry, s, step)
    ensures Inv(Exec(retry, s, step)) && Evolves(s, Exec(retry, s, step))
  {
    var t := Exec(retry, s, step);
    if IsScheduling(step) { SchedulerStores(retry, s, step); } else { WorkerStores(retry, s, step); }
    forall pid | pid in t.procs ensures ProcOk(t, t.procs[pid]) { StepProcs(retry, s, step, pid); }
  }

  // ------------------------------------------------------------------ theorems over whole runs

  lemma {:induction false} RunKeepsInv(retry: Retry, states: seq<State>, steps: seq<Step>, i: nat)
    requires Run(retry, states, steps) && i < |states|
    ensures Inv(states[i])
  {
    if i > 0 {
      RunKeepsInv(retry, states, steps, i - 1);
      RunStep(retry, states, steps, i - 1);
      StepKeepsInv(retry, states[i - 1], steps[i - 1]);
    }
  }

  /**
   No attempt is lost: one that is not finished is still INIT, where the requeue scan finds it, or is queued with its
   payload.
   */
  lemma NoAttemptLost(retry: Retry, states: seq<State>, steps: seq<Step>, i: nat, id: Id)
    requires Run(retry, states, steps) && i < |states|
    requires id in states[i].rows && !Terminal(states[i].rows, id)
    ensures || states[i].rows[id].status == Init
            || (&& id in states[i].queue.scores && id in states[i].queue.data
                && states[i].queue.data[id] == PayloadOf(states[i].rows[id]))
  {
    RunKeepsInv(retry, states, steps, i);
  }

  /** A finished attempt never becomes INIT or QUEUED again, whichever update lands last. */
  lemma {:induction false} TerminalForever(retry: Retry, states: seq<State>, steps: seq<Step>, i: nat, j: nat, id: Id)
    requires Run(retry, states, steps) && i <= j < |states|
    requires Terminal(states[i].rows, id)
    ensures Terminal(states[j].rows, id)
    decreases j
  {
    if i < j {
      TerminalForever(retry, states, steps, i, j - 1, id);
      RunKeepsInv(retry, states, steps, j - 1);
      RunStep(retry, states, steps, j - 1);
      StepKeepsInv(retry, states[j - 1], steps[j - 1]);
    }
  }

  /** A task is deleted only when its attempt is finished, so no unfinished attempt is ever in a deleting thread. */
  lemma DeletesOnlyFinished(retry: Retry, states: seq<State>, steps: seq<Step>, i: nat, pid: Pid)
    requires Run(retry, states, steps) && i < |states| && pid in states[i].procs
    requires states[i].procs[pid].Dropping? || states[i].procs[pid].Removing?
    ensures Terminal(states[i].rows, states[i].procs[pid].id)
  {
    RunKeepsInv(retry, states, steps, i);
    assert ProcOk(states[i], states[i].procs[pid]);
  }
}
