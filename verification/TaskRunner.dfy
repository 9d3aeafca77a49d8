/**
 runTask, handleTask and validateEndpoint of worker/worker.go as the imperative code they are, and the proof that
 an uninterrupted run of them is a path of steps of the delivery protocol.
 */
module TaskRunner {
  import opened Common
  import opened TaskQueue
  import opened Attempts
  import opened Requeue
  import D = Delivery
  import Paths

  /** What loading and validating the endpoint and building the request came to. */
  datatype Check = Broken | Missing | Disabled | Malformed | Limited(period: nat) | Ready

  /** The outcome of every call the code makes, the times it reads and the id it mints. */
  datatype Inputs = Inputs(
    check: Check, is2xx: bool, denied: bool, nextId: Id, now: int, finishAt: int, later: int,
    cancelOk: bool, limitOk: bool, writeOk: bool, insertOk: bool, redisOk: bool, sqlOk: bool, deleteOk: bool)

  /** The two stores, and whether handleTask returned without error. */
  datatype Result = Result(rows: Rows, queue: Queue, ok: bool)

  // ------------------------------------------------------------------ the code on values

  predicate Canceling(c: Check) { c.Missing? || c.Disabled? || c.Malformed? }

  predicate Exhausted(p: Payload, retry: seq<nat>, i: Inputs) { i.denied || p.number >= |retry| }

  function NextTasks(i: Inputs, row: Row): seq<NewTask>
  {
    if row.scheduledAt < i.later + D.PRE_SCHEDULE then [TaskOf(i.nextId, row)] else []
  }

  function Scheduled(rows: Rows, queue: Queue, i: Inputs, tasks: seq<NewTask>): Result
  {
    if tasks == [] || !i.redisOk then Result(rows, queue, true)
    else Result(if i.sqlOk then UpdateStatusToQueued(rows, TaskIds(tasks)) else rows, Add(queue, tasks), true)
  }

  function Retried(rows: Rows, queue: Queue, p: Payload, retry: seq<nat>, i: Inputs): Result
    requires p.number < |retry|
  {
    var row := D.Next(p, i.finishAt, retry[p.number]);
    if !i.insertOk then Result(rows, queue, false)
    else Scheduled(rows[i.nextId := row], queue, i, NextTasks(i, row))
  }

  function Delivered(rows: Rows, queue: Queue, id: Id, p: Payload, retry: seq<nat>, i: Inputs): Result
  {
    var written := UpdateDelivery(rows, id, if i.is2xx then Successful else Failed, Exhausted(p, retry, i));
    if !i.writeOk then Result(rows, queue, false)
    else if i.is2xx || Exhausted(p, retry, i) then Result(written, queue, true)
    else Retried(written, queue, p, retry, i)
  }

  function Handled(rows: Rows, queue: Queue, id: Id, p: Payload, retry: seq<nat>, i: Inputs): Result
  {
    if i.check.Broken? then Result(rows, queue, false)
    else if i.check.Limited? then
      Result(rows, if i.limitOk then Schedule(queue, id, i.now + 1000 * i.check.period) else queue, false)
    else if Canceling(i.check) then
      if i.cancelOk then Result(UpdateErrorCode(rows, id, Canceled), queue, true) else Result(rows, queue, false)
    else Delivered(rows, queue, id, p, retry, i)
  }

  function Removed(queue: Queue, id: Id, ok: bool): Queue { if ok then Delete(queue, {id}) else queue }

  /** A task whose payload cannot be read is deleted; a handled one is deleted when it was handled without error. */
  function Ran(rows: Rows, queue: Queue, task: Task, retry: seq<nat>, i: Inputs): Result
  {
    if task.payload.None? then Result(rows, Removed(queue, task.id, i.deleteOk), true)
    else
      var h := Handled(rows, queue, task.id, task.payload.value, retry, i);
      if h.ok then h.(queue := Removed(h.queue, task.id, i.deleteOk)) else h
  }

  // ------------------------------------------------------------------ the code

  class Runner {
    const db: Database
    const tasks: TaskService

    constructor (db: Database, queue: RedisTaskQueue)
      ensures this.db == db && fresh(tasks) && tasks.db == db && tasks.queue == queue
    {
      this.db := db;
      this.tasks := new TaskService(queue, db);
    }

    method ValidateEndpoint(id: Id, i: Inputs) returns (terminated: bool, ok: bool)
      requires tasks.db == db
      modifies db`rows, tasks.queue
      ensures terminated ==> ok
      ensures terminated <==> (i.check.Missing? || i.check.Disabled?) && i.cancelOk
      ensures !terminated ==> (ok <==> i.check.Malformed? || i.check.Ready?)
      ensures db.rows == if terminated then UpdateErrorCode(old(db.rows), id, Canceled) else old(db.rows)
      ensures tasks.queue.Value() ==
        if i.check.Limited? && i.limitOk then Schedule(old(tasks.queue.Value()), id, i.now + 1000 * i.check.period)
        else old(tasks.queue.Value())
    {
      if i.check.Broken? {
        return false, false;
      }
      if i.check.Missing? || i.check.Disabled? {
        if !i.cancelOk {
          return false, false;
        }
        db.SetErrorCode(id, Canceled);
        return true, true;
      }
      if i.check.Limited? {
        if i.limitOk {
          tasks.queue.ScheduleTask(id, i.now + 1000 * i.check.period);
        }
        return false, false;
      }
      return false, true;
    }

    /** The part of handleTask behind the HTTP request. */
    method Finish(id: Id, p: Payload, retry: seq<nat>, i: Inputs) returns (ok: bool)
      requires tasks.db == db
      modifies db`rows, tasks.queue
      ensures Result(db.rows, tasks.queue.Value(), ok)
        == Delivered(old(db.rows), old(tasks.queue.Value()), id, p, retry, i)
    {
      var exhausted := p.number >= |retry|;
      if i.denied {
        exhausted := true;
      }
      if !i.writeOk {
        return false;
      }
      db.SetDelivery(id, if i.is2xx then Successful else Failed, exhausted);
      if i.is2xx {
        return true;
      }
      if exhausted {
        return true;
      }
      var delay := retry[p.number];
      var next := Row(p.event, p.endpoint, p.number + 1, i.finishAt + 1000 * delay, Init, false);
      if !i.insertOk {
        return false;
      }
      db.InsertAttempt(i.nextId, next);
      ghost var rows, queue := db.rows, tasks.queue.Value();
      var attempts := [Attempt(i.nextId, next)];
      OneSchedulable(attempts[0], i);
      var _ := tasks.ScheduleAttempts(attempts, i.later, i.redisOk, i.sqlOk);
      NothingAdded(rows, queue);
      return true;
    }

    method HandleTask(id: Id, p: Payload, retry: seq<nat>, i: Inputs) returns (ok: bool)
      requires tasks.db == db
      modifies db`rows, tasks.queue
      ensures Result(db.rows, tasks.queue.Value(), ok)
        == Handled(old(db.rows), old(tasks.queue.Value()), id, p, retry, i)
    {
      var terminated, valid := ValidateEndpoint(id, i);
      if terminated {
        return true;
      }
      if !valid {
        return false;
      }
      if i.check.Malformed? {
        if !i.cancelOk {
          return false;
        }
        db.SetErrorCode(id, Canceled);
        return true;
      }
      ok := Finish(id, p, retry, i);
    }

    method RunTask(task: Task, retry: seq<nat>, i: Inputs)
      requires tasks.db == db
      modifies db`rows, tasks.queue
      ensures var r := Ran(old(db.rows), old(tasks.queue.Value()), task, retry, i);
              db.rows == r.rows && tasks.queue.Value() == r.queue
    {
      assert (set id | id in [task.id]) == {task.id};
      if task.payload.None? {
        if i.deleteOk { tasks.queue.DeleteTasks([task.id]); }
        return;
      }
      var ok := HandleTask(task.id, task.payload.value, retry, i);
      if !ok {
        return;
      }
      if i.deleteOk { tasks.queue.DeleteTasks([task.id]); }
    }
  }

  lemma OneSchedulable(a: Attempt, i: Inputs)
    requires a.id == i.nextId
    ensures ToTasks(Schedulable([a], i.later)) == NextTasks(i, a.row)
  {
    assert [a][1..] == [];
    assert Schedulable([a], i.later) == if a.row.scheduledAt < i.later + D.PRE_SCHEDULE then [a] else [];
  }

  lemma NothingAdded(rows: Rows, queue: Queue)
    ensures Add(queue, []) == queue && UpdateStatusToQueued(rows, TaskIds([])) == rows
  {
    NothingToQueue(rows);
    assert TaskIds([]) == {};
  }

  // ------------------------------------------------------------------ the steps of the protocol

  ghost predicate Path(retry: D.Retry, s: D.State, steps: seq<D.Step>) { Paths.End(D.Machine(retry), s, steps).Some? }

  ghost function End(retry: D.Retry, s: D.State, steps: seq<D.Step>): D.State
    requires Path(retry, s, steps)
  {
    Paths.End(D.Machine(retry), s, steps).value
  }

  lemma Concat(retry: D.Retry, s: D.State, a: seq<D.Step>, b: seq<D.Step>)
    requires Path(retry, s, a) && Path(retry, End(retry, s, a), b)
    ensures Path(retry, s, a + b) && End(retry, s, a + b) == End(retry, End(retry, s, a), b)
  {
    Paths.Concat(D.Machine(retry), s, a, b);
  }

  lemma One(retry: D.Retry, s: D.State, step: D.Step)
    requires D.Enabled(retry, s, step)
    ensures Path(retry, s, [step]) && End(retry, s, [step]) == D.Exec(retry, s, step)
  {
    Paths.One(D.Machine(retry), s, step);
  }

  lemma Two(retry: D.Retry, s: D.State, a: D.Step, b: D.Step)
    requires D.Enabled(retry, s, a) && D.Enabled(retry, D.Exec(retry, s, a), b)
    ensures Path(retry, s, [a, b]) && End(retry, s, [a, b]) == D.Exec(retry, D.Exec(retry, s, a), b)
  {
    One(retry, s, a);
    One(retry, D.Exec(retry, s, a), b);
    Concat(retry, s, [a], [b]);
  }

  function DropSteps(pid: D.Pid, ok: bool): seq<D.Step> { [D.HDelStep(pid, ok), D.ZRemStep(pid, ok)] }

  /** A state whose only interesting thread is gone, with the given stores. */
  ghost predicate Left(s: D.State, t: D.State, pid: D.Pid, rows: Rows, queue: Queue)
  {
    t.rows == rows && t.queue == queue && t.procs == s.procs - {pid}
  }

  lemma Drops(retry: D.Retry, s: D.State, pid: D.Pid, ok: bool)
    requires pid in s.procs && s.procs[pid].Dropping?
    ensures Path(retry, s, DropSteps(pid, ok))
    ensures Left(s, End(retry, s, DropSteps(pid, ok)), pid, s.rows, Removed(s.queue, s.procs[pid].id, ok))
  {
    Two(retry, s, D.HDelStep(pid, ok), D.ZRemStep(pid, ok));
  }

  function ScheduleSteps(pid: D.Pid, i: Inputs, tasks: seq<NewTask>): seq<D.Step>
  {
    if tasks == [] then [D.MarkStep(pid, false, false)]
    else if !i.redisOk then [D.HSetStep(pid, false, false), D.MarkStep(pid, false, false)]
    else [D.HSetStep(pid, true, true), D.ZAddStep(pid, true, true)] + [D.MarkStep(pid, i.sqlOk, i.sqlOk)]
  }

  /** The thread has scheduled and goes on to delete its task. */
  ghost predicate Onward(s: D.State, t: D.State, pid: D.Pid, r: Result, next: D.Proc)
  {
    t.rows == r.rows && t.queue == r.queue && pid in t.procs && t.procs[pid] == next
      && t.procs - {pid} == s.procs - {pid}
  }

  lemma Schedules(retry: D.Retry, s: D.State, pid: D.Pid, i: Inputs, tasks: seq<NewTask>, id: Id)
    requires pid in s.procs && s.procs[pid] == D.Start(tasks, [], Some(id))
    ensures Path(retry, s, ScheduleSteps(pid, i, tasks))
    ensures Onward(s, End(retry, s, ScheduleSteps(pid, i, tasks)), pid, Scheduled(s.rows, s.queue, i, tasks),
      D.Dropping(id))
  {
    if tasks == [] {
      One(retry, s, D.MarkStep(pid, false, false));
    } else if !i.redisOk {
      Two(retry, s, D.HSetStep(pid, false, false), D.MarkStep(pid, false, false));
    } else {
      var a, b, c := D.HSetStep(pid, true, true), D.ZAddStep(pid, true, true), D.MarkStep(pid, i.sqlOk, i.sqlOk);
      Two(retry, s, a, b);
      var t := End(retry, s, [a, b]);
      One(retry, t, c);
      Concat(retry, s, [a, b], [c]);
      NothingToCancel(t.rows);
    }
  }

  function RetrySteps(pid: D.Pid, p: Payload, retry: seq<nat>, i: Inputs): seq<D.Step>
    requires p.number < |retry|
  {
    var tasks := NextTasks(i, D.Next(p, i.finishAt, retry[p.number]));
    [D.Tick(i.later), D.Retry(pid, i.nextId, i.insertOk, i.insertOk, tasks)] +
    if i.insertOk then ScheduleSteps(pid, i, tasks) + DropSteps(pid, i.deleteOk) else []
  }

  /** The stores a run of the code leaves, with the task deleted when it was handled. */
  function AfterRun(r: Result, id: Id, i: Inputs): Queue { if r.ok then Removed(r.queue, id, i.deleteOk) else r.queue }

  lemma Retries(retry: D.Retry, s: D.State, pid: D.Pid, i: Inputs)
    requires pid in s.procs && s.procs[pid].Retrying? && s.procs[pid].finishAt == i.finishAt
    requires s.clock <= i.later && i.nextId !in s.rows
    requires s.procs[pid].payload.number < |retry(s.procs[pid].payload.endpoint)|
    ensures var p := s.procs[pid];
            var steps, r := RetrySteps(pid, p.payload, retry(p.payload.endpoint), i),
                            Retried(s.rows, s.queue, p.payload, retry(p.payload.endpoint), i);
            Path(retry, s, steps) && Left(s, End(retry, s, steps), pid, r.rows, AfterRun(r, p.id, i))
  {
    var p := s.procs[pid];
    var list := retry(p.payload.endpoint);
    var row := D.Next(p.payload, i.finishAt, list[p.payload.number]);
    var tasks := NextTasks(i, row);
    var a, b := D.Tick(i.later), D.Retry(pid, i.nextId, i.insertOk, i.insertOk, tasks);
    OneTask(s.rows[i.nextId := row], i);
    Two(retry, s, a, b);
    if i.insertOk {
      var t := End(retry, s, [a, b]);
      Schedules(retry, t, pid, i, tasks, p.id);
      var u := End(retry, t, ScheduleSteps(pid, i, tasks));
      Drops(retry, u, pid, i.deleteOk);
      Concat(retry, t, ScheduleSteps(pid, i, tasks), DropSteps(pid, i.deleteOk));
      Concat(retry, s, [a, b], ScheduleSteps(pid, i, tasks) + DropSteps(pid, i.deleteOk));
    } else {
      assert [a, b] + [] == [a, b];
    }
  }

  /** The one new attempt is scheduled exactly as the protocol's step demands. */
  lemma OneTask(rows: Rows, i: Inputs)
    requires i.nextId in rows
    ensures D.TasksFor(rows, {i.nextId}, i.later, NextTasks(i, rows[i.nextId]))
  {
    var tasks := NextTasks(i, rows[i.nextId]);
    if rows[i.nextId].scheduledAt < i.later + D.PRE_SCHEDULE {
      assert tasks[0] in tasks && tasks[0].id == i.nextId;
    }
  }

  function DeliverSteps(pid: D.Pid, p: Payload, retry: seq<nat>, i: Inputs): seq<D.Step>
  {
    [D.Tick(i.finishAt), D.Deliver(pid, i.is2xx, i.denied)] + [D.Write(pid, i.writeOk, i.writeOk)] +
    if !i.writeOk then []
    else if i.is2xx || Exhausted(p, retry, i) then DropSteps(pid, i.deleteOk)
    else RetrySteps(pid, p, retry, i)
  }

  lemma Delivers(retry: D.Retry, s: D.State, pid: D.Pid, i: Inputs)
    requires pid in s.procs && s.procs[pid].Running? && s.procs[pid].data.Some?
    requires s.clock <= i.finishAt <= i.later && i.nextId !in s.rows
    ensures var id, p := s.procs[pid].id, s.procs[pid].data.value;
            var steps, r := DeliverSteps(pid, p, retry(p.endpoint), i),
              Delivered(s.rows, s.queue, id, p, retry(p.endpoint), i);
            Path(retry, s, steps) && Left(s, End(retry, s, steps), pid, r.rows, AfterRun(r, id, i))
  {
    var id, p := s.procs[pid].id, s.procs[pid].data.value;
    var a, b, c := D.Tick(i.finishAt), D.Deliver(pid, i.is2xx, i.denied), D.Write(pid, i.writeOk, i.writeOk);
    Two(retry, s, a, b);
    var t := End(retry, s, [a, b]);
    assert t.procs[pid] == D.Delivered(id, p, i.is2xx, Exhausted(p, retry(p.endpoint), i), i.finishAt);
    One(retry, t, c);
    Concat(retry, s, [a, b], [c]);
    var u := End(retry, s, [a, b] + [c]);
    if !i.writeOk {
      assert [a, b] + [c] + [] == [a, b] + [c];
    } else if i.is2xx || Exhausted(p, retry(p.endpoint), i) {
      Drops(retry, u, pid, i.deleteOk);
      Concat(retry, s, [a, b] + [c], DropSteps(pid, i.deleteOk));
    } else {
      Retries(retry, u, pid, i);
      Concat(retry, s, [a, b] + [c], RetrySteps(pid, p, retry(p.endpoint), i));
    }
  }

  /** The steps a run of the code takes. */
  function RunSteps(pid: D.Pid, payload: Option<Payload>, retry: D.Retry, i: Inputs): seq<D.Step>
  {
    if payload.None? then [D.BadPayload(pid)] + DropSteps(pid, i.deleteOk)
    else if i.check.Broken? then [D.Crash(pid)]
    else if i.check.Limited? then [D.Tick(i.now), D.RateLimit(pid, i.check.period, i.limitOk)]
    else if Canceling(i.check) then
      [D.Cancel(pid, i.cancelOk, i.cancelOk)] + if i.cancelOk then DropSteps(pid, i.deleteOk) else []
    else DeliverSteps(pid, payload.value, retry(payload.value.endpoint), i)
  }

  lemma Cancels(retry: D.Retry, s: D.State, pid: D.Pid, i: Inputs)
    requires pid in s.procs && s.procs[pid].Running? && s.procs[pid].data.Some? && Canceling(i.check)
    ensures var steps := RunSteps(pid, s.procs[pid].data, retry, i);
            var r := Ran(s.rows, s.queue, Task(s.procs[pid].id, 0, s.procs[pid].data),
              retry(s.procs[pid].data.value.endpoint), i);
            Path(retry, s, steps) && Left(s, End(retry, s, steps), pid, r.rows, r.queue)
  {
    var c := D.Cancel(pid, i.cancelOk, i.cancelOk);
    One(retry, s, c);
    if i.cancelOk {
      Drops(retry, D.Exec(retry, s, c), pid, i.deleteOk);
      Concat(retry, s, [c], DropSteps(pid, i.deleteOk));
    } else {
      assert [c] + [] == [c];
    }
  }

  lemma Discards(retry: D.Retry, s: D.State, pid: D.Pid, i: Inputs)
    requires pid in s.procs && s.procs[pid].Running? && s.procs[pid].data.None?
    ensures var steps := RunSteps(pid, None, retry, i);
            Path(retry, s, steps) && Left(s, End(retry, s, steps), pid, s.rows,
              Removed(s.queue, s.procs[pid].id, i.deleteOk))
  {
    var c := D.BadPayload(pid);
    One(retry, s, c);
    Drops(retry, D.Exec(retry, s, c), pid, i.deleteOk);
    Concat(retry, s, [c], DropSteps(pid, i.deleteOk));
  }

  /** The retry list the code indexes: that of the payload's endpoint. */
  function ListOf(retry: D.Retry, payload: Option<Payload>): seq<nat>
  {
    if payload.Some? then retry(payload.value.endpoint) else []
  }

  /**
   The worker's code takes only steps of the protocol: from any state in which a thread runs a task, some path of
   steps of that thread alone leaves exactly the rows and the queue that the code leaves, and ends the thread.
   */
  lemma CodeIsSteps(retry: D.Retry, s: D.State, pid: D.Pid, i: Inputs)
    requires pid in s.procs && s.procs[pid].Running?
    requires s.clock <= i.now && s.clock <= i.finishAt <= i.later && i.nextId !in s.rows
    ensures var p := s.procs[pid];
            var steps, r := RunSteps(pid, p.data, retry, i),
              Ran(s.rows, s.queue, Task(p.id, 0, p.data), ListOf(retry, p.data), i);
            Path(retry, s, steps) && Left(s, End(retry, s, steps), pid, r.rows, r.queue)
  {
    var p := s.procs[pid];
    if p.data.None? {
      Discards(retry, s, pid, i);
    } else if i.check.Broken? {
      One(retry, s, D.Crash(pid));
    } else if i.check.Limited? {
      Two(retry, s, D.Tick(i.now), D.RateLimit(pid, i.check.period, i.limitOk));
    } else if Canceling(i.check) {
      Cancels(retry, s, pid, i);
    } else {
      Delivers(retry, s, pid, i);
    }
  }

  lemma {:induction false} PathKeepsInv(retry: D.Retry, s: D.State, steps: seq<D.Step>)
    requires D.Inv(s) && Path(retry, s, steps)
    ensures D.Inv(End(retry, s, steps))
    decreases |steps|
  {
    if steps != [] {
      D.StepKeepsInv(retry, s, steps[0]);
      PathKeepsInv(retry, D.Exec(retry, s, steps[0]), steps[1..]);
    }
  }

  /**
   So the code, run to its end or to any failure of its calls, keeps what the protocol keeps: the three stores stay
   consistent.
   */
  lemma CodeKeepsInv(retry: D.Retry, s: D.State, pid: D.Pid, i: Inputs)
    requires D.Inv(s) && pid in s.procs && s.procs[pid].Running?
    requires s.clock <= i.now && s.clock <= i.finishAt <= i.later && i.nextId !in s.rows
    ensures var p := s.procs[pid];
            var r := Ran(s.rows, s.queue, Task(p.id, 0, p.data), ListOf(retry, p.data), i);
            D.StoresOk(s.(rows := r.rows, queue := r.queue))
  {
    var p := s.procs[pid];
    var steps, r := RunSteps(pid, p.data, retry, i),
      Ran(s.rows, s.queue, Task(p.id, 0, p.data), ListOf(retry, p.data), i);
    CodeIsSteps(retry, s, pid, i);
    PathKeepsInv(retry, s, steps);
    SameStores(End(retry, s, steps), s.(rows := r.rows, queue := r.queue));
  }

  lemma SameStores(s: D.State, t: D.State)
    requires D.StoresOk(s) && s.rows == t.rows && s.queue == t.queue
    ensures D.StoresOk(t)
  {
  }
}
