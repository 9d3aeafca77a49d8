/** The requeue scan of Requeue, run without interruption, as a path of steps of the delivery protocol. */
module ScanSteps {
  import opened Common
  import opened TaskQueue
  import opened Attempts
  import opened Requeue
  import opened TaskRunner
  import D = Delivery

  lemma {:induction false} MissingDistinct(batch: seq<Attempt>, events: set<Id>)
    requires forall i, j :: 0 <= i < j < |batch| ==> batch[i].id != batch[j].id
    ensures Distinct(MissingIds(batch, events))
  {
    if batch != [] {
      MissingDistinct(batch[1..], events);
      MissingMembers(batch[1..], events);
      assert batch[0].id !in MissingIds(batch[1..], events);
    }
  }

  /** The tasks of a batch whose attempts are all due are what the protocol's step demands. */
  lemma KeptTasksFor(rows: Rows, batch: seq<Attempt>, events: set<Id>, now: int)
    requires ReadFrom(rows, batch) && forall a :: a in batch ==> a.row.scheduledAt < now + D.PRE_SCHEDULE
    ensures var kept := WithEvent(batch, events); D.TasksFor(rows, IdsOf(kept), now, ToTasks(kept))
  {
    var kept := WithEvent(batch, events);
    WithEventMembers(batch, events);
    TaskIdsOfKept(kept);
    forall t | t in ToTasks(kept) ensures t.id in IdsOf(kept) && t == TaskOf(t.id, rows[t.id]) {
      var i :| 0 <= i < |kept| && ToTasks(kept)[i] == t;
      assert kept[i] in kept;
    }
  }

  function CommitSteps(pid: D.Pid, tasks: seq<NewTask>, redisOk: bool, commitOk: bool): seq<D.Step>
  {
    var mark := [D.MarkStep(pid, commitOk, commitOk)];
    if tasks == [] then mark
    else if !redisOk then [D.HSetStep(pid, false, false)] + mark
    else [D.HSetStep(pid, true, true), D.ZAddStep(pid, true, true)] + mark
  }

  /** What the transaction leaves, with its thread gone. */
  ghost predicate Committed(
    s: D.State, t: D.State, pid: D.Pid, tasks: seq<NewTask>, cancels: seq<Id>, redisOk: bool, commitOk: bool)
  {
    var marked := UpdateStatusToQueued(CancelAll(s.rows, cancels), if redisOk then TaskIds(tasks) else {});
    Left(s, t, pid, if commitOk then marked else s.rows, if redisOk then Add(s.queue, tasks) else s.queue)
  }

  lemma EnqueuesAndCommits(
    retry: D.Retry, s: D.State, pid: D.Pid, tasks: seq<NewTask>, cancels: seq<Id>, commitOk: bool)
    requires pid in s.procs && s.procs[pid] == D.Scheduling(tasks, cancels, None) && tasks != []
    ensures Path(retry, s, CommitSteps(pid, tasks, true, commitOk))
    ensures Committed(s, End(retry, s, CommitSteps(pid, tasks, true, commitOk)), pid, tasks, cancels, true, commitOk)
  {
    var a, b, mark := D.HSetStep(pid, true, true), D.ZAddStep(pid, true, true), D.MarkStep(pid, commitOk, commitOk);
    Two(retry, s, a, b);
    One(retry, End(retry, s, [a, b]), mark);
    Concat(retry, s, [a, b], [mark]);
  }

  /** The transaction from its selection on: what the code leaves in the table and in the queue. */
  lemma Commits(
    retry: D.Retry, s: D.State, pid: D.Pid, tasks: seq<NewTask>, cancels: seq<Id>, redisOk: bool, commitOk: bool)
    requires pid in s.procs && s.procs[pid] == D.Start(tasks, cancels, None)
    ensures Path(retry, s, CommitSteps(pid, tasks, redisOk, commitOk))
    ensures var t := End(retry, s, CommitSteps(pid, tasks, redisOk, commitOk));
            Committed(s, t, pid, tasks, cancels, redisOk, commitOk)
  {
    var mark := D.MarkStep(pid, commitOk, commitOk);
    if tasks == [] {
      One(retry, s, mark);
      NothingAdded(s.rows, s.queue);
    } else if !redisOk {
      Two(retry, s, D.HSetStep(pid, false, false), mark);
    } else {
      EnqueuesAndCommits(retry, s, pid, tasks, cancels, commitOk);
    }
  }

  /**
   One transaction of the scan is a path of protocol steps of a new thread that leaves the table and the queue of
   ScanOnce, whether Redis takes the batch and whether the commit succeeds, and ends the thread.
   */
  lemma ScanIsSteps(
    retry: D.Retry, s: D.State, pid: D.Pid, batch: seq<Attempt>, events: set<Id>, redisOk: bool, commitOk: bool)
    requires pid !in s.procs && ReadFrom(s.rows, batch)
    requires forall i, j :: 0 <= i < j < |batch| ==> batch[i].id != batch[j].id
    requires forall a :: a in batch ==> a.row.scheduledAt < s.clock + D.PRE_SCHEDULE
    ensures var kept, cancels := WithEvent(batch, events), MissingIds(batch, events);
            var steps := [D.Pick(pid, IdsOf(kept), cancels, ToTasks(kept))]
              + CommitSteps(pid, ToTasks(kept), redisOk, commitOk);
            && Path(retry, s, steps)
            && var t := End(retry, s, steps);
               && t.rows == (if commitOk then ScanRows(s.rows, batch, events, redisOk) else s.rows)
               && t.queue == ScanQueue(s.queue, batch, events, redisOk)
               && t.procs == s.procs
  {
    var kept, cancels := WithEvent(batch, events), MissingIds(batch, events);
    var tasks := ToTasks(kept);
    var pick := D.Pick(pid, IdsOf(kept), cancels, tasks);
    WithEventMembers(batch, events);
    MissingMembers(batch, events);
    MissingDistinct(batch, events);
    KeptTasksFor(s.rows, batch, events, s.clock);
    One(retry, s, pick);
    var t := D.Exec(retry, s, pick);
    Commits(retry, t, pid, tasks, cancels, redisOk, commitOk);
    Concat(retry, s, [pick], CommitSteps(pid, tasks, redisOk, commitOk));
    NothingToQueue(CancelAll(s.rows, cancels));
  }

  // ------------------------------------------------------------------ a dispatch and its scheduling

  /** The attempts a dispatch has just inserted: new, INIT, numbered 1, each due after its endpoint's first delay. */
  ghost predicate FirstAttempts(retry: D.Retry, s: D.State, attempts: seq<Attempt>, targets: map<Id, (Id, Id)>)
  {
    && targets.Keys == IdsOf(attempts) && targets.Keys !! s.rows.Keys
    && forall a :: a in attempts ==>
         && a.id in targets && targets[a.id] == (a.row.event, a.row.endpoint) && retry(a.row.endpoint) != []
         && a.row == Row(a.row.event, a.row.endpoint, 1, s.clock + 1000 * retry(a.row.endpoint)[0], Init, false)
  }

  function Inserted(rows: Rows, attempts: seq<Attempt>): Rows
  {
    if attempts == [] then rows
    else
      var last := attempts[|attempts| - 1];
      Inserted(rows, attempts[..|attempts| - 1])[last.id := last.row]
  }

  lemma {:induction false} InsertedRows(rows: Rows, attempts: seq<Attempt>)
    requires forall a, b :: a in attempts && b in attempts && a.id == b.id ==> a == b
    ensures var r := Inserted(rows, attempts);
            && r.Keys == rows.Keys + IdsOf(attempts)
            && (forall a :: a in attempts ==> r[a.id] == a.row)
            && (forall id :: id in rows && id !in IdsOf(attempts) ==> r[id] == rows[id])
  {
    if attempts != [] {
      var n := |attempts| - 1;
      assert attempts == attempts[..n] + [attempts[n]];
      InsertedRows(rows, attempts[..n]);
    }
  }

  lemma SchedulableMembers(attempts: seq<Attempt>, now: int)
    ensures forall a :: a in Schedulable(attempts, now) <==> a in attempts && a.row.scheduledAt < now + D.PRE_SCHEDULE
  {
    if attempts != [] {
      SchedulableMembers(attempts[1..], now);
      assert attempts == [attempts[0]] + attempts[1..];
    }
  }

  lemma FirstRows(retry: D.Retry, s: D.State, attempts: seq<Attempt>, targets: map<Id, (Id, Id)>)
    requires FirstAttempts(retry, s, attempts, targets)
    ensures forall id :: id in targets ==> retry(targets[id].1) != []
    ensures s.rows + D.NewRows(targets, retry, s.clock) == Inserted(s.rows, attempts)
    ensures var rows := Inserted(s.rows, attempts);
            forall a :: a in attempts ==> a.id in rows && rows[a.id] == a.row
  {
    InsertedRows(s.rows, attempts);
    var rows := Inserted(s.rows, attempts);
    forall id | id in targets ensures retry(targets[id].1) != [] && rows[id] == D.NewRows(targets, retry, s.clock)[id] {
      var a :| a in attempts && a.id == id;
    }
  }

  /** The tasks ScheduleAttempts makes of attempts just inserted are what the protocol's step demands. */
  lemma FirstTasks(rows: Rows, attempts: seq<Attempt>, now: int)
    requires forall a :: a in attempts ==> a.id in rows && rows[a.id] == a.row
    ensures D.TasksFor(rows, IdsOf(attempts), now, ToTasks(Schedulable(attempts, now)))
  {
    var due := Schedulable(attempts, now);
    SchedulableMembers(attempts, now);
    TaskIdsOfKept(due);
    forall t | t in ToTasks(due) ensures t.id in IdsOf(attempts) && t == TaskOf(t.id, rows[t.id]) {
      var i :| 0 <= i < |due| && ToTasks(due)[i] == t;
      assert due[i] in due;
    }
    forall id | id in IdsOf(attempts) && rows[id].scheduledAt < now + D.PRE_SCHEDULE ensures id in IdsOf(due) {
      var a :| a in attempts && a.id == id;
      assert a in due;
    }
  }

  /**
   A dispatch whose transaction has inserted its attempts, followed by ScheduleAttempts, is a path of protocol steps
   of a new thread that leaves the table and the queue of that code, for every outcome of Redis and SQL.
   */
  lemma DispatchIsSteps(
    retry: D.Retry, s: D.State, pid: D.Pid, attempts: seq<Attempt>, targets: map<Id, (Id, Id)>, redisOk: bool,
    sqlOk: bool)
    requires pid !in s.procs && FirstAttempts(retry, s, attempts, targets)
    ensures var tasks, rows := ToTasks(Schedulable(attempts, s.clock)), Inserted(s.rows, attempts);
            var steps := [D.Dispatch(pid, targets, tasks)] + CommitSteps(pid, tasks, redisOk, sqlOk);
            && Path(retry, s, steps)
            && var t := End(retry, s, steps);
               && t.rows == (if redisOk && sqlOk then UpdateStatusToQueued(rows, TaskIds(tasks)) else rows)
               && t.queue == (if redisOk then Add(s.queue, tasks) else s.queue)
               && t.procs == s.procs
  {
    var tasks, rows := ToTasks(Schedulable(attempts, s.clock)), Inserted(s.rows, attempts);
    var step := D.Dispatch(pid, targets, tasks);
    FirstRows(retry, s, attempts, targets);
    FirstTasks(rows, attempts, s.clock);
    One(retry, s, step);
    var t := D.Exec(retry, s, step);
    Commits(retry, t, pid, tasks, [], redisOk, sqlOk);
    Concat(retry, s, [step], CommitSteps(pid, tasks, redisOk, sqlOk));
    NothingToCancel(rows);
    NothingToQueue(rows);
  }
}
