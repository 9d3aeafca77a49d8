/**
 TaskService.ScheduleAttempts of services/task/service.go and the requeue scan loadPending of
 worker/worker.go, as the imperative code they are, run without interruption.
 */
module Requeue {
  import opened Common
  import opened TaskQueue
  import opened Attempts
  import Delivery

  /** An attempt in memory. */
  datatype Attempt = Attempt(id: Id, row: Row)

  // ------------------------------------------------------------------ ScheduleAttempts

  function Schedulable(attempts: seq<Attempt>, now: int): seq<Attempt>
  {
    if attempts == [] then []
    else (if attempts[0].row.scheduledAt < now + Delivery.PRE_SCHEDULE then [attempts[0]] else [])
         + Schedulable(attempts[1..], now)
  }

  function ToTasks(attempts: seq<Attempt>): (tasks: seq<NewTask>)
    ensures |tasks| == |attempts|
    ensures forall i :: 0 <= i < |tasks| ==> tasks[i] == TaskOf(attempts[i].id, attempts[i].row)
  {
    seq(|attempts|, i requires 0 <= i < |attempts| => TaskOf(attempts[i].id, attempts[i].row))
  }

  function IdsOf(attempts: seq<Attempt>): set<Id> { set a | a in attempts :: a.id }

  lemma {:induction false} SchedulableAppend(a: seq<Attempt>, x: Attempt, now: int)
    ensures Schedulable(a + [x], now)
         == Schedulable(a, now) + (if x.row.scheduledAt < now + Delivery.PRE_SCHEDULE then [x] else [])
  {
    if a == [] {
      assert a + [x] == [x];
    } else {
      assert (a + [x])[1..] == a[1..] + [x];
      SchedulableAppend(a[1..], x, now);
    }
  }

  lemma {:induction false} AllSchedulable(attempts: seq<Attempt>, now: int)
    requires forall a :: a in attempts ==> a.row.scheduledAt < now + Delivery.PRE_SCHEDULE
    ensures Schedulable(attempts, now) == attempts
  {
    if attempts != [] { AllSchedulable(attempts[1..], now); }
  }

  /** The attempts table, the events table's keys, and the rows other transactions hold locked. */
  class Database {
    var rows: Rows
    var createdAt: map<Id, int>
    var events: set<Id>
    var locked: set<Id>

    constructor ()
      ensures rows == map[] && createdAt == map[] && events == {} && locked == {}
    {
      rows, createdAt, events, locked := map[], map[], {}, {};
    }

    method SetQueued(ids: set<Id>)
      modifies this`rows
      ensures rows == UpdateStatusToQueued(old(rows), ids)
    {
      rows := UpdateStatusToQueued(rows, ids);
    }

    method SetErrorCode(id: Id, status: Status)
      modifies this`rows
      ensures rows == UpdateErrorCode(old(rows), id, status)
    {
      rows := UpdateErrorCode(rows, id, status);
    }

    method SetDelivery(id: Id, status: Status, exhausted: bool)
      modifies this`rows
      ensures rows == UpdateDelivery(old(rows), id, status, exhausted)
    {
      rows := UpdateDelivery(rows, id, status, exhausted);
    }

    method InsertAttempt(id: Id, row: Row)
      modifies this`rows
      ensures rows == old(rows)[id := row]
    {
      rows := rows[id := row];
    }

    /** SELECT .. LIMIT limit FOR UPDATE SKIP LOCKED, in no particular order. */
    method ListUnqueuedForUpdate(maxScheduledAt: int, now: int, limit: nat) returns (list: array<Attempt>)
      ensures fresh(list) && list.Length == Min(limit, |EligibleIds(rows, createdAt, locked, maxScheduledAt, now)|)
      ensures forall i :: 0 <= i < list.Length ==>
        list[i].id in EligibleIds(rows, createdAt, locked, maxScheduledAt, now) && list[i].row == rows[list[i].id]
      ensures forall i, j :: 0 <= i < j < list.Length ==> list[i].id != list[j].id
      ensures forall i :: 0 <= i < list.Length ==>
        && list[i].row.status == Init && list[i].id !in locked && list[i].row.scheduledAt < maxScheduledAt
        && list[i].id in createdAt && createdAt[list[i].id] + 30_000 <= now
    {
      var pool := EligibleIds(rows, createdAt, locked, maxScheduledAt, now);
      ghost var all := pool;
      var n := Min(limit, |pool|);
      var picked: seq<Attempt> := [];
      while |picked| < n
        invariant |picked| <= n && pool <= all && |pool| == |all| - |picked|
        invariant forall i :: 0 <= i < |picked| ==> picked[i].id in all - pool && picked[i].row == rows[picked[i].id]
        invariant forall i, j :: 0 <= i < j < |picked| ==> picked[i].id != picked[j].id
      {
        var id :| id in pool;
        pool := pool - {id};
        picked := picked + [Attempt(id, rows[id])];
      }
      list := new Attempt[n](i requires 0 <= i < |picked| => picked[i]);
    }
  }

  class TaskService {
    const queue: RedisTaskQueue
    const db: Database

    constructor (queue: RedisTaskQueue, db: Database)
      ensures this.queue == queue && this.db == db
    {
      this.queue, this.db := queue, db;
    }

    /** Enqueue first, then mark QUEUED: when Redis refuses the tasks no status changes. */
    method ScheduleAttempts(attempts: seq<Attempt>, now: int, redisOk: bool, sqlOk: bool) returns (notified: bool)
      modifies queue, db`rows
      ensures var tasks := ToTasks(Schedulable(attempts, now));
              && queue.Value() == (if redisOk then Add(old(queue.Value()), tasks) else old(queue.Value()))
              && db.rows == (if redisOk && sqlOk then UpdateStatusToQueued(old(db.rows), TaskIds(tasks))
                             else old(db.rows))
      ensures notified == (redisOk && exists a :: a in attempts && a.row.scheduledAt < now)
    {
      notified := false;
      var notify := false;
      var tasks: seq<NewTask> := [];
      var ids: set<Id> := {};
      for i := 0 to |attempts|
        invariant tasks == ToTasks(Schedulable(attempts[..i], now))
        invariant ids == TaskIds(tasks)
        invariant notify == exists a :: a in attempts[..i] && a.row.scheduledAt < now
        invariant queue.Value() == old(queue.Value()) && db.rows == old(db.rows)
      {
        assert attempts[..i + 1] == attempts[..i] + [attempts[i]];
        SchedulableAppend(attempts[..i], attempts[i], now);
        var attempt := attempts[i];
        if attempt.row.scheduledAt < now + Delivery.PRE_SCHEDULE {
          if !notify && attempt.row.scheduledAt < now { notify := true; }
          tasks := tasks + [TaskOf(attempt.id, attempt.row)];
          ids := ids + {attempt.id};
        }
      }
      assert attempts[..|attempts|] == attempts;
      NothingToQueue(db.rows);
      if tasks == [] {
        DueIsSchedulable(attempts, now);
        return;
      }
      if !redisOk { return; }
      queue.AddTasks(tasks);
      if sqlOk { db.SetQueued(ids); }
      notified := notify;
    }
  }

  lemma NothingToQueue(rows: Rows)
    ensures UpdateStatusToQueued(rows, {}) == rows
  {
    assert UpdateStatusToQueued(rows, {}).Keys == rows.Keys;
  }

  lemma {:induction false} DueIsSchedulable(attempts: seq<Attempt>, now: int)
    ensures Schedulable(attempts, now) == [] ==> forall a :: a in attempts ==> a.row.scheduledAt >= now
  {
    if attempts != [] {
      DueIsSchedulable(attempts[1..], now);
      assert forall a :: a in attempts ==> a == attempts[0] || a in attempts[1..];
    }
  }

  // ------------------------------------------------------------------ the requeue scan

  /** The scan leaves rows younger than 30 seconds to the thread that inserted them. */
  const MIN_AGE := 30_000

  function EligibleIds(rows: Rows, createdAt: map<Id, int>, locked: set<Id>, maxScheduledAt: int, now: int): set<Id>
  {
    set id | id in rows && rows[id].status == Init && id in createdAt && createdAt[id] <= now - MIN_AGE
             && rows[id].scheduledAt < maxScheduledAt && id !in locked
  }

  function InitIds(rows: Rows): set<Id> { set id | id in rows && rows[id].status == Init }

  /** The attempts of a batch whose event still exists, in order. */
  function WithEvent(attempts: seq<Attempt>, events: set<Id>): seq<Attempt>
  {
    if attempts == [] then []
    else (if attempts[0].row.event in events then [attempts[0]] else []) + WithEvent(attempts[1..], events)
  }

  lemma {:induction false} WithEventAppend(a: seq<Attempt>, x: Attempt, events: set<Id>)
    ensures WithEvent(a + [x], events) == WithEvent(a, events) + (if x.row.event in events then [x] else [])
  {
    if a == [] {
      assert a + [x] == [x];
    } else {
      assert (a + [x])[0] == a[0] && (a + [x])[1..] == a[1..] + [x];
      WithEventAppend(a[1..], x, events);
      var head, rest := (if a[0].row.event in events then [a[0]] else []), WithEvent(a[1..], events);
      var last := if x.row.event in events then [x] else [];
      assert head + (rest + last) == head + rest + last;
    }
  }

  lemma {:induction false} WithEventMembers(a: seq<Attempt>, events: set<Id>)
    ensures |WithEvent(a, events)| <= |a|
    ensures forall x :: x in WithEvent(a, events) <==> x in a && x.row.event in events
  {
    if a != [] {
      WithEventMembers(a[1..], events);
      assert a == [a[0]] + a[1..];
    }
  }

  /** One row after a scan has taken it: queued when its event exists, canceled otherwise. */
  function Requeued(row: Row, events: set<Id>): Row
  {
    row.(status := if row.event in events then Queued else Canceled)
  }

  /** A scan takes only rows that are INIT, unlocked, at least 30 seconds old and due before its cutoff. */
  ghost predicate OnlyRequeued(
    before: Rows, after: Rows, events: set<Id>, createdAt: map<Id, int>, locked: set<Id>, maxScheduledAt: int,
    now: int)
  {
    && after.Keys == before.Keys
    && forall id :: id in before ==>
         || after[id] == before[id]
         || (&& before[id].status == Init && id in createdAt && createdAt[id] + 30_000 <= now && id !in locked
             && before[id].scheduledAt < maxScheduledAt && after[id] == Requeued(before[id], events))
  }

  /**
   The queue kept what it had, and holds every attempt that went from INIT to QUEUED with its own payload, due when it
   is scheduled.
   */
  ghost predicate NewlyQueued(before: Rows, after: Rows, queue: Queue, later: Queue)
  {
    && queue.scores.Keys <= later.scores.Keys && queue.data.Keys <= later.data.Keys
    && (forall id :: id in before && id in queue.data && before[id].status != Init ==> later.data[id] == queue.data[id])
    && (forall id :: id in before && id in queue.scores && before[id].status != Init ==>
          later.scores[id] == queue.scores[id])
    && forall id :: id in before && id in after && before[id].status == Init && after[id].status == Queued ==>
         && id in later.scores && later.scores[id] == before[id].scheduledAt
         && id in later.data && later.data[id] == PayloadOf(before[id])
  }

  /** The rows a scan may come to select that have an event to deliver. */
  function Deliverable(rows: Rows, events: set<Id>, locked: set<Id>): set<Id>
  {
    set id | id in rows && rows[id].status == Init && rows[id].event in events && id !in locked
  }

  class Worker {
    const db: Database
    const tasks: TaskService
    const batchSize: nat

    ghost predicate Valid() { batchSize > 0 && tasks.db == db }

    constructor (db: Database, queue: RedisTaskQueue, batchSize: nat)
      requires batchSize > 0
      ensures Valid() && this.db == db && this.tasks.queue == queue && this.batchSize == batchSize
      ensures fresh(tasks)
    {
      this.db, this.batchSize := db, batchSize;
      this.tasks := new TaskService(queue, db);
    }

    /** scheduleAttempts := attempts[:0]: the kept attempts are compacted into the array being scanned. */
    method KeepWithEvent(attempts: array<Attempt>) returns (kept: nat)
      modifies attempts, db`rows
      ensures kept <= attempts.Length && attempts[..kept] == WithEvent(old(attempts[..]), db.events)
      ensures db.rows == CancelAll(old(db.rows), MissingIds(old(attempts[..]), db.events))
    {
      kept := 0;
      ghost var all := attempts[..];
      NothingToCancel(db.rows);
      for i := 0 to attempts.Length
        invariant kept <= i && forall k :: i <= k < attempts.Length ==> attempts[k] == all[k]
        invariant attempts[..kept] == WithEvent(all[..i], db.events)
        invariant db.rows == CancelAll(old(db.rows), MissingIds(all[..i], db.events))
      {
        ScanMore(all, i, db.events);
        var at := attempts[i];
        if at.row.event !in db.events {
          CancelMore(old(db.rows), MissingIds(all[..i], db.events), at.id);
          db.SetErrorCode(at.id, Canceled);
        } else {
          attempts[kept] := at;
          kept := kept + 1;
        }
      }
      assert all[..|all|] == all;
    }

    /**
     One transaction of the scan. The times it reads are inputs: the cutoff's, then ScheduleAttempts'. A commit that
     fails undoes the table's changes and not the queue's.
     */
    method ScanOnce(selectedAt: int, scheduledAt: int, dbNow: int, redisOk: bool, commitOk: bool)
      returns (done: bool, ok: bool)
      requires Valid() && selectedAt <= scheduledAt
      modifies db`rows, tasks.queue
      ensures ok == commitOk && (!ok ==> db.rows == old(db.rows))
      ensures var cutoff := selectedAt + 180_000;
              && OnlyRequeued(old(db.rows), db.rows, db.events, db.createdAt, db.locked, cutoff, dbNow)
              && (ok && done ==> Scanned(db.rows, db.createdAt, db.events, db.locked, cutoff, dbNow, redisOk))
      ensures ok && !done && (redisOk || |Deliverable(old(db.rows), db.events, db.locked)| < batchSize) ==>
        InitIds(db.rows) < InitIds(old(db.rows))
      ensures NewlyQueued(old(db.rows), db.rows, old(tasks.queue.Value()), tasks.queue.Value())
    {
      var cutoff := selectedAt + Delivery.PRE_SCHEDULE;
      var before := db.rows;
      var attempts := db.ListUnqueuedForUpdate(cutoff, dbNow, batchSize);
      ghost var batch := attempts[..];
      ghost var eligible := EligibleIds(db.rows, db.createdAt, db.locked, cutoff, dbNow);
      TakeBatch(attempts, scheduledAt, redisOk);
      done := attempts.Length < batchSize;
      ScanResult(before, db.rows, batch, db.events, eligible, batchSize, redisOk);
      if !redisOk { RefusedResult(before, batch, db.events, db.locked, eligible, batchSize); }
      QueuedAreInQueue(before, batch, db.events, old(tasks.queue.Value()), redisOk);
      if !commitOk { db.rows := before; }
      ok := commitOk;
    }

    /** The body of the transaction: cancel the attempts without an event, schedule the others. */
    method TakeBatch(attempts: array<Attempt>, now: int, redisOk: bool)
      requires Valid()
      requires forall i :: 0 <= i < attempts.Length ==> attempts[i].row.scheduledAt < now + Delivery.PRE_SCHEDULE
      modifies attempts, db`rows, tasks.queue
      ensures db.rows == ScanRows(old(db.rows), old(attempts[..]), db.events, redisOk)
      ensures tasks.queue.Value() == ScanQueue(old(tasks.queue.Value()), old(attempts[..]), db.events, redisOk)
    {
      ghost var batch := attempts[..];
      var kept := KeepWithEvent(attempts);
      WithEventMembers(batch, db.events);
      AllSchedulable(attempts[..kept], now);
      var _ := tasks.ScheduleAttempts(attempts[..kept], now, redisOk, true);
    }

    /**
     The requeue loop without other writers, in which Redis may refuse any of the transactions' batches or none. With
     Redis up it ends; with refusals it ends when fewer rows than a batch can be delivered. If the last batch was taken
     no eligible unlocked row is left for the last cutoff and database time used; otherwise every eligible row left has
     an event. A transaction that fails ends the loop with an error.
     */
    method LoadPending(clock: int, mayRefuse: bool) returns (cutoff: int, dbNow: int, ok: bool, redisOk: bool)
      requires Valid() && (!mayRefuse || |Deliverable(db.rows, db.events, db.locked)| < batchSize)
      modifies db`rows, tasks.queue
      ensures ok ==> Scanned(db.rows, db.createdAt, db.events, db.locked, cutoff, dbNow, redisOk)
      ensures redisOk || mayRefuse
      ensures cutoff >= clock + 180_000
      ensures TakenFrom(old(db.rows), db.rows, db.events, db.locked)
      ensures NewlyQueued(old(db.rows), db.rows, old(tasks.queue.Value()), tasks.queue.Value())
    {
      var done := false;
      var now := clock;
      cutoff, dbNow, ok, redisOk := clock + Delivery.PRE_SCHEDULE, clock, true, true;
      while !done
        invariant ok && now >= clock && cutoff >= clock + Delivery.PRE_SCHEDULE
        invariant TakenFrom(old(db.rows), db.rows, db.events, db.locked)
        invariant NewlyQueued(old(db.rows), db.rows, old(tasks.queue.Value()), tasks.queue.Value())
        invariant redisOk || mayRefuse
        invariant !mayRefuse || |Deliverable(db.rows, db.events, db.locked)| < batchSize
        invariant done ==> Scanned(db.rows, db.createdAt, db.events, db.locked, cutoff, dbNow, redisOk)
        decreases !done, InitIds(db.rows)
      {
        var selectedAt :| selectedAt >= now;
        var scheduledAt :| scheduledAt >= selectedAt;
        var commitOk: bool := *;
        dbNow := *;
        redisOk := *;
        if !mayRefuse { redisOk := true; }
        cutoff := selectedAt + Delivery.PRE_SCHEDULE;
        ghost var rows, queue := db.rows, tasks.queue.Value();
        done, ok := ScanOnce(selectedAt, scheduledAt, dbNow, redisOk, commitOk);
        TakenStep(old(db.rows), rows, db.rows, db.events, db.createdAt, db.locked, cutoff, dbNow);
        QueuedStep(old(db.rows), rows, db.rows, old(tasks.queue.Value()), queue, tasks.queue.Value(),
          db.events, db.locked);
        if !ok { return; }
        now := scheduledAt;
      }
    }
  }

  /**
   No row is left that is INIT, unlocked, at least 30 seconds old and due before the cutoff, or only such rows with an
   event, when Redis refused them.
   */
  ghost predicate Scanned(
    rows: Rows, createdAt: map<Id, int>, events: set<Id>, locked: set<Id>, cutoff: int, now: int, redisOk: bool)
  {
    forall id ::
      && id in rows && rows[id].status == Init && id !in locked && id in createdAt && createdAt[id] + 30_000 <= now
      && rows[id].scheduledAt < cutoff ==>
      !redisOk && rows[id].event in events
  }

  /** Every row is as it was, or was INIT and unlocked and has been queued or canceled by whether its event exists. */
  ghost predicate TakenFrom(before: Rows, after: Rows, events: set<Id>, locked: set<Id>)
  {
    && after.Keys == before.Keys
    && forall id :: id in before ==>
         || after[id] == before[id]
         || (before[id].status == Init && id !in locked && after[id] == Requeued(before[id], events))
  }

  lemma TakenStep(
    a: Rows, b: Rows, c: Rows, events: set<Id>, createdAt: map<Id, int>, locked: set<Id>, cutoff: int, now: int)
    requires TakenFrom(a, b, events, locked) && OnlyRequeued(b, c, events, createdAt, locked, cutoff, now)
    ensures TakenFrom(a, c, events, locked) && TakenFrom(b, c, events, locked)
    ensures Deliverable(c, events, locked) <= Deliverable(b, events, locked)
    ensures |Deliverable(c, events, locked)| <= |Deliverable(b, events, locked)|
  {
    SubsetSize(Deliverable(c, events, locked), Deliverable(b, events, locked));
  }

  lemma QueuedStep(a: Rows, b: Rows, c: Rows, p: Queue, q: Queue, r: Queue, events: set<Id>, locked: set<Id>)
    requires TakenFrom(a, b, events, locked) && TakenFrom(b, c, events, locked)
    requires NewlyQueued(a, b, p, q) && NewlyQueued(b, c, q, r)
    ensures NewlyQueued(a, c, p, r)
  {
  }

  function MissingIds(attempts: seq<Attempt>, events: set<Id>): seq<Id>
  {
    if attempts == [] then []
    else (if attempts[0].row.event in events then [] else [attempts[0].id]) + MissingIds(attempts[1..], events)
  }

  lemma {:induction false} MissingAppend(a: seq<Attempt>, x: Attempt, events: set<Id>)
    ensures MissingIds(a + [x], events) == MissingIds(a, events) + (if x.row.event in events then [] else [x.id])
  {
    if a == [] {
      assert a + [x] == [x];
    } else {
      assert (a + [x])[0] == a[0] && (a + [x])[1..] == a[1..] + [x];
      MissingAppend(a[1..], x, events);
      var head, rest := (if a[0].row.event in events then [] else [a[0].id]), MissingIds(a[1..], events);
      var last := if x.row.event in events then [] else [x.id];
      assert head + (rest + last) == head + rest + last;
    }
  }

  lemma {:induction false} MissingMembers(a: seq<Attempt>, events: set<Id>)
    ensures forall id :: id in MissingIds(a, events) <==> exists x :: x in a && x.id == id && x.row.event !in events
  {
    if a != [] {
      MissingMembers(a[1..], events);
      assert a == [a[0]] + a[1..];
    }
  }

  /** One more attempt scanned. */
  lemma ScanMore(all: seq<Attempt>, i: nat, events: set<Id>)
    requires i < |all|
    ensures WithEvent(all[..i + 1], events) == WithEvent(all[..i], events)
      + (if all[i].row.event in events then [all[i]] else [])
    ensures MissingIds(all[..i + 1], events) == MissingIds(all[..i], events)
      + (if all[i].row.event in events then [] else [all[i].id])
  {
    assert all[..i + 1] == all[..i] + [all[i]];
    WithEventAppend(all[..i], all[i], events);
    MissingAppend(all[..i], all[i], events);
  }

  lemma CancelMore(rows: Rows, ids: seq<Id>, id: Id)
    ensures UpdateErrorCode(CancelAll(rows, ids), id, Canceled) == CancelAll(rows, ids + [id])
  {
  }

  lemma NothingToCancel(rows: Rows)
    ensures CancelAll(rows, []) == rows
  {
    assert CancelAll(rows, []).Keys == rows.Keys;
  }

  /** The table after one transaction over a batch whose attempts are all due for scheduling. */
  function ScanRows(rows: Rows, batch: seq<Attempt>, events: set<Id>, redisOk: bool): Rows
  {
    var canceled := CancelAll(rows, MissingIds(batch, events));
    if redisOk then UpdateStatusToQueued(canceled, TaskIds(ToTasks(WithEvent(batch, events)))) else canceled
  }

  /** The queue after the same transaction. */
  function ScanQueue(queue: Queue, batch: seq<Attempt>, events: set<Id>, redisOk: bool): Queue
  {
    if redisOk then Add(queue, ToTasks(WithEvent(batch, events))) else queue
  }

  /** The rows a batch was read from. */
  ghost predicate ReadFrom(rows: Rows, batch: seq<Attempt>)
  {
    forall a :: a in batch ==> a.id in rows && rows[a.id] == a.row && a.row.status == Init
  }

  lemma TaskIdsOfKept(kept: seq<Attempt>)
    ensures TaskIds(ToTasks(kept)) == IdsOf(kept)
  {
    forall id | id in IdsOf(kept) ensures id in TaskIds(ToTasks(kept)) {
      var i :| 0 <= i < |kept| && kept[i].id == id;
      assert ToTasks(kept)[i] in ToTasks(kept);
    }
  }

  /** With Redis up, every row of the batch, and no other, has left INIT. */
  lemma BatchTaken(rows: Rows, batch: seq<Attempt>, events: set<Id>)
    requires ReadFrom(rows, batch)
    ensures var after := ScanRows(rows, batch, events, true);
            && after.Keys == rows.Keys
            && forall id :: id in rows ==>
                 after[id] == if id in IdsOf(batch) then Requeued(rows[id], events) else rows[id]
  {
    var kept, after := WithEvent(batch, events), ScanRows(rows, batch, events, true);
    WithEventMembers(batch, events);
    MissingMembers(batch, events);
    TaskIdsOfKept(kept);
    forall id | id in rows
      ensures after[id] == if id in IdsOf(batch) then Requeued(rows[id], events) else rows[id]
    {
      if a :| a in batch && a.id == id { assert a in kept <==> a.row.event in events; }
    }
  }

  /** Tasks of INIT rows with their own payloads. */
  ghost predicate OwnTasks(rows: Rows, tasks: seq<NewTask>)
  {
    forall t :: t in tasks ==>
      && t.id in rows && t.payload == PayloadOf(rows[t.id]) && t.at == rows[t.id].scheduledAt
      && rows[t.id].status == Init
  }

  lemma KeptTasks(rows: Rows, batch: seq<Attempt>, events: set<Id>)
    requires ReadFrom(rows, batch)
    ensures OwnTasks(rows, ToTasks(WithEvent(batch, events)))
  {
    var kept := WithEvent(batch, events);
    WithEventMembers(batch, events);
    forall t | t in ToTasks(kept)
      ensures t.id in rows && t.payload == PayloadOf(rows[t.id]) && t.at == rows[t.id].scheduledAt
      ensures rows[t.id].status == Init
    {
      var i :| 0 <= i < |kept| && ToTasks(kept)[i] == t;
      assert kept[i] in kept;
    }
  }

  lemma AddedTasks(rows: Rows, tasks: seq<NewTask>, queue: Queue)
    requires OwnTasks(rows, tasks)
    ensures var later := Add(queue, tasks);
            && queue.scores.Keys <= later.scores.Keys && queue.data.Keys <= later.data.Keys
            && (forall id :: id in rows && id in queue.data && rows[id].status != Init ==>
              later.data[id] == queue.data[id])
            && (forall id :: id in rows && id in queue.scores && rows[id].status != Init ==>
              later.scores[id] == queue.scores[id])
            && forall id :: id in TaskIds(tasks) ==>
                 && id in rows && id in later.scores && later.scores[id] == rows[id].scheduledAt
                 && id in later.data && later.data[id] == PayloadOf(rows[id])
  {
    HSetKeys(queue, tasks);
    ZAddKeys(HSet(queue, tasks), tasks);
  }

  lemma QueuedAreTaken(rows: Rows, batch: seq<Attempt>, events: set<Id>)
    requires ReadFrom(rows, batch)
    ensures var after := ScanRows(rows, batch, events, true);
            forall id :: id in rows && id in after && rows[id].status == Init && after[id].status == Queued ==>
              id in TaskIds(ToTasks(WithEvent(batch, events)))
  {
    var kept := WithEvent(batch, events);
    BatchTaken(rows, batch, events);
    WithEventMembers(batch, events);
    TaskIdsOfKept(kept);
    forall id | id in rows && rows[id].status == Init && ScanRows(rows, batch, events, true)[id].status == Queued
      ensures id in IdsOf(kept)
    {
      var a :| a in batch && a.id == id;
      assert a in kept;
    }
  }

  /** What a scan marks QUEUED is in the queue with its own payload, even if the commit fails afterwards. */
  lemma QueuedAreInQueue(rows: Rows, batch: seq<Attempt>, events: set<Id>, queue: Queue, redisOk: bool)
    requires ReadFrom(rows, batch)
    ensures NewlyQueued(rows, ScanRows(rows, batch, events, redisOk), queue, ScanQueue(queue, batch, events, redisOk))
    ensures NewlyQueued(rows, rows, queue, ScanQueue(queue, batch, events, redisOk))
  {
    if redisOk {
      KeptTasks(rows, batch, events);
      AddedTasks(rows, ToTasks(WithEvent(batch, events)), queue);
      QueuedAreTaken(rows, batch, events);
    }
  }

  /** The whole batch leaves INIT exactly when Redis is up or none of its events exists any more. */
  lemma BatchLeavesInit(rows: Rows, batch: seq<Attempt>, events: set<Id>, redisOk: bool)
    requires ReadFrom(rows, batch)
    ensures (forall a :: a in batch ==> ScanRows(rows, batch, events, redisOk)[a.id].status != Init)
       <==> (redisOk || forall a :: a in batch ==> a.row.event !in events)
  {
    if redisOk {
      BatchTaken(rows, batch, events);
    } else {
      MissingMembers(batch, events);
    }
  }

  /** The rows a selection of at most batchSize eligible rows may be. */
  ghost predicate IsSelection(rows: Rows, batch: seq<Attempt>, eligible: set<Id>, batchSize: nat)
  {
    && ReadFrom(rows, batch) && |batch| == Min(batchSize, |eligible|)
    && (forall i :: 0 <= i < |batch| ==> batch[i].id in eligible)
    && (forall i, j :: 0 <= i < j < |batch| ==> batch[i].id != batch[j].id)
  }

  /** What a scan did, from the selection and the batch alone. */
  lemma ScanResult(
    before: Rows, after: Rows, batch: seq<Attempt>, events: set<Id>, eligible: set<Id>, batchSize: nat, redisOk: bool)
    requires batchSize > 0 && IsSelection(before, batch, eligible, batchSize)
    requires after == ScanRows(before, batch, events, redisOk)
    ensures after.Keys == before.Keys
    ensures forall id :: id in before ==>
      after[id] == before[id] || (id in eligible && after[id] == Requeued(before[id], events))
    ensures |batch| < batchSize ==> forall id :: id in eligible && id in after && after[id].status == Init ==>
      !redisOk && after[id].event in events
    ensures |batch| == batchSize && redisOk ==> InitIds(after) < InitIds(before)
  {
    if redisOk { BatchTaken(before, batch, events); } else { MissingMembers(batch, events); }
    assert forall a :: a in batch ==> a.id in eligible && before[a.id] == a.row;
    if |batch| < batchSize {
      WholeEligibleSet(eligible, batch);
    } else if redisOk {
      assert batch[0].id in InitIds(before) && batch[0].id !in InitIds(after);
    }
  }

  /** With Redis refusing, a full batch holds a row without an event, which is canceled, if too few rows have one. */
  lemma RefusedResult(
    rows: Rows, batch: seq<Attempt>, events: set<Id>, locked: set<Id>, eligible: set<Id>, batchSize: nat)
    requires IsSelection(rows, batch, eligible, batchSize) && eligible !! locked
    ensures |batch| == batchSize && |Deliverable(rows, events, locked)| < batchSize ==>
      InitIds(ScanRows(rows, batch, events, false)) < InitIds(rows)
  {
    if |batch| == batchSize && |Deliverable(rows, events, locked)| < batchSize {
      DistinctIds(batch);
      if forall a :: a in batch ==> a.row.event in events {
        SubsetSize(IdsOf(batch), Deliverable(rows, events, locked));
      }
      var a :| a in batch && a.row.event !in events;
      MissingMembers(batch, events);
      assert a.id in InitIds(rows) && a.id !in InitIds(ScanRows(rows, batch, events, false));
    }
  }

  /** A batch shorter than the limit is the whole eligible set. */
  lemma WholeEligibleSet(eligible: set<Id>, batch: seq<Attempt>)
    requires |batch| == |eligible|
    requires forall i :: 0 <= i < |batch| ==> batch[i].id in eligible
    requires forall i, j :: 0 <= i < j < |batch| ==> batch[i].id != batch[j].id
    ensures eligible == IdsOf(batch)
  {
    DistinctIds(batch);
    assert forall a :: a in batch ==> a.id in eligible;
    SubsetOfSameSize(IdsOf(batch), eligible);
  }

  lemma {:induction false} SubsetOfSameSize(a: set<Id>, b: set<Id>)
    requires a <= b && |a| == |b|
    ensures a == b
  {
    assert |b - a| == |b| - |a|;
  }

  lemma {:induction false} DistinctIds(batch: seq<Attempt>)
    requires forall i, j :: 0 <= i < j < |batch| ==> batch[i].id != batch[j].id
    ensures |IdsOf(batch)| == |batch|
  {
    if batch != [] {
      DistinctIds(batch[1..]);
      assert batch == [batch[0]] + batch[1..];
      assert IdsOf(batch) == {batch[0].id} + IdsOf(batch[1..]);
      assert batch[0].id !in IdsOf(batch[1..]);
    }
  }
}
