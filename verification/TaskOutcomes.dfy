/** What handling one task comes to, branch by branch: the row, the next attempt, and the task itself. */
module TaskOutcomes {
  import opened Common
  import opened TaskQueue
  import opened Attempts
  import opened TaskRunner

  /** Every call of a Ready endpoint's handling that is made succeeds, up to the insert of the next attempt. */
  predicate Handles(i: Inputs) { i.check.Ready? && i.writeOk }

  /** A failed request that was not denied, with an entry of the retry list left. */
  predicate Owed(p: Payload, retry: seq<nat>, i: Inputs) { !i.is2xx && !i.denied && p.number < |retry| }

  /** The next attempt, due by the list's entry after the request. */
  function DueAt(p: Payload, retry: seq<nat>, i: Inputs): int
    requires p.number < |retry|
  {
    i.finishAt + 1000 * retry[p.number]
  }

  lemma AddOne(queue: Queue, t: NewTask)
    ensures Add(queue, [t]) == Queue(queue.scores[t.id := t.at], queue.data[t.id := t.payload])
    ensures TaskIds([t]) == {t.id}
  {
    SingleTask(queue, t);
    SingleTask(HSet(queue, [t]), t);
    assert t in [t];
  }

  /** The result goes into the attempt's own row: SUCCESSFUL or FAILED, and whether this was the last attempt. */
  lemma ResultIsWritten(rows: Rows, queue: Queue, task: Task, retry: seq<nat>, i: Inputs)
    requires task.payload.Some? && Handles(i) && task.id in rows && i.nextId !in rows
    ensures var after, p := Ran(rows, queue, task, retry, i).rows, task.payload.value;
            && task.id in after
            && after[task.id].status == (if i.is2xx then Successful else Failed)
            && (after[task.id].exhausted <==> i.denied || p.number >= |retry|)
            && PayloadOf(after[task.id]) == PayloadOf(rows[task.id])
            && after[task.id].scheduledAt == rows[task.id].scheduledAt
            && (forall id :: id in rows && id != task.id ==> id in after && after[id] == rows[id])
  {
    if Owed(task.payload.value, retry, i) && i.insertOk { AddsNext(rows, queue, task, retry, i); }
  }

  /** The rows with the result written and the next attempt inserted, before it is scheduled. */
  function WithNext(rows: Rows, task: Task, retry: seq<nat>, i: Inputs): Rows
    requires task.payload.Some? && task.payload.value.number < |retry|
  {
    var p := task.payload.value;
    UpdateDelivery(rows, task.id, Failed, false)[
      i.nextId := Row(p.event, p.endpoint, p.number + 1, DueAt(p, retry, i), Init, false)]
  }

  lemma AddsNext(rows: Rows, queue: Queue, task: Task, retry: seq<nat>, i: Inputs)
    requires task.payload.Some? && Handles(i) && Owed(task.payload.value, retry, i) && i.insertOk
    ensures var p := task.payload.value;
            var at, r := DueAt(p, retry, i), Ran(rows, queue, task, retry, i);
            var added := if at < i.later + 180_000 && i.redisOk
              then Queue(queue.scores[i.nextId := at],
                         queue.data[i.nextId := Payload(p.event, p.endpoint, p.number + 1)]) else queue;
            && r.ok
            && r.rows == (if at < i.later + 180_000 && i.redisOk && i.sqlOk
                then UpdateStatusToQueued(WithNext(rows, task, retry, i), {i.nextId})
                else WithNext(rows, task, retry, i))
            && r.queue == if i.deleteOk then Queue(added.scores - {task.id}, added.data - {task.id}) else added
  {
    var p := task.payload.value;
    AddOne(queue, NewTask(i.nextId, DueAt(p, retry, i), Payload(p.event, p.endpoint, p.number + 1)));
  }

  /**
   A next attempt is inserted if and only if one is owed, and the insert succeeds: one number higher, of the same event
   and endpoint, due after the list's delay, and QUEUED with its task if that is within three minutes.
   */
  lemma RetryIffOwed(rows: Rows, queue: Queue, task: Task, retry: seq<nat>, i: Inputs)
    requires task.payload.Some? && Handles(i) && task.id in rows && i.nextId !in rows && i.nextId !in queue.scores
    ensures var r, p := Ran(rows, queue, task, retry, i), task.payload.value;
            && (i.nextId in r.rows <==> !i.is2xx && !i.denied && p.number < |retry| && i.insertOk)
            && r.rows.Keys <= rows.Keys + {i.nextId}
            && (i.nextId in r.rows ==>
              var row, soon := r.rows[i.nextId], i.finishAt + 1000 * retry[p.number] < i.later + 180_000;
              && row.event == p.event && row.endpoint == p.endpoint && row.number == p.number + 1 && !row.exhausted
              && row.scheduledAt == i.finishAt + 1000 * retry[p.number]
              && row.status == (if soon && i.redisOk && i.sqlOk then Queued else Init)
              && (i.nextId in r.queue.scores <==> soon && i.redisOk)
              && (soon && i.redisOk ==> i.nextId in r.queue.data && r.queue.scores[i.nextId] == row.scheduledAt
                                        && r.queue.data[i.nextId] == PayloadOf(row)))
  {
    if Owed(task.payload.value, retry, i) && i.insertOk { AddsNext(rows, queue, task, retry, i); }
  }

  /** Handling ended without error: everything that had to be written was. */
  predicate Finished(p: Payload, retry: seq<nat>, i: Inputs)
  {
    match i.check
    case Broken => false
    case Limited(_) => false
    case Ready => i.writeOk && (!Owed(p, retry, i) || i.insertOk)
    case _ => i.cancelOk
  }

  /** The task leaves the queue if and only if its payload was unreadable or it was handled to the end. */
  lemma DeletedIffDone(rows: Rows, queue: Queue, task: Task, retry: seq<nat>, i: Inputs)
    requires task.id in queue.scores && task.id in queue.data && i.nextId != task.id && i.deleteOk
    ensures var q := Ran(rows, queue, task, retry, i).queue;
            var done := task.payload.None? || Finished(task.payload.value, retry, i);
            && (task.id !in q.scores <==> done) && (task.id !in q.data <==> done)
            && (forall id :: id in queue.scores && id != task.id && id != i.nextId ==>
              id in q.scores && q.scores[id] == queue.scores[id])
            && (forall id :: id in queue.data && id != task.id && id != i.nextId ==>
              id in q.data && q.data[id] == queue.data[id])
  {
    if task.payload.Some? && Handles(i) && Owed(task.payload.value, retry, i) && i.insertOk {
      AddsNext(rows, queue, task, retry, i);
    }
  }

  /** A rate-limited task stays with its payload, due when the period is over, and its row is not touched. */
  lemma LimitedComesBack(rows: Rows, queue: Queue, task: Task, retry: seq<nat>, i: Inputs)
    requires task.payload.Some? && i.check.Limited? && i.limitOk
    ensures var r := Ran(rows, queue, task, retry, i);
            && r.rows == rows && r.queue.data == queue.data
            && task.id in r.queue.scores && r.queue.scores[task.id] == i.now + 1000 * i.check.period
            && forall id :: id in queue.scores && id != task.id ==>
                 id in r.queue.scores && r.queue.scores[id] == queue.scores[id]
  {
  }

  /** Without an enabled endpoint or a request to send, the attempt is CANCELED, and nothing else in the table. */
  lemma CanceledWithoutRequest(rows: Rows, queue: Queue, task: Task, retry: seq<nat>, i: Inputs)
    requires task.payload.Some? && task.id in rows && (i.check.Missing? || i.check.Disabled? || i.check.Malformed?)
    ensures var after := Ran(rows, queue, task, retry, i).rows;
            && after.Keys == rows.Keys && (forall id :: id in rows && id != task.id ==> after[id] == rows[id])
            && after[task.id] == if i.cancelOk then rows[task.id].(status := Canceled) else rows[task.id]
  {
  }
}
