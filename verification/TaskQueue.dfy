/**
 The delayed task queue of pkg/taskqueue/redis.go: a Redis sorted set of task ids scored by
 due time in milliseconds, and a Redis hash holding each task's payload.
 */
module TaskQueue {
  import opened Common

  /** MessageData, without the event body. */
  datatype Payload = Payload(event: Id, endpoint: Id, number: nat)

  /** A task handed to Add. */
  datatype NewTask = NewTask(id: Id, at: int, payload: Payload)

  /** A task as returned by Get: the score it had before the call and its payload, nil when the hash has none. */
  datatype Task = Task(id: Id, score: int, payload: Option<Payload>)

  datatype Queue = Queue(scores: map<Id, int>, data: map<Id, Payload>)

  // ------------------------------------------------------------------ Redis commands on values

  function HSet(q: Queue, tasks: seq<NewTask>): Queue
    decreases tasks
  {
    if tasks == [] then q
    else HSet(q.(data := q.data[tasks[0].id := tasks[0].payload]), tasks[1..])
  }

  function ZAdd(q: Queue, tasks: seq<NewTask>): Queue
    decreases tasks
  {
    if tasks == [] then q
    else ZAdd(q.(scores := q.scores[tasks[0].id := tasks[0].at]), tasks[1..])
  }

  function Add(q: Queue, tasks: seq<NewTask>): Queue { ZAdd(HSet(q, tasks), tasks) }

  function Schedule(q: Queue, id: Id, at: int): Queue { q.(scores := q.scores[id := at]) }

  function HDel(q: Queue, ids: set<Id>): Queue { q.(data := q.data - ids) }

  function ZRem(q: Queue, ids: set<Id>): Queue { q.(scores := q.scores - ids) }

  function Delete(q: Queue, ids: set<Id>): Queue { ZRem(HDel(q, ids), ids) }

  function TaskIds(tasks: seq<NewTask>): set<Id> { set t | t in tasks :: t.id }

  lemma {:induction false} HSetKeys(q: Queue, tasks: seq<NewTask>)
    ensures HSet(q, tasks).scores == q.scores
    ensures HSet(q, tasks).data.Keys == q.data.Keys + TaskIds(tasks)
    ensures forall id :: id in q.data && id !in TaskIds(tasks) ==> HSet(q, tasks).data[id] == q.data[id]
    ensures forall id :: id in HSet(q, tasks).data && id in TaskIds(tasks) ==>
      exists t :: t in tasks && t.id == id && HSet(q, tasks).data[id] == t.payload
    decreases tasks
  {
    if tasks != [] {
      HSetKeys(q.(data := q.data[tasks[0].id := tasks[0].payload]), tasks[1..]);
      assert tasks == [tasks[0]] + tasks[1..];
      assert TaskIds(tasks) == {tasks[0].id} + TaskIds(tasks[1..]);
    }
  }

  lemma {:induction false} ZAddKeys(q: Queue, tasks: seq<NewTask>)
    ensures ZAdd(q, tasks).data == q.data
    ensures ZAdd(q, tasks).scores.Keys == q.scores.Keys + TaskIds(tasks)
    ensures forall id :: id in q.scores && id !in TaskIds(tasks) ==> ZAdd(q, tasks).scores[id] == q.scores[id]
    ensures forall id :: id in ZAdd(q, tasks).scores && id in TaskIds(tasks) ==>
      exists t :: t in tasks && t.id == id && ZAdd(q, tasks).scores[id] == t.at
    decreases tasks
  {
    if tasks != [] {
      ZAddKeys(q.(scores := q.scores[tasks[0].id := tasks[0].at]), tasks[1..]);
      assert tasks == [tasks[0]] + tasks[1..];
      assert TaskIds(tasks) == {tasks[0].id} + TaskIds(tasks[1..]);
    }
  }

  lemma SingleTask(q: Queue, task: NewTask)
    ensures HSet(q, [task]) == q.(data := q.data[task.id := task.payload])
    ensures ZAdd(q, [task]) == q.(scores := q.scores[task.id := task.at])
  {
    assert [task][1..] == [];
  }

  /** Of several tasks with one id the last one counts. */
  lemma {:induction false} LastTaskCounts(q: Queue, tasks: seq<NewTask>, i: nat)
    requires i < |tasks| && forall k :: i < k < |tasks| ==> tasks[k].id != tasks[i].id
    ensures var t, after := tasks[i], Add(q, tasks);
            t.id in after.scores && after.scores[t.id] == t.at && t.id in after.data && after.data[t.id] == t.payload
    decreases |tasks|
  {
    HSetLast(q, tasks, i);
    ZAddLast(HSet(q, tasks), tasks, i);
    ZAddKeys(HSet(q, tasks), tasks);
  }

  lemma {:induction false} HSetLast(q: Queue, tasks: seq<NewTask>, i: nat)
    requires i < |tasks| && forall k :: i < k < |tasks| ==> tasks[k].id != tasks[i].id
    ensures tasks[i].id in HSet(q, tasks).data && HSet(q, tasks).data[tasks[i].id] == tasks[i].payload
    decreases |tasks|
  {
    var next := q.(data := q.data[tasks[0].id := tasks[0].payload]);
    if i == 0 {
      HSetKeys(next, tasks[1..]);
      assert forall t :: t in tasks[1..] ==> exists k :: 0 < k < |tasks| && tasks[k] == t;
    } else {
      HSetLast(next, tasks[1..], i - 1);
    }
  }

  lemma {:induction false} ZAddLast(q: Queue, tasks: seq<NewTask>, i: nat)
    requires i < |tasks| && forall k :: i < k < |tasks| ==> tasks[k].id != tasks[i].id
    ensures tasks[i].id in ZAdd(q, tasks).scores && ZAdd(q, tasks).scores[tasks[i].id] == tasks[i].at
    decreases |tasks|
  {
    var next := q.(scores := q.scores[tasks[0].id := tasks[0].at]);
    if i == 0 {
      ZAddKeys(next, tasks[1..]);
      assert forall t :: t in tasks[1..] ==> exists k :: 0 < k < |tasks| && tasks[k] == t;
    } else {
      ZAddLast(next, tasks[1..], i - 1);
    }
  }

  // ------------------------------------------------------------------ Get

  /** The sorted set's order: by score, then by member. */
  predicate Before(scores: map<Id, int>, a: Id, b: Id)
    requires a in scores && b in scores
  {
    scores[a] < scores[b] || (scores[a] == scores[b] && a < b)
  }

  /** ZRANGE key 0 now BYSCORE: negative scores are never due. */
  function Due(scores: map<Id, int>, now: int): set<Id>
  {
    set id | id in scores && 0 <= scores[id] <= now
  }

  ghost predicate IsFirst(scores: map<Id, int>, pool: set<Id>, m: Id)
    requires pool <= scores.Keys
  {
    m in pool && forall o :: o in pool && o != m ==> Before(scores, m, o)
  }

  lemma {:induction false} FirstExists(scores: map<Id, int>, pool: set<Id>)
    requires pool <= scores.Keys && pool != {}
    ensures exists m :: IsFirst(scores, pool, m)
  {
    var x :| x in pool;
    if pool == {x} {
      assert IsFirst(scores, pool, x);
    } else {
      var rest := pool - {x};
      assert pool == rest + {x};
      FirstExists(scores, rest);
      var m :| IsFirst(scores, rest, m);
      var least := if Before(scores, x, m) then x else m;
      forall o | o in pool && o != least ensures Before(scores, least, o) {
        assert o == x || o in rest;
      }
      assert IsFirst(scores, pool, least);
    }
  }

  ghost function First(scores: map<Id, int>, pool: set<Id>): (m: Id)
    requires pool <= scores.Keys && pool != {}
    ensures IsFirst(scores, pool, m)
  {
    FirstExists(scores, pool);
    var m :| IsFirst(scores, pool, m);
    m
  }

  /** LIMIT 0 count: a negative count means no limit. */
  function Limit(count: int, due: nat): nat { if count < 0 || due < count then due else count }

  ghost function Take(scores: map<Id, int>, pool: set<Id>, n: nat): (ids: seq<Id>)
    requires pool <= scores.Keys && n <= |pool|
    ensures forall id :: id in ids ==> id in pool
  {
    if n == 0 then []
    else
      var m := First(scores, pool);
      [m] + Take(scores, pool - {m}, n - 1)
  }

  ghost function GetIds(q: Queue, now: int, count: int): (ids: seq<Id>)
    ensures forall i :: 0 <= i < |ids| ==> ids[i] in q.scores
  {
    var due := Due(q.scores, now);
    Take(q.scores, due, Limit(count, |due|))
  }

  function Claimed(q: Queue, ids: seq<Id>, timeout: int): Queue
  {
    q.(scores := q.scores + map id | id in ids :: timeout)
  }

  function Fetched(q: Queue, id: Id): Task
    requires id in q.scores
  {
    Task(id, q.scores[id], if id in q.data then Some(q.data[id]) else None)
  }

  /** What a Get must return, said without an algorithm: due ids by score and then by id, the first `count` of them. */
  ghost predicate IsGet(q: Queue, now: int, count: int, ids: seq<Id>)
  {
    var due := set id | id in q.scores && 0 <= q.scores[id] <= now;
    && |ids| == (if 0 <= count < |due| then count else |due|)
    && (forall i :: 0 <= i < |ids| ==> ids[i] in q.scores && 0 <= q.scores[ids[i]] <= now)
    && (forall i, j :: 0 <= i < j < |ids| ==>
         q.scores[ids[i]] < q.scores[ids[j]] || (q.scores[ids[i]] == q.scores[ids[j]] && ids[i] < ids[j]))
    && (forall i, o :: 0 <= i < |ids| && o in due && o !in ids ==>
         q.scores[ids[i]] < q.scores[o] || (q.scores[ids[i]] == q.scores[o] && ids[i] < o))
  }

  lemma {:induction false} TakeIsSmallest(scores: map<Id, int>, pool: set<Id>, n: nat)
    requires pool <= scores.Keys && n <= |pool|
    ensures |Take(scores, pool, n)| == n
    ensures forall i :: 0 <= i < n ==> Take(scores, pool, n)[i] in pool
    ensures forall i, j :: 0 <= i < j < n ==> Before(scores, Take(scores, pool, n)[i], Take(scores, pool, n)[j])
    ensures forall i, o :: 0 <= i < n && o in pool && o !in Take(scores, pool, n) ==>
      Before(scores, Take(scores, pool, n)[i], o)
  {
    if n > 0 {
      var m := First(scores, pool);
      TakeIsSmallest(scores, pool - {m}, n - 1);
      var rest := Take(scores, pool - {m}, n - 1);
      assert Take(scores, pool, n) == [m] + rest;
      forall i, o | 0 <= i < n && o in pool && o !in [m] + rest
        ensures Before(scores, ([m] + rest)[i], o)
      {
        assert m in [m] + rest;
        assert o in pool - {m} && o !in rest;
      }
    }
  }

  /** Get meets its description. */
  lemma GetReturnsSmallestDue(q: Queue, now: int, count: int)
    ensures IsGet(q, now, count, GetIds(q, now, count))
  {
    var due := Due(q.scores, now);
    TakeIsSmallest(q.scores, due, Limit(count, |due|));
    assert due == set id | id in q.scores && 0 <= q.scores[id] <= now;
  }

  /** The description leaves no choice. */
  lemma {:induction false} GetIsUnique(q: Queue, now: int, count: int, a: seq<Id>, b: seq<Id>)
    requires IsGet(q, now, count, a) && IsGet(q, now, count, b)
    ensures a == b
  {
    GetIsSmallest(q, now, count, a);
    GetIsSmallest(q, now, count, b);
    var due := Due(q.scores, now);
    forall i | 0 <= i < |a| ensures a[i] == b[i] { SmallestAgree(q.scores, due, |a|, a, b, i); }
  }

  /** The n smallest ids of a pool, in order. */
  ghost predicate IsSmallest(scores: map<Id, int>, pool: set<Id>, n: nat, ids: seq<Id>)
    requires pool <= scores.Keys
  {
    && |ids| == n
    && (forall i :: 0 <= i < |ids| ==> ids[i] in pool)
    && (forall i, j :: 0 <= i < j < |ids| ==> Before(scores, ids[i], ids[j]))
    && (forall i, o :: 0 <= i < |ids| && o in pool && o !in ids ==> Before(scores, ids[i], o))
  }

  lemma GetIsSmallest(q: Queue, now: int, count: int, ids: seq<Id>)
    requires IsGet(q, now, count, ids)
    ensures IsSmallest(q.scores, Due(q.scores, now), |ids|, ids)
    ensures |ids| == Limit(count, |Due(q.scores, now)|)
  {
    assert Due(q.scores, now) == set id | id in q.scores && 0 <= q.scores[id] <= now;
  }

  lemma {:induction false} SmallestAgree(
    scores: map<Id, int>, pool: set<Id>, n: nat, a: seq<Id>, b: seq<Id>, i: nat)
    requires pool <= scores.Keys && IsSmallest(scores, pool, n, a) && IsSmallest(scores, pool, n, b) && i < n
    ensures a[i] == b[i]
  {
    forall j | 0 <= j < i ensures a[j] == b[j] { SmallestAgree(scores, pool, n, a, b, j); }
    if Before(scores, a[i], b[i]) {
      if a[i] in b {
        var k :| 0 <= k < |b| && b[k] == a[i];
      }
    } else if Before(scores, b[i], a[i]) {
      if b[i] in a {
        var k :| 0 <= k < |a| && a[k] == b[i];
      }
    }
  }

  // ------------------------------------------------------------------ the Redis-backed object

  class RedisTaskQueue {
    var scores: map<Id, int>
    var data: map<Id, Payload>
    const visibilityTimeout: nat

    constructor (visibilityTimeout: nat)
      ensures Value() == Queue(map[], map[]) && this.visibilityTimeout == visibilityTimeout
    {
      this.visibilityTimeout := visibilityTimeout;
      scores, data := map[], map[];
    }

    function Value(): Queue reads this { Queue(scores, data) }

    /** HSET of every payload, then ZADD of every member. */
    method AddTasks(tasks: seq<NewTask>)
      modifies this
      ensures Value() == Add(old(Value()), tasks)
    {
      for i := 0 to |tasks|
        invariant HSet(Value(), tasks[i..]) == HSet(old(Value()), tasks)
      {
        assert tasks[i..][1..] == tasks[i + 1..];
        data := data[tasks[i].id := tasks[i].payload];
      }
      for i := 0 to |tasks|
        invariant ZAdd(Value(), tasks[i..]) == Add(old(Value()), tasks)
      {
        assert tasks[i..][1..] == tasks[i + 1..];
        scores := scores[tasks[i].id := tasks[i].at];
      }
    }

    method ScheduleTask(id: Id, at: int)
      modifies this
      ensures Value() == Schedule(old(Value()), id, at)
    {
      scores := scores[id := at];
    }

    /** The claim script: every id returned keeps its payload and is pushed past the visibility timeout. */
    method GetTasks(now: int, count: int) returns (list: seq<Task>)
      modifies this`scores
      ensures |list| == |GetIds(old(Value()), now, count)|
      ensures forall i :: 0 <= i < |list| ==> list[i] == Fetched(old(Value()), GetIds(old(Value()), now, count)[i])
      ensures Value() == Claimed(old(Value()), GetIds(old(Value()), now, count), now + visibilityTimeout)
    {
      ghost var q := Value();
      var due := Due(scores, now);
      var n := Limit(count, |due|);
      var ids: seq<Id> := [];
      var pool := due;
      list := [];
      while |ids| < n
        invariant |ids| == |list| <= n && scores == q.scores && data == q.data
        invariant pool <= due && |pool| == |due| - |ids|
        invariant ids + Take(q.scores, pool, n - |ids|) == Take(q.scores, due, n)
        invariant forall i :: 0 <= i < |ids| ==> ids[i] in due && list[i] == Fetched(q, ids[i])
        decreases n - |ids|
      {
        var m := SelectFirst(pool);
        FirstIsUnique(q.scores, pool, m, First(q.scores, pool));
        assert ids + Take(q.scores, pool, n - |ids|) == (ids + [m]) + Take(q.scores, pool - {m}, n - |ids| - 1);
        list := list + [Task(m, scores[m], if m in data then Some(data[m]) else None)];
        ids := ids + [m];
        pool := pool - {m};
      }
      assert ids == Take(q.scores, due, n) == GetIds(q, now, count);
      scores := scores + map id | id in ids :: now + visibilityTimeout;
    }

    method SelectFirst(pool: set<Id>) returns (m: Id)
      requires pool <= scores.Keys && pool != {}
      ensures IsFirst(scores, pool, m)
    {
      m :| m in pool;
      var rest := pool - {m};
      while rest != {}
        invariant rest <= pool && m in pool - rest
        invariant forall o :: o in pool - rest && o != m ==> Before(scores, m, o)
        decreases rest
      {
        var x :| x in rest;
        ghost var seen := pool - rest;
        if Before(scores, x, m) { m := x; }
        rest := rest - {x};
        assert forall o :: o in pool - rest ==> o in seen || o == x;
      }
    }

    /** HDEL of every payload, then ZREM of every member. */
    method DeleteTasks(ids: seq<Id>)
      modifies this
      ensures Value() == Delete(old(Value()), set id | id in ids)
    {
      var gone := set id | id in ids;
      data := data - gone;
      scores := scores - gone;
    }
  }

  lemma FirstIsUnique(scores: map<Id, int>, pool: set<Id>, a: Id, b: Id)
    requires pool <= scores.Keys && IsFirst(scores, pool, a) && IsFirst(scores, pool, b)
    ensures a == b
  {
    assert a != b ==> Before(scores, a, b);
  }

  /** Every task is rescheduled for the time it was returned with. */
  function HandedBack(q: Queue, tasks: seq<Task>): Queue
  {
    if tasks == [] then q
    else
      var last := tasks[|tasks| - 1];
      Schedule(HandedBack(q, tasks[..|tasks| - 1]), last.id, last.score)
  }

  lemma {:induction false} HandedBackScores(q: Queue, tasks: seq<Task>)
    requires forall i, j :: 0 <= i < j < |tasks| ==> tasks[i].id != tasks[j].id
    ensures var after := HandedBack(q, tasks);
            && after.data == q.data
            && (forall i :: 0 <= i < |tasks| ==>
                 tasks[i].id in after.scores && after.scores[tasks[i].id] == tasks[i].score)
            && (forall id :: (forall t :: t in tasks ==> t.id != id) ==>
                 (id in after.scores <==> id in q.scores)
                 && (id in q.scores ==> after.scores[id] == q.scores[id]))
  {
    if tasks != [] {
      var rest, last := tasks[..|tasks| - 1], tasks[|tasks| - 1];
      assert tasks == rest + [last];
      HandedBackScores(q, rest);
    }
  }

  lemma GetIsDistinct(q: Queue, now: int, count: int)
    ensures Distinct(GetIds(q, now, count))
  {
    GetReturnsSmallestDue(q, now, count);
  }

  /** Handing back everything a Get returned undoes the Get. */
  lemma HandingBackUndoes(q: Queue, now: int, count: int, timeout: int, tasks: seq<Task>)
    requires var ids := GetIds(q, now, count);
             |tasks| == |ids| && forall i :: 0 <= i < |tasks| ==> tasks[i] == Fetched(q, ids[i])
    ensures HandedBack(Claimed(q, GetIds(q, now, count), timeout), tasks) == q
  {
    var ids := GetIds(q, now, count);
    var claimed := Claimed(q, ids, timeout);
    GetIsDistinct(q, now, count);
    HandedBackScores(claimed, tasks);
    var after := HandedBack(claimed, tasks);
    forall id ensures id in after.scores <==> id in q.scores
      ensures id in q.scores ==> after.scores[id] == q.scores[id]
    {
      if id in ids {
        var i :| 0 <= i < |ids| && ids[i] == id;
        assert tasks[i].id == id && tasks[i].score == q.scores[id];
      } else {
        assert forall t :: t in tasks ==> t.id in ids;
      }
    }
    assert after.scores == q.scores;
  }

  // ------------------------------------------------------------------ leases over whole runs

  datatype Op =
    | AddOp(tasks: seq<NewTask>)
    | ScheduleOp(id: Id, at: int)
    | GetOp(now: int, count: int)
    | DeleteOp(ids: set<Id>)

  ghost function Returned(q: Queue, op: Op): seq<Id>
  {
    if op.GetOp? then GetIds(q, op.now, op.count) else []
  }

  ghost function Apply(visibility: nat, q: Queue, op: Op): Queue
  {
    match op
    case AddOp(tasks) => Add(q, tasks)
    case ScheduleOp(id, at) => Schedule(q, id, at)
    case GetOp(now, _) => Claimed(q, Returned(q, op), now + visibility)
    case DeleteOp(ids) => Delete(q, ids)
  }

  /** The queue after the first n operations of a run. */
  ghost function After(visibility: nat, q: Queue, ops: seq<Op>, n: nat): Queue
    requires n <= |ops|
  {
    if n == 0 then q else Apply(visibility, After(visibility, q, ops, n - 1), ops[n - 1])
  }

  predicate Reschedules(op: Op, id: Id)
  {
    || (op.AddOp? && id in TaskIds(op.tasks))
    || (op.ScheduleOp? && op.id == id)
  }

  /** While nobody re-adds or reschedules an id, its lease can only move later. */
  lemma {:induction false} LeaseHolds(visibility: nat, q: Queue, ops: seq<Op>, from: nat, n: nat, id: Id, until: int)
    requires from <= n <= |ops|
    requires id in After(visibility, q, ops, from).scores ==> After(visibility, q, ops, from).scores[id] >= until
    requires forall k :: from <= k < n ==> !Reschedules(ops[k], id)
    ensures id in After(visibility, q, ops, n).scores ==> After(visibility, q, ops, n).scores[id] >= until
    decreases n
  {
    if from < n {
      LeaseHolds(visibility, q, ops, from, n - 1, id, until);
      var before, op := After(visibility, q, ops, n - 1), ops[n - 1];
      match op {
        case AddOp(tasks) => HSetKeys(before, tasks); ZAddKeys(HSet(before, tasks), tasks);
        case GetOp(now, count) => GetReturnsSmallestDue(before, now, count);
        case _ =>
      }
    }
  }

  lemma Claims(visibility: nat, q: Queue, op: Op, id: Id)
    requires op.GetOp? && id in Returned(q, op)
    ensures id in Apply(visibility, q, op).scores && Apply(visibility, q, op).scores[id] == op.now + visibility
  {
  }

  lemma ReturnedIsDue(q: Queue, op: Op, id: Id)
    requires op.GetOp? && id in Returned(q, op)
    ensures id in q.scores && q.scores[id] <= op.now
  {
    assert id in Due(q.scores, op.now);
  }

  lemma LeaseFrom(visibility: nat, q: Queue, ops: seq<Op>, i: nat, j: nat, id: Id)
    requires i < j < |ops| && ops[i].GetOp? && id in Returned(After(visibility, q, ops, i), ops[i])
    requires forall k :: i < k < j ==> !Reschedules(ops[k], id)
    ensures id in After(visibility, q, ops, j).scores ==>
      After(visibility, q, ops, j).scores[id] >= ops[i].now + visibility
  {
    Claims(visibility, After(visibility, q, ops, i), ops[i], id);
    LeaseHolds(visibility, q, ops, i + 1, j, id, ops[i].now + visibility);
  }

  /** Queue lease: two Gets returning one id, with no Add or Schedule of it between, are a visibility timeout apart. */
  lemma Lease(visibility: nat, q: Queue, ops: seq<Op>, i: nat, j: nat, id: Id)
    requires i < j < |ops| && ops[i].GetOp? && ops[j].GetOp?
    requires id in Returned(After(visibility, q, ops, i), ops[i])
    requires id in Returned(After(visibility, q, ops, j), ops[j])
    requires forall k :: i < k < j ==> !Reschedules(ops[k], id)
    ensures ops[j].now >= ops[i].now + visibility
  {
    LeaseFrom(visibility, q, ops, i, j, id);
    ReturnedIsDue(After(visibility, q, ops, j), ops[j], id);
  }

  // ------------------------------------------------------------------ what a time means over whole runs

  /** The operation enqueues an id, or reschedules it, for a time. */
  ghost predicate SchedulesFor(op: Op, id: Id, at: int)
  {
    || op == ScheduleOp(id, at)
    || (op.AddOp? && id in TaskIds(op.tasks) && forall t :: t in op.tasks && t.id == id ==> t.at == at)
  }

  lemma ScheduledFor(visibility: nat, q: Queue, op: Op, id: Id, at: int)
    requires SchedulesFor(op, id, at)
    ensures id in Apply(visibility, q, op).scores && Apply(visibility, q, op).scores[id] == at
  {
    if op.AddOp? {
      HSetKeys(q, op.tasks);
      ZAddKeys(HSet(q, op.tasks), op.tasks);
    }
  }

  /** An id scheduled for a time is returned by no Get before it, unless it is scheduled anew. */
  lemma NotBefore(visibility: nat, q: Queue, ops: seq<Op>, i: nat, j: nat, id: Id, at: int)
    requires i < j < |ops| && SchedulesFor(ops[i], id, at) && ops[j].GetOp? && ops[j].now < at
    requires forall k :: i < k < j ==> !Reschedules(ops[k], id)
    ensures id !in Returned(After(visibility, q, ops, j), ops[j])
  {
    ScheduledFor(visibility, After(visibility, q, ops, i), ops[i], id, at);
    LeaseHolds(visibility, q, ops, i + 1, j, id, at);
    if id in Returned(After(visibility, q, ops, j), ops[j]) { ReturnedIsDue(After(visibility, q, ops, j), ops[j], id); }
  }

  /** Nobody has claimed, deleted or rescheduled the id. */
  ghost predicate LeavesAlone(q: Queue, op: Op, id: Id)
  {
    !Reschedules(op, id) && !(op.DeleteOp? && id in op.ids) && id !in Returned(q, op)
  }

  lemma {:induction false} TimeHolds(visibility: nat, q: Queue, ops: seq<Op>, from: nat, n: nat, id: Id, at: int)
    requires from <= n <= |ops|
    requires id in After(visibility, q, ops, from).scores && After(visibility, q, ops, from).scores[id] == at
    requires forall k :: from <= k < n ==> LeavesAlone(After(visibility, q, ops, k), ops[k], id)
    ensures id in After(visibility, q, ops, n).scores && After(visibility, q, ops, n).scores[id] == at
    decreases n
  {
    if from < n {
      TimeHolds(visibility, q, ops, from, n - 1, id, at);
      var before, op := After(visibility, q, ops, n - 1), ops[n - 1];
      if op.AddOp? {
        HSetKeys(before, op.tasks);
        ZAddKeys(HSet(before, op.tasks), op.tasks);
      }
    }
  }

  /** A Get whose limit does not bind returns everything that is due. */
  lemma AllDueReturned(q: Queue, now: int, count: int, id: Id)
    requires id in Due(q.scores, now) && (count < 0 || |Due(q.scores, now)| <= count)
    ensures id in GetIds(q, now, count)
  {
    var due, ids := Due(q.scores, now), GetIds(q, now, count);
    GetReturnsSmallestDue(q, now, count);
    GetIsSmallest(q, now, count, ids);
    assert Distinct(ids);
    DistinctSize(ids);
    var taken := Elements(ids);
    assert taken <= due && |taken| == |due|;
    assert |due - taken| == |due| - |taken|;
    assert id !in due - taken;
  }

  /** A Get without a limit returns an id left alone since it was scheduled exactly when its time has come. */
  lemma ReturnedOnTime(visibility: nat, q: Queue, ops: seq<Op>, i: nat, j: nat, id: Id, at: int)
    requires i < j < |ops| && SchedulesFor(ops[i], id, at) && ops[j].GetOp? && ops[j].count < 0
    requires forall k :: i < k < j ==> LeavesAlone(After(visibility, q, ops, k), ops[k], id)
    ensures id in Returned(After(visibility, q, ops, j), ops[j]) <==> 0 <= at <= ops[j].now
  {
    var before := After(visibility, q, ops, j);
    ScheduledFor(visibility, After(visibility, q, ops, i), ops[i], id, at);
    TimeHolds(visibility, q, ops, i + 1, j, id, at);
    if 0 <= at <= ops[j].now { AllDueReturned(before, ops[j].now, ops[j].count, id); }
    assert id in Returned(before, ops[j]) ==> id in Due(before.scores, ops[j].now);
  }

  /** An id leaves the queue, and a payload leaves the hash, only by a Delete naming it. */
  lemma OnlyDeleteRemoves(visibility: nat, q: Queue, op: Op, id: Id)
    ensures id in q.scores && !(op.DeleteOp? && id in op.ids) ==> id in Apply(visibility, q, op).scores
    ensures id in q.data && !(op.DeleteOp? && id in op.ids) ==> id in Apply(visibility, q, op).data
    ensures op.DeleteOp? && id in op.ids ==>
      id !in Apply(visibility, q, op).scores && id !in Apply(visibility, q, op).data
  {
    if op.AddOp? {
      HSetKeys(q, op.tasks);
      ZAddKeys(HSet(q, op.tasks), op.tasks);
    }
  }
}
