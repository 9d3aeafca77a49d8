/**
 The Redis stream of pkg/queue/redis/redis.go and the consumer of proxy/gateway.go as the imperative code they
 are, run without interruption, and their connection to the interleaved steps of Ingestion.
 */
module StreamQueue {
  import opened Common
  import opened Attempts
  import opened Dispatch
  import opened Dispatcher
  import opened Ingestion
  import Paths

  /** A stream with one consumer group. */
  datatype Stream = Stream(entries: map<EntryId, Message>, lastId: nat, delivered: nat, pending: set<EntryId>)

  function Project(s: State): Stream { Stream(s.stream, s.lastId, s.delivered, s.pending) }

  function IdSet(ids: seq<EntryId>): set<EntryId> { set id | id in ids }

  // ------------------------------------------------------------------ commands on values

  function XAdd(q: Stream, m: Message): Stream { q.(entries := q.entries[q.lastId + 1 := m], lastId := q.lastId + 1) }

  function Taken(q: Stream, ids: seq<EntryId>): Stream
  {
    if ids == [] then q else q.(delivered := ids[|ids| - 1], pending := q.pending + IdSet(ids))
  }

  function XAck(q: Stream, ids: set<EntryId>): Stream { q.(pending := q.pending - ids) }

  function XDel(q: Stream, ids: set<EntryId>): Stream { q.(entries := q.entries - ids) }

  /** One round of the re-enqueue script: copy to the end, acknowledge, delete. */
  function Moved(q: Stream, id: EntryId): Stream
    requires id in q.entries
  {
    XDel(XAck(XAdd(q, q.entries[id]), {id}), {id})
  }

  // ------------------------------------------------------------------ the script over a list of entries

  ghost predicate Listable(q: Stream, ids: seq<EntryId>)
  {
    && Distinct(ids) && (forall id :: id in ids ==> id in q.pending && id in q.entries)
    && (forall id :: id in q.entries ==> id <= q.lastId)
  }

  lemma MovedListable(q: Stream, ids: seq<EntryId>)
    requires ids != [] && Listable(q, ids)
    ensures Listable(Moved(q, ids[0]), ids[1..])
  {
    assert forall id :: id in ids[1..] ==> id in ids && id != ids[0] by {
      forall id | id in ids[1..] ensures id in ids && id != ids[0] {
        var k :| 0 <= k < |ids| - 1 && ids[1..][k] == id;
        assert ids[k + 1] == id;
      }
    }
  }

  ghost function MovedAll(q: Stream, ids: seq<EntryId>): Stream
    requires Listable(q, ids)
    decreases ids
  {
    if ids == [] then q
    else
      MovedListable(q, ids);
      MovedAll(Moved(q, ids[0]), ids[1..])
  }

  lemma MovedNext(q: Stream, ids: seq<EntryId>, i: nat)
    requires i < |ids| && Listable(q, ids[i..])
    ensures ids[i] in q.entries && Listable(Moved(q, ids[i]), ids[i + 1..])
    ensures MovedAll(q, ids[i..]) == MovedAll(Moved(q, ids[i]), ids[i + 1..])
  {
    assert ids[i..][0] == ids[i] && ids[i..][1..] == ids[i + 1..];
    MovedListable(q, ids[i..]);
  }

  /** The messages a stream holds. */
  ghost function Contents(q: Stream): multiset<Message>
  {
    ContentsOf(q.entries, q.entries.Keys)
  }

  ghost function ContentsOf(entries: map<EntryId, Message>, ids: set<EntryId>): multiset<Message>
    requires ids <= entries.Keys
    decreases ids
  {
    if ids == {} then multiset{}
    else
      var id :| id in ids;
      multiset{entries[id]} + ContentsOf(entries, ids - {id})
  }

  lemma {:induction false} TakeOne(entries: map<EntryId, Message>, ids: set<EntryId>, id: EntryId)
    requires ids <= entries.Keys && id in ids
    ensures ContentsOf(entries, ids) == multiset{entries[id]} + ContentsOf(entries, ids - {id})
    decreases ids
  {
    var x :| x in ids && ContentsOf(entries, ids) == multiset{entries[x]} + ContentsOf(entries, ids - {x});
    if x != id {
      TakeOne(entries, ids - {x}, id);
      TakeOne(entries, ids - {id}, x);
      assert ids - {x} - {id} == ids - {id} - {x};
    }
  }

  lemma {:induction false} SameEntries(a: map<EntryId, Message>, b: map<EntryId, Message>, ids: set<EntryId>)
    requires ids <= a.Keys && ids <= b.Keys && forall id :: id in ids ==> a[id] == b[id]
    ensures ContentsOf(a, ids) == ContentsOf(b, ids)
    decreases ids
  {
    if ids != {} {
      var id :| id in ids;
      TakeOne(a, ids, id);
      TakeOne(b, ids, id);
      SameEntries(a, b, ids - {id});
    }
  }

  lemma MoveConserves(q: Stream, id: EntryId)
    requires id in q.entries && forall x :: x in q.entries ==> x <= q.lastId
    ensures Contents(Moved(q, id)) == Contents(q)
  {
    var t, last := Moved(q, id), q.lastId + 1;
    TakeOne(q.entries, q.entries.Keys, id);
    TakeOne(t.entries, t.entries.Keys, last);
    assert t.entries.Keys - {last} == q.entries.Keys - {id};
    SameEntries(q.entries, t.entries, q.entries.Keys - {id});
  }

  /** Re-enqueueing any number of stale entries neither loses nor duplicates a message. */
  lemma {:induction false} ReenqueueConserves(q: Stream, ids: seq<EntryId>)
    requires Listable(q, ids)
    ensures Contents(MovedAll(q, ids)) == Contents(q)
    ensures forall id :: id in ids ==> id !in MovedAll(q, ids).entries && id !in MovedAll(q, ids).pending
    ensures MovedAll(q, ids).delivered == q.delivered && MovedAll(q, ids).lastId == q.lastId + |ids|
    decreases ids
  {
    if ids != [] {
      MovedListable(q, ids);
      MoveConserves(q, ids[0]);
      ReenqueueConserves(Moved(q, ids[0]), ids[1..]);
      StaysGone(Moved(q, ids[0]), ids[1..], ids[0]);
      assert forall id :: id in ids ==> id == ids[0] || id in ids[1..];
    }
  }

  lemma {:induction false} StaysGone(q: Stream, ids: seq<EntryId>, id: EntryId)
    requires Listable(q, ids) && id !in q.entries && id !in q.pending && id <= q.lastId
    ensures id !in MovedAll(q, ids).entries && id !in MovedAll(q, ids).pending
    decreases ids
  {
    if ids != [] {
      MovedListable(q, ids);
      StaysGone(Moved(q, ids[0]), ids[1..], id);
    }
  }

  // ------------------------------------------------------------------ the objects

  class RedisStream {
    var entries: map<EntryId, Message>
    var lastId: nat
    var delivered: nat
    var pending: set<EntryId>

    constructor ()
      ensures Value() == Stream(map[], 0, 0, {})
    {
      entries, lastId, delivered, pending := map[], 0, 0, {};
    }

    function Value(): Stream reads this { Stream(entries, lastId, delivered, pending) }

    method Enqueue(m: Message)
      modifies this
      ensures Value() == XAdd(old(Value()), m)
    {
      lastId := lastId + 1;
      entries := entries[lastId := m];
    }

    method Oldest(pool: set<EntryId>) returns (id: EntryId)
      requires pool != {}
      ensures id in pool && forall x :: x in pool ==> id <= x
    {
      id :| id in pool;
      var rest := pool - {id};
      while rest != {}
        invariant rest <= pool && id in pool
        invariant forall x :: x in pool && x !in rest ==> id <= x
        decreases rest
      {
        var x :| x in rest;
        if x < id { id := x; }
        rest := rest - {x};
      }
    }

    /** At most `limit` of the ids, the oldest first. */
    method OldestFirst(pool: set<EntryId>, limit: nat) returns (ids: seq<EntryId>)
      ensures IsOldest(pool, limit, ids)
    {
      ids := [];
      var rest := pool;
      while rest != {} && |ids| < limit
        invariant |ids| <= limit && (forall i, j :: 0 <= i < j < |ids| ==> ids[i] < ids[j])
        invariant rest <= pool && forall id :: id in pool <==> id in ids || id in rest
        invariant forall id, x :: id in rest && x in ids ==> x < id
        decreases rest
      {
        var id := Oldest(rest);
        assert forall i :: 0 <= i < |ids| ==> ids[i] in ids;
        ids := ids + [id];
        rest := rest - {id};
      }
    }

    /** XREADGROUP '>' COUNT 20: the oldest undelivered entries, which become pending. */
    method Dequeue() returns (ids: seq<EntryId>)
      modifies this
      ensures Value() == Taken(old(Value()), ids)
      ensures IsOldest(Undelivered(old(Value())), BATCH, ids)
      ensures |ids| <= 20 && (|ids| < 20 ==> forall id :: id in entries && id > old(delivered) ==> id in ids)
    {
      ids := OldestFirst((set id | id in entries && id > delivered), BATCH);
      if ids != [] {
        delivered := ids[|ids| - 1];
        pending := pending + set id | id in ids;
      }
    }

    /** XACK, then XDEL, of every id read. */
    method Delete(ids: seq<EntryId>)
      modifies this
      ensures Value() == XDel(XAck(old(Value()), IdSet(ids)), IdSet(ids))
    {
      var gone := set id | id in ids;
      pending := pending - gone;
      entries := entries - gone;
    }

    /** The script's loop over the entries it was given. */
    method MoveAll(ids: seq<EntryId>)
      requires Listable(Value(), ids)
      modifies this
      ensures Value() == MovedAll(old(Value()), ids)
    {
      for i := 0 to |ids|
        invariant Listable(Value(), ids[i..])
        invariant MovedAll(Value(), ids[i..]) == MovedAll(old(Value()), ids)
      {
        MovedNext(Value(), ids, i);
        MoveOne(ids[i]);
      }
    }

    /** One round of the loop: XRANGE, XADD, XACK, XDEL. */
    method MoveOne(id: EntryId)
      requires id in entries
      modifies this
      ensures Value() == Moved(old(Value()), id)
    {
      var items := entries[id];
      lastId := lastId + 1;
      entries := entries[lastId := items];
      pending := pending - {id};
      entries := entries - {id};
    }

    /** The re-enqueue script: the oldest 1000 entries pending for the visibility timeout move to the end. */
    method Reenqueue(idle: EntryId -> nat, timeout: nat) returns (ids: seq<EntryId>)
      requires PendingStored(Value())
      modifies this
      ensures IsOldest(Stale(old(Value()), idle, timeout), 1000, ids) && Listable(old(Value()), ids)
      ensures forall id :: id in old(pending) ==>
        if idle(id) < timeout then id !in ids else id in ids || (|ids| == 1000 && forall x :: x in ids ==> x < id)
      ensures Value() == MovedAll(old(Value()), ids)
    {
      ids := OldestFirst((set id | id in pending && idle(id) >= timeout), 1000);
      OldestListable(Value(), Stale(Value(), idle, timeout), 1000, ids);
      MoveAll(ids);
    }
  }

  /** The first ids of a set in ascending order, as many as the limit allows. */
  ghost predicate IsOldest(pool: set<EntryId>, limit: nat, ids: seq<EntryId>)
  {
    && |ids| <= limit && (forall i, j :: 0 <= i < j < |ids| ==> ids[i] < ids[j])
    && (forall id :: id in ids ==> id in pool)
    && (forall id :: id in pool && id !in ids ==> |ids| == limit && forall x :: x in ids ==> x < id)
  }

  function Undelivered(q: Stream): set<EntryId> { set id | id in q.entries && id > q.delivered }

  function Stale(q: Stream, idle: EntryId -> nat, timeout: nat): set<EntryId>
  {
    set id | id in q.pending && idle(id) >= timeout
  }

  /** What Ingestion.PendingIsStored shows of every reachable stream. */
  ghost predicate PendingStored(q: Stream)
  {
    q.pending <= q.entries.Keys && forall id :: id in q.entries ==> id <= q.lastId
  }

  lemma OldestListable(q: Stream, pool: set<EntryId>, limit: nat, ids: seq<EntryId>)
    requires PendingStored(q) && pool <= q.pending && IsOldest(pool, limit, ids)
    ensures Listable(q, ids)
  {
  }

  /** What a listener reads is what the protocol's read step may take. */
  lemma DequeueIsRead(s: State, ids: seq<EntryId>)
    requires IsOldest(Undelivered(Project(s)), BATCH, ids) && ids != []
    ensures NextEntries(s, ids)
  {
    assert forall i :: 0 <= i < |ids| ==> ids[i] in ids;
  }

  function MessagesOf(entries: map<EntryId, Message>, ids: seq<EntryId>): seq<Message>
    requires forall id :: id in ids ==> id in entries
  {
    seq(|ids|, i requires 0 <= i < |ids| => assert ids[i] in ids; entries[ids[i]])
  }

  /** Gateway.HandleMessages: what decodes is dispatched in one batch, what does not is skipped. */
  method HandleMessages(messages: seq<Message>, d: DispatcherObject, now: int, readsOk: bool, attemptsOk: bool)
    returns (ok: bool)
    requires RetriesGiven(d.endpoints, EventsOf(messages))
    modifies d.db
    ensures var r := CallOf(old(d.db.table), EventsOf(messages), d.endpoints, now, readsOk, attemptsOk);
            && ok == r.Ok?
            && d.db.table == (if ok then r.value.table else old(d.db.table))
            && d.db.attempts == (if ok then old(d.db.attempts) + r.value.attempts else old(d.db.attempts))
  {
    var list: seq<Event> := [];
    for i := 0 to |messages|
      invariant list == EventsOf(messages[..i])
    {
      assert messages[..i + 1][..i] == messages[..i];
      if messages[i].event.Some? { list := list + [messages[i].event.value]; }
    }
    assert messages[..|messages|] == messages;
    var events := new Event[|list|](i requires 0 <= i < |list| => list[i]);
    assert events[..] == list;
    var r := d.DispatchAll(events, now, readsOk, attemptsOk);
    ok := r.Ok?;
  }

  /** What one round of a listener leaves: the stream, the events table and the attempts created. */
  datatype Round = Round(stream: Stream, table: Table, attempts: seq<Row>)

  /** Which calls of a round succeed. */
  datatype Calls = Calls(readsOk: bool, attemptsOk: bool, deleteOk: bool)

  function RoundOf(q: Stream, table: Table, ids: seq<EntryId>, endpoints: Endpoints, now: int, c: Calls): Round
    requires forall id :: id in ids ==> id in q.entries
  {
    var r := CallOf(table, EventsOf(MessagesOf(q.entries, ids)), endpoints, now, c.readsOk, c.attemptsOk);
    var taken := Taken(q, ids);
    if ids == [] || r.Err? then Round(taken, table, [])
    else Round(if c.deleteOk then XDel(XAck(taken, IdSet(ids)), IdSet(ids)) else taken, r.value.table, r.value.attempts)
  }

  /**
   What was read is gone if its batch was dispatched and the deletion succeeded, and otherwise waits as pending; other
   entries stay as they are, and a failed dispatch leaves both tables alone.
   */
  lemma GoneWhenDispatched(q: Stream, table: Table, ids: seq<EntryId>, endpoints: Endpoints, now: int, c: Calls)
    requires forall id :: id in ids ==> id in q.entries
    ensures var call := CallOf(table, EventsOf(MessagesOf(q.entries, ids)), endpoints, now, c.readsOk, c.attemptsOk);
            var r := RoundOf(q, table, ids, endpoints, now, c);
            && (forall id :: id in ids ==>
                 if call.Ok? && c.deleteOk then id !in r.stream.entries && id !in r.stream.pending
                 else id in r.stream.entries && id in r.stream.pending)
            && (forall id :: id in q.entries && id !in ids ==>
                 && id in r.stream.entries && r.stream.entries[id] == q.entries[id]
                 && (id in r.stream.pending <==> id in q.pending))
            && (call.Err? ==> r.table == table && r.attempts == [])
  {
  }

  /**
   One round of a listener: what it read is deleted only after its batch was dispatched; otherwise it stays
   pending in the stream, and neither table has changed.
   */
  method Consume(q: RedisStream, d: DispatcherObject, now: int, c: Calls) returns (ids: seq<EntryId>)
    requires forall ws, p :: p in d.endpoints(ws) && p.events != [] ==> p.retry != []
    modifies q, d.db
    ensures IsOldest(Undelivered(old(q.Value())), BATCH, ids) && forall id :: id in ids ==> id in old(q.entries)
    ensures var r := RoundOf(old(q.Value()), old(d.db.table), ids, d.endpoints, now, c);
            q.Value() == r.stream && d.db.table == r.table && d.db.attempts == old(d.db.attempts) + r.attempts
  {
    ids := q.Dequeue();
    if ids == [] { return; }
    var messages := MessagesOf(q.entries, ids);
    var ok := HandleMessages(messages, d, now, c.readsOk, c.attemptsOk);
    if ok && c.deleteOk { q.Delete(ids); }
  }

  // ------------------------------------------------------------------ the steps of ingestion

  /** The steps a round takes: a failed dispatch or delete ends the handler where it stands. */
  function RoundSteps(
    hid: Hid, ids: seq<EntryId>, endpoints: Endpoints, now: int, dispatched: bool, deleted: bool): seq<Step>
  {
    [Read(hid, ids)] +
    if !dispatched then [Crash(hid)]
    else [Prepare(hid, endpoints, now)] + ([Commit(hid, true)] + DeleteSteps(hid, deleted))
  }

  function DeleteSteps(hid: Hid, deleted: bool): seq<Step>
  {
    if deleted then [Ack(hid, true)] + [Del(hid, true)] else [Ack(hid, false)]
  }

  function ReenqueueSteps(ids: seq<EntryId>): seq<Step>
  {
    if ids == [] then [] else [Ingestion.Step.Reenqueue(ids[0])] + ReenqueueSteps(ids[1..])
  }

  /** The script is as many re-enqueueing steps as it moves entries. */
  lemma {:induction false} ScriptIsSteps(s: State, ids: seq<EntryId>)
    requires Listable(Project(s), ids)
    ensures var t := Paths.End(Machine(), s, ReenqueueSteps(ids));
            t.Some? && Project(t.value) == MovedAll(Project(s), ids)
    decreases |ids|
  {
    if ids != [] {
      var step := Ingestion.Step.Reenqueue(ids[0]);
      var t := Exec(s, step);
      assert Project(t) == Moved(Project(s), ids[0]);
      MovedListable(Project(s), ids);
      ScriptIsSteps(t, ids[1..]);
      Paths.Prepend(Machine(), s, step, ReenqueueSteps(ids[1..]));
    }
  }

  lemma DeletePath(s: State, hid: Hid, deleted: bool)
    requires hid in s.handlers && s.handlers[hid].Succeeded?
    ensures var t, q := Paths.End(Machine(), s, DeleteSteps(hid, deleted)), Project(s);
            var gone := IdSet(s.handlers[hid].entries);
            && t.Some? && hid !in t.value.handlers && t.value.table == s.table && t.value.attempts == s.attempts
            && Project(t.value) == if deleted then XDel(XAck(q, gone), gone) else q
  {
    if deleted {
      Paths.One(Machine(), Exec(s, Ack(hid, true)), Del(hid, true));
      Paths.Prepend(Machine(), s, Ack(hid, true), [Del(hid, true)]);
    } else {
      Paths.One(Machine(), s, Ack(hid, false));
    }
  }

  /** The rows of attempts, whatever dispatch created them. */
  function RowsOf(attempts: seq<Created>): seq<Row>
  {
    seq(|attempts|, i requires 0 <= i < |attempts| => attempts[i].row)
  }

  lemma LabelRows(attempts: seq<Created>, dispatch: nat, rows: seq<Row>)
    ensures RowsOf(attempts + Label(dispatch, rows)) == RowsOf(attempts) + rows
  {
  }

  /** A prepared handler commits what Dispatch computes from the table it has read. */
  lemma CommitPath(s: State, hid: Hid, endpoints: Endpoints, now: int, deleted: bool)
    requires hid in s.handlers && s.handlers[hid].Reading?
    requires DispatchOf(s.table, EventsOf(s.handlers[hid].messages), endpoints, now).Ok?
    ensures var steps := [Prepare(hid, endpoints, now)] + ([Commit(hid, true)] + DeleteSteps(hid, deleted));
            var t := Paths.End(Machine(), s, steps);
            var q, gone := Project(s), IdSet(s.handlers[hid].entries);
            var d := DispatchOf(s.table, EventsOf(s.handlers[hid].messages), endpoints, now).value;
            && t.Some? && hid !in t.value.handlers && t.value.table == d.table
            && RowsOf(t.value.attempts) == RowsOf(s.attempts) + d.attempts
            && Project(t.value) == if deleted then XDel(XAck(q, gone), gone) else q
  {
    var d := DispatchOf(s.table, EventsOf(s.handlers[hid].messages), endpoints, now).value;
    var s1 := Exec(s, Prepare(hid, endpoints, now));
    var s2 := Exec(s1, Commit(hid, true));
    assert s2.table == d.table && s2.attempts == s.attempts + Label(s.dispatches, d.attempts);
    LabelRows(s.attempts, s.dispatches, d.attempts);
    DeletePath(s2, hid, deleted);
    Paths.Prepend(Machine(), s1, Commit(hid, true), DeleteSteps(hid, deleted));
    Paths.Prepend(Machine(), s, Prepare(hid, endpoints, now), [Commit(hid, true)] + DeleteSteps(hid, deleted));
  }

  /**
   The listener's code takes only steps of the protocol: from any state, one round of it is a path of the steps of a
   new handler that leaves the same stream, events table and attempts, and ends the handler.
   */
  lemma RoundIsSteps(s: State, hid: Hid, ids: seq<EntryId>, endpoints: Endpoints, now: int, c: Calls)
    requires hid !in s.handlers && ids != [] && IsOldest(Undelivered(Project(s)), BATCH, ids)
    ensures forall id :: id in ids ==> id in s.stream
    ensures var r := RoundOf(Project(s), s.table, ids, endpoints, now, c);
            var call := CallOf(s.table, EventsOf(MessagesOf(s.stream, ids)), endpoints, now, c.readsOk, c.attemptsOk);
            var t := Paths.End(Machine(), s, RoundSteps(hid, ids, endpoints, now, call.Ok?, c.deleteOk));
            && t.Some? && hid !in t.value.handlers && Project(t.value) == r.stream && t.value.table == r.table
            && RowsOf(t.value.attempts) == RowsOf(s.attempts) + r.attempts
  {
    DequeueIsRead(s, ids);
    var s1 := Exec(s, Read(hid, ids));
    assert s1.handlers[hid].messages == MessagesOf(s.stream, ids);
    var call := CallOf(s.table, EventsOf(MessagesOf(s.stream, ids)), endpoints, now, c.readsOk, c.attemptsOk);
    if call.Ok? {
      CommitPath(s1, hid, endpoints, now, c.deleteOk);
      Paths.Prepend(Machine(), s, Read(hid, ids),
        [Prepare(hid, endpoints, now)] + ([Commit(hid, true)] + DeleteSteps(hid, c.deleteOk)));
    } else {
      Paths.One(Machine(), s1, Crash(hid));
      Paths.Prepend(Machine(), s, Read(hid, ids), [Crash(hid)]);
      assert RowsOf(s.attempts) + [] == RowsOf(s.attempts);
    }
  }
}
