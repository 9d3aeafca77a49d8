/**
 Asynchronous ingestion: the Redis stream of pkg/queue/redis/redis.go, its listeners and its re-enqueue
 script, with HandleMessages of proxy/gateway.go dispatching what is read. Every Redis command, script
 and SQL statement or commit is one step; handlers interleave freely and may stop between any two.
 */
module Ingestion {
  import opened Common
  import opened Attempts
  import opened Dispatch
  import Paths

  type EntryId = nat
  type Hid = nat

  /** An enqueued message: its history number and its event, none when the body cannot be decoded. */
  datatype Message = Message(mid: nat, event: Option<Event>)

  datatype Handler =
    | Reading(entries: seq<EntryId>, messages: seq<Message>)    // fan-out and unique-id lookup, then the transaction
    | Prepared(entries: seq<EntryId>, messages: seq<Message>, maps: map<Id, seq<Row>>, stored: set<Id>)
    | Succeeded(entries: seq<EntryId>, messages: seq<Message>)                                 // XACK
    | Acked(entries: seq<EntryId>, messages: seq<Message>)                                     // XDEL

  /** An attempt and the dispatch that created it. */
  datatype Created = Created(dispatch: nat, row: Row)

  /** History: every message enqueued, the messages some successful handler call contained, the number of commits. */
  datatype State = State(stream: map<EntryId, Message>, lastId: nat, delivered: nat, pending: set<EntryId>,
                         handlers: map<Hid, Handler>, table: Table, attempts: seq<Created>,
                         enqueued: map<nat, Option<Event>>, handled: set<nat>, dispatches: nat)

  datatype Step =
    | Enqueue(mid: nat, event: Option<Event>)
    | Read(hid: Hid, entries: seq<EntryId>)
    | Prepare(hid: Hid, endpoints: Endpoints, now: int)
    | Commit(hid: Hid, ok: bool)
    | Ack(hid: Hid, applied: bool)
    | Del(hid: Hid, applied: bool)
    | Reenqueue(id: EntryId)
    | Crash(hid: Hid)

  const BATCH := 20

  /** The events HandleMessages decodes, in order. */
  function EventsOf(messages: seq<Message>): seq<Event>
  {
    if messages == [] then []
    else EventsOf(messages[..|messages| - 1])
         + if messages[|messages| - 1].event.Some? then [messages[|messages| - 1].event.value] else []
  }

  function MidsOf(messages: seq<Message>): set<nat> { set m | m in messages :: m.mid }

  /** XREADGROUP '>': the next undelivered entries in id order. */
  ghost predicate NextEntries(s: State, entries: seq<EntryId>)
  {
    && 1 <= |entries| <= BATCH
    && (forall i, j :: 0 <= i < j < |entries| ==> entries[i] < entries[j])
    && (forall id :: id in entries ==> id in s.stream && id > s.delivered)
    && (forall id :: id in s.stream && s.delivered < id <= entries[|entries| - 1] ==> id in entries)
  }

  ghost predicate Enabled(s: State, step: Step)
  {
    match step
    case Enqueue(mid, _) => mid !in s.enqueued
    case Read(hid, entries) => hid !in s.handlers && NextEntries(s, entries)
    case Prepare(hid, _, _) => hid in s.handlers && s.handlers[hid].Reading?
    case Commit(hid, _) => hid in s.handlers && s.handlers[hid].Prepared?
      && Insert(s.table, KeepNew(EventsOf(s.handlers[hid].messages), s.handlers[hid].stored)).Ok?
    case Ack(hid, _) => hid in s.handlers && s.handlers[hid].Succeeded?
    case Del(hid, _) => hid in s.handlers && s.handlers[hid].Acked?
    case Reenqueue(id) => id in s.pending && id in s.stream
    case Crash(hid) => hid in s.handlers
  }

  function Label(dispatch: nat, rows: seq<Row>): seq<Created>
  {
    seq(|rows|, i requires 0 <= i < |rows| => Created(dispatch, rows[i]))
  }

  ghost function Exec(s: State, step: Step): State
    requires Enabled(s, step)
  {
    match step
    case Enqueue(mid, event) =>
      s.(stream := s.stream[s.lastId + 1 := Message(mid, event)], lastId := s.lastId + 1,
         enqueued := s.enqueued[mid := event])
    case Read(hid, entries) =>
      s.(delivered := entries[|entries| - 1], pending := s.pending + (set id | id in entries),
         handlers := s.handlers[hid :=
           Reading(entries, seq(|entries|, i requires 0 <= i < |entries| => s.stream[entries[i]]))])
    case Prepare(hid, endpoints, now) =>
      var h := s.handlers[hid];
      var events := EventsOf(h.messages);
      var stored := Existing(s.table, events);
      s.(handlers := s.handlers[hid :=
           Prepared(h.entries, h.messages, Fanned(endpoints, events, now) - stored, stored)])
    case Commit(hid, ok) =>
      var h := s.handlers[hid];
      var r := Insert(s.table, KeepNew(EventsOf(h.messages), h.stored)).value;
      s.(table := r.table, attempts := s.attempts + Label(s.dispatches, Gather(h.maps, r.ids)),
         dispatches := s.dispatches + 1,
         handled := if ok then s.handled + MidsOf(h.messages) else s.handled,
         handlers := if ok then s.handlers[hid := Succeeded(h.entries, h.messages)] else s.handlers - {hid})
    case Ack(hid, applied) =>
      var h := s.handlers[hid];
      s.(pending := if applied then s.pending - (set id | id in h.entries) else s.pending,
         handlers := if applied then s.handlers[hid := Acked(h.entries, h.messages)] else s.handlers - {hid})
    case Del(hid, applied) =>
      s.(stream := if applied then s.stream - (set id | id in s.handlers[hid].entries) else s.stream,
         handlers := s.handlers - {hid})
    case Reenqueue(id) =>
      s.(stream := (s.stream - {id})[s.lastId + 1 := s.stream[id]], lastId := s.lastId + 1, pending := s.pending - {id})
    case Crash(hid) => s.(handlers := s.handlers - {hid})
  }

  const EMPTY := State(map[], 0, 0, {}, map[], map[], [], map[], {}, 0)

  ghost function Machine(): (State, Step) -> Option<State>
  {
    (s, step) => if Enabled(s, step) then Some(Exec(s, step)) else None
  }

  ghost predicate Run(states: seq<State>, steps: seq<Step>)
  {
    Paths.Trace(Machine(), states, steps) && states[0] == EMPTY
  }

  lemma RunStep(states: seq<State>, steps: seq<Step>, i: nat)
    requires Run(states, steps) && i < |steps|
    ensures Enabled(states[i], steps[i]) && states[i + 1] == Exec(states[i], steps[i])
  {
    assert Machine()(states[i], steps[i]) == Some(states[i + 1]);
  }

  // ------------------------------------------------------------------ the stream

  ghost predicate Live(s: State, id: EntryId) { id in s.stream && (id > s.delivered || id in s.pending) }

  /** A handler knows the messages of its entries, and once it has succeeded they count as handled. */
  ghost predicate HandlerOk(s: State, h: Handler)
  {
    && |h.entries| == |h.messages|
    && (forall i :: 0 <= i < |h.entries| ==> h.entries[i] <= s.delivered)
    && (forall i :: 0 <= i < |h.entries| && h.entries[i] in s.stream ==> s.stream[h.entries[i]] == h.messages[i])
    && (forall m :: m in h.messages ==> m.mid in s.enqueued && s.enqueued[m.mid] == m.event)
    && (h.Succeeded? || h.Acked? ==> MidsOf(h.messages) <= s.handled)
    && (h.Acked? ==> forall id :: id in h.entries ==> id !in s.pending)
  }

  ghost predicate StreamOk(s: State)
  {
    && s.delivered <= s.lastId && s.pending <= s.stream.Keys
    && (forall id :: id in s.stream ==> id <= s.lastId)
    && (forall id :: id in s.stream ==>
          s.stream[id].mid in s.enqueued && s.enqueued[s.stream[id].mid] == s.stream[id].event)
    && (forall mid :: mid in s.enqueued && mid !in s.handled ==> exists id :: Live(s, id) && s.stream[id].mid == mid)
  }

  ghost predicate HandlersOk(s: State) { forall hid :: hid in s.handlers ==> HandlerOk(s, s.handlers[hid]) }

  /** Every message not handled keeps a live entry, if the live entries of s survive or their messages are handled. */
  lemma LiveMoves(s: State, t: State)
    requires StreamOk(s) && s.enqueued == t.enqueued && s.handled <= t.handled
    requires forall id :: Live(s, id) && s.stream[id].mid !in t.handled ==>
      exists now :: Live(t, now) && t.stream[now].mid == s.stream[id].mid
    ensures forall mid :: mid in t.enqueued && mid !in t.handled ==> exists id :: Live(t, id) && t.stream[id].mid == mid
  {
    forall mid | mid in t.enqueued && mid !in t.handled ensures exists id :: Live(t, id) && t.stream[id].mid == mid {
      var id :| Live(s, id) && s.stream[id].mid == mid;
    }
  }

  lemma EnqueueStream(s: State, step: Step)
    requires StreamOk(s) && HandlersOk(s) && Enabled(s, step) && step.Enqueue?
    ensures StreamOk(Exec(s, step)) && HandlersOk(Exec(s, step))
  {
    var t := Exec(s, step);
    forall mid | mid in t.enqueued && mid !in t.handled ensures exists id :: Live(t, id) && t.stream[id].mid == mid {
      if mid == step.mid {
        assert Live(t, s.lastId + 1);
      } else {
        var id :| Live(s, id) && s.stream[id].mid == mid;
        assert Live(t, id);
      }
    }
    forall hid | hid in t.handlers ensures HandlerOk(t, t.handlers[hid]) { assert HandlerOk(s, s.handlers[hid]); }
  }

  lemma ReadStream(s: State, step: Step)
    requires StreamOk(s) && HandlersOk(s) && Enabled(s, step) && step.Read?
    ensures StreamOk(Exec(s, step)) && HandlersOk(Exec(s, step))
  {
    var t := Exec(s, step);
    assert step.entries[|step.entries| - 1] in step.entries;
    forall id: EntryId | Live(s, id) ensures Live(t, id) {
      assert id > s.delivered && id <= t.delivered ==> id in step.entries;
    }
    LiveMoves(s, t);
    forall hid | hid in t.handlers ensures HandlerOk(t, t.handlers[hid]) {
      if hid != step.hid { assert HandlerOk(s, s.handlers[hid]); }
    }
  }

  lemma HandlerStream(s: State, step: Step)
    requires StreamOk(s) && HandlersOk(s) && Enabled(s, step) && (step.Prepare? || step.Commit? || step.Crash?)
    ensures StreamOk(Exec(s, step)) && HandlersOk(Exec(s, step))
  {
    var t := Exec(s, step);
    forall id: EntryId | Live(s, id) ensures Live(t, id) {}
    LiveMoves(s, t);
    assert HandlerOk(s, s.handlers[step.hid]);
    forall hid | hid in t.handlers ensures HandlerOk(t, t.handlers[hid]) { assert HandlerOk(s, s.handlers[hid]); }
  }

  /** The entries of a successful handler hold handled messages only. */
  lemma EntriesHandled(s: State, h: Handler, id: EntryId)
    requires HandlerOk(s, h) && (h.Succeeded? || h.Acked?) && id in h.entries && id in s.stream
    ensures s.stream[id].mid in s.handled
  {
    var i :| 0 <= i < |h.entries| && h.entries[i] == id;
    assert h.messages[i] in h.messages && h.messages[i].mid in MidsOf(h.messages);
  }

  lemma DeleteStream(s: State, step: Step)
    requires StreamOk(s) && HandlersOk(s) && Enabled(s, step) && (step.Ack? || step.Del?)
    ensures StreamOk(Exec(s, step)) && HandlersOk(Exec(s, step))
  {
    var t, h := Exec(s, step), s.handlers[step.hid];
    assert HandlerOk(s, h);
    forall id: EntryId | Live(s, id) && s.stream[id].mid !in t.handled
      ensures Live(t, id) && t.stream[id] == s.stream[id]
    {
      if id in h.entries { EntriesHandled(s, h, id); }
    }
    LiveMoves(s, t);
    forall hid | hid in t.handlers ensures HandlerOk(t, t.handlers[hid]) { assert HandlerOk(s, s.handlers[hid]); }
  }

  lemma ReenqueueStream(s: State, step: Step)
    requires StreamOk(s) && HandlersOk(s) && Enabled(s, step) && step.Reenqueue?
    ensures StreamOk(Exec(s, step)) && HandlersOk(Exec(s, step))
  {
    var t := Exec(s, step);
    forall id: EntryId | Live(s, id) && s.stream[id].mid !in t.handled
      ensures exists now :: Live(t, now) && t.stream[now].mid == s.stream[id].mid
    {
      assert Live(t, if id == step.id then s.lastId + 1 else id);
    }
    LiveMoves(s, t);
    forall hid | hid in t.handlers ensures HandlerOk(t, t.handlers[hid]) { assert HandlerOk(s, s.handlers[hid]); }
  }

  lemma StepStream(s: State, step: Step)
    requires StreamOk(s) && HandlersOk(s) && Enabled(s, step)
    ensures StreamOk(Exec(s, step)) && HandlersOk(Exec(s, step))
  {
    if step.Enqueue? { EnqueueStream(s, step); }
    else if step.Read? { ReadStream(s, step); }
    else if step.Ack? || step.Del? { DeleteStream(s, step); }
    else if step.Reenqueue? { ReenqueueStream(s, step); }
    else { HandlerStream(s, step); }
  }

  lemma {:induction false} RunStream(states: seq<State>, steps: seq<Step>, i: nat)
    requires Run(states, steps) && i < |states|
    ensures StreamOk(states[i]) && HandlersOk(states[i])
  {
    if i > 0 {
      RunStream(states, steps, i - 1);
      RunStep(states, steps, i - 1);
      StepStream(states[i - 1], steps[i - 1]);
    }
  }

  /**
   Every enqueued message has a live stream entry, undelivered or pending, until some handler call containing it
   returned success.
   */
  lemma NoMessageLost(states: seq<State>, steps: seq<Step>, i: nat, mid: nat)
    requires Run(states, steps) && i < |states| && mid in states[i].enqueued && mid !in states[i].handled
    ensures exists id :: Live(states[i], id) && states[i].stream[id] == Message(mid, states[i].enqueued[mid])
  {
    RunStream(states, steps, i);
    var id :| Live(states[i], id) && states[i].stream[id].mid == mid;
    assert states[i].stream[id] == Message(mid, states[i].enqueued[mid]);
  }

  /** The re-enqueue script never reads an entry that is gone. */
  lemma PendingIsStored(states: seq<State>, steps: seq<Step>, i: nat, id: EntryId)
    requires Run(states, steps) && i < |states| && id in states[i].pending
    ensures id in states[i].stream
  {
    RunStream(states, steps, i);
  }

  // ------------------------------------------------------------------ the tables

  ghost predicate TablesOk(s: State)
  {
    && (forall hid :: hid in s.handlers && s.handlers[hid].Prepared? ==>
          KeyedByEvent(s.handlers[hid].maps) && s.handlers[hid].stored <= StoredUids(s.table))
    && (forall c :: c in s.attempts ==> c.row.event in s.table && c.dispatch < s.dispatches)
    && (forall c, d :: c in s.attempts && d in s.attempts && c.row.event == d.row.event ==> c.dispatch == d.dispatch)
  }

  /** Rows are never changed or removed. */
  ghost predicate RowsKept(s: State, t: State)
  {
    forall id :: id in s.table ==> id in t.table && t.table[id] == s.table[id]
  }

  lemma StoredKept(s: State, t: State)
    requires RowsKept(s, t)
    ensures StoredUids(s.table) <= StoredUids(t.table)
  {
    UidsGrow(s.table, t.table);
  }

  lemma CommitTables(s: State, step: Step)
    requires TablesOk(s) && Enabled(s, step) && step.Commit?
    ensures TablesOk(Exec(s, step)) && RowsKept(s, Exec(s, step))
  {
    var t, h := Exec(s, step), s.handlers[step.hid];
    var kept := KeepNew(EventsOf(h.messages), h.stored);
    var r := Insert(s.table, kept).value;
    InsertKeepsRows(s.table, kept);
    InsertReturnsNew(s.table, kept);
    NewAreMembers(s.table, kept);
    GatherKeyed(h.maps, r.ids);
    StoredKept(s, t);
    var rows := Gather(h.maps, r.ids);
    forall c | c in Label(s.dispatches, rows)
      ensures c.dispatch == s.dispatches && c.row.event in t.table && c.row.event !in s.table
    {
      assert c.row in rows;
      var i :| 0 <= i < |r.ids| && r.ids[i] == c.row.event;
      assert NewEvents(s.table, kept)[i] in NewEvents(s.table, kept);
    }
    assert forall c :: c in t.attempts <==> c in s.attempts || c in Label(s.dispatches, rows);
  }

  lemma StepTables(s: State, step: Step)
    requires TablesOk(s) && Enabled(s, step)
    ensures TablesOk(Exec(s, step)) && RowsKept(s, Exec(s, step))
  {
    if step.Commit? {
      CommitTables(s, step);
    } else if step.Prepare? {
      FannedKeyed(step.endpoints, EventsOf(s.handlers[step.hid].messages), step.now);
    }
  }

  lemma {:induction false} RunTables(states: seq<State>, steps: seq<Step>, i: nat)
    requires Run(states, steps) && i < |states|
    ensures TablesOk(states[i])
  {
    if i > 0 {
      RunTables(states, steps, i - 1);
      RunStep(states, steps, i - 1);
      StepTables(states[i - 1], steps[i - 1]);
    }
  }

  /** However often a message is redelivered or re-enqueued, the attempts of its event come from one dispatch. */
  lemma OneDispatchPerEvent(states: seq<State>, steps: seq<Step>, i: nat, c: Created, d: Created)
    requires Run(states, steps) && i < |states| && c in states[i].attempts && d in states[i].attempts
    requires c.row.event == d.row.event
    ensures c.dispatch == d.dispatch && c.row.event in states[i].table
  {
    RunTables(states, steps, i);
  }

  /** An event row, once stored, is never stored again or changed. */
  lemma {:induction false} RowForever(states: seq<State>, steps: seq<Step>, i: nat, j: nat, id: Id)
    requires Run(states, steps) && i <= j < |states| && id in states[i].table
    ensures id in states[j].table && states[j].table[id] == states[i].table[id]
    decreases j
  {
    if i < j {
      RowForever(states, steps, i, j - 1, id);
      RunTables(states, steps, j - 1);
      RunStep(states, steps, j - 1);
      StepTables(states[j - 1], steps[j - 1]);
    }
  }

  // ------------------------------------------------------------------ what success means

  ghost predicate IsStored(table: Table, e: Event)
  {
    e.id in table || (e.uid.Some? && e.uid.value in StoredUids(table))
  }

  ghost predicate HandledStored(s: State)
  {
    forall mid :: mid in s.handled ==>
      mid in s.enqueued && (s.enqueued[mid].Some? ==> IsStored(s.table, s.enqueued[mid].value))
  }

  lemma {:induction false} EventsOfMembers(messages: seq<Message>, m: Message)
    requires m in messages && m.event.Some?
    ensures m.event.value in EventsOf(messages)
  {
    var n := |messages| - 1;
    if messages[n] != m { EventsOfMembers(messages[..n], m); }
  }

  lemma CommitStores(s: State, step: Step)
    requires HandlersOk(s) && TablesOk(s) && HandledStored(s) && Enabled(s, step) && step.Commit?
    requires RowsKept(s, Exec(s, step))
    ensures HandledStored(Exec(s, step))
  {
    var t, h := Exec(s, step), s.handlers[step.hid];
    var events := EventsOf(h.messages);
    StoredKept(s, t);
    KeepNewMembers(events, h.stored);
    InsertKeepsRows(s.table, KeepNew(events, h.stored));
    assert HandlerOk(s, h);
    forall m | m in h.messages && m.event.Some? ensures IsStored(t.table, m.event.value) {
      EventsOfMembers(h.messages, m);
    }
  }

  lemma StepStores(s: State, step: Step)
    requires HandlersOk(s) && TablesOk(s) && HandledStored(s) && Enabled(s, step)
    ensures HandledStored(Exec(s, step))
  {
    StepTables(s, step);
    if step.Commit? { CommitStores(s, step); }
  }

  lemma {:induction false} RunStores(states: seq<State>, steps: seq<Step>, i: nat)
    requires Run(states, steps) && i < |states|
    ensures HandledStored(states[i])
  {
    if i > 0 {
      RunStores(states, steps, i - 1);
      RunStream(states, steps, i - 1);
      RunTables(states, steps, i - 1);
      RunStep(states, steps, i - 1);
      StepStores(states[i - 1], steps[i - 1]);
    }
  }

  /**
   No event is dropped: at every moment a decodable message has a live entry, or its event or one with its unique id is
   stored.
   */
  lemma IngestionComplete(states: seq<State>, steps: seq<Step>, i: nat, mid: nat)
    requires Run(states, steps) && i < |states| && mid in states[i].enqueued && states[i].enqueued[mid].Some?
    ensures || (exists id :: Live(states[i], id) && states[i].stream[id] == Message(mid, states[i].enqueued[mid]))
            || IsStored(states[i].table, states[i].enqueued[mid].value)
  {
    RunStores(states, steps, i);
    if mid !in states[i].handled { NoMessageLost(states, steps, i, mid); }
  }
}
