/**
 The dispatcher: the event-type index of dispatcher/registration.go, the event inserts of
 db/dao/event_dao.go, and the fan-out of dispatcher/dispatcher.go.
 */
module Dispatch {
  import opened Common
  import opened Attempts

  type Kind = nat

  /** An event, without body and ingestion time. Ids and unique ids are strings of the same kind. */
  datatype Event = Event(id: Id, ws: Id, kind: Kind, uid: Option<Id>)

  /** An enabled endpoint with its event types and retry delays in seconds. */
  datatype Endpoint = Endpoint(id: Id, events: seq<Kind>, retry: seq<nat>)

  // ------------------------------------------------------------------ the event type index

  type Registration = map<Kind, seq<Endpoint>>

  function LookUp(r: Registration, kind: Kind): seq<Endpoint> { if kind in r then r[kind] else [] }

  function Copies(e: Endpoint, kinds: seq<Kind>, kind: Kind): seq<Endpoint>
  {
    if kinds == [] then []
    else Copies(e, kinds[..|kinds| - 1], kind) + if kinds[|kinds| - 1] == kind then [e] else []
  }

  /** A plain scan of the endpoints' event lists: an endpoint once per listing of the type. */
  function Scan(endpoints: seq<Endpoint>, kind: Kind): seq<Endpoint>
  {
    if endpoints == [] then []
    else
      var last := endpoints[|endpoints| - 1];
      Scan(endpoints[..|endpoints| - 1], kind) + Copies(last, last.events, kind)
  }

  /** The endpoints that list the type at all, in order. */
  function Subscribed(endpoints: seq<Endpoint>, kind: Kind): seq<Endpoint>
  {
    if endpoints == [] then []
    else
      var last := endpoints[|endpoints| - 1];
      Subscribed(endpoints[..|endpoints| - 1], kind) + if kind in last.events then [last] else []
  }

  method NewRegistration(endpoints: seq<Endpoint>) returns (r: Registration)
    ensures forall kind :: LookUp(r, kind) == Scan(endpoints, kind)
  {
    r := map[];
    for i := 0 to |endpoints|
      invariant forall kind :: LookUp(r, kind) == Scan(endpoints[..i], kind)
    {
      assert endpoints[..i + 1][..i] == endpoints[..i];
      r := Register(r, endpoints[i]);
    }
    assert endpoints[..|endpoints|] == endpoints;
  }

  /** The inner loop: append the endpoint under each type it lists. */
  method Register(before: Registration, e: Endpoint) returns (r: Registration)
    ensures forall kind :: LookUp(r, kind) == LookUp(before, kind) + Copies(e, e.events, kind)
  {
    r := before;
    for j := 0 to |e.events|
      invariant forall kind :: LookUp(r, kind) == LookUp(before, kind) + Copies(e, e.events[..j], kind)
    {
      ghost var prior := r;
      r := r[e.events[j] := LookUp(r, e.events[j]) + [e]];
      forall kind ensures LookUp(r, kind) == LookUp(before, kind) + Copies(e, e.events[..j + 1], kind) {
        OneMoreCopy(prior, before, e, j, kind);
      }
    }
    assert e.events[..|e.events|] == e.events;
  }

  lemma OneMoreCopy(prior: Registration, before: Registration, e: Endpoint, j: nat, kind: Kind)
    requires j < |e.events| && LookUp(prior, kind) == LookUp(before, kind) + Copies(e, e.events[..j], kind)
    ensures LookUp(prior[e.events[j] := LookUp(prior, e.events[j]) + [e]], kind)
         == LookUp(before, kind) + Copies(e, e.events[..j + 1], kind)
  {
    assert e.events[..j + 1][..j] == e.events[..j];
  }

  lemma {:induction false} CopiesCount(e: Endpoint, kinds: seq<Kind>, kind: Kind)
    ensures |Copies(e, kinds, kind)| == multiset(kinds)[kind]
    ensures forall x :: x in Copies(e, kinds, kind) ==> x == e
  {
    if kinds != [] {
      CopiesCount(e, kinds[..|kinds| - 1], kind);
      assert kinds == kinds[..|kinds| - 1] + [kinds[|kinds| - 1]];
    }
  }

  lemma {:induction false} ScanLength(endpoints: seq<Endpoint>, kind: Kind)
    ensures |Scan(endpoints, kind)| >= |Subscribed(endpoints, kind)|
    ensures |Scan(endpoints, kind)| == |Subscribed(endpoints, kind)| <==>
      forall e :: e in endpoints ==> multiset(e.events)[kind] <= 1
    ensures |Scan(endpoints, kind)| == |Subscribed(endpoints, kind)| ==>
      Scan(endpoints, kind) == Subscribed(endpoints, kind)
  {
    if endpoints != [] {
      var rest, last := endpoints[..|endpoints| - 1], endpoints[|endpoints| - 1];
      ScanLength(rest, kind);
      CopiesCount(last, last.events, kind);
      assert kind in last.events <==> multiset(last.events)[kind] >= 1;
      assert forall e :: e in endpoints <==> e in rest || e == last;
      var copies := Copies(last, last.events, kind);
      if |copies| == 1 { assert copies[0] in copies; }
    }
  }

  /** The scan finds exactly the endpoints that list the type. */
  lemma {:induction false} ScanMember(endpoints: seq<Endpoint>, kind: Kind, p: Endpoint)
    ensures p in Scan(endpoints, kind) <==> p in endpoints && kind in p.events
  {
    if endpoints != [] {
      var rest, last := endpoints[..|endpoints| - 1], endpoints[|endpoints| - 1];
      assert endpoints == rest + [last];
      ScanMember(rest, kind, p);
      CopiesCount(last, last.events, kind);
      if p == last && kind in last.events {
        assert Copies(last, last.events, kind)[0] in Copies(last, last.events, kind);
      }
    }
  }

  /** The index returns one endpoint per subscriber exactly when no endpoint lists the event type twice. */
  lemma OnePerSubscriber(endpoints: seq<Endpoint>, kind: Kind)
    ensures Scan(endpoints, kind) == Subscribed(endpoints, kind)
       <==> forall e :: e in endpoints ==> multiset(e.events)[kind] <= 1
  {
    ScanLength(endpoints, kind);
  }

  /** An endpoint that lists a type twice is one subscriber with two entries. */
  lemma ListedTwice(e: Endpoint, kind: Kind)
    requires e.events == [kind, kind]
    ensures Scan([e], kind) == [e, e] && Subscribed([e], kind) == [e]
  {
    assert [e][..0] == [] && e.events[..1] == [kind] && [kind][..0] == [];
    assert Copies(e, [kind], kind) == [e];
    assert Copies(e, e.events, kind) == [e] + [e];
    assert kind in e.events;
  }

  // ------------------------------------------------------------------ the events table

  type Table = map<Id, Event>

  function StoredUids(table: Table): set<Id> { set id | id in table && table[id].uid.Some? :: table[id].uid.value }

  function UidsOf(batch: seq<Event>): set<Id> { set e | e in batch && e.uid.Some? :: e.uid.value }

  datatype Inserted = Inserted(table: Table, ids: seq<Id>)

  /**
   INSERT .. ON CONFLICT(id) DO NOTHING RETURNING id: a row whose id exists is skipped, and a new row
   whose unique_id exists violates the unique index and fails the whole statement.
   */
  function Insert(table: Table, batch: seq<Event>): Result<Inserted>
    decreases batch
  {
    if batch == [] then Ok(Inserted(table, []))
    else
      var e := batch[0];
      if e.id in table then Insert(table, batch[1..])
      else if e.uid.Some? && e.uid.value in StoredUids(table) then Err
      else match Insert(table[e.id := e], batch[1..])
        case Ok(r) => Ok(Inserted(r.table, [e.id] + r.ids))
        case Err => Err
  }

  /** No two rows share a unique id. */
  ghost predicate UidsUnique(table: Table)
  {
    forall a, b :: a in table && b in table && table[a].uid.Some? && table[a].uid == table[b].uid ==> a == b
  }

  /** Events carry KSUIDs minted once per event, so equal ids mean the same event delivered again. */
  ghost predicate Consistent(batch: seq<Event>)
  {
    forall e, f :: e in batch && f in batch && e.id == f.id ==> e == f
  }

  /** Two new events that share a unique id. */
  ghost predicate Collide(table: Table, e: Event, f: Event)
  {
    e.id != f.id && e.id !in table && f.id !in table && e.uid.Some? && e.uid == f.uid
  }

  ghost predicate Collides(table: Table, batch: seq<Event>)
  {
    exists e, f :: e in batch && f in batch && Collide(table, e, f)
  }

  /** A new event whose unique id is stored. */
  ghost predicate Clash(table: Table, e: Event) { e.id !in table && e.uid.Some? && e.uid.value in StoredUids(table) }

  ghost predicate Clashes(table: Table, batch: seq<Event>) { exists e :: e in batch && Clash(table, e) }

  lemma StoredGrows(table: Table, e: Event)
    requires e.id !in table
    ensures StoredUids(table[e.id := e]) == StoredUids(table) + if e.uid.Some? then {e.uid.value} else {}
  {
    var next := table[e.id := e];
    forall u | u in StoredUids(table) ensures u in StoredUids(next) {
      var id :| id in table && table[id].uid.Some? && table[id].uid.value == u;
      assert next[id] == table[id];
    }
    if e.uid.Some? { assert next[e.id].uid.value in StoredUids(next); }
  }

  /** Moving the first new event into the table turns its collisions into clashes. */
  lemma FirstInserted(table: Table, batch: seq<Event>)
    requires batch != [] && Consistent(batch) && batch[0].id !in table && !Clash(table, batch[0])
    ensures var next, rest := table[batch[0].id := batch[0]], batch[1..];
            Collides(table, batch) || Clashes(table, batch) <==> Collides(next, rest) || Clashes(next, rest)
  {
    var first, rest := batch[0], batch[1..];
    var next := table[first.id := first];
    StoredGrows(table, first);
    assert forall e :: e in batch <==> e == first || e in rest;
    if Clashes(table, batch) {
      var e :| e in batch && Clash(table, e);
      assert e in rest && Clash(next, e);
    }
    if Collides(table, batch) {
      var e, f :| e in batch && f in batch && Collide(table, e, f);
      if e.id == first.id { assert f in rest && Clash(next, f); }
      else if f.id == first.id { assert e in rest && Clash(next, e); }
      else { assert e in rest && f in rest && Collide(next, e, f); }
    }
    if Clashes(next, rest) {
      var e :| e in rest && Clash(next, e);
      assert Clash(table, e) || Collide(table, first, e);
    }
    if Collides(next, rest) {
      var e, f :| e in rest && f in rest && Collide(next, e, f);
      assert Collide(table, e, f);
    }
  }

  /** The statement fails exactly when a new event shares its unique id with a stored row or another new event. */
  lemma {:induction false} InsertFailsIff(table: Table, batch: seq<Event>)
    requires Consistent(batch)
    ensures Insert(table, batch).Err? <==> Collides(table, batch) || Clashes(table, batch)
    decreases batch
  {
    if batch != [] {
      var first, rest := batch[0], batch[1..];
      assert forall e :: e in batch <==> e == first || e in rest;
      if first.id in table {
        InsertFailsIff(table, rest);
      } else if Clash(table, first) {
        assert first in batch;
      } else {
        InsertFailsIff(table[first.id := first], rest);
        FirstInserted(table, batch);
      }
    }
  }

  /** The new events of a batch, first occurrences only: those the statement inserts when it succeeds. */
  function NewEvents(table: Table, batch: seq<Event>): seq<Event>
    decreases batch
  {
    if batch == [] then []
    else if batch[0].id in table then NewEvents(table, batch[1..])
    else [batch[0]] + NewEvents(table[batch[0].id := batch[0]], batch[1..])
  }

  function IdsOf(events: seq<Event>): seq<Id> { seq(|events|, i requires 0 <= i < |events| => events[i].id) }

  lemma {:induction false} InsertReturnsNew(table: Table, batch: seq<Event>)
    requires Insert(table, batch).Ok?
    ensures Insert(table, batch).value.ids == IdsOf(NewEvents(table, batch))
    decreases batch
  {
    if batch != [] {
      var first, rest := batch[0], batch[1..];
      if first.id in table {
        InsertReturnsNew(table, rest);
      } else {
        var next := table[first.id := first];
        InsertReturnsNew(next, rest);
        assert IdsOf([first] + NewEvents(next, rest)) == [first.id] + IdsOf(NewEvents(next, rest));
      }
    }
  }

  lemma {:induction false} NewAreMembers(table: Table, batch: seq<Event>)
    ensures forall e :: e in NewEvents(table, batch) ==> e in batch && e.id !in table
    decreases batch
  {
    if batch != [] {
      var first, rest := batch[0], batch[1..];
      assert batch == [first] + rest;
      NewAreMembers(if first.id in table then table else table[first.id := first], rest);
    }
  }

  /** The rows after a successful statement: the old ones untouched, and the batch's own for its new events. */
  lemma {:induction false} InsertKeepsRows(table: Table, batch: seq<Event>)
    requires Insert(table, batch).Ok?
    ensures var t := Insert(table, batch).value.table;
            && (forall id :: id in t <==> id in table || exists e :: e in batch && e.id == id)
            && (forall id :: id in table ==> t[id] == table[id])
            && (forall id :: id in t && id !in table ==> t[id] in batch && t[id].id == id)
    decreases batch
  {
    if batch != [] {
      var first, rest := batch[0], batch[1..];
      assert batch == [first] + rest;
      InsertKeepsRows(if first.id in table then table else table[first.id := first], rest);
    }
  }

  /** The unique index holds after every statement that held before it. */
  lemma {:induction false} InsertKeepsUnique(table: Table, batch: seq<Event>)
    requires Insert(table, batch).Ok? && UidsUnique(table)
    ensures UidsUnique(Insert(table, batch).value.table)
    decreases batch
  {
    if batch != [] {
      var first, rest := batch[0], batch[1..];
      if first.id in table {
        InsertKeepsUnique(table, rest);
      } else {
        forall a | a in table && table[a].uid.Some? ensures table[a].uid.value in StoredUids(table) {}
        InsertKeepsUnique(table[first.id := first], rest);
      }
    }
  }

  // ------------------------------------------------------------------ Dispatch

  /** The registry: a workspace's enabled endpoints. */
  type Endpoints = Id -> seq<Endpoint>

  function Matched(endpoints: Endpoints, e: Event): seq<Endpoint> { Scan(endpoints(e.ws), e.kind) }

  /** The source indexes the first retry delay of every endpoint it fans out to. */
  ghost predicate RetriesGiven(endpoints: Endpoints, batch: seq<Event>)
  {
    forall e, p :: e in batch && p in endpoints(e.ws) && e.kind in p.events ==> p.retry != []
  }

  function Delay(p: Endpoint): nat { if p.retry == [] then 0 else p.retry[0] }

  /** One INIT attempt, numbered 1, per endpoint. */
  function Fanout(e: Event, matched: seq<Endpoint>, now: int): seq<Row>
  {
    seq(|matched|, i requires 0 <= i < |matched| =>
      Row(e.id, matched[i].id, 1, now + 1000 * Delay(matched[i]), Init, false))
  }

  function AttemptsFor(endpoints: Endpoints, e: Event, now: int): seq<Row> { Fanout(e, Matched(endpoints, e), now) }

  /** The map built by the first loop: nothing for an event without endpoints. */
  function Fanned(endpoints: Endpoints, batch: seq<Event>, now: int): map<Id, seq<Row>>
  {
    if batch == [] then map[]
    else
      var m, last := Fanned(endpoints, batch[..|batch| - 1], now), batch[|batch| - 1];
      if Matched(endpoints, last) == [] then m else m[last.id := AttemptsFor(endpoints, last, now)]
  }

  function Existing(table: Table, batch: seq<Event>): set<Id> { UidsOf(batch) * StoredUids(table) }

  function KeepNew(batch: seq<Event>, stored: set<Id>): seq<Event>
  {
    if batch == [] then []
    else KeepNew(batch[..|batch| - 1], stored)
         + if batch[|batch| - 1].uid.Some? && batch[|batch| - 1].uid.value in stored then [] else [batch[|batch| - 1]]
  }

  function Gather(maps: map<Id, seq<Row>>, ids: seq<Id>): seq<Row>
  {
    if ids == [] then []
    else Gather(maps, ids[..|ids| - 1]) + if ids[|ids| - 1] in maps then maps[ids[|ids| - 1]] else []
  }

  datatype Dispatched = Dispatched(table: Table, attempts: seq<Row>)

  /** Dispatch as the code has it: the map is keyed by event id, but what is deleted from it are unique ids. */
  function DispatchOf(table: Table, batch: seq<Event>, endpoints: Endpoints, now: int): Result<Dispatched>
  {
    var stored := Existing(table, batch);
    match Insert(table, KeepNew(batch, stored))
    case Ok(r) => Ok(Dispatched(r.table, Gather(Fanned(endpoints, batch, now) - stored, r.ids)))
    case Err => Err
  }

  /** The events that ought to be stored: those without a stored unique id or id, once each. */
  function Fresh(table: Table, batch: seq<Event>): seq<Event>
  {
    NewEvents(table, KeepNew(batch, Existing(table, batch)))
  }

  /** The attempts that ought to be created: the fan-out of every stored event, in insert order. */
  function Expected(events: seq<Event>, endpoints: Endpoints, now: int): seq<Row>
  {
    if events == [] then []
    else Expected(events[..|events| - 1], endpoints, now) + AttemptsFor(endpoints, events[|events| - 1], now)
  }

  lemma {:induction false} KeepNewMembers(batch: seq<Event>, stored: set<Id>)
    ensures forall e :: e in KeepNew(batch, stored) <==> e in batch && !(e.uid.Some? && e.uid.value in stored)
  {
    if batch != [] {
      KeepNewMembers(batch[..|batch| - 1], stored);
      assert batch == batch[..|batch| - 1] + [batch[|batch| - 1]];
    }
  }

  lemma {:induction false} FannedOf(endpoints: Endpoints, batch: seq<Event>, now: int)
    requires Consistent(batch)
    ensures var m := Fanned(endpoints, batch, now);
            && (forall e :: e in batch && Matched(endpoints, e) != [] ==>
              e.id in m && m[e.id] == AttemptsFor(endpoints, e, now))
            && (forall e :: e in batch && Matched(endpoints, e) == [] ==> e.id !in m)
            && (forall id :: id in m ==> exists e :: e in batch && e.id == id)
  {
    if batch != [] {
      var rest, last := batch[..|batch| - 1], batch[|batch| - 1];
      assert batch == rest + [last];
      FannedOf(endpoints, rest, now);
      assert last in batch && forall e :: e in rest ==> e in batch;
    }
  }

  /** No event stored by the call, with endpoints to go to, has an id equal to a stored unique id of the batch. */
  ghost predicate KeysApart(table: Table, batch: seq<Event>, endpoints: Endpoints)
  {
    forall e :: e in Fresh(table, batch) && Matched(endpoints, e) != [] ==> e.id !in Existing(table, batch)
  }

  lemma {:induction false} GatherLength(
    maps: map<Id, seq<Row>>, gone: set<Id>, events: seq<Event>, endpoints: Endpoints, now: int)
    requires forall e :: e in events && Matched(endpoints, e) != [] ==>
      e.id in maps && maps[e.id] == AttemptsFor(endpoints, e, now)
    requires forall e :: e in events && Matched(endpoints, e) == [] ==> e.id !in maps
    ensures var got, want := Gather(maps - gone, IdsOf(events)), Expected(events, endpoints, now);
            && |got| <= |want|
            && (got == want <==> forall e :: e in events && Matched(endpoints, e) != [] ==> e.id !in gone)
            && (got != want ==> |got| < |want|)
    decreases events
  {
    if events != [] {
      var rest, last := events[..|events| - 1], events[|events| - 1];
      assert events == rest + [last];
      assert IdsOf(events)[..|events| - 1] == IdsOf(rest);
      GatherLength(maps, gone, rest, endpoints, now);
    }
  }

  /**
   Dispatch is exact: when it succeeds, the attempts returned are the fan-out of exactly the newly stored
   events, in insert order, if and only if no such event's id is a stored unique id of the batch.
   */
  lemma DispatchExactIff(table: Table, batch: seq<Event>, endpoints: Endpoints, now: int)
    requires Consistent(batch) && DispatchOf(table, batch, endpoints, now).Ok?
    ensures DispatchOf(table, batch, endpoints, now).value.attempts == Expected(Fresh(table, batch), endpoints, now)
       <==> KeysApart(table, batch, endpoints)
  {
    var stored := Existing(table, batch);
    var kept := KeepNew(batch, stored);
    InsertReturnsNew(table, kept);
    NewAreMembers(table, kept);
    KeepNewMembers(batch, stored);
    FannedOf(endpoints, batch, now);
    GatherLength(Fanned(endpoints, batch, now), stored, Fresh(table, batch), endpoints, now);
  }

  /** Dispatch fails exactly when two new events of the batch share a unique id that is not stored yet. */
  lemma DispatchFailsIff(table: Table, batch: seq<Event>, endpoints: Endpoints, now: int)
    requires Consistent(batch)
    ensures DispatchOf(table, batch, endpoints, now).Err? <==> Collides(table, KeepNew(batch, Existing(table, batch)))
  {
    var stored := Existing(table, batch);
    var kept := KeepNew(batch, stored);
    KeepNewMembers(batch, stored);
    InsertFailsIff(table, kept);
  }

  /** Two events of a batch that fail it on a table: both are new, and so is the unique id they share. */
  ghost predicate StillCollide(table: Table, e: Event, f: Event)
  {
    Collide(table, e, f) && e.uid.Some? && e.uid.value !in StoredUids(table)
  }

  /**
   A batch that failed and is read again when the table has grown fails again if and only if for some two of its
   events nothing stored in between was one of them or carries their unique id.
   */
  lemma FailsAgainIff(table: Table, later: Table, batch: seq<Event>, endpoints: Endpoints, now: int, after: int)
    requires Consistent(batch) && DispatchOf(table, batch, endpoints, now).Err?
    requires forall id :: id in table ==> id in later && later[id] == table[id]
    ensures DispatchOf(later, batch, endpoints, after).Err?
       <==> exists e, f :: e in batch && f in batch && StillCollide(table, e, f) && StillCollide(later, e, f)
  {
    DispatchFailsIff(later, batch, endpoints, after);
    NoneClashes(later, batch);
    var kept := KeepNew(batch, Existing(later, batch));
    KeepNewMembers(batch, Existing(later, batch));
    if e, f :| e in kept && f in kept && Collide(later, e, f) {
      UidsGrow(table, later);
      assert StillCollide(table, e, f) && StillCollide(later, e, f);
    }
    if e, f :| e in batch && f in batch && StillCollide(table, e, f) && StillCollide(later, e, f) {
      assert e in kept && f in kept;
    }
  }

  lemma UidsGrow(table: Table, later: Table)
    requires forall id :: id in table ==> id in later && later[id] == table[id]
    ensures StoredUids(table) <= StoredUids(later)
  {
    forall u | u in StoredUids(table) ensures u in StoredUids(later) {
      var id :| id in table && table[id].uid.Some? && table[id].uid.value == u;
      assert later[id] == table[id];
    }
  }

  // ------------------------------------------------------------------ serial calls

  /** No two different events of the batch share a unique id. */
  ghost predicate NoRepeatedUid(batch: seq<Event>)
  {
    forall e, f :: e in batch && f in batch && e.uid.Some? && e.uid == f.uid ==> e.id == f.id
  }

  /** The table after serial calls; a failed call leaves it as it was. */
  function AfterAll(table: Table, batches: seq<seq<Event>>, endpoints: Endpoints, now: int): Table
  {
    if batches == [] then table
    else
      var t, last := AfterAll(table, batches[..|batches| - 1], endpoints, now), batches[|batches| - 1];
      match DispatchOf(t, last, endpoints, now)
      case Ok(d) => d.table
      case Err => t
  }

  /**
   Over serial calls with no repeated unique id inside a batch, the unique index never rejects a batch,
   and no two rows ever share a unique id.
   */
  lemma {:induction false} SerialCallsSucceed(table: Table, batches: seq<seq<Event>>, endpoints: Endpoints, now: int)
    requires UidsUnique(table) && forall b :: b in batches ==> Consistent(b) && NoRepeatedUid(b)
    ensures UidsUnique(AfterAll(table, batches, endpoints, now))
    ensures forall b, t :: b in batches ==> DispatchOf(t, b, endpoints, now).Ok?
  {
    forall b, t | b in batches ensures DispatchOf(t, b, endpoints, now).Ok? {
      DispatchFailsIff(t, b, endpoints, now);
      KeepNewMembers(b, Existing(t, b));
    }
    if batches != [] {
      var rest, last := batches[..|batches| - 1], batches[|batches| - 1];
      SerialCallsSucceed(table, rest, endpoints, now);
      var t := AfterAll(table, rest, endpoints, now);
      assert last in batches && DispatchOf(t, last, endpoints, now).Ok?;
      InsertKeepsUnique(t, KeepNew(last, Existing(t, last)));
    }
  }

  /** A fan-out map holds attempts of the event it is keyed by. */
  ghost predicate KeyedByEvent(maps: map<Id, seq<Row>>)
  {
    forall id, row :: id in maps && row in maps[id] ==> row.event == id
  }

  lemma {:induction false} FannedKeyed(endpoints: Endpoints, batch: seq<Event>, now: int)
    ensures KeyedByEvent(Fanned(endpoints, batch, now))
  {
    if batch != [] { FannedKeyed(endpoints, batch[..|batch| - 1], now); }
  }

  lemma {:induction false} GatherKeyed(maps: map<Id, seq<Row>>, ids: seq<Id>)
    requires KeyedByEvent(maps)
    ensures forall row :: row in Gather(maps, ids) ==> row.event in ids
  {
    if ids != [] {
      GatherKeyed(maps, ids[..|ids| - 1]);
      assert ids == ids[..|ids| - 1] + [ids[|ids| - 1]];
    }
  }

  /** Dropping the events with a listed unique id leaves none that the unique index would refuse for a stored row. */
  lemma NoneClashes(table: Table, batch: seq<Event>)
    ensures !Clashes(table, KeepNew(batch, Existing(table, batch)))
    ensures var kept := KeepNew(batch, Existing(table, batch));
            forall e :: e in batch ==> (e in kept <==> e.uid.None? || e.uid.value !in StoredUids(table))
  {
    KeepNewMembers(batch, Existing(table, batch));
    forall e | e in batch && e.uid.Some? ensures e.uid.value in UidsOf(batch) {}
  }

  /** An event whose unique id is stored, and which is not stored itself, yields neither a row nor an attempt. */
  lemma StoredUidIgnored(table: Table, batch: seq<Event>, endpoints: Endpoints, now: int, e: Event)
    requires Consistent(batch) && e in batch && e.uid.Some? && e.uid.value in StoredUids(table) && e.id !in table
    requires DispatchOf(table, batch, endpoints, now).Ok?
    ensures var d := DispatchOf(table, batch, endpoints, now).value;
            e.id !in d.table && forall row :: row in d.attempts ==> row.event != e.id
  {
    var stored := Existing(table, batch);
    var kept := KeepNew(batch, stored);
    var r := Insert(table, kept).value;
    KeepNewMembers(batch, stored);
    NoneClashes(table, batch);
    InsertKeepsRows(table, kept);
    InsertReturnsNew(table, kept);
    NewAreMembers(table, kept);
    FannedKeyed(endpoints, batch, now);
    GatherKeyed(Fanned(endpoints, batch, now) - stored, r.ids);
    forall i | 0 <= i < |r.ids| ensures r.ids[i] != e.id {
      assert NewEvents(table, kept)[i] in NewEvents(table, kept);
    }
  }

  const STORED: Table := map[1 := Event(1, 0, 5, Some(7))]
  const ARRIVING := [Event(7, 0, 5, None), Event(8, 0, 5, Some(7))]

  function OneSubscriber(ws: Id): seq<Endpoint> { [Endpoint(3, [5], [0])] }

  lemma StoredWitness()
    ensures 7 in Existing(STORED, ARRIVING)
  {
    assert STORED[1].uid.value in StoredUids(STORED) && ARRIVING[1] in ARRIVING
      && ARRIVING[1].uid.value in UidsOf(ARRIVING);
  }

  lemma FreshWitness()
    ensures Fresh(STORED, ARRIVING) == [ARRIVING[0]]
  {
    var a, stored := ARRIVING[0], Existing(STORED, ARRIVING);
    StoredWitness();
    assert ARRIVING[..1] == [a] && [a][..0] == [] && [a][1..] == [];
    assert KeepNew([a], stored) == [a];
    assert KeepNew(ARRIVING, stored) == [a];
  }

  lemma MatchedWitness()
    ensures Matched(OneSubscriber, ARRIVING[0]) != []
  {
    var p := Endpoint(3, [5], [0]);
    assert [p][..0] == [] && [5][..0] == [];
    assert Copies(p, [5], 5) == [p] && Scan([p], 5) == [p];
  }

  /**
   The wrong key at work: event 7 is new and has a subscriber, but unique id 7 is stored and also occurs in
   the batch, so event 7 is stored without its attempt.
   */
  lemma WrongKeyDropsAttempts(now: int)
    ensures var d := DispatchOf(STORED, ARRIVING, OneSubscriber, now);
            d.Ok? && d.value.attempts != Expected([ARRIVING[0]], OneSubscriber, now)
  {
    StoredWitness();
    FreshWitness();
    MatchedWitness();
    assert ARRIVING[0] in Fresh(STORED, ARRIVING);
    KeepNewMembers(ARRIVING, Existing(STORED, ARRIVING));
    DispatchFailsIff(STORED, ARRIVING, OneSubscriber, now);
    DispatchExactIff(STORED, ARRIVING, OneSubscriber, now);
  }
}
