/** The event DAO and Dispatcher.Dispatch as the imperative code they are. */
module Dispatcher {
  import opened Common
  import opened Attempts
  import opened Dispatch

  /** A statement's result with ids already returned in front. */
  function Prepend(ids: seq<Id>, r: Result<Inserted>): Result<Inserted>
  {
    match r
    case Ok(i) => Ok(Inserted(i.table, ids + i.ids))
    case Err => Err
  }

  /** The events and attempts tables. */
  class Database {
    var table: Table
    var attempts: seq<Row>

    constructor ()
      ensures table == map[] && attempts == []
    {
      table, attempts := map[], [];
    }

    method ListExistingUniqueIDs(uids: seq<Id>) returns (list: set<Id>)
      ensures list == (set u | u in uids) * StoredUids(table)
    {
      list := (set u | u in uids) * StoredUids(table);
    }

    /** One statement: when it fails nothing is inserted. */
    method BatchInsertIgnoreConflict(events: seq<Event>) returns (r: Result<seq<Id>>)
      modifies this`table
      ensures match Insert(old(table), events)
              case Ok(i) => table == i.table && r == Ok(i.ids)
              case Err => table == old(table) && r == Err
    {
      var t: Table := table;
      assert events[0..] == events;
      PrependNothing(Insert(table, events));
      var ids: seq<Id> := [];
      for i := 0 to |events|
        invariant table == old(table)
        invariant Insert(table, events) == Prepend(ids, Insert(t, events[i..]))
      {
        var e := events[i];
        assert events[i..][1..] == events[i + 1..];
        if e.id !in t {
          if e.uid.Some? && e.uid.value in StoredUids(t) { return Err; }
          PrependMore(ids, e.id, Insert(t[e.id := e], events[i + 1..]));
          t := t[e.id := e];
          ids := ids + [e.id];
        }
      }
      table := t;
      assert ids + [] == ids;
      return Ok(ids);
    }
  }

  lemma PrependNothing(r: Result<Inserted>)
    ensures Prepend([], r) == r
  {
    if r.Ok? { assert [] + r.value.ids == r.value.ids; }
  }

  lemma PrependMore(ids: seq<Id>, id: Id, r: Result<Inserted>)
    ensures Prepend(ids + [id], r) == Prepend(ids, Prepend([id], r))
  {
    if r.Ok? { assert ids + [id] + r.value.ids == ids + ([id] + r.value.ids); }
  }

  method FanoutTo(e: Event, matched: seq<Endpoint>, now: int) returns (attempts: seq<Row>)
    requires forall p :: p in matched ==> p.retry != []
    ensures attempts == Fanout(e, matched, now)
  {
    attempts := [];
    for i := 0 to |matched|
      invariant attempts == Fanout(e, matched, now)[..i]
    {
      assert matched[i] in matched;
      attempts := attempts + [Row(e.id, matched[i].id, 1, now + 1000 * matched[i].retry[0], Init, false)];
    }
  }

  class DispatcherObject {
    const db: Database
    const endpoints: Endpoints

    constructor (db: Database, endpoints: Endpoints)
      ensures this.db == db && this.endpoints == endpoints
    {
      this.db, this.endpoints := db, endpoints;
    }

    /** The first loop: the fan-out of every event by its id, and the unique ids seen. */
    method FanoutAll(events: array<Event>, now: int) returns (maps: map<Id, seq<Row>>, uids: seq<Id>)
      requires RetriesGiven(endpoints, events[..])
      ensures maps == Fanned(endpoints, events[..], now)
      ensures forall u :: u in uids <==> u in UidsOf(events[..])
    {
      maps, uids := map[], [];
      for i := 0 to events.Length
        invariant maps == Fanned(endpoints, events[..i], now)
        invariant forall u :: u in uids <==> u in UidsOf(events[..i])
      {
        var e := events[i];
        assert e in events[..] && events[..i + 1][..i] == events[..i] && events[..i + 1] == events[..i] + [e];
        UidsAppend(events[..i], e);
        var matched := Matched(endpoints, e);
        forall p | p in matched ensures p.retry != [] { ScanMember(endpoints(e.ws), e.kind, p); }
        if |matched| != 0 {
          var attempts := FanoutTo(e, matched, now);
          maps := maps[e.id := attempts];
        }
        if e.uid.Some? { uids := uids + [e.uid.value]; }
      }
      assert events[..events.Length] == events[..];
    }

    /** filtered := events[:0]: the kept events are compacted into the array being scanned. */
    method FilterInPlace(events: array<Event>, stored: set<Id>) returns (kept: nat)
      modifies events
      ensures kept <= events.Length && events[..kept] == KeepNew(old(events[..]), stored)
    {
      kept := 0;
      ghost var all := events[..];
      for i := 0 to events.Length
        invariant kept <= i && events[..kept] == KeepNew(all[..i], stored)
        invariant forall k :: i <= k < events.Length ==> events[k] == all[k]
      {
        assert all[..i + 1][..i] == all[..i];
        var e := events[i];
        if e.uid.None? || e.uid.value !in stored {
          events[kept] := e;
          kept := kept + 1;
        }
      }
      assert all[..|all|] == all;
    }

    method GatherAll(maps: map<Id, seq<Row>>, ids: seq<Id>) returns (attempts: seq<Row>)
      ensures attempts == Gather(maps, ids)
    {
      attempts := [];
      for i := 0 to |ids|
        invariant attempts == Gather(maps, ids[..i])
      {
        assert ids[..i + 1][..i] == ids[..i];
        if ids[i] in maps { attempts := attempts + maps[ids[i]]; }
      }
      assert ids[..|ids|] == ids;
    }

    /**
     Fan out, drop what has a stored unique id, insert events and attempts in one transaction. The lookups and the
     unique-id query, or the insert of the attempts, may fail.
     */
    method DispatchAll(events: array<Event>, now: int, readsOk: bool, attemptsOk: bool) returns (r: Result<seq<Row>>)
      requires RetriesGiven(endpoints, events[..])
      modifies events, db
      ensures match CallOf(old(db.table), old(events[..]), endpoints, now, readsOk, attemptsOk)
              case Ok(d) => db.table == d.table && r == Ok(d.attempts) && db.attempts == old(db.attempts) + d.attempts
              case Err => db.table == old(db.table) && r == Err && db.attempts == old(db.attempts)
    {
      ghost var batch := events[..];
      if events.Length == 0 {
        NothingDispatched(db.table, endpoints, now);
        return Ok([]);
      }
      if !readsOk { return Err; }
      var maps, uids := FanoutAll(events, now);
      var stored := db.ListExistingUniqueIDs(uids);
      assert stored == Existing(db.table, batch);
      var n := events.Length;
      if stored != {} {
        maps := maps - stored;
        n := FilterInPlace(events, stored);
      } else {
        KeepAll(batch);
        assert maps - stored == maps;
      }
      assert events[..n] == KeepNew(batch, stored) && maps == Fanned(endpoints, batch, now) - stored;
      var before := db.table;
      var ids := db.BatchInsertIgnoreConflict(events[..n]);
      if ids.Err? { return Err; }
      var attempts := GatherAll(maps, ids.value);
      if maps.Keys != {} && !attemptsOk {
        db.table := before;
        return Err;
      }
      db.attempts := db.attempts + attempts;
      return Ok(attempts);
    }
  }

  /** The whole call: it fails when a read fails, or when the insert of the attempts fails and there is a fan-out. */
  function CallOf(
    table: Table, batch: seq<Event>, endpoints: Endpoints, now: int, readsOk: bool, attemptsOk: bool)
    : Result<Dispatched>
  {
    var fanout := Fanned(endpoints, batch, now) - Existing(table, batch);
    if (batch != [] && !readsOk) || (fanout.Keys != {} && !attemptsOk) then Err
    else DispatchOf(table, batch, endpoints, now)
  }

  lemma NothingDispatched(table: Table, endpoints: Endpoints, now: int)
    ensures DispatchOf(table, [], endpoints, now) == Ok(Dispatched(table, []))
    ensures Fanned(endpoints, [], now) == map[]
  {
  }

  lemma UidsAppend(batch: seq<Event>, e: Event)
    ensures UidsOf(batch + [e]) == UidsOf(batch) + if e.uid.Some? then {e.uid.value} else {}
  {
    assert forall x :: x in batch + [e] <==> x in batch || x == e;
  }

  lemma {:induction false} KeepAll(batch: seq<Event>)
    ensures KeepNew(batch, {}) == batch
  {
    if batch != [] {
      KeepAll(batch[..|batch| - 1]);
      assert batch == batch[..|batch| - 1] + [batch[|batch| - 1]];
    }
  }
}
