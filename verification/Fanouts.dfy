/** Which attempts one dispatch creates, counted for every event and endpoint. */
module Fanouts {
  import opened Common
  import opened Attempts
  import opened Dispatch

  /** How many attempts of an event go to an endpoint. */
  function CountFor(rows: seq<Row>, event: Id, endpoint: Id): nat
  {
    if rows == [] then 0
    else
      CountFor(rows[..|rows| - 1], event, endpoint)
      + if rows[|rows| - 1].event == event && rows[|rows| - 1].endpoint == endpoint then 1 else 0
  }

  lemma {:induction false} CountAdds(a: seq<Row>, b: seq<Row>, event: Id, endpoint: Id)
    ensures CountFor(a + b, event, endpoint) == CountFor(a, event, endpoint) + CountFor(b, event, endpoint)
    decreases |b|
  {
    if b == [] {
      assert a + b == a;
    } else {
      var rest := b[..|b| - 1];
      assert (a + b)[..|a + b| - 1] == a + rest;
      CountAdds(a, rest, event, endpoint);
    }
  }

  lemma {:induction false} CountNone(rows: seq<Row>, event: Id, endpoint: Id)
    requires forall row :: row in rows ==> row.event != event || row.endpoint != endpoint
    ensures CountFor(rows, event, endpoint) == 0
  {
    if rows != [] { CountNone(rows[..|rows| - 1], event, endpoint); }
  }

  // ------------------------------------------------------------------ one event's fan-out

  lemma {:induction false} FanoutAdds(e: Event, a: seq<Endpoint>, b: seq<Endpoint>, now: int, endpoint: Id)
    ensures CountFor(Fanout(e, a + b, now), e.id, endpoint) ==
      CountFor(Fanout(e, a, now), e.id, endpoint) + CountFor(Fanout(e, b, now), e.id, endpoint)
  {
    assert Fanout(e, a + b, now) == Fanout(e, a, now) + Fanout(e, b, now);
    CountAdds(Fanout(e, a, now), Fanout(e, b, now), e.id, endpoint);
  }

  lemma {:induction false} CopiesFanout(e: Event, p: Endpoint, kinds: seq<Kind>, now: int, endpoint: Id)
    ensures CountFor(Fanout(e, Copies(p, kinds, e.kind), now), e.id, endpoint) ==
      if p.id == endpoint then multiset(kinds)[e.kind] else 0
  {
    if kinds != [] {
      var rest, last := kinds[..|kinds| - 1], kinds[|kinds| - 1];
      assert kinds == rest + [last];
      CopiesFanout(e, p, rest, now, endpoint);
      if last == e.kind {
        FanoutAdds(e, Copies(p, rest, e.kind), [p], now, endpoint);
        OneCount(e, p, now, endpoint);
      } else {
        assert Copies(p, kinds, e.kind) == Copies(p, rest, e.kind);
      }
    }
  }

  lemma OneCount(e: Event, p: Endpoint, now: int, endpoint: Id)
    ensures CountFor(Fanout(e, [p], now), e.id, endpoint) == if p.id == endpoint then 1 else 0
  {
    assert Fanout(e, [p], now)[..0] == [];
  }

  ghost predicate IdsApart(endpoints: seq<Endpoint>)
  {
    forall i, j :: 0 <= i < j < |endpoints| ==> endpoints[i].id != endpoints[j].id
  }

  lemma {:induction false} ScanNone(e: Event, endpoints: seq<Endpoint>, now: int, endpoint: Id)
    requires forall q :: q in endpoints ==> q.id != endpoint
    ensures CountFor(Fanout(e, Scan(endpoints, e.kind), now), e.id, endpoint) == 0
  {
    if endpoints != [] {
      var rest, last := endpoints[..|endpoints| - 1], endpoints[|endpoints| - 1];
      ScanNone(e, rest, now, endpoint);
      FanoutAdds(e, Scan(rest, e.kind), Copies(last, last.events, e.kind), now, endpoint);
      CopiesFanout(e, last, last.events, now, endpoint);
    }
  }

  /** An endpoint gets as many attempts of an event as its list names the event's type. */
  lemma {:induction false} ScanFanout(e: Event, endpoints: seq<Endpoint>, now: int, p: Endpoint)
    requires IdsApart(endpoints) && p in endpoints
    ensures CountFor(Fanout(e, Scan(endpoints, e.kind), now), e.id, p.id) == multiset(p.events)[e.kind]
  {
    var rest, last := endpoints[..|endpoints| - 1], endpoints[|endpoints| - 1];
    FanoutAdds(e, Scan(rest, e.kind), Copies(last, last.events, e.kind), now, p.id);
    CopiesFanout(e, last, last.events, now, p.id);
    if p == last {
      ScanNone(e, rest, now, p.id);
    } else {
      assert endpoints == rest + [last];
      ScanFanout(e, rest, now, p);
    }
  }

  // ------------------------------------------------------------------ the events stored

  /** Every new event of a batch is among those inserted, once. */
  lemma {:induction false} NewCover(table: Table, batch: seq<Event>)
    ensures forall e :: e in batch && e.id !in table ==> e.id in IdsOf(NewEvents(table, batch))
    ensures Distinct(IdsOf(NewEvents(table, batch)))
    decreases batch
  {
    if batch != [] {
      var first, rest := batch[0], batch[1..];
      assert batch == [first] + rest;
      if first.id in table {
        NewCover(table, rest);
      } else {
        var next := table[first.id := first];
        NewCover(next, rest);
        NewAreMembers(next, rest);
        var ids := IdsOf(NewEvents(next, rest));
        assert IdsOf(NewEvents(table, batch)) == [first.id] + ids;
        forall i | 0 <= i < |ids| ensures ids[i] != first.id {
          assert NewEvents(next, rest)[i] in NewEvents(next, rest);
        }
        assert forall id :: id in ids ==> id in [first.id] + ids;
        assert first.id in [first.id] + ids;
      }
    }
  }

  lemma {:induction false} GatherCount(maps: map<Id, seq<Row>>, ids: seq<Id>, event: Id, endpoint: Id)
    requires KeyedByEvent(maps) && Distinct(ids)
    ensures CountFor(Gather(maps, ids), event, endpoint) ==
      if event in ids && event in maps then CountFor(maps[event], event, endpoint) else 0
  {
    if ids != [] {
      var rest, last := ids[..|ids| - 1], ids[|ids| - 1];
      assert ids == rest + [last];
      GatherCount(maps, rest, event, endpoint);
      if last in maps {
        CountAdds(Gather(maps, rest), maps[last], event, endpoint);
        if last != event { CountNone(maps[last], event, endpoint); }
      } else {
        assert Gather(maps, ids) == Gather(maps, rest);
      }
    }
  }

  /** The event was not stored, and the call stored it. */
  ghost predicate NewlyStored(table: Table, after: Table, e: Event) { e.id !in table && e.id in after }

  /** The event's id is also a unique id that the batch shares with the table: what the code deletes by mistake. */
  ghost predicate Mistaken(table: Table, batch: seq<Event>, e: Event)
  {
    && (exists id :: id in table && table[id].uid == Some(e.id))
    && (exists f :: f in batch && f.uid == Some(e.id))
  }

  lemma MistakenIs(table: Table, batch: seq<Event>, e: Event)
    ensures Mistaken(table, batch, e) <==> e.id in Existing(table, batch)
  {
    if Mistaken(table, batch, e) {
      var id :| id in table && table[id].uid == Some(e.id);
      assert table[id].uid.value in StoredUids(table);
      var f :| f in batch && f.uid == Some(e.id);
      assert f.uid.value in UidsOf(batch);
    }
    if e.id in Existing(table, batch) {
      var id :| id in table && table[id].uid.Some? && table[id].uid.value == e.id;
      assert table[id].uid == Some(e.id);
      var f :| f in batch && f.uid.Some? && f.uid.value == e.id;
      assert f.uid == Some(e.id);
    }
  }

  lemma StoredIds(table: Table, batch: seq<Event>, endpoints: Endpoints, now: int, e: Event)
    requires Consistent(batch) && e in batch && DispatchOf(table, batch, endpoints, now).Ok?
    ensures var d := DispatchOf(table, batch, endpoints, now).value;
            NewlyStored(table, d.table, e) <==> e.id in IdsOf(Fresh(table, batch))
  {
    var kept := KeepNew(batch, Existing(table, batch));
    KeepNewMembers(batch, Existing(table, batch));
    InsertKeepsRows(table, kept);
    NewCover(table, kept);
    NewAreMembers(table, kept);
    if e.id in IdsOf(NewEvents(table, kept)) {
      var i :| 0 <= i < |NewEvents(table, kept)| && IdsOf(NewEvents(table, kept))[i] == e.id;
      assert NewEvents(table, kept)[i] in NewEvents(table, kept);
    }
  }

  /** An event of the batch has its own row afterwards, unless its id or its unique id was stored before. */
  lemma StoredIff(table: Table, batch: seq<Event>, endpoints: Endpoints, now: int, e: Event)
    requires Consistent(batch) && e in batch && DispatchOf(table, batch, endpoints, now).Ok?
    ensures var after := DispatchOf(table, batch, endpoints, now).value.table;
            && (NewlyStored(table, after, e) <==>
                 e.id !in table && (e.uid.None? || forall id :: id in table ==> table[id].uid != e.uid))
            && (NewlyStored(table, after, e) ==> after[e.id] == e)
            && (forall id :: id in table ==> id in after && after[id] == table[id])
  {
    var kept := KeepNew(batch, Existing(table, batch));
    InsertKeepsRows(table, kept);
    KeepNewMembers(batch, Existing(table, batch));
    NoneClashes(table, batch);
    if e.uid.Some? {
      if id :| id in table && table[id].uid == e.uid { assert table[id].uid.value in StoredUids(table); }
    }
  }

  /**
   An endpoint of an event's workspace gets, of that event, as many attempts as its list names the event's type, if the
   call stored the event and its id is no stored unique id of the batch; and none otherwise.
   */
  lemma AttemptsPerEndpoint(
    table: Table, batch: seq<Event>, endpoints: Endpoints, now: int, e: Event, p: Endpoint)
    requires Consistent(batch) && DispatchOf(table, batch, endpoints, now).Ok?
    requires e in batch && p in endpoints(e.ws) && IdsApart(endpoints(e.ws))
    ensures var d := DispatchOf(table, batch, endpoints, now).value;
            CountFor(d.attempts, e.id, p.id) ==
              if NewlyStored(table, d.table, e) && !Mistaken(table, batch, e) then multiset(p.events)[e.kind] else 0
  {
    var stored := Existing(table, batch);
    var maps, ids := Fanned(endpoints, batch, now), IdsOf(Fresh(table, batch));
    MistakenIs(table, batch, e);
    StoredIds(table, batch, endpoints, now, e);
    InsertReturnsNew(table, KeepNew(batch, stored));
    NewCover(table, KeepNew(batch, stored));
    FannedKeyed(endpoints, batch, now);
    FannedOf(endpoints, batch, now);
    GatherCount(maps - stored, ids, e.id, p.id);
    ScanFanout(e, endpoints(e.ws), now, p);
  }

  // ------------------------------------------------------------------ nothing else is created

  /** The row is a first attempt of an event of the batch for an endpoint of its workspace that lists its type. */
  ghost predicate Meant(batch: seq<Event>, endpoints: Endpoints, now: int, row: Row)
  {
    exists e, p ::
      && e in batch && p in endpoints(e.ws) && e.kind in p.events && p.retry != []
      && row == Row(e.id, p.id, 1, now + 1000 * p.retry[0], Init, false)
  }

  lemma {:induction false} FannedMeant(endpoints: Endpoints, batch: seq<Event>, now: int, id: Id, row: Row)
    requires RetriesGiven(endpoints, batch)
    requires id in Fanned(endpoints, batch, now) && row in Fanned(endpoints, batch, now)[id]
    ensures Meant(batch, endpoints, now, row)
  {
    var rest, last := batch[..|batch| - 1], batch[|batch| - 1];
    assert batch == rest + [last];
    var matched := Scan(endpoints(last.ws), last.kind);
    if matched != [] && id == last.id {
      var i :| 0 <= i < |matched| && Fanout(last, matched, now)[i] == row;
      ScanMember(endpoints(last.ws), last.kind, matched[i]);
      assert matched[i] in matched;
    } else {
      FannedMeant(endpoints, rest, now, id, row);
      var e, p :| e in rest && p in endpoints(e.ws) && e.kind in p.events && p.retry != []
        && row == Row(e.id, p.id, 1, now + 1000 * p.retry[0], Init, false);
      assert e in batch;
    }
  }

  lemma {:induction false} GatherFrom(maps: map<Id, seq<Row>>, ids: seq<Id>, row: Row)
    requires row in Gather(maps, ids)
    ensures exists id :: id in maps && row in maps[id]
  {
    var rest, last := ids[..|ids| - 1], ids[|ids| - 1];
    if !(last in maps && row in maps[last]) { GatherFrom(maps, rest, row); }
  }

  /** Every attempt is a first attempt, due after the first delay, of a stored event for an endpoint it is meant for. */
  lemma AttemptsAreMeant(table: Table, batch: seq<Event>, endpoints: Endpoints, now: int, row: Row)
    requires RetriesGiven(endpoints, batch) && DispatchOf(table, batch, endpoints, now).Ok?
    requires row in DispatchOf(table, batch, endpoints, now).value.attempts
    ensures Meant(batch, endpoints, now, row)
    ensures row.event !in table && row.event in DispatchOf(table, batch, endpoints, now).value.table
  {
    var stored := Existing(table, batch);
    var kept := KeepNew(batch, stored);
    var maps, ids := Fanned(endpoints, batch, now) - stored, IdsOf(NewEvents(table, kept));
    InsertReturnsNew(table, kept);
    InsertKeepsRows(table, kept);
    NewAreMembers(table, kept);
    FannedKeyed(endpoints, batch, now);
    GatherKeyed(maps, ids);
    var i :| 0 <= i < |ids| && ids[i] == row.event;
    assert NewEvents(table, kept)[i] in NewEvents(table, kept);
    GatherFrom(maps, ids, row);
    var id :| id in maps && row in maps[id];
    FannedMeant(endpoints, batch, now, id, row);
  }
}
