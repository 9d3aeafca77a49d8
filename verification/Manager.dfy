/** Manager.Record, getOrCreate and Flush of worker/circuitbreaker/manager.go as the imperative code they are. */
module Manager {
  import opened Common
  import opened Counter
  import opened Recorder
  import opened Flush
  import Paths

  class RedisClient {
    var hashes: Redis
    var expires: map<BucketKey, int>

    constructor ()
      ensures hashes == map[] && expires == map[]
    {
      hashes, expires := map[], map[];
    }

    /** The pipeline of Flush: HINCRBY of the counts of every key, then its EXPIRE. */
    method Pipeline(data: Redis, now: int)
      modifies this
      ensures hashes == Applied(old(hashes), data)
      ensures expires == Expiring(old(expires), data, now)
    {
      var rest := data.Keys;
      ghost var h0, e0 := hashes, expires;
      while |rest| > 0
        invariant rest <= data.Keys
        invariant AppliedBut(h0, data, rest, hashes) && ExpiringBut(e0, data, rest, now, expires)
        decreases rest
      {
        var key :| key in rest;
        hashes := hashes[key := Sum(Read(hashes, key), data[key])];
        expires := expires[key := now + (if key.unit >= 3600 then 25 * 3600 else 61 * 60)];
        rest := rest - {key};
      }
      AppliedAll(h0, data, hashes);
      ExpiringAll(e0, data, now, expires);
    }
  }

  /** Every key of the data but the rest has been incremented, and nothing else has. */
  ghost predicate AppliedBut(before: Redis, data: Redis, rest: set<BucketKey>, hashes: Redis)
  {
    && hashes.Keys == before.Keys + (data.Keys - rest)
    && forall key :: key in hashes ==>
         hashes[key] == if key in data && key !in rest then Sum(Read(before, key), data[key]) else Read(before, key)
  }

  ghost predicate ExpiringBut(
    before: map<BucketKey, int>, data: Redis, rest: set<BucketKey>, now: int, expires: map<BucketKey, int>)
  {
    && expires.Keys == before.Keys + (data.Keys - rest)
    && forall key :: key in expires ==>
         if key in data && key !in rest then expires[key] == now + Ttl(key.unit)
         else key in before && expires[key] == before[key]
  }

  lemma AppliedAll(before: Redis, data: Redis, hashes: Redis)
    requires AppliedBut(before, data, {}, hashes)
    ensures hashes == Applied(before, data)
  {
  }

  lemma ExpiringAll(before: map<BucketKey, int>, data: Redis, now: int, expires: map<BucketKey, int>)
    requires ExpiringBut(before, data, {}, now, expires)
    ensures expires == Expiring(before, data, now)
  {
  }

  function KeysOfList(id: Id, unit: int, list: seq<Bucket>): set<BucketKey>
  {
    set b | b in list :: BucketKey(id, unit, b.start)
  }

  /** The buckets of one unit are in the data with what the recorder adds to them. */
  ghost predicate HasUnit(id: Id, r: Rec, unit: int, end: int, data: Redis)
    requires IsUnit(unit)
  {
    forall start :: start in Keys(r.ring, unit, r.lastSync + 1, end) ==>
      BucketKey(id, unit, start) in data && data[BucketKey(id, unit, start)] == Collected(r, unit, start, end)
  }

  /** The data gained the list's buckets and nothing else. */
  ghost predicate Put(id: Id, unit: int, list: seq<Bucket>, before: Redis, data: Redis)
  {
    && data.Keys == before.Keys + KeysOfList(id, unit, list)
    && (forall key :: key in before ==> data[key] == before[key])
    && (forall b :: b in list ==> data[BucketKey(id, unit, b.start)] == Counts(b.success, b.error))
  }

  /** data[key] = m for every metric of the list. */
  method PutAll(id: Id, unit: int, list: seq<Bucket>, before: Redis) returns (data: Redis)
    requires forall i, j :: 0 <= i < j < |list| ==> list[i].start < list[j].start
    requires forall key :: key in before ==> key.id != id || key.unit != unit
    ensures Put(id, unit, list, before, data)
  {
    data := before;
    for i := 0 to |list|
      invariant Put(id, unit, list[..i], before, data)
    {
      assert list[..i + 1] == list[..i] + [list[i]];
      assert BucketKey(id, unit, list[i].start) !in KeysOfList(id, unit, list[..i]);
      data := data[BucketKey(id, unit, list[i].start) := Counts(list[i].success, list[i].error)];
    }
    assert list[..|list|] == list;
  }

  lemma PutBucket(id: Id, r: Rec, unit: int, end: int, list: seq<Bucket>, before: Redis, data: Redis, b: Bucket)
    requires b in list && BucketOk(r.ring, unit, r.lastSync + 1, end, b) && Put(id, unit, list, before, data)
    ensures var key := BucketKey(id, unit, b.start); key in data && data[key] == Collected(r, unit, b.start, end)
  {
    assert BucketKey(id, unit, b.start) in KeysOfList(id, unit, list);
  }

  /** The list of an aggregation puts the recorder's buckets of that unit. */
  lemma PutUnit(id: Id, r: Rec, unit: int, end: int, list: seq<Bucket>, before: Redis, data: Redis)
    requires IsUnit(unit) && IsAggregate(r.ring, unit, r.lastSync + 1, end, list) && Put(id, unit, list, before, data)
    ensures HasUnit(id, r, unit, end, data)
    ensures forall key :: key in data && key !in before ==>
      key.id == id && key.unit == unit && key.start in Keys(r.ring, unit, r.lastSync + 1, end)
  {
    forall start | start in Keys(r.ring, unit, r.lastSync + 1, end)
      ensures BucketKey(id, unit, start) in data && data[BucketKey(id, unit, start)] == Collected(r, unit, start, end)
    {
      var i :| 0 <= i < |list| && list[i].start == start;
      assert BucketOk(r.ring, unit, r.lastSync + 1, end, list[i]);
      PutBucket(id, r, unit, end, list, before, data, list[i]);
    }
    forall key | key in data && key !in before
      ensures key.id == id && key.unit == unit && key.start in Keys(r.ring, unit, r.lastSync + 1, end)
    {
      assert key in KeysOfList(id, unit, list);
      var i :| 0 <= i < |list| && BucketKey(id, unit, list[i].start) == key;
    }
  }

  /** One more recorder's hour and minute buckets. */
  lemma FlushDataAdds(done: map<Id, Rec>, id: Id, r: Rec, end: int, before: Redis, data: Redis)
    requires id !in done && IsFlushData(done, end, before)
    requires HasUnit(id, r, HOUR, end, data) && HasUnit(id, r, MINUTE, end, data)
    requires forall key :: key in data ==>
      || key in before
      || (key.id == id && IsUnit(key.unit) && key.start in Keys(r.ring, key.unit, r.lastSync + 1, end))
    requires forall key :: key in before ==> key in data && data[key] == before[key]
    ensures IsFlushData(done[id := r], end, data)
  {
    var now := done[id := r];
    forall key ensures key in data <==> key in FlushKeys(now, end) {
      if key in FlushKeys(now, end) && key.id != id {
        assert now[key.id] == done[key.id];
        assert key in FlushKeys(done, end);
      }
      if key in before {
        assert key in FlushKeys(done, end) && now[key.id] == done[key.id];
      }
    }
    forall key | key in data ensures data[key] == Collected(now[key.id], key.unit, key.start, end) {
      if key in before { assert now[key.id] == done[key.id]; }
    }
  }

  class ManagerObject {
    var cache: map<Id, Rec>
    const client: RedisClient

    constructor (client: RedisClient)
      ensures cache == map[] && this.client == client
    {
      cache := map[];
      this.client := client;
    }

    method Record(now: nat, id: Id, event: Event)
      modifies this
      ensures cache == var r := GetOrCreate(old(cache), id);
                       old(cache)[id := r.(ring := RingRecord(r.ring, now, event))]
    {
      if id !in cache { cache := cache[id := Rec(EmptyRing(60), 0)]; }
      var r := cache[id];
      cache := cache[id := r.(ring := RingRecord(r.ring, now, event))];
    }

    method CollectOne(id: Id, r: Rec, end: int, ghost done: map<Id, Rec>, before: Redis) returns (data: Redis)
      requires id !in done && IsFlushData(done, end, before)
      ensures IsFlushData(done[id := r], end, data)
    {
      assert forall key :: key in before ==> key in FlushKeys(done, end) && key.id != id;
      var hours := AggregateSlots(r.ring, HOUR, r.lastSync + 1, end);
      var withHours := PutAll(id, HOUR, hours, before);
      PutUnit(id, r, HOUR, end, hours, before, withHours);
      var minutes := AggregateSlots(r.ring, MINUTE, r.lastSync + 1, end);
      data := PutAll(id, MINUTE, minutes, withHours);
      PutUnit(id, r, MINUTE, end, minutes, withHours, data);
      FlushDataAdds(done, id, r, end, before, data);
    }

    method CollectAll(end: int) returns (data: Redis)
      ensures IsFlushData(cache, end, data)
    {
      data := map[];
      var rest := cache.Keys;
      ghost var done: map<Id, Rec> := map[];
      while |rest| > 0
        invariant rest <= cache.Keys && done.Keys == cache.Keys - rest
        invariant forall id :: id in done ==> done[id] == cache[id]
        invariant IsFlushData(done, end, data)
        decreases rest
      {
        var id :| id in rest;
        data := CollectOne(id, cache[id], end, done, data);
        rest := rest - {id};
        done := done[id := cache[id]];
      }
      assert done == cache;
    }

    /** Collect every recorder's buckets, write them in one pipeline, then move every lastSync. */
    method FlushAll(now: int, redisOk: bool) returns (ok: bool, ghost data: Redis)
      modifies this, client
      ensures IsFlushData(old(cache), now - 1, data)
      ensures ok == (redisOk || data == map[])
      ensures client.hashes == if ok then Applied(old(client.hashes), data) else old(client.hashes)
      ensures client.expires == if ok then Expiring(old(client.expires), data, now) else old(client.expires)
      ensures cache == if ok then Synced(old(cache), old(cache).Keys, now - 1) else old(cache)
    {
      var metrics := CollectAll(now - 1);
      data := metrics;
      if metrics.Keys != {} {
        if !redisOk { return false, data; }
        client.Pipeline(metrics, now);
      } else {
        assert metrics == map[];
        NothingApplied(client.hashes, client.expires, now);
      }
      cache := map id | id in cache :: cache[id].(lastSync := now - 1);
      ok := true;
    }
  }

  lemma NothingApplied(h: Redis, e: map<BucketKey, int>, now: int)
    ensures Applied(h, map[]) == h && Expiring(e, map[], now) == e
  {
    assert Applied(h, map[]).Keys == h.Keys;
    assert Expiring(e, map[], now).Keys == e.Keys;
  }

  // ------------------------------------------------------------------ the steps of a run

  /** What FlushAll leaves, as it promises. */
  ghost predicate Flushed(s: State, t: State, data: Redis, ok: bool)
  {
    && t.redis == (if ok then Applied(s.redis, data) else s.redis)
    && t.expires == (if ok then Expiring(s.expires, data, s.clock) else s.expires)
    && t.cache == (if ok then Synced(s.cache, s.cache.Keys, s.clock - 1) else s.cache)
    && t.pending.None?
  }

  /** A flush without interruption is a collection and its commit, or a collection that is given up. */
  lemma FlushIsSteps(s: State, data: Redis, ok: bool)
    requires s.pending.None? && IsFlushData(s.cache, s.clock - 1, data)
    ensures var f := Pending(s.clock - 1, data, s.cache.Keys);
            var t := Paths.End(Machine(), s, [Collect(f)] + [if ok then Commit else Abort]);
            t.Some? && Flushed(s, t.value, data, ok)
  {
    var f := Pending(s.clock - 1, data, s.cache.Keys);
    var s1, last := Exec(s, Collect(f)), if ok then Commit else Abort;
    Paths.One(Machine(), s1, last);
    Paths.Prepend(Machine(), s, Collect(f), [last]);
  }
}
