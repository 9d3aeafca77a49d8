/**
 The circuit breaker manager of worker/circuitbreaker/manager.go: records go into one ring per endpoint,
 and Flush adds each second's counts once to minute and hour buckets in Redis.
 */
module Flush {
  import opened Common
  import opened Counter
  import opened Recorder
  import Paths

  const RING: nat := 60

  /** A Redis key cb:<id>:<hour or minute>. */
  datatype BucketKey = BucketKey(id: Id, unit: int, start: int)

  /** The fields "success" and "failure" of a Redis hash; a missing field counts zero. */
  datatype Counts = Counts(success: nat, error: nat)

  function Get(counts: Counts, of: Event): nat { if of == Success then counts.success else counts.error }

  type Redis = map<BucketKey, Counts>

  function Read(redis: Redis, key: BucketKey): Counts { if key in redis then redis[key] else Counts(0, 0) }

  /** A recorder as a value. */
  datatype Rec = Rec(ring: Ring, lastSync: int)

  /** 61 minutes, or 25 hours for an hour bucket. */
  function Ttl(unit: int): int { if unit >= 3600 then 25 * 3600 else 61 * 60 }

  // ------------------------------------------------------------------ one flush, on values

  function FlushKeys(cache: map<Id, Rec>, end: int): set<BucketKey>
  {
    set id, unit, start | id in cache && unit in {MINUTE, HOUR}
      && start in Keys(cache[id].ring, unit, cache[id].lastSync + 1, end)
      :: BucketKey(id, unit, start)
  }

  /** What a recorder adds to a bucket. */
  function Collected(r: Rec, unit: int, start: int, end: int): Counts
  {
    Counts(SlotSum(r.ring, r.lastSync + 1, end, start, start + unit, Success),
           SlotSum(r.ring, r.lastSync + 1, end, start, start + unit, Error))
  }

  /** The metrics one flush collects: every touched bucket of every recorder, with what it adds. */
  ghost predicate IsFlushData(cache: map<Id, Rec>, end: int, data: Redis)
  {
    && data.Keys == FlushKeys(cache, end)
    && forall key :: key in data ==> data[key] == Collected(cache[key.id], key.unit, key.start, end)
  }

  function Sum(a: Counts, b: Counts): Counts { Counts(a.success + b.success, a.error + b.error) }

  /** HINCRBY of every collected count. */
  function Applied(redis: Redis, data: Redis): Redis
  {
    map key | key in redis.Keys + data.Keys :: if key in data then Sum(Read(redis, key), data[key]) else redis[key]
  }

  /** EXPIRE of every key touched. */
  function Expiring(expires: map<BucketKey, int>, data: Redis, now: int): map<BucketKey, int>
  {
    expires + map key | key in data :: now + Ttl(key.unit)
  }

  function Synced(cache: map<Id, Rec>, ids: set<Id>, end: int): map<Id, Rec>
  {
    map id | id in cache :: if id in ids then cache[id].(lastSync := end) else cache[id]
  }

  // ------------------------------------------------------------------ counting in the log

  /** The records of one event stamped in both [from, to] and [lo, hi). */
  function CountIn(log: seq<Entry>, from: int, to: int, lo: int, hi: int, of: Event): nat
  {
    if log == [] then 0
    else
      var last := log[|log| - 1];
      CountIn(log[..|log| - 1], from, to, lo, hi, of)
      + if from <= last.ts <= to && lo <= last.ts < hi && last.event == of then 1 else 0
  }

  lemma {:induction false} CountInSplit(log: seq<Entry>, mid: int, to: int, lo: int, hi: int, of: Event)
    requires -1 <= mid <= to
    ensures CountIn(log, 0, to, lo, hi, of) == CountIn(log, 0, mid, lo, hi, of) + CountIn(log, mid + 1, to, lo, hi, of)
  {
    if log != [] { CountInSplit(log[..|log| - 1], mid, to, lo, hi, of); }
  }

  lemma CountInAppend(log: seq<Entry>, e: Entry, from: int, to: int, lo: int, hi: int, of: Event)
    ensures CountIn(log + [e], from, to, lo, hi, of)
         == CountIn(log, from, to, lo, hi, of) + if from <= e.ts <= to && lo <= e.ts < hi && e.event == of then 1 else 0
  {
    assert (log + [e])[..|log|] == log;
  }

  lemma {:induction false} NothingCounted(log: seq<Entry>, from: int, to: int, lo: int, hi: int, of: Event)
    requires forall e :: e in log ==> !(from <= e.ts <= to && lo <= e.ts < hi)
    ensures CountIn(log, from, to, lo, hi, of) == 0
  {
    if log != [] { NothingCounted(log[..|log| - 1], from, to, lo, hi, of); }
  }

  // ------------------------------------------------------------------ the ring holds what is not overwritten

  function Weight(slot: Slot, from: int, to: int, lo: int, hi: int, of: Event): nat
  {
    if InRange(slot, from, to) && lo <= slot.unix < hi then SlotCount(slot, of) else 0
  }

  lemma {:induction false} SumUpdate(slots: Ring, i: nat, x: Slot, from: int, to: int, lo: int, hi: int, of: Event)
    requires i < |slots|
    ensures SlotSum(slots[i := x], from, to, lo, hi, of)
         == SlotSum(slots, from, to, lo, hi, of) - Weight(slots[i], from, to, lo, hi, of)
           + Weight(x, from, to, lo, hi, of)
    ensures SlotSum(slots, from, to, lo, hi, of) >= Weight(slots[i], from, to, lo, hi, of)
  {
    var n := |slots| - 1;
    if i == n {
      assert slots[i := x][..n] == slots[..n];
    } else {
      assert slots[i := x][..n] == slots[..n][i := x];
      SumUpdate(slots[..n], i, x, from, to, lo, hi, of);
    }
  }

  lemma {:induction false} EmptyRingSum(size: nat, from: int, to: int, lo: int, hi: int, of: Event)
    ensures SlotSum(EmptyRing(size), from, to, lo, hi, of) == 0
  {
    if size > 0 {
      assert EmptyRing(size)[..size - 1] == EmptyRing(size - 1);
      EmptyRingSum(size - 1, from, to, lo, hi, of);
    }
  }

  /** No record of the range is followed in its slot by a later second. */
  ghost predicate NoOverwrite(log: seq<Entry>, from: int, to: int)
  {
    forall e, f :: e in log && f in log && from <= e.ts <= to && f.ts % RING == e.ts % RING ==> f.ts <= e.ts
  }

  /** A record that overwrites nothing of the range adds exactly itself to what its slot contributes. */
  lemma SlotGains(before: seq<Entry>, last: Entry, slot: Slot, from: int, to: int, lo: int, hi: int, of: Event)
    requires SlotOk(before, RING, last.ts % RING, slot) && NoOverwrite(before + [last], from, to)
    ensures Weight(SlotRecord(slot, last.ts, last.event), from, to, lo, hi, of)
         == Weight(slot, from, to, lo, hi, of)
            + if from <= last.ts <= to && lo <= last.ts < hi && last.event == of then 1 else 0
  {
    assert last in before + [last];
    if e :| e in before && e.ts % RING == last.ts % RING && e.ts == slot.unix {
      assert e in before + [last];
    }
  }

  lemma {:induction false} RingHoldsRange(log: seq<Entry>, from: int, to: int, lo: int, hi: int, of: Event)
    requires NoOverwrite(log, from, to)
    ensures SlotSum(Replay(RING, log), from, to, lo, hi, of) == CountIn(log, from, to, lo, hi, of)
  {
    if log == [] {
      EmptyRingSum(RING, from, to, lo, hi, of);
    } else {
      var before, last := log[..|log| - 1], log[|log| - 1];
      assert log == before + [last];
      RingHoldsRange(before, from, to, lo, hi, of);
      var i, ring := last.ts % RING, Replay(RING, before);
      RingRefinesLog(RING, before, i);
      SlotGains(before, last, ring[i], from, to, lo, hi, of);
      SumUpdate(ring, i, SlotRecord(ring[i], last.ts, last.event), from, to, lo, hi, of);
    }
  }

  /** What a collection of the range gets right for every bucket. */
  ghost predicate CollectsExactly(log: seq<Entry>, from: int, to: int)
  {
    forall lo, hi, of :: SlotSum(Replay(RING, log), from, to, lo, hi, of) == CountIn(log, from, to, lo, hi, of)
  }

  lemma {:induction false} CountedOnce(log: seq<Entry>, e: Entry, from: int, to: int)
    requires e in log && from <= e.ts <= to
    ensures CountIn(log, from, to, e.ts, e.ts + 1, e.event) >= 1
  {
    var n := |log| - 1;
    if log[n] != e {
      assert e in log[..n];
      CountedOnce(log[..n], e, from, to);
    }
  }

  lemma {:induction false} OverwrittenIsGone(ring: Ring, from: int, to: int, ts: int, of: Event)
    requires forall s :: s in ring && s.unix == ts ==> SlotCount(s, of) == 0
    ensures SlotSum(ring, from, to, ts, ts + 1, of) == 0
  {
    if ring != [] { OverwrittenIsGone(ring[..|ring| - 1], from, to, ts, of); }
  }

  /** A record overwritten by a later second is not collected. */
  lemma OverwrittenIsLost(log: seq<Entry>, e: Entry, f: Entry, from: int, to: int)
    requires e in log && f in log && f.ts % RING == e.ts % RING && f.ts > e.ts
    ensures SlotSum(Replay(RING, log), from, to, e.ts, e.ts + 1, e.event) == 0
  {
    var ring := Replay(RING, log);
    forall s | s in ring && s.unix == e.ts ensures SlotCount(s, e.event) == 0 {
      var i :| 0 <= i < RING && ring[i] == s;
      RingRefinesLog(RING, log, i);
    }
    OverwrittenIsGone(ring, from, to, e.ts, e.event);
  }

  /** The collection is exact exactly when no record of the range has been overwritten by a later second. */
  lemma ExactIffNoOverwrite(log: seq<Entry>, from: int, to: int)
    ensures CollectsExactly(log, from, to) <==> NoOverwrite(log, from, to)
  {
    if NoOverwrite(log, from, to) {
      forall lo, hi, of ensures SlotSum(Replay(RING, log), from, to, lo, hi, of) == CountIn(log, from, to, lo, hi, of) {
        RingHoldsRange(log, from, to, lo, hi, of);
      }
    } else {
      var e, f :| e in log && f in log && from <= e.ts <= to && f.ts % RING == e.ts % RING && f.ts > e.ts;
      CountedOnce(log, e, from, to);
      OverwrittenIsLost(log, e, f, from, to);
    }
  }

  lemma SixtyLater(t: nat)
    ensures (t + 60) % RING == t % RING
  {
  }

  lemma CountedOfTwo(t: nat, event: Event, log: seq<Entry>)
    requires t >= 1 && log == [Entry(t, event), Entry(t + 60, event)]
    ensures CountIn(log, 1, t + 60, t, t + 1, event) == 1
  {
    CountInAppend([Entry(t, event)], Entry(t + 60, event), 1, t + 60, t, t + 1, event);
    CountInAppend([], Entry(t, event), 1, t + 60, t, t + 1, event);
    assert [Entry(t, event)] + [Entry(t + 60, event)] == log && [] + [Entry(t, event)] == [Entry(t, event)];
  }

  /** Sixty seconds are too many: with no flush between seconds t and t + 60, a record of second t is lost. */
  lemma SixtySecondsLose(t: nat, event: Event, log: seq<Entry>)
    requires t >= 1 && log == [Entry(t, event), Entry(t + 60, event)]
    ensures SlotSum(Replay(RING, log), 1, t + 60, t, t + 1, event) == 0 && CountIn(log, 1, t + 60, t, t + 1, event) == 1
  {
    SixtyLater(t);
    CountedOfTwo(t, event, log);
    OverwrittenIsLost(log, log[0], log[1], 1, t + 60);
  }

  // ------------------------------------------------------------------ whole runs

  /** A flush between reading the rings and writing Redis. */
  datatype Pending = Pending(end: int, data: Redis, ids: set<Id>)

  /** History: the records made for each endpoint, and the clock at the last successful flush's collection. */
  datatype State = State(cache: map<Id, Rec>, redis: Redis, expires: map<BucketKey, int>, clock: int,
                         pending: Option<Pending>,
                         logs: map<Id, seq<Entry>>, flushedAt: int)

  datatype Step =
    | Tick(to: int)
    | Record(id: Id, event: Event)
    | Collect(flush: Pending)
    | Commit
    | Abort

  /** Flush reads every recorder, up to the second before the clock. */
  ghost predicate IsCollection(s: State, f: Pending)
  {
    f.end == s.clock - 1 && f.ids == s.cache.Keys && IsFlushData(s.cache, f.end, f.data)
  }

  ghost predicate Enabled(s: State, step: Step)
  {
    match step
    case Tick(to) => to >= s.clock
    case Record(_, _) => s.clock >= 0
    case Collect(f) => s.pending.None? && IsCollection(s, f)
    case Commit => s.pending.Some?
    case Abort => s.pending.Some?
  }

  function GetOrCreate(cache: map<Id, Rec>, id: Id): Rec
  {
    if id in cache then cache[id] else Rec(EmptyRing(RING), 0)
  }

  function LogOf(s: State, id: Id): seq<Entry> { if id in s.logs then s.logs[id] else [] }

  function DoRecord(s: State, id: Id, event: Event): State
    requires s.clock >= 0
  {
    var r := GetOrCreate(s.cache, id);
    s.(cache := s.cache[id := r.(ring := RingRecord(r.ring, s.clock, event))],
       logs := s.logs[id := LogOf(s, id) + [Entry(s.clock, event)]])
  }

  function DoCommit(s: State): State
    requires s.pending.Some?
  {
    var f := s.pending.value;
    s.(redis := Applied(s.redis, f.data), expires := Expiring(s.expires, f.data, s.clock),
       cache := Synced(s.cache, f.ids, f.end), pending := None, flushedAt := f.end + 1)
  }

  ghost function Exec(s: State, step: Step): State
    requires Enabled(s, step)
  {
    match step
    case Tick(to) => s.(clock := to)
    case Record(id, event) => DoRecord(s, id, event)
    case Collect(f) => s.(pending := Some(f))
    case Commit => DoCommit(s)
    case Abort => s.(pending := None)
  }

  /** The assumption on runs: a record is made less than 60 seconds after the last successful flush, or the start. */
  predicate Timely(s: State, step: Step) { step.Record? ==> s.clock < s.flushedAt + RING }

  function Start(clock: int): State { State(map[], map[], map[], clock, None, map[], clock) }

  ghost function Machine(): (State, Step) -> Option<State>
  {
    (s, step) => if Enabled(s, step) then Some(Exec(s, step)) else None
  }

  ghost predicate Run(start: int, states: seq<State>, steps: seq<Step>)
  {
    && start >= 1 && Paths.Trace(Machine(), states, steps) && states[0] == Start(start)
    && forall i :: 0 <= i < |steps| ==> Timely(states[i], steps[i])
  }

  lemma RunStep(start: int, states: seq<State>, steps: seq<Step>, i: nat)
    requires Run(start, states, steps) && i < |steps|
    ensures Enabled(states[i], steps[i]) && states[i + 1] == Exec(states[i], steps[i])
    ensures Timely(states[i], steps[i])
  {
    assert Machine()(states[i], steps[i]) == Some(states[i + 1]);
  }

  /** One endpoint: its ring replays its log, and what is not synced is recent enough not to be overwritten. */
  ghost predicate RecOk(s: State, id: Id)
  {
    && id in s.cache
    && s.cache[id].ring == Replay(RING, LogOf(s, id))
    && 0 <= s.cache[id].lastSync < s.flushedAt
    && (forall e :: e in LogOf(s, id) ==> 1 <= e.ts <= s.clock && e.ts < s.flushedAt + RING)
    && (forall e :: e in LogOf(s, id) && e.ts > s.cache[id].lastSync ==> e.ts >= s.flushedAt)
  }

  function LastSync(s: State, id: Id): int { if id in s.cache then s.cache[id].lastSync else 0 }

  /** A bucket holds the records of its endpoint stamped in the bucket and at or before lastSync. */
  ghost predicate BucketExact(s: State, key: BucketKey, of: Event)
  {
    Get(Read(s.redis, key), of) ==
      CountIn(LogOf(s, key.id), 0, LastSync(s, key.id), key.start, key.start + key.unit, of)
  }

  /** A collection holds the records after lastSync up to its end, for every endpoint it read. */
  ghost predicate CollectedOk(s: State, f: Pending, key: BucketKey, of: Event)
  {
    Get(Read(f.data, key), of)
    == if key.id !in f.ids then 0
       else CountIn(LogOf(s, key.id), LastSync(s, key.id) + 1, f.end, key.start, key.start + key.unit, of)
  }

  predicate IsKey(key: BucketKey) { IsUnit(key.unit) && key.start % key.unit == 0 }

  ghost predicate PendingOk(s: State)
  {
    s.pending.Some? ==>
      var f := s.pending.value;
      && f.ids <= s.cache.Keys && s.flushedAt - 1 <= f.end < s.clock
      && (forall id :: id in s.cache && id !in f.ids ==>
            s.cache[id].lastSync == 0 && forall e :: e in LogOf(s, id) ==> e.ts > f.end)
      && (forall key, of :: IsKey(key) ==> CollectedOk(s, f, key, of))
      && (forall key :: key in f.data ==> IsKey(key) && key.start <= f.end)
  }

  ghost predicate Inv(s: State)
  {
    && 1 <= s.flushedAt <= s.clock && s.logs.Keys == s.cache.Keys
    && RecsOk(s) && BucketsExact(s) && PendingOk(s)
    && (forall key :: key in s.redis ==>
          IsKey(key) && key in s.expires && s.expires[key] >= key.start + 1 + Ttl(key.unit))
  }

  ghost predicate RecsOk(s: State) { forall id :: id in s.cache ==> RecOk(s, id) }

  ghost predicate BucketsExact(s: State) { forall key, of :: IsKey(key) ==> BucketExact(s, key, of) }

  lemma RecordRecs(s: State, id: Id, event: Event)
    requires Inv(s) && s.clock < s.flushedAt + RING
    ensures RecsOk(DoRecord(s, id, event))
  {
    var t := DoRecord(s, id, event);
    assert LogOf(t, id)[..|LogOf(t, id)| - 1] == LogOf(s, id);
    forall other | other in t.cache ensures RecOk(t, other) {
      if other in s.cache { assert RecOk(s, other); }
    }
  }

  /** What recording e for an endpoint does to logs and stores. */
  ghost predicate Logged(s: State, t: State, id: Id, e: Entry)
  {
    && t.redis == s.redis && t.expires == s.expires && t.pending == s.pending
    && t.clock == s.clock == e.ts && t.flushedAt == s.flushedAt
    && t.cache.Keys == s.cache.Keys + {id} && t.logs.Keys == s.logs.Keys + {id}
    && (forall k :: LastSync(t, k) == LastSync(s, k))
    && LogOf(t, id) == LogOf(s, id) + [e] && (forall k :: k != id ==> LogOf(t, k) == LogOf(s, k))
  }

  lemma RecordLogs(s: State, id: Id, event: Event)
    requires s.clock >= 0
    ensures Logged(s, DoRecord(s, id, event), id, Entry(s.clock, event))
  {
  }

  /** A record stamped after lastSync changes no bucket's reference count. */
  lemma RecordBucket(s: State, t: State, id: Id, e: Entry, key: BucketKey, of: Event)
    requires Logged(s, t, id, e) && BucketExact(s, key, of) && LastSync(s, key.id) < e.ts
    ensures BucketExact(t, key, of)
  {
    if key.id == id {
      LaterUncounted(LogOf(s, id), e, 0, LastSync(s, id), key.start, key.start + key.unit, of);
    }
  }

  /** A record stamped after the range does not count in it. */
  lemma LaterUncounted(log: seq<Entry>, e: Entry, from: int, to: int, lo: int, hi: int, of: Event)
    requires e.ts > to
    ensures CountIn(log + [e], from, to, lo, hi, of) == CountIn(log, from, to, lo, hi, of)
  {
    CountInAppend(log, e, from, to, lo, hi, of);
  }

  /** A record made while a flush is under way is stamped after its end. */
  lemma RecordCollected(s: State, t: State, id: Id, e: Entry, f: Pending, key: BucketKey, of: Event)
    requires Logged(s, t, id, e) && f.end < e.ts && CollectedOk(s, f, key, of)
    ensures CollectedOk(t, f, key, of)
  {
    if key.id == id {
      LaterUncounted(LogOf(s, id), e, LastSync(s, id) + 1, f.end, key.start, key.start + key.unit, of);
    }
  }

  lemma RecordBuckets(s: State, t: State, id: Id, e: Entry)
    requires Inv(s) && Logged(s, t, id, e)
    ensures BucketsExact(t)
  {
    forall key, of | IsKey(key) ensures BucketExact(t, key, of) {
      assert BucketExact(s, key, of) && (key.id in s.cache ==> RecOk(s, key.id));
      RecordBucket(s, t, id, e, key, of);
    }
  }

  lemma RecordPending(s: State, t: State, id: Id, e: Entry)
    requires Inv(s) && Logged(s, t, id, e)
    ensures PendingOk(t)
  {
    if s.pending.Some? {
      var f := s.pending.value;
      forall key, of | IsKey(key) ensures CollectedOk(t, f, key, of) { RecordCollected(s, t, id, e, f, key, of); }
      forall other | other in t.cache && other !in f.ids
        ensures t.cache[other].lastSync == 0 && forall x :: x in LogOf(t, other) ==> x.ts > f.end
      {
        assert LastSync(t, other) == LastSync(s, other) && (other !in s.cache ==> LogOf(s, other) == []);
      }
    }
  }

  lemma RecordKeepsInv(s: State, id: Id, event: Event)
    requires Inv(s) && s.clock < s.flushedAt + RING
    ensures Inv(DoRecord(s, id, event))
  {
    var t, e := DoRecord(s, id, event), Entry(s.clock, event);
    RecordRecs(s, id, event);
    RecordLogs(s, id, event);
    RecordBuckets(s, t, id, e);
    RecordPending(s, t, id, e);
  }

  /** The keys of a recorder's buckets. */
  lemma KeyOfSlot(cache: map<Id, Rec>, end: int, key: BucketKey)
    requires IsKey(key)
    ensures key in FlushKeys(cache, end) <==>
      key.id in cache && exists s :: s in cache[key.id].ring && InRange(s, cache[key.id].lastSync + 1, end)
                                     && key.start <= s.unix < key.start + key.unit
  {
    if key.id in cache {
      var r := cache[key.id];
      forall s | s in r.ring
        ensures Key(s.unix, key.unit) == key.start <==> key.start <= s.unix < key.start + key.unit
      {
        KeyAligned(s.unix, key.unit, key.start);
      }
      if s :| s in r.ring && InRange(s, r.lastSync + 1, end) && key.start <= s.unix < key.start + key.unit {
        assert key.start in Keys(r.ring, key.unit, r.lastSync + 1, end);
      }
    }
  }

  lemma FlushKeyOk(cache: map<Id, Rec>, end: int, key: BucketKey)
    requires key in FlushKeys(cache, end)
    ensures IsKey(key) && key.start <= end
  {
    var r := cache[key.id];
    var s :| s in r.ring && InRange(s, r.lastSync + 1, end) && Key(s.unix, key.unit) == key.start;
    KeyAligned(s.unix, key.unit, 0);
  }

  /** What is not synced lies within sixty seconds, so no second of it has been overwritten. */
  lemma NothingOverwritten(s: State, id: Id)
    requires RecOk(s, id)
    ensures NoOverwrite(LogOf(s, id), s.cache[id].lastSync + 1, s.clock - 1)
  {
    var log := LogOf(s, id);
    forall e, f | e in log && f in log && s.cache[id].lastSync + 1 <= e.ts <= s.clock - 1 && f.ts % RING == e.ts % RING
      ensures f.ts <= e.ts
    {
      if f.ts > e.ts {
        SameSlot(e.ts, f.ts);
      }
    }
  }

  lemma SameSlot(a: nat, b: nat)
    requires a % RING == b % RING && a < b
    ensures a + RING <= b
  {
  }

  /** What the collected data say about one bucket. */
  lemma DataOf(cache: map<Id, Rec>, end: int, data: Redis, key: BucketKey)
    requires IsKey(key) && key.id in cache && IsFlushData(cache, end, data)
    ensures Read(data, key) == Collected(cache[key.id], key.unit, key.start, end)
  {
    if key !in data {
      var r := cache[key.id];
      KeyOfSlot(cache, end, key);
      NothingBetween(r.ring, r.lastSync + 1, end, key.start, key.start + key.unit, Success);
      NothingBetween(r.ring, r.lastSync + 1, end, key.start, key.start + key.unit, Error);
    }
  }

  lemma CollectedCounts(r: Rec, log: seq<Entry>, end: int, unit: int, start: int, of: Event)
    requires r.ring == Replay(RING, log) && NoOverwrite(log, r.lastSync + 1, end)
    ensures Get(Collected(r, unit, start, end), of) == CountIn(log, r.lastSync + 1, end, start, start + unit, of)
  {
    RingHoldsRange(log, r.lastSync + 1, end, start, start + unit, of);
  }

  lemma CollectedExactly(s: State, f: Pending, key: BucketKey, of: Event)
    requires RecsOk(s) && IsKey(key)
    requires IsCollection(s, f)
    ensures CollectedOk(s, f, key, of)
  {
    if key.id in s.cache {
      assert RecOk(s, key.id);
      NothingOverwritten(s, key.id);
      DataOf(s.cache, f.end, f.data, key);
      CollectedCounts(s.cache[key.id], LogOf(s, key.id), f.end, key.unit, key.start, of);
    }
  }

  lemma CollectedPending(s: State, f: Pending)
    requires RecsOk(s) && s.flushedAt <= s.clock
    requires IsCollection(s, f)
    ensures PendingOk(s.(pending := Some(f)))
  {
    var t := s.(pending := Some(f));
    forall key, of | IsKey(key) ensures CollectedOk(t, f, key, of) {
      CollectedExactly(s, f, key, of);
      CollectedSame(s, t, f, key, of);
    }
    forall key | key in f.data ensures IsKey(key) && key.start <= f.end { FlushKeyOk(s.cache, f.end, key); }
  }

  lemma CollectKeepsInv(s: State, f: Pending)
    requires Inv(s)
    requires IsCollection(s, f)
    ensures Inv(s.(pending := Some(f)))
  {
    StoresUnchanged(s, s.(pending := Some(f)));
    CollectedPending(s, f);
  }

  ghost predicate SameStores(s: State, t: State)
  {
    t.cache == s.cache && t.logs == s.logs && t.redis == s.redis && t.flushedAt == s.flushedAt && t.clock >= s.clock
  }

  lemma StoresUnchanged(s: State, t: State)
    requires RecsOk(s) && BucketsExact(s) && SameStores(s, t)
    ensures RecsOk(t) && BucketsExact(t)
  {
    forall id | id in t.cache ensures RecOk(t, id) { assert RecOk(s, id); }
    forall key, of | IsKey(key) ensures BucketExact(t, key, of) { assert BucketExact(s, key, of); }
  }

  lemma CollectedSame(s: State, t: State, f: Pending, key: BucketKey, of: Event)
    requires SameStores(s, t) && CollectedOk(s, f, key, of)
    ensures CollectedOk(t, f, key, of)
  {
  }

  lemma ClockKeepsInv(s: State, t: State)
    requires Inv(s) && SameStores(s, t) && t.expires == s.expires && (t.pending == s.pending || t.pending == None)
    ensures Inv(t)
  {
    StoresUnchanged(s, t);
    if t.pending.Some? {
      forall key, of | IsKey(key) ensures CollectedOk(t, t.pending.value, key, of) {
        CollectedSame(s, t, t.pending.value, key, of);
      }
    }
  }

  lemma CommitBucket(s: State, key: BucketKey, of: Event)
    requires s.pending.Some? && s.pending.value.ids <= s.cache.Keys
    requires BucketExact(s, key, of) && CollectedOk(s, s.pending.value, key, of)
    requires key.id in s.pending.value.ids ==> 0 <= LastSync(s, key.id) <= s.pending.value.end
    ensures BucketExact(DoCommit(s), key, of)
  {
    var t, f := DoCommit(s), s.pending.value;
    assert Get(Read(t.redis, key), of) == Get(Read(s.redis, key), of) + Get(Read(f.data, key), of);
    if key.id in f.ids {
      CountInSplit(LogOf(s, key.id), LastSync(s, key.id), f.end, key.start, key.start + key.unit, of);
    }
  }

  lemma CommitKeepsInv(s: State)
    requires Inv(s) && s.pending.Some?
    ensures Inv(DoCommit(s))
  {
    var t, f := DoCommit(s), s.pending.value;
    forall id | id in t.cache ensures RecOk(t, id) { assert RecOk(s, id); }
    forall key, of | IsKey(key) ensures BucketExact(t, key, of) {
      assert BucketExact(s, key, of) && CollectedOk(s, f, key, of);
      assert key.id in f.ids ==> RecOk(s, key.id);
      CommitBucket(s, key, of);
    }
  }

  lemma RecordStep(s: State, step: Step)
    requires Inv(s) && Enabled(s, step) && Timely(s, step) && step.Record?
    ensures Inv(Exec(s, step))
  {
    RecordKeepsInv(s, step.id, step.event);
  }

  lemma CollectStep(s: State, step: Step)
    requires Inv(s) && Enabled(s, step) && step.Collect?
    ensures Inv(Exec(s, step))
  {
    CollectKeepsInv(s, step.flush);
  }

  lemma CommitStep(s: State, step: Step)
    requires Inv(s) && Enabled(s, step) && step.Commit?
    ensures Inv(Exec(s, step))
  {
    CommitKeepsInv(s);
  }

  lemma IdleStep(s: State, step: Step)
    requires Inv(s) && Enabled(s, step) && (step.Tick? || step.Abort?)
    ensures Inv(Exec(s, step))
  {
    ClockKeepsInv(s, Exec(s, step));
  }

  lemma StepKeepsInv(s: State, step: Step)
    requires Inv(s) && Enabled(s, step) && Timely(s, step)
    ensures Inv(Exec(s, step))
  {
    if step.Record? { RecordStep(s, step); }
    else if step.Collect? { CollectStep(s, step); }
    else if step.Commit? { CommitStep(s, step); }
    else { IdleStep(s, step); }
  }

  lemma StartInv(start: int)
    requires start >= 1
    ensures Inv(Start(start))
  {
  }

  lemma {:induction false} RunKeepsInv(start: int, states: seq<State>, steps: seq<Step>, i: nat)
    requires Run(start, states, steps) && i < |states|
    ensures Inv(states[i])
  {
    if i == 0 {
      StartInv(start);
    } else {
      RunKeepsInv(start, states, steps, i - 1);
      RunStep(start, states, steps, i - 1);
      StepKeepsInv(states[i - 1], steps[i - 1]);
    }
  }

  /**
   Flush conservation: in every reachable state, whatever flushes failed and whatever was recorded while one
   was under way, each minute and each hour bucket holds exactly the successes and the errors recorded for
   its endpoint with timestamps in the bucket and at or before lastSync.
   */
  lemma FlushConserves(start: int, states: seq<State>, steps: seq<Step>, i: nat, key: BucketKey, of: Event)
    requires Run(start, states, steps) && i < |states| && IsKey(key)
    ensures BucketExact(states[i], key, of)
  {
    RunKeepsInv(start, states, steps, i);
  }

  /** The collection made at step j is the one step i commits. */
  ghost predicate Commits(steps: seq<Step>, j: nat, i: nat)
  {
    && j < i < |steps| && steps[j].Collect? && steps[i].Commit?
    && forall k :: j < k < i ==> !steps[k].Commit? && !steps[k].Abort? && !steps[k].Collect?
  }

  lemma {:induction false} PendingAt(start: int, states: seq<State>, steps: seq<Step>, j: nat, i: nat, k: nat)
    requires Run(start, states, steps) && Commits(steps, j, i) && j < k <= i
    ensures states[k].pending == Some(steps[j].flush)
    decreases k
  {
    RunStep(start, states, steps, k - 1);
    if k - 1 > j { PendingAt(start, states, steps, j, i, k - 1); }
  }

  lemma {:induction false} NothingUpTo(log: seq<Entry>, mid: int, to: int, lo: int, hi: int, of: Event)
    requires mid <= to && forall e :: e in log ==> e.ts > to
    ensures CountIn(log, 0, mid, lo, hi, of) == CountIn(log, 0, to, lo, hi, of) == 0
  {
    if log != [] { NothingUpTo(log[..|log| - 1], mid, to, lo, hi, of); }
  }

  /**
   A committed flush catches up: each bucket then holds every record made before the second in which the flush
   collected, and a key it wrote lives for 61 minutes, or 25 hours for an hour bucket, from the commit on.
   */
  lemma FlushCatchesUp(
    start: int, states: seq<State>, steps: seq<Step>, j: nat, i: nat, key: BucketKey, of: Event)
    requires Run(start, states, steps) && Commits(steps, j, i) && IsKey(key)
    ensures var s := states[i + 1];
            && Get(Read(s.redis, key), of) ==
               CountIn(LogOf(s, key.id), 0, states[j].clock - 1, key.start, key.start + key.unit, of)
            && (key in steps[j].flush.data ==>
                 key in s.expires && s.expires[key] == states[i].clock + if key.unit == 3600 then 90_000 else 3_660)
  {
    CommitOf(start, states, steps, j, i);
    FlushConserves(start, states, steps, i + 1, key, of);
    CommitCatchesUp(states[i], key, of);
    if key in steps[j].flush.data { CommitExpires(states[i], key); }
  }

  lemma CommitOf(start: int, states: seq<State>, steps: seq<Step>, j: nat, i: nat)
    requires Run(start, states, steps) && Commits(steps, j, i)
    ensures var s, f := states[i], steps[j].flush;
            && s.pending == Some(f) && f.end == states[j].clock - 1 >= 0 && states[i + 1] == DoCommit(s)
            && PendingOk(s) && s.logs.Keys == s.cache.Keys
  {
    RunStep(start, states, steps, j);
    RunStep(start, states, steps, i);
    PendingAt(start, states, steps, j, i, i);
    RunKeepsInv(start, states, steps, j);
    RunKeepsInv(start, states, steps, i);
  }

  lemma CommitExpires(s: State, key: BucketKey)
    requires s.pending.Some? && key in s.pending.value.data && IsUnit(key.unit)
    ensures key in DoCommit(s).expires
    ensures DoCommit(s).expires[key] == s.clock + if key.unit == 3600 then 90_000 else 3_660
  {
  }

  lemma CommitCatchesUp(s: State, key: BucketKey, of: Event)
    requires s.pending.Some? && PendingOk(s) && s.logs.Keys == s.cache.Keys && BucketExact(DoCommit(s), key, of)
    requires s.pending.value.end >= 0
    ensures Get(Read(DoCommit(s).redis, key), of) ==
      CountIn(LogOf(s, key.id), 0, s.pending.value.end, key.start, key.start + key.unit, of)
  {
    var f := s.pending.value;
    if key.id !in f.ids {
      if key.id in s.cache {
        NothingUpTo(LogOf(s, key.id), 0, f.end, key.start, key.start + key.unit, of);
      } else {
        assert LogOf(s, key.id) == [];
      }
    }
  }

  /** A key written at all expires no earlier than its time to live after the first second it can count. */
  lemma ExpiryAfterWrite(start: int, states: seq<State>, steps: seq<Step>, i: nat, key: BucketKey)
    requires Run(start, states, steps) && i < |states| && key in states[i].redis
    ensures key in states[i].expires && states[i].expires[key] >= key.start + 1 + Ttl(key.unit)
  {
    RunKeepsInv(start, states, steps, i);
  }
}
