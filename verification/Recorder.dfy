/** The ring of per-second counters in worker/circuitbreaker/recorder.go, and its aggregation into buckets. */
module Recorder {
  import opened Common
  import opened Counter

  type Ring = seq<Slot>

  datatype Entry = Entry(ts: nat, event: Event)

  function EmptyRing(size: nat): Ring { seq(size, i => Slot(0, 0, 0)) }

  /** A ring has at least one slot; the empty sequence stands for none. */
  function RingRecord(ring: Ring, ts: nat, event: Event): (r: Ring)
    ensures |r| == |ring|
  {
    if ring == [] then [] else ring[ts % |ring| := SlotRecord(ring[ts % |ring|], ts, event)]
  }

  /** The ring after a log of records, oldest first. */
  function Replay(size: nat, log: seq<Entry>): (r: Ring)
    requires size > 0
    ensures |r| == size
  {
    if log == [] then EmptyRing(size)
    else
      var last := log[|log| - 1];
      RingRecord(Replay(size, log[..|log| - 1]), last.ts, last.event)
  }

  /** How often an event was logged at a timestamp. */
  function CountAt(log: seq<Entry>, ts: int, event: Event): nat
  {
    if log == [] then 0
    else
      var last := log[|log| - 1];
      CountAt(log[..|log| - 1], ts, event) + if last.ts == ts && last.event == event then 1 else 0
  }

  /** `ts` is the largest logged timestamp that falls into slot i. */
  ghost predicate LatestIn(log: seq<Entry>, size: nat, i: nat, ts: int)
    requires size > 0
  {
    && (exists e :: e in log && e.ts == ts && e.ts % size == i)
    && forall e :: e in log && e.ts % size == i ==> e.ts <= ts
  }

  /** Slot i against the log: untouched when nothing was logged for it. */
  ghost predicate SlotOk(log: seq<Entry>, size: nat, i: nat, slot: Slot)
    requires size > 0
  {
    if exists e :: e in log && e.ts % size == i
    then LatestIn(log, size, i, slot.unix)
         && slot.success == CountAt(log, slot.unix, Success) && slot.error == CountAt(log, slot.unix, Error)
    else slot == Slot(0, 0, 0)
  }

  lemma {:induction false} NothingAt(log: seq<Entry>, ts: int)
    requires forall e :: e in log ==> e.ts != ts
    ensures CountAt(log, ts, Success) == 0 && CountAt(log, ts, Error) == 0
  {
    if log != [] { NothingAt(log[..|log| - 1], ts); }
  }

  /**
   Ring refines the log: slot i holds the largest timestamp logged for it with exactly the successes and
   errors logged at that timestamp, and is untouched when nothing was logged for it.
   */
  lemma {:induction false} RingRefinesLog(size: nat, log: seq<Entry>, i: nat)
    requires size > 0 && i < size
    ensures SlotOk(log, size, i, Replay(size, log)[i])
  {
    if log != [] {
      var before, last := log[..|log| - 1], log[|log| - 1];
      assert log == before + [last];
      RingRefinesLog(size, before, i);
      if last.ts % size == i {
        SlotHit(size, before, last, i, Replay(size, before)[i]);
      } else {
        SlotMissed(size, before, last, i, Replay(size, before)[i]);
      }
    }
  }

  lemma CountAppend(before: seq<Entry>, last: Entry, ts: int, event: Event)
    ensures CountAt(before + [last], ts, event) ==
      CountAt(before, ts, event) + if last.ts == ts && last.event == event then 1 else 0
  {
    assert (before + [last])[..|before|] == before;
  }

  /** A record for another slot leaves this one as it is. */
  lemma SlotMissed(size: nat, before: seq<Entry>, last: Entry, i: nat, slot: Slot)
    requires size > 0 && last.ts % size != i && SlotOk(before, size, i, slot)
    ensures SlotOk(before + [last], size, i, slot)
  {
    var log := before + [last];
    assert forall e :: e in log <==> e in before || e == last;
    if exists e :: e in before && e.ts % size == i {
      var e :| e in before && e.ts == slot.unix && e.ts % size == i;
      assert e in log;
      CountAppend(before, last, slot.unix, Success);
      CountAppend(before, last, slot.unix, Error);
    }
  }

  lemma SlotHit(size: nat, before: seq<Entry>, last: Entry, i: nat, slot: Slot)
    requires size > 0 && last.ts % size == i && SlotOk(before, size, i, slot)
    ensures SlotOk(before + [last], size, i, SlotRecord(slot, last.ts, last.event))
  {
    var log, after := before + [last], SlotRecord(slot, last.ts, last.event);
    assert forall e :: e in log <==> e in before || e == last;
    assert last in log;
    CountAppend(before, last, after.unix, Success);
    CountAppend(before, last, after.unix, Error);
    if !(exists e :: e in before && e.ts % size == i) || last.ts > slot.unix {
      NothingAt(before, last.ts);
    } else {
      var e :| e in before && e.ts == slot.unix && e.ts % size == i;
      assert e in log;
    }
  }

  // ------------------------------------------------------------------ aggregation

  const MINUTE := 60
  const HOUR := 3600

  /** A TimeBucketMetric: counts over [start, until). */
  datatype Bucket = Bucket(start: int, until: int, success: nat, error: nat)

  predicate SlotsOk(slots: Ring) { forall s :: s in slots ==> s.unix >= 0 }

  predicate IsUnit(unit: int) { unit == MINUTE || unit == HOUR }

  function Key(ts: int, unit: int): int
    requires IsUnit(unit)
  {
    ts - ts % unit
  }

  function SlotCount(slot: Slot, of: Event): nat { if of == Success then slot.success else slot.error }

  function BucketCount(b: Bucket, of: Event): nat { if of == Success then b.success else b.error }

  predicate InRange(slot: Slot, from: int, to: int) { from <= slot.unix <= to }

  /** What the slots of the range hold for timestamps in [lo, hi). */
  function SlotSum(slots: Ring, from: int, to: int, lo: int, hi: int, of: Event): nat
  {
    if slots == [] then 0
    else
      var last := slots[|slots| - 1];
      SlotSum(slots[..|slots| - 1], from, to, lo, hi, of)
      + if InRange(last, from, to) && lo <= last.unix < hi then SlotCount(last, of) else 0
  }

  function Keys(slots: Ring, unit: int, from: int, to: int): set<int>
    requires IsUnit(unit)
  {
    set s | s in slots && InRange(s, from, to) :: Key(s.unix, unit)
  }

  /** The list Aggregate returns, said without its map: sorted buckets, one per key, each with its slots' totals. */
  ghost predicate IsAggregate(slots: Ring, unit: int, from: int, to: int, list: seq<Bucket>)
    requires IsUnit(unit)
  {
    && (forall i, j :: 0 <= i < j < |list| ==> list[i].start < list[j].start)
    && (forall i :: 0 <= i < |list| ==> list[i].start in Keys(slots, unit, from, to))
    && (forall k :: k in Keys(slots, unit, from, to) ==> exists i :: 0 <= i < |list| && list[i].start == k)
    && (forall i :: 0 <= i < |list| ==> BucketOk(slots, unit, from, to, list[i]))
  }

  ghost predicate BucketOk(slots: Ring, unit: int, from: int, to: int, b: Bucket)
  {
    && b.until == b.start + unit
    && b.success == SlotSum(slots, from, to, b.start, b.until, Success)
    && b.error == SlotSum(slots, from, to, b.start, b.until, Error)
  }

  /** A timestamp's key is its bucket's start. */
  lemma KeyAligned(ts: int, unit: int, start: int)
    requires IsUnit(unit) && start % unit == 0
    ensures Key(ts, unit) % unit == 0
    ensures Key(ts, unit) <= ts < Key(ts, unit) + unit
    ensures Key(ts, unit) == start <==> start <= ts < start + unit
  {
    if unit == MINUTE {
      assert ts == 60 * (ts / 60) + ts % 60;
    } else {
      assert ts == 3600 * (ts / 3600) + ts % 3600;
    }
  }

  /** Aligned starts are at least a unit apart. */
  lemma AlignedApart(a: int, b: int, unit: int)
    requires IsUnit(unit) && a % unit == 0 && b % unit == 0 && a < b
    ensures a + unit <= b
  {
    KeyAligned(b, unit, a);
    KeyAligned(b, unit, b);
  }

  class RecorderObject {
    const size: nat
    const buffers: array<Slot>
    var lastSync: int

    ghost predicate Valid() reads this, buffers
    {
      size > 0 && buffers.Length == size && SlotsOk(buffers[..])
    }

    constructor (size: nat)
      requires size > 0
      ensures Valid() && fresh(buffers) && this.size == size
      ensures buffers[..] == EmptyRing(size) && lastSync == 0
    {
      this.size := size;
      buffers := new Slot[size](i => Slot(0, 0, 0));
      lastSync := 0;
    }

    method Record(ts: nat, event: Event)
      requires Valid()
      modifies buffers
      ensures Valid() && buffers[..] == RingRecord(old(buffers[..]), ts, event)
    {
      var i := ts % size;
      buffers[i] := SlotRecord(buffers[i], ts, event);
    }

    method Aggregate(unit: int, from: int, to: int) returns (list: seq<Bucket>)
      requires Valid() && IsUnit(unit)
      ensures IsAggregate(buffers[..], unit, from, to, list)
    {
      list := AggregateSlots(buffers[..], unit, from, to);
    }
  }

  /** One more slot in the range adds its counts to its own key and to no other. */
  lemma GroupStep(slots: Ring, s: Slot, unit: int, from: int, to: int, k: int, of: Event)
    requires IsUnit(unit) && InRange(s, from, to) && k % unit == 0
    ensures SlotSum(slots + [s], from, to, k, k + unit, of)
         == SlotSum(slots, from, to, k, k + unit, of) + (if k == Key(s.unix, unit) then SlotCount(s, of) else 0)
    ensures k !in Keys(slots, unit, from, to) ==> SlotSum(slots, from, to, k, k + unit, of) == 0
  {
    assert (slots + [s])[..|slots|] == slots;
    KeyAligned(s.unix, unit, k);
    if k !in Keys(slots, unit, from, to) {
      forall x | x in slots && InRange(x, from, to) ensures !(k <= x.unix < k + unit) {
        KeyAligned(x.unix, unit, k);
      }
      NothingBetween(slots, from, to, k, k + unit, of);
    }
  }

  ghost predicate GroupOk(slots: Ring, unit: int, from: int, to: int, k: int, m: (nat, nat))
    requires IsUnit(unit)
  {
    && k % unit == 0
    && m.0 == SlotSum(slots, from, to, k, k + unit, Success)
    && m.1 == SlotSum(slots, from, to, k, k + unit, Error)
  }

  /** The groups built from the first slots. */
  ghost predicate GroupsOk(slots: Ring, unit: int, from: int, to: int, groups: map<int, (nat, nat)>)
    requires IsUnit(unit)
  {
    && groups.Keys == Keys(slots, unit, from, to)
    && forall k :: k in groups ==> GroupOk(slots, unit, from, to, k, groups[k])
  }

  /** metricCache[key] += the slot's counts. */
  function AddToGroup(groups: map<int, (nat, nat)>, key: int, s: Slot): map<int, (nat, nat)>
  {
    var m := if key in groups then groups[key] else (0, 0);
    groups[key := (m.0 + s.success, m.1 + s.error)]
  }

  lemma GroupGrows(slots: Ring, s: Slot, unit: int, from: int, to: int, groups: map<int, (nat, nat)>, k: int)
    requires IsUnit(unit) && GroupsOk(slots, unit, from, to, groups) && InRange(s, from, to)
    requires k in groups || k == Key(s.unix, unit)
    ensures GroupOk(slots + [s], unit, from, to, k, AddToGroup(groups, Key(s.unix, unit), s)[k])
  {
    KeyAligned(s.unix, unit, 0);
    assert k in groups ==> GroupOk(slots, unit, from, to, k, groups[k]);
    GroupStep(slots, s, unit, from, to, k, Success);
    GroupStep(slots, s, unit, from, to, k, Error);
  }

  lemma GroupsStep(slots: Ring, s: Slot, unit: int, from: int, to: int, groups: map<int, (nat, nat)>)
    requires IsUnit(unit) && GroupsOk(slots, unit, from, to, groups) && InRange(s, from, to)
    ensures GroupsOk(slots + [s], unit, from, to, AddToGroup(groups, Key(s.unix, unit), s))
  {
    KeysStep(slots, s, unit, from, to);
    var now := AddToGroup(groups, Key(s.unix, unit), s);
    forall k | k in now ensures GroupOk(slots + [s], unit, from, to, k, now[k]) {
      GroupGrows(slots, s, unit, from, to, groups, k);
    }
  }

  lemma GroupsSkip(slots: Ring, s: Slot, unit: int, from: int, to: int, groups: map<int, (nat, nat)>)
    requires IsUnit(unit) && GroupsOk(slots, unit, from, to, groups) && !InRange(s, from, to)
    ensures GroupsOk(slots + [s], unit, from, to, groups)
  {
    KeysStep(slots, s, unit, from, to);
    assert (slots + [s])[..|slots|] == slots;
    forall k | k in groups ensures GroupOk(slots + [s], unit, from, to, k, groups[k]) {
      assert GroupOk(slots, unit, from, to, k, groups[k]);
    }
  }

  lemma KeysStep(slots: Ring, s: Slot, unit: int, from: int, to: int)
    requires IsUnit(unit)
    ensures Keys(slots + [s], unit, from, to)
         == Keys(slots, unit, from, to) + if InRange(s, from, to) then {Key(s.unix, unit)} else {}
  {
    assert forall x :: x in slots + [s] <==> x in slots || x == s;
  }

  lemma {:induction false} NothingBetween(slots: Ring, from: int, to: int, lo: int, hi: int, of: Event)
    requires forall x :: x in slots && InRange(x, from, to) ==> !(lo <= x.unix < hi)
    ensures SlotSum(slots, from, to, lo, hi, of) == 0
  {
    if slots != [] { NothingBetween(slots[..|slots| - 1], from, to, lo, hi, of); }
  }

  lemma {:induction false} SplitSum(slots: Ring, from: int, to: int, lo: int, mid: int, hi: int, of: Event)
    requires lo <= mid <= hi
    ensures SlotSum(slots, from, to, lo, hi, of) ==
      SlotSum(slots, from, to, lo, mid, of) + SlotSum(slots, from, to, mid, hi, of)
  {
    if slots != [] { SplitSum(slots[..|slots| - 1], from, to, lo, mid, hi, of); }
  }

  /** Group the slots of the range by key in a map. */
  method GroupSlots(slots: Ring, unit: int, from: int, to: int) returns (groups: map<int, (nat, nat)>)
    requires IsUnit(unit)
    ensures GroupsOk(slots, unit, from, to, groups)
  {
    groups := map[];
    for i := 0 to |slots|
      invariant GroupsOk(slots[..i], unit, from, to, groups)
    {
      var s := slots[i];
      assert slots[..i + 1] == slots[..i] + [s];
      if s.unix < from || s.unix > to {
        GroupsSkip(slots[..i], s, unit, from, to, groups);
      } else {
        GroupsStep(slots[..i], s, unit, from, to, groups);
        groups := AddToGroup(groups, s.unix - s.unix % unit, s);
      }
    }
    assert slots[..|slots|] == slots;
  }

  /** List the groups by ascending key. */
  method AggregateSlots(slots: Ring, unit: int, from: int, to: int) returns (list: seq<Bucket>)
    requires IsUnit(unit)
    ensures IsAggregate(slots, unit, from, to, list)
  {
    var groups := GroupSlots(slots, unit, from, to);
    var keys := SortedKeys(groups.Keys);
    list := [];
    for i := 0 to |keys|
      invariant |list| == i && forall k :: k in keys ==> k in groups
      invariant forall j :: 0 <= j < i ==> list[j].start == keys[j] && BucketOk(slots, unit, from, to, list[j])
    {
      var m := groups[keys[i]];
      assert GroupOk(slots, unit, from, to, keys[i], m);
      list := list + [Bucket(keys[i], keys[i] + unit, m.0, m.1)];
    }
    forall k | k in Keys(slots, unit, from, to) ensures exists i :: 0 <= i < |list| && list[i].start == k {
      var i :| 0 <= i < |keys| && keys[i] == k;
      assert list[i].start == k;
    }
  }

  /** slices.Sort of the map's keys. */
  method SortedKeys(keys: set<int>) returns (sorted: seq<int>)
    ensures forall i, j :: 0 <= i < j < |sorted| ==> sorted[i] < sorted[j]
    ensures forall k :: k in sorted <==> k in keys
  {
    sorted := [];
    var rest := keys;
    while rest != {}
      invariant rest <= keys
      invariant forall i, j :: 0 <= i < j < |sorted| ==> sorted[i] < sorted[j]
      invariant forall k :: k in sorted <==> k in keys && k !in rest
      invariant forall k, r :: k in sorted && r in rest ==> k < r
      decreases rest
    {
      var next := Least(rest);
      assert forall i :: 0 <= i < |sorted| ==> sorted[i] in sorted && sorted[i] < next;
      sorted := sorted + [next];
      rest := rest - {next};
    }
  }

  method Pick(keys: set<int>) returns (k: int)
    requires |keys| > 0
    ensures k in keys
  {
    assert (forall x :: x !in keys) ==> keys == {};
    k :| k in keys;
  }

  method Least(keys: set<int>) returns (min: int)
    requires |keys| > 0
    ensures min in keys && forall k :: k in keys ==> min <= k
  {
    min := Pick(keys);
    var rest := keys - {min};
    while |rest| > 0
      invariant rest <= keys && min in keys
      invariant forall k :: k in keys && k !in rest ==> min <= k
      decreases rest
    {
      var k := Pick(rest);
      if k < min { min := k; }
      rest := rest - {k};
    }
  }

  /** Aggregate's buckets are aligned and disjoint. */
  lemma BucketsAlignedDisjoint(slots: Ring, unit: int, from: int, to: int, list: seq<Bucket>)
    requires IsUnit(unit) && IsAggregate(slots, unit, from, to, list)
    ensures forall i :: 0 <= i < |list| ==> list[i].start % unit == 0
    ensures forall i, j :: 0 <= i < j < |list| ==> list[i].until <= list[j].start
  {
    forall i | 0 <= i < |list| ensures list[i].start % unit == 0 {
      assert list[i].start in Keys(slots, unit, from, to);
      var s :| s in slots && InRange(s, from, to) && Key(s.unix, unit) == list[i].start;
      KeyAligned(s.unix, unit, 0);
    }
    forall i, j | 0 <= i < j < |list| ensures list[i].until <= list[j].start {
      AlignedApart(list[i].start, list[j].start, unit);
    }
  }

  /** The counts of the buckets starting in [lo, hi). */
  function ListSum(list: seq<Bucket>, lo: int, hi: int, of: Event): nat
  {
    if list == [] then 0
    else (if lo <= list[0].start < hi then BucketCount(list[0], of) else 0) + ListSum(list[1..], lo, hi, of)
  }

  /** The slots of the range at or after `lo` all belong to buckets of the list, which lie at or after `lo`. */
  ghost predicate Covers(slots: Ring, unit: int, from: int, to: int, list: seq<Bucket>, lo: int)
    requires IsUnit(unit)
  {
    && (forall i, j :: 0 <= i < j < |list| ==> list[i].until <= list[j].start)
    && (forall b :: b in list ==> BucketOk(slots, unit, from, to, b) && lo <= b.start && b.start % unit == 0)
    && (forall s :: s in slots && InRange(s, from, to) && lo <= s.unix ==>
      exists b :: b in list && b.start <= s.unix < b.until)
  }

  lemma {:induction false} CoveredSum(
    slots: Ring, unit: int, from: int, to: int, list: seq<Bucket>, lo: int, hi: int, of: Event)
    requires IsUnit(unit) && lo <= hi && hi % unit == 0 && Covers(slots, unit, from, to, list, lo)
    ensures ListSum(list, lo, hi, of) == SlotSum(slots, from, to, lo, hi, of)
    decreases list
  {
    if list == [] || list[0].start >= hi {
      NothingListed(list, lo, hi, of);
      forall s | s in slots && InRange(s, from, to) ensures !(lo <= s.unix < hi) {
        if lo <= s.unix { var b :| b in list && b.start <= s.unix < b.until; }
      }
      NothingBetween(slots, from, to, lo, hi, of);
    } else {
      var b, rest := list[0], list[1..];
      AlignedApart(b.start, hi, unit);
      forall s | s in slots && InRange(s, from, to) && b.until <= s.unix
        ensures exists c :: c in rest && c.start <= s.unix < c.until
      {
        var c :| c in list && c.start <= s.unix < c.until;
        assert c in rest;
      }
      assert forall i :: 0 <= i < |rest| ==> rest[i] == list[i + 1];
      CoveredSum(slots, unit, from, to, rest, b.until, hi, of);
      LowerBoundIdle(rest, lo, b.until, hi, of);
      forall s | s in slots && InRange(s, from, to) ensures !(lo <= s.unix < b.start) {
        if lo <= s.unix { var c :| c in list && c.start <= s.unix < c.until; }
      }
      NothingBetween(slots, from, to, lo, b.start, of);
      SplitSum(slots, from, to, lo, b.start, hi, of);
      SplitSum(slots, from, to, b.start, b.until, hi, of);
    }
  }

  lemma {:induction false} NothingListed(list: seq<Bucket>, lo: int, hi: int, of: Event)
    requires forall b :: b in list ==> b.start >= hi || b.start < lo
    ensures ListSum(list, lo, hi, of) == 0
  {
    if list != [] { NothingListed(list[1..], lo, hi, of); }
  }

  lemma {:induction false} LowerBoundIdle(list: seq<Bucket>, lo: int, mid: int, hi: int, of: Event)
    requires lo <= mid && forall b :: b in list ==> mid <= b.start
    ensures ListSum(list, lo, hi, of) == ListSum(list, mid, hi, of)
  {
    if list != [] { LowerBoundIdle(list[1..], lo, mid, hi, of); }
  }

  lemma SlotCovered(slots: Ring, unit: int, from: int, to: int, list: seq<Bucket>, s: Slot)
    requires IsUnit(unit) && IsAggregate(slots, unit, from, to, list) && s in slots && InRange(s, from, to)
    ensures exists b :: b in list && b.start <= s.unix < b.until
  {
    KeyAligned(s.unix, unit, 0);
    assert Key(s.unix, unit) in Keys(slots, unit, from, to);
    var i :| 0 <= i < |list| && list[i].start == Key(s.unix, unit);
    assert BucketOk(slots, unit, from, to, list[i]) && list[i] in list;
  }

  lemma BucketNonNegative(slots: Ring, unit: int, from: int, to: int, list: seq<Bucket>, i: nat)
    requires IsUnit(unit) && SlotsOk(slots) && IsAggregate(slots, unit, from, to, list) && i < |list|
    ensures list[i].start >= 0
  {
    assert list[i].start in Keys(slots, unit, from, to);
    var s :| s in slots && InRange(s, from, to) && Key(s.unix, unit) == list[i].start;
  }

  lemma AggregateCovers(slots: Ring, unit: int, from: int, to: int, list: seq<Bucket>)
    requires IsUnit(unit) && SlotsOk(slots) && IsAggregate(slots, unit, from, to, list)
    ensures Covers(slots, unit, from, to, list, 0)
  {
    BucketsAlignedDisjoint(slots, unit, from, to, list);
    forall i | 0 <= i < |list| ensures list[i].start >= 0 { BucketNonNegative(slots, unit, from, to, list, i); }
    forall s | s in slots && InRange(s, from, to) ensures exists b :: b in list && b.start <= s.unix < b.until {
      SlotCovered(slots, unit, from, to, list, s);
    }
  }

  /** Up to any bucket boundary the buckets of a list hold exactly what the slots of the range hold. */
  lemma AggregateTotals(slots: Ring, unit: int, from: int, to: int, list: seq<Bucket>, lo: int, hi: int, of: Event)
    requires IsUnit(unit) && SlotsOk(slots) && IsAggregate(slots, unit, from, to, list)
    requires 0 <= lo <= hi && lo % unit == 0 && hi % unit == 0
    ensures ListSum(list, lo, hi, of) == SlotSum(slots, from, to, lo, hi, of)
  {
    AggregateCovers(slots, unit, from, to, list);
    CoveredSum(slots, unit, from, to, list, 0, lo, of);
    CoveredSum(slots, unit, from, to, list, 0, hi, of);
    SplitSum(slots, from, to, 0, lo, hi, of);
    SplitListed(list, 0, lo, hi, of);
  }

  lemma {:induction false} SplitListed(list: seq<Bucket>, lo: int, mid: int, hi: int, of: Event)
    requires lo <= mid <= hi
    ensures ListSum(list, lo, hi, of) == ListSum(list, lo, mid, of) + ListSum(list, mid, hi, of)
  {
    if list != [] { SplitListed(list[1..], lo, mid, hi, of); }
  }

  lemma HourBounds(slots: Ring, from: int, to: int, hours: seq<Bucket>, b: Bucket)
    requires Covers(slots, HOUR, from, to, hours, 0) && b in hours
    ensures 0 <= b.start <= b.until && b.start % MINUTE == 0 && b.until % MINUTE == 0
    ensures b.success == SlotSum(slots, from, to, b.start, b.until, Success)
    ensures b.error == SlotSum(slots, from, to, b.start, b.until, Error)
  {
  }

  /** Minute and hour views agree: every hour bucket is the sum of the minute buckets starting inside it. */
  lemma HourIsItsMinutes(slots: Ring, from: int, to: int, minutes: seq<Bucket>, hours: seq<Bucket>, i: nat, of: Event)
    requires SlotsOk(slots) && i < |hours|
    requires IsAggregate(slots, MINUTE, from, to, minutes) && IsAggregate(slots, HOUR, from, to, hours)
    ensures BucketCount(hours[i], of) == ListSum(minutes, hours[i].start, hours[i].until, of)
  {
    AggregateCovers(slots, HOUR, from, to, hours);
    HourBounds(slots, from, to, hours, hours[i]);
    AggregateTotals(slots, MINUTE, from, to, minutes, hours[i].start, hours[i].until, of);
  }

  /** Both views hold the same totals: those of the slots in range. */
  lemma TotalsAgree(slots: Ring, from: int, to: int, minutes: seq<Bucket>, hours: seq<Bucket>, end: int, of: Event)
    requires SlotsOk(slots) && 0 <= end && end % HOUR == 0 && forall s :: s in slots ==> s.unix < end
    requires IsAggregate(slots, MINUTE, from, to, minutes) && IsAggregate(slots, HOUR, from, to, hours)
    ensures ListSum(minutes, 0, end, of) == ListSum(hours, 0, end, of) == SlotSum(slots, from, to, 0, end, of)
  {
    AggregateTotals(slots, MINUTE, from, to, minutes, 0, end, of);
    AggregateTotals(slots, HOUR, from, to, hours, 0, end, of);
  }
}
