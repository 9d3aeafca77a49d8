/** GetCircuitBreaker of worker/circuitbreaker/manager.go: which buckets are read, and how they are prorated. */
module Window {
  import opened Common
  import opened Counter
  import opened Recorder
  import opened Flush

  /** CircuitBreaker.Validate of the worker configuration. */
  predicate ValidConfig(windowSize: int, failureRateThreshold: int, minimumRequestThreshold: int)
  {
    60 <= windowSize <= 86400 && 1 <= failureRateThreshold <= 100 && minimumRequestThreshold >= 1
  }

  function UnitOf(windowSize: int): int { if windowSize < 3600 then MINUTE else HOUR }

  // ------------------------------------------------------------------ the buckets read

  /** The buckets from the one holding the window's start to the one holding now, the last cut off at now. */
  ghost predicate IsWindow(now: int, windowSize: int, list: seq<Bucket>)
  {
    var unit := UnitOf(windowSize);
    && list != []
    && list[0].start == Key(now - windowSize, unit) && list[|list| - 1].start == Key(now, unit)
    && (forall i :: 0 < i < |list| ==> list[i].start == list[i - 1].start + unit)
    && (forall i :: 0 <= i < |list| ==> list[i].until == Min(list[i].start + unit, now))
  }

  /** The buckets of a unit from one aligned start to another, cut off at now. */
  ghost predicate IsRange(start: int, end: int, unit: int, now: int, list: seq<Bucket>)
  {
    && (list == [] <==> end < start)
    && (list != [] ==> list[0].start == start && list[|list| - 1].start == end)
    && (forall i :: 0 < i < |list| ==> list[i].start == list[i - 1].start + unit)
    && (forall i :: 0 <= i < |list| ==> list[i].until == Min(list[i].start + unit, now))
  }

  lemma RangeExtends(start: int, t: int, unit: int, now: int, list: seq<Bucket>)
    requires unit > 0 && start <= t && IsRange(start, t - unit, unit, now, list)
    requires list == [] ==> t == start
    ensures IsRange(start, t, unit, now, list + [Bucket(t, Min(t + unit, now), 0, 0)])
  {
  }

  /** for t := start; !t.After(end); t = t.Add(unit) */
  method Buckets(start: int, end: int, unit: int, now: int) returns (list: seq<Bucket>)
    requires IsUnit(unit) && start % unit == 0 && end % unit == 0 && start <= end
    ensures IsRange(start, end, unit, now, list)
    ensures forall b :: b in list ==> b.success == 0 && b.error == 0
  {
    var t := start;
    list := [];
    while t <= end
      invariant t % unit == 0 && start <= t && t - unit <= end && (list == [] ==> t == start)
      invariant IsRange(start, t - unit, unit, now, list)
      invariant forall b :: b in list ==> b.success == 0 && b.error == 0
      decreases end - t
    {
      NextAligned(t, unit);
      RangeExtends(start, t, unit, now, list);
      list := list + [Bucket(t, Min(t + unit, now), 0, 0)];
      t := t + unit;
    }
    AlignedApart(end, t, unit);
  }

  /** The buckets read, whose counts are filled in from Redis afterwards. */
  method WindowBuckets(now: int, windowSize: int) returns (list: seq<Bucket>)
    requires windowSize >= 0
    ensures IsWindow(now, windowSize, list)
    ensures forall b :: b in list ==> b.success == 0 && b.error == 0
  {
    var unit := UnitOf(windowSize);
    KeyAligned(now - windowSize, unit, 0);
    KeyAligned(now, unit, 0);
    StartBeforeEnd(now - windowSize, now, unit);
    list := Buckets(Key(now - windowSize, unit), Key(now, unit), unit, now);
  }

  lemma NextAligned(t: int, unit: int)
    requires IsUnit(unit) && t % unit == 0
    ensures (t + unit) % unit == 0
  {
  }

  lemma StartBeforeEnd(a: int, b: int, unit: int)
    requires IsUnit(unit) && a <= b
    ensures Key(a, unit) <= Key(b, unit)
  {
    KeyAligned(a, unit, 0);
    KeyAligned(b, unit, 0);
    if Key(b, unit) < Key(a, unit) { AlignedApart(Key(b, unit), Key(a, unit), unit); }
  }

  lemma {:induction false} WindowStartsBelow(now: int, windowSize: int, list: seq<Bucket>, i: nat)
    requires IsWindow(now, windowSize, list) && i < |list|
    ensures list[i].start <= now
    decreases |list| - i
  {
    if i == |list| - 1 {
      KeyAligned(now, UnitOf(windowSize), 0);
    } else {
      WindowStartsBelow(now, windowSize, list, i + 1);
      assert list[i + 1].start == list[i].start + UnitOf(windowSize);
    }
  }

  /** Consecutive and disjoint: each bucket read ends where the next one starts. */
  lemma BucketsConsecutive(now: int, windowSize: int, list: seq<Bucket>)
    requires IsWindow(now, windowSize, list)
    ensures forall i :: 0 <= i < |list| - 1 ==> list[i].until == list[i + 1].start
    ensures forall i :: 0 <= i < |list| ==> list[i].start <= list[i].until <= now
  {
    forall i | 0 <= i < |list|
      ensures i < |list| - 1 ==> list[i].until == list[i + 1].start
      ensures list[i].start <= list[i].until <= now
    {
      WindowStartsBelow(now, windowSize, list, i);
      if i < |list| - 1 { WindowStartsBelow(now, windowSize, list, i + 1); }
    }
  }

  // ------------------------------------------------------------------ proration

  function Overlap(b: Bucket, now: int, windowSize: int): int
  {
    Min(b.until, now) - Max(b.start, now - windowSize)
  }

  function OverlapSum(list: seq<Bucket>, now: int, windowSize: int): int
  {
    if list == [] then 0
    else Max(0, Overlap(list[0], now, windowSize)) + OverlapSum(list[1..], now, windowSize)
  }

  /** Only the first bucket can start before the window. */
  lemma {:induction false} StartsAfterWindow(now: int, windowSize: int, list: seq<Bucket>, i: nat)
    requires IsWindow(now, windowSize, list) && 0 < i < |list|
    ensures list[i].start >= now - windowSize
  {
    if i == 1 {
      KeyAligned(now - windowSize, UnitOf(windowSize), 0);
    } else {
      StartsAfterWindow(now, windowSize, list, i - 1);
    }
  }

  lemma {:induction false} OverlapFrom(now: int, windowSize: int, list: seq<Bucket>, i: nat)
    requires windowSize >= 0 && IsWindow(now, windowSize, list) && i < |list|
    ensures OverlapSum(list[i..], now, windowSize) == now - Max(list[i].start, now - windowSize)
    decreases |list| - i
  {
    BucketsConsecutive(now, windowSize, list);
    assert list[i..][1..] == list[i + 1..];
    if i < |list| - 1 {
      OverlapFrom(now, windowSize, list, i + 1);
      StartsAfterWindow(now, windowSize, list, i + 1);
    } else {
      KeyAligned(now, UnitOf(windowSize), 0);
      assert OverlapSum(list[i + 1..], now, windowSize) == 0;
    }
  }

  /** The clipped overlaps of the buckets read add up to exactly the window. */
  lemma OverlapsFillWindow(now: int, windowSize: int, list: seq<Bucket>)
    requires windowSize >= 0 && IsWindow(now, windowSize, list)
    ensures OverlapSum(list, now, windowSize) == windowSize
  {
    OverlapFrom(now, windowSize, list, 0);
    assert list[0..] == list;
    KeyAligned(now - windowSize, UnitOf(windowSize), 0);
  }

  /** A bucket that overlaps the window is not empty, so its size divides. */
  function Weight(b: Bucket, now: int, windowSize: int): (w: real)
    ensures 0.0 <= w <= 1.0
    ensures b.start < b.until && now - windowSize <= b.start && b.until <= now ==> w == 1.0
  {
    var overlap := Overlap(b, now, windowSize);
    if overlap <= 0 then 0.0
    else
      FractionOfOne(overlap, b.until - b.start);
      overlap as real / (b.until - b.start) as real
  }

  lemma FractionOfOne(a: int, b: int)
    requires 0 < a <= b
    ensures 0.0 <= a as real / b as real <= 1.0
    ensures a == b ==> a as real / b as real == 1.0
  {
    var q := a as real / b as real;
    assert q * b as real == a as real;
    if q > 1.0 { MoreThan(q, b as real); }
  }

  lemma MoreThan(q: real, b: real)
    requires q > 1.0 && b > 0.0
    ensures q * b > b
  {
    assert (q - 1.0) * b > 0.0;
  }

  function Scaled(n: nat, w: real): (r: real)
    requires 0.0 <= w <= 1.0
    ensures 0.0 <= r <= n as real && (w == 1.0 ==> r == n as real)
  {
    assert n as real - n as real * w == n as real * (1.0 - w);
    assert n as real * (1.0 - w) >= 0.0;
    n as real * w
  }

  /** What a bucket contributes. */
  function Share(b: Bucket, now: int, windowSize: int, of: Event): (r: real)
    ensures 0.0 <= r <= BucketCount(b, of) as real
    ensures b.start < b.until && now - windowSize <= b.start && b.until <= now ==> r == BucketCount(b, of) as real
  {
    Scaled(BucketCount(b, of), Weight(b, now, windowSize))
  }

  function Prorated(list: seq<Bucket>, now: int, windowSize: int, of: Event): real
  {
    if list == [] then 0.0
    else Prorated(list[..|list| - 1], now, windowSize, of) + Share(list[|list| - 1], now, windowSize, of)
  }

  /** timeProrate, with exact arithmetic for float64. */
  method TimeProrate(list: seq<Bucket>, now: int, windowSize: int)
    returns (start: int, until: int, success: int, error: int)
    ensures start == now - windowSize && until == now
    ensures success == Prorated(list, now, windowSize, Success).Floor
      && error == Prorated(list, now, windowSize, Error).Floor
  {
    var windowStart := now - windowSize;
    var s, e := 0.0, 0.0;
    for i := 0 to |list|
      invariant s == Prorated(list[..i], now, windowSize, Success) && e == Prorated(list[..i], now, windowSize, Error)
    {
      var m := list[i];
      assert list[..i + 1][..i] == list[..i];
      var overlapStart, overlapEnd := Max(m.start, windowStart), Min(m.until, now);
      var overlap := overlapEnd - overlapStart;
      if overlap > 0 {
        var bucketSize := m.until - m.start;
        assert bucketSize > 0;
        var weight := overlap as real / bucketSize as real;
        s := s + m.success as real * weight;
        e := e + m.error as real * weight;
      }
    }
    assert list[..|list|] == list;
    return windowStart, now, s.Floor, e.Floor;
  }

  /** The counts of the non-empty buckets wholly inside the window. */
  function InsideCount(list: seq<Bucket>, now: int, windowSize: int, of: Event): nat
  {
    if list == [] then 0
    else
      var last := list[|list| - 1];
      InsideCount(list[..|list| - 1], now, windowSize, of)
      + if last.start < last.until && now - windowSize <= last.start && last.until <= now then BucketCount(last, of)
      else 0
  }

  function AllCount(list: seq<Bucket>, of: Event): nat
  {
    if list == [] then 0 else AllCount(list[..|list| - 1], of) + BucketCount(list[|list| - 1], of)
  }

  lemma AddReals(a: nat, b: nat)
    ensures (a + b) as real == a as real + b as real
  {
  }

  lemma {:induction false} ProratedAtMost(list: seq<Bucket>, now: int, windowSize: int, of: Event)
    ensures Prorated(list, now, windowSize, of) <= AllCount(list, of) as real
  {
    if list != [] {
      var rest, last := list[..|list| - 1], list[|list| - 1];
      ProratedAtMost(rest, now, windowSize, of);
      AddReals(AllCount(rest, of), BucketCount(last, of));
    }
  }

  lemma {:induction false} ProratedAtLeast(list: seq<Bucket>, now: int, windowSize: int, of: Event)
    ensures InsideCount(list, now, windowSize, of) as real <= Prorated(list, now, windowSize, of)
  {
    if list != [] {
      var rest, last := list[..|list| - 1], list[|list| - 1];
      ProratedAtLeast(rest, now, windowSize, of);
      AddReals(InsideCount(rest, now, windowSize, of), BucketCount(last, of));
    }
  }

  /** Each prorated count lies between the counts wholly inside the window and all counts read. */
  lemma ProratedBounds(list: seq<Bucket>, now: int, windowSize: int, of: Event)
    ensures InsideCount(list, now, windowSize, of) <= Prorated(list, now, windowSize, of).Floor <= AllCount(list, of)
  {
    ProratedAtMost(list, now, windowSize, of);
    ProratedAtLeast(list, now, windowSize, of);
  }

  // ------------------------------------------------------------------ what proration means

  /** A part of a number of events. */
  function PartOf(n: nat, part: int, size: int): real
    requires size > 0
  {
    (n * part) as real / size as real
  }

  lemma ShareIsPart(b: Bucket, now: int, windowSize: int, of: Event)
    ensures Share(b, now, windowSize, of) ==
      if Overlap(b, now, windowSize) <= 0 then 0.0
      else PartOf(BucketCount(b, of), Overlap(b, now, windowSize), b.until - b.start)
  {
    var n, part, size := BucketCount(b, of), Overlap(b, now, windowSize), b.until - b.start;
    if part > 0 {
      ScaledPart(n, part, size);
      assert Share(b, now, windowSize, of) == n as real * (part as real / size as real);
    }
  }

  lemma ScaledPart(n: nat, part: int, size: int)
    requires size > 0
    ensures n as real * (part as real / size as real) == PartOf(n, part, size)
  {
    ProductReal(n, part);
  }

  lemma FloorOfPart(n: nat, part: int, size: int)
    requires size > 0
    ensures PartOf(n, part, size).Floor == n * part / size
  {
    FloorOfRatio(n * part, size, PartOf(n, part, size));
  }

  lemma OneBucket(b: Bucket, now: int, windowSize: int, of: Event)
    ensures Prorated([b], now, windowSize, of) == Share(b, now, windowSize, of)
  {
    assert [b][..0] == [] && Prorated([], now, windowSize, of) == 0.0;
  }

  /** The part of a bucket that lies in the window counts, in proportion to its length. */
  lemma PartCounts(b: Bucket, now: int, windowSize: int, of: Event)
    ensures var part := Min(b.until, now) - Max(b.start, now - windowSize);
            if part <= 0 then Prorated([b], now, windowSize, of) == 0.0
            else
              && Prorated([b], now, windowSize, of) == (BucketCount(b, of) * part) as real / (b.until - b.start) as real
              && Prorated([b], now, windowSize, of).Floor == BucketCount(b, of) * part / (b.until - b.start)
  {
    OneBucket(b, now, windowSize, of);
    ShareIsPart(b, now, windowSize, of);
    if Overlap(b, now, windowSize) > 0 {
      FloorOfPart(BucketCount(b, of), Overlap(b, now, windowSize), b.until - b.start);
    }
  }

  lemma ProductReal(a: int, b: int)
    ensures (a * b) as real == a as real * b as real
  {
  }

  lemma FloorOfRatio(n: int, d: int, r: real)
    requires d > 0 && r * d as real == n as real
    ensures r.Floor == n / d
  {
    var q := n / d;
    assert n == q * d + n % d && 0 <= n % d < d;
    ProductReal(q, d);
    ProductReal(q + 1, d);
    assert (r - q as real) * d as real >= 0.0;
    assert (r - (q + 1) as real) * d as real < 0.0;
    assert r >= q as real by {
      if r < q as real { NegativeProduct(r - q as real, d as real); }
    }
    assert r < (q + 1) as real by {
      if r >= (q + 1) as real { PositiveProduct(r - (q + 1) as real, d as real); }
    }
  }

  lemma PositiveProduct(a: real, b: real)
    requires a >= 0.0 && b > 0.0
    ensures a * b >= 0.0
  {
  }

  lemma NegativeProduct(a: real, b: real)
    requires a < 0.0 && b > 0.0
    ensures a * b < 0.0
  {
  }

  /** Buckets contribute independently of each other. */
  lemma {:induction false} ProratedAdds(a: seq<Bucket>, b: seq<Bucket>, now: int, windowSize: int, of: Event)
    ensures Prorated(a + b, now, windowSize, of) ==
      Prorated(a, now, windowSize, of) + Prorated(b, now, windowSize, of)
    decreases |b|
  {
    if b == [] {
      assert a + b == a;
    } else {
      var rest, last := b[..|b| - 1], b[|b| - 1];
      assert (a + b)[..|a + b| - 1] == a + rest && (a + b)[|a + b| - 1] == last;
      ProratedAdds(a, rest, now, windowSize, of);
    }
  }

  /** The events of a number of seconds at a steady rate per second. */
  function Expected(rate: real, seconds: int): real { rate * seconds as real }

  /** Every non-empty bucket counts the same number of events per second. */
  ghost predicate SteadyRate(list: seq<Bucket>, of: Event, rate: real)
  {
    forall b :: b in list && b.start < b.until ==> BucketCount(b, of) as real == Expected(rate, b.until - b.start)
  }

  lemma SteadyPart(n: nat, part: int, size: int, rate: real)
    requires size > 0 && n as real == Expected(rate, size)
    ensures PartOf(n, part, size) == Expected(rate, part)
  {
    ProductReal(n, part);
    assert (n * part) as real == rate * part as real * size as real;
  }

  lemma SteadyBucket(b: Bucket, now: int, windowSize: int, of: Event, rate: real)
    requires SteadyRate([b], of, rate)
    ensures Prorated([b], now, windowSize, of) == Expected(rate, Max(0, Overlap(b, now, windowSize)))
  {
    assert b in [b];
    OneBucket(b, now, windowSize, of);
    ShareIsPart(b, now, windowSize, of);
    if Overlap(b, now, windowSize) > 0 {
      SteadyPart(BucketCount(b, of), Overlap(b, now, windowSize), b.until - b.start, rate);
    } else {
      Distribute(rate, 0, 0);
    }
  }

  lemma Distribute(rate: real, x: int, y: int)
    ensures Expected(rate, x + y) == Expected(rate, x) + Expected(rate, y) && Expected(rate, 0) == 0.0
  {
  }

  lemma {:induction false} SteadyFrom(list: seq<Bucket>, now: int, windowSize: int, of: Event, rate: real)
    requires SteadyRate(list, of, rate)
    ensures Prorated(list, now, windowSize, of) == Expected(rate, OverlapSum(list, now, windowSize))
    decreases |list|
  {
    if list == [] {
      Distribute(rate, 0, 0);
    } else {
      var first, rest := list[0], list[1..];
      assert list == [first] + rest;
      ProratedAdds([first], rest, now, windowSize, of);
      SteadyBucket(first, now, windowSize, of, rate);
      SteadyFrom(rest, now, windowSize, of, rate);
      Distribute(rate, Max(0, Overlap(first, now, windowSize)), OverlapSum(rest, now, windowSize));
    }
  }

  /** At a steady rate the prorated count is exactly what a window of that size sees. */
  lemma SteadyRateIsExact(list: seq<Bucket>, now: int, windowSize: int, of: Event, rate: real)
    requires windowSize >= 0 && IsWindow(now, windowSize, list) && SteadyRate(list, of, rate)
    ensures Prorated(list, now, windowSize, of) == Expected(rate, windowSize)
  {
    SteadyFrom(list, now, windowSize, of, rate);
    OverlapsFillWindow(now, windowSize, list);
  }

  /** Windows below an hour are read by the minute, longer ones by the hour, in aligned buckets. */
  lemma Grain(now: int, windowSize: int, list: seq<Bucket>, b: Bucket)
    requires IsWindow(now, windowSize, list) && b in list
    ensures var unit := if windowSize < 3600 then 60 else 3600;
            b.start % unit == 0 && b.until == Min(b.start + unit, now) && now - windowSize - unit < b.start <= now
  {
    WindowAligned(now, windowSize, list, b);
    var i :| 0 <= i < |list| && list[i] == b;
    WindowStartsBelow(now, windowSize, list, i);
    KeyAligned(now - windowSize, UnitOf(windowSize), 0);
    if i > 0 { StartsAfterWindow(now, windowSize, list, i); }
  }

  // ------------------------------------------------------------------ the breaker's state

  function FailureRate(success: int, error: int): real
  {
    var n := success + error;
    if n == 0 then 0.0 else error as real / n as real
  }

  predicate Opens(success: int, error: int, failureRateThreshold: int, minimumRequestThreshold: int)
  {
    && success + error >= minimumRequestThreshold
    && FailureRate(success, error) >= failureRateThreshold as real / 100.0
  }

  lemma RatioAtLeast(e: int, n: int, t: int)
    requires n > 0
    ensures e as real / n as real >= t as real / 100.0 <==> 100 * e >= t * n
  {
    var q, r := e as real / n as real, t as real / 100.0;
    assert q * n as real == e as real && r * 100.0 == t as real;
    assert (t * n) as real == t as real * n as real == r * 100.0 * n as real;
    assert (100 * e) as real == 100.0 * (q * n as real);
    var d := q - r;
    assert (100 * e) as real - (t * n) as real == 100.0 * (d * n as real);
    if d >= 0.0 { assert d * n as real >= 0.0; } else { assert (-d) * n as real > 0.0; }
  }

  /**
   With a validated configuration the breaker opens exactly when enough requests were counted and the failed share
   reaches the threshold in percent.
   */
  lemma OpensIff(windowSize: int, success: nat, error: nat, threshold: int, minimum: int)
    requires ValidConfig(windowSize, threshold, minimum)
    ensures Opens(success, error, threshold, minimum)
       <==> success + error >= minimum && 100 * error >= threshold * (success + error)
  {
    if success + error >= minimum { RatioAtLeast(error, success + error, threshold); }
  }

  /** Zero failures in the buckets read never open the breaker. */
  lemma NoFailuresNeverOpen(list: seq<Bucket>, now: int, windowSize: int, threshold: int, minimum: int)
    requires ValidConfig(windowSize, threshold, minimum) && AllCount(list, Error) == 0
    ensures !Opens(Prorated(list, now, windowSize, Success).Floor, Prorated(list, now, windowSize, Error).Floor,
      threshold, minimum)
  {
    ProratedBounds(list, now, windowSize, Success);
    ProratedBounds(list, now, windowSize, Error);
    var success := Prorated(list, now, windowSize, Success).Floor;
    OpensIff(windowSize, success, 0, threshold, minimum);
    if success >= minimum { assert threshold * success > 0; }
  }

  // ------------------------------------------------------------------ reading keys that expire

  /** HGETALL at a time: an expired or missing key reads as zero. */
  function ReadAt(redis: Redis, expires: map<BucketKey, int>, key: BucketKey, now: int): Counts
  {
    if key in expires && now >= expires[key] then Counts(0, 0) else Read(redis, key)
  }

  ghost predicate CountsRead(redis: Redis, expires: map<BucketKey, int>, id: Id, unit: int, now: int, b: Bucket)
  {
    Counts(b.success, b.error) == ReadAt(redis, expires, BucketKey(id, unit, b.start), now)
  }

  method ReadBuckets(
    redis: Redis, expires: map<BucketKey, int>, id: Id, unit: int, now: int, metrics: seq<Bucket>)
    returns (list: seq<Bucket>)
    requires forall b :: b in metrics ==> b.success == 0 && b.error == 0
    ensures |list| == |metrics|
    ensures forall i :: 0 <= i < |list| ==> list[i].start == metrics[i].start && list[i].until == metrics[i].until
    ensures forall i :: 0 <= i < |list| ==> CountsRead(redis, expires, id, unit, now, list[i])
  {
    list := [];
    for i := 0 to |metrics|
      invariant |list| == i
      invariant forall j :: 0 <= j < i ==> list[j].start == metrics[j].start && list[j].until == metrics[j].until
      invariant forall j :: 0 <= j < i ==> CountsRead(redis, expires, id, unit, now, list[j])
    {
      var m := metrics[i];
      assert m in metrics;
      var v := ReadAt(redis, expires, BucketKey(id, unit, m.start), now);
      list := list + [m.(success := m.success + v.success, error := m.error + v.error)];
    }
  }

  /**
   GetCircuitBreaker: read every bucket of the window, prorate, compare with both thresholds; a failed read is an
   error.
   */
  method GetCircuitBreaker(
    redis: Redis, expires: map<BucketKey, int>, id: Id, now: int, windowSize: nat, threshold: int, minimum: int,
    redisOk: bool)
    returns (open: Result<bool>, list: seq<Bucket>)
    ensures open.Ok? <==> redisOk
    ensures IsWindow(now, windowSize, list)
    ensures redisOk ==> forall i :: 0 <= i < |list| ==> CountsRead(redis, expires, id, UnitOf(windowSize), now, list[i])
    ensures var success, error := Prorated(list, now, windowSize, Success), Prorated(list, now, windowSize, Error);
            redisOk ==> (open.value <==> Opens(success.Floor, error.Floor, threshold, minimum))
  {
    list := WindowBuckets(now, windowSize);
    if !redisOk { return Err, list; }
    var metrics := list;
    list := ReadBuckets(redis, expires, id, UnitOf(windowSize), now, metrics);
    WindowCopied(now, windowSize, metrics, list);
    var _, _, success, error := TimeProrate(list, now, windowSize);
    var reached := Reached(success, error, threshold, minimum);
    open := Ok(reached);
  }

  /** The counts of its buckets do not make a window. */
  lemma WindowCopied(now: int, windowSize: int, a: seq<Bucket>, b: seq<Bucket>)
    requires IsWindow(now, windowSize, a) && |a| == |b|
    requires forall i :: 0 <= i < |b| ==> b[i].start == a[i].start && b[i].until == a[i].until
    ensures IsWindow(now, windowSize, b)
  {
  }

  /** The comparison with both thresholds. */
  method Reached(success: int, error: int, threshold: int, minimum: int) returns (open: bool)
    ensures open <==> Opens(success, error, threshold, minimum)
  {
    if success + error < minimum { return false; }
    var rate := FailureRate(success, error);
    open := rate >= threshold as real / 100.0;
  }

  /** Every key read that overlaps the window is still alive at the time of the read, however late that is. */
  lemma TtlLongEnough(
    start: int, states: seq<State>, steps: seq<Step>, i: nat, id: Id, now: int, windowSize: int, list: seq<Bucket>,
    b: Bucket)
    requires Run(start, states, steps) && i < |states|
    requires 60 <= windowSize <= 86400 && IsWindow(now, windowSize, list) && b in list
    requires Overlap(b, now, windowSize) > 0
    ensures var key := BucketKey(id, UnitOf(windowSize), b.start);
            key in states[i].redis ==> key in states[i].expires && now < states[i].expires[key]
  {
    var key := BucketKey(id, UnitOf(windowSize), b.start);
    if key in states[i].redis { ExpiryAfterWrite(start, states, steps, i, key); }
  }

  /** So the breaker reads, for every bucket that weighs, exactly the records flushed for that endpoint and bucket. */
  lemma ReadsExactCounts(
    start: int, states: seq<State>, steps: seq<Step>, i: nat, id: Id, now: int, windowSize: int, list: seq<Bucket>,
    b: Bucket, of: Event)
    requires Run(start, states, steps) && i < |states|
    requires 60 <= windowSize <= 86400 && IsWindow(now, windowSize, list) && b in list
    requires Overlap(b, now, windowSize) > 0
    ensures var s, key := states[i], BucketKey(id, UnitOf(windowSize), b.start);
            Get(ReadAt(s.redis, s.expires, key, now), of)
            == CountIn(LogOf(s, id), 0, LastSync(s, id), b.start, b.start + UnitOf(windowSize), of)
  {
    var unit := UnitOf(windowSize);
    var key := BucketKey(id, unit, b.start);
    TtlLongEnough(start, states, steps, i, id, now, windowSize, list, b);
    WindowAligned(now, windowSize, list, b);
    FlushConserves(start, states, steps, i, key, of);
  }

  lemma WindowAligned(now: int, windowSize: int, list: seq<Bucket>, b: Bucket)
    requires IsWindow(now, windowSize, list) && b in list
    ensures b.start % UnitOf(windowSize) == 0
  {
    var i :| 0 <= i < |list| && list[i] == b;
    AlignedAt(now, windowSize, list, i);
  }

  lemma {:induction false} AlignedAt(now: int, windowSize: int, list: seq<Bucket>, i: nat)
    requires IsWindow(now, windowSize, list) && i < |list|
    ensures list[i].start % UnitOf(windowSize) == 0
  {
    if i == 0 { KeyAligned(now - windowSize, UnitOf(windowSize), 0); } else {
      AlignedAt(now, windowSize, list, i - 1);
      NextAligned(list[i - 1].start, UnitOf(windowSize));
    }
  }
}
