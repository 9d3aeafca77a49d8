/** The requeue loop of worker/worker.go while Redis refuses every batch: when it ends whatever the database selects. */
module RequeueRefused {
  import opened Common
  import opened Attempts
  import opened Requeue

  /** What the loop reads, with no other writer. */
  datatype Tables = Tables(rows: Rows, createdAt: map<Id, int>, events: set<Id>, locked: set<Id>)

  /** One scan: the cutoff and database time it used, and what the database chose to return. */
  datatype Scan = Scan(cutoff: int, now: int, batch: seq<Attempt>)

  function Eligible(t: Tables, cutoff: int, now: int): set<Id>
  {
    EligibleIds(t.rows, t.createdAt, t.locked, cutoff, now)
  }

  /** The eligible unlocked rows whose event exists. */
  function Pending(t: Tables, cutoff: int, now: int): set<Id>
  {
    set id | id in Eligible(t, cutoff, now) && id in t.rows && t.rows[id].event in t.events
  }

  function After(t: Tables, batch: seq<Attempt>): Tables { t.(rows := ScanRows(t.rows, batch, t.events, false)) }

  /** Scans that each select a full batch, so that the loop goes on, at times up to the given ones. */
  ghost predicate GoesOn(t: Tables, cutoff: int, now: int, batchSize: nat, scans: seq<Scan>)
    decreases |scans|
  {
    scans == [] ||
    (&& scans[0].cutoff <= cutoff && scans[0].now <= now && |scans[0].batch| == batchSize
     && IsSelection(t.rows, scans[0].batch, Eligible(t, scans[0].cutoff, scans[0].now), batchSize)
     && GoesOn(After(t, scans[0].batch), cutoff, now, batchSize, scans[1..]))
  }

  /** Whatever the database selects, the loop ends after at most n full batches. */
  ghost predicate EndsWithin(t: Tables, cutoff: int, now: int, batchSize: nat, n: nat)
  {
    forall scans :: GoesOn(t, cutoff, now, batchSize, scans) ==> |scans| <= n
  }

  /** Eligibility grows with time. */
  lemma EligibleGrows(t: Tables, cutoff: int, now: int, later: int, dbLater: int)
    requires cutoff <= later && now <= dbLater
    ensures Eligible(t, cutoff, now) <= Eligible(t, later, dbLater)
  {
  }

  lemma DistinctSize(batch: seq<Attempt>, ids: set<Id>)
    requires forall i, j :: 0 <= i < j < |batch| ==> batch[i].id != batch[j].id
    requires forall a :: a in batch ==> a.id in ids
    ensures |batch| <= |ids|
  {
    DistinctIds(batch);
    SubsetSize(IdsOf(batch), ids);
  }

  /** A full batch out of fewer deliverable rows holds one without an event, which leaves INIT. */
  lemma FullBatchCancels(t: Tables, cutoff: int, now: int, batchSize: nat, scan: Scan)
    requires scan.cutoff <= cutoff && scan.now <= now && |scan.batch| == batchSize
    requires IsSelection(t.rows, scan.batch, Eligible(t, scan.cutoff, scan.now), batchSize)
    requires |Pending(t, cutoff, now)| < batchSize
    ensures InitIds(After(t, scan.batch).rows) < InitIds(t.rows)
    ensures Pending(After(t, scan.batch), cutoff, now) <= Pending(t, cutoff, now)
  {
    EligibleGrows(t, scan.cutoff, scan.now, cutoff, now);
    MissingMembers(scan.batch, t.events);
    if forall a :: a in scan.batch ==> a.row.event in t.events {
      DistinctSize(scan.batch, Pending(t, cutoff, now));
    }
    var a :| a in scan.batch && a.row.event !in t.events;
    assert a.id in InitIds(t.rows) && a.id !in InitIds(After(t, scan.batch).rows);
  }

  lemma {:induction false} FewPendingEnd(t: Tables, cutoff: int, now: int, batchSize: nat, scans: seq<Scan>)
    requires |Pending(t, cutoff, now)| < batchSize && GoesOn(t, cutoff, now, batchSize, scans)
    ensures |scans| <= |InitIds(t.rows)|
    decreases |scans|
  {
    if scans != [] {
      var u := After(t, scans[0].batch);
      FullBatchCancels(t, cutoff, now, batchSize, scans[0]);
      SubsetSize(Pending(u, cutoff, now), Pending(t, cutoff, now));
      FewPendingEnd(u, cutoff, now, batchSize, scans[1..]);
      SmallerSize(InitIds(u.rows), InitIds(t.rows));
    }
  }

  lemma SmallerSize(a: set<Id>, b: set<Id>)
    requires a < b
    ensures |a| < |b|
  {
    var x :| x in b && x !in a;
    SubsetSize(a, b - {x});
  }

  /** A batch of the wanted size out of enough rows. */
  lemma {:induction false} Choose(rows: Rows, ids: set<Id>, n: nat) returns (batch: seq<Attempt>)
    requires n <= |ids| && ids <= rows.Keys
    ensures |batch| == n && forall i :: 0 <= i < n ==> batch[i].id in ids && batch[i].row == rows[batch[i].id]
    ensures forall i, j :: 0 <= i < j < n ==> batch[i].id != batch[j].id
  {
    if n == 0 {
      batch := [];
    } else {
      var id :| id in ids;
      var rest := Choose(rows, ids - {id}, n - 1);
      batch := [Attempt(id, rows[id])] + rest;
    }
  }

  /** A batch whose events all exist is refused whole: the table stays as it is. */
  lemma RefusedWhole(t: Tables, batch: seq<Attempt>)
    requires forall a :: a in batch ==> a.row.event in t.events
    ensures After(t, batch) == t
  {
    NoneMissing(batch, t.events);
    NothingToCancel(t.rows);
  }

  lemma {:induction false} NoneMissing(batch: seq<Attempt>, events: set<Id>)
    requires forall a :: a in batch ==> a.row.event in events
    ensures MissingIds(batch, events) == []
  {
    if batch != [] { NoneMissing(batch[1..], events); }
  }

  lemma {:induction false} SameBatchForever(t: Tables, cutoff: int, now: int, batchSize: nat, scan: Scan, n: nat)
    requires scan.cutoff == cutoff && scan.now == now && |scan.batch| == batchSize
    requires IsSelection(t.rows, scan.batch, Eligible(t, cutoff, now), batchSize) && After(t, scan.batch) == t
    ensures GoesOn(t, cutoff, now, batchSize, seq(n, _ => scan))
  {
    if n > 0 {
      SameBatchForever(t, cutoff, now, batchSize, scan, n - 1);
      assert seq(n, _ => scan)[1..] == seq(n - 1, _ => scan);
    }
  }

  lemma PendingBatch(t: Tables, cutoff: int, now: int, batchSize: nat) returns (scan: Scan)
    requires batchSize <= |Pending(t, cutoff, now)|
    ensures scan.cutoff == cutoff && scan.now == now && |scan.batch| == batchSize
    ensures IsSelection(t.rows, scan.batch, Eligible(t, cutoff, now), batchSize) && After(t, scan.batch) == t
  {
    var batch := Choose(t.rows, Pending(t, cutoff, now), batchSize);
    SubsetSize(Pending(t, cutoff, now), Eligible(t, cutoff, now));
    forall a | a in batch ensures a.row == t.rows[a.id] && a.id in Pending(t, cutoff, now) {
      var i :| 0 <= i < |batch| && batch[i] == a;
    }
    RefusedWhole(t, batch);
    scan := Scan(cutoff, now, batch);
  }

  /**
   While Redis refuses, the loop ends for every choice of batches at times up to the given ones if and only if fewer
   eligible unlocked rows than a batch have an existing event. Otherwise one full batch can be selected forever.
   */
  lemma RefusedLoopEndsIff(t: Tables, cutoff: int, now: int, batchSize: nat)
    ensures (exists n: nat :: EndsWithin(t, cutoff, now, batchSize, n)) <==> |Pending(t, cutoff, now)| < batchSize
  {
    if |Pending(t, cutoff, now)| < batchSize {
      forall scans | GoesOn(t, cutoff, now, batchSize, scans) ensures |scans| <= |InitIds(t.rows)| {
        FewPendingEnd(t, cutoff, now, batchSize, scans);
      }
      assert EndsWithin(t, cutoff, now, batchSize, |InitIds(t.rows)|);
    } else {
      var scan := PendingBatch(t, cutoff, now, batchSize);
      forall n: nat ensures !EndsWithin(t, cutoff, now, batchSize, n) {
        SameBatchForever(t, cutoff, now, batchSize, scan, n + 1);
        assert |seq(n + 1, _ => scan)| == n + 1;
      }
    }
  }

  /** Some row of the batch leaves INIT exactly when Redis is up or some event of the batch is gone. */
  lemma SomeProgressIff(rows: Rows, batch: seq<Attempt>, events: set<Id>, redisOk: bool)
    requires ReadFrom(rows, batch) && batch != []
    ensures InitIds(ScanRows(rows, batch, events, redisOk)) < InitIds(rows)
       <==> redisOk || exists a :: a in batch && a.row.event !in events
  {
    if redisOk {
      BatchTaken(rows, batch, events);
      assert batch[0] in batch && batch[0].id in InitIds(rows);
    } else {
      MissingMembers(batch, events);
      if a :| a in batch && a.row.event !in events {
        assert a.id in InitIds(rows) && a.id !in InitIds(ScanRows(rows, batch, events, false));
      } else {
        RefusedWhole(Tables(rows, map[], events, {}), batch);
      }
    }
  }
}
