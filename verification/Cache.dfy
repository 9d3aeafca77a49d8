/**
 * The two-level cache (mcache/mcache.go): a load looks into its node's L1, then into the shared L2, then asks the
 * database. Loads of any number of nodes interleave step by step with each other, with writes and with invalidations.
 */
module Cache {
  import opened Common
  import Paths

  type Key = nat
  type Node = nat
  type Pid = nat
  type Value = int

  /** Milliseconds. */
  const L1_TTL: nat := 10_000
  const L2_TTL: nat := 60_000

  datatype Entry = Entry(value: Value, expires: nat)
  type Level = map<Key, Entry>

  /** Where a load is; `Got`, `Put` and `Add` carry the value they are about to store. */
  datatype Phase =
    | Begin
    | Shared
    | Got(value: Value)
    | Recheck
    | Query
    | Put(value: Value)
    | Add(value: Value)
    | Done(result: Option<Value>)
    | Failed

  /** Which of a load's calls fail; a failed store into L2 may still have taken effect. */
  datatype Faults = Faults(get: bool, query: bool, put: bool, stored: bool)

  // ---- one load --------------------------------------------------------------------------

  predicate Live(level: Level, key: Key, now: nat) { key in level && now <= level[key].expires }

  function Store(level: Level, key: Key, value: Value, expires: nat): Level { level[key := Entry(value, expires)] }

  /** A load and the two levels it works on. */
  datatype Local = Local(phase: Phase, l1: Level, l2: Level)

  /** What a load asks for. */
  datatype Request = Request(key: Key, disableLRU: bool)

  /** The next step of a load; row is what the database holds for the key. */
  function Advance(c: Local, r: Request, row: Option<Value>, now: nat, f: Faults): Local {
    match c.phase
    case Begin =>
      c.(phase := if !r.disableLRU && Live(c.l1, r.key, now) then Done(Some(c.l1[r.key].value)) else Shared)
    case Shared =>
      c.(phase := if f.get then Failed else if Live(c.l2, r.key, now) then Got(c.l2[r.key].value) else Recheck)
    case Got(v) =>
      c.(phase := Done(Some(v)), l1 := Store(c.l1, r.key, v, now + L1_TTL))
    case Recheck =>
      c.(phase := if Live(c.l1, r.key, now) then Done(Some(c.l1[r.key].value)) else Query)
    case Query =>
      c.(phase := if f.query then Failed else if row.None? then Done(None) else Put(row.value))
    case Put(v) =>
      c.(phase := if f.put then Failed else if r.disableLRU then Done(Some(v)) else Add(v),
         l2 := if f.put && !f.stored then c.l2 else Store(c.l2, r.key, v, now + L2_TTL))
    case Add(v) =>
      c.(phase := Done(Some(v)), l1 := Store(c.l1, r.key, v, now + L1_TTL))
    case _ => c
  }

  /** A load that nothing interrupts. */
  function Finish(c: Local, r: Request, row: Option<Value>, now: nat, f: Faults, steps: nat): Local
    decreases steps
  {
    if steps == 0 then c else Finish(Advance(c, r, row, now, f), r, row, now, f, steps - 1)
  }

  /** The steps of a load, one after the other. */
  lemma Unrolled(c: Local, r: Request, row: Option<Value>, now: nat, f: Faults)
    requires c.phase.Begin?
    ensures var c1 := Advance(c, r, row, now, f);
      var c2 := Advance(c1, r, row, now, f);
      var c3 := Advance(c2, r, row, now, f);
      var c4 := Advance(c3, r, row, now, f);
      var c5 := Advance(c4, r, row, now, f);
      Finish(c, r, row, now, f, 6) == Advance(c5, r, row, now, f)
  {
    var c1 := Advance(c, r, row, now, f);
    var c2 := Advance(c1, r, row, now, f);
    var c3 := Advance(c2, r, row, now, f);
    assert Finish(c, r, row, now, f, 6) == Finish(c3, r, row, now, f, 3);
  }

  class RedisCache {
    var entries: Level

    constructor ()
      ensures entries == map[]
    {
      entries := map[];
    }
  }

  class MCache {
    var l1: Level
    const l2: RedisCache?

    /** The control plane has no shared level. */
    constructor (l2: RedisCache?)
      ensures l1 == map[] && this.l2 == l2
    {
      this.l1, this.l2 := map[], l2;
    }

    /** Removes the key from the shared level, then from this node's; a failure of the first leaves the second alone. */
    method Invalidate(key: Key, fails: bool) returns (ok: bool)
      modifies this, l2
      ensures ok <==> l2 == null || !fails
      ensures l2 != null ==> l2.entries == if fails then old(l2.entries) else old(l2.entries) - {key}
      ensures l1 == if ok then old(l1) - {key} else old(l1)
    {
      if l2 != null {
        if fails {
          return false;
        }
        l2.entries := l2.entries - {key};
      }
      l1 := l1 - {key};
      return true;
    }

    /** A load takes the steps of `Advance` from `Begin` to its end. */
    method Load(r: Request, row: Option<Value>, now: nat, f: Faults) returns (outcome: Phase)
      requires l2 != null
      modifies this, l2
      ensures outcome.Done? || outcome.Failed?
      ensures Local(outcome, l1, l2.entries) == Finish(Local(Begin, old(l1), old(l2.entries)), r, row, now, f, 6)
    {
      Unrolled(Local(Begin, l1, l2.entries), r, row, now, f);
      if !r.disableLRU {
        if Live(l1, r.key, now) {
          return Done(Some(l1[r.key].value));
        }
      }
      if f.get {
        return Failed;
      }
      if Live(l2.entries, r.key, now) {
        var value := l2.entries[r.key].value;
        l1 := Store(l1, r.key, value, now + L1_TTL);
        return Done(Some(value));
      }
      if Live(l1, r.key, now) {
        return Done(Some(l1[r.key].value));
      }
      if f.query {
        return Failed;
      }
      if row.None? {
        return Done(None);
      }
      if !(f.put && !f.stored) {
        l2.entries := Store(l2.entries, r.key, row.value, now + L2_TTL);
      }
      if f.put {
        return Failed;
      }
      if !r.disableLRU {
        l1 := Store(l1, r.key, row.value, now + L1_TTL);
      }
      return Done(row);
    }
  }

  // ---- many loads ----------------------------------------------------------------------------

  /** The database's contents from a moment on. */
  datatype Snapshot = Snapshot(since: nat, rows: map<Key, Value>)

  datatype Call = Call(node: Node, request: Request, started: nat, phase: Phase)

  /** `history` ends with the current contents; `patience` bounds how long a load may take. */
  datatype State = State(
    now: nat, history: seq<Snapshot>, l1: map<Node, Level>, l2: Level, calls: map<Pid, Call>, patience: nat)

  datatype Step =
    | Tick
    | Write(rows: map<Key, Value>)
    | Start(pid: Pid, node: Node, request: Request)
    | Move(pid: Pid, faults: Faults)
    | Leave(pid: Pid)
    | DropL1(node: Node, key: Key)
    | DropL2(key: Key)

  function Lookup(rows: map<Key, Value>, key: Key): Option<Value> { if key in rows then Some(rows[key]) else None }

  function LevelOf(s: State, node: Node): Level { if node in s.l1 then s.l1[node] else map[] }

  function Current(s: State, key: Key): Option<Value>
    requires s.history != []
  {
    Lookup(s.history[|s.history| - 1].rows, key)
  }

  /**
   Time passes only while every load stays within its patience. Dropping an entry is an invalidation, an eviction or an
   expiry.
   */
  predicate Enabled(s: State, step: Step) {
    match step
    case Tick => forall pid :: pid in s.calls ==> s.now + 1 <= s.calls[pid].started + s.patience
    case Start(pid, _, _) => pid !in s.calls
    case Move(pid, _) => pid in s.calls && s.history != []
    case _ => true
  }

  function Moved(s: State, pid: Pid, f: Faults): Local
    requires pid in s.calls && s.history != []
  {
    var c := s.calls[pid];
    Advance(Local(c.phase, LevelOf(s, c.node), s.l2), c.request, Current(s, c.request.key), s.now, f)
  }

  function Exec(s: State, step: Step): State
    requires Enabled(s, step)
  {
    match step
    case Tick => s.(now := s.now + 1)
    case Write(rows) => s.(history := s.history + [Snapshot(s.now, rows)])
    case Start(pid, node, request) => s.(calls := s.calls[pid := Call(node, request, s.now, Begin)])
    case Move(pid, f) =>
      var after := Moved(s, pid, f);
      s.(calls := s.calls[pid := s.calls[pid].(phase := after.phase)],
         l1 := s.l1[s.calls[pid].node := after.l1], l2 := after.l2)
    case Leave(pid) => s.(calls := s.calls - {pid})
    case DropL1(node, key) => s.(l1 := s.l1[node := LevelOf(s, node) - {key}])
    case DropL2(key) => s.(l2 := s.l2 - {key})
  }

  function Machine(): (State, Step) -> Option<State>
  {
    (s, step) => if Enabled(s, step) then Some(Exec(s, step)) else None
  }

  predicate Runs(s: State, steps: seq<Step>) { Paths.End(Machine(), s, steps).Some? }

  function Run(s: State, steps: seq<Step>): State
    requires Runs(s, steps)
  {
    Paths.End(Machine(), s, steps).value
  }

  /** Empty caches over some database. */
  ghost predicate Init(s: State)
  {
    |s.history| == 1 && s.history[0].since <= s.now && s.l1 == map[] && s.l2 == map[] && s.calls == map[]
  }

  // ---- staleness --------------------------------------------------------------------------------

  /** At moment t the database held v (or nothing) for the key. */
  ghost predicate HeldAt(s: State, i: nat, key: Key, v: Option<Value>, t: int) {
    && i < |s.history| && Lookup(s.history[i].rows, key) == v
    && s.history[i].since <= t <= s.now
    && (i + 1 < |s.history| ==> t <= s.history[i + 1].since)
  }

  /** At some moment not before `since`. */
  ghost predicate Seen(s: State, key: Key, v: Option<Value>, since: int) {
    exists i: nat, t :: HeldAt(s, i, key, v, t) && since <= t
  }

  /** How old the value a load carries may be, measured from the load's start. */
  ghost predicate CallOk(s: State, c: Call) {
    && c.started <= s.now <= c.started + s.patience
    && match c.phase
       case Got(v) => Seen(s, c.request.key, Some(v), c.started - L2_TTL - s.patience)
       case Put(v) => Seen(s, c.request.key, Some(v), c.started)
       case Add(v) => Seen(s, c.request.key, Some(v), c.started)
       case Done(v) => Seen(s, c.request.key, v, c.started - L1_TTL - L2_TTL - 2 * s.patience)
       case _ => true
  }

  ghost predicate L2Ok(s: State, level: Level) {
    forall key :: key in level ==> Seen(s, key, Some(level[key].value), level[key].expires - L2_TTL - s.patience)
  }

  ghost predicate L1Ok(s: State, level: Level) {
    forall key :: key in level ==>
      Seen(s, key, Some(level[key].value), level[key].expires - L1_TTL - L2_TTL - 2 * s.patience)
  }

  ghost predicate Inv(s: State) {
    && s.history != []
    && s.history[|s.history| - 1].since <= s.now
    && L2Ok(s, s.l2)
    && (forall node :: node in s.l1 ==> L1Ok(s, s.l1[node]))
    && (forall pid :: pid in s.calls ==> CallOk(s, s.calls[pid]))
  }

  /** A later state of the same database. */
  ghost predicate Extends(s: State, t: State) {
    && s.now <= t.now && s.patience == t.patience
    && |s.history| <= |t.history| && t.history[..|s.history|] == s.history
    && (|s.history| < |t.history| ==> s.now <= t.history[|s.history|].since)
  }

  lemma SeenStays(s: State, t: State, key: Key, v: Option<Value>, since: int)
    requires Extends(s, t) && Seen(s, key, v, since)
    ensures Seen(t, key, v, since)
  {
    var i: nat, m :| HeldAt(s, i, key, v, m) && since <= m;
    assert t.history[i] == s.history[i];
    assert i + 1 < |s.history| ==> t.history[i + 1] == s.history[i + 1];
    assert HeldAt(t, i, key, v, m);
  }

  lemma SeenLonger(s: State, key: Key, v: Option<Value>, since: int, earlier: int)
    requires Seen(s, key, v, since) && earlier <= since
    ensures Seen(s, key, v, earlier)
  {
    var i: nat, m :| HeldAt(s, i, key, v, m) && since <= m;
  }

  lemma CurrentSeen(s: State, key: Key)
    requires s.history != [] && s.history[|s.history| - 1].since <= s.now
    ensures Seen(s, key, Current(s, key), s.now)
  {
    assert HeldAt(s, |s.history| - 1, key, Current(s, key), s.now);
  }

  lemma CallStays(s: State, t: State, c: Call)
    requires Extends(s, t) && CallOk(s, c) && t.now <= c.started + s.patience
    ensures CallOk(t, c)
  {
    match c.phase
    case Got(v) => SeenStays(s, t, c.request.key, Some(v), c.started - L2_TTL - s.patience);
    case Put(v) => SeenStays(s, t, c.request.key, Some(v), c.started);
    case Add(v) => SeenStays(s, t, c.request.key, Some(v), c.started);
    case Done(v) => SeenStays(s, t, c.request.key, v, c.started - L1_TTL - L2_TTL - 2 * s.patience);
    case _ =>
  }

  lemma L2Stays(s: State, t: State, level: Level)
    requires Extends(s, t) && L2Ok(s, level)
    ensures L2Ok(t, level)
  {
    forall key | key in level
      ensures Seen(t, key, Some(level[key].value), level[key].expires - L2_TTL - s.patience)
    {
      SeenStays(s, t, key, Some(level[key].value), level[key].expires - L2_TTL - s.patience);
    }
  }

  lemma L1Stays(s: State, t: State, level: Level)
    requires Extends(s, t) && L1Ok(s, level)
    ensures L1Ok(t, level)
  {
    forall key | key in level
      ensures Seen(t, key, Some(level[key].value), level[key].expires - L1_TTL - L2_TTL - 2 * s.patience)
    {
      SeenStays(s, t, key, Some(level[key].value), level[key].expires - L1_TTL - L2_TTL - 2 * s.patience);
    }
  }

  lemma StoreL1(s: State, level: Level, key: Key, v: Value, expires: nat)
    requires L1Ok(s, level) && Seen(s, key, Some(v), expires - L1_TTL - L2_TTL - 2 * s.patience)
    ensures L1Ok(s, Store(level, key, v, expires))
  {
  }

  lemma StoreL2(s: State, level: Level, key: Key, v: Value, expires: nat)
    requires L2Ok(s, level) && Seen(s, key, Some(v), expires - L2_TTL - s.patience)
    ensures L2Ok(s, Store(level, key, v, expires))
  {
  }

  /** A step of a load keeps every bound: what it carries, what it stores and what it returns. */
  ghost predicate Advances(s: State, c: Call, after: Local) {
    CallOk(s, c.(phase := after.phase)) && L1Ok(s, after.l1) && L2Ok(s, after.l2)
  }

  lemma ReadsOk(s: State, pid: Pid, f: Faults)
    requires Inv(s) && pid in s.calls
    requires var p := s.calls[pid].phase; p.Begin? || p.Recheck? || p.Shared? || p.Query?
    ensures Advances(s, s.calls[pid], Moved(s, pid, f))
  {
    var c := s.calls[pid];
    var key, l1, p := c.request.key, LevelOf(s, c.node), s.patience;
    assert CallOk(s, c) && L1Ok(s, l1);
    if c.phase.Query? {
      CurrentSeen(s, key);
      SeenLonger(s, key, Current(s, key), s.now, c.started);
      SeenLonger(s, key, Current(s, key), s.now, c.started - L1_TTL - L2_TTL - 2 * p);
    } else if c.phase.Shared? {
      if Live(s.l2, key, s.now) {
        SeenLonger(s, key, Some(s.l2[key].value), s.l2[key].expires - L2_TTL - p, c.started - L2_TTL - p);
      }
    } else if Live(l1, key, s.now) {
      SeenLonger(s, key, Some(l1[key].value), l1[key].expires - L1_TTL - L2_TTL - 2 * p,
        c.started - L1_TTL - L2_TTL - 2 * p);
    }
  }

  lemma PutsOk(s: State, pid: Pid, f: Faults)
    requires Inv(s) && pid in s.calls && s.calls[pid].phase.Put?
    ensures Advances(s, s.calls[pid], Moved(s, pid, f))
  {
    var c := s.calls[pid];
    var key, p, v := c.request.key, s.patience, c.phase.value;
    assert CallOk(s, c) && L1Ok(s, LevelOf(s, c.node));
    SeenLonger(s, key, Some(v), c.started, c.started - L1_TTL - L2_TTL - 2 * p);
    SeenLonger(s, key, Some(v), c.started, s.now - p);
    StoreL2(s, s.l2, key, v, s.now + L2_TTL);
  }

  lemma AddsOk(s: State, pid: Pid, f: Faults)
    requires Inv(s) && pid in s.calls && (s.calls[pid].phase.Got? || s.calls[pid].phase.Add?)
    ensures Advances(s, s.calls[pid], Moved(s, pid, f))
  {
    var c := s.calls[pid];
    var key, l1, p, v := c.request.key, LevelOf(s, c.node), s.patience, c.phase.value;
    assert CallOk(s, c) && L1Ok(s, l1);
    var since := if c.phase.Got? then c.started - L2_TTL - p else c.started;
    SeenLonger(s, key, Some(v), since, c.started - L1_TTL - L2_TTL - 2 * p);
    SeenLonger(s, key, Some(v), since, s.now - L2_TTL - 2 * p);
    StoreL1(s, l1, key, v, s.now + L1_TTL);
  }

  lemma AdvanceOk(s: State, pid: Pid, f: Faults)
    requires Inv(s) && pid in s.calls
    ensures Advances(s, s.calls[pid], Moved(s, pid, f))
  {
    var c := s.calls[pid];
    assert CallOk(s, c) && L1Ok(s, LevelOf(s, c.node));
    if c.phase.Begin? || c.phase.Recheck? || c.phase.Shared? || c.phase.Query? {
      ReadsOk(s, pid, f);
    } else if c.phase.Put? {
      PutsOk(s, pid, f);
    } else if c.phase.Got? || c.phase.Add? {
      AddsOk(s, pid, f);
    }
  }

  lemma StepKeepsInv(s: State, step: Step)
    requires Inv(s) && Enabled(s, step)
    ensures Inv(Exec(s, step))
  {
    var t := Exec(s, step);
    assert Extends(s, t);
    if step.Move? { AdvanceOk(s, step.pid, step.faults); }
    L2Stays(s, t, if step.Move? then t.l2 else s.l2);
    forall node | node in t.l1 ensures L1Ok(t, t.l1[node]) {
      if step.Move? && node == s.calls[step.pid].node {
        L1Stays(s, t, t.l1[node]);
      } else {
        assert L1Ok(s, LevelOf(s, node));
        L1Stays(s, t, LevelOf(s, node));
      }
    }
    forall pid | pid in t.calls ensures CallOk(t, t.calls[pid]) {
      if step.Start? && pid == step.pid {
      } else if step.Move? && pid == step.pid {
        CallStays(s, t, t.calls[pid]);
      } else {
        assert CallOk(s, s.calls[pid]);
        CallStays(s, t, s.calls[pid]);
      }
    }
  }

  lemma {:induction false} RunKeepsInv(s: State, steps: seq<Step>)
    requires Inv(s) && Runs(s, steps)
    ensures Inv(Run(s, steps)) && Run(s, steps).patience == s.patience
    decreases |steps|
  {
    if steps != [] {
      StepKeepsInv(s, steps[0]);
      RunKeepsInv(Exec(s, steps[0]), steps[1..]);
    }
  }

  /**
   * Whatever a load returns, a value or that there is none, was the database's answer at some moment within the
   * last L1 TTL plus L2 TTL, plus three times what a load may take. Loads that take no time give the two TTLs alone.
   */
  lemma BoundedStaleness(s: State, steps: seq<Step>, pid: Pid)
    requires Init(s) && Runs(s, steps)
    requires pid in Run(s, steps).calls && Run(s, steps).calls[pid].phase.Done?
    ensures var t := Run(s, steps);
      Seen(t, t.calls[pid].request.key, t.calls[pid].phase.result, t.now - L1_TTL - L2_TTL - 3 * s.patience)
  {
    RunKeepsInv(s, steps);
    var t := Run(s, steps);
    var c := t.calls[pid];
    assert CallOk(t, c);
    SeenLonger(t, c.request.key, c.phase.result, c.started - L1_TTL - L2_TTL - 2 * t.patience,
      t.now - L1_TTL - L2_TTL - 3 * t.patience);
  }

  // ---- hits -----------------------------------------------------------------------------------

  /** The node's level answers for the key until a time. */
  predicate Answers(level: Level, key: Key, until: int) { key in level && level[key].expires >= until }

  lemma {:induction false} L1Answers(s: State, steps: seq<Step>, node: Node, key: Key, until: int)
    requires Runs(s, steps) && Answers(LevelOf(s, node), key, until) && until <= s.now + 10_000
    requires DropL1(node, key) !in steps
    ensures Answers(LevelOf(Run(s, steps), node), key, until) && s.now <= Run(s, steps).now
    decreases |steps|
  {
    if steps != [] {
      L1Stored(s, steps[0], node, key, until);
      L1Answers(Exec(s, steps[0]), steps[1..], node, key, until);
    }
  }

  lemma L1Stored(s: State, step: Step, node: Node, key: Key, until: int)
    requires Enabled(s, step) && Answers(LevelOf(s, node), key, until) && until <= s.now + 10_000
    requires step != DropL1(node, key)
    ensures Answers(LevelOf(Exec(s, step), node), key, until) && s.now <= Exec(s, step).now
  {
  }

  lemma {:induction false} L2Answers(s: State, steps: seq<Step>, key: Key, until: int)
    requires Runs(s, steps) && Answers(s.l2, key, until) && until <= s.now + 60_000 && DropL2(key) !in steps
    ensures Answers(Run(s, steps).l2, key, until)
    decreases |steps|
  {
    if steps != [] { L2Answers(Exec(s, steps[0]), steps[1..], key, until); }
  }

  /** The load is about to store the key into its node's level. */
  predicate Storing(s: State, pid: Pid, node: Node, key: Key)
  {
    && pid in s.calls && s.history != [] && s.calls[pid].node == node && s.calls[pid].request.key == key
    && (s.calls[pid].phase.Got? || s.calls[pid].phase.Add?)
  }

  /**
   Once a load has stored a key into its node's level, every load of the key on that node that looks there within ten
   seconds, at its beginning or again before it asks the database, is answered at once, unless the entry was dropped.
   */
  lemma HitUntilTtl(s: State, pid: Pid, f: Faults, steps: seq<Step>, node: Node, key: Key, reader: Pid)
    requires Storing(s, pid, node, key) && Runs(Exec(s, Move(pid, f)), steps) && DropL1(node, key) !in steps
    requires var t := Run(Exec(s, Move(pid, f)), steps);
             && t.now <= s.now + 10_000 && t.history != [] && reader in t.calls
             && t.calls[reader].node == node && t.calls[reader].request.key == key
             && (|| t.calls[reader].phase.Recheck?
                 || (t.calls[reader].phase.Begin? && !t.calls[reader].request.disableLRU))
    ensures forall g :: Moved(Run(Exec(s, Move(pid, f)), steps), reader, g).phase.Done?
    ensures forall g :: Moved(Run(Exec(s, Move(pid, f)), steps), reader, g).phase.result.Some?
  {
    L1Answers(Exec(s, Move(pid, f)), steps, node, key, s.now + 10_000);
  }

  /**
   Once a load has stored a row into the shared level, every load on any node that looks there within a minute finds the
   key without the database, unless the entry was dropped or the lookup fails.
   */
  lemma SharedHitUntilTtl(s: State, pid: Pid, f: Faults, steps: seq<Step>, reader: Pid)
    requires pid in s.calls && s.history != [] && s.calls[pid].phase.Put? && !f.put
    requires Runs(Exec(s, Move(pid, f)), steps) && DropL2(s.calls[pid].request.key) !in steps
    requires var t := Run(Exec(s, Move(pid, f)), steps);
             && t.now <= s.now + 60_000 && t.history != [] && reader in t.calls && t.calls[reader].phase.Shared?
             && t.calls[reader].request.key == s.calls[pid].request.key
    ensures forall g: Faults :: !g.get ==> Moved(Run(Exec(s, Move(pid, f)), steps), reader, g).phase.Got?
  {
    L2Answers(Exec(s, Move(pid, f)), steps, s.calls[pid].request.key, s.now + 60_000);
  }

  /** A load that disables the local level looks into the shared level first, and keeps what it got from the database
      out of its node's level. */
  lemma DisabledSkipsLocal(s: State, pid: Pid, f: Faults)
    requires pid in s.calls && s.history != [] && s.calls[pid].request.disableLRU
    ensures s.calls[pid].phase.Begin? ==> Moved(s, pid, f).phase.Shared?
    ensures s.calls[pid].phase.Query? || s.calls[pid].phase.Put? ==>
      !Moved(s, pid, f).phase.Add? && Moved(s, pid, f).l1 == LevelOf(s, s.calls[pid].node)
  {
  }

  // ---- invalidation ---------------------------------------------------------------------------------

  /** A step that leaves the key's row alone. */
  predicate Keeps(s: State, step: Step, key: Key)
    requires s.history != []
  {
    step.Write? ==> Lookup(step.rows, key) == Current(s, key)
  }

  predicate AllKeep(s: State, steps: seq<Step>, key: Key)
    requires Runs(s, steps) && s.history != []
    decreases |steps|
  {
    steps == [] || (Keeps(s, steps[0], key) && AllKeep(Exec(s, steps[0]), steps[1..], key))
  }

  /** The load is about to store a replaced value where a load on the node will find it. */
  ghost predicate CarriesOld(s: State, node: Node, key: Key, pid: Pid)
  {
    && s.history != [] && pid in s.calls && s.calls[pid].request.key == key
    && match s.calls[pid].phase
       case Put(v) => Some(v) != Current(s, key)
       case Got(v) => s.calls[pid].node == node && Some(v) != Current(s, key)
       case Add(v) => s.calls[pid].node == node && Some(v) != Current(s, key)
       case _ => false
  }

  /** Nothing old about the key is in the shared level, in the node's level, or on its way to either. */
  ghost predicate UpToDate(s: State, node: Node, key: Key)
  {
    && s.history != []
    && (key in s.l2 ==> Some(s.l2[key].value) == Current(s, key))
    && (key in LevelOf(s, node) ==> Some(LevelOf(s, node)[key].value) == Current(s, key))
    && forall pid :: !CarriesOld(s, node, key, pid)
  }

  /** The load, if it is of the key on the node, has not returned anything else than the current value. */
  ghost predicate ReturnsCurrent(s: State, node: Node, key: Key, pid: Pid)
  {
    (&& s.history != [] && pid in s.calls && s.calls[pid].node == node && s.calls[pid].request.key == key
     && s.calls[pid].phase.Done?) ==>
      s.calls[pid].phase.result == Current(s, key)
  }

  lemma StepKeepsUpToDate(s: State, step: Step, node: Node, key: Key, pid: Pid)
    requires UpToDate(s, node, key) && Enabled(s, step) && Keeps(s, step, key)
    ensures !CarriesOld(Exec(s, step), node, key, pid) && Current(Exec(s, step), key) == Current(s, key)
    ensures ReturnsCurrent(s, node, key, pid) ==> ReturnsCurrent(Exec(s, step), node, key, pid)
  {
    assert !CarriesOld(s, node, key, pid);
  }

  lemma StepKeepsLevels(s: State, step: Step, node: Node, key: Key)
    requires UpToDate(s, node, key) && Enabled(s, step) && Keeps(s, step, key)
    ensures UpToDate(Exec(s, step), node, key)
  {
    var t := Exec(s, step);
    forall pid ensures !CarriesOld(t, node, key, pid) { StepKeepsUpToDate(s, step, node, key, pid); }
    if step.Move? { assert !CarriesOld(s, node, key, step.pid); }
  }

  lemma {:induction false} RunKeepsUpToDate(s: State, steps: seq<Step>, node: Node, key: Key, pid: Pid)
    requires Runs(s, steps) && UpToDate(s, node, key) && AllKeep(s, steps, key) && ReturnsCurrent(s, node, key, pid)
    ensures ReturnsCurrent(Run(s, steps), node, key, pid)
    decreases |steps|
  {
    if steps != [] {
      StepKeepsUpToDate(s, steps[0], node, key, pid);
      StepKeepsLevels(s, steps[0], node, key);
      RunKeepsUpToDate(Exec(s, steps[0]), steps[1..], node, key, pid);
    }
  }

  /** The state after a node has invalidated a key: L2 first, then the node's L1. */
  function Invalidated(s: State, node: Node, key: Key): State { Exec(Exec(s, DropL2(key)), DropL1(node, key)) }

  /** In every run without a write to the key, a load that starts later on the node returns what the database holds. */
  ghost predicate StaysFresh(s: State, node: Node, key: Key, pid: Pid)
  {
    && s.history != []
    && forall steps :: Runs(s, steps) && AllKeep(s, steps, key) ==> ReturnsCurrent(Run(s, steps), node, key, pid)
  }

  /** A load about to store an old value into L2 passes it on to a load that starts then. */
  lemma OldThroughL2(s: State, node: Node, key: Key, q: Pid, pid: Pid) returns (steps: seq<Step>)
    requires CarriesOld(s, node, key, q) && s.calls[q].phase.Put? && pid !in s.calls
    ensures Runs(s, steps) && AllKeep(s, steps, key) && !ReturnsCurrent(Run(s, steps), node, key, pid)
  {
    var v, m, start := s.calls[q].phase.value, Move(pid, NO_FAULTS), Start(pid, node, Request(key, true));
    var s1 := Exec(s, Move(q, NO_FAULTS));
    var s2 := Exec(s1, start);
    var s3 := Exec(s2, m);
    assert s3.calls[pid].phase == Shared && Live(s3.l2, key, s3.now);
    var s4 := Exec(s3, m);
    assert s4.calls[pid].phase == Got(v);
    Prepend(s4, m, [], key);
    Prepend(s3, m, [m], key);
    Prepend(s2, m, [m, m], key);
    Prepend(s1, start, [m, m, m], key);
    Prepend(s, Move(q, NO_FAULTS), [start, m, m, m], key);
    steps := [Move(q, NO_FAULTS)] + [start, m, m, m];
  }

  /** A load about to store an old value into the node's L1 does so too. */
  lemma OldThroughL1(s: State, node: Node, key: Key, q: Pid, pid: Pid) returns (steps: seq<Step>)
    requires CarriesOld(s, node, key, q) && !s.calls[q].phase.Put? && pid !in s.calls
    ensures Runs(s, steps) && AllKeep(s, steps, key) && !ReturnsCurrent(Run(s, steps), node, key, pid)
  {
    var m, start := Move(pid, NO_FAULTS), Start(pid, node, Request(key, false));
    var s1 := Exec(s, Move(q, NO_FAULTS));
    var s2 := Exec(s1, start);
    assert Live(LevelOf(s2, node), key, s2.now);
    Prepend(s2, m, [], key);
    Prepend(s1, start, [m], key);
    Prepend(s, Move(q, NO_FAULTS), [start, m], key);
    steps := [Move(q, NO_FAULTS)] + [start, m];
  }

  lemma Prepend(s: State, step: Step, rest: seq<Step>, key: Key)
    requires s.history != [] && Enabled(s, step) && Runs(Exec(s, step), rest)
    ensures Runs(s, [step] + rest) && Run(s, [step] + rest) == Run(Exec(s, step), rest)
    ensures Keeps(s, step, key) && AllKeep(Exec(s, step), rest, key) ==> AllKeep(s, [step] + rest, key)
  {
    Paths.Prepend(Machine(), s, step, rest);
    assert ([step] + rest)[1..] == rest;
  }

  lemma DropsNothingCarried(s: State, node: Node, key: Key, q: Pid)
    requires s.history != []
    ensures CarriesOld(Invalidated(s, node, key), node, key, q) <==> CarriesOld(s, node, key, q)
  {
  }

  /**
   After a node has invalidated a key, the loads that start on it return what the database holds for as long as the
   key is not written, whatever the other nodes do, if and only if no load under way is about to store a replaced
   value: into L2 on any node, or into this node's L1.
   */
  lemma FreshIff(s: State, node: Node, key: Key, pid: Pid)
    requires s.history != [] && pid !in s.calls
    ensures StaysFresh(Invalidated(s, node, key), node, key, pid) <==> forall q :: !CarriesOld(s, node, key, q)
  {
    var t := Invalidated(s, node, key);
    forall q ensures CarriesOld(t, node, key, q) <==> CarriesOld(s, node, key, q) {
      DropsNothingCarried(s, node, key, q);
    }
    if q :| CarriesOld(t, node, key, q) {
      if t.calls[q].phase.Put? {
        var steps := OldThroughL2(t, node, key, q, pid);
      } else {
        var steps := OldThroughL1(t, node, key, q, pid);
      }
    } else {
      forall steps | Runs(t, steps) && AllKeep(t, steps, key) ensures ReturnsCurrent(Run(t, steps), node, key, pid) {
        RunKeepsUpToDate(t, steps, node, key, pid);
      }
    }
  }

  /** A load that has read 1 from the database when 2 is written: reachable, so an invalidation can be undone. */
  function Overtaken(): State
  {
    State(0, [Snapshot(0, map[0 := 1]), Snapshot(0, map[0 := 2])], map[0 := map[]], map[],
      map[0 := Call(0, Request(0, true), 0, Put(1))], 0)
  }

  const NO_FAULTS := Faults(false, false, false, false)

  /** A load on node 0 that has got to a phase, over a database that holds 1. */
  function At(phase: Phase): State
  {
    State(0, [Snapshot(0, map[0 := 1])], map[0 := map[]], map[], map[0 := Call(0, Request(0, true), 0, phase)], 0)
  }

  const EMPTY := State(0, [Snapshot(0, map[0 := 1])], map[], map[], map[], 0)
  const MOVE := Move(0, NO_FAULTS)
  const LOOKING := [Start(0, 0, Request(0, true)), MOVE, MOVE]
  const ASKING := [MOVE, MOVE, Write(map[0 := 2])]

  lemma LooksInVain()
    ensures Paths.End(Machine(), EMPTY, LOOKING) == Some(At(Recheck))
  {
    var s1 := EMPTY.(calls := map[0 := Call(0, Request(0, true), 0, Begin)]);
    assert Exec(EMPTY, LOOKING[0]) == s1;
    assert Exec(s1, MOVE) == At(Shared);
    assert Exec(At(Shared), MOVE) == At(Recheck);
    Paths.Three(Machine(), EMPTY, LOOKING[0], s1, MOVE, At(Shared), MOVE, At(Recheck));
  }

  lemma AsksTooEarly()
    ensures Paths.End(Machine(), At(Recheck), ASKING) == Some(Overtaken())
  {
    assert Exec(At(Recheck), MOVE) == At(Query);
    assert Exec(At(Query), MOVE) == At(Put(1));
    assert Exec(At(Put(1)), ASKING[2]) == Overtaken();
    Paths.Three(Machine(), At(Recheck), MOVE, At(Query), MOVE, At(Put(1)), ASKING[2], Overtaken());
  }

  lemma OvertakenReachable()
    ensures Init(EMPTY) && Runs(EMPTY, LOOKING + ASKING) && Run(EMPTY, LOOKING + ASKING) == Overtaken()
  {
    LooksInVain();
    AsksTooEarly();
    Paths.Concat(Machine(), EMPTY, LOOKING, ASKING);
  }

  /** In that state an invalidation does not help: some load that starts later returns 1 where the database holds 2. */
  lemma StaleAfterInvalidate()
    ensures !StaysFresh(Invalidated(Overtaken(), 0, 0), 0, 0, 1)
  {
    assert CarriesOld(Overtaken(), 0, 0, 0);
    FreshIff(Overtaken(), 0, 0, 1);
  }
}
