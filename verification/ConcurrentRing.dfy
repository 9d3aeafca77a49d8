/**
 The ring of per-second counters under concurrent calls: each call is stamped with the clock when it begins, works on
 the slot of its stamp in atomic steps that interleave freely with those of all others, and takes its time.
 */
module ConcurrentRing {
  import opened Common
  import opened Counter
  import opened Recorder
  import opened CounterExactness
  import L = LockFreeCounter
  import Paths

  /** The slots, and as history the calls made so far, oldest first. */
  datatype State = State(clock: nat, slots: seq<L.State>, log: seq<Entry>)

  datatype Step = Tick(to: nat) | On(i: nat, step: L.Step)

  /** No call under way is older than the given number of seconds allows. */
  ghost predicate InTime(s: L.State, time: int, patience: nat)
  {
    forall tid :: tid in s.calls && !s.calls[tid].pc.Returned? ==> time - s.calls[tid].ts < patience
  }

  /** Time passes only while every call under way stays shorter than `patience` seconds. */
  ghost predicate Enabled(patience: nat, s: State, step: Step)
  {
    match step
    case Tick(to) => to >= s.clock && forall i :: 0 <= i < |s.slots| ==> InTime(s.slots[i], to, patience)
    case On(i, step) =>
      && i < |s.slots| && L.Enabled(s.slots[i], step)
      && (step.Begin? ==> step.ts == s.clock && i == s.clock % |s.slots|)
  }

  ghost function Exec(patience: nat, s: State, step: Step): State
    requires Enabled(patience, s, step)
  {
    match step
    case Tick(to) => s.(clock := to)
    case On(i, step) =>
      s.(slots := s.slots[i := L.Exec(s.slots[i], step)],
         log := if step.Begin? then s.log + [Entry(s.clock, step.event)] else s.log)
  }

  ghost function Machine(patience: nat): (State, Step) -> Option<State>
  {
    (s, step) => if Enabled(patience, s, step) then Some(Exec(patience, s, step)) else None
  }

  const ZERO := Slot(0, 0, 0)

  function Start(size: nat, clock: nat): State { State(clock, seq(size, _ => L.Initial(ZERO)), []) }

  ghost predicate Quiet(s: L.State) { forall tid :: tid in s.calls ==> s.calls[tid].pc.Returned? }

  ghost predicate Holds(s: L.State, slot: Slot)
  {
    s.unix == slot.unix && s.success == slot.success && s.error == slot.error
  }

  // ------------------------------------------------------------------ the invariant

  /** The calls made on a slot with a stamp and an event. */
  function CallsAt(s: L.State, ts: int, event: Event): set<L.Tid>
  {
    set tid | tid in s.calls && s.calls[tid].ts == ts && s.calls[tid].event == event
  }

  ghost predicate LogMatches(size: nat, log: seq<Entry>, i: nat, s: L.State)
    requires size > 0
  {
    forall ts: int, event :: ts % size == i ==> |CallsAt(s, ts, event)| == CountAt(log, ts, event)
  }

  /** Slot i is on its way to the latest second m stamped for it, which every call under way carries. */
  ghost predicate SlotAt(size: nat, clock: int, i: nat, s: L.State, m: int)
    requires size > 0
  {
    && m <= clock && Tracks(ZERO, m, s) && InTime(s, clock, size)
    && (forall tid :: tid in s.calls ==> s.calls[tid].ts % size == i)
    && (forall tid :: tid in s.calls && !s.calls[tid].pc.Returned? ==> s.calls[tid].ts == m)
    && (m == 0 || exists tid :: tid in s.calls && s.calls[tid].ts == m)
  }

  ghost predicate SlotInv(size: nat, clock: int, i: nat, s: L.State)
    requires size > 0
  {
    exists m :: SlotAt(size, clock, i, s, m)
  }

  ghost predicate Inv(size: nat, s: State)
  {
    && size > 0 && |s.slots| == size
    && forall i :: 0 <= i < size ==> SlotInv(size, s.clock, i, s.slots[i]) && LogMatches(size, s.log, i, s.slots[i])
  }

  /** Stamps of one slot that lie less than a turn of the ring apart are equal. */
  lemma SameTurn(size: nat, a: int, b: int)
    requires a <= b < a + size && a % size == b % size
    ensures a == b
  {
    var turns := b / size - a / size;
    assert b - a == size * turns;
    assert turns <= 0 || size * turns >= size;
    assert turns >= 0 || size * turns <= -1 * size;
  }

  /** A call that begins on a quiet slot moves it on to the call's own second. */
  lemma TracksLater(m: int, ts: int, s: L.State)
    requires Tracks(ZERO, m, s) && Quiet(s) && m <= ts
    ensures Tracks(ZERO, ts, s)
  {
  }

  lemma BeginSlot(size: nat, clock: nat, i: nat, s: L.State, m: int, step: L.Step)
    requires size > 0 && SlotAt(size, clock, i, s, m)
    requires step.Begin? && L.Enabled(s, step) && step.ts == clock && clock % size == i
    ensures SlotAt(size, clock, i, L.Exec(s, step), clock)
  {
    var t := L.Exec(s, step);
    if tid :| tid in s.calls && !s.calls[tid].pc.Returned? {
      SameTurn(size, m, clock);
    } else {
      TracksLater(m, clock, s);
    }
    StepTracks(ZERO, clock, s, step);
    assert t.calls[step.tid].ts == clock;
  }

  /** Any other step leaves stamps and events as they are, and brings no call back under way. */
  lemma StepCalls(s: L.State, step: L.Step)
    requires L.Enabled(s, step) && !step.Begin?
    ensures var t := L.Exec(s, step);
            && t.calls.Keys == s.calls.Keys
            && forall tid :: tid in s.calls ==>
                 && t.calls[tid].ts == s.calls[tid].ts && t.calls[tid].event == s.calls[tid].event
                 && (s.calls[tid].pc.Returned? ==> t.calls[tid].pc.Returned?)
  {
  }

  lemma StepSlot(size: nat, clock: nat, i: nat, s: L.State, m: int, step: L.Step)
    requires size > 0 && SlotAt(size, clock, i, s, m) && L.Enabled(s, step) && !step.Begin?
    ensures SlotAt(size, clock, i, L.Exec(s, step), m)
  {
    StepCalls(s, step);
    StepTracks(ZERO, m, s, step);
    if m != 0 {
      var tid :| tid in s.calls && s.calls[tid].ts == m;
      assert L.Exec(s, step).calls[tid].ts == m;
    }
  }

  lemma BeginLog(size: nat, log: seq<Entry>, i: nat, s: L.State, step: L.Step, clock: nat)
    requires size > 0 && LogMatches(size, log, i, s)
    requires step.Begin? && L.Enabled(s, step) && step.ts == clock && clock % size == i
    ensures LogMatches(size, log + [Entry(clock, step.event)], i, L.Exec(s, step))
  {
    var t := L.Exec(s, step);
    forall ts: int, event | ts % size == i
      ensures |CallsAt(t, ts, event)| == CountAt(log + [Entry(clock, step.event)], ts, event)
    {
      CountAppend(log, Entry(clock, step.event), ts, event);
      if ts == clock && event == step.event {
        assert CallsAt(t, ts, event) == CallsAt(s, ts, event) + {step.tid};
      } else {
        assert CallsAt(t, ts, event) == CallsAt(s, ts, event);
      }
    }
  }

  /** A call on another slot is no entry of this one. */
  lemma OtherLog(size: nat, log: seq<Entry>, i: nat, s: L.State, e: Entry)
    requires size > 0 && LogMatches(size, log, i, s) && e.ts % size != i
    ensures LogMatches(size, log + [e], i, s)
  {
    forall ts: int, event | ts % size == i ensures |CallsAt(s, ts, event)| == CountAt(log + [e], ts, event) {
      CountAppend(log, e, ts, event);
    }
  }

  lemma StepLog(size: nat, log: seq<Entry>, i: nat, s: L.State, step: L.Step)
    requires size > 0 && LogMatches(size, log, i, s) && L.Enabled(s, step) && !step.Begin?
    ensures LogMatches(size, log, i, L.Exec(s, step))
  {
    var t := L.Exec(s, step);
    StepCalls(s, step);
    forall ts: int, event | ts % size == i ensures |CallsAt(t, ts, event)| == CountAt(log, ts, event) {
      assert CallsAt(t, ts, event) == CallsAt(s, ts, event);
    }
  }

  /** The slot a call works on. */
  lemma OwnSlot(size: nat, s: State, i: nat, step: L.Step)
    requires Inv(size, s) && i < size && L.Enabled(s.slots[i], step)
    requires step.Begin? ==> step.ts == s.clock && i == s.clock % size
    ensures SlotInv(size, s.clock, i, L.Exec(s.slots[i], step))
    ensures LogMatches(size, if step.Begin? then s.log + [Entry(s.clock, step.event)] else s.log, i,
                       L.Exec(s.slots[i], step))
  {
    var m :| SlotAt(size, s.clock, i, s.slots[i], m);
    if step.Begin? {
      BeginSlot(size, s.clock, i, s.slots[i], m, step);
      BeginLog(size, s.log, i, s.slots[i], step, s.clock);
    } else {
      StepSlot(size, s.clock, i, s.slots[i], m, step);
      StepLog(size, s.log, i, s.slots[i], step);
    }
  }

  lemma TickSlot(size: nat, clock: int, to: int, i: nat, s: L.State)
    requires size > 0 && SlotInv(size, clock, i, s) && clock <= to && InTime(s, to, size)
    ensures SlotInv(size, to, i, s)
  {
    var m :| SlotAt(size, clock, i, s, m);
    assert SlotAt(size, to, i, s, m);
  }

  lemma StepKeepsInv(size: nat, patience: nat, s: State, step: Step)
    requires Inv(size, s) && Enabled(patience, s, step) && patience <= size
    ensures Inv(size, Exec(patience, s, step))
  {
    var t := Exec(patience, s, step);
    forall j | 0 <= j < size
      ensures SlotInv(size, t.clock, j, t.slots[j]) && LogMatches(size, t.log, j, t.slots[j])
    {
      if step.Tick? {
        assert InTime(s.slots[j], step.to, patience);
        TickSlot(size, s.clock, step.to, j, s.slots[j]);
      } else if j == step.i {
        OwnSlot(size, s, j, step.step);
      } else if step.step.Begin? {
        OtherLog(size, s.log, j, s.slots[j], Entry(s.clock, step.step.event));
      }
    }
  }

  lemma StartInv(size: nat, clock: nat)
    requires size > 0
    ensures Inv(size, Start(size, clock))
  {
    var s := Start(size, clock);
    L.InitialInv(ZERO);
    forall i | 0 <= i < size ensures SlotInv(size, clock, i, s.slots[i]) && LogMatches(size, [], i, s.slots[i]) {
      assert SlotAt(size, clock, i, s.slots[i], 0);
      assert forall ts, event :: CallsAt(s.slots[i], ts, event) == {};
    }
  }

  lemma {:induction false} PathKeepsInv(size: nat, patience: nat, s: State, steps: seq<Step>)
    requires Inv(size, s) && patience <= size && Paths.End(Machine(patience), s, steps).Some?
    ensures Inv(size, Paths.End(Machine(patience), s, steps).value)
    decreases |steps|
  {
    if steps != [] {
      StepKeepsInv(size, patience, s, steps[0]);
      PathKeepsInv(size, patience, Exec(patience, s, steps[0]), steps[1..]);
    }
  }

  // ------------------------------------------------------------------ short calls are counted exactly

  lemma {:induction false} LoggedAt(log: seq<Entry>, e: Entry)
    requires e in log
    ensures CountAt(log, e.ts, e.event) >= 1
  {
    if e != log[|log| - 1] { LoggedAt(log[..|log| - 1], e); }
  }

  /** A call on a slot is in the log, and an entry for the slot is a call on it. */
  lemma CallLogged(size: nat, log: seq<Entry>, i: nat, s: L.State, tid: L.Tid)
    requires size > 0 && LogMatches(size, log, i, s) && tid in s.calls && s.calls[tid].ts % size == i
    ensures exists e :: e in log && e.ts == s.calls[tid].ts
  {
    var c := s.calls[tid];
    assert tid in CallsAt(s, c.ts, c.event);
    if forall e :: e in log ==> e.ts != c.ts { NothingAt(log, c.ts); }
  }

  lemma EntryCalled(size: nat, log: seq<Entry>, i: nat, s: L.State, e: Entry)
    requires size > 0 && LogMatches(size, log, i, s) && e in log && e.ts % size == i
    ensures exists tid :: tid in s.calls && s.calls[tid].ts == e.ts
  {
    LoggedAt(log, e);
    assert |CallsAt(s, e.ts, e.event)| > 0;
    var tid :| tid in CallsAt(s, e.ts, e.event);
  }

  /** A quiet slot has counted exactly the calls of its latest second. */
  lemma QuietCounts(size: nat, clock: int, i: nat, s: L.State, m: int)
    requires size > 0 && SlotAt(size, clock, i, s, m) && Quiet(s)
    ensures s.unix == m && s.success == |CallsAt(s, m, Success)| && s.error == |CallsAt(s, m, Error)|
  {
    assert s.base == m by {
      if m != 0 {
        var tid :| tid in s.calls && s.calls[tid].ts == m;
        assert s.calls[tid].pc.Returned?;
      }
    }
    assert s.successBy == CallsAt(s, m, Success);
    assert s.errorBy == CallsAt(s, m, Error);
  }

  lemma LatestLogged(size: nat, clock: int, i: nat, s: L.State, m: int, log: seq<Entry>)
    requires size > 0 && SlotAt(size, clock, i, s, m) && LogMatches(size, log, i, s)
    requires exists e :: e in log && e.ts % size == i
    ensures LatestIn(log, size, i, m)
  {
    forall e | e in log && e.ts % size == i ensures e.ts <= m { EntryCalled(size, log, i, s, e); }
    var e :| e in log && e.ts % size == i;
    EntryCalled(size, log, i, s, e);
    var tid :| tid in s.calls && s.calls[tid].ts == m;
    CallLogged(size, log, i, s, tid);
  }

  lemma QuietExact(size: nat, s: State, i: nat)
    requires Inv(size, s) && i < size && Quiet(s.slots[i])
    ensures Holds(s.slots[i], Replay(size, s.log)[i])
  {
    var slot := s.slots[i];
    var m :| SlotAt(size, s.clock, i, slot, m);
    QuietCounts(size, s.clock, i, slot, m);
    RingRefinesLog(size, s.log, i);
    if exists e :: e in s.log && e.ts % size == i {
      LatestLogged(size, s.clock, i, slot, m, s.log);
    } else if tid :| tid in slot.calls {
      CallLogged(size, s.log, i, slot, tid);
    }
  }

  /**
   However the calls interleave, a slot with no call under way holds what the calls made so far leave in it one
   after the other.
   */
  ghost predicate AlwaysSequential(size: nat, patience: nat, clock: nat)
    requires size > 0
  {
    forall steps :: var t := Paths.End(Machine(patience), Start(size, clock), steps);
      t.Some? ==> Sequential(size, t.value)
  }

  ghost predicate Sequential(size: nat, s: State)
    requires size > 0
  {
    |s.slots| == size && forall i :: 0 <= i < size && Quiet(s.slots[i]) ==> Holds(s.slots[i], Replay(size, s.log)[i])
  }

  // ------------------------------------------------------------------ a call as long as a turn of the ring leaks

  function Begun(steps: seq<L.Step>, clock: nat): seq<Entry>
  {
    if steps == [] then []
    else (if steps[0].Begin? then [Entry(clock, steps[0].event)] else []) + Begun(steps[1..], clock)
  }

  function AllOn(i: nat, steps: seq<L.Step>): seq<Step> { seq(|steps|, k requires 0 <= k < |steps| => On(i, steps[k])) }

  /** Calls on one slot were run while the clock stood still. */
  function Ran(s: State, i: nat, slot: L.State, begun: seq<Entry>): State
    requires i < |s.slots|
  {
    s.(slots := s.slots[i := slot], log := s.log + begun)
  }

  lemma RanOn(s: State, i: nat, a: L.State, x: seq<Entry>, b: L.State, y: seq<Entry>)
    requires i < |s.slots|
    ensures Ran(Ran(s, i, a, x), i, b, y) == Ran(s, i, b, x + y)
  {
    assert s.slots[i := a][i := b] == s.slots[i := b];
    assert s.log + x + y == s.log + (x + y);
  }

  lemma {:induction false} SlotRun(patience: nat, s: State, i: nat, steps: seq<L.Step>)
    requires i < |s.slots| && i == s.clock % |s.slots| && L.Valid(s.slots[i], steps)
    requires forall k :: 0 <= k < |steps| && steps[k].Begin? ==> steps[k].ts == s.clock
    ensures Paths.End(Machine(patience), s, AllOn(i, steps)) ==
      Some(Ran(s, i, L.Final(s.slots[i], steps), Begun(steps, s.clock)))
    decreases |steps|
  {
    assert s.log + [] == s.log;
    if steps == [] {
      assert s.slots[i := s.slots[i]] == s.slots;
    } else {
      var slot := L.Exec(s.slots[i], steps[0]);
      var begun := if steps[0].Begin? then [Entry(s.clock, steps[0].event)] else [];
      assert Machine(patience)(s, On(i, steps[0])) == Some(Ran(s, i, slot, begun));
      assert AllOn(i, steps) == [On(i, steps[0])] + AllOn(i, steps[1..]);
      Paths.Prepend(Machine(patience), s, On(i, steps[0]), AllOn(i, steps[1..]));
      SlotRun(patience, Ran(s, i, slot, begun), i, steps[1..]);
      RanOn(s, i, slot, begun, L.Final(slot, steps[1..]), Begun(steps[1..], s.clock));
    }
  }

  lemma {:induction false} NoneBegun(steps: seq<L.Step>, clock: nat)
    requires forall k :: 0 <= k < |steps| ==> !steps[k].Begin?
    ensures Begun(steps, clock) == []
  {
    if steps != [] { NoneBegun(steps[1..], clock); }
  }

  /** A call that nothing interrupts, made now. */
  lemma RunsSolo(patience: nat, s: State, tid: L.Tid, event: Event) returns (steps: seq<Step>, slot: L.State)
    requires s.slots != []
    requires var slot := s.slots[s.clock % |s.slots|]; slot.unix >= 0 && tid !in slot.calls
    ensures L.Recorded(s.slots[s.clock % |s.slots|], slot, tid, s.clock, event)
    ensures Paths.End(Machine(patience), s, steps) ==
      Some(Ran(s, s.clock % |s.slots|, slot, [Entry(s.clock, event)]))
  {
    var i := s.clock % |s.slots|;
    var solo := L.Solo(s.slots[i].unix, tid, s.clock, event);
    L.SoloCall(s.slots[i], tid, s.clock, event);
    SlotRun(patience, s, i, solo);
    NoneBegun(solo[1..], s.clock);
    assert Begun(solo, s.clock) == [Entry(s.clock, event)] + [] == [Entry(s.clock, event)];
    steps, slot := AllOn(i, solo), L.Final(s.slots[i], solo);
  }

  /** A call that finds its own second in the slot, up to its addition. */
  lemma RunsToAdd(patience: nat, s: State, tid: L.Tid, event: Event) returns (steps: seq<Step>, slot: L.State)
    requires s.slots != []
    requires var slot := s.slots[s.clock % |s.slots|]; slot.unix == s.clock && tid !in slot.calls
    ensures var was := s.slots[s.clock % |s.slots|];
            && slot.unix == s.clock && slot.calls == was.calls[tid := L.Call(s.clock, event, L.Adding)]
    ensures Paths.End(Machine(patience), s, steps) ==
      Some(Ran(s, s.clock % |s.slots|, slot, [Entry(s.clock, event)]))
  {
    var i := s.clock % |s.slots|;
    var begin := [L.Begin(tid, s.clock, event), L.Load(tid), L.Decide(tid)];
    L.UnrollThree(s.slots[i], begin);
    SlotRun(patience, s, i, begin);
    NoneBegun(begin[1..], s.clock);
    assert Begun(begin, s.clock) == [Entry(s.clock, event)] + [] == [Entry(s.clock, event)];
    steps, slot := AllOn(i, begin), L.Final(s.slots[i], begin);
  }

  /** A turn of the ring later it is the same slot's turn. */
  lemma NextTurn(size: nat, clock: nat)
    requires size > 0
    ensures (clock + size) % size == clock % size
  {
    var turns := (clock + size) / size - clock / size - 1;
    assert size * turns == clock % size - (clock + size) % size by {
      assert size * ((clock + size) / size - clock / size - 1)
          == size * ((clock + size) / size) - size * (clock / size) - size;
    }
    assert turns <= 0 || size * turns >= size;
    assert turns >= 0 || size * turns <= -1 * size;
  }

  /** The only call under way on the slot of the clock's second, which it holds, is about to add. */
  ghost predicate AboutToAdd(size: nat, s: State, tid: L.Tid)
  {
    && size > 0 && |s.slots| == size && (forall i :: 0 <= i < size && i != s.clock % size ==> Quiet(s.slots[i]))
    && var slot := s.slots[s.clock % size];
       && slot.unix == s.clock && tid in slot.calls && slot.calls[tid] == L.Call(s.clock, Success, L.Adding)
       && (forall x :: x in slot.calls && x != tid ==> slot.calls[x].pc.Returned?) && slot.calls.Keys == {0, tid}
  }

  /** Two calls of one second, of which the second has found that second in the slot. */
  lemma TwoCalls(size: nat, patience: nat, clock: nat) returns (steps: seq<Step>, t: State)
    requires size > 0
    ensures Paths.End(Machine(patience), Start(size, clock), steps) == Some(t) && AboutToAdd(size, t, 1)
    ensures t.clock == clock && t.log == [Entry(clock, Success), Entry(clock, Success)]
  {
    var s := Start(size, clock);
    var first, a := RunsSolo(patience, s, 0, Success);
    var u := Ran(s, clock % size, a, [Entry(clock, Success)]);
    var second, b := RunsToAdd(patience, u, 1, Success);
    t := Ran(u, clock % size, b, [Entry(clock, Success)]);
    steps := first + second;
    Paths.Concat(Machine(patience), s, first, second);
  }

  /** A turn later another call resets the slot, before the call under way adds. */
  lemma Overtaken(size: nat, patience: nat, s: State) returns (steps: seq<Step>, t: State)
    requires AboutToAdd(size, s, 1) && size < patience
    ensures Paths.End(Machine(patience), s, steps) == Some(t) && |t.slots| == size
    ensures Quiet(t.slots[s.clock % size]) && t.slots[s.clock % size].success == 2
    ensures t.log == s.log + [Entry(s.clock + size, Success)]
  {
    var i := s.clock % size;
    var tick, u := Tick(s.clock + size), s.(clock := s.clock + size);
    assert Machine(patience)(s, tick) == Some(u);
    NextTurn(size, s.clock);
    var solo, slot := RunsSolo(patience, u, 2, Success);
    var v := Ran(u, i, slot, [Entry(u.clock, Success)]);
    assert slot.calls[1] == L.Call(s.clock, Success, L.Adding);
    var add := On(i, L.Add(1));
    t := Exec(patience, v, add);
    Paths.One(Machine(patience), v, add);
    Paths.Concat(Machine(patience), u, solo, [add]);
    Paths.Prepend(Machine(patience), s, tick, solo + [add]);
    steps := [tick] + (solo + [add]);
  }

  /** A second call loads the slot's second, is overtaken by a call a turn later, and adds to that call's count. */
  lemma LeakRun(size: nat, patience: nat, clock: nat) returns (steps: seq<Step>, t: State)
    requires 0 < size < patience
    ensures Paths.End(Machine(patience), Start(size, clock), steps) == Some(t) && !Sequential(size, t)
  {
    var two, s := TwoCalls(size, patience, clock);
    var rest, u := Overtaken(size, patience, s);
    Paths.Concat(Machine(patience), Start(size, clock), two, rest);
    NextTurn(size, clock);
    Overcounted(size, clock, u.log);
    steps, t := two + rest, u;
  }

  /** What the sequential ring holds after those three calls. */
  lemma Overcounted(size: nat, clock: nat, log: seq<Entry>)
    requires size > 0 && (clock + size) % size == clock % size
    requires log == [Entry(clock, Success), Entry(clock, Success)] + [Entry(clock + size, Success)]
    ensures Replay(size, log)[clock % size].success == 1
  {
    var before, last := [Entry(clock, Success), Entry(clock, Success)], Entry(clock + size, Success);
    RingRefinesLog(size, log, clock % size);
    NothingAt(before, clock + size);
    CountAppend(before, last, clock + size, Success);
    assert last in log;
  }

  // ------------------------------------------------------------------ the exact condition

  /**
   Concurrent calls always leave the ring as sequential ones would, if and only if every call is shorter than one
   turn of the ring.
   */
  lemma SequentialIff(size: nat, patience: nat, clock: nat)
    requires size > 0
    ensures AlwaysSequential(size, patience, clock) <==> patience <= size
  {
    var s := Start(size, clock);
    if patience <= size {
      forall steps | Paths.End(Machine(patience), s, steps).Some?
        ensures Sequential(size, Paths.End(Machine(patience), s, steps).value)
      {
        StartInv(size, clock);
        PathKeepsInv(size, patience, s, steps);
        var t := Paths.End(Machine(patience), s, steps).value;
        forall i | 0 <= i < size && Quiet(t.slots[i]) ensures Holds(t.slots[i], Replay(size, t.log)[i]) {
          QuietExact(size, t, i);
        }
      }
    } else {
      var steps, t := LeakRun(size, patience, clock);
    }
  }
}
