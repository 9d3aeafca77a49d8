/**
 The per-second counter updated without locks: each atomic load, compare-and-swap, add and store of
 UnixAggregation.Record is one step, and the steps of any number of concurrent calls interleave freely.
 */
module LockFreeCounter {
  import opened Common
  import opened Counter
  import Paths

  type Tid = nat

  datatype Pc = Loading | Loaded(u: int) | Adding | StoringSuccess | StoringError | StoringUnix | Returned

  datatype Call = Call(ts: int, event: Event, pc: Pc)

  /**
   Shared counters and calls in progress. History: `base`, the last value of unix that is not the
   sentinel; the call in the reset section; which calls are counted in each counter; and what each
   counter still holds from before the run.
   */
  datatype State = State(unix: int, success: int, error: int, calls: map<Tid, Call>,
                         base: int, resetter: Option<Tid>, successBy: set<Tid>, errorBy: set<Tid>,
                         success0: nat, error0: nat)

  datatype Step =
    | Begin(tid: Tid, ts: int, event: Event)
    | Load(tid: Tid)
    | Decide(tid: Tid)
    | Add(tid: Tid)
    | StoreSuccess(tid: Tid)
    | StoreError(tid: Tid)
    | StoreUnix(tid: Tid)

  predicate Enabled(s: State, step: Step)
  {
    if step.Begin? then step.tid !in s.calls && step.ts >= 0
    else step.tid in s.calls && match step
      case Load(tid) => s.calls[tid].pc == Loading
      case Decide(tid) => s.calls[tid].pc.Loaded?
      case Add(tid) => s.calls[tid].pc == Adding
      case StoreSuccess(tid) => s.calls[tid].pc == StoringSuccess
      case StoreError(tid) => s.calls[tid].pc == StoringError
      case StoreUnix(tid) => s.calls[tid].pc == StoringUnix
  }

  function Goto(s: State, tid: Tid, pc: Pc): State
    requires tid in s.calls
  {
    s.(calls := s.calls[tid := s.calls[tid].(pc := pc)])
  }

  function Exec(s: State, step: Step): State
    requires Enabled(s, step)
  {
    match step
    case Begin(tid, ts, event) => s.(calls := s.calls[tid := Call(ts, event, Loading)])
    case Load(tid) => Goto(s, tid, Loaded(s.unix))
    case Decide(tid) =>
      var c := s.calls[tid];
      if c.pc.u == c.ts then Goto(s, tid, Adding)
      else if c.pc.u > c.ts then Goto(s, tid, Returned)
      else if c.pc.u != UPDATING && s.unix == c.pc.u then
        Goto(s, tid, StoringSuccess).(unix := UPDATING, resetter := Some(tid))
      else Goto(s, tid, Loading)
    case Add(tid) =>
      var t := Goto(s, tid, Returned);
      if s.calls[tid].event == Success then t.(success := s.success + 1, successBy := s.successBy + {tid})
      else t.(error := s.error + 1, errorBy := s.errorBy + {tid})
    case StoreSuccess(tid) =>
      var hit := s.calls[tid].event == Success;
      var done := Goto(s, tid, StoringError);
      done.(success := if hit then 1 else 0, successBy := if hit then {tid} else {}, success0 := 0)
    case StoreError(tid) =>
      var hit := s.calls[tid].event == Error;
      Goto(s, tid, StoringUnix).(error := if hit then 1 else 0, errorBy := if hit then {tid} else {}, error0 := 0)
    case StoreUnix(tid) =>
      Goto(s, tid, Returned).(unix := s.calls[tid].ts, base := s.calls[tid].ts, resetter := None)
  }

  /** A bucket at rest. */
  function Initial(slot: Slot): State
  {
    State(slot.unix, slot.success, slot.error, map[], slot.unix, None, {}, {}, slot.success, slot.error)
  }

  function Machine(): (State, Step) -> Option<State>
  {
    (s, step) => if Enabled(s, step) then Some(Exec(s, step)) else None
  }

  predicate Valid(s: State, steps: seq<Step>) { Paths.End(Machine(), s, steps).Some? }

  function Final(s: State, steps: seq<Step>): State
    requires Valid(s, steps)
  {
    Paths.End(Machine(), s, steps).value
  }

  predicate Resetting(c: Call) { c.pc.StoringSuccess? || c.pc.StoringError? || c.pc.StoringUnix? }

  /** The call has performed its write to its own event's counter. */
  predicate Counted(c: Call)
  {
    || c.pc.Returned? || c.pc.StoringUnix?
    || (c.pc.StoringError? && c.event == Success)
  }

  ghost predicate SuccessOk(s: State)
  {
    && s.success == s.success0 + |s.successBy|
    && forall tid :: tid in s.successBy ==> tid in s.calls && s.calls[tid].event == Success && Counted(s.calls[tid])
  }

  ghost predicate ErrorOk(s: State)
  {
    && s.error == s.error0 + |s.errorBy|
    && forall tid :: tid in s.errorBy ==> tid in s.calls && s.calls[tid].event == Error && Counted(s.calls[tid])
  }

  ghost predicate ResetOk(s: State)
  {
    && (s.unix == if s.resetter.Some? then UPDATING else s.base)
    && (forall tid :: tid in s.calls && Resetting(s.calls[tid]) ==> s.resetter == Some(tid))
    && (s.resetter.Some? ==> s.resetter.value in s.calls && Resetting(s.calls[s.resetter.value])
                             && s.calls[s.resetter.value].ts > s.base)
  }

  ghost predicate LoadsOk(s: State)
  {
    && s.base >= 0
    && (forall tid :: tid in s.calls ==> s.calls[tid].ts >= 0)
    && (forall tid :: tid in s.calls && s.calls[tid].pc.Loaded? ==> UPDATING <= s.calls[tid].pc.u <= s.base)
  }

  ghost predicate Inv(s: State) { SuccessOk(s) && ErrorOk(s) && ResetOk(s) && LoadsOk(s) }

  lemma StepSuccess(s: State, step: Step)
    requires SuccessOk(s) && Enabled(s, step)
    ensures SuccessOk(Exec(s, step))
  {
    assert step.Add? ==> step.tid !in s.successBy;
  }

  lemma StepError(s: State, step: Step)
    requires ErrorOk(s) && Enabled(s, step)
    ensures ErrorOk(Exec(s, step))
  {
    assert step.Add? ==> step.tid !in s.errorBy;
  }

  lemma StepReset(s: State, step: Step)
    requires ResetOk(s) && LoadsOk(s) && Enabled(s, step)
    ensures ResetOk(Exec(s, step))
  {
  }

  lemma StepLoads(s: State, step: Step)
    requires ResetOk(s) && LoadsOk(s) && Enabled(s, step)
    ensures LoadsOk(Exec(s, step))
    ensures step.StoreUnix? ==> Exec(s, step).base > s.base
    ensures !step.StoreUnix? ==> Exec(s, step).base == s.base
  {
  }

  lemma StepKeepsInv(s: State, step: Step)
    requires Inv(s) && Enabled(s, step)
    ensures Inv(Exec(s, step)) && Exec(s, step).base >= s.base
    ensures step.StoreUnix? ==> Exec(s, step).base > s.base
    ensures !step.StoreUnix? ==> Exec(s, step).base == s.base
  {
    StepSuccess(s, step);
    StepError(s, step);
    StepReset(s, step);
    StepLoads(s, step);
  }

  lemma {:induction false} RunKeepsInv(s: State, steps: seq<Step>)
    requires Inv(s) && Valid(s, steps)
    ensures Inv(Final(s, steps)) && Final(s, steps).base >= s.base
    decreases steps
  {
    if steps != [] {
      StepKeepsInv(s, steps[0]);
      RunKeepsInv(Exec(s, steps[0]), steps[1..]);
    }
  }

  lemma InitialInv(slot: Slot)
    requires slot.unix >= 0
    ensures Inv(Initial(slot))
  {
  }

  /** Under every interleaving at most one call is in the reset section, and then unix holds the sentinel. */
  lemma OneResetter(slot: Slot, steps: seq<Step>, a: Tid, b: Tid)
    requires slot.unix >= 0 && Valid(Initial(slot), steps)
    requires var s := Final(Initial(slot), steps);
             a in s.calls && b in s.calls && Resetting(s.calls[a]) && Resetting(s.calls[b])
    ensures a == b && Final(Initial(slot), steps).unix == UPDATING
  {
    InitialInv(slot);
    RunKeepsInv(Initial(slot), steps);
  }

  lemma ValidConcat(s: State, a: seq<Step>, b: seq<Step>)
    requires Valid(s, a) && Valid(Final(s, a), b)
    ensures Valid(s, a + b) && Final(s, a + b) == Final(Final(s, a), b)
  {
    Paths.Concat(Machine(), s, a, b);
  }

  /**
   The values unix takes besides the sentinel never decrease, and between two moments they are equal
   exactly when no call stored a timestamp in between.
   */
  lemma {:induction false} TimestampsIncrease(slot: Slot, before: seq<Step>, steps: seq<Step>)
    requires slot.unix >= 0 && Valid(Initial(slot), before) && Valid(Final(Initial(slot), before), steps)
    ensures var s, t := Final(Initial(slot), before), Final(Final(Initial(slot), before), steps);
            s.unix != UPDATING && t.unix != UPDATING ==>
              s.unix <= t.unix && (s.unix == t.unix <==> NoStore(steps))
  {
    InitialInv(slot);
    RunKeepsInv(Initial(slot), before);
    BaseIncreases(Final(Initial(slot), before), steps);
  }

  lemma {:induction false} BaseIncreases(s: State, steps: seq<Step>)
    requires Inv(s) && Valid(s, steps)
    ensures Inv(Final(s, steps)) && s.base <= Final(s, steps).base
    ensures s.base == Final(s, steps).base <==> NoStore(steps)
    decreases steps
  {
    if steps != [] {
      StepKeepsInv(s, steps[0]);
      BaseIncreases(Exec(s, steps[0]), steps[1..]);
      StoresOf(steps);
    }
  }

  predicate NoStore(steps: seq<Step>) { forall k :: 0 <= k < |steps| ==> !steps[k].StoreUnix? }

  lemma StoresOf(steps: seq<Step>)
    requires steps != []
    ensures NoStore(steps) <==> !steps[0].StoreUnix? && NoStore(steps[1..])
  {
    assert steps == [steps[0]] + steps[1..];
  }

  /** The step makes its call count in the counter of the event: an add, or a store of its own 1. */
  predicate Writes(s: State, step: Step, event: Event)
    requires Enabled(s, step)
  {
    && (step.Add? || (step.StoreSuccess? && event == Success) || (step.StoreError? && event == Error))
    && s.calls[step.tid].event == event
  }

  /** The calls that wrote to the counter of the event during a run. */
  function Writers(s: State, steps: seq<Step>, event: Event): set<Tid>
    requires Valid(s, steps)
    decreases steps
  {
    if steps == [] then {}
    else
      (if Writes(s, steps[0], event) then {steps[0].tid} else {}) + Writers(Exec(s, steps[0]), steps[1..], event)
  }

  lemma {:induction false} OnlyWritersCounted(s: State, steps: seq<Step>)
    requires Valid(s, steps)
    ensures Final(s, steps).successBy <= s.successBy + Writers(s, steps, Success)
    ensures Final(s, steps).errorBy <= s.errorBy + Writers(s, steps, Error)
    decreases steps
  {
    if steps != [] { OnlyWritersCounted(Exec(s, steps[0]), steps[1..]); }
  }

  /** Neither counter ever exceeds what it started with plus the calls that wrote to it. */
  lemma NeverOvercounts(slot: Slot, steps: seq<Step>)
    requires slot.unix >= 0 && Valid(Initial(slot), steps)
    ensures var s0, s := Initial(slot), Final(Initial(slot), steps);
            && 0 <= s.success <= slot.success + |Writers(s0, steps, Success)|
            && 0 <= s.error <= slot.error + |Writers(s0, steps, Error)|
  {
    InitialInv(slot);
    RunKeepsInv(Initial(slot), steps);
    CarriedOver(Initial(slot), steps);
    OnlyWritersCounted(Initial(slot), steps);
    var s := Final(Initial(slot), steps);
    SubsetSize(s.successBy, Writers(Initial(slot), steps, Success));
    SubsetSize(s.errorBy, Writers(Initial(slot), steps, Error));
  }

  lemma {:induction false} CarriedOver(s: State, steps: seq<Step>)
    requires Valid(s, steps)
    ensures Final(s, steps).success0 <= s.success0 && Final(s, steps).error0 <= s.error0
    decreases steps
  {
    if steps != [] { CarriedOver(Exec(s, steps[0]), steps[1..]); }
  }

  // ------------------------------------------------------------------ one call alone, and two that interfere

  /** The steps of a call that nothing interrupts. */
  function Solo(unix: int, tid: Tid, ts: int, event: Event): seq<Step>
  {
    if unix == ts then [Begin(tid, ts, event), Load(tid), Decide(tid), Add(tid)]
    else if unix > ts then [Begin(tid, ts, event), Load(tid), Decide(tid)]
    else [Begin(tid, ts, event), Load(tid), Decide(tid)] + [StoreSuccess(tid), StoreError(tid), StoreUnix(tid)]
  }

  /** A counter after an undisturbed call: added to, kept or replaced as the stamp is equal, earlier or later. */
  function Tally(unix: int, ts: int, count: int, hit: int): int
  {
    if unix == ts then count + hit else if unix > ts then count else hit
  }

  /** The call has returned and the counters are as the sequential Record leaves them. */
  ghost predicate Recorded(s: State, t: State, tid: Tid, ts: int, event: Event)
  {
    && t.calls == s.calls[tid := Call(ts, event, Returned)]
    && t.unix == Max(s.unix, ts)
    && t.success == Tally(s.unix, ts, s.success, Hit(event, Success))
    && t.error == Tally(s.unix, ts, s.error, Hit(event, Error))
  }

  /** Whatever other calls are doing, a call that runs without interruption does what the sequential Record does. */
  lemma SoloCall(s: State, tid: Tid, ts: int, event: Event)
    requires s.unix >= 0 && ts >= 0 && tid !in s.calls
    ensures Valid(s, Solo(s.unix, tid, ts, event))
    ensures Recorded(s, Final(s, Solo(s.unix, tid, ts, event)), tid, ts, event)
    ensures s.unix < ts ==> tid in if event == Success then Final(s, Solo(s.unix, tid, ts, event)).successBy
                                   else Final(s, Solo(s.unix, tid, ts, event)).errorBy
  {
    var begin := [Begin(tid, ts, event), Load(tid), Decide(tid)];
    UnrollThree(s, begin);
    var s3 := Final(s, begin);
    if s.unix == ts {
      Unroll(s3, [Add(tid)]);
      ValidConcat(s, begin, [Add(tid)]);
      assert begin + [Add(tid)] == Solo(s.unix, tid, ts, event);
    } else if s.unix < ts {
      UnrollThree(s3, [StoreSuccess(tid), StoreError(tid), StoreUnix(tid)]);
      ValidConcat(s, begin, [StoreSuccess(tid), StoreError(tid), StoreUnix(tid)]);
    }
  }

  /** On a bucket at rest, that is the sequential counter's own function. */
  lemma SoloIsSequential(slot: Slot, ts: int, event: Event)
    requires slot.unix >= 0 && ts >= 0
    ensures Valid(Initial(slot), Solo(slot.unix, 0, ts, event))
    ensures var s, r := Final(Initial(slot), Solo(slot.unix, 0, ts, event)), SlotRecord(slot, ts, event);
            s.unix == r.unix && s.success == r.success && s.error == r.error
  {
    SoloCall(Initial(slot), 0, ts, event);
  }

  lemma UnrollThree(s: State, steps: seq<Step>)
    requires |steps| == 3 && Enabled(s, steps[0]) && Enabled(Exec(s, steps[0]), steps[1])
    requires Enabled(Exec(Exec(s, steps[0]), steps[1]), steps[2])
    ensures Valid(s, steps)
    ensures Final(s, steps) == Exec(Exec(Exec(s, steps[0]), steps[1]), steps[2])
  {
    var s1 := Exec(s, steps[0]);
    assert steps[1..][1..] == steps[2..] && steps[2..][1..] == [];
    Unroll(Exec(s1, steps[1]), steps[2..]);
    Unroll(s1, steps[1..]);
    Unroll(s, steps);
  }

  lemma Unroll(s: State, steps: seq<Step>)
    requires steps != [] && Enabled(s, steps[0]) && Valid(Exec(s, steps[0]), steps[1..])
    ensures Valid(s, steps) && Final(s, steps) == Final(Exec(s, steps[0]), steps[1..])
  {
  }
}
