/**
 When the lock-free counter is exact: for a fixed set of calls, decided by their timestamps alone, over every
 interleaving of their atomic steps.
 */
module CounterExactness {
  import opened Common
  import opened Counter
  import opened LockFreeCounter

  datatype Planned = Planned(ts: nat, event: Event)

  /** The calls that will be made on one bucket. */
  type Plan = map<Tid, Planned>

  /** The latest of the bucket's own timestamp and the calls' stamps. */
  ghost predicate IsLatest(slot: Slot, plan: Plan, m: int)
  {
    && slot.unix <= m && (forall tid :: tid in plan ==> plan[tid].ts <= m)
    && (m == slot.unix || exists tid :: tid in plan && plan[tid].ts == m)
  }

  function Stamped(plan: Plan, m: int, event: Event): set<Tid>
  {
    set tid | tid in plan && plan[tid].ts == m && plan[tid].event == event
  }

  /** All planned calls, and no others, have been made and have returned. */
  ghost predicate Completes(s: State, plan: Plan)
  {
    && s.calls.Keys == plan.Keys
    && forall tid :: tid in plan ==> s.calls[tid] == Call(plan[tid].ts, plan[tid].event, Returned)
  }

  /** What the bucket keeps of its own counts: all of them while its timestamp is the latest, else nothing. */
  function Kept(slot: Slot, m: int, count: nat): nat { if m == slot.unix then count else 0 }

  /** The bucket holds the latest second and exactly the calls stamped with it. */
  ghost predicate Exact(slot: Slot, plan: Plan, m: int, s: State)
  {
    && s.unix == m
    && s.success == Kept(slot, m, slot.success) + |Stamped(plan, m, Success)|
    && s.error == Kept(slot, m, slot.error) + |Stamped(plan, m, Error)|
  }

  ghost predicate AlwaysExact(slot: Slot, plan: Plan, m: int)
  {
    forall steps :: Valid(Initial(slot), steps) && Completes(Final(Initial(slot), steps), plan) ==>
      Exact(slot, plan, m, Final(Initial(slot), steps))
  }

  /** The call is overtaken by a later stamp, and may find its own second already in the bucket. */
  ghost predicate CanLeak(slot: Slot, plan: Plan, m: int, a: Tid)
  {
    && a in plan && slot.unix <= plan[a].ts < m
    && (plan[a].ts == slot.unix || exists c :: c in plan && c != a && plan[c].ts == plan[a].ts)
  }

  // ------------------------------------------------------------------ enough: no call can leak

  ghost predicate Within(s: State, plan: Plan)
  {
    forall tid :: tid in s.calls ==>
      tid in plan && s.calls[tid].ts == plan[tid].ts && s.calls[tid].event == plan[tid].event
  }

  /** The bucket's timestamp is its own or that of a call that has returned. */
  ghost predicate BaseOk(slot: Slot, s: State, m: int)
  {
    && slot.unix <= s.base <= m
    && (s.base == slot.unix || exists d :: d in s.calls && s.calls[d].pc.Returned? && s.calls[d].ts == s.base)
  }

  /** Only calls of the latest second add. */
  ghost predicate AddersLatest(s: State, m: int)
  {
    forall tid :: tid in s.calls ==>
      var c := s.calls[tid]; (c.pc.Adding? || (c.pc.Loaded? && c.pc.u == c.ts)) ==> c.ts == m
  }

  /** A call that adds or has returned is no later than the bucket. */
  ghost predicate ReturnedBefore(s: State)
  {
    forall tid :: tid in s.calls && (s.calls[tid].pc.Adding? || s.calls[tid].pc.Returned?) ==> s.calls[tid].ts <= s.base
  }

  /** The bucket is at the latest second, or the reset for it has stored the success counter. */
  ghost predicate SuccessReset(s: State, m: int)
  {
    || s.base == m
    || (&& s.resetter.Some? && s.resetter.value in s.calls && s.calls[s.resetter.value].ts == m
        && (s.calls[s.resetter.value].pc.StoringError? || s.calls[s.resetter.value].pc.StoringUnix?))
  }

  /** The same of the error counter. */
  ghost predicate ErrorReset(s: State, m: int)
  {
    || s.base == m
    || (&& s.resetter.Some? && s.resetter.value in s.calls && s.calls[s.resetter.value].ts == m
        && s.calls[s.resetter.value].pc.StoringUnix?)
  }

  /** The calls of the latest second that have written are counted, and once it is reset nothing else is. */
  ghost predicate CountedIn(s: State, m: int, event: Event, counted: set<Tid>)
  {
    forall tid :: tid in s.calls && s.calls[tid].ts == m && s.calls[tid].event == event && Counted(s.calls[tid]) ==>
      tid in counted
  }

  ghost predicate OnlyLatest(s: State, m: int, counted: set<Tid>)
  {
    forall tid :: tid in counted ==> tid in s.calls && s.calls[tid].ts == m
  }

  ghost predicate SuccessExact(slot: Slot, s: State, m: int)
  {
    && CountedIn(s, m, Success, s.successBy)
    && (SuccessReset(s, m) ==> s.success0 == Kept(slot, m, slot.success) && OnlyLatest(s, m, s.successBy))
  }

  ghost predicate ErrorExact(slot: Slot, s: State, m: int)
  {
    && CountedIn(s, m, Error, s.errorBy)
    && (ErrorReset(s, m) ==> s.error0 == Kept(slot, m, slot.error) && OnlyLatest(s, m, s.errorBy))
  }

  ghost predicate NoLater(s: State, m: int) { forall tid :: tid in s.calls ==> s.calls[tid].ts <= m }

  /** The bucket is on its way to hold exactly the calls of second m. */
  ghost predicate Tracks(slot: Slot, m: int, s: State)
  {
    && Inv(s) && NoLater(s, m)
    && BaseOk(slot, s, m) && AddersLatest(s, m) && ReturnedBefore(s)
    && SuccessExact(slot, s, m) && ErrorExact(slot, s, m)
  }

  ghost predicate Ok(slot: Slot, plan: Plan, m: int, s: State) { Tracks(slot, m, s) && Within(s, plan) }

  ghost predicate Safe(slot: Slot, plan: Plan, m: int)
  {
    IsLatest(slot, plan, m) && forall a :: !CanLeak(slot, plan, m, a)
  }

  lemma StepBase(slot: Slot, m: int, s: State, step: Step)
    requires ResetOk(s) && LoadsOk(s) && BaseOk(slot, s, m) && Enabled(s, step)
    requires step.tid in s.calls ==> s.calls[step.tid].ts <= m
    ensures BaseOk(slot, Exec(s, step), m)
  {
    var t := Exec(s, step);
    StepLoads(s, step);
    if step.StoreUnix? {
      assert t.calls[step.tid].pc.Returned?;
    } else if s.base != slot.unix {
      var d :| d in s.calls && s.calls[d].pc.Returned? && s.calls[d].ts == s.base;
      assert t.calls[d] == s.calls[d];
    }
  }

  /** A step moves its own call only. */
  lemma OthersStay(s: State, step: Step, tid: Tid)
    requires Enabled(s, step) && tid != step.tid && tid in Exec(s, step).calls
    ensures tid in s.calls && Exec(s, step).calls[tid] == s.calls[tid]
  {
  }

  lemma StepperReturned(s: State, step: Step)
    requires ResetOk(s) && LoadsOk(s) && ReturnedBefore(s) && Enabled(s, step)
    ensures var t := Exec(s, step); var c := t.calls[step.tid];
            s.base <= t.base && (c.pc.Adding? || c.pc.Returned? ==> c.ts <= t.base)
  {
  }

  lemma StepReturned(s: State, step: Step)
    requires ResetOk(s) && LoadsOk(s) && ReturnedBefore(s) && Enabled(s, step)
    ensures ReturnedBefore(Exec(s, step))
  {
    var t := Exec(s, step);
    StepperReturned(s, step);
    forall tid | tid in t.calls && (t.calls[tid].pc.Adding? || t.calls[tid].pc.Returned?)
      ensures t.calls[tid].ts <= t.base
    {
      if tid != step.tid { OthersStay(s, step, tid); }
    }
  }

  /** A call that loads its own stamp carries the latest, for otherwise it could leak. */
  lemma LoadsLatest(slot: Slot, plan: Plan, m: int, s: State, tid: Tid)
    requires Safe(slot, plan, m) && Within(s, plan) && BaseOk(slot, s, m) && ResetOk(s) && LoadsOk(s)
    requires tid in s.calls && !s.calls[tid].pc.Returned? && s.unix == s.calls[tid].ts
    ensures s.calls[tid].ts == m
  {
    assert !CanLeak(slot, plan, m, tid);
  }

  lemma StepAdders(slot: Slot, plan: Plan, m: int, s: State, step: Step)
    requires Safe(slot, plan, m) && Ok(slot, plan, m, s) && Enabled(s, step)
    ensures AddersLatest(Exec(s, step), m)
  {
    var t := Exec(s, step);
    forall tid | tid in t.calls
      ensures var c := t.calls[tid]; (c.pc.Adding? || (c.pc.Loaded? && c.pc.u == c.ts)) ==> c.ts == m
    {
      if tid != step.tid {
        OthersStay(s, step, tid);
      } else if step.Load? && s.unix == s.calls[tid].ts {
        LoadsLatest(slot, plan, m, s, tid);
      }
    }
  }

  /** While one call resets, no call of the latest second but the resetter itself has written. */
  lemma ResetterAlone(slot: Slot, m: int, s: State, r: Tid, tid: Tid)
    requires Tracks(slot, m, s) && r in s.calls && Resetting(s.calls[r])
    requires tid in s.calls && tid != r && s.calls[tid].ts == m
    ensures !Counted(s.calls[tid]) && s.base < s.calls[r].ts <= m
  {
    assert s.resetter == Some(r);
  }

  /** A call that adds finds the bucket at the latest second. */
  lemma AdderAtLatest(slot: Slot, m: int, s: State, tid: Tid)
    requires Tracks(slot, m, s) && tid in s.calls && s.calls[tid].pc.Adding?
    ensures s.base == m && s.calls[tid].ts == m
  {
  }

  /** The call that steps is counted in its own event's counter when it has written to it. */
  lemma StepperCounted(s: State, step: Step, m: int)
    requires LoadsOk(s) && s.base <= m && Enabled(s, step)
    requires CountedIn(s, m, Success, s.successBy) && CountedIn(s, m, Error, s.errorBy)
    ensures var t := Exec(s, step); var c := t.calls[step.tid];
            c.ts == m && Counted(c) ==> step.tid in if c.event == Success then t.successBy else t.errorBy
  {
  }

  lemma StepSuccessCounted(slot: Slot, m: int, s: State, step: Step)
    requires Tracks(slot, m, s) && Enabled(s, step)
    ensures CountedIn(Exec(s, step), m, Success, Exec(s, step).successBy)
  {
    var t := Exec(s, step);
    StepperCounted(s, step, m);
    forall tid | tid in t.calls && t.calls[tid].ts == m && t.calls[tid].event == Success && Counted(t.calls[tid])
      ensures tid in t.successBy
    {
      if tid != step.tid {
        OthersStay(s, step, tid);
        if step.StoreSuccess? { ResetterAlone(slot, m, s, step.tid, tid); }
      }
    }
  }

  lemma StepErrorCounted(slot: Slot, m: int, s: State, step: Step)
    requires Tracks(slot, m, s) && Enabled(s, step)
    ensures CountedIn(Exec(s, step), m, Error, Exec(s, step).errorBy)
  {
    var t := Exec(s, step);
    StepperCounted(s, step, m);
    forall tid | tid in t.calls && t.calls[tid].ts == m && t.calls[tid].event == Error && Counted(t.calls[tid])
      ensures tid in t.errorBy
    {
      if tid != step.tid {
        OthersStay(s, step, tid);
        if step.StoreError? { ResetterAlone(slot, m, s, step.tid, tid); }
      }
    }
  }

  /** Once the latest second is reset, only its own calls are counted. */
  lemma StepSuccessOnly(slot: Slot, m: int, s: State, step: Step)
    requires ResetOk(s) && slot.unix <= s.base && SuccessExact(slot, s, m) && Enabled(s, step)
    requires step.tid in s.calls ==> s.calls[step.tid].ts <= m
    requires step.Add? ==> s.base == m && s.calls[step.tid].ts == m
    requires SuccessReset(Exec(s, step), m)
    ensures Exec(s, step).success0 == Kept(slot, m, slot.success)
      && OnlyLatest(Exec(s, step), m, Exec(s, step).successBy)
  {
    if !step.StoreSuccess? { assert SuccessReset(s, m); }
  }

  lemma StepErrorOnly(slot: Slot, m: int, s: State, step: Step)
    requires ResetOk(s) && slot.unix <= s.base && ErrorExact(slot, s, m) && Enabled(s, step)
    requires step.tid in s.calls ==> s.calls[step.tid].ts <= m
    requires step.Add? ==> s.base == m && s.calls[step.tid].ts == m
    requires ErrorReset(Exec(s, step), m)
    ensures Exec(s, step).error0 == Kept(slot, m, slot.error) && OnlyLatest(Exec(s, step), m, Exec(s, step).errorBy)
  {
    if !step.StoreError? { assert ErrorReset(s, m); }
  }

  lemma StepNoLater(m: int, s: State, step: Step)
    requires NoLater(s, m) && Enabled(s, step) && (step.Begin? ==> step.ts <= m)
    ensures NoLater(Exec(s, step), m)
  {
  }

  lemma StepExact(slot: Slot, m: int, s: State, step: Step)
    requires Tracks(slot, m, s) && Enabled(s, step)
    ensures SuccessExact(slot, Exec(s, step), m) && ErrorExact(slot, Exec(s, step), m)
  {
    StepSuccessCounted(slot, m, s, step);
    StepErrorCounted(slot, m, s, step);
    if step.Add? { AdderAtLatest(slot, m, s, step.tid); }
    if SuccessReset(Exec(s, step), m) { StepSuccessOnly(slot, m, s, step); }
    if ErrorReset(Exec(s, step), m) { StepErrorOnly(slot, m, s, step); }
  }

  /** A step of a call that is no later keeps the bucket on its way, if only calls of second m go on to add. */
  lemma StepTracks(slot: Slot, m: int, s: State, step: Step)
    requires Tracks(slot, m, s) && Enabled(s, step) && (step.Begin? ==> step.ts <= m)
    requires AddersLatest(Exec(s, step), m)
    ensures Tracks(slot, m, Exec(s, step))
  {
    StepKeepsInv(s, step);
    StepNoLater(m, s, step);
    StepBase(slot, m, s, step);
    StepReturned(s, step);
    StepExact(slot, m, s, step);
  }

  lemma StepKeepsOk(slot: Slot, plan: Plan, m: int, s: State, step: Step)
    requires Safe(slot, plan, m) && Ok(slot, plan, m, s) && Enabled(s, step) && Within(Exec(s, step), plan)
    ensures Ok(slot, plan, m, Exec(s, step))
  {
    assert step.Begin? ==> step.tid in Exec(s, step).calls && plan[step.tid].ts == step.ts;
    StepAdders(slot, plan, m, s, step);
    StepTracks(slot, m, s, step);
  }

  lemma {:induction false} WithinBefore(s: State, steps: seq<Step>, plan: Plan)
    requires Valid(s, steps) && Within(Final(s, steps), plan)
    ensures Within(s, plan)
    decreases steps
  {
    if steps != [] {
      var t := Exec(s, steps[0]);
      WithinBefore(t, steps[1..], plan);
      forall tid | tid in s.calls
        ensures tid in plan && s.calls[tid].ts == plan[tid].ts && s.calls[tid].event == plan[tid].event
      {
        assert t.calls[tid].ts == s.calls[tid].ts && t.calls[tid].event == s.calls[tid].event;
      }
    }
  }

  lemma {:induction false} RunKeepsOk(slot: Slot, plan: Plan, m: int, s: State, steps: seq<Step>)
    requires Safe(slot, plan, m) && Ok(slot, plan, m, s) && Valid(s, steps) && Within(Final(s, steps), plan)
    ensures Ok(slot, plan, m, Final(s, steps))
    decreases steps
  {
    if steps != [] {
      WithinBefore(Exec(s, steps[0]), steps[1..], plan);
      StepKeepsOk(slot, plan, m, s, steps[0]);
      RunKeepsOk(slot, plan, m, Exec(s, steps[0]), steps[1..]);
    }
  }

  lemma AllReturnedExact(slot: Slot, plan: Plan, m: int, s: State)
    requires IsLatest(slot, plan, m) && Ok(slot, plan, m, s) && Completes(s, plan)
    ensures Exact(slot, plan, m, s)
  {
    assert s.base == m by {
      if m != slot.unix {
        var tid :| tid in plan && plan[tid].ts == m;
        assert s.calls[tid].ts <= s.base;
      }
    }
    assert s.successBy == Stamped(plan, m, Success);
    assert s.errorBy == Stamped(plan, m, Error);
  }

  lemma SafeIsExact(slot: Slot, plan: Plan, m: int, steps: seq<Step>)
    requires slot.unix >= 0 && Safe(slot, plan, m)
    requires Valid(Initial(slot), steps) && Completes(Final(Initial(slot), steps), plan)
    ensures Exact(slot, plan, m, Final(Initial(slot), steps))
  {
    InitialInv(slot);
    RunKeepsOk(slot, plan, m, Initial(slot), steps);
    AllReturnedExact(slot, plan, m, Final(Initial(slot), steps));
  }

  // ------------------------------------------------------------------ needed: a call that can leak does

  /** The planned calls of a set that carry the latest stamp. */
  function Among(plan: Plan, rest: set<Tid>, m: int, event: Event): set<Tid>
  {
    set tid | tid in rest && tid in plan && plan[tid].ts == m && plan[tid].event == event
  }

  /** The calls of a set have been made one after the other on a bucket at the latest second. */
  ghost predicate RanAll(s: State, t: State, plan: Plan, rest: set<Tid>, m: int)
  {
    && t.unix == m
    && t.calls.Keys == s.calls.Keys + rest
    && (forall tid :: tid in s.calls ==> tid in t.calls && t.calls[tid] == s.calls[tid])
    && (forall tid :: tid in rest && tid in plan ==>
          tid in t.calls && t.calls[tid] == Call(plan[tid].ts, plan[tid].event, Returned))
    && t.success == s.success + |Among(plan, rest, m, Success)|
    && t.error == s.error + |Among(plan, rest, m, Error)|
  }

  lemma AmongSplits(plan: Plan, rest: set<Tid>, tid: Tid, m: int, event: Event)
    requires tid in rest && tid in plan
    ensures |Among(plan, rest, m, event)| == |Among(plan, rest - {tid}, m, event)|
      + if plan[tid].ts == m && plan[tid].event == event then 1 else 0
  {
    var less := Among(plan, rest - {tid}, m, event);
    if plan[tid].ts == m && plan[tid].event == event {
      assert Among(plan, rest, m, event) == less + {tid};
    } else {
      assert Among(plan, rest, m, event) == less;
    }
  }

  lemma {:induction false} RunRest(s: State, plan: Plan, rest: set<Tid>, m: int) returns (steps: seq<Step>)
    requires m >= 0 && s.unix == m && rest <= plan.Keys && rest !! s.calls.Keys
    requires forall tid :: tid in plan ==> plan[tid].ts <= m
    ensures Valid(s, steps) && RanAll(s, Final(s, steps), plan, rest, m)
    decreases rest
  {
    if rest == {} {
      steps := [];
    } else {
      var tid :| tid in rest;
      var solo := Solo(s.unix, tid, plan[tid].ts, plan[tid].event);
      SoloCall(s, tid, plan[tid].ts, plan[tid].event);
      var t := Final(s, solo);
      var more := RunRest(t, plan, rest - {tid}, m);
      ValidConcat(s, solo, more);
      steps := solo + more;
      RanOneMore(s, t, Final(t, more), plan, rest, tid, m);
    }
  }

  lemma RanOneMore(s: State, t: State, u: State, plan: Plan, rest: set<Tid>, tid: Tid, m: int)
    requires s.unix == m && tid in rest && rest <= plan.Keys && rest !! s.calls.Keys && plan[tid].ts <= m
    requires Recorded(s, t, tid, plan[tid].ts, plan[tid].event) && RanAll(t, u, plan, rest - {tid}, m)
    ensures RanAll(s, u, plan, rest, m)
  {
    AmongSplits(plan, rest, tid, m, Success);
    AmongSplits(plan, rest, tid, m, Error);
  }

  /** The bucket is brought to the second of the call that leaks, if it is not there. */
  lemma BringTo(slot: Slot, plan: Plan, m: int, a: Tid) returns (steps: seq<Step>)
    requires slot.unix >= 0 && CanLeak(slot, plan, m, a)
    ensures Valid(Initial(slot), steps)
    ensures var s := Final(Initial(slot), steps);
            && s.unix == plan[a].ts && s.calls.Keys <= plan.Keys - {a}
            && forall tid :: tid in s.calls ==>
              s.calls[tid] == Call(plan[tid].ts, plan[tid].event, Returned) && plan[tid].ts < m
  {
    if plan[a].ts == slot.unix {
      steps := [];
    } else {
      var c :| c in plan && c != a && plan[c].ts == plan[a].ts;
      steps := Solo(slot.unix, c, plan[c].ts, plan[c].event);
      SoloCall(Initial(slot), c, plan[c].ts, plan[c].event);
    }
  }

  /**
   It loads its second and is about to add when the call with the latest stamp resets the bucket, and adds after that.
   */
  lemma Overtake(s: State, a: Tid, ts: int, event: Event, top: Tid, m: int, latest: Event) returns (steps: seq<Step>)
    requires s.unix == ts && 0 <= ts < m && a !in s.calls && top !in s.calls && a != top
    ensures Valid(s, steps)
    ensures var t := Final(s, steps);
            && t.unix == m
            && t.calls == s.calls[a := Call(ts, event, Returned)][top := Call(m, latest, Returned)]
            && t.success == Hit(latest, Success) + Hit(event, Success)
            && t.error == Hit(latest, Error) + Hit(event, Error)
  {
    var begin := [Begin(a, ts, event), Load(a), Decide(a)];
    UnrollThree(s, begin);
    var s1 := Final(s, begin);
    assert s1.calls == s.calls[a := Call(ts, event, Adding)] && s1.unix == ts;
    var solo := Solo(s1.unix, top, m, latest);
    SoloCall(s1, top, m, latest);
    var s2 := Final(s1, solo);
    Unroll(s2, [Add(a)]);
    ValidConcat(s, begin, solo);
    ValidConcat(s, begin + solo, [Add(a)]);
    steps := begin + solo + [Add(a)];
    assert Final(s, steps) == Exec(s2, Add(a));
  }

  /** A call that can leak is counted one time too many in some interleaving. */
  lemma LeakRun(slot: Slot, plan: Plan, m: int, a: Tid) returns (steps: seq<Step>)
    requires slot.unix >= 0 && IsLatest(slot, plan, m) && CanLeak(slot, plan, m, a)
    ensures Valid(Initial(slot), steps) && Completes(Final(Initial(slot), steps), plan)
    ensures !Exact(slot, plan, m, Final(Initial(slot), steps))
  {
    var s0 := Initial(slot);
    var top :| top in plan && plan[top].ts == m;
    var bring := BringTo(slot, plan, m, a);
    var s1 := Final(s0, bring);
    assert top !in s1.calls;
    var overtake := Overtake(s1, a, plan[a].ts, plan[a].event, top, m, plan[top].event);
    var s2 := Final(s1, overtake);
    assert Overtaken(plan, m, a, top, s2);
    var others := RunRest(s2, plan, plan.Keys - s2.calls.Keys, m);
    ValidConcat(s0, bring, overtake);
    ValidConcat(s0, bring + overtake, others);
    steps := bring + overtake + others;
    LeakCounted(slot, plan, m, a, top, s2, Final(s2, others));
  }

  /** The calls made before the rest: returned, and of the latest second only the overtaking one. */
  ghost predicate Overtaken(plan: Plan, m: int, a: Tid, top: Tid, s: State)
  {
    && a in plan && top in plan && plan[top].ts == m && top in s.calls && s.calls.Keys <= plan.Keys
    && (forall tid :: tid in s.calls ==> s.calls[tid] == Call(plan[tid].ts, plan[tid].event, Returned))
    && (forall tid :: tid in s.calls && plan[tid].ts == m ==> tid == top)
    && s.success == Hit(plan[top].event, Success) + Hit(plan[a].event, Success)
    && s.error == Hit(plan[top].event, Error) + Hit(plan[a].event, Error)
  }

  lemma LeakCounted(slot: Slot, plan: Plan, m: int, a: Tid, top: Tid, s: State, t: State)
    requires slot.unix < m && Overtaken(plan, m, a, top, s) && RanAll(s, t, plan, plan.Keys - s.calls.Keys, m)
    ensures Completes(t, plan) && !Exact(slot, plan, m, t)
  {
    LeftToCount(plan, plan.Keys - s.calls.Keys, top, m, Success);
    LeftToCount(plan, plan.Keys - s.calls.Keys, top, m, Error);
  }

  /** The calls of the latest second are the overtaking one and those made after it. */
  lemma LeftToCount(plan: Plan, rest: set<Tid>, top: Tid, m: int, event: Event)
    requires top in plan && plan[top].ts == m && top !in rest
    requires forall tid :: tid in plan && plan[tid].ts == m && tid != top ==> tid in rest
    ensures |Stamped(plan, m, event)| == |Among(plan, rest, m, event)| + Hit(plan[top].event, event)
  {
    if plan[top].event == event {
      assert Stamped(plan, m, event) == Among(plan, rest, m, event) + {top};
    } else {
      assert Stamped(plan, m, event) == Among(plan, rest, m, event);
    }
  }

  // ------------------------------------------------------------------ the exact condition

  /**
   Every interleaving of a set of calls ends with the latest second and exactly the calls stamped with it, if and
   only if no call with an earlier stamp, not before the bucket's own, equals the bucket's timestamp or shares its
   stamp with another call.
   */
  lemma ExactIff(slot: Slot, plan: Plan, m: int)
    requires slot.unix >= 0 && IsLatest(slot, plan, m)
    ensures AlwaysExact(slot, plan, m) <==> forall a :: !CanLeak(slot, plan, m, a)
  {
    if forall a :: !CanLeak(slot, plan, m, a) {
      forall steps | Valid(Initial(slot), steps) && Completes(Final(Initial(slot), steps), plan)
        ensures Exact(slot, plan, m, Final(Initial(slot), steps))
      {
        SafeIsExact(slot, plan, m, steps);
      }
    } else {
      var a :| CanLeak(slot, plan, m, a);
      var steps := LeakRun(slot, plan, m, a);
    }
  }

  /** If all calls carry one timestamp later than the bucket's, none is lost once all have returned. */
  lemma NothingLost(slot: Slot, plan: Plan, ts: int, steps: seq<Step>)
    requires 0 <= slot.unix < ts && plan != map[] && forall tid :: tid in plan ==> plan[tid].ts == ts
    requires Valid(Initial(slot), steps) && Completes(Final(Initial(slot), steps), plan)
    ensures var s := Final(Initial(slot), steps);
            s.unix == ts && s.success == |Stamped(plan, ts, Success)| && s.error == |Stamped(plan, ts, Error)|
  {
    var tid :| tid in plan;
    SafeIsExact(slot, plan, ts, steps);
  }

  /** Two calls with different stamps are enough for a leak: the first stamp is the bucket's own. */
  lemma LeakAcrossReset()
    ensures !AlwaysExact(Slot(1, 0, 0), map[0 := Planned(1, Success), 1 := Planned(2, Success)], 2)
  {
    var slot, plan: Plan := Slot(1, 0, 0), map[0 := Planned(1, Success), 1 := Planned(2, Success)];
    assert 1 in plan && plan[1].ts == 2;
    assert CanLeak(slot, plan, 2, 0);
    ExactIff(slot, plan, 2);
  }

  // ------------------------------------------------------------------ snapshots

  /** What a counter holds belongs to second u: its calls carry that stamp, and its carried-over counts are of u. */
  ghost predicate Belongs(slot: Slot, s: State, u: int, counted: set<Tid>, carried: nat)
  {
    OnlyLatest(s, u, counted) && (carried == 0 || u == slot.unix)
  }

  /**
   A snapshot loads unix in one state, the success counter in a later one and the error counter in a later one still.
   */
  ghost predicate Untorn(slot: Slot, s0: State, s1: State, s2: State)
  {
    Belongs(slot, s1, s0.unix, s1.successBy, s1.success0) && Belongs(slot, s2, s0.unix, s2.errorBy, s2.error0)
  }

  /** Whenever a snapshot is taken while calls of the plan run, its counters belong to its second. */
  ghost predicate NeverTorn(slot: Slot, plan: Plan)
  {
    forall a, b, c :: Snapshots(slot, plan, a, b, c) ==>
      Untorn(slot, Final(Initial(slot), a), Final(Initial(slot), a + b), Final(Initial(slot), a + b + c))
  }

  /** The steps before each of the three loads; the first load found no reset under way. */
  ghost predicate Snapshots(slot: Slot, plan: Plan, a: seq<Step>, b: seq<Step>, c: seq<Step>)
  {
    && Valid(Initial(slot), a) && Valid(Initial(slot), a + b) && Valid(Initial(slot), a + b + c)
    && Final(Initial(slot), a).unix != UPDATING && Within(Final(Initial(slot), a + b + c), plan)
  }

  lemma {:induction false} PrefixWithin(slot: Slot, plan: Plan, s: State, a: seq<Step>, b: seq<Step>)
    requires Valid(s, a) && Valid(s, a + b) && Within(Final(s, a + b), plan)
    ensures Within(Final(s, a), plan)
    decreases a
  {
    if a == [] {
      assert a + b == b;
      WithinBefore(s, b, plan);
    } else {
      assert (a + b)[0] == a[0] && (a + b)[1..] == a[1..] + b;
      PrefixWithin(slot, plan, Exec(s, a[0]), a[1..], b);
    }
  }

  lemma QuietSecond(slot: Slot, plan: Plan, steps: seq<Step>)
    requires slot.unix >= 0 && forall tid :: tid in plan ==> plan[tid].ts <= slot.unix
    requires Valid(Initial(slot), steps) && Within(Final(Initial(slot), steps), plan)
    ensures var s := Final(Initial(slot), steps);
            s.unix == slot.unix && OnlyLatest(s, slot.unix, s.successBy) && OnlyLatest(s, slot.unix, s.errorBy)
  {
    InitialInv(slot);
    RunKeepsOk(slot, plan, slot.unix, Initial(slot), steps);
    var s := Final(Initial(slot), steps);
    assert forall tid :: tid in s.calls ==> s.calls[tid].ts == plan[tid].ts;
  }

  /**
   A snapshot can pair a second with another second's counts exactly when some call is stamped later than the
   bucket: that call may reset the bucket between the loads.
   */
  lemma UntornIff(slot: Slot, plan: Plan)
    requires slot.unix >= 0
    ensures NeverTorn(slot, plan) <==> forall tid :: tid in plan ==> plan[tid].ts <= slot.unix
  {
    if forall tid :: tid in plan ==> plan[tid].ts <= slot.unix {
      forall a, b, c | Snapshots(slot, plan, a, b, c)
        ensures Untorn(slot, Final(Initial(slot), a), Final(Initial(slot), a + b), Final(Initial(slot), a + b + c))
      {
        PrefixWithin(slot, plan, Initial(slot), a + b, c);
        PrefixWithin(slot, plan, Initial(slot), a, b);
        QuietSecond(slot, plan, a);
        QuietSecond(slot, plan, a + b);
        QuietSecond(slot, plan, a + b + c);
      }
    } else {
      var late :| late in plan && plan[late].ts > slot.unix;
      var reset := Solo(slot.unix, late, plan[late].ts, plan[late].event);
      SoloCall(Initial(slot), late, plan[late].ts, plan[late].event);
      assert [] + reset == reset && reset + [] == reset;
      assert Snapshots(slot, plan, [], reset, []);
    }
  }
}
