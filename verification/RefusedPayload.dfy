/**
 The delivery protocol with one more failure: the pipeline that enqueues tasks is not a transaction, so Redis may
 refuse the payloads (HSET) and still apply the scores (ZADD). The caller sees an error and marks nothing.
 */
module RefusedPayload {
  import opened Common
  import opened TaskQueue
  import opened Attempts
  import opened Exposure
  import D = Delivery
  import Paths

  datatype Step = Ordinary(step: D.Step) | RefusedHSet(pid: D.Pid)

  ghost predicate CanRefuse(s: D.State, pid: D.Pid) { pid in s.procs && s.procs[pid].Scheduling? }

  ghost function Refused(s: D.State, pid: D.Pid): D.State
    requires CanRefuse(s, pid)
  {
    var p := s.procs[pid];
    s.(queue := ZAdd(s.queue, p.tasks), procs := s.procs[pid := D.Marking({}, p.cancels, p.task)])
  }

  ghost function Next(retry: D.Retry, s: D.State, step: Step): Option<D.State>
  {
    match step
    case Ordinary(o) => if D.Enabled(retry, s, o) then Some(D.Exec(retry, s, o)) else None
    case RefusedHSet(pid) => if CanRefuse(s, pid) then Some(Refused(s, pid)) else None
  }

  ghost function Machine(retry: D.Retry): (D.State, Step) -> Option<D.State> { (s, step) => Next(retry, s, step) }

  // ------------------------------------------------------------------ one refusal

  lemma RefusalKeepsKnown(s: D.State, pid: D.Pid)
    requires Known(s) && CanRefuse(s, pid)
    ensures Known(Refused(s, pid))
  {
    var t := Refused(s, pid);
    assert KnownProc(s, s.procs[pid]);
    ZAddKeys(s.queue, s.procs[pid].tasks);
    forall other | other in t.procs ensures KnownProc(t, t.procs[other]) {
      if other != pid { KnownProcStable(s, t, s.procs[other]); }
    }
  }

  /** The refusal leaves this attempt's score without its payload. */
  ghost predicate Bares(s: D.State, pid: D.Pid, id: Id)
    requires CanRefuse(s, pid)
  {
    id in TaskIds(s.procs[pid].tasks) && id !in s.queue.data
  }

  /** A refusal exposes exactly the attempts whose payload is not stored; one of payloads already stored is harmless. */
  lemma RefusalExposesIff(s: D.State, pid: D.Pid, id: Id)
    requires CanRefuse(s, pid) && !Exposed(s, id)
    ensures Exposed(Refused(s, pid), id) <==> Bares(s, pid, id)
  {
    var t := Refused(s, pid);
    ZAddKeys(s.queue, s.procs[pid].tasks);
    if !Bares(s, pid, id) {
      forall other | other in t.procs ensures !Exposes(t, t.procs[other], id) {
        if other != pid { StaysUnexposed(s, t, s.procs[other], id); }
      }
    }
  }

  // ------------------------------------------------------------------ whole runs

  /** Some refusal of the run left the attempt's score without its payload. */
  ghost predicate BaredIn(retry: D.Retry, s: D.State, steps: seq<Step>, id: Id)
    decreases |steps|
  {
    && steps != [] && Next(retry, s, steps[0]).Some?
    && (|| (steps[0].RefusedHSet? && Bares(s, steps[0].pid, id))
        || BaredIn(retry, Next(retry, s, steps[0]).value, steps[1..], id))
  }

  lemma NextKeepsKnown(retry: D.Retry, s: D.State, step: Step)
    requires Known(s) && Next(retry, s, step).Some?
    ensures Known(Next(retry, s, step).value) && RowsStay(s, Next(retry, s, step).value)
  {
    match step
    case Ordinary(o) => StepKeepsKnown(retry, s, o); StepRows(retry, s, o);
    case RefusedHSet(pid) => RefusalKeepsKnown(s, pid);
  }

  lemma {:induction false} OnlyBaredAreLost(retry: D.Retry, s: D.State, steps: seq<Step>, id: Id)
    requires Known(s) && (Terminal(s.rows, id) || !Exposed(s, id)) && Paths.End(Machine(retry), s, steps).Some?
    requires Lost(Paths.End(Machine(retry), s, steps).value, id)
    ensures BaredIn(retry, s, steps, id)
    decreases |steps|
  {
    if steps == [] {
      LostIsExposed(s, id);
    } else {
      var t := Next(retry, s, steps[0]).value;
      NextKeepsKnown(retry, s, steps[0]);
      if !Terminal(t.rows, id) {
        if steps[0].Ordinary? {
          StepKeepsUnexposed(retry, s, steps[0].step, id);
        } else {
          RefusalExposesIff(s, steps[0].pid, id);
        }
      }
      if Terminal(t.rows, id) || !Exposed(t, id) { OnlyBaredAreLost(retry, t, steps[1..], id); }
    }
  }

  /** An attempt is lost only if Redis applied its score and refused its payload while none was stored. */
  lemma OnlyRefusalLoses(retry: D.Retry, steps: seq<Step>, id: Id)
    requires var t := Paths.End(Machine(retry), D.EMPTY, steps); t.Some? && Lost(t.value, id)
    ensures BaredIn(retry, D.EMPTY, steps, id)
  {
    UnknownUnexposed(D.EMPTY, id);
    OnlyBaredAreLost(retry, D.EMPTY, steps, id);
  }

  /** No run loses an attempt, with or without refused payloads among its failures. */
  ghost predicate NeverLoses(retry: D.Retry, refusals: bool)
  {
    forall steps, id :: refusals || AllOrdinary(steps) ==> !LosesIn(retry, steps, id)
  }

  ghost predicate AllOrdinary(steps: seq<Step>) { forall i :: 0 <= i < |steps| ==> steps[i].Ordinary? }

  ghost predicate LosesIn(retry: D.Retry, steps: seq<Step>, id: Id)
  {
    var t := Paths.End(Machine(retry), D.EMPTY, steps); t.Some? && Lost(t.value, id)
  }

  lemma {:induction false} OrdinaryBaresNone(retry: D.Retry, s: D.State, steps: seq<Step>, id: Id)
    requires AllOrdinary(steps)
    ensures !BaredIn(retry, s, steps, id)
    decreases |steps|
  {
    if steps != [] && Next(retry, s, steps[0]).Some? {
      OrdinaryBaresNone(retry, Next(retry, s, steps[0]).value, steps[1..], id);
    }
  }

  /** A path of the protocol is a path with more failures allowed. */
  function Widened(steps: seq<D.Step>): seq<Step> { seq(|steps|, i requires 0 <= i < |steps| => Ordinary(steps[i])) }

  lemma {:induction false} WidenedPath(retry: D.Retry, s: D.State, steps: seq<D.Step>)
    ensures Paths.End(Machine(retry), s, Widened(steps)) == Paths.End(D.Machine(retry), s, steps)
    decreases |steps|
  {
    if steps != [] {
      assert Widened(steps)[1..] == Widened(steps[1..]);
      if D.Enabled(retry, s, steps[0]) { WidenedPath(retry, D.Exec(retry, s, steps[0]), steps[1..]); }
    }
  }

  // ------------------------------------------------------------------ a refusal that loses, for every configuration

  /** One attempt for an endpoint, after the time its first delay asks for. */
  function FirstRow(retry: D.Retry, e: Id): Row
    requires retry(e) != []
  {
    Row(1, e, 1, 1000 * retry(e)[0], Init, false)
  }

  lemma Dispatched(retry: D.Retry, e: Id) returns (t: D.State)
    requires retry(e) != []
    ensures Reaches(retry, D.EMPTY, t) && t.rows == map[1 := FirstRow(retry, e)] && t.queue == Queue(map[], map[])
  {
    var row := FirstRow(retry, e);
    var tasks := if row.scheduledAt < D.PRE_SCHEDULE then [TaskOf(1, row)] else [];
    var step := D.Dispatch(0, map[1 := (1, e)], tasks);
    assert D.EMPTY.rows + D.NewRows(map[1 := (1, e)], retry, 0) == map[1 := row];
    assert D.TasksFor(map[1 := row], {1}, 0, tasks) by {
      if tasks != [] { assert tasks[0] in tasks; }
    }
    t := D.Exec(retry, D.EMPTY, step);
    ReachesBy(retry, D.EMPTY, step);
  }

  /** The scan picks it, and Redis refuses its payload. */
  lemma BareScore(retry: D.Retry, e: Id) returns (s: D.State, pid: D.Pid)
    requires retry(e) != []
    ensures Reaches(retry, D.EMPTY, s) && CanRefuse(s, pid)
    ensures var t := Refused(s, pid);
            && 1 in t.rows && !Terminal(t.rows, 1)
            && 1 in t.queue.scores && t.queue.scores[1] >= 0 && 1 !in t.queue.data
  {
    var t := Dispatched(retry, e);
    s, pid := Picks(retry, t, 1);
    ReachesOn(retry, D.EMPTY, t, s);
    SingleTask(s.queue, TaskOf(1, t.rows[1]));
  }

  lemma RefusalLoses(retry: D.Retry, e: Id) returns (steps: seq<Step>)
    requires retry(e) != []
    ensures LosesIn(retry, steps, 1)
  {
    var m := Machine(retry);
    var s, pid := BareScore(retry, e);
    var t := Refused(s, pid);
    BareScoreLoses(retry, t, 1);
    var u :| Reaches(retry, t, u) && Lost(u, 1);
    var a :| Paths.End(D.Machine(retry), D.EMPTY, a) == Some(s);
    var b :| Paths.End(D.Machine(retry), t, b) == Some(u);
    WidenedPath(retry, D.EMPTY, a);
    WidenedPath(retry, t, b);
    Paths.Prepend(m, s, RefusedHSet(pid), Widened(b));
    Paths.Concat(m, D.EMPTY, Widened(a), [RefusedHSet(pid)] + Widened(b));
    steps := Widened(a) + ([RefusedHSet(pid)] + Widened(b));
  }

  /** Without a retry list no attempt is ever created. */
  lemma {:induction false} NothingCreated(retry: D.Retry, s: D.State, steps: seq<Step>)
    requires (forall e :: retry(e) == []) && s.rows == map[] && Paths.End(Machine(retry), s, steps).Some?
    ensures Paths.End(Machine(retry), s, steps).value.rows == map[]
    decreases |steps|
  {
    if steps != [] {
      NoRowAdded(retry, s, steps[0]);
      NothingCreated(retry, Next(retry, s, steps[0]).value, steps[1..]);
    }
  }

  lemma NoRowAdded(retry: D.Retry, s: D.State, step: Step)
    requires (forall e :: retry(e) == []) && s.rows == map[] && Next(retry, s, step).Some?
    ensures Next(retry, s, step).value.rows == map[]
  {
    if step.Ordinary? && step.step.Dispatch? {
      var targets := step.step.targets;
      assert forall id :: id in targets ==> retry(targets[id].1) == [];
      assert targets.Keys == {};
    }
    assert Next(retry, s, step).value.rows.Keys == {};
  }

  /**
   Every configuration that delivers at all: no attempt is lost if and only if Redis never refuses payloads whose
   scores it applies.
   */
  lemma NeverLosesIff(retry: D.Retry, refusals: bool)
    ensures NeverLoses(retry, refusals) <==> !refusals || forall e :: retry(e) == []
  {
    if !refusals {
      forall steps, id | AllOrdinary(steps) ensures !LosesIn(retry, steps, id) {
        OrdinaryBaresNone(retry, D.EMPTY, steps, id);
        if LosesIn(retry, steps, id) { OnlyRefusalLoses(retry, steps, id); }
      }
    } else if e :| retry(e) != [] {
      var steps := RefusalLoses(retry, e);
    } else {
      forall steps, id ensures !LosesIn(retry, steps, id) {
        if Paths.End(Machine(retry), D.EMPTY, steps).Some? { NothingCreated(retry, D.EMPTY, steps); }
      }
    }
  }

  lemma {:induction false} ReachableIsKnown(retry: D.Retry, s: D.State, steps: seq<Step>)
    requires Known(s) && Paths.End(Machine(retry), s, steps).Some?
    ensures Known(Paths.End(Machine(retry), s, steps).value)
    decreases |steps|
  {
    if steps != [] {
      NextKeepsKnown(retry, s, steps[0]);
      ReachableIsKnown(retry, Next(retry, s, steps[0]).value, steps[1..]);
    }
  }

  /** In every reachable state, refusals in its past, exactly the exposed unfinished attempts can be lost. */
  lemma StillLosesIff(retry: D.Retry, steps: seq<Step>, id: Id)
    requires var t := Paths.End(Machine(retry), D.EMPTY, steps);
             t.Some? && id in t.value.rows && !Terminal(t.value.rows, id)
    ensures var t := Paths.End(Machine(retry), D.EMPTY, steps).value; CanLose(retry, t, id) <==> Exposed(t, id)
  {
    ReachableIsKnown(retry, D.EMPTY, steps);
    CanLoseIff(retry, Paths.End(Machine(retry), D.EMPTY, steps).value, id);
  }
}
