/**
 Which unfinished attempts the delivery protocol can still lose, and which it can still finish, from a state in which
 a score may stand without its payload.
 */
module Exposure {
  import opened Common
  import opened TaskQueue
  import opened Attempts
  import opened Delivery
  import Paths

  /** An attempt that is neither finished nor INIT nor in the queue with its payload. */
  ghost predicate Lost(s: State, id: Id)
  {
    && id in s.rows && !Terminal(s.rows, id) && s.rows[id].status != Init
    && !(id in s.queue.scores && id in s.queue.data && s.queue.data[id] == PayloadOf(s.rows[id]))
  }

  // ------------------------------------------------------------------ what holds even so

  ghost predicate TimedTasks(s: State, tasks: seq<NewTask>)
  {
    TasksOk(s, tasks) && forall t :: t in tasks ==> t.at >= 0
  }

  ghost predicate ClaimKnown(s: State, id: Id, payload: Option<Payload>)
  {
    id in s.rows && (payload.Some? ==> payload.value == PayloadOf(s.rows[id]))
  }

  /** A thread speaks of existing rows, carries their own payloads, and retries only on behalf of finished ones. */
  ghost predicate KnownProc(s: State, p: Proc)
  {
    match p
    case Scheduling(tasks, _, task) => TimedTasks(s, tasks) && Handled(s, task)
    case Enqueuing(tasks, _, task) => TimedTasks(s, tasks) && Handled(s, task)
    case Marking(ids, _, task) => ids <= s.rows.Keys && Handled(s, task)
    case Fetching(claimed) => forall t :: t in claimed ==> t.score >= 0 && ClaimKnown(s, t.id, t.payload)
    case Running(id, payload) => ClaimKnown(s, id, payload)
    case Delivered(id, _, _, _, finishAt) => id in s.rows && finishAt >= 0
    case Retrying(id, _, finishAt) => Terminal(s.rows, id) && finishAt >= 0
    case Dropping(id) => id in s.rows
    case Removing(id) => id in s.rows
  }

  ghost predicate KnownStores(s: State)
  {
    && s.clock >= 0 && s.queue.scores.Keys <= s.rows.Keys && s.queue.data.Keys <= s.rows.Keys
    && (forall id :: id in s.rows ==> s.rows[id].scheduledAt >= 0)
    && (forall id :: id in s.queue.scores ==> s.queue.scores[id] >= 0)
    && (forall id :: id in s.queue.data ==> s.queue.data[id] == PayloadOf(s.rows[id]))
  }

  ghost predicate Known(s: State) { KnownStores(s) && forall pid :: pid in s.procs ==> KnownProc(s, s.procs[pid]) }

  /** Rows keep their identity, and finished rows stay finished, whatever the queue holds. */
  ghost predicate RowsStay(s: State, t: State)
  {
    && s.rows.Keys <= t.rows.Keys
    && (forall id :: id in s.rows ==> PayloadOf(t.rows[id]) == PayloadOf(s.rows[id]))
    && (forall id :: Terminal(s.rows, id) ==> Terminal(t.rows, id))
  }

  predicate WritesRows(step: Step)
  {
    step.Dispatch? || step.Retry? || step.MarkStep? || step.Cancel? || step.Write?
  }

  /** The other steps leave the table as it is. */
  lemma StepKeepsRows(retry: Retry, s: State, step: Step)
    requires Enabled(retry, s, step) && !WritesRows(step)
    ensures Exec(retry, s, step).rows == s.rows
  {
  }

  lemma StatusRows(retry: Retry, s: State, step: Step)
    requires Enabled(retry, s, step) && (step.MarkStep? || step.Cancel? || step.Write?)
    ensures RowsStay(s, Exec(retry, s, step))
  {
  }

  lemma InsertRows(retry: Retry, s: State, step: Step)
    requires Enabled(retry, s, step) && (step.Dispatch? || step.Retry?)
    ensures RowsStay(s, Exec(retry, s, step))
  {
  }

  lemma StepRows(retry: Retry, s: State, step: Step)
    requires Enabled(retry, s, step)
    ensures RowsStay(s, Exec(retry, s, step))
  {
    if !WritesRows(step) {
      StepKeepsRows(retry, s, step);
    } else if step.Dispatch? || step.Retry? {
      InsertRows(retry, s, step);
    } else {
      StatusRows(retry, s, step);
    }
  }

  lemma KnownProcStable(s: State, t: State, p: Proc)
    requires RowsStay(s, t) && KnownProc(s, p)
    ensures KnownProc(t, p)
  {
  }

  lemma TasksForKnown(rows: Rows, batch: set<Id>, now: int, tasks: seq<NewTask>, t: State)
    requires TasksFor(rows, batch, now, tasks) && t.rows == rows
    requires forall id :: id in rows ==> rows[id].scheduledAt >= 0
    ensures TimedTasks(t, tasks)
  {
  }

  lemma StepTimes(retry: Retry, s: State, step: Step)
    requires Known(s) && Enabled(retry, s, step)
    ensures var t := Exec(retry, s, step); t.clock >= 0 && forall id :: id in t.rows ==> t.rows[id].scheduledAt >= 0
  {
    if !WritesRows(step) { StepKeepsRows(retry, s, step); }
    if step.Retry? { assert KnownProc(s, s.procs[step.pid]); }
  }

  lemma EnqueueStores(retry: Retry, s: State, step: Step)
    requires Known(s) && Enabled(retry, s, step) && (step.HSetStep? || step.ZAddStep?)
    ensures KnownStores(Exec(retry, s, step))
  {
    assert KnownProc(s, s.procs[step.pid]);
    var tasks := s.procs[step.pid].tasks;
    if step.HSetStep? { HSetKeys(s.queue, tasks); } else { ZAddKeys(s.queue, tasks); }
  }

  lemma RowStores(retry: Retry, s: State, step: Step)
    requires Known(s) && Enabled(retry, s, step) && WritesRows(step)
    ensures KnownStores(Exec(retry, s, step))
  {
    StepRows(retry, s, step);
    StepTimes(retry, s, step);
    assert Exec(retry, s, step).queue == s.queue;
  }

  lemma QueueStores(retry: Retry, s: State, step: Step)
    requires Known(s) && Enabled(retry, s, step) && !WritesRows(step) && !step.HSetStep? && !step.ZAddStep?
    ensures KnownStores(Exec(retry, s, step))
  {
    StepKeepsRows(retry, s, step);
    if step.Reject? || step.RateLimit? {
      assert KnownProc(s, s.procs[step.pid]);
      if step.Reject? { assert s.procs[step.pid].claimed[0] in s.procs[step.pid].claimed; }
    }
  }

  lemma StepStores(retry: Retry, s: State, step: Step)
    requires Known(s) && Enabled(retry, s, step)
    ensures KnownStores(Exec(retry, s, step))
  {
    if step.HSetStep? || step.ZAddStep? {
      EnqueueStores(retry, s, step);
    } else if WritesRows(step) {
      RowStores(retry, s, step);
    } else {
      QueueStores(retry, s, step);
    }
  }

  /** The thread a step moves. */
  lemma StartKnown(retry: Retry, s: State, step: Step)
    requires Known(s) && Enabled(retry, s, step)
    requires RowsStay(s, Exec(retry, s, step)) && KnownStores(Exec(retry, s, step))
    requires (step.Dispatch? || step.Pick? || step.Retry?) && step.pid in Exec(retry, s, step).procs
    ensures KnownProc(Exec(retry, s, step), Exec(retry, s, step).procs[step.pid])
  {
    var t := Exec(retry, s, step);
    if step.pid in s.procs { KnownProcStable(s, t, s.procs[step.pid]); }
    if step.Dispatch? {
      TasksForKnown(t.rows, step.targets.Keys, s.clock, step.tasks, t);
    } else if step.Pick? {
      TasksForKnown(t.rows, step.batch, s.clock, step.tasks, t);
    } else {
      TasksForKnown(t.rows, {step.id}, s.clock, step.tasks, t);
    }
  }

  lemma ClaimsKnown(retry: Retry, s: State, step: Step)
    requires Known(s) && Enabled(retry, s, step) && RowsStay(s, Exec(retry, s, step))
    requires (step.Fetch? || step.Submit? || step.Reject?) && step.pid in Exec(retry, s, step).procs
    ensures KnownProc(Exec(retry, s, step), Exec(retry, s, step).procs[step.pid])
    ensures step.Submit? ==> KnownProc(Exec(retry, s, step), Exec(retry, s, step).procs[step.worker])
  {
    if step.pid in s.procs {
      KnownProcStable(s, Exec(retry, s, step), s.procs[step.pid]);
      assert s.procs[step.pid].claimed[0] in s.procs[step.pid].claimed;
    }
  }

  lemma OtherKnown(retry: Retry, s: State, step: Step)
    requires Known(s) && Enabled(retry, s, step) && RowsStay(s, Exec(retry, s, step)) && !step.Tick?
    requires !(step.Dispatch? || step.Pick? || step.Retry? || step.Fetch? || step.Submit? || step.Reject?)
    requires step.pid in Exec(retry, s, step).procs
    ensures KnownProc(Exec(retry, s, step), Exec(retry, s, step).procs[step.pid])
  {
    KnownProcStable(s, Exec(retry, s, step), s.procs[step.pid]);
  }

  lemma StepKeepsKnown(retry: Retry, s: State, step: Step)
    requires Known(s) && Enabled(retry, s, step)
    ensures Known(Exec(retry, s, step))
  {
    var t := Exec(retry, s, step);
    StepRows(retry, s, step);
    StepStores(retry, s, step);
    forall pid | pid in t.procs ensures KnownProc(t, t.procs[pid]) {
      if !Moves(step, pid) {
        OthersStay(retry, s, step, pid);
        KnownProcStable(s, t, s.procs[pid]);
      } else if step.Dispatch? || step.Pick? || step.Retry? {
        StartKnown(retry, s, step);
      } else if step.Fetch? || step.Submit? || step.Reject? {
        ClaimsKnown(retry, s, step);
      } else {
        OtherKnown(retry, s, step);
      }
    }
  }

  // ------------------------------------------------------------------ exposure

  /** The queue exposes an attempt: a score without payload, or a QUEUED row that is not in the queue. */
  ghost predicate StoresExpose(s: State, id: Id)
  {
    || (id in s.queue.scores && id !in s.queue.data)
    || (id in s.rows && s.rows[id].status == Queued && !(id in s.queue.scores && id in s.queue.data))
  }

  /**
   A thread exposes it: one that has claimed it without payload, or claimed it while its payload is gone and so can
   reschedule it; one that is deleting it; one that enqueues it while its payload is gone; one that marks it while it
   is not in the queue.
   */
  ghost predicate Exposes(s: State, p: Proc, id: Id)
  {
    match p
    case Fetching(claimed) => exists t :: t in claimed && t.id == id && (t.payload.None? || id !in s.queue.data)
    case Running(x, payload) => x == id && (payload.None? || id !in s.queue.data)
    case Dropping(x) => x == id
    case Removing(x) => x == id
    case Enqueuing(tasks, _, _) => id in TaskIds(tasks) && id !in s.queue.data
    case Marking(ids, cancels, _) =>
      id in ids && id !in cancels && !(id in s.queue.scores && id in s.queue.data)
    case _ => false
  }

  ghost predicate Exposed(s: State, id: Id)
  {
    StoresExpose(s, id) || exists pid :: pid in s.procs && Exposes(s, s.procs[pid], id)
  }

  // ------------------------------------------------------------------ what is not exposed stays so

  /** The queue keeps what it holds of an attempt that no thread is deleting. */
  lemma StepKeepsTask(retry: Retry, s: State, step: Step, id: Id)
    requires Enabled(retry, s, step) && !Exposed(s, id)
    ensures var t := Exec(retry, s, step);
            && (id in s.queue.data ==> id in t.queue.data) && (id in s.queue.scores ==> id in t.queue.scores)
  {
    if step.HSetStep? {
      HSetKeys(s.queue, s.procs[step.pid].tasks);
    } else if step.ZAddStep? {
      ZAddKeys(s.queue, s.procs[step.pid].tasks);
    } else if step.HDelStep? || step.ZRemStep? {
      assert !Exposes(s, s.procs[step.pid], id);
    }
  }

  lemma StaysUnexposed(s: State, t: State, p: Proc, id: Id)
    requires (id in s.queue.data ==> id in t.queue.data) && (id in s.queue.scores ==> id in t.queue.scores)
    requires !Exposes(s, p, id)
    ensures !Exposes(t, p, id)
  {
  }

  lemma RowsSafe(retry: Retry, s: State, step: Step, id: Id)
    requires Known(s) && Enabled(retry, s, step) && !Exposed(s, id) && !Terminal(Exec(retry, s, step).rows, id)
    requires WritesRows(step)
    ensures !StoresExpose(Exec(retry, s, step), id)
  {
    assert Exec(retry, s, step).queue == s.queue;
    if step.MarkStep? { assert !Exposes(s, s.procs[step.pid], id); }
  }

  lemma QueueSafe(retry: Retry, s: State, step: Step, id: Id)
    requires Known(s) && Enabled(retry, s, step) && !Exposed(s, id) && !Terminal(Exec(retry, s, step).rows, id)
    requires !WritesRows(step)
    ensures !StoresExpose(Exec(retry, s, step), id)
  {
    StepKeepsTask(retry, s, step, id);
    StepKeepsRows(retry, s, step);
    if !step.Tick? && step.pid in s.procs { assert !Exposes(s, s.procs[step.pid], id); }
    if step.HSetStep? {
      HSetKeys(s.queue, s.procs[step.pid].tasks);
    } else if step.ZAddStep? {
      ZAddKeys(s.queue, s.procs[step.pid].tasks);
    } else if step.Reject? {
      assert s.procs[step.pid].claimed[0] in s.procs[step.pid].claimed;
    }
  }

  lemma StepStoresSafe(retry: Retry, s: State, step: Step, id: Id)
    requires Known(s) && Enabled(retry, s, step) && !Exposed(s, id) && !Terminal(Exec(retry, s, step).rows, id)
    ensures !StoresExpose(Exec(retry, s, step), id)
  {
    if WritesRows(step) { RowsSafe(retry, s, step, id); } else { QueueSafe(retry, s, step, id); }
  }

  lemma SchedulingSafe(retry: Retry, s: State, step: Step, id: Id)
    requires Known(s) && Enabled(retry, s, step) && !Exposed(s, id) && !Terminal(Exec(retry, s, step).rows, id)
    requires IsScheduling(step) && step.pid in Exec(retry, s, step).procs
    ensures !Exposes(Exec(retry, s, step), Exec(retry, s, step).procs[step.pid], id)
  {
    StepRows(retry, s, step);
    if step.pid in s.procs { assert !Exposes(s, s.procs[step.pid], id) && KnownProc(s, s.procs[step.pid]); }
    if step.HSetStep? {
      HSetKeys(s.queue, s.procs[step.pid].tasks);
    } else if step.ZAddStep? {
      ZAddKeys(s.queue, s.procs[step.pid].tasks);
    }
  }

  lemma ClaimsSafe(retry: Retry, s: State, step: Step, id: Id)
    requires Known(s) && Enabled(retry, s, step) && !Exposed(s, id)
    requires (step.Fetch? || step.Submit? || step.Reject?) && step.pid in Exec(retry, s, step).procs
    ensures !Exposes(Exec(retry, s, step), Exec(retry, s, step).procs[step.pid], id)
    ensures step.Submit? ==> !Exposes(Exec(retry, s, step), Exec(retry, s, step).procs[step.worker], id)
  {
    StepKeepsTask(retry, s, step, id);
    if step.pid in s.procs {
      assert !Exposes(s, s.procs[step.pid], id);
      assert s.procs[step.pid].claimed[0] in s.procs[step.pid].claimed;
    }
  }

  lemma WorkingSafe(retry: Retry, s: State, step: Step, id: Id)
    requires Known(s) && Enabled(retry, s, step) && !Exposed(s, id) && !Terminal(Exec(retry, s, step).rows, id)
    requires !IsScheduling(step) && !step.Tick? && !step.Fetch? && !step.Submit? && !step.Reject?
    requires step.pid in Exec(retry, s, step).procs
    ensures !Exposes(Exec(retry, s, step), Exec(retry, s, step).procs[step.pid], id)
  {
    StepRows(retry, s, step);
    assert !Exposes(s, s.procs[step.pid], id);
  }

  /** An unfinished attempt that is not exposed is not exposed after any step. */
  lemma StepKeepsUnexposed(retry: Retry, s: State, step: Step, id: Id)
    requires Known(s) && Enabled(retry, s, step) && !Exposed(s, id) && !Terminal(Exec(retry, s, step).rows, id)
    ensures !Exposed(Exec(retry, s, step), id)
  {
    var t := Exec(retry, s, step);
    StepStoresSafe(retry, s, step, id);
    StepKeepsTask(retry, s, step, id);
    forall pid | pid in t.procs ensures !Exposes(t, t.procs[pid], id) {
      if !Moves(step, pid) {
        OthersStay(retry, s, step, pid);
        StaysUnexposed(s, t, s.procs[pid], id);
      } else if IsScheduling(step) {
        SchedulingSafe(retry, s, step, id);
      } else if step.Fetch? || step.Submit? || step.Reject? {
        ClaimsSafe(retry, s, step, id);
      } else {
        WorkingSafe(retry, s, step, id);
      }
    }
  }

  /** What the protocol does not know is not exposed. */
  lemma UnknownUnexposed(s: State, id: Id)
    requires Known(s) && id !in s.rows
    ensures !Exposed(s, id)
  {
    forall pid | pid in s.procs ensures !Exposes(s, s.procs[pid], id) { assert KnownProc(s, s.procs[pid]); }
  }

  lemma LostIsExposed(s: State, id: Id)
    requires Known(s) && Lost(s, id)
    ensures Exposed(s, id)
  {
  }

  // ------------------------------------------------------------------ what can be reached

  ghost predicate Reaches(retry: Retry, s: State, t: State)
  {
    exists steps :: Paths.End(Machine(retry), s, steps) == Some(t)
  }

  lemma ReachesSelf(retry: Retry, s: State)
    ensures Reaches(retry, s, s)
  {
    assert Paths.End(Machine(retry), s, []) == Some(s);
  }

  lemma ReachesBy(retry: Retry, s: State, step: Step)
    requires Enabled(retry, s, step)
    ensures Reaches(retry, s, Exec(retry, s, step))
  {
    Paths.One(Machine(retry), s, step);
  }

  lemma ReachesOn(retry: Retry, s: State, t: State, u: State)
    requires Reaches(retry, s, t) && Reaches(retry, t, u)
    ensures Reaches(retry, s, u)
  {
    var a :| Paths.End(Machine(retry), s, a) == Some(t);
    var b :| Paths.End(Machine(retry), t, b) == Some(u);
    Paths.Concat(Machine(retry), s, a, b);
  }

  /** One step more. */
  lemma ReachesThen(retry: Retry, s: State, t: State, step: Step)
    requires Reaches(retry, s, t) && Enabled(retry, t, step)
    ensures Reaches(retry, s, Exec(retry, t, step))
  {
    ReachesBy(retry, t, step);
    ReachesOn(retry, s, t, Exec(retry, t, step));
  }

  /** A thread that does not exist yet. */
  lemma {:induction false} Unused(pids: set<Pid>) returns (pid: Pid)
    ensures forall p :: p in pids ==> p < pid
  {
    if pids == {} {
      pid := 0;
    } else {
      var p :| p in pids;
      var q := Unused(pids - {p});
      pid := Max(p + 1, q);
      assert forall x :: x in pids ==> x == p || x in pids - {p};
    }
  }

  /** The state when the clock has come to a time. */
  function At(s: State, time: int): State { s.(clock := Max(s.clock, time)) }

  lemma Waits(retry: Retry, s: State, time: int)
    ensures Reaches(retry, s, At(s, time))
  {
    ReachesBy(retry, s, Tick(Max(s.clock, time)));
  }

  /** The one task of an attempt that is due. */
  lemma OwnTask(s: State, id: Id)
    requires id in s.rows && s.rows[id].scheduledAt <= s.clock
    ensures var tasks := [TaskOf(id, s.rows[id])];
            TasksFor(s.rows, {id}, s.clock, tasks) && TaskIds(tasks) == {id}
  {
    var tasks := [TaskOf(id, s.rows[id])];
    assert tasks[0] in tasks;
  }

  /** The scan can enqueue and mark an INIT attempt while another thread stands still. */
  ghost predicate Requeued(s: State, u: State, id: Id)
  {
    && id in s.rows && u.rows == s.rows[id := s.rows[id].(status := Queued)]
    && id in u.queue.scores && id in u.queue.data && u.queue.data[id] == PayloadOf(s.rows[id])
    && u.queue.scores[id] == s.rows[id].scheduledAt
    && u.procs == s.procs
  }

  lemma Picks(retry: Retry, s: State, id: Id) returns (t: State, pid: Pid)
    requires id in s.rows && s.rows[id].status == Init
    ensures Reaches(retry, s, t) && pid !in s.procs
    ensures var tasks := [TaskOf(id, s.rows[id])];
            t == At(s, s.rows[id].scheduledAt).(procs := s.procs[pid := Scheduling(tasks, [], None)])
  {
    var u := At(s, s.rows[id].scheduledAt);
    var tasks := [TaskOf(id, s.rows[id])];
    pid := Unused(s.procs.Keys);
    Waits(retry, s, s.rows[id].scheduledAt);
    OwnTask(u, id);
    t := Exec(retry, u, Pick(pid, {id}, [], tasks));
    ReachesThen(retry, s, u, Pick(pid, {id}, [], tasks));
  }

  lemma Enqueues(retry: Retry, s: State, pid: Pid, task: NewTask) returns (t: State)
    requires pid in s.procs && s.procs[pid] == Scheduling([task], [], None)
    ensures Reaches(retry, s, t)
    ensures t == s.(queue := Queue(s.queue.scores[task.id := task.at], s.queue.data[task.id := task.payload]),
                    procs := s.procs[pid := Marking({task.id}, [], None)])
  {
    assert task in [task] && TaskIds([task]) == {task.id};
    SingleTask(s.queue, task);
    SingleTask(HSet(s.queue, [task]), task);
    var s1 := Exec(retry, s, HSetStep(pid, true, true));
    t := Exec(retry, s1, ZAddStep(pid, true, true));
    ReachesBy(retry, s, HSetStep(pid, true, true));
    ReachesThen(retry, s, s1, ZAddStep(pid, true, true));
    assert t.procs == s.procs[pid := Marking({task.id}, [], None)];
  }

  lemma Marks(retry: Retry, s: State, pid: Pid, id: Id) returns (t: State)
    requires pid in s.procs && s.procs[pid] == Marking({id}, [], None) && id in s.rows && s.rows[id].status == Init
    ensures Reaches(retry, s, t)
    ensures t.rows == s.rows[id := s.rows[id].(status := Queued)] && t.queue == s.queue && t.procs == s.procs - {pid}
  {
    t := Exec(retry, s, MarkStep(pid, true, true));
    ReachesBy(retry, s, MarkStep(pid, true, true));
    assert t.rows == s.rows[id := s.rows[id].(status := Queued)];
  }

  lemma RequeuesIt(retry: Retry, s: State, id: Id) returns (u: State)
    requires id in s.rows && s.rows[id].status == Init
    ensures Reaches(retry, s, u) && Requeued(s, u, id)
  {
    var t, pid := Picks(retry, s, id);
    var v := Enqueues(retry, t, pid, TaskOf(id, s.rows[id]));
    ReachesOn(retry, s, t, v);
    u := Marks(retry, v, pid, id);
    ReachesOn(retry, s, v, u);
  }

  /** A fetching thread can give up the claims ahead of one and hand that one to a worker. */
  lemma {:induction false} HandsOver(retry: Retry, s: State, pid: Pid, k: nat) returns (u: State, worker: Pid)
    requires pid in s.procs && s.procs[pid].Fetching? && k < |s.procs[pid].claimed|
    ensures var t := s.procs[pid].claimed[k];
            && Reaches(retry, s, u) && worker in u.procs && u.procs[worker] == Running(t.id, t.payload)
            && u.rows == s.rows && u.queue == s.queue && u.clock == s.clock
    decreases k
  {
    if k == 0 {
      worker := Unused(s.procs.Keys);
      u := Exec(retry, s, Submit(pid, worker));
      ReachesBy(retry, s, Submit(pid, worker));
    } else {
      var t := Exec(retry, s, Reject(pid, false));
      ReachesBy(retry, s, Reject(pid, false));
      u, worker := HandsOver(retry, t, pid, k - 1);
      ReachesOn(retry, s, t, u);
    }
  }

  /** A worker can come to run any task of the queue, with the payload the hash holds for it. */
  lemma RunsIt(retry: Retry, s: State, id: Id) returns (u: State, worker: Pid)
    requires id in s.queue.scores && s.queue.scores[id] >= 0
    ensures Reaches(retry, s, u) && worker in u.procs
    ensures u.procs[worker] == Running(id, if id in s.queue.data then Some(s.queue.data[id]) else None)
    ensures u.rows == s.rows && u.queue.data == s.queue.data && id in u.queue.scores
  {
    var t := At(s, s.queue.scores[id]);
    Waits(retry, s, s.queue.scores[id]);
    AllDueReturned(t.queue, t.clock, -1, id);
    var pid := Unused(s.procs.Keys);
    var v := Exec(retry, t, Fetch(pid, -1));
    ReachesThen(retry, s, t, Fetch(pid, -1));
    var ids := GetIds(t.queue, t.clock, -1);
    var k :| 0 <= k < |ids| && ids[k] == id;
    assert v.procs[pid].claimed[k] == Fetched(t.queue, id);
    u, worker := HandsOver(retry, v, pid, k);
    ReachesOn(retry, s, v, u);
  }

  // ------------------------------------------------------------------ what is exposed can be lost

  ghost predicate CanLose(retry: Retry, s: State, id: Id) { exists t :: Reaches(retry, s, t) && Lost(t, id) }

  lemma LosesLater(retry: Retry, s: State, t: State, id: Id)
    requires Reaches(retry, s, t) && CanLose(retry, t, id)
    ensures CanLose(retry, s, id)
  {
    var u :| Reaches(retry, t, u) && Lost(u, id);
    ReachesOn(retry, s, t, u);
  }

  lemma LosesNow(retry: Retry, s: State, id: Id)
    requires Lost(s, id)
    ensures CanLose(retry, s, id)
  {
    ReachesSelf(retry, s);
  }

  /** A thread that deletes the task of a QUEUED attempt loses it. */
  lemma DeletionLosesQueued(retry: Retry, s: State, id: Id, pid: Pid)
    requires id in s.rows && s.rows[id].status == Queued && pid in s.procs
    requires s.procs[pid] == Dropping(id) || s.procs[pid] == Removing(id)
    ensures CanLose(retry, s, id)
  {
    var step := if s.procs[pid].Dropping? then HDelStep(pid, true) else ZRemStep(pid, true);
    var t := Exec(retry, s, step);
    ReachesBy(retry, s, step);
    LosesNow(retry, t, id);
    LosesLater(retry, s, t, id);
  }

  /** An unfinished attempt that is INIT can be marked QUEUED first. */
  lemma DeletionLoses(retry: Retry, s: State, id: Id, pid: Pid)
    requires id in s.rows && !Terminal(s.rows, id) && pid in s.procs
    requires s.procs[pid] == Dropping(id) || s.procs[pid] == Removing(id)
    ensures CanLose(retry, s, id)
  {
    if s.rows[id].status == Init {
      var u := RequeuesIt(retry, s, id);
      DeletionLosesQueued(retry, u, id, pid);
      LosesLater(retry, s, u, id);
    } else {
      DeletionLosesQueued(retry, s, id, pid);
    }
  }

  lemma UnreadableLoses(retry: Retry, s: State, id: Id, pid: Pid)
    requires id in s.rows && !Terminal(s.rows, id) && pid in s.procs && s.procs[pid] == Running(id, None)
    ensures CanLose(retry, s, id)
  {
    var t := Exec(retry, s, BadPayload(pid));
    ReachesBy(retry, s, BadPayload(pid));
    DeletionLoses(retry, t, id, pid);
    LosesLater(retry, s, t, id);
  }

  lemma BareScoreLoses(retry: Retry, s: State, id: Id)
    requires id in s.rows && !Terminal(s.rows, id)
    requires id in s.queue.scores && s.queue.scores[id] >= 0 && id !in s.queue.data
    ensures CanLose(retry, s, id)
  {
    var u, worker := RunsIt(retry, s, id);
    UnreadableLoses(retry, u, id, worker);
    LosesLater(retry, s, u, id);
  }

  /** A worker that can reschedule an attempt whose payload is gone leaves a score without payload. */
  lemma RescheduleLoses(retry: Retry, s: State, id: Id, pid: Pid)
    requires s.clock >= 0 && id in s.rows && !Terminal(s.rows, id) && id !in s.queue.data
    requires pid in s.procs && s.procs[pid].Running? && s.procs[pid].id == id
    ensures CanLose(retry, s, id)
  {
    if s.procs[pid].data.None? {
      UnreadableLoses(retry, s, id, pid);
    } else {
      var step := RateLimit(pid, 0, true);
      var t := Exec(retry, s, step);
      ReachesBy(retry, s, step);
      BareScoreLoses(retry, t, id);
      LosesLater(retry, s, t, id);
    }
  }

  lemma ClaimLoses(retry: Retry, s: State, id: Id, pid: Pid)
    requires Known(s) && id in s.rows && !Terminal(s.rows, id) && pid in s.procs && s.procs[pid].Fetching?
    requires Exposes(s, s.procs[pid], id)
    ensures CanLose(retry, s, id)
  {
    var claimed := s.procs[pid].claimed;
    var c :| c in claimed && c.id == id && (c.payload.None? || id !in s.queue.data);
    var k :| 0 <= k < |claimed| && claimed[k] == c;
    var u, worker := HandsOver(retry, s, pid, k);
    if c.payload.None? {
      UnreadableLoses(retry, u, id, worker);
    } else {
      RescheduleLoses(retry, u, id, worker);
    }
    LosesLater(retry, s, u, id);
  }

  lemma EnqueueLoses(retry: Retry, s: State, id: Id, pid: Pid)
    requires Known(s) && id in s.rows && !Terminal(s.rows, id) && pid in s.procs && s.procs[pid].Enqueuing?
    requires Exposes(s, s.procs[pid], id)
    ensures CanLose(retry, s, id)
  {
    var step := ZAddStep(pid, true, true);
    var t := Exec(retry, s, step);
    assert KnownProc(s, s.procs[pid]);
    ZAddKeys(s.queue, s.procs[pid].tasks);
    ReachesBy(retry, s, step);
    BareScoreLoses(retry, t, id);
    LosesLater(retry, s, t, id);
  }

  lemma MarkLoses(retry: Retry, s: State, id: Id, pid: Pid)
    requires id in s.rows && !Terminal(s.rows, id) && pid in s.procs && s.procs[pid].Marking?
    requires Exposes(s, s.procs[pid], id)
    ensures CanLose(retry, s, id)
  {
    var step := MarkStep(pid, true, true);
    var t := Exec(retry, s, step);
    ReachesBy(retry, s, step);
    LosesNow(retry, t, id);
    LosesLater(retry, s, t, id);
  }

  lemma ThreadLoses(retry: Retry, s: State, id: Id, pid: Pid)
    requires Known(s) && id in s.rows && !Terminal(s.rows, id) && pid in s.procs && Exposes(s, s.procs[pid], id)
    ensures CanLose(retry, s, id)
  {
    match s.procs[pid]
    case Fetching(_) => ClaimLoses(retry, s, id, pid);
    case Running(_, payload) =>
      if payload.None? { UnreadableLoses(retry, s, id, pid); } else { RescheduleLoses(retry, s, id, pid); }
    case Enqueuing(_, _, _) => EnqueueLoses(retry, s, id, pid);
    case Marking(_, _, _) => MarkLoses(retry, s, id, pid);
    case _ => DeletionLoses(retry, s, id, pid);
  }

  lemma {:induction false} PathKeepsUnexposed(retry: Retry, s: State, steps: seq<Step>, id: Id)
    requires Known(s) && !Exposed(s, id) && Paths.End(Machine(retry), s, steps).Some?
    ensures !Lost(Paths.End(Machine(retry), s, steps).value, id)
    decreases |steps|
  {
    if steps == [] {
      if Lost(s, id) { LostIsExposed(s, id); }
    } else {
      var t := Exec(retry, s, steps[0]);
      StepKeepsKnown(retry, s, steps[0]);
      if Terminal(t.rows, id) {
        PathKeepsTerminal(retry, t, steps[1..], id);
      } else {
        StepKeepsUnexposed(retry, s, steps[0], id);
        PathKeepsUnexposed(retry, t, steps[1..], id);
      }
    }
  }

  lemma {:induction false} PathKeepsTerminal(retry: Retry, s: State, steps: seq<Step>, id: Id)
    requires Terminal(s.rows, id) && Paths.End(Machine(retry), s, steps).Some?
    ensures Terminal(Paths.End(Machine(retry), s, steps).value.rows, id)
    decreases |steps|
  {
    if steps != [] {
      StepRows(retry, s, steps[0]);
      PathKeepsTerminal(retry, Exec(retry, s, steps[0]), steps[1..], id);
    }
  }

  /** From a state the protocol can lose an unfinished attempt if and only if the attempt is exposed there. */
  lemma CanLoseIff(retry: Retry, s: State, id: Id)
    requires Known(s) && id in s.rows && !Terminal(s.rows, id)
    ensures CanLose(retry, s, id) <==> Exposed(s, id)
  {
    if Exposed(s, id) {
      if pid :| pid in s.procs && Exposes(s, s.procs[pid], id) {
        ThreadLoses(retry, s, id, pid);
      } else if id in s.queue.scores && id !in s.queue.data {
        BareScoreLoses(retry, s, id);
      } else {
        LosesNow(retry, s, id);
      }
    } else if CanLose(retry, s, id) {
      var t :| Reaches(retry, s, t) && Lost(t, id);
      var steps :| Paths.End(Machine(retry), s, steps) == Some(t);
      PathKeepsUnexposed(retry, s, steps, id);
    }
  }

  // ------------------------------------------------------------------ what is not lost can be finished

  lemma DeliversIt(retry: Retry, s: State, id: Id, pid: Pid) returns (t: State)
    requires id in s.rows && pid in s.procs && s.procs[pid].Running? && s.procs[pid].id == id && s.procs[pid].data.Some?
    ensures Reaches(retry, s, t) && Terminal(t.rows, id)
  {
    var u := Exec(retry, s, Deliver(pid, true, false));
    ReachesBy(retry, s, Deliver(pid, true, false));
    t := Exec(retry, u, Write(pid, true, true));
    ReachesThen(retry, s, u, Write(pid, true, true));
  }

  lemma FinishesQueued(retry: Retry, s: State, id: Id) returns (t: State)
    requires id in s.rows && id in s.queue.scores && s.queue.scores[id] >= 0 && id in s.queue.data
    ensures Reaches(retry, s, t) && Terminal(t.rows, id)
  {
    var u, worker := RunsIt(retry, s, id);
    t := DeliversIt(retry, u, id, worker);
    ReachesOn(retry, s, u, t);
  }

  /** From every state an unfinished attempt that is not lost can still be delivered. */
  lemma CanFinish(retry: Retry, s: State, id: Id) returns (t: State)
    requires Known(s) && id in s.rows && !Terminal(s.rows, id) && !Lost(s, id)
    ensures Reaches(retry, s, t) && Terminal(t.rows, id)
  {
    if s.rows[id].status == Init {
      var u := RequeuesIt(retry, s, id);
      t := FinishesQueued(retry, u, id);
      ReachesOn(retry, s, u, t);
    } else {
      t := FinishesQueued(retry, s, id);
    }
  }

  lemma {:induction false} RunKeepsKnown(retry: Retry, states: seq<State>, steps: seq<Step>, i: nat)
    requires Run(retry, states, steps) && i < |states|
    ensures Known(states[i])
  {
    if i > 0 {
      RunKeepsKnown(retry, states, steps, i - 1);
      RunStep(retry, states, steps, i - 1);
      StepKeepsKnown(retry, states[i - 1], steps[i - 1]);
    }
  }

  /** In every run of the protocol every unfinished attempt can still be finished. */
  lemma NoAttemptStuck(retry: Retry, states: seq<State>, steps: seq<Step>, i: nat, id: Id) returns (t: State)
    requires Run(retry, states, steps) && i < |states| && id in states[i].rows && !Terminal(states[i].rows, id)
    ensures Reaches(retry, states[i], t) && Terminal(t.rows, id)
  {
    RunKeepsKnown(retry, states, steps, i);
    NoAttemptLost(retry, states, steps, i, id);
    t := CanFinish(retry, states[i], id);
  }
}
