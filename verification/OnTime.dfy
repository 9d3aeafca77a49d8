/** No attempt is delivered before its time, so the requests of a retry chain keep their distances. */
module OnTime {
  import opened Common
  import opened TaskQueue
  import opened Attempts
  import opened Delivery
  import opened RetryChain

  /** The attempt exists, and its time has come. */
  ghost predicate Reached(s: State, id: Id) { id in s.rows && s.rows[id].scheduledAt <= s.clock }

  /** Tasks are enqueued for the time their attempts are scheduled at. */
  ghost predicate OwnTimes(s: State, tasks: seq<NewTask>)
  {
    forall t :: t in tasks ==> t.id in s.rows && t.at == s.rows[t.id].scheduledAt
  }

  ghost predicate ProcTimely(s: State, p: Proc)
  {
    match p
    case Scheduling(tasks, _, _) => OwnTimes(s, tasks)
    case Enqueuing(tasks, _, _) => OwnTimes(s, tasks)
    case Fetching(claimed) => forall t :: t in claimed ==> Reached(s, t.id) && 0 <= t.score <= s.clock
    case Running(id, _) => Reached(s, id)
    case _ => true
  }

  /** A task that is due has reached its attempt's time. */
  ghost predicate ScoresTimely(s: State)
  {
    forall id :: id in s.queue.scores ==>
      id in s.rows && (s.queue.scores[id] >= s.rows[id].scheduledAt || Reached(s, id))
  }

  /** Requests were sent in the past, and not before their attempts' times. */
  ghost predicate LogTimely(s: State)
  {
    forall o :: o in s.log && o.Sent? ==> o.id in s.rows && s.rows[o.id].scheduledAt <= o.finishAt <= s.clock
  }

  ghost predicate Timely(s: State)
  {
    ScoresTimely(s) && LogTimely(s) && forall pid :: pid in s.procs ==> ProcTimely(s, s.procs[pid])
  }

  /** Rows keep their times, and the clock moves on. */
  ghost predicate LaterThan(s: State, t: State)
  {
    && s.clock <= t.clock && s.rows.Keys <= t.rows.Keys
    && forall id :: id in s.rows ==> t.rows[id].scheduledAt == s.rows[id].scheduledAt
  }

  lemma StepLater(retry: Retry, s: State, step: Step)
    requires Inv(s) && Enabled(retry, s, step)
    ensures LaterThan(s, Exec(retry, s, step))
  {
    StepKeepsInv(retry, s, step);
  }

  lemma ProcTimelyStable(s: State, t: State, p: Proc)
    requires LaterThan(s, t) && ProcTimely(s, p)
    ensures ProcTimely(t, p)
  {
  }

  lemma EnqueueScores(retry: Retry, s: State, step: Step)
    requires Timely(s) && Enabled(retry, s, step) && LaterThan(s, Exec(retry, s, step))
    requires step.HSetStep? || step.ZAddStep?
    ensures ScoresTimely(Exec(retry, s, step))
  {
    assert ProcTimely(s, s.procs[step.pid]);
    var tasks := s.procs[step.pid].tasks;
    if step.HSetStep? { HSetKeys(s.queue, tasks); } else { ZAddKeys(s.queue, tasks); }
  }

  lemma ClaimScores(retry: Retry, s: State, step: Step)
    requires Timely(s) && Enabled(retry, s, step) && LaterThan(s, Exec(retry, s, step)) && step.Fetch?
    ensures ScoresTimely(Exec(retry, s, step))
  {
    GetReturnsSmallestDue(s.queue, s.clock, step.count);
  }

  lemma StepScores(retry: Retry, s: State, step: Step)
    requires Timely(s) && Enabled(retry, s, step) && LaterThan(s, Exec(retry, s, step))
    ensures ScoresTimely(Exec(retry, s, step))
  {
    if step.HSetStep? || step.ZAddStep? {
      EnqueueScores(retry, s, step);
    } else if step.Fetch? {
      ClaimScores(retry, s, step);
    } else if step.Reject? || step.RateLimit? {
      assert ProcTimely(s, s.procs[step.pid]);
      if step.Reject? { assert s.procs[step.pid].claimed[0] in s.procs[step.pid].claimed; }
    } else {
      SameScores(retry, s, step);
    }
  }

  lemma SameScores(retry: Retry, s: State, step: Step)
    requires Timely(s) && Enabled(retry, s, step) && LaterThan(s, Exec(retry, s, step))
    requires !(step.HSetStep? || step.ZAddStep? || step.Fetch? || step.Reject? || step.RateLimit?)
    ensures ScoresTimely(Exec(retry, s, step))
  {
    var t := Exec(retry, s, step);
    assert forall id :: id in t.queue.scores ==> id in s.queue.scores && t.queue.scores[id] == s.queue.scores[id];
  }

  lemma StepLog(retry: Retry, s: State, step: Step)
    requires Timely(s) && Enabled(retry, s, step) && LaterThan(s, Exec(retry, s, step))
    ensures LogTimely(Exec(retry, s, step))
  {
    if step.Deliver? { assert ProcTimely(s, s.procs[step.pid]); }
  }

  /** Whoever starts to schedule takes each attempt's own time. */
  lemma StartTimely(retry: Retry, s: State, step: Step)
    requires Timely(s) && Enabled(retry, s, step) && LaterThan(s, Exec(retry, s, step))
    requires (step.Dispatch? || step.Pick? || step.Retry?) && step.pid in Exec(retry, s, step).procs
    ensures ProcTimely(Exec(retry, s, step), Exec(retry, s, step).procs[step.pid])
  {
    if step.pid in s.procs { ProcTimelyStable(s, Exec(retry, s, step), s.procs[step.pid]); }
  }

  /** What a worker claims is due, so its time has come. */
  lemma ClaimTimely(retry: Retry, s: State, step: Step)
    requires Timely(s) && Enabled(retry, s, step) && LaterThan(s, Exec(retry, s, step))
    requires step.Fetch? && step.pid in Exec(retry, s, step).procs
    ensures ProcTimely(Exec(retry, s, step), Exec(retry, s, step).procs[step.pid])
  {
    GetReturnsSmallestDue(s.queue, s.clock, step.count);
  }

  lemma HandOutTimely(retry: Retry, s: State, step: Step)
    requires Timely(s) && Enabled(retry, s, step) && LaterThan(s, Exec(retry, s, step))
    requires (step.Submit? || step.Reject?) && step.pid in Exec(retry, s, step).procs
    ensures ProcTimely(Exec(retry, s, step), Exec(retry, s, step).procs[step.pid])
    ensures step.Submit? ==> ProcTimely(Exec(retry, s, step), Exec(retry, s, step).procs[step.worker])
  {
    ProcTimelyStable(s, Exec(retry, s, step), s.procs[step.pid]);
    assert s.procs[step.pid].claimed[0] in s.procs[step.pid].claimed;
  }

  lemma OtherTimely(retry: Retry, s: State, step: Step)
    requires Timely(s) && Enabled(retry, s, step) && LaterThan(s, Exec(retry, s, step)) && !step.Tick?
    requires !(step.Dispatch? || step.Pick? || step.Retry? || step.Fetch? || step.Submit? || step.Reject?)
    requires step.pid in Exec(retry, s, step).procs
    ensures ProcTimely(Exec(retry, s, step), Exec(retry, s, step).procs[step.pid])
  {
    ProcTimelyStable(s, Exec(retry, s, step), s.procs[step.pid]);
  }

  lemma StepTimely(retry: Retry, s: State, step: Step)
    requires Inv(s) && Timely(s) && Enabled(retry, s, step)
    ensures Timely(Exec(retry, s, step))
  {
    var t := Exec(retry, s, step);
    StepLater(retry, s, step);
    StepScores(retry, s, step);
    StepLog(retry, s, step);
    forall pid | pid in t.procs ensures ProcTimely(t, t.procs[pid]) {
      if !Moves(step, pid) {
        OthersStay(retry, s, step, pid);
        ProcTimelyStable(s, t, s.procs[pid]);
      } else if step.Dispatch? || step.Pick? || step.Retry? {
        StartTimely(retry, s, step);
      } else if step.Fetch? {
        ClaimTimely(retry, s, step);
      } else if step.Submit? || step.Reject? {
        HandOutTimely(retry, s, step);
      } else {
        OtherTimely(retry, s, step);
      }
    }
  }

  lemma {:induction false} RunTimely(retry: Retry, states: seq<State>, steps: seq<Step>, i: nat)
    requires Run(retry, states, steps) && i < |states|
    ensures Timely(states[i])
  {
    if i > 0 {
      RunTimely(retry, states, steps, i - 1);
      RunKeepsInv(retry, states, steps, i - 1);
      RunStep(retry, states, steps, i - 1);
      StepTimely(retry, states[i - 1], steps[i - 1]);
    }
  }

  /** In every run no request is sent before the time its attempt is scheduled at. */
  lemma NeverEarly(retry: Retry, states: seq<State>, steps: seq<Step>, i: nat, o: Outcome)
    requires Run(retry, states, steps) && i < |states| && o in states[i].log && o.Sent?
    ensures o.id in states[i].rows && states[i].rows[o.id].scheduledAt <= o.finishAt <= states[i].clock
  {
    RunTimely(retry, states, steps, i);
  }

  /** The step may set the time of a task: by enqueueing it, by handing it back, or by limiting its rate. */
  ghost predicate SetsTime(s: State, step: Step, id: Id)
  {
    match step
    case ZAddStep(pid, _, _) => pid in s.procs && s.procs[pid].Enqueuing? && id in TaskIds(s.procs[pid].tasks)
    case Reject(pid, _) =>
      pid in s.procs && s.procs[pid].Fetching? && s.procs[pid].claimed != [] && s.procs[pid].claimed[0].id == id
    case RateLimit(pid, _, _) => pid in s.procs && s.procs[pid].Running? && s.procs[pid].id == id
    case _ => false
  }

  ghost predicate LeasedUntil(s: State, id: Id, until: int)
  {
    id in s.queue.scores ==> s.queue.scores[id] >= until
  }

  lemma StepLeased(retry: Retry, s: State, step: Step, id: Id, until: int)
    requires Enabled(retry, s, step) && LeasedUntil(s, id, until) && !SetsTime(s, step, id)
    ensures LeasedUntil(Exec(retry, s, step), id, until)
  {
    if step.HSetStep? {
      HSetKeys(s.queue, s.procs[step.pid].tasks);
    } else if step.ZAddStep? {
      ZAddKeys(s.queue, s.procs[step.pid].tasks);
    } else if step.Fetch? {
      GetReturnsSmallestDue(s.queue, s.clock, step.count);
    }
  }

  lemma {:induction false} RunLeased(
    retry: Retry, states: seq<State>, steps: seq<Step>, from: nat, j: nat, id: Id, until: int)
    requires Run(retry, states, steps) && from <= j < |states| && LeasedUntil(states[from], id, until)
    requires forall k :: from <= k < j ==> !SetsTime(states[k], steps[k], id)
    ensures LeasedUntil(states[j], id, until)
    decreases j
  {
    if from < j {
      RunLeased(retry, states, steps, from, j - 1, id, until);
      RunStep(retry, states, steps, j - 1);
      StepLeased(retry, states[j - 1], steps[j - 1], id, until);
    }
  }

  /** Two claims of a task lie at least 65 seconds apart, unless it was enqueued, handed back or limited in between. */
  lemma ClaimsApart(retry: Retry, states: seq<State>, steps: seq<Step>, i: nat, j: nat, id: Id)
    requires Run(retry, states, steps) && i < j < |steps| && steps[i].Fetch? && steps[j].Fetch?
    requires id in GetIds(states[i].queue, states[i].clock, steps[i].count)
    requires id in GetIds(states[j].queue, states[j].clock, steps[j].count)
    requires forall k :: i < k < j ==> !SetsTime(states[k], steps[k], id)
    ensures states[j].clock >= states[i].clock + 65_000
  {
    RunStep(retry, states, steps, i);
    RunLeased(retry, states, steps, i + 1, j, id, states[i].clock + 65_000);
    GetReturnsSmallestDue(states[j].queue, states[j].clock, steps[j].count);
  }

  /** A task that finds no free worker goes back to where it was claimed from: the next claim can take it at once. */
  lemma RejectedIsDue(retry: Retry, states: seq<State>, steps: seq<Step>, i: nat)
    requires Run(retry, states, steps) && i < |steps| && steps[i].Reject? && steps[i].applied
    ensures var procs, pid := states[i].procs, steps[i].pid;
            && pid in procs && procs[pid].Fetching? && procs[pid].claimed != []
            && procs[pid].claimed[0].id in GetIds(states[i + 1].queue, states[i + 1].clock, -1)
  {
    RunTimely(retry, states, steps, i);
    RunStep(retry, states, steps, i);
    var s, t := states[i], states[i + 1];
    var claimed := s.procs[steps[i].pid].claimed;
    assert ProcTimely(s, s.procs[steps[i].pid]) && claimed[0] in claimed;
    AllDueReturned(t.queue, t.clock, -1, claimed[0].id);
  }

  /**
   So the request of a retry comes at least the configured delay after the request whose failure it retries.
   */
  lemma RetriesKeepDistance(retry: Retry, states: seq<State>, steps: seq<Step>, i: nat, o: Outcome)
    requires Run(retry, states, steps) && i < |states| && o in states[i].log && o.Sent?
    requires o.id in states[i].rows && states[i].rows[o.id].number > 1
    ensures var s := states[i]; var row := s.rows[o.id];
            exists failed :: failed in s.log && failed.Sent? && !failed.ok && failed.id in s.rows
              && s.rows[failed.id].event == row.event && s.rows[failed.id].endpoint == row.endpoint
              && s.rows[failed.id].number == row.number - 1 < |retry(row.endpoint)|
              && o.finishAt >= failed.finishAt + 1000 * retry(row.endpoint)[row.number - 1]
  {
    NeverEarly(retry, states, steps, i, o);
    AttemptNumbers(retry, states, steps, i, o.id);
    RunKeepsRecords(retry, states, steps, i);
    var from := states[i].origin[o.id];
    assert Sent(from.parent, false, false, from.finishAt) in states[i].log;
  }
}
