/** Retry chains: which attempts a run creates, when, and how many. */
module RetryChain {
  import opened Common
  import opened TaskQueue
  import opened Attempts
  import opened Delivery

  // ------------------------------------------------------------------ every run

  /** The row of a retry against the row of the attempt it retries. */
  ghost predicate RetryOk(retry: Retry, s: State, id: Id)
    requires id in s.rows && id in s.origin && s.origin[id].RetryOf?
  {
    var row, parent, finishAt := s.rows[id], s.origin[id].parent, s.origin[id].finishAt;
    && parent in s.rows && s.rows[parent].event == row.event && s.rows[parent].endpoint == row.endpoint
    && row.number == s.rows[parent].number + 1
    && s.rows[parent].number < |retry(row.endpoint)|
    && row.scheduledAt == finishAt + 1000 * retry(row.endpoint)[s.rows[parent].number]
    && Recorded(parent, false, false, finishAt) in s.log
  }

  ghost predicate RowOk(retry: Retry, s: State, id: Id)
    requires id in s.rows && id in s.origin
  {
    && 1 <= s.rows[id].number <= |retry(s.rows[id].endpoint)|
    && (s.origin[id].Root? ==> s.rows[id].number == 1)
    && (s.origin[id].RetryOf? ==> RetryOk(retry, s, id))
  }

  ghost predicate WorkerOk(retry: Retry, s: State, p: Proc)
  {
    && (p.Delivered? ==> Sent(p.id, p.ok, p.exhausted, p.finishAt) in s.log
                         && (p.exhausted || p.payload.number < |retry(p.payload.endpoint)|))
    && (p.Retrying? ==> Recorded(p.id, false, false, p.finishAt) in s.log
                        && (exists sent :: sent in s.log && sent.Sent? && sent.id == p.id)
                        && p.payload.number < |retry(p.payload.endpoint)|)
  }

  ghost predicate RetryInv(retry: Retry, s: State)
  {
    && s.origin.Keys == s.rows.Keys
    && (forall id :: id in s.rows ==> RowOk(retry, s, id))
    && (forall pid :: pid in s.procs ==> WorkerOk(retry, s, s.procs[pid]))
  }

  /** Rows and history only grow, so what was recorded about old rows stays true. */
  ghost predicate Grows(s: State, t: State)
  {
    && Evolves(s, t) && s.log <= t.log && s.origin.Keys <= t.origin.Keys
    && (forall id :: id in s.origin ==> t.origin[id] == s.origin[id])
  }

  lemma StepOrigins(retry: Retry, s: State, step: Step)
    requires Enabled(retry, s, step) && s.origin.Keys == s.rows.Keys
    ensures var t := Exec(retry, s, step);
      && s.log <= t.log && s.origin.Keys <= t.origin.Keys && t.origin.Keys == t.rows.Keys
      && (forall id :: id in s.origin ==> t.origin[id] == s.origin[id])
  {
    if step.Retry? || step.Dispatch? {
      assert forall id :: id in s.origin ==> id in s.rows;
    }
  }

  lemma StepGrows(retry: Retry, s: State, step: Step)
    requires Inv(s) && Enabled(retry, s, step) && s.origin.Keys == s.rows.Keys
    ensures Grows(s, Exec(retry, s, step))
    ensures Exec(retry, s, step).origin.Keys == Exec(retry, s, step).rows.Keys
  {
    StepKeepsInv(retry, s, step);
    StepOrigins(retry, s, step);
  }

  lemma RowOkStable(retry: Retry, s: State, t: State, id: Id)
    requires Grows(s, t) && id in s.rows && id in s.origin && RowOk(retry, s, id)
    ensures RowOk(retry, t, id)
  {
    assert PayloadOf(t.rows[id]) == PayloadOf(s.rows[id]);
    if s.origin[id].RetryOf? {
      var parent := s.origin[id].parent;
      assert PayloadOf(t.rows[parent]) == PayloadOf(s.rows[parent]);
    }
  }

  lemma RetryRowOk(retry: Retry, s: State, step: Step)
    requires Inv(s) && RetryInv(retry, s) && Enabled(retry, s, step) && step.Retry? && step.applied
    ensures var t := Exec(retry, s, step); step.id in t.rows && step.id in t.origin && RowOk(retry, t, step.id)
  {
    var p := s.procs[step.pid];
    assert ProcOk(s, p) && WorkerOk(retry, s, p) && RowOk(retry, s, p.id);
  }

  /** The rows a step adds are first attempts, or retries of a recorded failure. */
  lemma NewRowOk(retry: Retry, s: State, step: Step, id: Id)
    requires Inv(s) && RetryInv(retry, s) && Enabled(retry, s, step)
    requires id in Exec(retry, s, step).rows && id !in s.rows && id in Exec(retry, s, step).origin
    ensures RowOk(retry, Exec(retry, s, step), id)
  {
    OnlyTheseAdd(retry, s, step, id);
    if step.Retry? { RetryRowOk(retry, s, step); }
  }

  lemma OnlyTheseAdd(retry: Retry, s: State, step: Step, id: Id)
    requires Enabled(retry, s, step) && id in Exec(retry, s, step).rows && id !in s.rows
    ensures step.Dispatch? || (step.Retry? && step.applied && id == step.id)
  {
  }

  lemma WorkerOkStable(retry: Retry, s: State, t: State, p: Proc)
    requires WorkerOk(retry, s, p) && s.log <= t.log
    ensures WorkerOk(retry, t, p)
  {
    if p.Retrying? {
      var sent :| sent in s.log && sent.Sent? && sent.id == p.id;
      assert sent in t.log;
    }
  }

  lemma DeliverWorker(retry: Retry, s: State, step: Step)
    requires Inv(s) && Enabled(retry, s, step) && step.Deliver?
    ensures WorkerOk(retry, Exec(retry, s, step), Exec(retry, s, step).procs[step.pid])
  {
    var t := Exec(retry, s, step);
    var p := t.procs[step.pid];
    assert t.log[|s.log|] == Sent(p.id, p.ok, p.exhausted, s.clock);
  }

  lemma WriteWorker(retry: Retry, s: State, step: Step)
    requires Inv(s) && RetryInv(retry, s) && Enabled(retry, s, step) && step.Write?
    requires step.pid in Exec(retry, s, step).procs
    ensures WorkerOk(retry, Exec(retry, s, step), Exec(retry, s, step).procs[step.pid])
  {
    var t, p := Exec(retry, s, step), s.procs[step.pid];
    assert WorkerOk(retry, s, p);
    if step.applied {
      assert t.log[|s.log|] == Recorded(p.id, p.ok, p.exhausted, p.finishAt);
      assert Sent(p.id, p.ok, p.exhausted, p.finishAt) in t.log;
    }
  }

  /** Only a delivery and a write put a worker into a phase that says something. */
  lemma OtherWorkers(retry: Retry, s: State, step: Step, pid: Pid)
    requires Enabled(retry, s, step) && pid in Exec(retry, s, step).procs
    requires !((step.Deliver? || step.Write?) && pid == step.pid)
    ensures var p := Exec(retry, s, step).procs[pid];
            (pid in s.procs && p == s.procs[pid]) || (!p.Delivered? && !p.Retrying?)
  {
  }

  lemma StepWorkers(retry: Retry, s: State, step: Step, pid: Pid)
    requires Inv(s) && RetryInv(retry, s) && Enabled(retry, s, step) && s.log <= Exec(retry, s, step).log
    requires pid in Exec(retry, s, step).procs
    ensures WorkerOk(retry, Exec(retry, s, step), Exec(retry, s, step).procs[pid])
  {
    var t := Exec(retry, s, step);
    if step.Deliver? && pid == step.pid {
      DeliverWorker(retry, s, step);
    } else if step.Write? && pid == step.pid {
      WriteWorker(retry, s, step);
    } else {
      OtherWorkers(retry, s, step, pid);
      if pid in s.procs && t.procs[pid] == s.procs[pid] {
        assert WorkerOk(retry, s, s.procs[pid]);
        WorkerOkStable(retry, s, t, s.procs[pid]);
      }
    }
  }

  lemma StepKeepsRetryInv(retry: Retry, s: State, step: Step)
    requires Inv(s) && RetryInv(retry, s) && Enabled(retry, s, step)
    ensures RetryInv(retry, Exec(retry, s, step))
  {
    var t := Exec(retry, s, step);
    StepGrows(retry, s, step);
    forall id | id in t.rows ensures RowOk(retry, t, id) {
      if id in s.rows { RowOkStable(retry, s, t, id); } else { NewRowOk(retry, s, step, id); }
    }
    forall pid | pid in t.procs ensures WorkerOk(retry, t, t.procs[pid]) { StepWorkers(retry, s, step, pid); }
  }

  lemma {:induction false} RunKeepsRetryInv(retry: Retry, states: seq<State>, steps: seq<Step>, i: nat)
    requires Run(retry, states, steps) && i < |states|
    ensures Inv(states[i]) && RetryInv(retry, states[i])
  {
    RunKeepsInv(retry, states, steps, i);
    if i > 0 {
      RunKeepsRetryInv(retry, states, steps, i - 1);
      RunStep(retry, states, steps, i - 1);
      StepKeepsRetryInv(retry, states[i - 1], steps[i - 1]);
    }
  }

  /**
   Every run keeps attempt numbers between 1 and the length of the retry list, and a number above 1
   belongs to a retry of the same event and endpoint whose predecessor was recorded FAILED and not
   exhausted, scheduled at that delivery's finish time plus the predecessor's entry of the list.
   */
  lemma AttemptNumbers(retry: Retry, states: seq<State>, steps: seq<Step>, i: nat, id: Id)
    requires Run(retry, states, steps) && i < |states| && id in states[i].rows
    ensures 1 <= states[i].rows[id].number <= |retry(states[i].rows[id].endpoint)|
    ensures states[i].rows[id].number > 1 ==>
      id in states[i].origin && states[i].origin[id].RetryOf? && RetryOk(retry, states[i], id)
  {
    RunKeepsRetryInv(retry, states, steps, i);
    assert RowOk(retry, states[i], id);
  }

  /** Wherever the worker is about to index the retry list by the attempt number, the index is in range. */
  lemma RetryIndexInRange(retry: Retry, states: seq<State>, steps: seq<Step>, i: nat, pid: Pid)
    requires Run(retry, states, steps) && i < |states| && pid in states[i].procs && states[i].procs[pid].Retrying?
    ensures states[i].procs[pid].payload.number < |retry(states[i].procs[pid].payload.endpoint)|
  {
    RunKeepsRetryInv(retry, states, steps, i);
    assert WorkerOk(retry, states[i], states[i].procs[pid]);
  }

  /** What is recorded of a delivery is what its request came to. */
  ghost predicate RecordsOk(s: State)
  {
    forall o :: o in s.log && o.Recorded? ==> Sent(o.id, o.ok, o.exhausted, o.finishAt) in s.log
  }

  lemma WriteRecords(retry: Retry, s: State, step: Step)
    requires RetryInv(retry, s) && RecordsOk(s) && Enabled(retry, s, step) && step.Write?
    ensures RecordsOk(Exec(retry, s, step))
  {
    assert WorkerOk(retry, s, s.procs[step.pid]);
  }

  lemma StepRecords(retry: Retry, s: State, step: Step)
    requires RetryInv(retry, s) && RecordsOk(s) && Enabled(retry, s, step)
    ensures RecordsOk(Exec(retry, s, step))
  {
    if step.Write? { WriteRecords(retry, s, step); }
  }

  /** In every run each recorded result is the result of a request that was sent. */
  lemma {:induction false} RunKeepsRecords(retry: Retry, states: seq<State>, steps: seq<Step>, i: nat)
    requires Run(retry, states, steps) && i < |states|
    ensures RecordsOk(states[i])
  {
    if i > 0 {
      RunKeepsRecords(retry, states, steps, i - 1);
      RunKeepsRetryInv(retry, states, steps, i - 1);
      RunStep(retry, states, steps, i - 1);
      StepRecords(retry, states[i - 1], steps[i - 1]);
    }
  }

  // ------------------------------------------------------------------ runs that handle each task once

  predicate Handling(o: Outcome) { o.Sent? || o.Dropped? }

  /** No task is delivered or canceled twice. */
  ghost predicate Once(log: seq<Outcome>)
  {
    forall i, j :: 0 <= i < j < |log| && Handling(log[i]) && Handling(log[j]) ==> log[i].id != log[j].id
  }

  ghost predicate WasHandled(log: seq<Outcome>, id: Id) { exists o :: o in log && Handling(o) && o.id == id }

  predicate Busy(p: Proc, id: Id) { (p.Delivered? || p.Retrying?) && p.id == id }

  ghost predicate ParentOf(s: State, parent: Id, id: Id)
  {
    id in s.origin && s.origin[id].RetryOf? && s.origin[id].parent == parent
  }

  ghost predicate FailedOnce(s: State, id: Id)
  {
    id in s.rows && s.rows[id].status == Failed && !s.rows[id].exhausted && WasHandled(s.log, id)
  }

  /** An attempt has at most one retry, and only after it failed. */
  ghost predicate OneRetry(s: State)
  {
    && (forall p, x, y :: ParentOf(s, p, x) && ParentOf(s, p, y) ==> x == y)
    && (forall p, x :: ParentOf(s, p, x) ==> FailedOnce(s, p))
  }

  /** At most one worker is busy with a task, which then has no retry yet. */
  ghost predicate OneWorker(s: State)
  {
    && (forall pid, id :: pid in s.procs && Busy(s.procs[pid], id) ==>
          WasHandled(s.log, id) && forall x :: !ParentOf(s, id, x))
    && (forall pid, other, id ::
          pid in s.procs && other in s.procs && Busy(s.procs[pid], id) && Busy(s.procs[other], id) ==> pid == other)
    && (forall pid :: pid in s.procs && s.procs[pid].Retrying? ==> FailedOnce(s, s.procs[pid].id))
  }

  ghost predicate OnceInv(s: State) { OneRetry(s) && OneWorker(s) }

  lemma OncePrefix(a: seq<Outcome>, b: seq<Outcome>)
    requires a <= b && Once(b)
    ensures Once(a)
    ensures forall i :: |a| <= i < |b| && Handling(b[i]) ==> !WasHandled(a, b[i].id)
  {
    forall i, o | |a| <= i < |b| && Handling(b[i]) && o in a && Handling(o) ensures o.id != b[i].id {
      var j :| 0 <= j < |a| && a[j] == o;
      assert b[j] == o;
    }
  }

  lemma HandledGrows(a: seq<Outcome>, b: seq<Outcome>)
    requires a <= b
    ensures forall id :: WasHandled(a, id) ==> WasHandled(b, id)
  {
    forall id | WasHandled(a, id) ensures WasHandled(b, id) {
      var o :| o in a && Handling(o) && o.id == id;
      assert o in b;
    }
  }

  lemma CancelKeepsFailed(retry: Retry, s: State, step: Step, id: Id)
    requires Enabled(retry, s, step) && step.Cancel? && Once(Exec(retry, s, step).log) && FailedOnce(s, id)
    ensures s.log <= Exec(retry, s, step).log && FailedOnce(Exec(retry, s, step), id)
  {
    var t := Exec(retry, s, step);
    OncePrefix(s.log, t.log);
    HandledGrows(s.log, t.log);
    if step.applied { assert t.log[|s.log|] == Dropped(s.procs[step.pid].id); }
  }

  lemma MarkKeepsFailed(retry: Retry, s: State, step: Step, id: Id)
    requires Enabled(retry, s, step) && step.MarkStep? && Once(Exec(retry, s, step).log) && FailedOnce(s, id)
    ensures s.log <= Exec(retry, s, step).log && FailedOnce(Exec(retry, s, step), id)
  {
    var t := Exec(retry, s, step);
    OncePrefix(s.log, t.log);
    HandledGrows(s.log, t.log);
    if step.applied {
      var cancels := s.procs[step.pid].cancels;
      forall k | 0 <= k < |cancels| ensures cancels[k] != id {
        assert t.log[|s.log| + k] == Dropped(cancels[k]);
      }
    }
  }

  /** A row that a retry or a retrying worker relies on keeps its status. */
  lemma StepKeepsFailed(retry: Retry, s: State, step: Step, id: Id)
    requires Inv(s) && Enabled(retry, s, step) && s.log <= Exec(retry, s, step).log && Once(Exec(retry, s, step).log)
    requires FailedOnce(s, id)
    requires step.Write? ==> s.procs[step.pid].id != id
    ensures FailedOnce(Exec(retry, s, step), id)
  {
    if step.Cancel? {
      CancelKeepsFailed(retry, s, step, id);
    } else if step.MarkStep? {
      MarkKeepsFailed(retry, s, step, id);
    } else {
      HandledGrows(s.log, Exec(retry, s, step).log);
    }
  }

  lemma DeliverKeepsRetry(retry: Retry, s: State, step: Step)
    requires Inv(s) && OnceInv(s) && Enabled(retry, s, step) && step.Deliver? && Once(Exec(retry, s, step).log)
    ensures OneRetry(Exec(retry, s, step))
  {
    var t := Exec(retry, s, step);
    assert forall p, x :: ParentOf(t, p, x) == ParentOf(s, p, x);
    forall p, x | ParentOf(t, p, x) ensures FailedOnce(t, p) { StepKeepsFailed(retry, s, step, p); }
  }

  /** The worker that sends a request is the only one ever to be busy with that task. */
  lemma DeliverKeepsWorker(retry: Retry, s: State, step: Step)
    requires Inv(s) && OnceInv(s) && Enabled(retry, s, step) && step.Deliver? && Once(Exec(retry, s, step).log)
    ensures OneWorker(Exec(retry, s, step))
  {
    var t, id := Exec(retry, s, step), s.procs[step.pid].id;
    OncePrefix(s.log, t.log);
    HandledGrows(s.log, t.log);
    var sent := t.log[|s.log|];
    assert sent in t.log && Handling(sent) && sent.id == id;
    assert !WasHandled(s.log, id);
    assert forall x :: !ParentOf(s, id, x);
    assert forall p, x :: ParentOf(t, p, x) == ParentOf(s, p, x);
    forall pid | pid in t.procs && t.procs[pid].Retrying? ensures FailedOnce(t, t.procs[pid].id) {
      StepKeepsFailed(retry, s, step, t.procs[pid].id);
    }
  }

  lemma WriteKeepsRetry(retry: Retry, s: State, step: Step)
    requires Inv(s) && OnceInv(s) && Enabled(retry, s, step) && step.Write? && Once(Exec(retry, s, step).log)
    ensures OneRetry(Exec(retry, s, step))
  {
    var t, p := Exec(retry, s, step), s.procs[step.pid];
    assert Busy(p, p.id);
    assert forall q, x :: ParentOf(t, q, x) == ParentOf(s, q, x);
    forall q, x | ParentOf(t, q, x) ensures FailedOnce(t, q) { StepKeepsFailed(retry, s, step, q); }
  }

  lemma WriteKeepsWorker(retry: Retry, s: State, step: Step)
    requires Inv(s) && OnceInv(s) && Enabled(retry, s, step) && step.Write? && Once(Exec(retry, s, step).log)
    ensures OneWorker(Exec(retry, s, step))
  {
    var t, p := Exec(retry, s, step), s.procs[step.pid];
    HandledGrows(s.log, t.log);
    assert ProcOk(s, p) && Busy(p, p.id);
    assert forall q, x :: ParentOf(t, q, x) == ParentOf(s, q, x);
    forall pid | pid in t.procs && t.procs[pid].Retrying? ensures FailedOnce(t, t.procs[pid].id) {
      if pid != step.pid {
        assert Busy(s.procs[pid], s.procs[pid].id);
        StepKeepsFailed(retry, s, step, t.procs[pid].id);
      }
    }
    assert forall pid, id :: pid in t.procs && Busy(t.procs[pid], id) ==> pid in s.procs && Busy(s.procs[pid], id);
  }

  lemma RetryKeepsRetry(retry: Retry, s: State, step: Step)
    requires Inv(s) && OnceInv(s) && Enabled(retry, s, step) && step.Retry? && s.origin.Keys == s.rows.Keys
    requires Once(Exec(retry, s, step).log)
    ensures OneRetry(Exec(retry, s, step))
  {
    var t, p := Exec(retry, s, step), s.procs[step.pid];
    assert Busy(p, p.id) && FailedOnce(s, p.id);
    assert forall q, x :: ParentOf(t, q, x) ==> ParentOf(s, q, x) || (q == p.id && x == step.id);
    forall q, x | ParentOf(t, q, x) ensures FailedOnce(t, q) { StepKeepsFailed(retry, s, step, q); }
  }

  lemma RetryKeepsWorker(retry: Retry, s: State, step: Step)
    requires Inv(s) && OnceInv(s) && Enabled(retry, s, step) && step.Retry? && s.origin.Keys == s.rows.Keys
    requires Once(Exec(retry, s, step).log)
    ensures OneWorker(Exec(retry, s, step))
  {
    var t, p := Exec(retry, s, step), s.procs[step.pid];
    assert Busy(p, p.id);
    assert forall q, x :: ParentOf(t, q, x) ==> ParentOf(s, q, x) || (q == p.id && x == step.id);
    assert forall pid, id :: pid in t.procs && Busy(t.procs[pid], id) ==>
      pid in s.procs && pid != step.pid && Busy(s.procs[pid], id);
    forall pid | pid in t.procs && t.procs[pid].Retrying? ensures FailedOnce(t, t.procs[pid].id) {
      StepKeepsFailed(retry, s, step, t.procs[pid].id);
    }
  }

  /** No new retry, no newly busy worker, and the failures relied on still stand. */
  lemma FewerBusy(s: State, t: State)
    requires OnceInv(s) && s.log <= t.log
    requires forall q, x :: ParentOf(t, q, x) ==> ParentOf(s, q, x)
    requires forall pid :: pid in t.procs && (t.procs[pid].Delivered? || t.procs[pid].Retrying?) ==>
      pid in s.procs && t.procs[pid] == s.procs[pid]
    requires forall id :: FailedOnce(s, id) ==> FailedOnce(t, id)
    ensures OnceInv(t)
  {
    HandledGrows(s.log, t.log);
    assert forall pid, id :: pid in t.procs && Busy(t.procs[pid], id) ==> pid in s.procs && Busy(s.procs[pid], id);
  }

  lemma OtherStepsKeepOnce(retry: Retry, s: State, step: Step)
    requires Inv(s) && OnceInv(s) && Enabled(retry, s, step) && s.origin.Keys == s.rows.Keys
    requires !step.Deliver? && !step.Write? && !step.Retry?
    requires s.log <= Exec(retry, s, step).log && Once(Exec(retry, s, step).log)
    ensures OnceInv(Exec(retry, s, step))
  {
    var t := Exec(retry, s, step);
    forall id | FailedOnce(s, id) ensures FailedOnce(t, id) { StepKeepsFailed(retry, s, step, id); }
    NoneNewlyBusy(retry, s, step);
    FewerBusy(s, t);
  }

  lemma NoneNewlyBusy(retry: Retry, s: State, step: Step)
    requires Enabled(retry, s, step) && s.origin.Keys == s.rows.Keys && !step.Deliver? && !step.Write? && !step.Retry?
    ensures var t := Exec(retry, s, step);
            && (forall q, x :: ParentOf(t, q, x) ==> ParentOf(s, q, x))
            && (forall pid :: pid in t.procs && (t.procs[pid].Delivered? || t.procs[pid].Retrying?) ==>
                  pid in s.procs && t.procs[pid] == s.procs[pid])
  {
  }

  lemma StepKeepsOnce(retry: Retry, s: State, step: Step)
    requires Inv(s) && OnceInv(s) && Enabled(retry, s, step) && s.origin.Keys == s.rows.Keys
    requires s.log <= Exec(retry, s, step).log && Once(Exec(retry, s, step).log)
    ensures OnceInv(Exec(retry, s, step))
  {
    if step.Deliver? {
      DeliverKeepsRetry(retry, s, step);
      DeliverKeepsWorker(retry, s, step);
    } else if step.Write? {
      WriteKeepsRetry(retry, s, step);
      WriteKeepsWorker(retry, s, step);
    } else if step.Retry? {
      RetryKeepsRetry(retry, s, step);
      RetryKeepsWorker(retry, s, step);
    } else {
      OtherStepsKeepOnce(retry, s, step);
    }
  }

  lemma StepOncePrefix(retry: Retry, s: State, step: Step)
    requires Inv(s) && Enabled(retry, s, step) && s.origin.Keys == s.rows.Keys && Once(Exec(retry, s, step).log)
    ensures s.log <= Exec(retry, s, step).log && Once(s.log)
  {
    StepGrows(retry, s, step);
    OncePrefix(s.log, Exec(retry, s, step).log);
  }

  /** The last step of a run that handles each task once. */
  lemma RunStepOnce(retry: Retry, states: seq<State>, steps: seq<Step>, i: nat)
    requires Run(retry, states, steps) && i < |steps| && Once(states[i + 1].log)
    ensures Once(states[i].log) && (OnceInv(states[i]) ==> OnceInv(states[i + 1]))
  {
    RunStep(retry, states, steps, i);
    RunKeepsRetryInv(retry, states, steps, i);
    StepOncePrefix(retry, states[i], steps[i]);
    if OnceInv(states[i]) { StepKeepsOnce(retry, states[i], steps[i]); }
  }

  lemma {:induction false} RunKeepsOnce(retry: Retry, states: seq<State>, steps: seq<Step>, i: nat)
    requires Run(retry, states, steps) && i < |states| && Once(states[i].log)
    ensures OnceInv(states[i])
  {
    if i > 0 {
      RunStepOnce(retry, states, steps, i - 1);
      RunKeepsOnce(retry, states, steps, i - 1);
    }
  }

  // ------------------------------------------------------------------ chains

  /** The first attempt of the chain an attempt belongs to. */
  ghost function RootOf(retry: Retry, s: State, id: Id): (r: Id)
    requires RetryInv(retry, s) && id in s.rows
    ensures r in s.rows && s.rows[r].number == 1
    ensures s.rows[r].event == s.rows[id].event && s.rows[r].endpoint == s.rows[id].endpoint
    decreases s.rows[id].number
  {
    assert RowOk(retry, s, id);
    if s.origin[id].Root? then id else RootOf(retry, s, s.origin[id].parent)
  }

  ghost function Chain(retry: Retry, s: State, root: Id): set<Id>
    requires RetryInv(retry, s)
  {
    set id | id in s.rows && RootOf(retry, s, id) == root
  }

  lemma {:induction false} OneAttemptPerNumber(retry: Retry, s: State, x: Id, y: Id)
    requires RetryInv(retry, s) && OnceInv(s) && x in s.rows && y in s.rows
    requires RootOf(retry, s, x) == RootOf(retry, s, y) && s.rows[x].number == s.rows[y].number
    ensures x == y
    decreases s.rows[x].number
  {
    assert RowOk(retry, s, x) && RowOk(retry, s, y);
    if s.rows[x].number > 1 {
      OneAttemptPerNumber(retry, s, s.origin[x].parent, s.origin[y].parent);
      assert ParentOf(s, s.origin[x].parent, x) && ParentOf(s, s.origin[x].parent, y);
    }
  }

  lemma {:induction false} EarlierAttemptsFailed(retry: Retry, s: State, x: Id, y: Id)
    requires RetryInv(retry, s) && OnceInv(s) && x in s.rows && y in s.rows
    requires RootOf(retry, s, x) == RootOf(retry, s, y) && s.rows[x].number < s.rows[y].number
    ensures s.rows[x].status == Failed && !s.rows[x].exhausted
    decreases s.rows[y].number
  {
    assert RowOk(retry, s, x) && RowOk(retry, s, y);
    var parent := s.origin[y].parent;
    assert ParentOf(s, parent, y);
    if s.rows[parent].number == s.rows[x].number {
      OneAttemptPerNumber(retry, s, x, parent);
    } else {
      EarlierAttemptsFailed(retry, s, x, parent);
    }
  }

  lemma {:induction false} ChainSize(retry: Retry, s: State, members: set<Id>, n: nat)
    requires RetryInv(retry, s) && members <= s.rows.Keys
    requires forall x, y :: x in members && y in members && s.rows[x].number == s.rows[y].number ==> x == y
    requires forall x :: x in members ==> 1 <= s.rows[x].number <= n
    ensures |members| <= n
    decreases n
  {
    if n == 0 {
      assert members == {};
    } else if x :| x in members && s.rows[x].number == n {
      ChainSize(retry, s, members - {x}, n - 1);
    } else {
      ChainSize(retry, s, members, n - 1);
    }
  }

  /** The requests sent for a set of tasks, each sent at most once, are no more than the tasks. */
  lemma {:induction false} SentAtMostOnce(log: seq<Outcome>, ids: set<Id>, sent: set<nat>)
    requires Once(log)
    requires forall i :: i in sent ==> i < |log| && log[i].Sent? && log[i].id in ids
    ensures |sent| <= |ids|
    decreases sent
  {
    if i :| i in sent {
      SentAtMostOnce(log, ids - {log[i].id}, sent - {i});
    }
  }

  /**
   The members of a chain: attempts 1, 2, .., k, each but the first a retry of the member before it,
   and all but the last FAILED and not exhausted.
   */
  ghost predicate ChainOk(retry: Retry, s: State, chain: set<Id>)
  {
    && chain <= s.rows.Keys && chain <= s.origin.Keys
    && (forall x, y :: x in chain && y in chain && s.rows[x].number == s.rows[y].number ==> x == y)
    && (forall x :: x in chain && s.rows[x].number > 1 ==>
          s.origin[x].RetryOf? && s.origin[x].parent in chain && RetryOk(retry, s, x))
    && (forall x, y :: x in chain && y in chain && s.rows[x].number < s.rows[y].number ==>
          s.rows[x].status == Failed && !s.rows[x].exhausted)
  }

  lemma PredecessorInChain(retry: Retry, s: State, root: Id, x: Id)
    requires RetryInv(retry, s) && x in Chain(retry, s, root) && s.rows[x].number > 1
    ensures s.origin[x].RetryOf? && s.origin[x].parent in Chain(retry, s, root) && RetryOk(retry, s, x)
  {
    assert RowOk(retry, s, x);
  }

  lemma ChainShape(retry: Retry, s: State, root: Id, chain: set<Id>)
    requires RetryInv(retry, s) && OnceInv(s) && chain == Chain(retry, s, root)
    ensures ChainOk(retry, s, chain)
  {
    forall x, y | x in chain && y in chain && s.rows[x].number == s.rows[y].number ensures x == y {
      OneAttemptPerNumber(retry, s, x, y);
    }
    forall x | x in chain && s.rows[x].number > 1
      ensures s.origin[x].RetryOf? && s.origin[x].parent in chain && RetryOk(retry, s, x)
    {
      PredecessorInChain(retry, s, root, x);
    }
    forall x, y | x in chain && y in chain && s.rows[x].number < s.rows[y].number
      ensures s.rows[x].status == Failed && !s.rows[x].exhausted
    {
      EarlierAttemptsFailed(retry, s, x, y);
    }
  }

  /** When each task is handled once, every dispatched event and endpoint has exactly one such chain. */
  lemma OneChainPerDispatch(retry: Retry, states: seq<State>, steps: seq<Step>, i: nat, root: Id)
    requires Run(retry, states, steps) && i < |states| && Once(states[i].log)
    requires root in states[i].rows && states[i].rows[root].number == 1
    ensures RetryInv(retry, states[i]) && root in Chain(retry, states[i], root)
    ensures ChainOk(retry, states[i], Chain(retry, states[i], root))
  {
    RunKeepsRetryInv(retry, states, steps, i);
    RunKeepsOnce(retry, states, steps, i);
    assert RowOk(retry, states[i], root);
    ChainShape(retry, states[i], root, Chain(retry, states[i], root));
  }

  /** Hence at most n attempts per dispatched event and endpoint, and at most n requests sent for them. */
  lemma RequestsPerDispatch(retry: Retry, states: seq<State>, steps: seq<Step>, i: nat, root: Id, sent: set<nat>)
    requires Run(retry, states, steps) && i < |states| && Once(states[i].log)
    requires root in states[i].rows && states[i].rows[root].number == 1 && RetryInv(retry, states[i])
    requires forall k :: k in sent ==>
      k < |states[i].log| && states[i].log[k].Sent? && states[i].log[k].id in Chain(retry, states[i], root)
    ensures |sent| <= |Chain(retry, states[i], root)| <= |retry(states[i].rows[root].endpoint)|
  {
    OneChainPerDispatch(retry, states, steps, i, root);
    var s := states[i];
    var chain := Chain(retry, s, root);
    forall x | x in chain ensures 1 <= s.rows[x].number <= |retry(s.rows[root].endpoint)| { assert RowOk(retry, s, x); }
    ChainSize(retry, s, chain, |retry(s.rows[root].endpoint)|);
    SentAtMostOnce(s.log, chain, sent);
  }
}
