/** What the attempts table says of an attempt, against the history of what was recorded about it. */
module Results {
  import opened Common
  import opened TaskQueue
  import opened Attempts
  import opened Delivery

  /** An entry that records a result: of a delivery, or that there was none to make. */
  predicate Settles(o: Outcome, id: Id) { (o.Recorded? || o.Dropped?) && o.id == id }

  /** The last result recorded about an attempt. */
  function LastResult(log: seq<Outcome>, id: Id): (o: Option<Outcome>)
    ensures o.Some? ==> o.value in log && Settles(o.value, id)
    ensures o.None? <==> forall x :: x in log ==> !Settles(x, id)
  {
    if log == [] then None
    else if Settles(log[|log| - 1], id) then Some(log[|log| - 1])
    else
      assert forall x :: x in log <==> x in log[..|log| - 1] || x == log[|log| - 1];
      LastResult(log[..|log| - 1], id)
  }

  /** A row against the last result: SUCCESSFUL or FAILED as the request went, CANCELED without one, else open. */
  ghost predicate Shows(row: Row, last: Option<Outcome>)
  {
    match last
    case None => (row.status.Init? || row.status.Queued?) && !row.exhausted
    case Some(Recorded(_, ok, exhausted, _)) =>
      (if ok then row.status.Successful? else row.status.Failed?) && (row.exhausted <==> exhausted)
    case Some(_) => row.status.Canceled?
  }

  ghost predicate RowsShow(s: State)
  {
    && (forall id :: id in s.rows ==> Shows(s.rows[id], LastResult(s.log, id)))
    && (forall id :: LastResult(s.log, id).Some? ==> id in s.rows)
  }

  function CancelsOf(p: Proc): seq<Id>
  {
    match p
    case Scheduling(_, cancels, _) => cancels
    case Enqueuing(_, cancels, _) => cancels
    case Marking(_, cancels, _) => cancels
    case _ => []
  }

  /** Threads cancel existing rows only. */
  ghost predicate CancelsKnown(s: State)
  {
    forall pid, id :: pid in s.procs && id in CancelsOf(s.procs[pid]) ==> id in s.rows
  }

  lemma OneMore(log: seq<Outcome>, o: Outcome, id: Id)
    ensures LastResult(log + [o], id) == if Settles(o, id) then Some(o) else LastResult(log, id)
  {
    assert (log + [o])[..|log|] == log;
  }

  lemma {:induction false} ManyDropped(log: seq<Outcome>, ids: seq<Id>, id: Id)
    ensures LastResult(log + CancelLog(ids), id) == if id in ids then Some(Dropped(id)) else LastResult(log, id)
  {
    if ids == [] {
      assert log + CancelLog(ids) == log;
    } else {
      var rest, last := ids[..|ids| - 1], ids[|ids| - 1];
      assert ids == rest + [last];
      assert log + CancelLog(ids) == log + CancelLog(rest) + [Dropped(last)];
      ManyDropped(log, rest, id);
      OneMore(log + CancelLog(rest), Dropped(last), id);
    }
  }

  /** Only a scan takes on cancellations, of rows it has read. */
  lemma CancelsFrom(retry: Retry, s: State, step: Step)
    requires CancelsKnown(s) && Enabled(retry, s, step) && IsScheduling(step) && step.pid in Exec(retry, s, step).procs
    ensures forall id :: id in CancelsOf(Exec(retry, s, step).procs[step.pid]) ==> id in s.rows
  {
  }

  lemma NoCancels(retry: Retry, s: State, step: Step, pid: Pid)
    requires Enabled(retry, s, step) && !IsScheduling(step) && Moves(step, pid) && pid in Exec(retry, s, step).procs
    ensures CancelsOf(Exec(retry, s, step).procs[pid]) == []
  {
  }

  lemma StepCancels(retry: Retry, s: State, step: Step)
    requires CancelsKnown(s) && Enabled(retry, s, step) && s.rows.Keys <= Exec(retry, s, step).rows.Keys
    ensures CancelsKnown(Exec(retry, s, step))
  {
    var t := Exec(retry, s, step);
    forall pid, id | pid in t.procs && id in CancelsOf(t.procs[pid]) ensures id in t.rows {
      if !Moves(step, pid) {
        OthersStay(retry, s, step, pid);
      } else if IsScheduling(step) {
        CancelsFrom(retry, s, step);
      } else {
        NoCancels(retry, s, step, pid);
      }
    }
  }

  lemma MarkShows(retry: Retry, s: State, step: Step)
    requires CancelsKnown(s) && RowsShow(s) && Enabled(retry, s, step) && step.MarkStep?
    ensures RowsShow(Exec(retry, s, step))
  {
    var t := Exec(retry, s, step);
    if step.applied {
      var cancels := s.procs[step.pid].cancels;
      forall id | id in t.rows ensures Shows(t.rows[id], LastResult(t.log, id)) { ManyDropped(s.log, cancels, id); }
      forall id | LastResult(t.log, id).Some? ensures id in t.rows { ManyDropped(s.log, cancels, id); }
    }
  }

  /** One result was recorded, and its row shows it. */
  lemma OneResult(s: State, t: State, o: Outcome)
    requires RowsShow(s) && t.log == s.log + [o] && t.rows.Keys == s.rows.Keys
    requires forall id :: id in s.rows && !Settles(o, id) ==> t.rows[id] == s.rows[id]
    requires (o.Recorded? || o.Dropped?) && o.id in t.rows && Shows(t.rows[o.id], Some(o))
    ensures RowsShow(t)
  {
    forall id ensures LastResult(t.log, id) == if Settles(o, id) then Some(o) else LastResult(s.log, id) {
      OneMore(s.log, o, id);
    }
  }

  lemma CancelShows(retry: Retry, s: State, step: Step)
    requires Inv(s) && RowsShow(s) && Enabled(retry, s, step) && step.Cancel?
    ensures RowsShow(Exec(retry, s, step))
  {
    assert ProcOk(s, s.procs[step.pid]);
    if step.applied { OneResult(s, Exec(retry, s, step), Dropped(s.procs[step.pid].id)); }
  }

  lemma WriteShows(retry: Retry, s: State, step: Step)
    requires Inv(s) && RowsShow(s) && Enabled(retry, s, step) && step.Write?
    ensures RowsShow(Exec(retry, s, step))
  {
    var p := s.procs[step.pid];
    assert ProcOk(s, p);
    if step.applied { OneResult(s, Exec(retry, s, step), Recorded(p.id, p.ok, p.exhausted, p.finishAt)); }
  }

  lemma RequestShows(retry: Retry, s: State, step: Step)
    requires RowsShow(s) && Enabled(retry, s, step) && step.Deliver?
    ensures RowsShow(Exec(retry, s, step))
  {
    var t := Exec(retry, s, step);
    forall id ensures LastResult(t.log, id) == LastResult(s.log, id) { OneMore(s.log, t.log[|s.log|], id); }
  }

  /** Only those four kinds of steps write to the history or to rows that exist. */
  lemma OthersShow(retry: Retry, s: State, step: Step)
    requires RowsShow(s) && Enabled(retry, s, step)
    requires !step.MarkStep? && !step.Cancel? && !step.Write? && !step.Deliver?
    ensures RowsShow(Exec(retry, s, step))
  {
  }

  lemma StepShows(retry: Retry, s: State, step: Step)
    requires Inv(s) && CancelsKnown(s) && RowsShow(s) && Enabled(retry, s, step)
    ensures RowsShow(Exec(retry, s, step)) && CancelsKnown(Exec(retry, s, step))
  {
    StepKeepsInv(retry, s, step);
    StepCancels(retry, s, step);
    if step.MarkStep? {
      MarkShows(retry, s, step);
    } else if step.Cancel? {
      CancelShows(retry, s, step);
    } else if step.Write? {
      WriteShows(retry, s, step);
    } else if step.Deliver? {
      RequestShows(retry, s, step);
    } else {
      OthersShow(retry, s, step);
    }
  }

  lemma {:induction false} RunShows(retry: Retry, states: seq<State>, steps: seq<Step>, i: nat)
    requires Run(retry, states, steps) && i < |states|
    ensures RowsShow(states[i]) && CancelsKnown(states[i])
  {
    if i > 0 {
      RunShows(retry, states, steps, i - 1);
      RunKeepsInv(retry, states, steps, i - 1);
      RunStep(retry, states, steps, i - 1);
      StepShows(retry, states[i - 1], steps[i - 1]);
    }
  }

  /**
   The last result recorded about an attempt decides its row: SUCCESSFUL if the request succeeded, FAILED if not, with
   the exhausted flag recorded, and CANCELED when it was dropped. A row without a result is INIT or QUEUED.
   */
  lemma LastResultDecides(retry: Retry, states: seq<State>, steps: seq<Step>, i: nat, id: Id)
    requires Run(retry, states, steps) && i < |states| && id in states[i].rows
    ensures var row, last := states[i].rows[id], LastResult(states[i].log, id);
            && (Terminal(states[i].rows, id) <==> last.Some?)
            && (row.status.Successful? <==> last.Some? && last.value.Recorded? && last.value.ok)
            && (row.status.Failed? <==> last.Some? && last.value.Recorded? && !last.value.ok)
            && (row.status.Canceled? <==> last.Some? && last.value.Dropped?)
            && (last.Some? && last.value.Recorded? ==> (row.exhausted <==> last.value.exhausted))
  {
    RunShows(retry, states, steps, i);
  }
}
