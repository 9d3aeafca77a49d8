/** The attempts table and the guarded and unguarded row updates of db/dao/attempt_dao.go. */
module Attempts {
  import opened Common
  import opened TaskQueue

  datatype Status = Init | Queued | Successful | Failed | Canceled

  /** An attempt row, without request, response and trigger-mode columns. */
  datatype Row = Row(event: Id, endpoint: Id, number: nat, scheduledAt: int, status: Status, exhausted: bool)

  type Rows = map<Id, Row>

  predicate Done(status: Status) { status.Successful? || status.Failed? || status.Canceled? }

  predicate Terminal(rows: Rows, id: Id) { id in rows && Done(rows[id].status) }

  function PayloadOf(row: Row): Payload { Payload(row.event, row.endpoint, row.number) }

  function TaskOf(id: Id, row: Row): NewTask { NewTask(id, row.scheduledAt, PayloadOf(row)) }

  /** UPDATE .. SET status, exhausted WHERE id: no guard on the current status. */
  function UpdateDelivery(rows: Rows, id: Id, status: Status, exhausted: bool): Rows
  {
    if id in rows then rows[id := rows[id].(status := status, exhausted := exhausted)] else rows
  }

  /** UPDATE .. SET status WHERE id IN ids AND status = 'INIT'. */
  function UpdateStatusToQueued(rows: Rows, ids: set<Id>): Rows
  {
    map id | id in rows ::
      if id in ids && rows[id].status == Init then rows[id].(status := Queued) else rows[id]
  }

  /** UPDATE .. SET status, error_code WHERE id: no guard either. */
  function UpdateErrorCode(rows: Rows, id: Id, status: Status): Rows
  {
    if id in rows then rows[id := rows[id].(status := status)] else rows
  }

  function CancelAll(rows: Rows, ids: seq<Id>): Rows
  {
    map id | id in rows :: if id in ids then rows[id].(status := Canceled) else rows[id]
  }

  // ------------------------------------------------------------------ what the updates guarantee

  /** Marking QUEUED is guarded: it changes exactly the named INIT rows, in their status alone, and no other row. */
  lemma MarkGuarded(rows: Rows, ids: set<Id>, id: Id)
    requires id in rows
    ensures var after := UpdateStatusToQueued(rows, ids);
            && id in after && after[id].(status := rows[id].status) == rows[id]
            && (after[id] != rows[id] <==> id in ids && rows[id].status == Init)
            && (after[id].status == Init <==> rows[id].status == Init && id !in ids)
  {
  }

  /** A delivery's result and a mark give the same table in either order, so a late mark revives nothing. */
  lemma ResultAndMarkCommute(rows: Rows, id: Id, status: Status, exhausted: bool, ids: set<Id>)
    requires Done(status)
    ensures UpdateDelivery(UpdateStatusToQueued(rows, ids), id, status, exhausted)
         == UpdateStatusToQueued(UpdateDelivery(rows, id, status, exhausted), ids)
  {
    var a := UpdateDelivery(UpdateStatusToQueued(rows, ids), id, status, exhausted);
    var b := UpdateStatusToQueued(UpdateDelivery(rows, id, status, exhausted), ids);
    assert a.Keys == b.Keys;
    assert forall k :: k in a ==> a[k] == b[k];
  }

  /** So do a cancellation and a mark. */
  lemma CancelAndMarkCommute(rows: Rows, id: Id, ids: set<Id>)
    ensures UpdateErrorCode(UpdateStatusToQueued(rows, ids), id, Canceled)
         == UpdateStatusToQueued(UpdateErrorCode(rows, id, Canceled), ids)
  {
    var a := UpdateErrorCode(UpdateStatusToQueued(rows, ids), id, Canceled);
    var b := UpdateStatusToQueued(UpdateErrorCode(rows, id, Canceled), ids);
    assert a.Keys == b.Keys;
    assert forall k :: k in a ==> a[k] == b[k];
  }
}
