/** The per-second counter of worker/circuitbreaker/metrics/unix_aggregation.go, used by one caller at a time. */
module Counter {

  datatype Event = Success | Error

  /** The value of `unix` while one call is resetting the counters. */
  const UPDATING := -1

  datatype Slot = Slot(unix: int, success: nat, error: nat)

  function Hit(event: Event, of: Event): nat { if event == of then 1 else 0 }

  /** What one undisturbed Record does. */
  function SlotRecord(slot: Slot, ts: int, event: Event): Slot
  {
    if slot.unix == ts then Slot(ts, slot.success + Hit(event, Success), slot.error + Hit(event, Error))
    else if slot.unix > ts then slot
    else Slot(ts, Hit(event, Success), Hit(event, Error))
  }

  class UnixAggregation {
    var unix: int
    var success: nat
    var error: nat

    constructor ()
      ensures Value() == Slot(0, 0, 0)
    {
      unix, success, error := 0, 0, 0;
    }

    function Value(): Slot reads this { Slot(unix, success, error) }

    /** Loads the three fields one after the other; with no call under way there is no reset to wait for. */
    method Snapshot() returns (s: Slot)
      requires unix != UPDATING
      ensures s == Value()
    {
      var u := unix;
      var hits := success;
      var misses := error;
      s := Slot(u, hits, misses);
    }

    method CompareAndSwap(from: int, to: int) returns (swapped: bool)
      modifies this`unix
      ensures swapped == (old(unix) == from)
      ensures unix == if swapped then to else old(unix)
    {
      swapped := unix == from;
      if swapped { unix := to; }
    }

    /** The retry loop; without a concurrent call its first round always returns. */
    method Record(ts: int, event: Event)
      requires unix != UPDATING && ts >= 0
      modifies this
      ensures Value() == SlotRecord(old(Value()), ts, event)
    {
      var returned := false;
      while !returned
        invariant !returned ==> Value() == old(Value())
        invariant returned ==> Value() == SlotRecord(old(Value()), ts, event)
        decreases !returned
      {
        var u := unix;
        if u == ts {
          success := success + Hit(event, Success);
          error := error + Hit(event, Error);
          returned := true;
        } else if u > ts {
          returned := true;
        } else {
          var swapped := false;
          if u != UPDATING { swapped := CompareAndSwap(u, UPDATING); }
          if swapped {
            success := Hit(event, Success);
            error := Hit(event, Error);
            unix := ts;
            returned := true;
          }
        }
      }
    }
  }
}
