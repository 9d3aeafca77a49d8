/**
 * The keyset iterator (db/dao/iterator.go, db/dao/dao.go): rows are read page by page in descending key order,
 * each page below the last row yielded, while the table changes between reads.
 */
module Iterators {
  import opened Common
  import opened Queries

  datatype Outcome = Yielded | Ended | Panicked

  /** The fields of an iterator other than its query. */
  datatype Iter = Iter(hasMore: bool, current: Option<Row>, err: bool, values: seq<Row>)

  /** The query `Iterate` makes of the caller's. */
  function IterateQuery(q: QueryValue): QueryValue {
    q.(offset := 0, reverse := false, orders := [Order("id", Desc)], cursorModel := true)
  }

  function Below(q: QueryValue, id: Id): QueryValue {
    q.(wheres := q.wheres + [Condition("id", LessThan, id)])
  }

  /** A read of one page. It may fail after some rows were scanned: `failure` is their number. */
  function Fetch(schema: set<string>, rows: seq<Row>, q: QueryValue, failure: Option<nat>, it: Iter): Iter
    requires q.limit > 0 && |q.orders| == 1
  {
    if failure.Some? then
      var found := Select(schema, rows, q.wheres, q.orders[0].sort, q.limit + 1, Max(q.offset, 0));
      it.(values := Take(found, failure.value), hasMore := false, err := true)
    else
      var c := CursorOf(schema, rows, q);
      it.(values := c.data, hasMore := c.hasMore, err := false)
  }

  /** `Next` fetches only when nothing is left and the last page was not the final one. */
  predicate Fetches(it: Iter) { it.values == [] && it.hasMore && it.current.Some? }

  function Next(schema: set<string>, rows: seq<Row>, q: QueryValue, failure: Option<nat>, it: Iter): (Iter, Outcome)
    requires q.limit > 0 && |q.orders| == 1
  {
    if it.values == [] && it.hasMore && it.current.None? then (it, Panicked)
    else
      var f := if Fetches(it) then Fetch(schema, rows, Below(q, it.current.value.id), failure, it) else it;
      Pop(f)
  }

  function Pop(it: Iter): (Iter, Outcome) {
    if it.values == [] then (it, Ended)
    else (it.(current := Some(it.values[0]), values := it.values[1..]), Yielded)
  }

  // ---- the object ----------------------------------------------------------------------

  class Iterator {
    var hasMore: bool
    var current: Option<Row>
    var err: bool
    var query: Query
    var values: seq<Row>

    ghost function Value(): Iter
      reads this
    {
      Iter(hasMore, current, err, values)
    }

    /** Starts an iteration on a copy of the caller's query and reads the first page. */
    constructor (dao: Dao, query: Query, failure: Option<nat>)
      requires query.limit > 0
      ensures fresh(this.query) && this.query.Value() == IterateQuery(query.Value())
      ensures Value() == Fetch(dao.schema, dao.rows, this.query.Value(), failure, Iter(false, None, false, []))
    {
      var q := query.Clone();
      q.offset := 0;
      q.reverse := false;
      q.orders := [Order("id", Desc)];
      q.cursorModel := true;
      this.query := q;
      this.hasMore, this.current, this.err, this.values := false, None, false, [];
      new;
      FetchData(dao, q, failure);
    }

    method FetchData(dao: Dao, q: Query, failure: Option<nat>)
      requires q.limit > 0 && |q.orders| == 1 && q.orders[0].column == "id"
      modifies this
      ensures Value() == Fetch(dao.schema, dao.rows, q.Value(), failure, old(Value()))
      ensures query == old(query)
    {
      if failure.Some? {
        var found := Select(dao.schema, dao.rows, q.wheres, q.orders[0].sort, q.limit + 1, Max(q.offset, 0));
        values, hasMore, err := Take(found, failure.value), false, true;
      } else {
        var cursor := dao.ReadCursor(q);
        values, hasMore, err := cursor.data, cursor.hasMore, false;
      }
    }

    /** Moves to the next row; the table is whatever it is at this call. */
    method MoveNext(dao: Dao, failure: Option<nat>) returns (outcome: Outcome)
      requires query.limit > 0 && query.orders == [Order("id", Desc)]
      modifies this
      ensures (Value(), outcome) == Next(dao.schema, dao.rows, old(query.Value()), failure, old(Value()))
      ensures query == old(query)
    {
      if |values| == 0 && hasMore {
        if current.None? {
          return Panicked;
        }
        var id := current.value.id;
        var q := query.Clone();
        q.Where("id", LessThan, id);
        FetchData(dao, q, failure);
      }
      if |values| == 0 {
        return Ended;
      }
      current := Some(values[0]);
      values := values[1..];
      return Yielded;
    }
  }

  // ---- runs ---------------------------------------------------------------------------------

  /** The table a call finds, and whether its read fails. */
  datatype Call = Call(rows: seq<Row>, failure: Option<nat>)

  /** What a run has done: the iterator, the rows yielded, the tables read, and the last outcome. */
  datatype State = State(it: Iter, yielded: seq<Row>, tables: seq<seq<Row>>, outcome: Outcome)

  function Start(schema: set<string>, q: QueryValue, c: Call): State
    requires q.limit > 0 && |q.orders| == 1
  {
    State(Fetch(schema, c.rows, q, c.failure, Iter(false, None, false, [])), [], [c.rows], Yielded)
  }

  function Step(schema: set<string>, q: QueryValue, s: State, c: Call): State
    requires q.limit > 0 && |q.orders| == 1
  {
    var (it, outcome) := Next(schema, c.rows, q, c.failure, s.it);
    State(
      it,
      if outcome.Yielded? && it.current.Some? then s.yielded + [it.current.value] else s.yielded,
      if Fetches(s.it) then s.tables + [c.rows] else s.tables,
      outcome)
  }

  function Run(schema: set<string>, q: QueryValue, first: Call, nexts: seq<Call>): State
    requires q.limit > 0 && |q.orders| == 1
  {
    if nexts == [] then Start(schema, q, first)
    else Step(schema, q, Run(schema, q, first, nexts[..|nexts| - 1]), nexts[|nexts| - 1])
  }

  // ---- one page ------------------------------------------------------------------------------

  ghost predicate Descending(rows: seq<Row>) {
    forall i, j :: 0 <= i < j < |rows| ==> rows[i].id > rows[j].id
  }

  /** The row with this key is in the table and passes the conditions. */
  ghost predicate Present(schema: set<string>, wheres: seq<Condition>, rows: seq<Row>, id: Id) {
    exists row :: row in rows && row.id == id && Matches(schema, wheres, row)
  }

  ghost predicate Listed(rows: seq<Row>, id: Id) { exists i :: 0 <= i < |rows| && rows[i].id == id }

  /** A matching key is on the page, or the page is not the last and the key is below all of it. */
  ghost predicate Reached(rows: seq<Row>, hasMore: bool, id: Id) {
    Listed(rows, id) || (hasMore && rows != [] && id < rows[|rows| - 1].id)
  }

  /** A page of the descending list of matching rows. */
  lemma PageOfSorted(kept: seq<Row>, n: nat)
    requires IsTable(kept)
    ensures var d := Reversed(kept);
      && Descending(Take(d, n))
      && (forall row :: row in Take(d, n) ==> row in kept)
      && (forall row :: row in kept && n > 0 ==> Reached(Take(d, n), |kept| > n, row.id))
  {
    var d := Reversed(kept);
    forall row | row in kept && n > 0 ensures Reached(Take(d, n), |kept| > n, row.id) {
      var i :| 0 <= i < |kept| && kept[i] == row;
      var j := |kept| - 1 - i;
      if j < n { assert Take(d, n)[j].id == row.id; } else { assert d[n - 1].id > d[j].id; }
    }
  }

  ghost predicate IsIterateQuery(q: QueryValue) { q.limit > 0 && q == IterateQuery(q) }

  /** A successful read returns descending matching rows and passes over none. */
  lemma FetchReaches(schema: set<string>, rows: seq<Row>, q: QueryValue, failure: Option<nat>, it: Iter)
    requires IsIterateQuery(q) && IsTable(rows)
    ensures var f := Fetch(schema, rows, q, failure, it);
      && f.current == it.current
      && Descending(f.values)
      && (forall row :: row in f.values ==> row in rows && Matches(schema, q.wheres, row))
      && (f.hasMore ==> f.values != [] && !f.err)
      && (!f.err ==> forall id :: Present(schema, q.wheres, rows, id) ==> Reached(f.values, f.hasMore, id))
  {
    var kept := Filter(schema, q.wheres, rows);
    FilterSelects(schema, q.wheres, rows);
    PageOfSorted(kept, q.limit);
    var d, found := Reversed(kept), Take(Reversed(kept), q.limit + 1);
    assert Drop(d, 0) == d;
    assert Take(found, q.limit) == Take(d, q.limit);
    if failure.Some? {
      PageOfSorted(kept, Min(q.limit + 1, failure.value));
      assert Take(found, failure.value) == Take(d, Min(q.limit + 1, failure.value));
    }
  }

  // ---- the invariant ----------------------------------------------------------------------------

  /** The key was in every table read so far. */
  ghost predicate Throughout(schema: set<string>, q: QueryValue, tables: seq<seq<Row>>, id: Id) {
    forall i :: 0 <= i < |tables| ==> Present(schema, q.wheres, tables[i], id)
  }

  ghost predicate Inv(schema: set<string>, q: QueryValue, s: State) {
    && Descending(s.yielded + s.it.values)
    && s.it.current == (if s.yielded == [] then None else Some(s.yielded[|s.yielded| - 1]))
    && (s.it.hasMore ==> s.yielded + s.it.values != [])
    && (s.it.err ==> !s.it.hasMore)
    && !s.outcome.Panicked?
    && (s.outcome.Ended? ==> s.it.values == [] && !s.it.hasMore)
    && (!s.it.err ==> forall id :: Throughout(schema, q, s.tables, id) ==>
      Reached(s.yielded + s.it.values, s.it.hasMore, id))
  }

  lemma StartKeepsInv(schema: set<string>, q: QueryValue, c: Call)
    requires IsIterateQuery(q) && IsTable(c.rows)
    ensures Inv(schema, q, Start(schema, q, c))
  {
    var s := Start(schema, q, c);
    FetchReaches(schema, c.rows, q, c.failure, Iter(false, None, false, []));
    assert s.yielded + s.it.values == s.it.values;
    forall id | Throughout(schema, q, s.tables, id) ensures Present(schema, q.wheres, c.rows, id) {
      assert s.tables[0] == c.rows;
    }
  }

  /** Reading below the last yielded row extends what was seen and still passes over nothing. */
  lemma FetchExtends(schema: set<string>, q: QueryValue, s: State, c: Call)
    requires IsIterateQuery(q) && "id" in schema && IsTable(c.rows) && Inv(schema, q, s) && Fetches(s.it)
    ensures var f := Fetch(schema, c.rows, Below(q, s.it.current.value.id), c.failure, s.it);
      Inv(schema, q, s.(it := f, tables := s.tables + [c.rows], outcome := Yielded))
  {
    var y, cur := s.yielded, s.it.current.value;
    var q' := Below(q, cur.id);
    var f := Fetch(schema, c.rows, q', c.failure, s.it);
    FetchReaches(schema, c.rows, q', c.failure, s.it);
    assert y + s.it.values == y;
    forall row | row in f.values ensures row.id < cur.id {
      assert Holds(schema, q'.wheres[|q.wheres|], row);
    }
    assert Descending(y + f.values);
    if !f.err {
      forall id | Throughout(schema, q, s.tables + [c.rows], id) ensures Reached(y + f.values, f.hasMore, id) {
        FetchReachesId(schema, q, s, c, id);
      }
    }
  }

  lemma ReachedJoins(y: seq<Row>, v: seq<Row>, hasMore: bool, id: Id)
    requires Listed(y, id) || Reached(v, hasMore, id)
    ensures Reached(y + v, hasMore, id)
  {
    if Listed(y, id) {
      var i :| 0 <= i < |y| && y[i].id == id;
      assert (y + v)[i].id == id;
    } else if Listed(v, id) {
      var i :| 0 <= i < |v| && v[i].id == id;
      assert (y + v)[|y| + i].id == id;
    }
  }

  lemma PresentBelow(schema: set<string>, q: QueryValue, rows: seq<Row>, id: Id, bound: Id)
    requires Present(schema, q.wheres, rows, id) && id < bound
    ensures Present(schema, Below(q, bound).wheres, rows, id)
  {
    var row :| row in rows && row.id == id && Matches(schema, q.wheres, row);
    assert Matches(schema, Below(q, bound).wheres, row);
  }

  lemma FetchReachesId(schema: set<string>, q: QueryValue, s: State, c: Call, id: Id)
    requires IsIterateQuery(q) && "id" in schema && IsTable(c.rows) && Inv(schema, q, s) && Fetches(s.it)
    requires Throughout(schema, q, s.tables + [c.rows], id)
    ensures var f := Fetch(schema, c.rows, Below(q, s.it.current.value.id), c.failure, s.it);
      !f.err ==> Reached(s.yielded + f.values, f.hasMore, id)
  {
    var y, cur, tables := s.yielded, s.it.current.value, s.tables + [c.rows];
    var f := Fetch(schema, c.rows, Below(q, cur.id), c.failure, s.it);
    FetchReaches(schema, c.rows, Below(q, cur.id), c.failure, s.it);
    assert Throughout(schema, q, s.tables, id) by {
      assert forall i :: 0 <= i < |s.tables| ==> s.tables[i] == tables[i];
    }
    assert y + s.it.values == y;
    assert Reached(y, true, id);
    assert tables[|s.tables|] == c.rows;
    if !f.err {
      if !Listed(y, id) { PresentBelow(schema, q, c.rows, id, cur.id); }
      ReachedJoins(y, f.values, f.hasMore, id);
    }
  }

  /** The state before the next row is handed out. */
  function Fetched(schema: set<string>, q: QueryValue, s: State, c: Call): State
    requires q.limit > 0 && |q.orders| == 1
  {
    if !Fetches(s.it) then s.(outcome := Yielded)
    else s.(it := Fetch(schema, c.rows, Below(q, s.it.current.value.id), c.failure, s.it),
            tables := s.tables + [c.rows], outcome := Yielded)
  }

  function Popped(s: State): State {
    var (it, outcome) := Pop(s.it);
    s.(it := it, outcome := outcome,
       yielded := if outcome.Yielded? && it.current.Some? then s.yielded + [it.current.value] else s.yielded)
  }

  lemma PopKeepsInv(schema: set<string>, q: QueryValue, s: State)
    requires Inv(schema, q, s) && (s.it.values == [] ==> !s.it.hasMore)
    ensures Inv(schema, q, Popped(s))
  {
    if s.it.values != [] {
      assert s.yielded + [s.it.values[0]] + s.it.values[1..] == s.yielded + s.it.values;
    }
  }

  lemma StepKeepsInv(schema: set<string>, q: QueryValue, s: State, c: Call)
    requires IsIterateQuery(q) && "id" in schema && IsTable(c.rows) && Inv(schema, q, s)
    ensures Inv(schema, q, Step(schema, q, s, c))
  {
    if Fetches(s.it) {
      FetchExtends(schema, q, s, c);
      FetchReaches(schema, c.rows, Below(q, s.it.current.value.id), c.failure, s.it);
    }
    assert Step(schema, q, s, c) == Popped(Fetched(schema, q, s, c));
    PopKeepsInv(schema, q, Fetched(schema, q, s, c));
  }

  lemma {:induction false} RunKeepsInv(schema: set<string>, q: QueryValue, first: Call, nexts: seq<Call>)
    requires IsIterateQuery(q) && "id" in schema && IsTable(first.rows)
    requires forall i :: 0 <= i < |nexts| ==> IsTable(nexts[i].rows)
    ensures Inv(schema, q, Run(schema, q, first, nexts))
  {
    if nexts == [] {
      StartKeepsInv(schema, q, first);
    } else {
      RunKeepsInv(schema, q, first, nexts[..|nexts| - 1]);
      StepKeepsInv(schema, q, Run(schema, q, first, nexts[..|nexts| - 1]), nexts[|nexts| - 1]);
    }
  }

  // ---- the promises ------------------------------------------------------------------------------

  /**
   However the table changes between calls, keys come out strictly decreasing and no call dereferences a missing row.
   */
  lemma YieldsDecrease(schema: set<string>, q: QueryValue, first: Call, nexts: seq<Call>)
    requires IsIterateQuery(q) && "id" in schema && IsTable(first.rows)
    requires forall i :: 0 <= i < |nexts| ==> IsTable(nexts[i].rows)
    ensures var s := Run(schema, q, first, nexts); Descending(s.yielded) && !s.outcome.Panicked?
  {
    RunKeepsInv(schema, q, first, nexts);
    var s := Run(schema, q, first, nexts);
    forall i, j | 0 <= i < j < |s.yielded| ensures s.yielded[i].id > s.yielded[j].id {
      assert (s.yielded + s.it.values)[i] == s.yielded[i] && (s.yielded + s.it.values)[j] == s.yielded[j];
    }
  }

  /** The number of times a key was yielded. */
  function Times(rows: seq<Row>, id: Id): nat {
    if rows == [] then 0 else Times(rows[..|rows| - 1], id) + if rows[|rows| - 1].id == id then 1 else 0
  }

  lemma {:induction false} TimesInDescending(rows: seq<Row>, id: Id)
    requires Descending(rows)
    ensures Times(rows, id) == if Listed(rows, id) then 1 else 0
  {
    if rows != [] {
      var n := |rows| - 1;
      TimesInDescending(rows[..n], id);
      assert Listed(rows[..n], id) ==> Listed(rows, id) by {
        if Listed(rows[..n], id) {
          var i :| 0 <= i < n && rows[..n][i].id == id;
          assert rows[i].id == id;
        }
      }
      if Listed(rows, id) && rows[n].id != id {
        var i :| 0 <= i < |rows| && rows[i].id == id;
        assert rows[..n][i].id == id;
      }
    }
  }

  /**
   * When the iteration ends without an error, every key that matched in each table it read was yielded exactly once,
   * and no key was yielded more than once.
   */
  lemma EndsComplete(schema: set<string>, q: QueryValue, first: Call, nexts: seq<Call>, id: Id)
    requires IsIterateQuery(q) && "id" in schema && IsTable(first.rows)
    requires forall i :: 0 <= i < |nexts| ==> IsTable(nexts[i].rows)
    ensures var s := Run(schema, q, first, nexts);
      && Times(s.yielded, id) <= 1
      && (s.outcome.Ended? && !s.it.err && Throughout(schema, q, s.tables, id) ==> Times(s.yielded, id) == 1)
  {
    RunKeepsInv(schema, q, first, nexts);
    YieldsDecrease(schema, q, first, nexts);
    var s := Run(schema, q, first, nexts);
    TimesInDescending(s.yielded, id);
    assert s.it.values == [] ==> s.yielded + s.it.values == s.yielded;
  }
}
