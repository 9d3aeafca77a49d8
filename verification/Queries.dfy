/**
 The query value a list request compiles to, the rows it selects, and one cursor page (db/dao/query.go, db/dao/dao.go).
 */
module Queries {
  import opened Common

  datatype Operator = Equal | GreaterThan | GreaterThanOrEqual | LessThan | LessThanOrEqual

  datatype Condition = Condition(column: string, op: Operator, value: int)

  datatype Sort = Asc | Desc

  datatype Order = Order(column: string, sort: Sort)

  /** A row: its primary key and the other columns; a NULL column is absent from the map. */
  datatype Row = Row(id: Id, columns: map<string, int>)

  datatype QueryValue = QueryValue(
    offset: int, limit: int, wheres: seq<Condition>, orders: seq<Order>, cursorModel: bool, reverse: bool)

  datatype Cursor = Cursor(
    cursor: bool, reversed: bool, data: seq<Row>, total: nat, hasMore: bool, firstId: Option<Id>, lastId: Option<Id>)

  // ---- rows -----------------------------------------------------------------

  /** A table lists its rows by ascending primary key. */
  ghost predicate IsTable(rows: seq<Row>) {
    forall i, j :: 0 <= i < j < |rows| ==> rows[i].id < rows[j].id
  }

  function Column(row: Row, column: string): Option<int> {
    if column == "id" then Some(row.id)
    else if column in row.columns then Some(row.columns[column])
    else None
  }

  predicate Compare(op: Operator, a: int, b: int) {
    match op
    case Equal => a == b
    case GreaterThan => a > b
    case GreaterThanOrEqual => a >= b
    case LessThan => a < b
    case LessThanOrEqual => a <= b
  }

  /** A comparison with NULL is not true; a condition on a column the schema lacks is dropped. */
  predicate Holds(schema: set<string>, c: Condition, row: Row) {
    c.column in schema ==>
      var v := Column(row, c.column);
      v.Some? && Compare(c.op, v.value, c.value)
  }

  predicate Matches(schema: set<string>, wheres: seq<Condition>, row: Row) {
    forall c :: c in wheres ==> Holds(schema, c, row)
  }

  function Filter(schema: set<string>, wheres: seq<Condition>, rows: seq<Row>): seq<Row> {
    if rows == [] then []
    else
      var rest := Filter(schema, wheres, rows[..|rows| - 1]);
      var last := rows[|rows| - 1];
      if Matches(schema, wheres, last) then rest + [last] else rest
  }

  function Reversed<T>(s: seq<T>): (r: seq<T>)
    ensures |r| == |s|
    ensures forall i :: 0 <= i < |s| ==> r[i] == s[|s| - 1 - i]
  {
    seq(|s|, i requires 0 <= i < |s| => s[|s| - 1 - i])
  }

  lemma ReversedSuffix<T>(s: seq<T>, i: nat)
    requires i <= |s|
    ensures Reversed(s)[i..] == Reversed(s[..|s| - i])
  {
  }

  lemma ReversedPrefix<T>(s: seq<T>, i: nat)
    requires i <= |s|
    ensures Reversed(Reversed(s)[..i]) == s[|s| - i..]
  {
  }

  /** Rows listed by ascending key, put in the order of an ORDER BY id clause. */
  function Sorted(sort: Sort, rows: seq<Row>): (r: seq<Row>)
    ensures |r| == |rows|
  {
    if sort.Asc? then rows else Reversed(rows)
  }

  function Take<T>(s: seq<T>, n: nat): seq<T> { if |s| <= n then s else s[..n] }

  function Drop<T>(s: seq<T>, n: nat): seq<T> { if |s| <= n then [] else s[n..] }

  /** SELECT * FROM table WHERE wheres ORDER BY id sort LIMIT limit OFFSET offset. */
  function Select(
    schema: set<string>, rows: seq<Row>, wheres: seq<Condition>, sort: Sort, limit: nat, offset: nat): seq<Row>
  {
    Take(Drop(Sorted(sort, Filter(schema, wheres, rows)), offset), limit)
  }

  /** The rows ahead of a numbered page; pages count from 1. */
  function OffsetOf(pageNo: int, pageSize: int): int { (Max(pageNo, 1) - 1) * pageSize }

  /** One page made of the rows found, which are one more than the limit when there is a further page. */
  function CursorFrom(q: QueryValue, found: seq<Row>, total: nat): Cursor
    requires q.limit > 0
  {
    var page := Take(found, q.limit);
    var data := if q.reverse then Reversed(page) else page;
    Cursor(q.cursorModel, q.reverse, data, total, |found| > q.limit,
      if data == [] then None else Some(data[0].id),
      if data == [] then None else Some(data[|data| - 1].id))
  }

  /** What `Dao.ReadCursor` returns for a query ordered by id. */
  function CursorOf(schema: set<string>, rows: seq<Row>, q: QueryValue): Cursor
    requires q.limit > 0 && |q.orders| == 1
  {
    CursorFrom(q, Select(schema, rows, q.wheres, q.orders[0].sort, q.limit + 1, Max(q.offset, 0)),
      if q.cursorModel then 0 else |Filter(schema, q.wheres, rows)|)
  }

  // ---- what filters do ----------------------------------------------------------

  /** Filtering keeps exactly the matching rows, in key order. */
  lemma {:induction false} FilterSelects(schema: set<string>, wheres: seq<Condition>, rows: seq<Row>)
    requires IsTable(rows)
    ensures IsTable(Filter(schema, wheres, rows))
    ensures forall row :: row in Filter(schema, wheres, rows) <==> row in rows && Matches(schema, wheres, row)
  {
    if rows != [] {
      var n := |rows| - 1;
      FilterSelects(schema, wheres, rows[..n]);
      assert rows == rows[..n] + [rows[n]];
      var rest := Filter(schema, wheres, rows[..n]);
      forall i | 0 <= i < |rest| ensures rest[i].id < rows[n].id {
        assert rest[i] in rest && rest[i] in rows[..n];
      }
    }
  }

  /** Two lists of conditions filter one after the other, in either order of writing. */
  lemma {:induction false} FilterTwice(schema: set<string>, a: seq<Condition>, b: seq<Condition>, rows: seq<Row>)
    ensures Filter(schema, a + b, rows) == Filter(schema, a, Filter(schema, b, rows))
    ensures Filter(schema, a + b, rows) == Filter(schema, b + a, rows)
  {
    if rows != [] {
      var last := rows[|rows| - 1];
      FilterTwice(schema, a, b, rows[..|rows| - 1]);
      var kept := Filter(schema, b, rows[..|rows| - 1]);
      assert (kept + [last])[..|kept|] == kept;
      assert Matches(schema, a + b, last) == (Matches(schema, a, last) && Matches(schema, b, last));
      assert Matches(schema, b + a, last) == (Matches(schema, a, last) && Matches(schema, b, last));
    }
  }

  /** When rows before position k all match and no later row does, the filter is a prefix. */
  lemma {:induction false} FilterPrefix(schema: set<string>, wheres: seq<Condition>, rows: seq<Row>, k: nat)
    requires k <= |rows|
    requires forall i :: 0 <= i < |rows| ==> (Matches(schema, wheres, rows[i]) <==> i < k)
    ensures Filter(schema, wheres, rows) == rows[..k]
  {
    if rows != [] {
      var n := |rows| - 1;
      FilterPrefix(schema, wheres, rows[..n], Min(k, n));
      assert rows[..n][..Min(k, n)] == rows[..Min(k, n)];
      assert Matches(schema, wheres, rows[n]) <==> n < k;
    }
  }

  /** When exactly the rows from position k on match, the filter is a suffix. */
  lemma {:induction false} FilterSuffix(schema: set<string>, wheres: seq<Condition>, rows: seq<Row>, k: nat)
    requires k <= |rows|
    requires forall i :: 0 <= i < |rows| ==> (Matches(schema, wheres, rows[i]) <==> k <= i)
    ensures Filter(schema, wheres, rows) == rows[k..]
  {
    if rows != [] {
      var n := |rows| - 1;
      FilterSuffix(schema, wheres, rows[..n], Min(k, n));
      assert rows[..n][Min(k, n)..] + [rows[n]] == rows[Min(k, n)..];
      assert Matches(schema, wheres, rows[n]) <==> k <= n;
    }
  }

  /** On rows in key order, the key condition of a cursor cuts at the cursor's row. */
  lemma KeepAbove(schema: set<string>, rows: seq<Row>, k: nat)
    requires IsTable(rows) && k < |rows| && "id" in schema
    ensures Filter(schema, [Condition("id", GreaterThan, rows[k].id)], rows) == rows[k + 1..]
  {
    var c := [Condition("id", GreaterThan, rows[k].id)];
    forall i | 0 <= i < |rows| ensures Matches(schema, c, rows[i]) <==> k + 1 <= i {
      assert Matches(schema, c, rows[i]) <==> Holds(schema, c[0], rows[i]);
    }
    FilterSuffix(schema, c, rows, k + 1);
  }

  lemma KeepBelow(schema: set<string>, rows: seq<Row>, k: nat)
    requires IsTable(rows) && k < |rows| && "id" in schema
    ensures Filter(schema, [Condition("id", LessThan, rows[k].id)], rows) == rows[..k]
  {
    var c := [Condition("id", LessThan, rows[k].id)];
    forall i | 0 <= i < |rows| ensures Matches(schema, c, rows[i]) <==> i < k {
      assert Matches(schema, c, rows[i]) <==> Holds(schema, c[0], rows[i]);
    }
    FilterPrefix(schema, c, rows, k);
  }

  /** A condition on a column of the schema holds exactly when the row has a value there that compares as asked. */
  lemma HoldsIff(schema: set<string>, c: Condition, row: Row)
    ensures Holds(schema, c, row) <==>
      || c.column !in schema
      || (var v := if c.column == "id" then Some(row.id)
                   else if c.column in row.columns then Some(row.columns[c.column]) else None;
          && v.Some?
          && (c.op.Equal? ==> v.value == c.value)
          && (c.op.GreaterThan? ==> v.value > c.value) && (c.op.GreaterThanOrEqual? ==> v.value >= c.value)
          && (c.op.LessThan? ==> v.value < c.value) && (c.op.LessThanOrEqual? ==> v.value <= c.value))
  {
  }

  // ---- the objects ------------------------------------------------------------------

  class Query {
    var offset: int
    var limit: int
    var wheres: seq<Condition>
    var orders: seq<Order>
    var cursorModel: bool
    var reverse: bool

    ghost function Value(): QueryValue
      reads this
    {
      QueryValue(offset, limit, wheres, orders, cursorModel, reverse)
    }

    constructor ()
      ensures Value() == QueryValue(0, 0, [], [], false, false)
    {
      offset, limit, wheres, orders, cursorModel, reverse := 0, 0, [], [], false, false;
    }

    method Where(column: string, op: Operator, value: int)
      modifies this
      ensures Value() == old(Value()).(wheres := old(wheres) + [Condition(column, op, value)])
    {
      wheres := wheres + [Condition(column, op, value)];
    }

    method OrderBy(column: string, sort: Sort)
      modifies this
      ensures Value() == old(Value()).(orders := old(orders) + [Order(column, sort)])
    {
      orders := orders + [Order(column, sort)];
    }

    method Page(pageNo: int, pageSize: int)
      modifies this
      ensures Value() == old(Value()).(offset := OffsetOf(pageNo, pageSize), limit := pageSize)
    {
      var no := pageNo;
      if no < 1 {
        no := 1;
      }
      offset := (no - 1) * pageSize;
      limit := pageSize;
    }

    /** The copy is a new object, so that adding a condition to it leaves this query alone. */
    method Clone() returns (cloned: Query)
      ensures fresh(cloned) && cloned.Value() == Value()
    {
      cloned := new Query();
      cloned.offset, cloned.limit := offset, limit;
      cloned.wheres, cloned.orders := wheres, orders;
      cloned.cursorModel, cloned.reverse := cursorModel, reverse;
    }
  }

  class Dao {
    const schema: set<string>
    var rows: seq<Row>

    constructor (schema: set<string>, rows: seq<Row>)
      ensures this.schema == schema && this.rows == rows
    {
      this.schema, this.rows := schema, rows;
    }

    /** Reads one page; a query whose limit is not positive panics. Only ORDER BY id is modelled. */
    method ReadCursor(query: Query) returns (cursor: Cursor)
      requires query.limit > 0
      requires |query.orders| == 1 && query.orders[0].column == "id"
      ensures cursor == CursorOf(schema, rows, query.Value())
    {
      var data := Select(schema, rows, query.wheres, query.orders[0].sort, query.limit + 1, Max(query.offset, 0));
      ghost var found := data;
      var hasMore := false;
      var reversed := false;
      var firstId, lastId := None, None;
      var total := 0;
      if |data| > query.limit {
        hasMore := true;
        data := data[..query.limit];
      }
      ghost var page := data;
      assert page == Take(found, query.limit) && hasMore == (|found| > query.limit);
      if query.reverse {
        data := Reversed(data);
        reversed := true;
      }
      assert data == (if query.reverse then Reversed(page) else page) && reversed == query.reverse;
      if |data| > 0 {
        firstId := Some(data[0].id);
        lastId := Some(data[|data| - 1].id);
      }
      if !query.cursorModel {
        total := |Filter(schema, query.wheres, rows)|;
      }
      cursor := Cursor(query.cursorModel, reversed, data, total, hasMore, firstId, lastId);
    }
  }
}
