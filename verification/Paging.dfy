/**
 * Cursor pagination of the admin API (admin/api/params.go, admin/api/page.go): a request compiles to a query,
 * the query reads one page, and the page carries links to its neighbours.
 */
module Paging {
  import opened Common
  import opened Queries

  const DEFAULT_PAGE_SIZE := 20

  /** The value of an `after=` or `before=` parameter with nothing behind it; it sorts below every key. */
  const EMPTY_ID: Id := 0

  /** The query parameters of a list URL; `filters` are the conditions its other parameters add. */
  datatype ListParams = ListParams(
    sort: Option<Sort>, pageNo: int, pageSize: int,
    limit: Option<int>, after: Option<Id>, before: Option<Id>, filters: seq<Condition>)

  /** `Refused` is a 400 response, `Panicked` the answer to a limit that is not positive. */
  datatype Response =
    | Refused
    | Panicked
    | OffsetPage(total: nat, data: seq<Row>)
    | CursorPage(data: seq<Row>, next: Option<ListParams>, prev: Option<ListParams>)

  datatype Click = Next | Prev

  // ---- the request as a query --------------------------------------------------------

  function Flip(sort: Sort): Sort { if sort.Asc? then Desc else Asc }

  function SortOf(p: ListParams): Sort { if p.sort.Some? then p.sort.value else Desc }

  /** Rows displayed after the one with key v. */
  function After(sort: Sort, v: Id): Condition {
    Condition("id", if sort.Asc? then GreaterThan else LessThan, v)
  }

  /** Rows displayed before the one with key v. */
  function Before(sort: Sort, v: Id): Condition {
    Condition("id", if sort.Asc? then LessThan else GreaterThan, v)
  }

  function Cursors(p: ListParams): seq<Condition> {
    (if p.after.Some? then [After(SortOf(p), p.after.value)] else []) +
    (if p.before.Some? then [Before(SortOf(p), p.before.value)] else [])
  }

  function Compile(p: ListParams): QueryValue {
    var size := if p.limit.Some? then p.limit.value else if p.pageSize <= 0 then DEFAULT_PAGE_SIZE else p.pageSize;
    QueryValue(
      if p.limit.Some? then 0 else OffsetOf(p.pageNo, size),
      size,
      Cursors(p) + p.filters,
      [Order("id", if p.before.Some? then Flip(SortOf(p)) else SortOf(p))],
      p.limit.Some? || p.after.Some? || p.before.Some?,
      p.before.Some?)
  }

  /** The links are the request's own URL with its cursor replaced. */
  function Links(cursor: Cursor, url: ListParams): Response {
    if !cursor.cursor then OffsetPage(cursor.total, cursor.data)
    else
      var given := if cursor.reversed then url.before else url.after;
      var hasOther := given.Some? && given.value != EMPTY_ID;
      var hasNext := if cursor.reversed then hasOther else cursor.hasMore;
      var hasPrev := if cursor.reversed then cursor.hasMore else hasOther;
      CursorPage(
        cursor.data,
        if hasNext && cursor.lastId.Some? then Some(url.(before := None, after := cursor.lastId)) else None,
        if hasPrev && cursor.firstId.Some? then Some(url.(after := None, before := cursor.firstId)) else None)
  }

  /** What a list request answers; a request with both cursors is refused. */
  function Respond(schema: set<string>, rows: seq<Row>, p: ListParams): Response {
    if p.after.Some? && p.before.Some? then Refused
    else if Compile(p).limit <= 0 then Panicked
    else Links(CursorOf(schema, rows, Compile(p)), p)
  }

  /** A query for one page, numbered or limited. */
  method PageQuery(p: ListParams) returns (query: Query)
    ensures fresh(query)
    ensures query.Value() == QueryValue(Compile(p).offset, Compile(p).limit, [], [], false, false)
  {
    query := new Query();
    var pageNo := Max(p.pageNo, 1);
    var pageSize := p.pageSize;
    if pageSize <= 0 {
      pageSize := DEFAULT_PAGE_SIZE;
    }
    query.Page(pageNo, pageSize);
    if p.limit.Some? {
      query.Page(1, p.limit.value);
    }
  }

  /** Builds the query step by step from the sort and paging parameters. */
  method BaseQuery(p: ListParams) returns (query: Query)
    ensures fresh(query) && query.Value() == Compile(p.(filters := []))
  {
    query := PageQuery(p);
    var order := if p.sort.Some? then p.sort.value else Desc;
    if p.after.Some? {
      query.Where("id", if order.Asc? then GreaterThan else LessThan, p.after.value);
    }
    if p.before.Some? {
      query.Where("id", if order.Asc? then LessThan else GreaterThan, p.before.value);
    }
    if p.before.Some? {
      order := if order.Asc? then Desc else Asc;
      query.reverse := true;
    }
    query.OrderBy("id", order);
    if p.limit.Some? || p.after.Some? || p.before.Some? {
      query.cursorModel := true;
    }
  }

  /** Adds the conditions of the request's other parameters. */
  method BuildQuery(p: ListParams) returns (query: Query)
    ensures fresh(query) && query.Value() == Compile(p)
  {
    query := BaseQuery(p);
    var i := 0;
    while i < |p.filters|
      invariant 0 <= i <= |p.filters|
      invariant fresh(query)
      invariant query.Value() == Compile(p.(filters := p.filters[..i]))
    {
      query.Where(p.filters[i].column, p.filters[i].op, p.filters[i].value);
      assert Cursors(p) + p.filters[..i + 1] == Cursors(p) + p.filters[..i] + [p.filters[i]];
      i := i + 1;
    }
    assert p.filters[..i] == p.filters;
  }

  method BuildResponse(cursor: Cursor, url: ListParams) returns (response: Response)
    ensures response == Links(cursor, url)
  {
    if !cursor.cursor {
      return OffsetPage(cursor.total, cursor.data);
    }
    var hasNext, hasPrev;
    var next, prev := None, None;
    if cursor.reversed {
      hasPrev := cursor.hasMore;
      hasNext := url.before.Some? && url.before.value != EMPTY_ID;
    } else {
      hasNext := cursor.hasMore;
      hasPrev := url.after.Some? && url.after.value != EMPTY_ID;
    }
    if hasNext && cursor.lastId.Some? {
      next := Some(url.(before := None).(after := cursor.lastId));
    }
    if hasPrev && cursor.firstId.Some? {
      prev := Some(url.(after := None).(before := cursor.firstId));
    }
    response := CursorPage(cursor.data, next, prev);
  }

  /** The whole request, from parameters to response. */
  method List(dao: Dao, p: ListParams) returns (response: Response)
    ensures response == Respond(dao.schema, dao.rows, p)
  {
    if p.after.Some? && p.before.Some? {
      return Refused;
    }
    var query := BuildQuery(p);
    assert query.Value().limit == Compile(p).limit && query.Value().orders == Compile(p).orders;
    if query.limit <= 0 {
      return Panicked;
    }
    var cursor := dao.ReadCursor(query);
    response := BuildResponse(cursor, p);
  }

  // ---- the matching rows in display order ----------------------------------------------

  function Display(schema: set<string>, rows: seq<Row>, p: ListParams): seq<Row> {
    Sorted(SortOf(p), Filter(schema, p.filters, rows))
  }

  /** The displayed rows are the matching rows, each once, in descending order unless ascending order is asked for. */
  lemma DisplayIsSorted(schema: set<string>, rows: seq<Row>, p: ListParams)
    requires IsTable(rows)
    ensures var d := Display(schema, rows, p);
      && (forall row :: row in d <==> row in rows && Matches(schema, p.filters, row))
      && (forall i, j :: 0 <= i < j < |d| ==> if p.sort == Some(Asc) then d[i].id < d[j].id else d[i].id > d[j].id)
  {
    var kept := Filter(schema, p.filters, rows);
    FilterSelects(schema, p.filters, rows);
    var d := Display(schema, rows, p);
    forall row ensures row in d <==> row in kept {
      if row in kept {
        var i :| 0 <= i < |kept| && kept[i] == row;
        assert d[if SortOf(p).Asc? then i else |kept| - 1 - i] == row;
      }
    }
  }

  /** The rows the compiled query selects before LIMIT, in the query's own order. */
  function Selected(schema: set<string>, rows: seq<Row>, p: ListParams): seq<Row> {
    Sorted(if p.before.Some? then Flip(SortOf(p)) else SortOf(p), Filter(schema, Cursors(p) + p.filters, rows))
  }

  lemma CutAfter(schema: set<string>, sort: Sort, kept: seq<Row>, i: nat)
    requires IsTable(kept) && "id" in schema && i < |kept|
    ensures var d := Sorted(sort, kept); Sorted(sort, Filter(schema, [After(sort, d[i].id)], kept)) == d[i + 1..]
  {
    if sort.Asc? {
      KeepAbove(schema, kept, i);
    } else {
      KeepBelow(schema, kept, |kept| - 1 - i);
      ReversedSuffix(kept, i + 1);
    }
  }

  lemma CutBefore(schema: set<string>, sort: Sort, kept: seq<Row>, i: nat)
    requires IsTable(kept) && "id" in schema && i < |kept|
    ensures var d := Sorted(sort, kept);
      Sorted(Flip(sort), Filter(schema, [Before(sort, d[i].id)], kept)) == Reversed(d[..i])
  {
    if sort.Asc? {
      KeepBelow(schema, kept, i);
    } else {
      KeepAbove(schema, kept, |kept| - 1 - i);
      ReversedPrefix(kept, i);
    }
  }

  /** An `after` cursor at displayed row i selects the rows behind it. */
  lemma AfterRows(schema: set<string>, rows: seq<Row>, p: ListParams, i: nat)
    requires IsTable(rows) && "id" in schema && i < |Display(schema, rows, p)|
    ensures var d := Display(schema, rows, p);
      Selected(schema, rows, p.(after := Some(d[i].id), before := None)) == d[i + 1..]
  {
    var d := Display(schema, rows, p);
    var q := p.(after := Some(d[i].id), before := None);
    assert Cursors(q) == [After(SortOf(p), d[i].id)];
    FilterSelects(schema, p.filters, rows);
    FilterTwice(schema, Cursors(q), p.filters, rows);
    CutAfter(schema, SortOf(p), Filter(schema, p.filters, rows), i);
  }

  /** A `before` cursor at displayed row i selects the rows ahead of it, nearest first. */
  lemma BeforeRows(schema: set<string>, rows: seq<Row>, p: ListParams, i: nat)
    requires IsTable(rows) && "id" in schema && i < |Display(schema, rows, p)|
    ensures var d := Display(schema, rows, p);
      Selected(schema, rows, p.(after := None, before := Some(d[i].id))) == Reversed(d[..i])
  {
    var d := Display(schema, rows, p);
    var q := p.(after := None, before := Some(d[i].id));
    assert Cursors(q) == [Before(SortOf(p), d[i].id)];
    FilterSelects(schema, p.filters, rows);
    FilterTwice(schema, Cursors(q), p.filters, rows);
    CutBefore(schema, SortOf(p), Filter(schema, p.filters, rows), i);
  }

  // ---- numbered pages --------------------------------------------------------------------

  lemma DropTake(d: seq<Row>, from: nat, n: nat)
    ensures Take(Take(Drop(d, from), n + 1), n) == d[Min(from, |d|)..Min(from + n, |d|)]
  {
  }

  /**
   A request without limit and cursors shows one numbered page, twenty rows long unless it says otherwise: the displayed
   rows behind those of the pages before it, and the number of all of them. Numbers below one mean the first page.
   */
  lemma NumberedPage(schema: set<string>, rows: seq<Row>, p: ListParams)
    requires p.limit.None? && p.after.None? && p.before.None?
    ensures var d := Display(schema, rows, p);
      var size := if p.pageSize <= 0 then 20 else p.pageSize;
      var ahead := if p.pageNo <= 1 then 0 else (p.pageNo - 1) * size;
      Respond(schema, rows, p) == OffsetPage(|d|, d[Min(ahead, |d|)..Min(ahead + size, |d|)])
  {
    var size := if p.pageSize <= 0 then 20 else p.pageSize;
    var ahead := OffsetOf(p.pageNo, size);
    assert ahead == if p.pageNo <= 1 then 0 else (p.pageNo - 1) * size;
    assert ahead >= 0;
    assert Cursors(p) + p.filters == p.filters;
    DropTake(Display(schema, rows, p), ahead, size);
  }

  // ---- one page --------------------------------------------------------------------------

  /** The page of n rows that starts at displayed row i. */
  function Slice(d: seq<Row>, i: nat, n: nat): seq<Row>
    requires i <= |d|
  {
    d[i..Min(i + n, |d|)]
  }

  /** What the page starting at row i shows: its rows, and a link exactly where a neighbour exists. */
  ghost predicate Shows(p: ListParams, d: seq<Row>, i: nat, n: nat, r: Response) {
    && n > 0
    && r.CursorPage?
    && (i > 0 ==> i < |d|)
    && r.data == Slice(d, i, n)
    && r.next == (if i + n < |d| then Some(p.(after := Some(d[i + n - 1].id), before := None)) else None)
    && r.prev == (if i > 0 then Some(p.(after := None, before := Some(d[i].id))) else None)
  }

  /** A cursor request on a table whose keys are not empty. */
  ghost predicate Pageable(schema: set<string>, rows: seq<Row>, p: ListParams) {
    && IsTable(rows)
    && "id" in schema
    && p.limit.Some? && p.limit.value > 0
    && forall row :: row in rows ==> row.id != EMPTY_ID
  }

  /** The response to a cursor request, from the rows its query selects before LIMIT. */
  function PageFrom(p: ListParams, selected: seq<Row>): Response
    requires Compile(p).limit > 0
  {
    Links(CursorFrom(Compile(p), Take(selected, Compile(p).limit + 1), 0), p)
  }

  lemma RespondIsPage(schema: set<string>, rows: seq<Row>, p: ListParams)
    requires p.limit.Some? && p.limit.value > 0 && (p.after.None? || p.before.None?)
    ensures Respond(schema, rows, p) == PageFrom(p, Selected(schema, rows, p))
  {
    assert Drop(Selected(schema, rows, p), 0) == Selected(schema, rows, p);
  }

  lemma TakeTwice(s: seq<Row>, n: nat)
    ensures Take(Take(s, n + 1), n) == Take(s, n) && (|Take(s, n + 1)| > n <==> |s| > n)
  {
  }

  lemma ForwardPage(p: ListParams, d: seq<Row>, i: nat, n: nat)
    requires n > 0 && p.limit == Some(n) && p.before.None? && (i > 0 ==> i < |d|)
    requires i > 0 <==> p.after.Some? && p.after.value != EMPTY_ID
    ensures i <= |d| && Shows(p, d, i, n, PageFrom(p, d[i..]))
  {
    TakeTwice(d[i..], n);
    assert Take(d[i..], n) == Slice(d, i, n);
  }

  lemma BackwardCursor(p: ListParams, d: seq<Row>, i: nat, n: nat)
    requires n > 0 && p.limit == Some(n) && p.before.Some? && n <= i < |d|
    ensures CursorFrom(Compile(p), Take(Reversed(d[..i]), n + 1), 0) ==
      Cursor(true, true, Slice(d, i - n, n), 0, i > n, Some(d[i - n].id), Some(d[i - 1].id))
  {
    TakeTwice(Reversed(d[..i]), n);
    NearestPage(d, i, n);
  }

  lemma BackwardPage(p: ListParams, d: seq<Row>, i: nat, n: nat)
    requires n > 0 && p.limit == Some(n) && p.after.None? && p.before.Some? && p.before.value != EMPTY_ID
      && n <= i < |d|
    ensures Shows(p, d, i - n, n, PageFrom(p, Reversed(d[..i])))
  {
    BackwardCursor(p, d, i, n);
    BackwardLinks(p, d, i, n);
  }

  lemma BackwardLinks(p: ListParams, d: seq<Row>, i: nat, n: nat)
    requires n > 0 && p.after.None? && p.before.Some? && p.before.value != EMPTY_ID && n <= i < |d|
    ensures Shows(p, d, i - n, n,
      Links(Cursor(true, true, Slice(d, i - n, n), 0, i > n, Some(d[i - n].id), Some(d[i - 1].id)), p))
  {
  }

  lemma NearestPage(d: seq<Row>, i: nat, n: nat)
    requires n <= i <= |d|
    ensures Reversed(Take(Reversed(d[..i]), n)) == Slice(d, i - n, n)
  {
    assert Take(Reversed(d[..i]), n) == Reversed(d[..i])[..n];
    ReversedPrefix(d[..i], n);
  }

  // ---- browsing ----------------------------------------------------------------------------

  /** The list endpoint, as what it answers to each request. */
  function Site(schema: set<string>, rows: seq<Row>): ListParams -> Response {
    p => Respond(schema, rows, p)
  }

  ghost predicate FirstLaw(site: ListParams -> Response, p: ListParams, d: seq<Row>, n: nat)
  {
    Shows(p, d, 0, n, site(p))
  }

  /** The page asked for with `after` displayed row i starts at row i + 1. */
  ghost predicate AfterLaw(site: ListParams -> Response, p: ListParams, d: seq<Row>, n: nat, i: nat)
    requires i < |d|
  {
    var q := p.(after := Some(d[i].id), before := None);
    Shows(q, d, i + 1, n, site(q))
  }

  /** The page asked for with `before` displayed row i starts a page earlier. */
  ghost predicate BeforeLaw(site: ListParams -> Response, p: ListParams, d: seq<Row>, n: nat, i: nat)
    requires n <= i < |d|
  {
    var q := p.(after := None, before := Some(d[i].id));
    Shows(q, d, i - n, n, site(q))
  }

  /**
   The first page, the page behind any row but the last, and the page ahead of any row with a whole page ahead of it.
   */
  ghost predicate PageLaws(site: ListParams -> Response, p: ListParams, d: seq<Row>, n: nat) {
    && n > 0
    && FirstLaw(site, p, d, n)
    && (forall i :: 0 <= i < |d| - 1 ==> AfterLaw(site, p, d, n, i))
    && (forall i :: n <= i < |d| ==> BeforeLaw(site, p, d, n, i))
  }

  lemma KeysNotEmpty(schema: set<string>, rows: seq<Row>, p: ListParams)
    requires Pageable(schema, rows, p)
    ensures var d := Display(schema, rows, p); forall i :: 0 <= i < |d| ==> d[i].id != EMPTY_ID
  {
    var d := Display(schema, rows, p);
    DisplayIsSorted(schema, rows, p);
    assert forall i :: 0 <= i < |d| ==> d[i] in d;
  }

  lemma FirstPage(schema: set<string>, rows: seq<Row>, p: ListParams)
    requires Pageable(schema, rows, p) && p.after.None? && p.before.None?
    ensures FirstLaw(Site(schema, rows), p, Display(schema, rows, p), p.limit.value)
  {
    var d := Display(schema, rows, p);
    RespondIsPage(schema, rows, p);
    assert Cursors(p) + p.filters == p.filters && d[0..] == d;
    ForwardPage(p, d, 0, p.limit.value);
  }

  lemma SiteLaws(schema: set<string>, rows: seq<Row>, p: ListParams)
    requires Pageable(schema, rows, p) && p.after.None? && p.before.None?
    ensures PageLaws(Site(schema, rows), p, Display(schema, rows, p), p.limit.value)
  {
    var site, d, n := Site(schema, rows), Display(schema, rows, p), p.limit.value;
    KeysNotEmpty(schema, rows, p);
    FirstPage(schema, rows, p);
    forall i | 0 <= i < |d| - 1 ensures AfterLaw(site, p, d, n, i) { AfterPage(schema, rows, p, i); }
    forall i | n <= i < |d| ensures BeforeLaw(site, p, d, n, i) { BeforePage(schema, rows, p, i); }
  }

  lemma AfterPage(schema: set<string>, rows: seq<Row>, p: ListParams, i: nat)
    requires Pageable(schema, rows, p) && i + 1 < |Display(schema, rows, p)|
      && Display(schema, rows, p)[i].id != EMPTY_ID
    ensures AfterLaw(Site(schema, rows), p, Display(schema, rows, p), p.limit.value, i)
  {
    var d := Display(schema, rows, p);
    var q := p.(after := Some(d[i].id), before := None);
    RespondIsPage(schema, rows, q);
    AfterRows(schema, rows, p, i);
    ForwardPage(q, d, i + 1, p.limit.value);
  }

  lemma BeforePage(schema: set<string>, rows: seq<Row>, p: ListParams, i: nat)
    requires Pageable(schema, rows, p) && p.limit.value <= i < |Display(schema, rows, p)|
    requires Display(schema, rows, p)[i].id != EMPTY_ID
    ensures BeforeLaw(Site(schema, rows), p, Display(schema, rows, p), p.limit.value, i)
  {
    var d := Display(schema, rows, p);
    var q := p.(after := None, before := Some(d[i].id));
    RespondIsPage(schema, rows, q);
    BeforeRows(schema, rows, p, i);
    BackwardPage(q, d, i, p.limit.value);
  }

  function Follow(r: Response, c: Click): Option<ListParams> {
    if !r.CursorPage? then None else if c.Next? then r.next else r.prev
  }

  /** The request a reader arrives at by clicking links, or nothing when a link on the way is missing. */
  function Browse(site: ListParams -> Response, p: ListParams, clicks: seq<Click>): Option<ListParams> {
    if clicks == [] then Some(p)
    else
      var q := Browse(site, p, clicks[..|clicks| - 1]);
      if q.None? then None else Follow(site(q.value), clicks[|clicks| - 1])
  }

  /** The displayed row at which page k starts: k times n. */
  function First(k: nat, n: nat): nat { if k == 0 then 0 else First(k - 1, n) + n }

  /** The page one click away from page k, when `total` rows are cut into pages of n. */
  function Turn(k: nat, c: Click, n: nat, total: nat): Option<nat> {
    if c.Next? then (if First(k + 1, n) < total then Some(k + 1) else None)
    else if k > 0 then Some(k - 1)
    else None
  }

  /** The page number the clicks lead to, counting from 0. */
  function PageNumber(clicks: seq<Click>, n: nat, total: nat): Option<nat> {
    if clicks == [] then Some(0)
    else
      var k := PageNumber(clicks[..|clicks| - 1], n, total);
      if k.None? then None else Turn(k.value, clicks[|clicks| - 1], n, total)
  }

  /** Request q differs from p in its cursors only and shows page k. */
  ghost predicate OnPage(site: ListParams -> Response, p: ListParams, d: seq<Row>, n: nat, q: ListParams, k: nat) {
    && q == p.(after := q.after, before := q.before)
    && Shows(q, d, First(k, n), n, site(q))
  }

  lemma NextMoves(site: ListParams -> Response, p: ListParams, d: seq<Row>, n: nat, q: ListParams, k: nat)
    requires PageLaws(site, p, d, n) && OnPage(site, p, d, n, q, k)
    ensures var r := site(q).next;
      && (r.Some? <==> First(k + 1, n) < |d|)
      && (r.Some? ==> OnPage(site, p, d, n, r.value, k + 1))
  {
    if First(k, n) + n < |d| {
      var i := First(k, n) + n - 1;
      var q' := p.(after := Some(d[i].id), before := None);
      assert AfterLaw(site, p, d, n, i);
      assert site(q).next == Some(q');
    }
  }

  lemma PrevMoves(site: ListParams -> Response, p: ListParams, d: seq<Row>, n: nat, q: ListParams, k: nat)
    requires PageLaws(site, p, d, n) && OnPage(site, p, d, n, q, k)
    ensures var r := site(q).prev;
      && (r.Some? <==> k > 0)
      && (r.Some? ==> OnPage(site, p, d, n, r.value, k - 1))
  {
    if k > 0 {
      var q' := p.(after := None, before := Some(d[First(k, n)].id));
      assert BeforeLaw(site, p, d, n, First(k, n));
      assert site(q).prev == Some(q');
    }
  }

  /** A request and a page number agree: both are missing, or the request shows that page. */
  ghost predicate Agree(
    site: ListParams -> Response, p: ListParams, d: seq<Row>, n: nat, q: Option<ListParams>, k: Option<nat>)
  {
    if q.None? then k.None? else k.Some? && OnPage(site, p, d, n, q.value, k.value)
  }

  lemma ClickMoves(site: ListParams -> Response, p: ListParams, d: seq<Row>, n: nat, q: ListParams, k: nat, c: Click)
    requires PageLaws(site, p, d, n) && OnPage(site, p, d, n, q, k)
    ensures Agree(site, p, d, n, Follow(site(q), c), Turn(k, c, n, |d|))
  {
    if c.Next? {
      NextMoves(site, p, d, n, q, k);
    } else {
      PrevMoves(site, p, d, n, q, k);
    }
  }

  /** The clicks lead to a page exactly when there is one with that number, and to that page. */
  ghost predicate Arrives(site: ListParams -> Response, p: ListParams, d: seq<Row>, n: nat, clicks: seq<Click>) {
    Agree(site, p, d, n, Browse(site, p, clicks), PageNumber(clicks, n, |d|))
  }

  lemma {:induction false} Browsing(
    site: ListParams -> Response, p: ListParams, d: seq<Row>, n: nat, clicks: seq<Click>)
    requires PageLaws(site, p, d, n)
    ensures Arrives(site, p, d, n, clicks)
  {
    if clicks == [] {
      assert OnPage(site, p, d, n, p, 0);
    } else {
      var start, c := clicks[..|clicks| - 1], clicks[|clicks| - 1];
      Browsing(site, p, d, n, start);
      var q, k := Browse(site, p, start), PageNumber(start, n, |d|);
      if q.Some? {
        ClickMoves(site, p, d, n, q.value, k.value, c);
        assert Browse(site, p, clicks) == Follow(site(q.value), c);
        assert PageNumber(clicks, n, |d|) == Turn(k.value, c, n, |d|);
      }
    }
  }

  /**
   * Any sequence of clicks from the first page moves exactly as page numbers do: a link is present precisely
   * when the neighbouring page exists, and the page shown is that page of the matching rows in sort order.
   */
  lemma BrowsingIsExact(schema: set<string>, rows: seq<Row>, p: ListParams, clicks: seq<Click>)
    requires Pageable(schema, rows, p) && p.after.None? && p.before.None?
    ensures Arrives(Site(schema, rows), p, Display(schema, rows, p), p.limit.value, clicks)
  {
    SiteLaws(schema, rows, p);
    Browsing(Site(schema, rows), p, Display(schema, rows, p), p.limit.value, clicks);
  }

  /** A click and its opposite both work and lead back to the rows shown before. */
  ghost predicate Undone(site: ListParams -> Response, p: ListParams, clicks: seq<Click>, c: Click) {
    var here, back := Browse(site, p, clicks), Browse(site, p, clicks + [c] + [if c.Next? then Prev else Next]);
    && here.Some? && back.Some?
    && site(here.value).CursorPage? && site(back.value).CursorPage?
    && site(back.value).data == site(here.value).data
  }

  /** Going forth and back, or back and forth, shows the same rows again. */
  lemma LinksUndoEachOther(schema: set<string>, rows: seq<Row>, p: ListParams, clicks: seq<Click>, c: Click)
    requires Pageable(schema, rows, p) && p.after.None? && p.before.None?
    requires Browse(Site(schema, rows), p, clicks + [c]).Some?
    ensures Undone(Site(schema, rows), p, clicks, c)
  {
    SiteLaws(schema, rows, p);
    UndoClick(Site(schema, rows), p, Display(schema, rows, p), p.limit.value, clicks, c);
  }

  lemma BrowseMore(site: ListParams -> Response, p: ListParams, clicks: seq<Click>, c: Click)
    ensures var q := Browse(site, p, clicks);
      Browse(site, p, clicks + [c]) == if q.None? then None else Follow(site(q.value), c)
  {
    assert (clicks + [c])[..|clicks|] == clicks;
  }

  lemma UndoClick(site: ListParams -> Response, p: ListParams, d: seq<Row>, n: nat, clicks: seq<Click>, c: Click)
    requires PageLaws(site, p, d, n) && Browse(site, p, clicks + [c]).Some?
    ensures Undone(site, p, clicks, c)
  {
    BrowseMore(site, p, clicks, c);
    BrowseMore(site, p, clicks + [c], if c.Next? then Prev else Next);
    Browsing(site, p, d, n, clicks);
    UndoTurn(site, p, d, n, Browse(site, p, clicks).value, PageNumber(clicks, n, |d|).value, c);
  }

  lemma UndoTurn(site: ListParams -> Response, p: ListParams, d: seq<Row>, n: nat, q: ListParams, k: nat, c: Click)
    requires PageLaws(site, p, d, n) && OnPage(site, p, d, n, q, k) && Follow(site(q), c).Some?
    ensures var back := Follow(site(Follow(site(q), c).value), if c.Next? then Prev else Next);
      back.Some? && OnPage(site, p, d, n, back.value, k)
  {
    if c.Next? {
      NextThenPrev(site, p, d, n, q, k);
    } else {
      PrevThenNext(site, p, d, n, q, k);
    }
  }

  lemma NextThenPrev(site: ListParams -> Response, p: ListParams, d: seq<Row>, n: nat, q: ListParams, k: nat)
    requires PageLaws(site, p, d, n) && OnPage(site, p, d, n, q, k) && Follow(site(q), Next).Some?
    ensures var back := Follow(site(Follow(site(q), Next).value), Prev);
      back.Some? && OnPage(site, p, d, n, back.value, k)
  {
    NextMoves(site, p, d, n, q, k);
    PrevMoves(site, p, d, n, Follow(site(q), Next).value, k + 1);
  }

  lemma PrevThenNext(site: ListParams -> Response, p: ListParams, d: seq<Row>, n: nat, q: ListParams, k: nat)
    requires PageLaws(site, p, d, n) && OnPage(site, p, d, n, q, k) && Follow(site(q), Prev).Some?
    ensures var back := Follow(site(Follow(site(q), Prev).value), Next);
      back.Some? && OnPage(site, p, d, n, back.value, k)
  {
    PrevMoves(site, p, d, n, q, k);
    NextMoves(site, p, d, n, Follow(site(q), Prev).value, k - 1);
  }

  // ---- the walk along `next` ------------------------------------------------------------------

  function Nexts(k: nat): seq<Click> { seq(k, _ => Next) }

  /** The rows of the first k pages that following `next` shows. */
  function Walk(site: ListParams -> Response, p: ListParams, k: nat): seq<Row> {
    if k == 0 then []
    else
      var q := Browse(site, p, Nexts(k - 1));
      Walk(site, p, k - 1) + if q.Some? && site(q.value).CursorPage? then site(q.value).data else []
  }

  /** The number of the last page. */
  function LastPage(total: nat, n: nat): (k: nat)
    requires n > 0
    ensures First(k, n) < total || k == 0
    ensures total <= First(k + 1, n)
  {
    if total <= n then 0 else 1 + LastPage(total - n, n)
  }

  lemma {:induction false} NextsNumber(k: nat, n: nat, total: nat)
    requires n > 0
    ensures PageNumber(Nexts(k), n, total) == if k == 0 || First(k, n) < total then Some(k) else None
  {
    if k > 0 {
      assert Nexts(k)[..k - 1] == Nexts(k - 1);
      NextsNumber(k - 1, n, total);
    }
  }

  lemma TakeMore(d: seq<Row>, i: nat, n: nat)
    requires i <= |d|
    ensures Take(d, i) + Slice(d, i, n) == Take(d, i + n)
    ensures i == |d| ==> Slice(d, i, n) == []
  {
  }

  /** Page k, reached by k clicks on `next`. */
  lemma NextsPage(site: ListParams -> Response, p: ListParams, d: seq<Row>, n: nat, k: nat)
    requires PageLaws(site, p, d, n)
    ensures var q, i := Browse(site, p, Nexts(k)), First(k, n);
      if k == 0 || i < |d| then q.Some? && site(q.value).CursorPage? && site(q.value).data == Slice(d, i, n)
      else q.None?
  {
    Browsing(site, p, d, n, Nexts(k));
    NextsNumber(k, n, |d|);
  }

  lemma {:induction false} WalkShows(site: ListParams -> Response, p: ListParams, d: seq<Row>, n: nat, k: nat)
    requires PageLaws(site, p, d, n)
    ensures Walk(site, p, k) == Take(d, First(k, n))
  {
    if k > 0 {
      WalkShows(site, p, d, n, k - 1);
      NextsPage(site, p, d, n, k - 1);
      if First(k - 1, n) <= |d| { TakeMore(d, First(k - 1, n), n); }
    }
  }

  /** Following `next` works as long as there are rows, and the pages together are d. */
  ghost predicate Visits(site: ListParams -> Response, p: ListParams, d: seq<Row>, n: nat)
    requires n > 0
  {
    && (forall k: nat :: Browse(site, p, Nexts(k)).Some? <==> k <= LastPage(|d|, n))
    && Walk(site, p, LastPage(|d|, n) + 1) == d
  }

  lemma NextsArrive(site: ListParams -> Response, p: ListParams, d: seq<Row>, n: nat, k: nat)
    requires PageLaws(site, p, d, n)
    ensures Browse(site, p, Nexts(k)).Some? <==> k <= LastPage(|d|, n)
  {
    NextsPage(site, p, d, n, k);
    LastIsLast(k, n, |d|);
  }

  lemma LastIsLast(k: nat, n: nat, total: nat)
    requires n > 0
    ensures k == 0 || First(k, n) < total <==> k <= LastPage(total, n)
  {
    var last := LastPage(total, n);
    if k <= last { Monotone(k, last, n); } else { Monotone(last + 1, k, n); }
  }

  lemma Visiting(site: ListParams -> Response, p: ListParams, d: seq<Row>, n: nat)
    requires PageLaws(site, p, d, n)
    ensures Visits(site, p, d, n)
  {
    var last := LastPage(|d|, n);
    WalkShows(site, p, d, n, last + 1);
    forall k: nat ensures Browse(site, p, Nexts(k)).Some? <==> k <= last { NextsArrive(site, p, d, n, k); }
  }

  /**
   * Following `next` from the first page ends after the last page, and the pages together are the matching rows
   * in sort order, each once.
   */
  lemma WalkVisitsEachRowOnce(schema: set<string>, rows: seq<Row>, p: ListParams)
    requires Pageable(schema, rows, p) && p.after.None? && p.before.None?
    ensures Visits(Site(schema, rows), p, Display(schema, rows, p), p.limit.value)
  {
    SiteLaws(schema, rows, p);
    Visiting(Site(schema, rows), p, Display(schema, rows, p), p.limit.value);
  }

  lemma {:induction false} Monotone(a: nat, b: nat, n: nat)
    requires a <= b
    ensures First(a, n) <= First(b, n)
  {
    if a < b { Monotone(a, b - 1, n); }
  }
}
