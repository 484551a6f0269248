/**
  Cursor pagination of the executions list: the statement that is built, the
  page that comes back, and what a reader gets who follows the cursors.

  Start times are whole milliseconds and ids are numbers in the order the
  database compares them by. What the database does with the statement is part
  of the model: `$n` placeholders, casts that may fail, the order and LIMIT.
 */
module ExecutionsPage {
  import opened Arithmetic
  import opened Wrappers
  import Sorting

  datatype Row = Row(startedAt: int, id: int, tenant: string, pipeline: string)

  /** A field of a decoded token that is a string, or anything else. */
  datatype Field = Text(s: string) | NotText

  datatype Decoded = Fields(t: Field, i: Field) | Malformed

  /** How times and ids are written and cast back, and how tokens are encoded and decoded. */
  datatype Host = Host(iso: int -> string, time: string -> Option<int>,
                       show: int -> string, uuid: string -> Option<int>,
                       write: (string, string) -> string, read: string -> Decoded)

  /** What is written can be read back, and no token is the empty string. */
  ghost predicate Faithful(h: Host) {
    && (forall t :: h.time(h.iso(t)) == Some(t))
    && (forall id :: h.uuid(h.show(id)) == Some(id))
    && (forall t, i :: h.read(h.write(t, i)) == Fields(Text(t), Text(i)) && h.write(t, i) != "")
  }

  datatype Cursor = Cursor(timestamp: string, id: string)

  function EncodeCursorRaw(h: Host, timestamp: string, id: string): string {
    h.write(timestamp, id)
  }

  function ParseCursor(h: Host, raw: Option<string>): Option<Cursor> {
    if raw.None? || raw.value == "" then None
    else
      match h.read(raw.value)
      case Fields(Text(t), Text(i)) => Some(Cursor(t, i))
      case _ => None
  }

  /** `parseCursor` inverts `encodeCursorRaw`. */
  lemma ParseInvertsEncode(h: Host, timestamp: string, id: string)
    requires Faithful(h)
    ensures ParseCursor(h, Some(EncodeCursorRaw(h, timestamp, id))) == Some(Cursor(timestamp, id))
  {
    assert h.read(h.write(timestamp, id)) == Fields(Text(timestamp), Text(id));
  }

  /*
   * The database.
   */

  datatype Param = TextParam(s: string) | CountParam(n: int)

  /** The clauses the statement is put together from; the numbers are placeholders, from 1. */
  datatype Clause = TenantIs(n: nat) | PipelineIs(n: nat) | OlderThan(time: nat, id: nat)

  predicate IsText(params: seq<Param>, n: nat) {
    1 <= n <= |params| && params[n - 1].TextParam?
  }

  /** Every placeholder is bound to a value of its type and every cast succeeds. */
  predicate Bound(h: Host, c: Clause, params: seq<Param>) {
    match c
    case TenantIs(n) => IsText(params, n)
    case PipelineIs(n) => IsText(params, n)
    case OlderThan(t, i) =>
      && IsText(params, t) && h.time(params[t - 1].s).Some?
      && IsText(params, i) && h.uuid(params[i - 1].s).Some?
  }

  predicate AllBound(h: Host, clauses: seq<Clause>, params: seq<Param>) {
    forall c :: c in clauses ==> Bound(h, c, params)
  }

  datatype Anchor = Anchor(startedAt: int, id: int)

  /** `(started_at, id) < (a.startedAt, a.id)`. */
  predicate Older(row: Row, a: Anchor) {
    row.startedAt < a.startedAt || (row.startedAt == a.startedAt && row.id < a.id)
  }

  predicate Holds(h: Host, c: Clause, params: seq<Param>, row: Row)
    requires Bound(h, c, params)
  {
    match c
    case TenantIs(n) => row.tenant == params[n - 1].s
    case PipelineIs(n) => row.pipeline == params[n - 1].s
    case OlderThan(t, i) => Older(row, Anchor(h.time(params[t - 1].s).value, h.uuid(params[i - 1].s).value))
  }

  predicate Passes(h: Host, clauses: seq<Clause>, params: seq<Param>, row: Row)
    requires AllBound(h, clauses, params)
  {
    forall c :: c in clauses ==> Holds(h, c, params, row)
  }

  function Where(h: Host, table: seq<Row>, clauses: seq<Clause>, params: seq<Param>): seq<Row>
    requires AllBound(h, clauses, params)
  {
    if table == [] then []
    else
      var rest := Where(h, table[1..], clauses, params);
      if Passes(h, clauses, params, table[0]) then [table[0]] + rest else rest
  }

  function Key(row: Row): Anchor {
    Anchor(row.startedAt, row.id)
  }

  function InsertRow(x: Row, rows: seq<Row>): seq<Row> {
    if rows == [] || !Older(x, Key(rows[0])) then [x] + rows else [rows[0]] + InsertRow(x, rows[1..])
  }

  /** `ORDER BY started_at DESC, id DESC`. */
  function NewestFirst(rows: seq<Row>): seq<Row> {
    if rows == [] then [] else InsertRow(rows[0], NewestFirst(rows[1..]))
  }

  /** The answer to the page statement; an error if a binding or the limit is bad. */
  function Select(h: Host, table: seq<Row>, clauses: seq<Clause>, params: seq<Param>, limit: nat): Option<seq<Row>> {
    if AllBound(h, clauses, params) && 1 <= limit <= |params| && params[limit - 1].CountParam?
       && params[limit - 1].n >= 0
    then Some(Take(NewestFirst(Where(h, table, clauses, params)), params[limit - 1].n))
    else None
  }

  function Take<T>(xs: seq<T>, n: nat): seq<T> {
    if |xs| <= n then xs else xs[..n]
  }

  function Count(h: Host, table: seq<Row>, clauses: seq<Clause>, params: seq<Param>): Option<nat> {
    if AllBound(h, clauses, params) then Some(|Where(h, table, clauses, params)|) else None
  }

  /*
   * The page.
   */

  datatype Filter = Filter(tenant: Option<string>, pipeline: Option<string>)

  datatype Args = Args(filter: Filter, limit: nat, cursor: Option<string>)

  datatype Page = Page(rows: seq<Row>, nextCursor: Option<string>, total: nat)

  /** The caller asked for this row, and it is older than the anchor, if there is one. */
  predicate IsWanted(row: Row, filter: Filter, anchor: Option<Anchor>) {
    && (filter.tenant.Some? ==> row.tenant == filter.tenant.value)
    && (filter.pipeline.Some? ==> row.pipeline == filter.pipeline.value)
    && (anchor.Some? ==> Older(row, anchor.value))
  }

  /** Those rows in table order. */
  function Wanted(table: seq<Row>, filter: Filter, anchor: Option<Anchor>): seq<Row> {
    if table == [] then []
    else
      var rest := Wanted(table[1..], filter, anchor);
      if IsWanted(table[0], filter, anchor) then [table[0]] + rest else rest
  }

  /** What a reader at this anchor still has to get. */
  function Rest(table: seq<Row>, filter: Filter, anchor: Option<Anchor>): seq<Row> {
    NewestFirst(Wanted(table, filter, anchor))
  }

  /** Where the cursor points: nowhere without one, an error if the database cannot cast it. */
  function AnchorOf(h: Host, cursor: Option<string>): Result<Option<Anchor>, ()> {
    match ParseCursor(h, cursor)
    case None => Success(None)
    case Some(c) =>
      if h.time(c.timestamp).Some? && h.uuid(c.id).Some?
      then Success(Some(Anchor(h.time(c.timestamp).value, h.uuid(c.id).value)))
      else Failure(())
  }

  function CursorAt(h: Host, row: Row): string {
    EncodeCursorRaw(h, h.iso(row.startedAt), h.show(row.id))
  }

  /** The page of a list that is already filtered and in order. */
  function PageOf(h: Host, all: seq<Row>, limit: nat, total: nat): Page {
    Page(Take(all, limit), if |all| > limit > 0 then Some(CursorAt(h, all[limit - 1])) else None, total)
  }

  /** What the caller should get. */
  function Expected(h: Host, table: seq<Row>, args: Args): Option<Page> {
    match AnchorOf(h, args.cursor)
    case Failure(_) => None
    case Success(anchor) =>
      Some(PageOf(h, Rest(table, args.filter, anchor), args.limit, |Wanted(table, args.filter, None)|))
  }

  /** The clauses with these parameters hold of exactly the rows that are wanted. */
  ghost predicate Says(h: Host, clauses: seq<Clause>, params: seq<Param>, filter: Filter, anchor: Option<Anchor>) {
    && AllBound(h, clauses, params)
    && forall row :: Passes(h, clauses, params, row) <==> IsWanted(row, filter, anchor)
  }

  lemma {:induction false} WhereIsWanted(h: Host, table: seq<Row>, clauses: seq<Clause>, params: seq<Param>,
                                         filter: Filter, anchor: Option<Anchor>)
    requires Says(h, clauses, params, filter, anchor)
    ensures Where(h, table, clauses, params) == Wanted(table, filter, anchor)
  {
    if table != [] {
      WhereIsWanted(h, table[1..], clauses, params, filter, anchor);
    }
  }

  /** More parameters change nothing for the clauses already there. */
  lemma MoreParams(h: Host, clauses: seq<Clause>, params: seq<Param>, more: seq<Param>)
    requires AllBound(h, clauses, params)
    ensures AllBound(h, clauses, params + more)
    ensures forall row :: Passes(h, clauses, params + more, row) <==> Passes(h, clauses, params, row)
  {
    forall c | c in clauses
      ensures Bound(h, c, params + more)
      ensures forall row :: Holds(h, c, params + more, row) <==> Holds(h, c, params, row)
    {
      assert Bound(h, c, params);
    }
  }

  /** One more clause restricts the rows by that clause. */
  lemma OneMoreClause(h: Host, clauses: seq<Clause>, c: Clause, params: seq<Param>)
    requires AllBound(h, clauses, params)
    ensures AllBound(h, clauses + [c], params) <==> Bound(h, c, params)
    ensures Bound(h, c, params) ==> forall row ::
        Passes(h, clauses + [c], params, row) <==> Passes(h, clauses, params, row) && Holds(h, c, params, row)
  {
    assert forall d :: d in clauses + [c] <==> d in clauses || d == c;
  }

  /** The filter clauses with their parameters. */
  method BuildFilter(ghost h: Host, filter: Filter) returns (clauses: seq<Clause>, params: seq<Param>)
    ensures Says(h, clauses, params, filter, None)
  {
    clauses, params := [], [];
    if filter.tenant.Some? {
      params := params + [TextParam(filter.tenant.value)];
      OneMoreClause(h, clauses, TenantIs(|params|), params);
      clauses := clauses + [TenantIs(|params|)];
    }
    if filter.pipeline.Some? {
      MoreParams(h, clauses, params, [TextParam(filter.pipeline.value)]);
      params := params + [TextParam(filter.pipeline.value)];
      OneMoreClause(h, clauses, PipelineIs(|params|), params);
      clauses := clauses + [PipelineIs(|params|)];
    }
  }

  /** The page statement: the cursor's clause on top of the filter, its
      placeholders numbered after the filter's. It fails to bind just when the
      cursor does not cast. */
  method AddCursor(ghost h: Host, ghost args: Args, filterClauses: seq<Clause>, filterParams: seq<Param>,
                   parsed: Option<Cursor>)
    returns (clauses: seq<Clause>, params: seq<Param>)
    requires Says(h, filterClauses, filterParams, args.filter, None) && parsed == ParseCursor(h, args.cursor)
    ensures match AnchorOf(h, args.cursor)
            case Success(anchor) => Says(h, clauses, params, args.filter, anchor)
            case Failure(_) => !AllBound(h, clauses, params)
  {
    clauses, params := filterClauses, filterParams;
    if parsed.Some? {
      MoreParams(h, clauses, params, [TextParam(parsed.value.timestamp)]);
      params := params + [TextParam(parsed.value.timestamp)];
      MoreParams(h, clauses, params, [TextParam(parsed.value.id)]);
      params := params + [TextParam(parsed.value.id)];
      OneMoreClause(h, clauses, OlderThan(|params| - 1, |params|), params);
      clauses := clauses + [OlderThan(|params| - 1, |params|)];
    }
  }

  /** One row more than the limit is enough to tell the page. */
  lemma OneMoreRow(h: Host, all: seq<Row>, limit: nat, total: nat)
    ensures var got := Take(all, limit + 1);
            PageOf(h, all, limit, total) ==
            Page(if |got| > limit then got[..limit] else got,
                 if |got| > limit > 0 then Some(CursorAt(h, got[limit - 1])) else None, total)
  {
    assert |all| > limit ==> all[..limit + 1][..limit] == all[..limit];
  }

  /** Every page is the one expected: right rows, right order, right bindings;
      a cursor that the database cannot cast is an error, one that does not
      decode starts from the beginning. */
  method ListExecutionsPage(h: Host, table: seq<Row>, args: Args) returns (page: Option<Page>)
    ensures page == Expected(h, table, args)
  {
    var parsed := ParseCursor(h, args.cursor);
    var filterClauses, filterParams := BuildFilter(h, args.filter);
    var pageClauses, pageParams := AddCursor(h, args, filterClauses, filterParams, parsed);
    ghost var anchor := AnchorOf(h, args.cursor);
    if anchor.Success? {
      MoreParams(h, pageClauses, pageParams, [CountParam(args.limit + 1)]);
      WhereIsWanted(h, table, pageClauses, pageParams + [CountParam(args.limit + 1)], args.filter, anchor.value);
      OneMoreRow(h, Rest(table, args.filter, anchor.value), args.limit, |Wanted(table, args.filter, None)|);
    }
    pageParams := pageParams + [CountParam(args.limit + 1)];
    var result := Select(h, table, pageClauses, pageParams, |pageParams|);
    WhereIsWanted(h, table, filterClauses, filterParams, args.filter, None);
    var count := Count(h, table, filterClauses, filterParams);
    if result.None? || count.None? {
      return None;
    }
    var allRows := result.value;
    var overflow := |allRows| > args.limit;
    var rows := if overflow then allRows[..args.limit] else allRows;
    var nextCursor: Option<string> := None;
    if overflow && |rows| > 0 {
      nextCursor := Some(EncodeCursorRaw(h, h.iso(rows[|rows| - 1].startedAt), h.show(allRows[args.limit - 1].id)));
    }
    page := Some(Page(rows, nextCursor, count.value));
  }

  /*
   * The pages as a list.
   */

  /** Ids are unique in a table. */
  ghost predicate UniqueIds(table: seq<Row>) {
    forall i, j :: 0 <= i < j < |table| ==> table[i].id != table[j].id
  }

  /** Strictly descending by (started_at, id). */
  ghost predicate Descending(rows: seq<Row>) {
    forall i, j :: 0 <= i < j < |rows| ==> Older(rows[j], Key(rows[i]))
  }

  lemma {:induction false} InsertKeepsDescending(x: Row, rows: seq<Row>)
    requires Descending(rows) && forall r :: r in rows ==> r.id != x.id
    ensures Descending(InsertRow(x, rows))
    ensures forall r :: r in InsertRow(x, rows) <==> r == x || r in rows
  {
    if rows != [] {
      assert rows == [rows[0]] + rows[1..];
      if Older(x, Key(rows[0])) {
        InsertKeepsDescending(x, rows[1..]);
        var rest := InsertRow(x, rows[1..]);
        forall k | 0 <= k < |rest| ensures Older(rest[k], Key(rows[0])) { assert rest[k] in rest; }
      }
    }
  }

  lemma {:induction false} NewestFirstIsDescending(rows: seq<Row>)
    requires UniqueIds(rows)
    ensures Descending(NewestFirst(rows))
    ensures forall r :: r in NewestFirst(rows) <==> r in rows
  {
    if rows != [] {
      assert rows == [rows[0]] + rows[1..];
      NewestFirstIsDescending(rows[1..]);
      InsertKeepsDescending(rows[0], NewestFirst(rows[1..]));
    }
  }

  lemma {:induction false} WantedMembers(table: seq<Row>, filter: Filter, anchor: Option<Anchor>)
    ensures forall r :: r in Wanted(table, filter, anchor) <==> r in table && IsWanted(r, filter, anchor)
    ensures UniqueIds(table) ==> UniqueIds(Wanted(table, filter, anchor))
  {
    if table != [] {
      assert table == [table[0]] + table[1..];
      WantedMembers(table[1..], filter, anchor);
      var rest := Wanted(table[1..], filter, anchor);
      forall k | 0 <= k < |rest| && UniqueIds(table) ensures rest[k].id != table[0].id {
        assert rest[k] in rest && rest[k] in table[1..];
      }
    }
  }

  /** A strictly descending list is determined by its members. */
  lemma {:induction false} DescendingUnique(a: seq<Row>, b: seq<Row>)
    requires Descending(a) && Descending(b)
    requires forall r :: r in a <==> r in b
    ensures a == b
  {
    if a == [] {
      Sorting.EmptyOrFirst(b);
    } else {
      assert a[0] in b && b != [] && b[0] in a;
      assert a[0] == b[0];
      assert a == [a[0]] + a[1..] && b == [b[0]] + b[1..];
      assert a[0] !in a[1..] && b[0] !in b[1..];
      forall r ensures r in a[1..] <==> r in b[1..] {
        assert r in a <==> r == a[0] || r in a[1..];
        assert r in b <==> r == b[0] || r in b[1..];
      }
      DescendingUnique(a[1..], b[1..]);
    }
  }

  lemma RestIs(table: seq<Row>, filter: Filter, anchor: Option<Anchor>)
    requires UniqueIds(table)
    ensures Descending(Rest(table, filter, anchor))
    ensures forall r :: r in Rest(table, filter, anchor) <==> r in table && IsWanted(r, filter, anchor)
  {
    WantedMembers(table, filter, anchor);
    NewestFirstIsDescending(Wanted(table, filter, anchor));
  }

  /** Below the anchor the two tables hold the same rows; above it anything may
      have been inserted, changed or deleted. */
  ghost predicate SameBelow(a: seq<Row>, b: seq<Row>, anchor: Anchor) {
    forall r :: Older(r, anchor) ==> (r in a <==> r in b)
  }

  /** After a page of `n` rows that ends at the anchor, what is left is the list without them. */
  lemma RestAfterPage(before: seq<Row>, after: seq<Row>, filter: Filter, anchor: Option<Anchor>, n: nat)
    requires UniqueIds(before) && UniqueIds(after)
    requires 0 < n <= |Rest(before, filter, anchor)|
    requires SameBelow(before, after, Key(Rest(before, filter, anchor)[n - 1]))
    ensures Rest(after, filter, Some(Key(Rest(before, filter, anchor)[n - 1]))) == Rest(before, filter, anchor)[n..]
  {
    var all := Rest(before, filter, anchor);
    var next := Key(all[n - 1]);
    RestIs(before, filter, anchor);
    RestIs(after, filter, Some(next));
    forall r ensures r in Rest(after, filter, Some(next)) <==> r in all[n..] {
      if r in all[n..] {
        var k :| n <= k < |all| && r == all[k];
        assert r in all && Older(all[k], Key(all[n - 1]));
      }
      if r in Rest(after, filter, Some(next)) {
        assert all[n - 1] in all;
        assert r in all;
        var k :| 0 <= k < |all| && r == all[k];
        assert k >= n;
      }
    }
    DescendingUnique(Rest(after, filter, Some(next)), all[n..]);
  }

  /*
   * What a page is to its reader.
   */

  /** The filter names neither another tenant nor another pipeline. */
  ghost predicate Asked(row: Row, filter: Filter) {
    filter.tenant in {None, Some(row.tenant)} && filter.pipeline in {None, Some(row.pipeline)}
  }

  ghost function AskedRows(table: seq<Row>, filter: Filter): set<Row> {
    set row | row in table && Asked(row, filter)
  }

  lemma {:induction false} RowsCounted(rows: seq<Row>, found: set<Row>)
    requires UniqueIds(rows) && forall r :: r in rows <==> r in found
    ensures |rows| == |found|
  {
    if rows == [] {
      assert found == {};
    } else {
      assert rows == [rows[0]] + rows[1..];
      assert rows[0] !in rows[1..];
      RowsCounted(rows[1..], found - {rows[0]});
    }
  }

  lemma WantedCounted(table: seq<Row>, filter: Filter)
    requires UniqueIds(table)
    ensures |Wanted(table, filter, None)| == |AskedRows(table, filter)|
  {
    WantedMembers(table, filter, None);
    RowsCounted(Wanted(table, filter, None), AskedRows(table, filter));
  }

  lemma RestCounted(table: seq<Row>, filter: Filter)
    requires UniqueIds(table)
    ensures |Rest(table, filter, None)| == |AskedRows(table, filter)|
  {
    RestIs(table, filter, None);
    var rest := Rest(table, filter, None);
    forall i, j | 0 <= i < j < |rest| ensures rest[i].id != rest[j].id {
      assert Older(rest[j], Key(rest[i])) && rest[i] in table && rest[j] in table;
    }
    RowsCounted(rest, AskedRows(table, filter));
  }

  /** `a` comes before `b` on a page. */
  ghost predicate Before(a: Row, b: Row) {
    a.startedAt > b.startedAt || (a.startedAt == b.startedAt && a.id > b.id)
  }

  /** The page with this cursor, or the first one for an absent, empty or
      undecodable cursor: in order, at most `limit` of the rows that were asked
      for and lie after the place the cursor names, none left out that comes
      before another; a cursor to the last row exactly if there are more; and how
      many were asked for in all. */
  lemma PageMeans(h: Host, table: seq<Row>, args: Args, page: Page, place: Option<Row>)
    requires UniqueIds(table) && Expected(h, table, args) == Some(page)
    requires match ParseCursor(h, args.cursor)
             case None => place == None
             case Some(c) => place.Some? && h.time(c.timestamp) == Some(place.value.startedAt) &&
                             h.uuid(c.id) == Some(place.value.id)
    ensures forall i, j :: 0 <= i < j < |page.rows| ==> Before(page.rows[i], page.rows[j])
    ensures |page.rows| <= args.limit
    ensures forall r :: r in page.rows ==>
              r in table && Asked(r, args.filter) && (place.Some? ==> Before(place.value, r))
    ensures forall r :: r in table && Asked(r, args.filter) && (place.Some? ==> Before(place.value, r)) ==>
              r in page.rows || (|page.rows| == args.limit && forall q :: q in page.rows ==> Before(q, r))
    ensures page.nextCursor.Some? <==>
            page.rows != [] && exists r :: r in table && Asked(r, args.filter) && Before(page.rows[|page.rows| - 1], r)
    ensures page.nextCursor.Some? ==>
              var last := page.rows[|page.rows| - 1];
              page.nextCursor == Some(h.write(h.iso(last.startedAt), h.show(last.id)))
    ensures page.total == |AskedRows(table, args.filter)|
  {
    var anchor := if place.Some? then Some(Key(place.value)) else None;
    assert AnchorOf(h, args.cursor) == Success(anchor);
    var all := Rest(table, args.filter, anchor);
    RestIs(table, args.filter, anchor);
    WantedCounted(table, args.filter);
    assert page == PageOf(h, all, args.limit, |Wanted(table, args.filter, None)|);
    FirstRows(table, args, anchor, place, all);
    MoreIffLeft(table, args, anchor, all, page.rows);
  }

  lemma FirstRows(table: seq<Row>, args: Args, anchor: Option<Anchor>, place: Option<Row>, all: seq<Row>)
    requires Descending(all) && anchor == if place.Some? then Some(Key(place.value)) else None
    requires forall r :: r in all <==> r in table && IsWanted(r, args.filter, anchor)
    ensures var rows := Take(all, args.limit);
            && (forall i, j :: 0 <= i < j < |rows| ==> Before(rows[i], rows[j]))
            && (forall r :: r in rows ==>
                  r in table && Asked(r, args.filter) && (place.Some? ==> Before(place.value, r)))
            && (forall r :: r in table && Asked(r, args.filter) && (place.Some? ==> Before(place.value, r)) ==>
                  r in rows || (|rows| == args.limit && forall q :: q in rows ==> Before(q, r)))
  {
    var rows := Take(all, args.limit);
    assert forall r :: r in rows ==> r in all;
    forall r | r in table && Asked(r, args.filter) && (place.Some? ==> Before(place.value, r))
      ensures r in rows || (|rows| == args.limit && forall q :: q in rows ==> Before(q, r))
    {
      assert IsWanted(r, args.filter, anchor) && r in all;
      var k :| 0 <= k < |all| && all[k] == r;
      assert k < |rows| ==> rows[k] in rows;
    }
  }

  lemma MoreIffLeft(table: seq<Row>, args: Args, anchor: Option<Anchor>, all: seq<Row>, rows: seq<Row>)
    requires Descending(all) && rows == Take(all, args.limit)
    requires forall r :: r in all <==> r in table && IsWanted(r, args.filter, anchor)
    ensures |all| > args.limit > 0 <==>
            rows != [] && exists r :: r in table && Asked(r, args.filter) && Before(rows[|rows| - 1], r)
  {
    var n := args.limit;
    if |all| > n > 0 {
      assert all[n] in all && Older(all[n], Key(all[n - 1]));
      assert Asked(all[n], args.filter) && Before(rows[|rows| - 1], all[n]);
    }
    if rows != [] {
      var last := rows[|rows| - 1];
      assert last in all && IsWanted(last, args.filter, anchor);
      forall r | r in table && Asked(r, args.filter) && Before(last, r) ensures |all| > n {
        assert IsWanted(r, args.filter, anchor) && r in all;
        var k :| 0 <= k < |all| && all[k] == r;
        assert k < |all| - 1 ==> Older(all[|all| - 1], Key(all[k]));
      }
    }
  }

  /** The fetch fails exactly if the cursor decodes and does not cast. */
  lemma FetchFailsIff(h: Host, table: seq<Row>, args: Args)
    ensures Expected(h, table, args) == None <==>
        args.cursor.Some? && args.cursor.value != "" &&
        exists t, i :: h.read(args.cursor.value) == Fields(Text(t), Text(i)) && (h.time(t) == None || h.uuid(i) == None)
  {
  }

  /*
   * Following the cursors.
   */

  function At(args: Args, cursor: Option<string>): Args {
    args.(cursor := cursor)
  }

  /** The cursor of the k-th fetch. */
  function CursorOf(pages: seq<Page>, k: nat): Option<string>
    requires k <= |pages|
  {
    if k == 0 then None else pages[k - 1].nextCursor
  }

  /** The k-th fetch, against the k-th table: the first without a cursor, each
      further one with the cursor of the page before. */
  ghost predicate Fetched(h: Host, tables: seq<seq<Row>>, args: Args, pages: seq<Page>, k: nat)
    requires |pages| == |tables|
  {
    k < |pages| ==>
      && UniqueIds(tables[k]) && (k > 0 ==> CursorOf(pages, k).Some?)
      && Expected(h, tables[k], At(args, CursorOf(pages, k))) == Some(pages[k])
  }

  /** A reader's fetches. */
  ghost predicate Walk(h: Host, tables: seq<seq<Row>>, args: Args, pages: seq<Page>) {
    && |pages| == |tables| > 0
    && forall k: nat {:trigger Fetched(h, tables, args, pages, k)} :: Fetched(h, tables, args, pages, k)
  }

  /** Where the k-th fetch starts: below the last row of the page before. */
  function StartOf(pages: seq<Page>, k: nat): Option<Anchor>
    requires k <= |pages|
  {
    if k == 0 || pages[k - 1].rows == [] then None else Some(Key(pages[k - 1].rows[|pages[k - 1].rows| - 1]))
  }

  /** Before the k-th fetch the table changed only at or above the last row of the page before. */
  ghost predicate ChangedAbove(tables: seq<seq<Row>>, pages: seq<Page>, k: nat) {
    0 < k < |tables| && k <= |pages| && StartOf(pages, k).Some? ==>
      SameBelow(tables[k - 1], tables[k], StartOf(pages, k).value)
  }

  ghost predicate ChangesOnlyAbove(tables: seq<seq<Row>>, pages: seq<Page>) {
    forall k: nat {:trigger ChangedAbove(tables, pages, k)} :: ChangedAbove(tables, pages, k)
  }

  function AllRows(pages: seq<Page>): seq<Row> {
    if pages == [] then [] else AllRows(pages[..|pages| - 1]) + pages[|pages| - 1].rows
  }

  lemma PageAt(h: Host, tables: seq<seq<Row>>, args: Args, pages: seq<Page>, k: nat)
    requires Walk(h, tables, args, pages) && k < |pages|
    requires AnchorOf(h, CursorOf(pages, k)) == Success(StartOf(pages, k))
    ensures pages[k] == PageOf(h, Rest(tables[k], args.filter, StartOf(pages, k)), args.limit,
                               |Wanted(tables[k], args.filter, None)|)
  {
    assert Fetched(h, tables, args, pages, k);
  }

  /** A page with a cursor is full, and the cursor is that of its last row. */
  lemma FullPage(h: Host, rest: seq<Row>, limit: nat, total: nat)
    requires Faithful(h) && PageOf(h, rest, limit, total).nextCursor.Some?
    ensures var page := PageOf(h, rest, limit, total);
            && |rest| > limit > 0 && page.rows == rest[..limit] && page.rows + rest[limit..] == rest
            && AnchorOf(h, page.nextCursor) == Success(Some(Key(rest[limit - 1])))
            && Key(page.rows[|page.rows| - 1]) == Key(rest[limit - 1])
  {
  }

  /** The rows of a page are what the next fetch finds no longer left. */
  lemma NextFetch(h: Host, tables: seq<seq<Row>>, args: Args, pages: seq<Page>, k: nat)
    requires Faithful(h) && Walk(h, tables, args, pages) && ChangesOnlyAbove(tables, pages)
    requires 0 < k < |pages| && AnchorOf(h, CursorOf(pages, k - 1)) == Success(StartOf(pages, k - 1))
    ensures AnchorOf(h, CursorOf(pages, k)) == Success(StartOf(pages, k))
    ensures pages[k - 1].rows + Rest(tables[k], args.filter, StartOf(pages, k)) ==
            Rest(tables[k - 1], args.filter, StartOf(pages, k - 1))
    ensures |pages[k - 1].rows| == args.limit
  {
    PageAt(h, tables, args, pages, k - 1);
    var rest := Rest(tables[k - 1], args.filter, StartOf(pages, k - 1));
    assert Fetched(h, tables, args, pages, k - 1) && Fetched(h, tables, args, pages, k);
    FullPage(h, rest, args.limit, |Wanted(tables[k - 1], args.filter, None)|);
    assert ChangedAbove(tables, pages, k);
    RestAfterPage(tables[k - 1], tables[k], args.filter, StartOf(pages, k - 1), args.limit);
  }

  /** At the k-th fetch, what was shown so far and what is left make up the
      first table's matching rows; all pages before were full. */
  lemma {:induction false} AtFetch(h: Host, tables: seq<seq<Row>>, args: Args, pages: seq<Page>, k: nat)
    requires Faithful(h) && Walk(h, tables, args, pages) && ChangesOnlyAbove(tables, pages)
    requires k < |pages|
    ensures AnchorOf(h, CursorOf(pages, k)) == Success(StartOf(pages, k))
    ensures AllRows(pages[..k]) + Rest(tables[k], args.filter, StartOf(pages, k)) == Rest(tables[0], args.filter, None)
    ensures |AllRows(pages[..k])| == k * args.limit
  {
    if k == 0 {
      assert AllRows(pages[..0]) == [];
    } else {
      AtFetch(h, tables, args, pages, k - 1);
      NextFetch(h, tables, args, pages, k);
      AllRowsGrow(pages, k);
      Times(k, args.limit);
    }
  }

  lemma AllRowsGrow(pages: seq<Page>, k: nat)
    requires 0 < k <= |pages|
    ensures AllRows(pages[..k]) == AllRows(pages[..k - 1]) + pages[k - 1].rows
  {
    assert pages[..k][..k - 1] == pages[..k - 1];
  }

  lemma AllShown(h: Host, tables: seq<seq<Row>>, args: Args, pages: seq<Page>)
    requires Faithful(h) && args.limit > 0 && Walk(h, tables, args, pages) && ChangesOnlyAbove(tables, pages)
    requires pages[|pages| - 1].nextCursor.None?
    ensures AllRows(pages) == Rest(tables[0], args.filter, None)
  {
    var k := |pages| - 1;
    AtFetch(h, tables, args, pages, k);
    PageAt(h, tables, args, pages, k);
  }

  /** Following the cursors from the first page to the one without a cursor shows
      every matching row of the first table exactly once, newest first, although
      the table may change above the reader's place between fetches. */
  lemma EveryRowOnce(h: Host, tables: seq<seq<Row>>, args: Args, pages: seq<Page>)
    requires Faithful(h) && args.limit > 0 && Walk(h, tables, args, pages) && ChangesOnlyAbove(tables, pages)
    requires pages[|pages| - 1].nextCursor.None?
    ensures forall i, j :: 0 <= i < j < |AllRows(pages)| ==> Before(AllRows(pages)[i], AllRows(pages)[j])
    ensures forall r :: r in AllRows(pages) <==> r in AskedRows(tables[0], args.filter)
  {
    assert Fetched(h, tables, args, pages, 0);
    RestIs(tables[0], args.filter, None);
    AllShown(h, tables, args, pages);
  }

  /** The last page comes: a walk of n pages has a next cursor if and only if
      more than n full pages of the first table match. */
  lemma WalkEnds(h: Host, tables: seq<seq<Row>>, args: Args, pages: seq<Page>)
    requires Faithful(h) && args.limit > 0 && Walk(h, tables, args, pages) && ChangesOnlyAbove(tables, pages)
    ensures pages[|pages| - 1].nextCursor.Some? <==> |AskedRows(tables[0], args.filter)| > |pages| * args.limit
  {
    var k := |pages| - 1;
    assert Fetched(h, tables, args, pages, 0);
    RestCounted(tables[0], args.filter);
    AtFetch(h, tables, args, pages, k);
    PageAt(h, tables, args, pages, k);
    Times(|pages|, args.limit);
  }

  lemma MorePagesMeanCursor(h: Host, tables: seq<seq<Row>>, args: Args, pages: seq<Page>)
    requires Walk(h, tables, args, pages)
    ensures |pages| > 1 ==> pages[0].nextCursor.Some?
  {
    assert Fetched(h, tables, args, pages, 1);
  }

  /** With a limit of zero the reader gets nothing, whatever matches, and no cursor. */
  lemma ZeroLimitShowsNothing(h: Host, tables: seq<seq<Row>>, args: Args, pages: seq<Page>)
    requires args.limit == 0 && Walk(h, tables, args, pages)
    ensures |pages| == 1 && AllRows(pages) == [] && pages[0].nextCursor.None?
    ensures pages[0].total == |AskedRows(tables[0], args.filter)|
  {
    MorePagesMeanCursor(h, tables, args, pages);
    PageAt(h, tables, args, pages, 0);
    assert Fetched(h, tables, args, pages, 0);
    WantedCounted(tables[0], args.filter);
    assert pages[..|pages| - 1] == [] || |pages| > 1;
  }

  /** `n` fetches from a table that does not change. */
  function Unchanged(table: seq<Row>, n: nat): seq<seq<Row>> {
    seq(n, _ => table)
  }

  lemma UnchangedAbove(table: seq<Row>, pages: seq<Page>)
    ensures ChangesOnlyAbove(Unchanged(table, |pages|), pages)
  {
    forall k: nat ensures ChangedAbove(Unchanged(table, |pages|), pages, k) { }
  }

  lemma OneMoreFetch(h: Host, table: seq<Row>, args: Args, pages: seq<Page>) returns (more: seq<Page>)
    requires Faithful(h) && args.limit > 0 && UniqueIds(table) && pages != []
    requires Walk(h, Unchanged(table, |pages|), args, pages) && pages[|pages| - 1].nextCursor.Some?
    ensures pages <= more && |more| == |pages| + 1 && Walk(h, Unchanged(table, |more|), args, more)
  {
    var n, tables := |pages|, Unchanged(table, |pages|);
    UnchangedAbove(table, pages);
    AtFetch(h, tables, args, pages, n - 1);
    PageAt(h, tables, args, pages, n - 1);
    FullPage(h, Rest(table, args.filter, StartOf(pages, n - 1)), args.limit, |Wanted(table, args.filter, None)|);
    more := pages + [Expected(h, table, At(args, CursorOf(pages, n))).value];
    var longer := Unchanged(table, n + 1);
    forall k: nat ensures Fetched(h, longer, args, more, k) {
      assert Fetched(h, tables, args, pages, k);
      assert k <= n ==> CursorOf(more, k) == CursorOf(pages, k);
    }
  }

  lemma {:induction false} WalkToEnd(h: Host, table: seq<Row>, args: Args, pages0: seq<Page>) returns (pages: seq<Page>)
    requires Faithful(h) && args.limit > 0 && UniqueIds(table) && pages0 != []
    requires Walk(h, Unchanged(table, |pages0|), args, pages0)
    ensures pages != [] && Walk(h, Unchanged(table, |pages|), args, pages) && pages[|pages| - 1].nextCursor.None?
    decreases |AskedRows(table, args.filter)| - |pages0| * args.limit
  {
    pages := pages0;
    if pages[|pages| - 1].nextCursor.Some? {
      UnchangedAbove(table, pages);
      WalkEnds(h, Unchanged(table, |pages|), args, pages);
      pages := OneMoreFetch(h, table, args, pages);
      Times(|pages|, args.limit);
      pages := WalkToEnd(h, table, args, pages);
    }
  }

  /** Every table can be read to the end: the fetches never fail, and together
      they show every row asked for once, newest first. */
  lemma EveryTableIsRead(h: Host, table: seq<Row>, args: Args) returns (pages: seq<Page>)
    requires Faithful(h) && args.limit > 0 && UniqueIds(table)
    ensures pages != [] && Walk(h, Unchanged(table, |pages|), args, pages) && pages[|pages| - 1].nextCursor.None?
    ensures forall r :: r in AllRows(pages) <==> r in AskedRows(table, args.filter)
    ensures forall i, j :: 0 <= i < j < |AllRows(pages)| ==> Before(AllRows(pages)[i], AllRows(pages)[j])
  {
    var first := [Expected(h, table, At(args, None)).value];
    forall k: nat ensures Fetched(h, Unchanged(table, 1), args, first, k) { }
    pages := WalkToEnd(h, table, args, first);
    UnchangedAbove(table, pages);
    EveryRowOnce(h, Unchanged(table, |pages|), args, pages);
  }
}
