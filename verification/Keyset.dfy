/** Keyset pagination of the asset inventory: the boundary predicate of
    src/server/services/cmdb-cursor.ts under SQL's three-valued logic, and the page
    query of src/server/services/cmdb-api.service.ts that uses it. */
module Keyset {
  import opened Ordering
  import opened Wrappers

  datatype Direction = ASC | DESC

  /** The sort column of an asset (absent when NULL) and its id; a boundary has the same shape. */
  datatype Row = Row(value: Option<string>, id: string)

  const SORT_COLUMNS: set<string> := {
    "a.name", "a.ci_number", "a.environment", "a.lifecycle_state", "a.criticality", "a.last_seen_at", "a.updated_at"}

  // ---------------------------------------------------------------------
  // SQL conditions
  // ---------------------------------------------------------------------

  datatype Truth = Yes | No | Unknown

  /** Conditions on one row; parameters are numbered from one. */
  datatype Condition =
    | ColumnIsNull
    | ColumnIsNotNull
    | IdBelow(idParam: nat)
    | IdAbove(idParam: nat)
    | PairBelow(valueParam: nat, idParam: nat)
    | PairAbove(valueParam: nat, idParam: nat)
    | And(left: Condition, right: Condition)
    | Or(left: Condition, right: Condition)

  /** The orders of the column type (on its text form) and of ids. */
  datatype Orders = Orders(value: (string, string) -> bool, id: (string, string) -> bool)

  ghost predicate Total(o: Orders) { StrictTotal(o.value) && StrictTotal(o.id) }

  predicate Bound(c: Condition, n: nat) {
    match c
    case ColumnIsNull => true
    case ColumnIsNotNull => true
    case IdBelow(i) => 1 <= i <= n
    case IdAbove(i) => 1 <= i <= n
    case PairBelow(v, i) => 1 <= v <= n && 1 <= i <= n
    case PairAbove(v, i) => 1 <= v <= n && 1 <= i <= n
    case And(l, r) => Bound(l, n) && Bound(r, n)
    case Or(l, r) => Bound(l, n) && Bound(r, n)
  }

  function Of(b: bool): Truth { if b then Yes else No }

  function Both(x: Truth, y: Truth): Truth {
    if x == No || y == No then No else if x == Yes && y == Yes then Yes else Unknown
  }

  function Either(x: Truth, y: Truth): Truth {
    if x == Yes || y == Yes then Yes else if x == No && y == No then No else Unknown
  }

  /** Row comparison goes left to right; a NULL column makes it unknown. */
  function Eval(c: Condition, row: Row, params: seq<string>, o: Orders): Truth
    requires Bound(c, |params|)
  {
    match c
    case ColumnIsNull => Of(row.value.None?)
    case ColumnIsNotNull => Of(row.value.Some?)
    case IdBelow(i) => Of(o.id(row.id, params[i - 1]))
    case IdAbove(i) => Of(o.id(params[i - 1], row.id))
    case PairBelow(v, i) =>
      if row.value.None? then Unknown
      else Of(o.value(row.value.value, params[v - 1])
              || (row.value.value == params[v - 1] && o.id(row.id, params[i - 1])))
    case PairAbove(v, i) =>
      if row.value.None? then Unknown
      else Of(o.value(params[v - 1], row.value.value)
              || (row.value.value == params[v - 1] && o.id(params[i - 1], row.id)))
    case And(l, r) => Both(Eval(l, row, params, o), Eval(r, row, params, o))
    case Or(l, r) => Either(Eval(l, row, params, o), Eval(r, row, params, o))
  }

  /** The truth tables of SQL. */
  lemma TruthTables(x: Truth, y: Truth)
    ensures (Both(x, y) == Yes <==> x == Yes && y == Yes) && (Both(x, y) == No <==> x == No || y == No)
    ensures (Either(x, y) == Yes <==> x == Yes || y == Yes) && (Either(x, y) == No <==> x == No && y == No)
  {}

  lemma SortColumnsAre(column: string)
    ensures column in SORT_COLUMNS <==>
            column in ["a.ci_number", "a.criticality", "a.environment", "a.last_seen_at", "a.lifecycle_state", "a.name",
                       "a.updated_at"]
  {}

  class SqlParams {
    var values: seq<string>

    constructor ()
      ensures values == []
    {
      values := [];
    }

    method Push(v: string)
      modifies this
      ensures values == old(values) + [v]
    {
      values := values + [v];
    }
  }

  function BoundaryParams(b: Row): seq<string> {
    if b.value.None? then [b.id] else [b.id, b.value.value]
  }

  /** The condition built for a boundary when n parameters are in use already. */
  function BoundaryCondition(d: Direction, b: Row, n: nat): (c: Condition)
    ensures Bound(c, n + |BoundaryParams(b)|)
  {
    match (d, b.value)
    case (DESC, None) => Or(And(ColumnIsNull, IdBelow(n + 1)), ColumnIsNotNull)
    case (ASC, None) => And(ColumnIsNull, IdAbove(n + 1))
    case (DESC, Some(_)) => PairBelow(n + 2, n + 1)
    case (ASC, Some(_)) => Or(PairAbove(n + 2, n + 1), ColumnIsNull)
  }

  /** Appends its parameters to the caller's list and refers to them by position. */
  method AssetCursorBoundary(column: string, d: Direction, b: Row, params: SqlParams)
    returns (r: Result<Condition, string>)
    modifies params
    ensures r.Err? <==> column !in SORT_COLUMNS
    ensures r.Err? ==> params.values == old(params.values)
    ensures r.Ok? ==> params.values == old(params.values) + BoundaryParams(b)
    ensures r.Ok? ==> r.value == BoundaryCondition(d, b, |old(params.values)|)
  {
    if column !in SORT_COLUMNS { return Err("Unsupported cursor sort column."); }
    params.Push(b.id);
    var id := |params.values|;
    if b.value.None? {
      return Ok(if d == DESC then Or(And(ColumnIsNull, IdBelow(id)), ColumnIsNotNull)
                else And(ColumnIsNull, IdAbove(id)));
    }
    params.Push(b.value.value);
    var value := |params.values|;
    return Ok(if d == DESC then PairBelow(value, id) else Or(PairAbove(value, id), ColumnIsNull));
  }

  // ---------------------------------------------------------------------
  // The order of the listing
  // ---------------------------------------------------------------------

  /** ORDER BY column ASC, id ASC puts NULLs last; the descending listing is its mirror image. */
  predicate Ascends(o: Orders, x: Row, y: Row) {
    match (x.value, y.value)
    case (None, None) => o.id(x.id, y.id)
    case (None, Some(_)) => false
    case (Some(_), None) => true
    case (Some(v), Some(w)) => o.value(v, w) || (v == w && o.id(x.id, y.id))
  }

  predicate Before(o: Orders, d: Direction, x: Row, y: Row) {
    if d == ASC then Ascends(o, x, y) else Ascends(o, y, x)
  }

  /** Under SQL null logic the condition selects exactly the rows strictly after the boundary,
      whichever parameters stand before or behind its own. */
  lemma BoundaryExact(o: Orders, d: Direction, b: Row, row: Row, front: seq<string>, back: seq<string>)
    ensures var params := front + BoundaryParams(b) + back;
            var c := BoundaryCondition(d, b, |front|);
            Bound(c, |params|) && (Eval(c, row, params, o) == Yes <==> Before(o, d, b, row))
  {
    var params := front + BoundaryParams(b) + back;
    assert params[|front|] == b.id;
    if b.value.Some? {
      assert params[|front| + 1] == b.value.value;
    } else {
      var n := |front|;
      assert |params| == n + 1 + |back|;
      assert Bound(IdBelow(n + 1), |params|) && Bound(IdAbove(n + 1), |params|);
      assert Eval(And(ColumnIsNull, IdBelow(n + 1)), row, params, o)
             == Both(Of(row.value.None?), Of(o.id(row.id, b.id)));
      assert Eval(And(ColumnIsNull, IdAbove(n + 1)), row, params, o)
             == Both(Of(row.value.None?), Of(o.id(b.id, row.id)));
    }
  }

  function Order(o: Orders, d: Direction): (Row, Row) -> bool { (x, y) => Before(o, d, x, y) }

  lemma OrderIsTotal(o: Orders, d: Direction)
    requires Total(o)
    ensures StrictTotal(Order(o, d))
  {
    var lt := Order(o, d);
    forall x ensures !lt(x, x) {}
    forall x, y, z | lt(x, y) && lt(y, z) ensures lt(x, z) {
    }
    forall x, y | x != y ensures lt(x, y) || lt(y, x) {}
  }

  // ---------------------------------------------------------------------
  // Pages
  // ---------------------------------------------------------------------

  datatype Page = Page(items: seq<Row>, next: Option<Row>)

  /** Does the WHERE clause keep the row? */
  predicate Keeps(o: Orders, d: Direction, b: Option<Row>, row: Row) {
    b.None? || Eval(BoundaryCondition(d, b.value, 0), row, BoundaryParams(b.value), o) == Yes
  }

  /** WHERE with the boundary condition, over a table in storage order. */
  function Where(o: Orders, d: Direction, b: Option<Row>, table: seq<Row>): (r: seq<Row>)
    ensures |r| <= |table|
  {
    if table == [] then []
    else (if Keeps(o, d, b, table[0]) then [table[0]] else []) + Where(o, d, b, table[1..])
  }

  /** LIMIT pageSize + 1: the extra row only tells whether a next page exists. */
  function Cut(sorted: seq<Row>, pageSize: nat): (p: Page)
    requires pageSize >= 1
    ensures |sorted| <= pageSize ==> p == Page(sorted, None)
    ensures |sorted| > pageSize ==> p == Page(sorted[..pageSize], Some(sorted[pageSize - 1]))
  {
    var result := if |sorted| > pageSize + 1 then sorted[..pageSize + 1] else sorted;
    if |result| > pageSize
    then
      assert result[..pageSize] == sorted[..pageSize];
      Page(result[..pageSize], Some(result[pageSize - 1]))
    else Page(result, None)
  }

  /** The rows a boundary leaves, in listing order. */
  function Remaining(o: Orders, d: Direction, b: Option<Row>, table: seq<Row>): seq<Row> {
    Sort(Order(o, d), Where(o, d, b, table))
  }

  function ListPage(o: Orders, d: Direction, b: Option<Row>, table: seq<Row>, pageSize: nat): Page
    requires pageSize >= 1
  {
    Cut(Remaining(o, d, b, table), pageSize)
  }

  lemma KeepsExactly(o: Orders, d: Direction, b: Option<Row>, row: Row)
    ensures Keeps(o, d, b, row) <==> b.None? || Before(o, d, b.value, row)
  {
    if b.Some? {
      BoundaryExact(o, d, b.value, row, [], []);
      assert [] + BoundaryParams(b.value) + [] == BoundaryParams(b.value);
    }
  }

  lemma {:induction false} WhereSelects(o: Orders, d: Direction, b: Option<Row>, table: seq<Row>)
    ensures forall x :: x in Where(o, d, b, table) <==> x in table && (b.None? || Before(o, d, b.value, x))
    ensures Distinct(table) ==> Distinct(Where(o, d, b, table))
    ensures b.None? ==> Where(o, d, b, table) == table
  {
    hide Keeps, Before;
    if table != [] {
      WhereSelects(o, d, b, table[1..]);
      KeepsExactly(o, d, b, table[0]);
      assert forall x :: x in table <==> x == table[0] || x in table[1..];
      if b.None? { assert Keeps(o, d, b, table[0]); }
      if Distinct(table) { assert table[0] !in table[1..]; }
    }
  }

  lemma RemainingSorted(o: Orders, d: Direction, b: Option<Row>, table: seq<Row>)
    requires Total(o) && Distinct(table)
    ensures StrictlySorted(Order(o, d), Remaining(o, d, b, table))
    ensures forall x :: x in Remaining(o, d, b, table) <==> x in table && (b.None? || Before(o, d, b.value, x))
  {
    WhereSelects(o, d, b, table);
    OrderIsTotal(o, d);
    DistinctComparable(Order(o, d), Where(o, d, b, table));
    SortSorts(Order(o, d), Where(o, d, b, table));
    SortPermutes(Order(o, d), Where(o, d, b, table));
    SameElements(Remaining(o, d, b, table), Where(o, d, b, table));
  }

  /** Continuing from a row of the listing leaves exactly the rows behind it. */
  lemma RemainingAfter(o: Orders, d: Direction, b: Option<Row>, table: seq<Row>, k: nat)
    requires Total(o) && Distinct(table) && k < |Remaining(o, d, b, table)|
    ensures Remaining(o, d, Some(Remaining(o, d, b, table)[k]), table) == Remaining(o, d, b, table)[k + 1..]
  {
    var lt := Order(o, d);
    var s := Remaining(o, d, b, table);
    var at := s[k];
    var t := Remaining(o, d, Some(at), table);
    RemainingSorted(o, d, b, table);
    RemainingSorted(o, d, Some(at), table);
    OrderIsTotal(o, d);
    assert at in s;
    forall x ensures x in t <==> x in s[k + 1..] {
      if x in s[k + 1..] {
        assert x in s && lt(at, x);
      }
      if x in t {
        assert lt(at, x);
        if b.Some? { Transitive(lt, b.value, at, x); }
      }
    }
    SortedUnique(lt, t, s[k + 1..]);
  }

  /** A page is a slice of what remains, and its cursor leaves the rest. */
  lemma NextPage(o: Orders, d: Direction, b: Option<Row>, table: seq<Row>, pageSize: nat)
    requires pageSize >= 1 && Total(o) && Distinct(table)
    ensures var page := ListPage(o, d, b, table, pageSize);
            var s := Remaining(o, d, b, table);
            && (page.next.None? ==> |s| <= pageSize && page.items == s)
            && (page.next.Some? ==> |s| > pageSize && page.items == s[..pageSize]
                                    && Remaining(o, d, page.next, table) == s[pageSize..])
  {
    hide Remaining, Cut;
    if |Remaining(o, d, b, table)| > pageSize {
      RemainingAfter(o, d, b, table, pageSize - 1);
    }
  }

  datatype Traversal = Traversal(rows: seq<Row>, pages: nat)

  /** Requests pages until one carries no cursor. */
  ghost function Traverse(o: Orders, d: Direction, b: Option<Row>, table: seq<Row>, pageSize: nat): Traversal
    requires pageSize >= 1 && Total(o) && Distinct(table)
    decreases |Remaining(o, d, b, table)|
  {
    var page := ListPage(o, d, b, table, pageSize);
    if page.next.None? then Traversal(page.items, 1)
    else
      NextPage(o, d, b, table, pageSize);
      var rest := Traverse(o, d, page.next, table, pageSize);
      Traversal(page.items + rest.rows, 1 + rest.pages)
  }

  /** From any boundary, the pages concatenate to exactly the rows behind it in listing order. */
  lemma {:induction false} TraverseExact(o: Orders, d: Direction, b: Option<Row>, table: seq<Row>, pageSize: nat)
    requires pageSize >= 1 && Total(o) && Distinct(table)
    ensures var t := Traverse(o, d, b, table, pageSize);
            var n := |Remaining(o, d, b, table)|;
            && t.rows == Remaining(o, d, b, table)
            && t.pages >= 1 && n <= t.pages * pageSize && (t.pages - 1) * pageSize <= n
            && (t.pages > 1 ==> (t.pages - 1) * pageSize < n)
    decreases |Remaining(o, d, b, table)|
  {
    hide Remaining, ListPage;
    NextPage(o, d, b, table, pageSize);
    var page := ListPage(o, d, b, table, pageSize);
    var s := Remaining(o, d, b, table);
    if page.next.Some? {
      TraverseExact(o, d, page.next, table, pageSize);
      assert s == s[..pageSize] + s[pageSize..];
      var rest := Traverse(o, d, page.next, table, pageSize);
      OnePageMore(rest.pages, pageSize);
    }
  }

  lemma OnePageMore(pages: nat, pageSize: nat)
    ensures (1 + pages) * pageSize == pages * pageSize + pageSize
    ensures pages >= 1 ==> pages * pageSize == (pages - 1) * pageSize + pageSize
  {}

  /** Paging through a fixed table lists every row once, in listing order, for every page size. */
  lemma PaginationIsExact(o: Orders, d: Direction, table: seq<Row>, pageSize: nat)
    requires pageSize >= 1 && Total(o) && Distinct(table)
    ensures var t := Traverse(o, d, None, table, pageSize);
            && t.rows == Sort(Order(o, d), table)
            && StrictlySorted(Order(o, d), t.rows)
            && multiset(t.rows) == multiset(table)
  {
    TraverseExact(o, d, None, table, pageSize);
    RemainingSorted(o, d, None, table);
    WhereSelects(o, d, None, table);
    assert Where(o, d, None, table) == table;
    assert Remaining(o, d, None, table) == Sort(Order(o, d), table);
    SortPermutes(Order(o, d), table);
  }
}
