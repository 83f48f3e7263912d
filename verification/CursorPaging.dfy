/** Paging through the inventory with signed tokens: the listing of src/server/services/cmdb-api.service.ts on top of
    the boundary and the codec of src/server/services/cmdb-cursor.ts. */
module CursorPaging {
  import opened Ordering
  import opened Wrappers
  import opened Keyset
  import opened CursorJson
  import opened CursorCodec

  datatype Reply = Reply(items: seq<Row>, next: Option<string>)

  /** A listing over several requests: request j finds the j-th table and reads the clock then. A row is visible when
      it was inserted before the snapshot that the first request took. */
  datatype Listing = Listing(orders: Orders, direction: Direction, tables: nat -> seq<Row>, visible: Row -> bool,
                             pageSize: nat, clock: nat -> int)

  /** Between the requests rows may come and go, but the visible ones stay as they are. */
  ghost predicate Listable(l: Listing) {
    && l.pageSize >= 1 && Total(l.orders)
    && (forall j :: Distinct(l.tables(j)))
    && (forall j, x :: l.visible(x) ==> (x in l.tables(j) <==> x in l.tables(0)))
  }

  function Seen(visible: Row -> bool, table: seq<Row>): seq<Row> {
    if table == [] then []
    else (if visible(table[0]) then [table[0]] else []) + Seen(visible, table[1..])
  }

  lemma {:induction false} SeenHolds(visible: Row -> bool, table: seq<Row>)
    ensures forall x :: x in Seen(visible, table) <==> x in table && visible(x)
    ensures Distinct(table) ==> Distinct(Seen(visible, table))
  {
    if table != [] {
      SeenHolds(visible, table[1..]);
      assert forall x :: x in table <==> x == table[0] || x in table[1..];
      if Distinct(table) { assert table[0] !in table[1..]; }
    }
  }

  function BoundaryRow(c: AssetCursor): Option<Row> {
    match c.boundary
    case None => None
    case Some(b) => Some(Row(b.value, b.id))
  }

  function AtRow(c: AssetCursor, row: Row): AssetCursor { c.(boundary := Some(Boundary(row.id, row.value))) }

  /** Request j: the state is encoded as the current cursor, and again at the last row when a page follows. */
  function ListAssets(rt: Runtime, secret: string, l: Listing, state: AssetCursor, j: nat): Result<Reply, string>
    requires l.pageSize >= 1
  {
    var page := ListPage(l.orders, l.direction, BoundaryRow(state), Seen(l.visible, l.tables(j)), l.pageSize);
    ReplyWith(rt, secret, state, page)
  }

  function ReplyWith(rt: Runtime, secret: string, state: AssetCursor, page: Page): Result<Reply, string> {
    match EncodeAssetCursor(rt, state, secret)
    case Err(e) => Err(e)
    case Ok(_) =>
      if page.next.None? then Ok(Reply(page.items, None))
      else match EncodeAssetCursor(rt, AtRow(state, page.next.value), secret)
        case Err(e) => Err(e)
        case Ok(token) => Ok(Reply(page.items, Some(token)))
  }

  /** The visible rows behind the boundary, in listing order. */
  function Rest(l: Listing, state: AssetCursor): seq<Row> {
    Remaining(l.orders, l.direction, BoundaryRow(state), Seen(l.visible, l.tables(0)))
  }

  /** Every request finds the same visible rows behind the boundary. */
  lemma SameRest(l: Listing, state: AssetCursor, j: nat)
    requires Listable(l)
    ensures Remaining(l.orders, l.direction, BoundaryRow(state), Seen(l.visible, l.tables(j))) == Rest(l, state)
  {
    var b, s, t := BoundaryRow(state), Seen(l.visible, l.tables(0)), Seen(l.visible, l.tables(j));
    SeenHolds(l.visible, l.tables(0));
    SeenHolds(l.visible, l.tables(j));
    RemainingSorted(l.orders, l.direction, b, s);
    RemainingSorted(l.orders, l.direction, b, t);
    OrderIsTotal(l.orders, l.direction);
    hide Remaining, Seen, Before, Distinct;
    SortedUnique(Order(l.orders, l.direction), Remaining(l.orders, l.direction, b, t), Rest(l, state));
  }

  lemma RestAfter(l: Listing, state: AssetCursor)
    requires Listable(l) && |Rest(l, state)| > l.pageSize
    ensures Rest(l, AtRow(state, Rest(l, state)[l.pageSize - 1])) == Rest(l, state)[l.pageSize..]
  {
    SeenHolds(l.visible, l.tables(0));
    hide Remaining, Seen;
    RemainingAfter(l.orders, l.direction, BoundaryRow(state), Seen(l.visible, l.tables(0)), l.pageSize - 1);
  }

  lemma EncodesValid(rt: Runtime, c: AssetCursor, secret: string)
    ensures EncodeAssetCursor(rt, c, secret).Ok? <==> Valid(rt, c)
  {
    hide Valid;
  }

  /** Request and hand-out succeed exactly when both cursors are valid; one is handed out when rows are left, at the
      last row of a full page. */
  ghost predicate Answers(rt: Runtime, secret: string, state: AssetCursor, s: seq<Row>, pageSize: nat,
                          r: Result<Reply, string>)
    requires pageSize >= 1
  {
    && (r.Ok? <==> Valid(rt, state) && (|s| <= pageSize || Valid(rt, AtRow(state, s[pageSize - 1]))))
    && (r.Ok? && |s| <= pageSize ==> r.value == Reply(s, None))
    && (r.Ok? && |s| > pageSize ==>
          && EncodeAssetCursor(rt, AtRow(state, s[pageSize - 1]), secret).Ok?
          && r.value == Reply(s[..pageSize],
                              Some(EncodeAssetCursor(rt, AtRow(state, s[pageSize - 1]), secret).value)))
  }

  lemma AnswersMore(rt: Runtime, secret: string, state: AssetCursor, s: seq<Row>, pageSize: nat,
                    r: Result<Reply, string>)
    requires pageSize >= 1 && Answers(rt, secret, state, s, pageSize, r) && r.Ok? && r.value.next.Some?
    ensures |s| > pageSize && r.value.items == s[..pageSize] && Valid(rt, AtRow(state, s[pageSize - 1]))
    ensures EncodeAssetCursor(rt, AtRow(state, s[pageSize - 1]), secret) == Ok(r.value.next.value)
    ensures AtRow(state, s[pageSize - 1]).scope == state.scope
    ensures AtRow(state, s[pageSize - 1]).expiresAt == state.expiresAt
  {
    hide Valid, EncodeAssetCursor;
  }

  lemma AnswersOk(rt: Runtime, secret: string, state: AssetCursor, s: seq<Row>, pageSize: nat,
                  r: Result<Reply, string>)
    requires pageSize >= 1 && Answers(rt, secret, state, s, pageSize, r) && |s| > pageSize
    ensures r.Ok? <==> Valid(rt, state) && Valid(rt, AtRow(state, s[pageSize - 1]))
    ensures r.Ok? ==> r.value.next.Some?
  {
    hide Valid, EncodeAssetCursor;
  }

  lemma ReplyWithCut(rt: Runtime, secret: string, state: AssetCursor, s: seq<Row>, pageSize: nat)
    requires pageSize >= 1
    ensures Answers(rt, secret, state, s, pageSize, ReplyWith(rt, secret, state, Cut(s, pageSize)))
  {
    EncodesValid(rt, state, secret);
    if |s| > pageSize { EncodesValid(rt, AtRow(state, s[pageSize - 1]), secret); }
    hide Valid, EncodeAssetCursor, AtRow;
  }

  lemma RequestReplies(rt: Runtime, secret: string, l: Listing, state: AssetCursor, j: nat)
    requires Listable(l)
    ensures l.pageSize >= 1
    ensures ListAssets(rt, secret, l, state, j) == ReplyWith(rt, secret, state, Cut(Rest(l, state), l.pageSize))
  {
    SameRest(l, state, j);
    hide ReplyWith, Cut, Remaining, Seen, BoundaryRow;
  }

  /** A request answers from the visible rows behind its boundary. */
  lemma ReplyIs(rt: Runtime, secret: string, l: Listing, state: AssetCursor, j: nat)
    requires Listable(l)
    ensures l.pageSize >= 1
    ensures Answers(rt, secret, state, Rest(l, state), l.pageSize, ListAssets(rt, secret, l, state, j))
  {
    RequestReplies(rt, secret, l, state, j);
    hide *;
    ReplyWithCut(rt, secret, state, Rest(l, state), l.pageSize);
  }

  /** Short enough to be read back. */
  predicate Fits(c: AssetCursor) { |JsonText(c)| <= JSON_LIMIT }

  lemma TokenReads(rt: Runtime, secret: string, c: AssetCursor, now: int)
    requires CursorCodec.Sound(rt) && Valid(rt, c)
    ensures EncodeAssetCursor(rt, c, secret).Ok?
    ensures var d := DecodeAssetCursor(rt, EncodeAssetCursor(rt, c, secret).value, c.scope, secret, now);
            (d.Ok? <==> Fits(c) && now < c.expiresAt) && (d.Ok? ==> d.value == c)
  {
    hide Valid, DecodeAssetCursor, EncodeAssetCursor, JsonText;
    EncodesValid(rt, c, secret);
    DecodeOfEncoded(rt, c, secret, c.scope, secret, now);
  }

  /** The token of request j leads request j + 1 to the state at the last row of the page, which leaves the rows behind
      the page, exactly while it fits and is in time. */
  lemma NextState(rt: Runtime, secret: string, l: Listing, state: AssetCursor, j: nat)
    requires CursorCodec.Sound(rt) && Listable(l)
    requires ListAssets(rt, secret, l, state, j).Ok? && ListAssets(rt, secret, l, state, j).value.next.Some?
    ensures |Rest(l, state)| > l.pageSize
    ensures ListAssets(rt, secret, l, state, j).value.items == Rest(l, state)[..l.pageSize]
    ensures var next := AtRow(state, Rest(l, state)[l.pageSize - 1]);
            var token := ListAssets(rt, secret, l, state, j).value.next.value;
            var d := DecodeAssetCursor(rt, token, state.scope, secret, l.clock(j + 1));
            && Rest(l, next) == Rest(l, state)[l.pageSize..]
            && Valid(rt, next)
            && (d.Ok? <==> Fits(next) && l.clock(j + 1) < state.expiresAt)
            && (d.Ok? ==> d.value == next)
  {
    hide *;
    ReplyIs(rt, secret, l, state, j);
    AnswersMore(rt, secret, state, Rest(l, state), l.pageSize, ListAssets(rt, secret, l, state, j));
    RestAfter(l, state);
    TokenReads(rt, secret, AtRow(state, Rest(l, state)[l.pageSize - 1]), l.clock(j + 1));
  }

  /** Follows the tokens from a state at request j to the last page; a refused cursor ends the traversal. */
  ghost function Follow(rt: Runtime, secret: string, l: Listing, state: AssetCursor, j: nat): Result<seq<Row>, string>
    requires CursorCodec.Sound(rt) && Listable(l)
    decreases |Rest(l, state)|
  {
    match ListAssets(rt, secret, l, state, j)
    case Err(e) => Err(e)
    case Ok(reply) =>
      if reply.next.None? then Ok(reply.items)
      else
        NextState(rt, secret, l, state, j);
        match DecodeAssetCursor(rt, reply.next.value, state.scope, secret, l.clock(j + 1))
        case Err(e) => Err(e)
        case Ok(next) =>
          match Follow(rt, secret, l, next, j + 1)
          case Err(e) => Err(e)
          case Ok(rest) => Ok(reply.items + rest)
  }

  /** The last rows of all pages but the last. */
  function PageEnds(s: seq<Row>, pageSize: nat): seq<Row>
    requires pageSize >= 1
  {
    if |s| <= pageSize then [] else [s[pageSize - 1]] + PageEnds(s[pageSize..], pageSize)
  }

  lemma {:induction false} PageEndAt(s: seq<Row>, pageSize: nat, i: nat)
    requires pageSize >= 1
    ensures i < |PageEnds(s, pageSize)| <==> (i + 1) * pageSize < |s|
    ensures i < |PageEnds(s, pageSize)| ==> PageEnds(s, pageSize)[i] == s[(i + 1) * pageSize - 1]
    decreases i
  {
    assert (i + 1) * pageSize == i * pageSize + pageSize;
    if |s| > pageSize && i > 0 {
      PageEndAt(s[pageSize..], pageSize, i - 1);
    }
  }

  predicate Carried(rt: Runtime, c: AssetCursor) { Valid(rt, c) && Fits(c) }

  ghost predicate AllCarried(rt: Runtime, state: AssetCursor, rows: seq<Row>) {
    forall row :: row in rows ==> Carried(rt, AtRow(state, row))
  }

  lemma CarriedCons(rt: Runtime, state: AssetCursor, head: Row, tail: seq<Row>)
    ensures AllCarried(rt, state, [head] + tail) <==>
            Carried(rt, AtRow(state, head)) && AllCarried(rt, AtRow(state, head), tail)
  {
    forall row ensures AtRow(AtRow(state, head), row) == AtRow(state, row) {}
    assert head in [head] + tail;
  }

  /** The n requests after request j come before the cursors expire. */
  ghost predicate InTime(l: Listing, state: AssetCursor, j: nat, n: nat) {
    forall i :: j < i <= j + n ==> l.clock(i) < state.expiresAt
  }

  /** The state is valid, the cursors at all page ends are carried, and each is used in time. */
  ghost predicate Leads(rt: Runtime, l: Listing, state: AssetCursor, j: nat)
    requires l.pageSize >= 1
  {
    var ends := PageEnds(Rest(l, state), l.pageSize);
    Valid(rt, state) && AllCarried(rt, state, ends) && InTime(l, state, j, |ends|)
  }

  lemma InTimeStep(l: Listing, state: AssetCursor, next: AssetCursor, j: nat, n: nat)
    requires next.expiresAt == state.expiresAt
    ensures InTime(l, state, j, n + 1) <==> l.clock(j + 1) < state.expiresAt && InTime(l, next, j + 1, n)
  {}

  lemma LeadsStep(rt: Runtime, l: Listing, state: AssetCursor, next: AssetCursor, j: nat)
    requires l.pageSize >= 1 && |Rest(l, state)| > l.pageSize
    requires next == AtRow(state, Rest(l, state)[l.pageSize - 1]) && Rest(l, next) == Rest(l, state)[l.pageSize..]
    ensures Leads(rt, l, state, j) <==>
            Valid(rt, state) && l.clock(j + 1) < state.expiresAt && Carried(rt, next) && Leads(rt, l, next, j + 1)
  {
    hide Valid, Rest, AllCarried, InTime;
    var s := Rest(l, state);
    var ends := PageEnds(s[l.pageSize..], l.pageSize);
    CarriedCons(rt, state, s[l.pageSize - 1], ends);
    InTimeStep(l, state, next, j, |ends|);
  }

  lemma FollowLast(rt: Runtime, secret: string, l: Listing, state: AssetCursor, j: nat)
    requires CursorCodec.Sound(rt) && Listable(l) && |Rest(l, state)| <= l.pageSize
    ensures var r := Follow(rt, secret, l, state, j);
            (r.Ok? <==> Valid(rt, state)) && (r.Ok? ==> r.value == Rest(l, state))
  {
    ReplyIs(rt, secret, l, state, j);
    hide Valid, Rest, ListAssets, DecodeAssetCursor, EncodeAssetCursor, CursorCodec.Sound, Listable, Fits;
  }

  lemma FollowMore(rt: Runtime, secret: string, l: Listing, state: AssetCursor, next: AssetCursor, j: nat)
    requires CursorCodec.Sound(rt) && Listable(l) && |Rest(l, state)| > l.pageSize
    requires next == AtRow(state, Rest(l, state)[l.pageSize - 1])
    ensures var r, rest := Follow(rt, secret, l, state, j), Follow(rt, secret, l, next, j + 1);
            && (r.Ok? <==> Valid(rt, state) && l.clock(j + 1) < state.expiresAt && Carried(rt, next) && rest.Ok?)
            && (r.Ok? ==> r.value == Rest(l, state)[..l.pageSize] + rest.value)
  {
    hide Valid, Rest, ListAssets, DecodeAssetCursor, CursorCodec.Sound, Listable, AtRow, Fits, Answers;
    ReplyIs(rt, secret, l, state, j);
    AnswersOk(rt, secret, state, Rest(l, state), l.pageSize, ListAssets(rt, secret, l, state, j));
    if ListAssets(rt, secret, l, state, j).Ok? { NextState(rt, secret, l, state, j); }
  }

  lemma Rejoined(s: seq<Row>, n: nat)
    requires n <= |s|
    ensures s[..n] + s[n..] == s
  {}

  /** From any state the tokens lead to the end if and only if the state is valid, and the cursors at all page ends are
      carried and each used in time; and then the pages are exactly the remaining visible rows. */
  lemma {:induction false} FollowExactly(rt: Runtime, secret: string, l: Listing, state: AssetCursor, j: nat)
    requires CursorCodec.Sound(rt) && Listable(l)
    ensures Follow(rt, secret, l, state, j).Ok? <==> Leads(rt, l, state, j)
    ensures Follow(rt, secret, l, state, j).Ok? ==> Follow(rt, secret, l, state, j).value == Rest(l, state)
    decreases |Rest(l, state)|
  {
    var s := Rest(l, state);
    assert l.pageSize >= 1;
    hide *;
    if |s| <= l.pageSize {
      FollowLast(rt, secret, l, state, j);
    } else {
      RestAfter(l, state);
      var next := AtRow(state, s[l.pageSize - 1]);
      LeadsStep(rt, l, state, next, j);
      FollowMore(rt, secret, l, state, next, j);
      FollowExactly(rt, secret, l, next, j + 1);
      Rejoined(s, l.pageSize);
    }
  }

  lemma RestOfStart(l: Listing, start: AssetCursor)
    requires start.boundary.None?
    ensures Rest(l, start) == Sort(Order(l.orders, l.direction), Seen(l.visible, l.tables(0)))
  {
    WhereSelects(l.orders, l.direction, None, Seen(l.visible, l.tables(0)));
    hide Where, Sort, Seen;
  }

  /** Paging through the signed tokens from a fresh cursor lists exactly the rows visible in its snapshot, in order,
      whatever is inserted in the meantime, if and only if the cursors at all page ends are valid, short enough and each
      used in time; otherwise it ends in an error. */
  lemma TokenPagingIsExact(rt: Runtime, secret: string, l: Listing, start: AssetCursor)
    requires CursorCodec.Sound(rt) && Listable(l) && Valid(rt, start) && start.boundary.None?
    ensures var sorted := Sort(Order(l.orders, l.direction), Seen(l.visible, l.tables(0)));
            var r, ends := Follow(rt, secret, l, start, 0), PageEnds(sorted, l.pageSize);
            && (r.Ok? <==> AllCarried(rt, start, ends) && InTime(l, start, 0, |ends|))
            && (r.Ok? ==> r.value == sorted)
  {
    FollowExactly(rt, secret, l, start, 0);
    RestOfStart(l, start);
    hide Follow, PageEnds, AllCarried, Sort, InTime, Rest, Valid, Listable, CursorCodec.Sound;
  }

  // ---------------------------------------------------------------------
  // Cursors of a listing fit
  // ---------------------------------------------------------------------

  /** Ids and sort columns have at most 64 and 255 characters, each of at most two code units. */
  predicate FromColumns(row: Row) {
    1 <= |row.id| <= 64 && (row.value.Some? ==> |row.value.value| <= 510)
  }

  /** A snapshot text that leaves room for any row; it grows with the transactions in progress. */
  const SNAPSHOT_ROOM := 1773

  lemma ListedCursorFits(rt: Runtime, start: AssetCursor, row: Row)
    requires Valid(rt, start) && |start.insertionSnapshot| <= SNAPSHOT_ROOM && FromColumns(row)
    ensures Carried(rt, AtRow(start, row))
  {
    hide SnapshotShape, JsonText;
    assert Valid(rt, AtRow(start, row));
    CursorLength(rt, AtRow(start, row));
  }

  /** Rows of the inventory always fit unless the snapshot text is very long: then paging is refused only for want of
      time. */
  lemma InventoryPagingIsExact(rt: Runtime, secret: string, l: Listing, start: AssetCursor)
    requires CursorCodec.Sound(rt) && Listable(l) && Valid(rt, start) && start.boundary.None?
    requires |start.insertionSnapshot| <= SNAPSHOT_ROOM && forall x :: x in l.tables(0) ==> FromColumns(x)
    ensures var sorted := Sort(Order(l.orders, l.direction), Seen(l.visible, l.tables(0)));
            var r := Follow(rt, secret, l, start, 0);
            && (r.Ok? <==> InTime(l, start, 0, |PageEnds(sorted, l.pageSize)|))
            && (r.Ok? ==> r.value == sorted)
  {
    TokenPagingIsExact(rt, secret, l, start);
    var seen := Seen(l.visible, l.tables(0));
    var sorted := Sort(Order(l.orders, l.direction), seen);
    SortPermutes(Order(l.orders, l.direction), seen);
    SameElements(sorted, seen);
    SeenHolds(l.visible, l.tables(0));
    hide Follow, PageEnds, Sort, InTime, Seen, Carried, FromColumns, Valid;
    forall row | row in PageEnds(sorted, l.pageSize) ensures Carried(rt, AtRow(start, row)) {
      PageEndsAreRows(sorted, l.pageSize, row);
      ListedCursorFits(rt, start, row);
    }
  }

  lemma {:induction false} PageEndsAreRows(s: seq<Row>, pageSize: nat, row: Row)
    requires pageSize >= 1 && row in PageEnds(s, pageSize)
    ensures row in s
  {
    if row in PageEnds(s[pageSize..], pageSize) && row != s[pageSize - 1] {
      PageEndsAreRows(s[pageSize..], pageSize, row);
    }
  }
}
