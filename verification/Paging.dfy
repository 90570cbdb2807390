/** Keyset paging over alerts: the listing with its cursor, and the CSV export that pages through it. */
module Paging {
  import opened Wrappers

  datatype Alert = Alert(id: int, createdAt: int, payload: string)

  /** What is fixed over all pages of one listing. */
  datatype Query = Query(table: seq<Alert>, keep: Alert -> bool, ascending: bool)

  const DEFAULT_PAGE := 50
  const MAX_PAGE := 500
  const EXPORT_PAGE := 500
  const MAX_EXPORT_ROWS := 10000

  predicate ValidQuery(q: Query) {
    && (forall i :: 0 <= i < |q.table| ==> q.table[i].id > 0)
    && (forall i, j :: 0 <= i < j < |q.table| ==> q.table[i].id != q.table[j].id)
  }

  // ----- the store's listing -----

  function PageLimit(limit: int): (n: nat)
    ensures 0 < n <= MAX_PAGE
  {
    if limit <= 0 || limit > MAX_PAGE then DEFAULT_PAGE else limit
  }

  predicate Older(a: Alert, b: Alert) {
    a.createdAt < b.createdAt || (a.createdAt == b.createdAt && a.id < b.id)
  }

  predicate Before(q: Query, a: Alert, b: Alert) {
    if q.ascending then Older(a, b) else Older(b, a)
  }

  function Insert(q: Query, rows: seq<Alert>, a: Alert): seq<Alert> {
    if rows == [] || Before(q, a, rows[0]) then [a] + rows else [rows[0]] + Insert(q, rows[1..], a)
  }

  /** The rows of the table that pass the filter, in order. */
  function Listing(q: Query, table: seq<Alert>): seq<Alert> {
    if table == [] then []
    else
      var rest := Listing(q, table[1..]);
      if q.keep(table[0]) then Insert(q, rest, table[0]) else rest
  }

  function Rows(q: Query): seq<Alert> {
    Listing(q, q.table)
  }

  function FindAlert(table: seq<Alert>, id: int): Option<Alert> {
    if table == [] then None else if table[0].id == id then Some(table[0]) else FindAlert(table[1..], id)
  }

  function RowsAfter(q: Query, rows: seq<Alert>, cursor: Alert): seq<Alert> {
    if rows == [] then []
    else (if Before(q, cursor, rows[0]) then [rows[0]] else []) + RowsAfter(q, rows[1..], cursor)
  }

  /** Everything a listing from `afterId` on has to show; 0 is the start. The cursor row is looked
      up in the whole table; it need not pass the filter, and an unknown one shows nothing. */
  function Remaining(q: Query, afterId: int): seq<Alert> {
    if afterId == 0 then Rows(q)
    else match FindAlert(q.table, afterId)
         case None => []
         case Some(cursor) => RowsAfter(q, Rows(q), cursor)
  }

  function Min(a: int, b: int): int {
    if a < b then a else b
  }

  function First(rows: seq<Alert>, n: nat): seq<Alert> {
    if n < |rows| then rows[..n] else rows
  }

  function ListAlerts(q: Query, afterId: int, limit: int): seq<Alert> {
    First(Remaining(q, afterId), PageLimit(limit))
  }

  // ----- the listing is in order, complete and without repetition -----

  predicate InOrder(q: Query, rows: seq<Alert>) {
    forall i, j :: 0 <= i < j < |rows| ==> Before(q, rows[i], rows[j])
  }

  lemma {:induction false} InsertKeepsOrder(q: Query, rows: seq<Alert>, a: Alert)
    requires InOrder(q, rows) && forall i :: 0 <= i < |rows| ==> rows[i].id != a.id
    ensures InOrder(q, Insert(q, rows, a))
    ensures forall x :: x in Insert(q, rows, a) <==> x == a || x in rows
  {
    if rows == [] || Before(q, a, rows[0]) {
    } else {
      InsertKeepsOrder(q, rows[1..], a);
      var r := Insert(q, rows[1..], a);
      assert rows == [rows[0]] + rows[1..];
      forall j | 0 <= j < |r| ensures Before(q, rows[0], r[j]) {
        assert r[j] in r;
        if r[j] != a {
          var k :| 0 <= k < |rows[1..]| && rows[1..][k] == r[j];
          assert Before(q, rows[0], rows[k + 1]);
        }
      }
    }
  }

  predicate DistinctIds(table: seq<Alert>) {
    forall i, j :: 0 <= i < j < |table| ==> table[i].id != table[j].id
  }

  lemma {:induction false} ListingSorts(q: Query, table: seq<Alert>)
    requires DistinctIds(table)
    ensures InOrder(q, Listing(q, table))
    ensures forall x :: x in Listing(q, table) <==> x in table && q.keep(x)
  {
    if table != [] {
      ListingSorts(q, table[1..]);
      assert table == [table[0]] + table[1..];
      if q.keep(table[0]) {
        var rest := Listing(q, table[1..]);
        forall i | 0 <= i < |rest| ensures rest[i].id != table[0].id {
          assert rest[i] in table[1..];
        }
        InsertKeepsOrder(q, rest, table[0]);
      }
    }
  }

  lemma {:induction false} FindOwn(table: seq<Alert>, a: Alert)
    requires DistinctIds(table) && a in table
    ensures FindAlert(table, a.id) == Some(a)
  {
    if table[0] != a {
      assert a in table[1..];
      FindOwn(table[1..], a);
    }
  }

  // ----- a cursor splits the listing -----

  lemma {:induction false} AllAfter(q: Query, rows: seq<Alert>, cursor: Alert)
    requires forall i :: 0 <= i < |rows| ==> Before(q, cursor, rows[i])
    ensures RowsAfter(q, rows, cursor) == rows
  {
    if rows != [] { AllAfter(q, rows[1..], cursor); }
  }

  lemma {:induction false} AfterFrom(q: Query, rows: seq<Alert>, cursor: Alert, k: nat)
    requires k <= |rows|
    requires forall i :: 0 <= i < k ==> !Before(q, cursor, rows[i])
    requires forall i :: k <= i < |rows| ==> Before(q, cursor, rows[i])
    ensures RowsAfter(q, rows, cursor) == rows[k..]
  {
    if k == 0 {
      AllAfter(q, rows, cursor);
    } else {
      AfterFrom(q, rows[1..], cursor, k - 1);
    }
  }

  /** A row of the listing as cursor leaves exactly the rows behind it. */
  lemma AfterOwnRow(q: Query, rows: seq<Alert>, k: nat)
    requires InOrder(q, rows) && 0 < k <= |rows|
    ensures RowsAfter(q, rows, rows[k - 1]) == rows[k..]
  {
    AfterFrom(q, rows, rows[k - 1], k);
  }

  /** Any cursor leaves a tail of the listing. */
  lemma {:induction false} AfterIsTail(q: Query, rows: seq<Alert>, cursor: Alert) returns (k: nat)
    requires InOrder(q, rows)
    ensures k <= |rows| && RowsAfter(q, rows, cursor) == rows[k..]
  {
    if rows == [] {
      k := 0;
    } else if Before(q, cursor, rows[0]) {
      k := 0;
      AllAfter(q, rows, cursor);
    } else {
      k := AfterIsTail(q, rows[1..], cursor);
      k := k + 1;
    }
  }

  /** After `n` of the remaining rows, the cursor on the last of them leaves the others. */
  lemma NextCursor(q: Query, afterId: int, n: nat)
    requires ValidQuery(q) && 0 < n <= |Remaining(q, afterId)|
    ensures var last := Remaining(q, afterId)[n - 1]; last.id != 0 && Remaining(q, last.id) == Remaining(q, afterId)[n..]
  {
    ListingSorts(q, q.table);
    var rows, tail := Rows(q), Remaining(q, afterId);
    var k := TailStart(q, afterId);
    var last := tail[n - 1];
    assert last == rows[k + n - 1] && last in rows;
    FindOwn(q.table, last);
    AfterOwnRow(q, rows, k + n);
    assert rows[k + n..] == tail[n..];
  }

  lemma TailStart(q: Query, afterId: int) returns (k: nat)
    requires ValidQuery(q) && Remaining(q, afterId) != []
    ensures k <= |Rows(q)| && Remaining(q, afterId) == Rows(q)[k..]
  {
    ListingSorts(q, q.table);
    if afterId == 0 {
      k := 0;
    } else {
      k := AfterIsTail(q, Rows(q), FindAlert(q.table, afterId).value);
    }
  }

  // ----- the CSV export -----

  function ExportCount(limit: int): nat {
    if limit <= 0 || limit > MAX_EXPORT_ROWS then MAX_EXPORT_ROWS else limit
  }

  lemma MoreWritten(written: seq<Alert>, rest: seq<Alert>, n: nat)
    requires n <= |rest|
    ensures written + rest == (written + rest[..n]) + rest[n..]
  {
  }

  lemma LimitReached(written: seq<Alert>, rest: seq<Alert>)
    ensures First(written + rest, |written|) == written
  {
  }

  /** One page of the export: the rows listed and what is left to list. */
  lemma ExportPage(q: Query, after: int, limit: int)
    requires ValidQuery(q) && 0 < limit <= EXPORT_PAGE
    ensures
      var page, rest := ListAlerts(q, after, limit), Remaining(q, after);
      if |page| < limit then page == rest
      else |page| == limit <= |rest| && page == rest[..limit] && Remaining(q, page[limit - 1].id) == rest[limit..]
  {
    if limit <= |Remaining(q, after)| {
      NextCursor(q, after, limit);
    }
  }

  /** The export writes the first rows the listing has to show, up to the limit: no row is skipped,
      none repeated, whatever the pages. */
  method ExportAlertsCsv(q: Query, afterId: int, limit: int) returns (written: seq<Alert>)
    requires ValidQuery(q)
    ensures written == First(Remaining(q, afterId), ExportCount(limit))
    ensures written <= Remaining(q, afterId)
    ensures written == Remaining(q, afterId) || |written| == if 0 < limit <= 10_000 then limit else 10_000
    ensures |written| <= if 0 < limit <= 10_000 then limit else 10_000
  {
    var remaining := limit;
    if remaining <= 0 || remaining > MAX_EXPORT_ROWS {
      remaining := MAX_EXPORT_ROWS;
    }
    written := [];
    var after := afterId;
    ghost var rest := Remaining(q, afterId);
    while remaining > 0
      invariant 0 <= remaining && |written| + remaining == ExportCount(limit)
      invariant rest == Remaining(q, after) && written + rest == Remaining(q, afterId)
      decreases remaining
    {
      var pageLimit := remaining;
      if pageLimit > EXPORT_PAGE {
        pageLimit := EXPORT_PAGE;
      }
      var page := ListAlerts(q, after, pageLimit);
      ExportPage(q, after, pageLimit);
      if |page| == pageLimit {
        MoreWritten(written, rest, pageLimit);
      }
      written := written + page;
      if |page| < pageLimit {
        return;
      }
      rest := rest[pageLimit..];
      remaining := remaining - |page|;
      after := page[|page| - 1].id;
    }
    LimitReached(written, rest);
  }

  // ----- following next_cursor -----

  /** GET /alerts: one page, and the cursor of the next when the page is full; 0 for none. */
  method ListAlertsPage(q: Query, afterId: int, limit: int) returns (alerts: seq<Alert>, next: int)
    requires ValidQuery(q)
    ensures alerts == ListAlerts(q, afterId, limit)
    ensures |alerts| <= if 0 < limit <= 500 then limit else 50
    ensures next != 0 <==> |alerts| == if 0 < limit <= 500 then limit else 50
    ensures next == 0 ==> alerts == Remaining(q, afterId)
    ensures next != 0 ==> alerts != [] && alerts + Remaining(q, next) == Remaining(q, afterId)
  {
    alerts := ListAlerts(q, afterId, limit);
    var effectiveLimit := limit;
    if effectiveLimit <= 0 || effectiveLimit > MAX_PAGE {
      effectiveLimit := DEFAULT_PAGE;
    }
    next := 0;
    if |alerts| == effectiveLimit {
      NextCursor(q, afterId, |alerts|);
      next := alerts[|alerts| - 1].id;
    }
  }

  lemma Appended(seen: seq<Alert>, page: seq<Alert>, rest: seq<Alert>)
    ensures seen + (page + rest) == seen + page + rest
  {
  }

  /** A client that follows next_cursor, with whatever limit it likes on each request, sees every
      row of the listing once, in order. */
  method FollowCursor(q: Query, limits: nat -> int) returns (seen: seq<Alert>)
    requires ValidQuery(q)
    ensures seen == Rows(q)
  {
    ghost var all, rest := Rows(q), Rows(q);
    seen := [];
    var after, more, requests := 0, true, 0;
    while more
      invariant seen + rest == all
      invariant if more then rest == Remaining(q, after) else rest == []
      decreases more, |rest|
    {
      var page, next := ListAlertsPage(q, after, limits(requests));
      rest := if next == 0 then [] else Remaining(q, next);
      Appended(seen, page, rest);
      seen := seen + page;
      after, more, requests := next, next != 0, requests + 1;
    }
  }

  /** `b` comes behind `a`: a later time or the same time and a higher id, the other way round in the
      descending listing. */
  predicate Behind(ascending: bool, a: Alert, b: Alert) {
    if ascending then a.createdAt < b.createdAt || (a.createdAt == b.createdAt && a.id < b.id)
    else a.createdAt > b.createdAt || (a.createdAt == b.createdAt && a.id > b.id)
  }

  /** The listing shows each matching alert once, in the order of time and id. */
  lemma ListingIsComplete(q: Query)
    requires ValidQuery(q)
    ensures forall a :: a in Rows(q) <==> a in q.table && q.keep(a)
    ensures forall i, j :: 0 <= i < j < |Rows(q)| ==> Behind(q.ascending, Rows(q)[i], Rows(q)[j]) && Rows(q)[i] != Rows(q)[j]
  {
    ListingSorts(q, q.table);
  }

  lemma {:induction false} FindByPosition(table: seq<Alert>, id: int)
    ensures match FindAlert(table, id)
            case None => forall a :: a in table ==> a.id != id
            case Some(a) => a in table && a.id == id
  {
    if table != [] { FindByPosition(table[1..], id); }
  }

  lemma {:induction false} AfterMembers(q: Query, rows: seq<Alert>, cursor: Alert)
    ensures forall a :: a in RowsAfter(q, rows, cursor) <==> a in rows && Behind(q.ascending, cursor, a)
  {
    if rows != [] { AfterMembers(q, rows[1..], cursor); }
  }

  /** From a cursor on, the listing shows the matching alerts behind the cursor's row and no others,
      in order; from a cursor that names no row it shows none. */
  lemma RemainingIsComplete(q: Query, afterId: int)
    requires ValidQuery(q) && afterId != 0
    ensures forall a :: a in Remaining(q, afterId) <==>
              (a in q.table && q.keep(a) && exists c :: c in q.table && c.id == afterId && Behind(q.ascending, c, a))
    ensures forall i, j :: 0 <= i < j < |Remaining(q, afterId)| ==>
              Behind(q.ascending, Remaining(q, afterId)[i], Remaining(q, afterId)[j])
  {
    ListingIsComplete(q);
    FindByPosition(q.table, afterId);
    if FindAlert(q.table, afterId).Some? {
      var cursor := FindAlert(q.table, afterId).value;
      AfterMembers(q, Rows(q), cursor);
      ListingSorts(q, q.table);
      var k := AfterIsTail(q, Rows(q), cursor);
      forall c | c in q.table && c.id == afterId ensures c == cursor { FindOwn(q.table, c); }
    }
  }
}
