/** `GET /api/math-problem/history`: one page of all submissions, newest
    first, joined with their problems, with the pagination metadata. */
module HistoryRoute {
  import opened Common
  import opened Db

  /** The query string after `parseInt`: `None` for an absent parameter.
      `user_session_id` is accepted but never read. */
  datatype HistoryRequest = HistoryRequest(page: Option<int>, limit: Option<int>, userSessionId: Option<string>)

  /** Store failures: the count query errs, returns no count, or the row query errs. */
  datatype HistoryFaults = HistoryFaults(countFails: bool, countMissing: bool, fetchFails: bool)

  const NoFaults: HistoryFaults := HistoryFaults(false, false, false)

  datatype Pagination = Pagination(currentPage: int, totalPages: int, totalItems: int, hasNext: bool, hasPrev: bool)

  datatype HistoryPage = HistoryPage(submissions: seq<Row>, pagination: Pagination)

  const DefaultPage: int := 1
  const DefaultLimit: int := 10
  const MaxLimit: int := 50

  function PageOf(req: HistoryRequest): int {
    if req.page.Some? then req.page.value else DefaultPage
  }

  function LimitOf(req: HistoryRequest): int {
    if req.limit.Some? then req.limit.value else DefaultLimit
  }

  predicate ValidPaging(page: int, limit: int) {
    page >= 1 && 1 <= limit <= MaxLimit
  }

  /** `Math.ceil(n / d)`: the least number of pages of `d` rows holding `n` rows. */
  function CeilDiv(n: nat, d: int): (q: nat)
    requires d >= 1
    ensures (q - 1) * d < n <= q * d
  {
    (n + d - 1) / d
  }

  /** Index of the first row of `page`: `(page - 1) * limit`. */
  function Offset(page: int, limit: int): (k: nat)
    requires ValidPaging(page, limit)
    ensures k == (page - 1) * limit
  {
    var p: nat := page - 1;
    var l: nat := limit;
    p * l
  }

  /** `.range(offset, offset + limit - 1)`: at most `limit` rows starting at
      `offset`; empty past the end. */
  function Window(rows: seq<Row>, offset: nat, limit: nat): (w: seq<Row>)
    ensures |w| == Max(0, Min(limit, |rows| - offset))
    ensures forall i :: 0 <= i < |w| ==> w[i] == rows[offset + i]
  {
    if offset >= |rows| then [] else rows[offset..Min(offset + limit, |rows|)]
  }

  function History(store: Store, req: HistoryRequest, faults: HistoryFaults): (r: Response<HistoryPage>)
    ensures !ValidPaging(PageOf(req), LimitOf(req)) ==> r == Error(BadRequest, "Invalid pagination parameters")
    ensures ValidPaging(PageOf(req), LimitOf(req)) && (faults.countFails || faults.fetchFails) ==>
              r == Error(ServerError, "Failed to fetch history")
    ensures r.Ok? <==> ValidPaging(PageOf(req), LimitOf(req)) && !faults.countFails && !faults.fetchFails
    ensures r.Ok? ==>
              var page, limit := PageOf(req), LimitOf(req);
              var p := r.body.pagination;
              var count := if faults.countMissing then 0 else |store.submissions|;
              var rows := NewestFirst(store.problems, store.submissions);
              var offset := Offset(page, limit);
              && p.currentPage == page
              && p.totalItems == count
              && (p.totalPages - 1) * limit < count <= p.totalPages * limit
              && (p.hasNext <==> page < p.totalPages)
              && (p.hasPrev <==> page > 1)
              && |r.body.submissions| == Max(0, Min(limit, |rows| - offset))
              && (forall i :: 0 <= i < |r.body.submissions| ==> r.body.submissions[i] == rows[offset + i])
  {
    var page, limit := PageOf(req), LimitOf(req);
    if !ValidPaging(page, limit) then Error(BadRequest, "Invalid pagination parameters")
    else if faults.countFails then Error(ServerError, "Failed to fetch history")
    else
      var offset := Offset(page, limit);
      var count := if faults.countMissing then 0 else |store.submissions|;
      if faults.fetchFails then Error(ServerError, "Failed to fetch history")
      else
        var rows := Window(NewestFirst(store.problems, store.submissions), offset, limit);
        var totalPages := CeilDiv(count, limit);
        Ok(HistoryPage(rows, Pagination(page, totalPages, count, page < totalPages, page > 1)))
  }

  /** The `user_session_id` parameter changes nothing: history is not filtered by user. */
  lemma HistoryIgnoresUser(store: Store, req: HistoryRequest, faults: HistoryFaults, other: Option<string>)
    ensures History(store, req, faults) == History(store, req.(userSessionId := other), faults)
  {
  }

  /** Absent `page` and `limit` behave as `page=1` and `limit=10`. */
  lemma HistoryDefaults(store: Store, user: Option<string>, faults: HistoryFaults)
    ensures History(store, HistoryRequest(None, None, user), faults)
         == History(store, HistoryRequest(Some(1), Some(10), user), faults)
  {
  }

  /** The rows of page `page` when nothing fails. */
  function PageRows(store: Store, page: int, limit: int): (rows: seq<Row>)
    requires ValidPaging(page, limit)
    ensures |rows| <= limit
  {
    History(store, HistoryRequest(Some(page), Some(limit), None), NoFaults).body.submissions
  }

  /** A page is the window of the joined rows at its offset. */
  lemma PageRowsWindow(store: Store, page: int, limit: int)
    requires ValidPaging(page, limit)
    ensures PageRows(store, page, limit) == Window(NewestFirst(store.problems, store.submissions), Offset(page, limit), limit)
  {
  }

  /** Pages `1..k` one after another. */
  function PagesUpTo(store: Store, limit: int, k: nat): seq<Row>
    requires 1 <= limit <= MaxLimit
  {
    if k == 0 then [] else PagesUpTo(store, limit, k - 1) + PageRows(store, k, limit)
  }

  /** `k * limit` by repeated addition, so that the tiling proof stays linear. */
  function Steps(k: nat, limit: nat): (n: nat)
    ensures n == k * limit
  {
    if k == 0 then 0 else Steps(k - 1, limit) + limit
  }

  /** Windows `1..k` of `rows`, one after another. */
  function Windows(rows: seq<Row>, limit: nat, k: nat): seq<Row> {
    if k == 0 then [] else Windows(rows, limit, k - 1) + Window(rows, Steps(k - 1, limit), limit)
  }

  /** Consecutive windows tile the rows: windows `1..k` are the first `k * limit` rows. */
  lemma {:induction false} WindowsPrefix(rows: seq<Row>, limit: nat, k: nat)
    ensures Windows(rows, limit, k) == rows[..Min(Steps(k, limit), |rows|)]
  {
    if k > 0 {
      WindowsPrefix(rows, limit, k - 1);
      WindowExtends(rows, Steps(k - 1, limit), limit);
    }
  }

  /** The history pages are the windows of the joined rows. */
  lemma {:induction false} PagesAreWindows(store: Store, limit: int, k: nat)
    requires 1 <= limit <= MaxLimit
    ensures PagesUpTo(store, limit, k) == Windows(NewestFirst(store.problems, store.submissions), limit, k)
  {
    if k > 0 {
      PagesAreWindows(store, limit, k - 1);
      PageRowsWindow(store, k, limit);
      assert Offset(k, limit) == Steps(k - 1, limit);
    }
  }

  /** Pages `1..k` together are the rows before page `k + 1`, in order. */
  lemma PagesPrefix(store: Store, limit: int, k: nat)
    requires 1 <= limit <= MaxLimit
    ensures var rows := NewestFirst(store.problems, store.submissions);
            PagesUpTo(store, limit, k) == rows[..Min(Offset(k + 1, limit), |rows|)]
  {
    PagesAreWindows(store, limit, k);
    WindowsPrefix(NewestFirst(store.problems, store.submissions), limit, k);
  }

  /** The rows before a window, followed by the window, are the rows before its end. */
  lemma WindowExtends(rows: seq<Row>, offset: nat, limit: nat)
    ensures rows[..Min(offset, |rows|)] + Window(rows, offset, limit) == rows[..Min(offset + limit, |rows|)]
  {
    if offset < |rows| {
      assert Window(rows, offset, limit) == rows[offset..Min(offset + limit, |rows|)];
    }
  }

  /** Pages `1..totalPages` are disjoint windows that together list every
      submission of a joined store exactly once, newest first. */
  lemma PagesCoverAll(store: Store, limit: int)
    requires 1 <= limit <= MaxLimit
    requires Joined(store)
    ensures var n := |store.submissions|;
            var all := PagesUpTo(store, limit, CeilDiv(n, limit));
            && |all| == n
            && forall i :: 0 <= i < n ==> all[i].position == n - 1 - i
  {
    var n := |store.submissions|;
    var rows := NewestFirst(store.problems, store.submissions);
    NewestFirstComplete(store.problems, store.submissions);
    var q := CeilDiv(n, limit);
    PagesPrefix(store, limit, q);
    assert Offset(q + 1, limit) == q * limit;
    assert rows[..Min(Offset(q + 1, limit), |rows|)] == rows;
  }

  lemma MulMonotone(a: nat, b: nat, c: nat)
    requires a <= b
    ensures a * c <= b * c
  {
  }

  /** A page past the last one is an empty list, not an error. */
  lemma PageBeyondEnd(store: Store, page: int, limit: int)
    requires ValidPaging(page, limit)
    requires page > CeilDiv(|store.submissions|, limit)
    ensures var r := History(store, HistoryRequest(Some(page), Some(limit), None), NoFaults);
            r.Ok? && r.body.submissions == [] && !r.body.pagination.hasNext
  {
    var n := |store.submissions|;
    var q := CeilDiv(n, limit);
    MulMonotone(q, page - 1, limit);
    assert Offset(page, limit) >= n;
  }

  /** Twenty-five submissions in pages of ten: pages of 10, 10 and 5 rows,
      then an empty fourth page. */
  lemma TwentyFiveInPagesOfTen(store: Store)
    requires Joined(store) && |store.submissions| == 25
    ensures var r1 := History(store, HistoryRequest(Some(1), Some(10), None), NoFaults);
            r1.Ok? && |r1.body.submissions| == 10 && r1.body.pagination.totalPages == 3
            && r1.body.pagination.hasNext && !r1.body.pagination.hasPrev
    ensures var r2 := History(store, HistoryRequest(Some(2), Some(10), None), NoFaults);
            r2.Ok? && |r2.body.submissions| == 10 && r2.body.pagination.hasNext && r2.body.pagination.hasPrev
    ensures var r3 := History(store, HistoryRequest(Some(3), Some(10), None), NoFaults);
            r3.Ok? && |r3.body.submissions| == 5 && !r3.body.pagination.hasNext && r3.body.pagination.hasPrev
    ensures var r4 := History(store, HistoryRequest(Some(4), Some(10), None), NoFaults);
            r4.Ok? && |r4.body.submissions| == 0
  {
    NewestFirstComplete(store.problems, store.submissions);
    assert CeilDiv(25, 10) == 3;
  }
}
