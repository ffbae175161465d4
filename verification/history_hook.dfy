/** The `useHistory` hook: the history modal's open flag, the rows on show
    and the pager's page numbers. */
module HistoryHook {
  import opened Common
  import opened Db
  import opened Client
  import HistoryRoute

  datatype HistoryState = HistoryState(isOpen: bool, rows: seq<Row>, currentPage: int, totalPages: int)

  const Initial: HistoryState := HistoryState(false, [], 1, 1)

  /** The page size the hook always asks for. */
  const PageSize: int := 10

  const LoadFailed: string := "Failed to load history. Please try again."

  /** The query `fetchHistory` sends, if any: none without a user session id. */
  function HistoryRequestOf(page: int, userSessionId: Option<string>): (req: Option<HistoryRoute.HistoryRequest>)
    ensures req.Some? <==> Present(userSessionId)
    ensures req.Some? ==> req.value == HistoryRoute.HistoryRequest(Some(page), Some(PageSize), userSessionId)
  {
    if Present(userSessionId) then Some(HistoryRoute.HistoryRequest(Some(page), Some(PageSize), userSessionId)) else None
  }

  /** `fetchHistory(page, userSessionId)`; `reply` answers the request above. */
  function FetchHistory(st: HistoryState, page: int, userSessionId: Option<string>,
                        reply: Reply<HistoryRoute.HistoryPage>): (s: (HistoryState, Option<Toast>))
    ensures !Present(userSessionId) ==> s == (st, None)
    ensures Present(userSessionId) && Succeeded(reply) ==>
              var p := reply.response.body;
              s == (st.(rows := p.submissions, totalPages := p.pagination.totalPages, currentPage := p.pagination.currentPage), None)
    ensures Present(userSessionId) && !Succeeded(reply) ==> s == (st, Some(Toast(LoadFailed, true)))
  {
    if !Present(userSessionId) then (st, None)
    else if Succeeded(reply) then
      var p := reply.response.body;
      (st.(rows := p.submissions, totalPages := p.pagination.totalPages, currentPage := p.pagination.currentPage), None)
    else (st, Some(Toast(LoadFailed, true)))
  }

  /** `openHistoryModal`: open, then fetch page 1. */
  function OpenHistory(st: HistoryState, userSessionId: Option<string>, reply: Reply<HistoryRoute.HistoryPage>): (s: (HistoryState, Option<Toast>))
    ensures s.0.isOpen
    ensures !Present(userSessionId) ==> s == (st.(isOpen := true), None)
    ensures Present(userSessionId) && Succeeded(reply) ==>
              var p := reply.response.body;
              s == (HistoryState(true, p.submissions, p.pagination.currentPage, p.pagination.totalPages), None)
    ensures Present(userSessionId) && !Succeeded(reply) ==> s == (st.(isOpen := true), Some(Toast(LoadFailed, true)))
  {
    FetchHistory(st.(isOpen := true), 1, userSessionId, reply)
  }

  /** `closeHistoryModal`: the page count is left as it was. */
  function CloseHistory(st: HistoryState): (st': HistoryState)
    ensures !st'.isOpen && st'.rows == [] && st'.currentPage == 1
    ensures st'.totalPages == st.totalPages
  {
    st.(isOpen := false, rows := [], currentPage := 1)
  }

  /** Closing after opening gives the closed state with the last page count. */
  lemma OpenThenClose(st: HistoryState, userSessionId: Option<string>, reply: Reply<HistoryRoute.HistoryPage>)
    ensures CloseHistory(OpenHistory(st, userSessionId, reply).0) == Initial.(totalPages := OpenHistory(st, userSessionId, reply).0.totalPages)
  {
  }

  /** The page the hook shows after opening is the first page the server
      computes for the whole log, whatever user session asks. */
  lemma OpenShowsFirstPage(store: Store, st: HistoryState, userSessionId: Option<string>)
    requires Present(userSessionId)
    ensures var reply := Answered(HistoryRoute.History(store, HistoryRequestOf(1, userSessionId).value, HistoryRoute.NoFaults));
            var s := OpenHistory(st, userSessionId, reply).0;
            && s.isOpen && s.currentPage == 1
            && s.rows == HistoryRoute.PageRows(store, 1, PageSize)
  {
    var req := HistoryRequestOf(1, userSessionId).value;
    assert HistoryRoute.ValidPaging(1, PageSize);
    HistoryRoute.HistoryIgnoresUser(store, req, HistoryRoute.NoFaults, None);
  }

  // ---- The history modal's pager ----

  /** The pager as the modal wires it: `onFetchHistory(page)` reaches
      `fetchHistory` with no user session id. */
  function PagerAsWritten(st: HistoryState, page: int, reply: Reply<HistoryRoute.HistoryPage>): (HistoryState, Option<Toast>) {
    FetchHistory(st, page, None, reply)
  }

  /** Whatever page is asked for and whatever a server would answer, the
      pager as written changes nothing: the modal never leaves its first page. */
  lemma PagerNeverMoves(st: HistoryState, page: int, reply: Reply<HistoryRoute.HistoryPage>)
    ensures PagerAsWritten(st, page, reply) == (st, None)
  {
  }

  /** The pager as evidently intended: it passes the current user session id along. */
  function Pager(st: HistoryState, page: int, currentSessionId: Option<string>, reply: Reply<HistoryRoute.HistoryPage>): (HistoryState, Option<Toast>) {
    FetchHistory(st, page, currentSessionId, reply)
  }

  /** With a session, the corrected pager shows exactly the server's rows
      for the requested page. */
  lemma PagerShowsRequestedPage(store: Store, st: HistoryState, page: int, currentSessionId: Option<string>)
    requires Present(currentSessionId) && page >= 1
    ensures var reply := Answered(HistoryRoute.History(store, HistoryRequestOf(page, currentSessionId).value, HistoryRoute.NoFaults));
            var s := Pager(st, page, currentSessionId, reply).0;
            s.currentPage == page && s.rows == HistoryRoute.PageRows(store, page, PageSize)
  {
    var req := HistoryRequestOf(page, currentSessionId).value;
    assert HistoryRoute.ValidPaging(page, PageSize);
    HistoryRoute.HistoryIgnoresUser(store, req, HistoryRoute.NoFaults, None);
  }
}
