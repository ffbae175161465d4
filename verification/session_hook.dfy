/** The `useSession` hook: the current user session, its counters as last
    read, the join-box text, and the saved session id in `localStorage`. */
module SessionHook {
  import opened Common
  import opened Db
  import opened Client
  import CreateRoute
  import JoinRoute
  import DataRoute

  /** The `sessionData` record. A joined session's reply has no hint fields,
      so they are `None` (`undefined`) until the next refresh. */
  datatype Counters = Counters(correctCount: int, totalCount: int, streak: int, hintCredits: Option<int>, hintCap: Option<int>)

  /** The hook's fields; the in-flight flags are false once an operation
      has finished and are not kept. */
  datatype SessionState = SessionState(currentSessionId: Option<string>, sessionData: Option<Counters>, joinSessionId: string)

  const Initial: SessionState := SessionState(None, None, "")

  /** The counters a `GET /api/session/data` answer carries. */
  function CountersOf(d: DataRoute.SessionData): (c: Counters)
    ensures c.correctCount == d.session.correctCount && c.totalCount == d.session.totalCount && c.streak == d.session.streak
    ensures c.hintCredits == Some(d.session.hintCredits) && c.hintCap == Some(d.session.hintCap)
  {
    Counters(d.session.correctCount, d.session.totalCount, d.session.streak, Some(d.session.hintCredits), Some(d.session.hintCap))
  }

  /** `refreshSessionData`: only an ok answer changes anything, and only the counters. */
  function RefreshSessionData(st: SessionState, reply: Reply<DataRoute.SessionData>): (st': SessionState)
    ensures !Present(st.currentSessionId) || !Succeeded(reply) ==> st' == st
    ensures Present(st.currentSessionId) && Succeeded(reply) ==>
              st' == st.(sessionData := Some(CountersOf(reply.response.body)))
  {
    if !Present(st.currentSessionId) then st
    else if Succeeded(reply) then st.(sessionData := Some(CountersOf(reply.response.body)))
    else st
  }

  /** Refreshing with the same answer twice is refreshing once. */
  lemma RefreshIdempotent(st: SessionState, reply: Reply<DataRoute.SessionData>)
    ensures RefreshSessionData(RefreshSessionData(st, reply), reply) == RefreshSessionData(st, reply)
  {
  }

  /** The saved id the mount effect tries: a truthy text entry. */
  function SavedSession(storage: Storage): (id: Option<string>)
    ensures id.Some? <==> SessionKey in storage && storage[SessionKey].Text? && storage[SessionKey].text != ""
    ensures id.Some? ==> id.value == storage[SessionKey].text && id.value != ""
  {
    if SessionKey in storage && storage[SessionKey].Text? && storage[SessionKey].text != "" then Some(storage[SessionKey].text)
    else None
  }

  const RestoreFailed: string := "Could not restore previous session."

  /** The mount effect `loadSession`; `reply` answers the data request for the saved id. */
  function LoadSession(st: SessionState, storage: Storage, reply: Reply<DataRoute.SessionData>): (s: Step<SessionState>)
    ensures s.effect.NoEffect?
    ensures SavedSession(storage).None? ==> s == Step(st, storage, None, NoEffect)
    ensures SavedSession(storage).Some? && Succeeded(reply) ==>
              s == Step(st.(currentSessionId := SavedSession(storage), sessionData := Some(CountersOf(reply.response.body))),
                        storage, None, NoEffect)
    // A saved id the server rejects is dropped from storage.
    ensures SavedSession(storage).Some? && reply.Answered? && reply.response.Error? ==>
              s == Step(st, Remove(storage, SessionKey), None, NoEffect)
    ensures SavedSession(storage).Some? && reply.NetworkError? ==>
              s == Step(st.(currentSessionId := None, sessionData := None), Remove(storage, SessionKey),
                        Some(Toast(RestoreFailed, true)), NoEffect)
  {
    var saved := SavedSession(storage);
    if saved.None? then Step(st, storage, None, NoEffect)
    else match reply
      case Answered(Ok(d)) =>
        Step(st.(currentSessionId := saved, sessionData := Some(CountersOf(d))), storage, None, NoEffect)
      case Answered(Error(_, _)) => Step(st, Remove(storage, SessionKey), None, NoEffect)
      case NetworkError(_) =>
        Step(st.(currentSessionId := None, sessionData := None), Remove(storage, SessionKey),
             Some(Toast(RestoreFailed, true)), NoEffect)
  }

  /** The counters shown when the data request after a create fails: the
      values a new row starts with. */
  const FallbackCounters: Counters := Counters(0, 0, 0, Some(DefaultHintCredits), Some(DefaultHintCap))

  const Created: string := "Session created successfully!"
  const CreateFailed: string := "Failed to create session. Please try again."

  /** `createNewSession`: `created` answers `POST /api/session/create`,
      `data` the follow-up data request for the new id. */
  function CreateNewSession(st: SessionState, storage: Storage, created: Reply<CreateRoute.CreateReply>,
                            data: Reply<DataRoute.SessionData>): (s: Step<SessionState>)
    ensures s.effect.NoEffect?
    ensures !Succeeded(created) ==> s == Step(st, storage, Some(Toast(CreateFailed, true)), NoEffect)
    ensures Succeeded(created) ==>
              var id := created.response.body.sessionId;
              && s.state.currentSessionId == Some(id)
              && s.storage == storage[SessionKey := Text(id)]
              && s.state.joinSessionId == st.joinSessionId
              && s.toast == Some(Toast(Created, false))
              && (Succeeded(data) ==> s.state.sessionData == Some(CountersOf(data.response.body)))
              && (!Succeeded(data) ==> s.state.sessionData == Some(FallbackCounters))
  {
    if !Succeeded(created) then Step(st, storage, Some(Toast(CreateFailed, true)), NoEffect)
    else
      var id := created.response.body.sessionId;
      var counters := if Succeeded(data) then CountersOf(data.response.body) else FallbackCounters;
      Step(st.(currentSessionId := Some(id), sessionData := Some(counters)), storage[SessionKey := Text(id)],
           Some(Toast(Created, false)), NoEffect)
  }

  /** The fallback equals what a data request would report for a new row,
      given that a new row's hint columns are the assumed defaults of
      `Db.DefaultHintCredits` and `Db.DefaultHintCap`. */
  lemma FallbackMatchesNewRow(id: string, now: int, recent: seq<Row>)
    ensures var u := CreateRoute.NewUserSession(now);
            CountersOf(DataRoute.SessionData(DataRoute.View(id, u), recent)) == FallbackCounters
  {
  }

  /** `endSession`: forget the session and ask the problem hook to reset. */
  function EndSession(st: SessionState, storage: Storage): (s: Step<SessionState>)
    ensures !Present(st.currentSessionId) ==> s == Step(st, storage, None, NoEffect)
    ensures Present(st.currentSessionId) ==>
              s == Step(st.(currentSessionId := None, sessionData := None), Remove(storage, SessionKey), None, ResetProblem)
  {
    if !Present(st.currentSessionId) then Step(st, storage, None, NoEffect)
    else Step(st.(currentSessionId := None, sessionData := None), Remove(storage, SessionKey), None, ResetProblem)
  }

  /** Ending a session leaves no saved id for the next page load to restore. */
  lemma EndedSessionNotRestored(st: SessionState, storage: Storage, reply: Reply<DataRoute.SessionData>)
    requires Present(st.currentSessionId)
    ensures var s := EndSession(st, storage);
            LoadSession(s.state, s.storage, reply) == Step(s.state, s.storage, None, NoEffect)
  {
  }

  /** The join box holds a five-character id (`joinSessionId.length === 5`). */
  predicate JoinReady(st: SessionState) {
    JsLength(st.joinSessionId) == 5
  }

  /** `joinSession` sends a request only for a five-character id other than the current one. */
  predicate SendsJoin(st: SessionState) {
    JoinReady(st) && st.currentSessionId != Some(st.joinSessionId)
  }

  const AlreadyCurrent: string := "This is already your current active session."
  const Joined: string := "Successfully joined session!"
  const JoinNotFound: string := "Session not found. Please check the ID and try again."
  const JoinFailed: string := "Failed to join session. Please try again."

  /** The error toast of a failed join: a 404 is "not found", anything else generic. */
  function JoinFailure(reply: Reply<JoinRoute.JoinReply>): (message: string)
    requires !Succeeded(reply)
    ensures message == JoinNotFound <==> reply.Answered? && reply.response.status == NotFound
    ensures message == JoinNotFound || message == JoinFailed
  {
    if reply.Answered? && reply.response.status == NotFound then JoinNotFound else JoinFailed
  }

  /** `joinSession`; `reply` answers `POST /api/session/join` for the typed id. */
  function JoinSession(st: SessionState, storage: Storage, reply: Reply<JoinRoute.JoinReply>): (s: Step<SessionState>)
    ensures s.effect.NoEffect?
    ensures !JoinReady(st) ==> s == Step(st, storage, None, NoEffect)
    // Joining the current session sends nothing and only clears the box.
    ensures JoinReady(st) && !SendsJoin(st) ==>
              s == Step(st.(joinSessionId := ""), storage, Some(Toast(AlreadyCurrent, false)), NoEffect)
    ensures SendsJoin(st) && Succeeded(reply) ==>
              var r := reply.response.body;
              s == Step(SessionState(Some(st.joinSessionId), Some(Counters(r.correctCount, r.totalCount, r.streak, None, None)), ""),
                        storage[SessionKey := Text(st.joinSessionId)], Some(Toast(Joined, false)), NoEffect)
    // A failed join changes nothing but shows why.
    ensures SendsJoin(st) && !Succeeded(reply) ==>
              s == Step(st, storage, Some(Toast(JoinFailure(reply), true)), NoEffect)
  {
    if !JoinReady(st) then Step(st, storage, None, NoEffect)
    else if st.currentSessionId == Some(st.joinSessionId) then
      Step(st.(joinSessionId := ""), storage, Some(Toast(AlreadyCurrent, false)), NoEffect)
    else if Succeeded(reply) then
      var r := reply.response.body;
      Step(SessionState(Some(st.joinSessionId), Some(Counters(r.correctCount, r.totalCount, r.streak, None, None)), ""),
           storage[SessionKey := Text(st.joinSessionId)], Some(Toast(Joined, false)), NoEffect)
    else Step(st, storage, Some(Toast(JoinFailure(reply), true)), NoEffect)
  }

  /** After a successful join the saved id is the joined one, so a reload
      asks for that session again. */
  lemma JoinedSessionRestored(st: SessionState, storage: Storage, reply: Reply<JoinRoute.JoinReply>)
    requires SendsJoin(st) && Succeeded(reply)
    ensures var s := JoinSession(st, storage, reply);
            SavedSession(s.storage) == Some(st.joinSessionId) == s.state.currentSessionId
  {
  }
}
