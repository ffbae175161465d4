/** The page that wires the hooks together: `endSession` calls the problem
    hook's reset, and `submitAnswer` and `getHint` call the session hook's
    refresh. The lemmas here run the hooks against the route handlers. */
module App {
  import opened Common
  import opened Db
  import opened Client
  import ProblemRoute
  import SubmitRoute
  import HintRoute
  import JoinRoute
  import DataRoute
  import CreateRoute
  import ProblemHook
  import SessionHook
  import HistoryHook

  datatype Page = Page(
    problem: ProblemHook.ProblemState,
    session: SessionHook.SessionState,
    history: HistoryHook.HistoryState,
    storage: Storage)

  /** Runs the follow-up call a problem-hook step asks for. */
  function FollowUp(p: Page, s: Step<ProblemHook.ProblemState>, refresh: Reply<DataRoute.SessionData>): (p': Page)
    ensures p'.problem == s.state && p'.storage == s.storage && p'.history == p.history
    ensures s.effect == RefreshSession ==> p'.session == SessionHook.RefreshSessionData(p.session, refresh)
    ensures s.effect != RefreshSession ==> p'.session == p.session
  {
    var session := if s.effect == RefreshSession then SessionHook.RefreshSessionData(p.session, refresh) else p.session;
    Page(s.state, session, p.history, s.storage)
  }

  /** The page's submit: `submitAnswer` with the current user session, then
      the refresh it asks for; `refresh` answers that data request. */
  function SubmitAnswer(p: Page, reply: Reply<SubmitRoute.Verdict>, refresh: Reply<DataRoute.SessionData>): (p': Page)
    ensures p'.history == p.history
    ensures !ProblemHook.CanSubmit(p.problem, p.session.currentSessionId) ==> p' == p
    ensures ProblemHook.CanSubmit(p.problem, p.session.currentSessionId) && Succeeded(reply) ==>
              p'.session == SessionHook.RefreshSessionData(p.session, refresh)
    ensures !Succeeded(reply) ==> p'.session == p.session
  {
    FollowUp(p, ProblemHook.SubmitAnswer(p.problem, p.storage, p.session.currentSessionId, reply), refresh)
  }

  /** The page's hint button: `getHint`, then the refresh it asks for. */
  function GetHint(p: Page, reply: Reply<string>, refresh: Reply<DataRoute.SessionData>): (p': Page)
    ensures p'.storage == p.storage && p'.history == p.history
    ensures ProblemHook.CanAskHint(p.problem, p.session.currentSessionId) && Succeeded(reply) ==>
              p'.session == SessionHook.RefreshSessionData(p.session, refresh) && p'.problem.showHint
    ensures !Succeeded(reply) ==> p'.session == p.session && p'.problem == p.problem
  {
    FollowUp(p, ProblemHook.GetHint(p.problem, p.storage, p.session.currentSessionId, reply), refresh)
  }

  /** The page's end-session button: `endSession`, then the problem reset. */
  function EndSession(p: Page): (p': Page)
    ensures !Present(p.session.currentSessionId) ==> p' == p
    ensures Present(p.session.currentSessionId) ==>
              && p'.session.currentSessionId.None? && p'.session.sessionData.None?
              && SessionKey !in p'.storage && ProblemKey !in p'.storage
              && p'.problem == ProblemHook.ResetProblemState(p.problem, p.storage).state
              && p'.history == p.history
  {
    var s := SessionHook.EndSession(p.session, p.storage);
    if s.effect == ResetProblem then
      var r := ProblemHook.ResetProblemState(p.problem, s.storage);
      Page(r.state, s.state, p.history, r.storage)
    else Page(p.problem, s.state, p.history, s.storage)
  }

  /** Ending the session leaves nothing for the next load to restore: neither
      the session nor the problem comes back. */
  lemma EndedPageRestoresNothing(p: Page, now: int, mapping: map<string, string>, readJson: string -> ProblemHook.Parsed,
                                 problemReply: Reply<ProblemRoute.ProblemView>, sessionReply: Reply<DataRoute.SessionData>)
    requires Present(p.session.currentSessionId)
    ensures var e := EndSession(p);
            && SessionHook.LoadSession(SessionHook.Initial, e.storage, sessionReply).state == SessionHook.Initial
            && ProblemHook.LoadSavedProblem(ProblemHook.Initial, e.storage, now, mapping, readJson, problemReply).state == ProblemHook.Initial
  {
  }

  /** The data request the refresh sends for a user session, answered by the store. */
  function DataReply(store: Store, uid: string): Reply<DataRoute.SessionData> {
    Answered(DataRoute.GetSessionData(store, Some(uid), false, false))
  }

  /** As written: answering a problem never moves the score on the page. The
      counters after the submit and its refresh are those a refresh before
      the submit would have shown. */
  lemma ScoreNeverMoves(p: Page, store: Store, parsed: Option<real>, gen: Generation)
    requires ProblemHook.CanSubmit(p.problem, p.session.currentSessionId)
    requires JsLength(p.session.currentSessionId.value) == 5 && p.session.currentSessionId.value in store.users
    requires var req := ProblemHook.SubmitRequestOf(p.problem, p.session.currentSessionId, parsed).value;
             SubmitRoute.Submit(store, req, gen, SubmitRoute.NoFaults).response.Ok?
    ensures var uid := p.session.currentSessionId.value;
            var req := ProblemHook.SubmitRequestOf(p.problem, p.session.currentSessionId, parsed).value;
            var h := SubmitRoute.Submit(store, req, gen, SubmitRoute.NoFaults);
            var p' := SubmitAnswer(p, Answered(h.response), DataReply(h.store, uid));
            p'.session.sessionData == SessionHook.RefreshSessionData(p.session, DataReply(store, uid)).sessionData
  {
    var uid := p.session.currentSessionId.value;
    var req := ProblemHook.SubmitRequestOf(p.problem, p.session.currentSessionId, parsed).value;
    var h := SubmitRoute.Submit(store, req, gen, SubmitRoute.NoFaults);
    SubmitRoute.SubmitLeavesSessionsAlone(store, req, gen, SubmitRoute.NoFaults, None);
    SubmitShowsRefreshedCounters(p, Answered(h.response), h.store, uid);
  }

  /** With scoring: a successful submit followed by its refresh shows one
      more attempt on the page. */
  lemma ScoredSubmitCounts(p: Page, store: Store, parsed: Option<real>, gen: Generation)
    requires ProblemHook.CanSubmit(p.problem, p.session.currentSessionId)
    requires JsLength(p.session.currentSessionId.value) == 5 && p.session.currentSessionId.value in store.users
    requires var req := ProblemHook.SubmitRequestOf(p.problem, p.session.currentSessionId, parsed).value;
             SubmitRoute.ScoredSubmit(store, req, gen, SubmitRoute.NoFaults).response.Ok?
    ensures var uid := p.session.currentSessionId.value;
            var req := ProblemHook.SubmitRequestOf(p.problem, p.session.currentSessionId, parsed).value;
            var h := SubmitRoute.ScoredSubmit(store, req, gen, SubmitRoute.NoFaults);
            var p' := SubmitAnswer(p, Answered(h.response), DataReply(h.store, uid));
            && p'.session.sessionData.Some?
            && p'.session.sessionData.value.totalCount == store.users[uid].totalCount + 1
            && p'.session.sessionData.value.streak == (if h.response.body.isCorrect then store.users[uid].streak + 1 else 0)
  {
    var uid := p.session.currentSessionId.value;
    var req := ProblemHook.SubmitRequestOf(p.problem, p.session.currentSessionId, parsed).value;
    var h := SubmitRoute.ScoredSubmit(store, req, gen, SubmitRoute.NoFaults);
    assert req.userSessionId == Some(uid);
    var u' := SubmitRoute.RecordAnswer(store.users[uid], h.response.body.isCorrect);
    assert h.store.users[uid] == u';
    SubmitShowsRefreshedCounters(p, Answered(h.response), h.store, uid);
  }

  /** After a successful submit, the page shows the counters the refresh reads. */
  lemma SubmitShowsRefreshedCounters(p: Page, reply: Reply<SubmitRoute.Verdict>, store: Store, uid: string)
    requires ProblemHook.CanSubmit(p.problem, p.session.currentSessionId) && Succeeded(reply)
    requires p.session.currentSessionId == Some(uid) && JsLength(uid) == 5 && uid in store.users
    ensures SubmitAnswer(p, reply, DataReply(store, uid)).session.sessionData
         == Some(SessionHook.CountersOf(DataRoute.SessionData(DataRoute.View(uid, store.users[uid]), DataRoute.Recent(store, uid))))
  {
  }

  /** A successful hint shows one credit fewer on the page after its refresh. */
  lemma HintSpendsShownCredit(p: Page, store: Store, gen: Generation)
    requires ProblemHook.CanAskHint(p.problem, p.session.currentSessionId)
    requires JsLength(p.session.currentSessionId.value) == 5
    requires HintRoute.Hint(store, HintRoute.HintRequest(p.problem.sessionId, p.session.currentSessionId), gen, HintRoute.NoFaults).response.Ok?
    ensures var uid := p.session.currentSessionId.value;
            var h := HintRoute.Hint(store, HintRoute.HintRequest(p.problem.sessionId, p.session.currentSessionId), gen, HintRoute.NoFaults);
            var p' := GetHint(p, Answered(h.response), DataReply(h.store, uid));
            && p'.problem.hint == Some(h.response.body)
            && p'.session.sessionData.Some?
            && p'.session.sessionData.value.hintCredits == Some(store.users[uid].hintCredits - 1)
  {
  }

  /** Reloading within a day shows the problem just generated: the saved
      record leads the mount effect back to the same text, topic and
      difficulty through `GET /api/math-problem`. */
  lemma GeneratedProblemSurvivesReload(st: ProblemHook.ProblemState, storage: Storage, topics: seq<string>,
                                       typeDraw: nat, topicDraw: nat, mapping: map<string, string>, now: int, later: int,
                                       store: Store, catalog: Option<seq<string>>, draw: nat,
                                       generate: string -> Generation, parse: string -> Option<ProblemRoute.GeneratedData>,
                                       newId: string, readJson: string -> ProblemHook.Parsed)
    requires typeDraw < |ProblemHook.AllTypes| && ProblemHook.TopicDrawFits(st.selectedTopic, topics, topicDraw)
    requires ProblemRoute.TopicDrawFits(catalog, draw)
    requires newId != "" && now <= later <= now + ProblemHook.SavedProblemLifetime
    requires var req := ProblemHook.GenerateRequestOf(st, topics, typeDraw, topicDraw);
             ProblemRoute.CreateProblem(store, req, catalog, draw, generate, parse, newId, false).response.Ok?
    ensures var req := ProblemHook.GenerateRequestOf(st, topics, typeDraw, topicDraw);
            var h := ProblemRoute.CreateProblem(store, req, catalog, draw, generate, parse, newId, false);
            var s1 := ProblemHook.GenerateProblem(st, storage, topics, typeDraw, topicDraw, mapping, now, Answered(h.response));
            var target := ProblemHook.RestoreTarget(s1.storage, later, readJson);
            var s2 := ProblemHook.LoadSavedProblem(ProblemHook.Initial, s1.storage, later, mapping, readJson,
                                                   Answered(ProblemRoute.GetProblem(h.store, target, false)));
            && target == Some(newId)
            && s2.state.problem == s1.state.problem
            && s2.state.sessionId == s1.state.sessionId
            && s2.state.topic == s1.state.topic
            && s2.state.currentProblemDifficulty == s1.state.currentProblemDifficulty
            && s2.storage == s1.storage
  {
    var req := ProblemHook.GenerateRequestOf(st, topics, typeDraw, topicDraw);
    var h := ProblemRoute.CreateProblem(store, req, catalog, draw, generate, parse, newId, false);
    ProblemRoute.CreateThenGet(store, req, catalog, draw, generate, parse, newId, false);
    var s1 := ProblemHook.GenerateProblem(st, storage, topics, typeDraw, topicDraw, mapping, now, Answered(h.response));
    assert s1.storage[ProblemKey].sessionId == Some(newId) && s1.storage[ProblemKey].timestamp == now;
    assert ProblemHook.ReadSaved(s1.storage[ProblemKey], readJson) == ProblemHook.ParsedValue(Some(newId), Some(now));
    assert ProblemHook.RestoreTarget(s1.storage, later, readJson) == Some(newId);
  }

  /** A session created on one page can be joined from another: the join
      shows zero counters and makes it the current session there. */
  lemma CreatedSessionJoinable(store: Store, id: string, created: int, joined: int, other: SessionHook.SessionState, storage: Storage)
    requires JsLength(id) == 5 && id !in store.users
    requires other.joinSessionId == id && other.currentSessionId != Some(id)
    ensures var s := store.(users := store.users[id := CreateRoute.NewUserSession(created)]);
            var j := SessionHook.JoinSession(other, storage, Answered(JoinRoute.Join(s, Some(id), joined, false, false).response));
            && j.state.currentSessionId == Some(id)
            && j.state.sessionData == Some(SessionHook.Counters(0, 0, 0, None, None))
            && SessionHook.SavedSession(j.storage) == Some(id)
  {
  }
}
