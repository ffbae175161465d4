/** The `useProblem` hook: the current problem on the page, its answer and
    feedback, the hint, and the saved-problem entry in `localStorage`. Each
    asynchronous operation is one transition from the state before it to the
    state after its `finally`, with the `fetch` outcome as a parameter. */
module ProblemHook {
  import opened Common
  import opened Db
  import opened Client
  import ProblemRoute
  import SubmitRoute

  /** The problem-type selector: a fixed operation or "random". */
  datatype TypeChoice = RandomType | OneType(problemType: ProblemType)

  /** The hook's fields. `problem` is the displayed `problem_text` (the
      client's `final_answer` is always 0 and is not kept); the in-flight
      flags `isGenerating`, `isSubmitting` and `isLoadingHint` are false once
      an operation has finished and are not kept either. */
  datatype ProblemState = ProblemState(
    problem: Option<string>,
    userAnswer: string,
    feedback: string,
    sessionId: Option<string>,
    isCorrect: Option<bool>,
    topic: string,
    selectedDifficulty: Difficulty,
    currentProblemDifficulty: string,
    currentProblemType: string,
    selectedProblemType: TypeChoice,
    selectedTopic: string,
    isFeedbackModalOpen: bool,
    feedbackModalLoading: bool,
    hint: Option<string>,
    showHint: bool)

  const RandomTopic: string := "random"

  /** The state on mount. */
  const Initial: ProblemState :=
    ProblemState(None, "", "", None, None, "", Easy, "", "", RandomType, RandomTopic, false, false, None, false)

  const AllTypes: seq<ProblemType> := [Addition, Subtraction, Multiplication, Division]

  /** `getRandomProblemType` with its draw `Math.floor(Math.random() * 4)`. */
  function RandomProblemType(draw: nat): (t: ProblemType)
    requires draw < |AllTypes|
    ensures t == AllTypes[draw]
  {
    AllTypes[draw]
  }

  /** Every operation is drawn by exactly one index. */
  lemma EachTypeDrawable(t: ProblemType)
    ensures exists draw :: 0 <= draw < |AllTypes| && RandomProblemType(draw) == t
    ensures forall d1, d2 :: 0 <= d1 < |AllTypes| && 0 <= d2 < |AllTypes| && RandomProblemType(d1) == RandomProblemType(d2) ==> d1 == d2
  {
    match t
    case Addition => assert RandomProblemType(0) == t;
    case Subtraction => assert RandomProblemType(1) == t;
    case Multiplication => assert RandomProblemType(2) == t;
    case Division => assert RandomProblemType(3) == t;
  }

  /** The operation sent with a request: the selection, or a random one. */
  function ResolveType(choice: TypeChoice, draw: nat): (t: ProblemType)
    requires draw < |AllTypes|
    ensures choice.OneType? ==> t == choice.problemType
    ensures choice.RandomType? ==> t in AllTypes
  {
    if choice.RandomType? then RandomProblemType(draw) else choice.problemType
  }

  /** The topic draw is an index into the list whenever a random topic is drawn from a non-empty list. */
  predicate TopicDrawFits(selected: string, topics: seq<string>, draw: nat) {
    selected == RandomTopic && |topics| > 0 ==> draw < |topics|
  }

  /** The topic sent with a request: the selection, or for "random" a
      member of the list (`getRandomTopic`), "" when the list is empty. */
  function ResolveTopic(selected: string, topics: seq<string>, draw: nat): (t: string)
    requires TopicDrawFits(selected, topics, draw)
    ensures selected != RandomTopic ==> t == selected
    ensures selected == RandomTopic && topics == [] ==> t == ""
    ensures selected == RandomTopic && topics != [] ==> t in topics
  {
    if selected != RandomTopic then selected
    else if |topics| == 0 then ""
    else topics[draw]
  }

  /** The body `generateProblem` posts. */
  function GenerateRequestOf(st: ProblemState, topics: seq<string>, typeDraw: nat, topicDraw: nat): (req: ProblemRoute.GenerateRequest)
    requires typeDraw < |AllTypes| && TopicDrawFits(st.selectedTopic, topics, topicDraw)
    ensures req.difficulty == Some(DifficultyName(st.selectedDifficulty))
    ensures req.topic == Some(ResolveTopic(st.selectedTopic, topics, topicDraw))
    ensures req.problemType == Some(ProblemTypeName(ResolveType(st.selectedProblemType, typeDraw)))
  {
    ProblemRoute.GenerateRequest(
      Some(DifficultyName(st.selectedDifficulty)),
      Some(ResolveTopic(st.selectedTopic, topics, topicDraw)),
      Some(ProblemTypeName(ResolveType(st.selectedProblemType, typeDraw))))
  }

  const GenerateFailed: string := "Failed to generate problem. Please try again."

  /** `data.difficulty || "N/A"`. */
  function OrNotAvailable(s: string): (r: string)
    ensures s == "" ==> r == "N/A"
    ensures s != "" ==> r == s
  {
    if s == "" then "N/A" else s
  }

  /** `generateProblem`: drop the saved entry, post the request, and on
      success show the new problem and save the resolved type and topic
      with the time `now`. */
  function GenerateProblem(st: ProblemState, storage: Storage, topics: seq<string>, typeDraw: nat, topicDraw: nat,
                           mapping: map<string, string>, now: int, reply: Reply<ProblemRoute.Created>): (s: Step<ProblemState>)
    requires typeDraw < |AllTypes| && TopicDrawFits(st.selectedTopic, topics, topicDraw)
    ensures s.toast.None? && s.effect.NoEffect?
    ensures forall k :: k != ProblemKey ==> (k in s.storage <==> k in storage) && (k in storage ==> s.storage[k] == storage[k])
    ensures !Succeeded(reply) ==>
              && ProblemKey !in s.storage
              && s.state == st.(feedback := GenerateFailed)
    ensures Succeeded(reply) ==>
              var c := reply.response.body;
              && ProblemKey in s.storage
              && s.storage[ProblemKey] == ProblemRecord(Some(c.sessionId),
                   ProblemTypeName(ResolveType(st.selectedProblemType, typeDraw)),
                   ResolveTopic(st.selectedTopic, topics, topicDraw), now)
              && s.state == st.(problem := Some(c.problemText), sessionId := Some(c.sessionId),
                                topic := DisplayTopic(c.topic, mapping),
                                currentProblemDifficulty := DifficultyName(c.difficulty),
                                currentProblemType := "", feedback := "", isCorrect := None)
  {
    var cleared := Remove(storage, ProblemKey);
    if !Succeeded(reply) then Step(st.(feedback := GenerateFailed), cleared, None, NoEffect)
    else
      var c := reply.response.body;
      var t := ResolveType(st.selectedProblemType, typeDraw);
      var topic := ResolveTopic(st.selectedTopic, topics, topicDraw);
      var st' := st.(currentProblemDifficulty := OrNotAvailable(DifficultyName(c.difficulty)),
                     // The response has no `problem_type`.
                     currentProblemType := "",
                     problem := Some(c.problemText),
                     sessionId := Some(c.sessionId),
                     topic := DisplayTopic(c.topic, mapping),
                     feedback := "",
                     isCorrect := None);
      Step(st', cleared[ProblemKey := ProblemRecord(Some(c.sessionId), ProblemTypeName(t), topic, now)], None, NoEffect)
  }

  /** The saved record holds the resolved choices: never the "random"
      placeholder for the type, and for the topic only when the topic list
      itself contains that word. */
  lemma SavedChoicesResolved(st: ProblemState, storage: Storage, topics: seq<string>, typeDraw: nat, topicDraw: nat,
                             mapping: map<string, string>, now: int, reply: Reply<ProblemRoute.Created>)
    requires typeDraw < |AllTypes| && TopicDrawFits(st.selectedTopic, topics, topicDraw)
    requires Succeeded(reply)
    requires RandomTopic !in topics
    ensures var e := GenerateProblem(st, storage, topics, typeDraw, topicDraw, mapping, now, reply).storage[ProblemKey];
            && e.problemType in {"addition", "subtraction", "multiplication", "division"}
            && e.problemType != RandomTopic && e.topic != RandomTopic
  {
  }

  /** The day after which a saved problem is no longer restored, in milliseconds. */
  const SavedProblemLifetime: int := 24 * 60 * 60 * 1000

  predicate Expired(now: int, timestamp: int) {
    now - timestamp > SavedProblemLifetime
  }

  /** What `JSON.parse` makes of stored text, as far as `loadSavedProblem`
      looks at it: an exception, `null` (whose `.timestamp` read throws), or
      a value whose `sessionId` and `timestamp` fields are read. A number, a
      string literal, a boolean or an array has neither field. */
  datatype Parsed = ParseFailed | ParsedNull | ParsedValue(sessionId: Option<string>, timestamp: Option<int>)

  /** The saved entry as the mount effect reads it: stored text goes through
      `readJson`; the record `generateProblem` wrote reads back as written. */
  function ReadSaved(e: Entry, readJson: string -> Parsed): (p: Parsed)
    ensures e.ProblemRecord? ==> p == ParsedValue(e.sessionId, Some(e.timestamp))
    ensures e.Text? ==> p == readJson(e.text)
  {
    match e
    case Text(t) => readJson(t)
    case ProblemRecord(id, _, _, ts) => ParsedValue(id, Some(ts))
  }

  /** `Date.now() - data.timestamp > day`: a missing timestamp gives `NaN`,
      and a comparison with `NaN` is false, so such a value never expires. */
  predicate Stale(now: int, timestamp: Option<int>) {
    timestamp.Some? && Expired(now, timestamp.value)
  }

  /** A saved entry is there and truthy: `localStorage.getItem` gave a non-empty text. */
  predicate HasSaved(storage: Storage) {
    ProblemKey in storage && storage[ProblemKey] != Text("")
  }

  /** The problem id the mount effect asks the server for: the saved value's
      id when it reads as a value, is fresh and carries a truthy id. */
  function RestoreTarget(storage: Storage, now: int, readJson: string -> Parsed): (id: Option<string>)
    ensures id.Some? <==>
              && HasSaved(storage)
              && var p := ReadSaved(storage[ProblemKey], readJson);
                 p.ParsedValue? && !Stale(now, p.timestamp) && Present(p.sessionId)
    ensures id.Some? ==> id == ReadSaved(storage[ProblemKey], readJson).sessionId && id.value != ""
  {
    if !HasSaved(storage) then None
    else
      var p := ReadSaved(storage[ProblemKey], readJson);
      if p.ParsedValue? && !Stale(now, p.timestamp) && Present(p.sessionId) then p.sessionId else None
  }

  const RestoreFailed: string := "Could not restore previous problem."

  /** The state the `catch` of the mount effect leaves: no problem shown. */
  function ClearRestored(st: ProblemState): ProblemState {
    st.(problem := None, sessionId := None, topic := "", currentProblemDifficulty := "", currentProblemType := "")
  }

  /** The mount effect `loadSavedProblem`; `readJson` stands for `JSON.parse`
      and `reply` is the answer to `GET /api/math-problem?sessionId=` for the
      restore target. */
  function LoadSavedProblem(st: ProblemState, storage: Storage, now: int, mapping: map<string, string>,
                            readJson: string -> Parsed, reply: Reply<ProblemRoute.ProblemView>): (s: Step<ProblemState>)
    ensures s.effect.NoEffect?
    // Nothing saved (or an empty string, which is falsy): nothing happens.
    ensures !HasSaved(storage) ==> s == Step(st, storage, None, NoEffect)
    // Text `JSON.parse` rejects, or `null`: the `catch` removes it, warns and clears the problem.
    ensures HasSaved(storage) && !ReadSaved(storage[ProblemKey], readJson).ParsedValue? ==>
              s == Step(ClearRestored(st), Remove(storage, ProblemKey), Some(Toast(RestoreFailed, true)), NoEffect)
    // A stale or id-less value (a number, say) is removed silently and never restored.
    ensures HasSaved(storage) && ReadSaved(storage[ProblemKey], readJson).ParsedValue?
            && RestoreTarget(storage, now, readJson).None? ==>
              s == Step(st, Remove(storage, ProblemKey), None, NoEffect)
    // The server refused: the record is removed.
    ensures RestoreTarget(storage, now, readJson).Some? && reply.Answered? && reply.response.Error? ==>
              s == Step(st, Remove(storage, ProblemKey), None, NoEffect)
    ensures RestoreTarget(storage, now, readJson).Some? && Succeeded(reply) ==>
              var v := reply.response.body;
              && s.storage == storage && s.toast.None?
              && s.state == st.(problem := Some(v.problemText), sessionId := RestoreTarget(storage, now, readJson),
                                topic := DisplayTopic(v.topic, mapping),
                                currentProblemDifficulty := OrNotAvailable(v.difficulty), currentProblemType := "")
    // A failed fetch: remove, warn, and clear the problem.
    ensures RestoreTarget(storage, now, readJson).Some? && reply.NetworkError? ==>
              s == Step(ClearRestored(st), Remove(storage, ProblemKey), Some(Toast(RestoreFailed, true)), NoEffect)
  {
    if !HasSaved(storage) then Step(st, storage, None, NoEffect)
    else if !ReadSaved(storage[ProblemKey], readJson).ParsedValue? then
      Step(ClearRestored(st), Remove(storage, ProblemKey), Some(Toast(RestoreFailed, true)), NoEffect)
    else
      var target := RestoreTarget(storage, now, readJson);
      if target.None? then Step(st, Remove(storage, ProblemKey), None, NoEffect)
      else match reply
        case NetworkError(_) =>
          Step(ClearRestored(st), Remove(storage, ProblemKey), Some(Toast(RestoreFailed, true)), NoEffect)
        case Answered(Error(_, _)) => Step(st, Remove(storage, ProblemKey), None, NoEffect)
        case Answered(Ok(v)) =>
          Step(st.(problem := Some(v.problemText), sessionId := target, topic := DisplayTopic(v.topic, mapping),
                   currentProblemDifficulty := OrNotAvailable(v.difficulty), currentProblemType := ""),
               storage, None, NoEffect)
  }

  /** JSON text that is not an object, such as `123`, has no `sessionId`: it
      is removed without a toast and the problem on screen stays. */
  lemma NonRecordRemovedSilently(st: ProblemState, storage: Storage, now: int, mapping: map<string, string>,
                                 readJson: string -> Parsed, reply: Reply<ProblemRoute.ProblemView>)
    requires ProblemKey in storage && storage[ProblemKey].Text? && storage[ProblemKey].text != ""
    requires readJson(storage[ProblemKey].text) == ParsedValue(None, None)
    ensures LoadSavedProblem(st, storage, now, mapping, readJson, reply) == Step(st, Remove(storage, ProblemKey), None, NoEffect)
  {
  }

  /** A record older than a day is never restored, whatever the server would say. */
  lemma ExpiredNeverRestored(st: ProblemState, storage: Storage, now: int, mapping: map<string, string>,
                             readJson: string -> Parsed, reply: Reply<ProblemRoute.ProblemView>)
    requires ProblemKey in storage && storage[ProblemKey].ProblemRecord?
    requires now - storage[ProblemKey].timestamp > 86_400_000
    ensures LoadSavedProblem(st, storage, now, mapping, readJson, reply).state == st
    ensures ProblemKey !in LoadSavedProblem(st, storage, now, mapping, readJson, reply).storage
  {
  }

  /** Exactly a day old is still fresh. */
  lemma DayOldStillFresh(storage: Storage, now: int, id: string, problemType: string, topic: string,
                         readJson: string -> Parsed)
    requires id != ""
    requires storage == map[ProblemKey := ProblemRecord(Some(id), problemType, topic, now - 86_400_000)]
    ensures RestoreTarget(storage, now, readJson) == Some(id)
    ensures RestoreTarget(storage, now + 1, readJson).None?
  {
  }

  /** What `submitAnswer` checks before anything happens: an answer, a
      problem and a user session. */
  predicate CanSubmit(st: ProblemState, currentSessionId: Option<string>) {
    st.userAnswer != "" && Present(st.sessionId) && Present(currentSessionId)
  }

  /** The body `submitAnswer` posts; `parsed` is `parseFloat(userAnswer)`,
      `None` when it is `NaN`. */
  function SubmitRequestOf(st: ProblemState, currentSessionId: Option<string>, parsed: Option<real>): (req: Option<SubmitRoute.SubmitRequest>)
    ensures req.Some? <==> CanSubmit(st, currentSessionId)
    ensures req.Some? ==> req.value == SubmitRoute.SubmitRequest(st.sessionId, currentSessionId, parsed)
  {
    if CanSubmit(st, currentSessionId) then Some(SubmitRoute.SubmitRequest(st.sessionId, currentSessionId, parsed)) else None
  }

  const SubmitFailed: string := "Failed to submit answer. Please try again."

  /** The fields cleared as soon as a submit starts. */
  function ClearDisplay(st: ProblemState): ProblemState {
    st.(isFeedbackModalOpen := true, problem := None, topic := "", currentProblemType := "", hint := None, showHint := false)
  }

  /** `submitAnswer`. */
  function SubmitAnswer(st: ProblemState, storage: Storage, currentSessionId: Option<string>,
                        reply: Reply<SubmitRoute.Verdict>): (s: Step<ProblemState>)
    ensures !CanSubmit(st, currentSessionId) ==> s == Step(st, storage, None, NoEffect)
    ensures CanSubmit(st, currentSessionId) ==>
              // Whatever the outcome: the modal is open and no longer loading,
              // and the problem display is cleared.
              && s.state.isFeedbackModalOpen && !s.state.feedbackModalLoading
              && s.state.problem.None? && s.state.topic == "" && s.state.currentProblemType == ""
              && s.state.hint.None? && !s.state.showHint
              && s.state.sessionId == st.sessionId && s.toast.None?
    // The difficulty shown and the three selectors are never touched.
    ensures s.state.currentProblemDifficulty == st.currentProblemDifficulty
            && s.state.selectedDifficulty == st.selectedDifficulty
            && s.state.selectedProblemType == st.selectedProblemType
            && s.state.selectedTopic == st.selectedTopic
    ensures CanSubmit(st, currentSessionId) && Succeeded(reply) ==>
              && s.state.isCorrect == Some(reply.response.body.isCorrect)
              && s.state.feedback == reply.response.body.feedback
              && s.state.userAnswer == ""
              && s.storage == Remove(storage, ProblemKey)
              && s.effect == RefreshSession
    ensures CanSubmit(st, currentSessionId) && !Succeeded(reply) ==>
              && s.state.feedback == SubmitFailed
              && s.state.userAnswer == st.userAnswer
              && s.state.isCorrect == st.isCorrect
              && s.storage == storage
              && s.effect == NoEffect
  {
    if !CanSubmit(st, currentSessionId) then Step(st, storage, None, NoEffect)
    else
      var started := ClearDisplay(st).(feedbackModalLoading := true);
      if Succeeded(reply) then
        var v := reply.response.body;
        Step(started.(isCorrect := Some(v.isCorrect), feedback := v.feedback, feedbackModalLoading := false, userAnswer := ""),
             Remove(storage, ProblemKey), None, RefreshSession)
      else
        Step(started.(feedback := SubmitFailed, feedbackModalLoading := false), storage, None, NoEffect)
  }

  /** A failed submit still loses the problem from the screen but keeps the
      typed answer and the saved entry, so a reload restores the problem. */
  lemma FailedSubmitKeepsSavedProblem(st: ProblemState, storage: Storage, currentSessionId: Option<string>, message: string)
    requires CanSubmit(st, currentSessionId) && ProblemKey in storage
    ensures var s := SubmitAnswer(st, storage, currentSessionId, NetworkError(message));
            s.state.problem.None? && s.state.userAnswer == st.userAnswer && s.storage[ProblemKey] == storage[ProblemKey]
  {
  }

  /** What `getHint` checks: a problem and a user session. */
  predicate CanAskHint(st: ProblemState, currentSessionId: Option<string>) {
    Present(st.sessionId) && Present(currentSessionId)
  }

  const HintFailed: string := "Failed to get hint"

  /** The message of a failed hint request: the server's `error`, or the
      rejection's message, or the fixed fallback when that is empty. */
  function HintFailure<T>(reply: Reply<T>): (message: string)
    requires !Succeeded(reply)
    ensures message != ""
    ensures reply.Answered? && reply.response.message != "" ==> message == reply.response.message
    ensures reply.NetworkError? && reply.message != "" ==> message == reply.message
  {
    var m := if reply.NetworkError? then reply.message else reply.response.message;
    if m == "" then HintFailed else m
  }

  /** `getHint`; a failure shows an error toast and changes nothing else. */
  function GetHint(st: ProblemState, storage: Storage, currentSessionId: Option<string>, reply: Reply<string>): (s: Step<ProblemState>)
    ensures s.storage == storage
    ensures !CanAskHint(st, currentSessionId) ==> s == Step(st, storage, None, NoEffect)
    ensures CanAskHint(st, currentSessionId) && Succeeded(reply) ==>
              s == Step(st.(hint := Some(reply.response.body), showHint := true), storage, None, RefreshSession)
    ensures CanAskHint(st, currentSessionId) && !Succeeded(reply) ==>
              s.state == st && s.effect == NoEffect && s.toast == Some(Toast(HintFailure(reply), true))
  {
    if !CanAskHint(st, currentSessionId) then Step(st, storage, None, NoEffect)
    else if Succeeded(reply) then
      Step(st.(hint := Some(reply.response.body), showHint := true), storage, None, RefreshSession)
    else Step(st, storage, Some(Toast(HintFailure(reply), true)), NoEffect)
  }

  /** The server's reason for refusing a hint reaches the user unchanged. */
  lemma HintRefusalShown(st: ProblemState, storage: Storage, currentSessionId: Option<string>, status: int, message: string)
    requires CanAskHint(st, currentSessionId) && message != ""
    ensures GetHint(st, storage, currentSessionId, Answered(Error(status, message))).toast == Some(Toast(message, true))
  {
  }

  /** `resetProblemState`. The problem id and the three selectors survive. */
  function ResetProblemState(st: ProblemState, storage: Storage): (s: Step<ProblemState>)
    ensures s.state.problem.None? && s.state.userAnswer == "" && s.state.feedback == ""
    ensures s.state.isCorrect.None? && s.state.topic == ""
    ensures s.state.currentProblemDifficulty == "" && s.state.currentProblemType == ""
    ensures s.state.hint.None? && !s.state.showHint
    ensures !s.state.isFeedbackModalOpen && !s.state.feedbackModalLoading
    ensures s.state.sessionId == st.sessionId
    ensures s.state.selectedDifficulty == st.selectedDifficulty && s.state.selectedProblemType == st.selectedProblemType
    ensures s.state.selectedTopic == st.selectedTopic
    ensures s.storage == Remove(storage, ProblemKey) && s.toast.None? && s.effect.NoEffect?
  {
    Step(st.(problem := None, userAnswer := "", feedback := "", isCorrect := None, topic := "",
             currentProblemDifficulty := "", currentProblemType := "", hint := None, showHint := false,
             isFeedbackModalOpen := false, feedbackModalLoading := false),
         Remove(storage, ProblemKey), None, NoEffect)
  }

  /** Resetting twice is resetting once. */
  lemma ResetIdempotent(st: ProblemState, storage: Storage)
    ensures var s := ResetProblemState(st, storage);
            ResetProblemState(s.state, s.storage) == s
  {
  }

  /** After a reset the display matches the state on mount, apart from the
      problem id and the selectors, which a reset does not touch. */
  lemma ResetMatchesMount(st: ProblemState, storage: Storage)
    ensures ResetProblemState(st, storage).state
         == Initial.(sessionId := st.sessionId, selectedDifficulty := st.selectedDifficulty,
                     selectedProblemType := st.selectedProblemType, selectedTopic := st.selectedTopic)
  {
  }
}
