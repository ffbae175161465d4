# Math problem generator: route handlers and client hooks

This project models the decision logic of a small web app for Primary 5 maths practice. The server has seven
API route handlers: generate or fetch a problem, submit an answer, ask for a hint, page through the
submission history, and create, join or read a user session. On the browser side there are three hooks:
`useProblem`, `useSession` and `useHistory`.

Each handler is a pure function from a `Db.Store` and a request to the store after its writes and the
response (`Db.Handled`). The store has three parts:

- the problem rows;
- the user-session rows;
- the submission log in insertion order. A row's position in the log stands for its `created_at`.

Everything the handlers get from outside is a parameter:

- the content generator's text (`Generation`);
- `JSON.parse` of that text, and of the saved problem entry in `localStorage`;
- the random draws;
- the id the database assigns;
- the clock;
- whether a database call fails.

Each hook operation is one transition (`Client.Step`) from the hook's fields and `localStorage` (a map
from keys to entries) to the fields, storage, toast and follow-up call once its `finally` has run. The
outcome of every `fetch` is an input (`Client.Reply`). `App` wires the hooks together the way the page
does, and runs them against the handlers.

`Db.Consistent` collects the data model's rules:

- every submission refers to a stored problem;
- a submission's user session, when it names one, exists;
- each user session's counters are the tallies of the submissions that name it;
- hint credits lie between 0 and the cap;
- `hints_used` is 0 or 1.

Every handler is shown to keep these rules.

In four places a handler does less than the client code that calls it expects. The model follows the handler:

- **Submit never scores.** The client sends `user_session_id` with every answer (lib/hooks/useProblem.ts:184)
  and then refreshes the session data "to update scores" (lib/hooks/useProblem.ts:194). The data route lists
  a session's submissions by `user_session_id` (app/api/session/data/route.ts:41). Yet the submit handler
  reads only `session_id` and `user_answer`, stores no user session id on the new row, and never updates
  `correct_count`, `total_count` or `streak`. The scoring the rest of the code expects is modelled
  separately as `SubmitRoute.ScoredSubmit` (see Findings).
- **History is not filtered by user.** The hook asks for one user session's history
  (lib/hooks/useHistory.ts:43), but the handler lists every submission, and it does not reject a missing
  `user_session_id`.
- **Join reports no hint fields.** The join reply carries only the columns of app/api/session/join/route.ts:15,
  so the session hook holds no hint values after a join until the next refresh.
- **Problem POST reads only `difficulty`.** The topic and problem type the client sends
  (lib/hooks/useProblem.ts:127-128) are ignored.

## Model

| member | source | states |
|---|---|---|
| HistoryRoute.History | app/api/math-problem/history/route.ts:4-70 | invalid page or limit is 400 before any read; a failed count or fetch is 500; otherwise currentPage echoes page, totalItems is the count (0 when missing), totalPages is the ceiling of count/limit, hasNext iff page < totalPages, hasPrev iff page > 1, and the rows are the newest-first rows from offset (page-1)*limit, at most limit of them |
| HistoryRoute.HistoryIgnoresUser | app/api/math-problem/history/route.ts:17-44 | the user_session_id parameter has no effect on the answer: no user filter |
| HistoryRoute.HistoryDefaults | app/api/math-problem/history/route.ts:7-8 | absent page and limit give the same answer as page=1, limit=10 |
| HistoryRoute.CeilDiv | app/api/math-problem/history/route.ts:51 | the page count is the least q with count <= q*limit |
| HistoryRoute.Window | app/api/math-problem/history/route.ts:43-44 | the range has max(0, min(limit, n-offset)) rows and row i is row offset+i |
| HistoryRoute.PagesAreWindows | app/api/math-problem/history/route.ts:14-44 | page k of the history is the k-th consecutive window of limit rows of the newest-first log |
| HistoryRoute.PagesPrefix | app/api/math-problem/history/route.ts:14-44 | pages 1..k concatenated are exactly the first min(k*limit, n) newest-first rows |
| HistoryRoute.PagesCoverAll | app/api/math-problem/history/route.ts:14-55 | pages 1..totalPages list every submission exactly once, newest first |
| HistoryRoute.PageBeyondEnd | app/api/math-problem/history/route.ts:44-59 | a page past the last is an empty list with hasNext false, not an error |
| HistoryRoute.TwentyFiveInPagesOfTen | app/api/math-problem/history/route.ts:14-60 | 25 submissions in pages of 10: pages 1, 2 and 3 hold 10, 10 and 5 rows with the right hasNext and hasPrev, three pages in all, and an empty fourth page |
| HintRoute.Hint | app/api/math-problem/hint/route.ts:5-91 | checks in source order (400 invalid input; 404 when the problem is missing or its read fails; 400 already hinted; 404 when the user session is missing or its read fails; 400 no credits); after the checks a failed generation or first write is a 500 with nothing written; success iff every check passes, the generator answers and both writes work, and then it returns the cleaned text and applies both writes; only a failed second write leaves a changed store, with a 500 |
| HintRoute.HintedProblemRefused | app/api/math-problem/hint/route.ts:16-39 | an already-hinted problem is refused with 400 before the user session is read, even for an unknown user session |
| HintRoute.NoCreditsRefused | app/api/math-problem/hint/route.ts:41-43 | no credits left gives 400 and the store unchanged |
| HintRoute.HintMovesOneCredit | app/api/math-problem/hint/route.ts:62-81 | success raises hints_used by 1 and lowers hint_credits by 1 (staying >= 0); every other row and field is unchanged |
| HintRoute.SecondHintRefused | app/api/math-problem/hint/route.ts:26-64 | after a successful hint, any later request for the same problem is refused |
| HintRoute.HalfAppliedHint | app/api/math-problem/hint/route.ts:62-90 | a failed credit update after the problem update is a 500 with the problem marked and the credit unspent |
| HintRoute.HintPreservesConsistency | app/api/math-problem/hint/route.ts:62-81 | every outcome, including the half-applied one, keeps the store consistent |
| Text.Trim | app/api/math-problem/hint/route.ts:54 | the result is clean (no white space at either end) and is the infix of the input between its leading and trailing white space |
| Text.TrimPadded | app/api/math-problem/hint/route.ts:54 | trimming a clean text padded with white space gives it back |
| Text.TrimIdempotent | app/api/math-problem/hint/route.ts:54-58 | trimming twice is trimming once |
| Text.LeadingSpaceExact | app/api/math-problem/hint/route.ts:54 | the leading white-space run is the unique split point |
| Text.TrailingSpaceExact | app/api/math-problem/hint/route.ts:54 | the trailing white-space run is the unique split point |
| Text.SliceIndex | app/api/math-problem/hint/route.ts:58 | slice indices: negative counts from the end, clamped to 0..length |
| Text.StripFence | app/api/math-problem/hint/route.ts:57-59 | a text that starts and ends with three backticks loses three characters at each end and is re-trimmed, and overlapping short inputs become ""; otherwise it is unchanged |
| Text.CleanGenerated | app/api/math-problem/submit/route.ts:43-48 | the cleaned hint or feedback is clean and no longer than the raw text |
| Text.FenceRoundTrip | app/api/math-problem/hint/route.ts:54-59 | a fenced body comes back as the trimmed body |
| Text.UnfencedUnchanged | app/api/math-problem/hint/route.ts:54-59 | clean text without fences comes back unchanged |
| SubmitRoute.Submit | app/api/math-problem/submit/route.ts:5-76 | 400 when session_id or a numeric answer is missing; 404 for an unknown problem or a failed read; after that a failed generation is 500 "Failed to submit answer" and a failed insert is 500 "Failed to save submission"; success iff the problem is read, the generator answers and the insert works; on success, is_correct iff the answer is within 0.001, and exactly one row is appended with that verdict, the cleaned feedback and no user session; every error leaves the store unchanged |
| SubmitRoute.ToleranceExamples | app/api/math-problem/submit/route.ts:27 | a property of the `Judge` predicate alone, not of the handler: 0.0009 away is correct, 0.002 away is not, equal is correct |
| SubmitRoute.JudgeSymmetric | app/api/math-problem/submit/route.ts:27 | a property of the `Judge` predicate alone, not of the handler: swapping the two answers does not change the verdict |
| SubmitRoute.SubmitLeavesSessionsAlone | app/api/math-problem/submit/route.ts:7-58 | problems and user sessions are unchanged, the log grows by at most one row naming no user session, and the user_session_id sent has no effect |
| SubmitRoute.SubmitRecordsVerdict | app/api/math-problem/submit/route.ts:51-68 | the appended row holds the returned verdict and feedback, the problem id and the answer |
| SubmitRoute.SubmitPreservesConsistency | app/api/math-problem/submit/route.ts:51-58 | submitting keeps the store consistent |
| SubmitRoute.AnsweredButNotCounted | app/api/math-problem/submit/route.ts:7-58 | a correct answer sent with an existing user session is recorded, yet that session's counters stay at zero |
| SubmitRoute.RecordAnswer | app/api/math-problem/submit/route.ts:27 | one more attempt, one more correct iff correct, streak grown by one or reset to 0 |
| SubmitRoute.ScoredSubmit | app/api/math-problem/submit/route.ts:5-76 | the handler with scoring: the same 400, 404 and both 500s as Submit, and a named but unknown user session is 404 before the generator runs; on success the row names the user session and its counters move as RecordAnswer says |
| SubmitRoute.ScoredSubmitPreservesConsistency | app/api/math-problem/submit/route.ts:51-58 | with scoring, the counters stay equal to the tallies of the log |
| SubmitRoute.ScoredExample | app/api/math-problem/submit/route.ts:27-58 | wrong, right, right from a fresh session gives total 3, correct 2, streak 2 |
| Db.AppendTallies | app/api/math-problem/submit/route.ts:51-58 | appending a row changes the attempts, correct count and streak of the session it names, and no other session's |
| Db.NewestFirst | app/api/math-problem/history/route.ts:35-43 | the joined rows are log entries whose problem exists, with its summary, in strictly decreasing log order |
| Db.NewestFirstComplete | app/api/math-problem/history/route.ts:35-43 | with every problem present, the rows are the whole log reversed |
| Db.NewestFirstCovers | app/api/math-problem/history/route.ts:35-43 | every submission whose problem is stored appears among the rows |
| Db.UnnamedHasNoTallies | app/api/session/create/route.ts:42-44 | a user session named by no submission has zero tallies |
| ProblemRoute.NormaliseDifficulty | app/api/math-problem/route.ts:9-11 | a valid difficulty name is kept; anything else becomes medium |
| ProblemRoute.DifficultyRoundTrip | app/api/math-problem/route.ts:10-11 | naming a difficulty and normalising the name gives it back |
| ProblemRoute.NormaliseKeepsOnlyValid | app/api/math-problem/route.ts:10-11 | a name survives normalisation iff it is easy, medium or hard |
| ProblemRoute.PickTopic | app/api/math-problem/route.ts:21-32 | the topic is a catalog entry, or "" when the catalog is unreadable or empty |
| ProblemRoute.ChoosePrompt | app/api/math-problem/route.ts:36-38 | the prompt has a topic clause iff the topic is non-empty |
| ProblemRoute.TopicClauseInserted | app/api/math-problem/route.ts:37-38 | the topic prompt is the general prompt with " on the topic: " and the topic inserted before its tail |
| Text.StripJsonFence | app/api/math-problem/route.ts:47-49 | exactly "```json\n" and "\n```" are removed, only when both are present, with no trimming |
| Text.JsonFenceRoundTrip | app/api/math-problem/route.ts:47-49 | wrapping a body in the JSON fence and stripping it gives the body back |
| Text.ShortJsonFence | app/api/math-problem/route.ts:47-49 | the two fences overlap only in the 11-character text, which becomes "" |
| ProblemRoute.CreateProblem | app/api/math-problem/route.ts:7-84 | success iff the generator answers, the parsed data has a non-empty string problem_text and a numeric final_answer, and the insert works; success inserts exactly one row holding what is returned; every failure is a 500 with nothing inserted |
| ProblemRoute.CreateIgnoresClientChoices | app/api/math-problem/route.ts:9 | the topic and problem type in the body change nothing |
| ProblemRoute.CreateStoresWhatItReturns | app/api/math-problem/route.ts:65-76 | the stored difficulty and topic are the returned ones; the difficulty is the requested valid one or medium; the topic is from the catalog when the catalog is non-empty |
| ProblemRoute.BadShapeRejected | app/api/math-problem/route.ts:60-83 | generator data without a non-empty string problem_text or a numeric final_answer is a 500 and nothing is inserted |
| ProblemRoute.CreatePreservesConsistency | app/api/math-problem/route.ts:65-69 | creating a problem keeps the store consistent |
| ProblemRoute.GetProblem | app/api/math-problem/route.ts:86-113 | no sessionId is 400; an unknown id or a failed read is 404; success iff the row is read, and then the text, topic and difficulty of that row |
| ProblemRoute.GetHidesAnswer | app/api/math-problem/route.ts:95-105 | stores that differ only in a correct answer give the same GET response: the answer never leaks |
| ProblemRoute.CreateThenGet | app/api/math-problem/route.ts:65-105 | a created problem reads back through GET with the returned text, topic and difficulty |
| CreateRoute.GenerateSessionId | app/api/session/create/route.ts:4-11 | every id has five characters, each in A-Z0-9 |
| CreateRoute.GeneratedIdAccepted | app/api/session/join/route.ts:8 | every generated id passes the `length !== 5` check of the join, data and hint routes, which counts UTF-16 code units |
| CreateRoute.AlphabetIndex | app/api/session/create/route.ts:5 | the alphabet is A-Z followed by 0-9 |
| CreateRoute.DrawsRecoverable | app/api/session/create/route.ts:4-11 | the draws can be read back from the id, so different draws give different ids |
| CreateRoute.CreateSession | app/api/session/create/route.ts:13-60 | 1 to 10 attempts; every earlier candidate collided; success returns the first free candidate and inserts it with zero counters; failure is a 500 with nothing inserted, and happens iff the insert fails or all 10 candidates collide |
| CreateRoute.CreatePreservesConsistency | app/api/session/create/route.ts:38-45 | inserting a fresh id with zero counters keeps the store consistent |
| JoinRoute.Join | app/api/session/join/route.ts:4-48 | an id that is not five characters is 400; unknown or failed lookup is 404 with no update; success iff valid and found; the reply is the row as read, before the access time moves, with no hint fields; a failed update leaves the reply the same |
| JoinRoute.JoinTouchesOnlyAccessTime | app/api/session/join/route.ts:24-27 | only last_accessed_at of the joined row can change |
| JoinRoute.RejoinReportsPreviousAccess | app/api/session/join/route.ts:15-40 | a second join reports the first join's time and the same counters |
| JoinRoute.JoinPreservesConsistency | app/api/session/join/route.ts:24-27 | joining keeps the store consistent |
| DataRoute.LinkedTo | app/api/session/data/route.ts:41 | the filtered rows are exactly those naming the id, in their order |
| DataRoute.Take | app/api/session/data/route.ts:43 | the limit keeps the first min(n, length) rows |
| DataRoute.Recent | app/api/session/data/route.ts:25-43 | at most 10 rows, newest first, each naming the id and equal to its log entry |
| DataRoute.GetSessionData | app/api/session/data/route.ts:4-64 | an id that is not five characters is 400; unknown or failed lookup is 404; a failed query is 500; success iff none of these; the reply holds the requested id, the row's columns and exactly `Recent` (the linked rows of the newest-first join, at most ten, all newer than any left out); the handler writes nothing |
| DataRoute.RecentAreNewest | app/api/session/data/route.ts:41-43 | a linked submission missing from the recent list is older than all 10 rows shown |
| DataRoute.UnlinkedMeansNoRecent | app/api/session/data/route.ts:41 | with no submission naming a user session, the recent list is empty |
| ProblemHook.RandomProblemType | lib/hooks/useProblem.ts:49-52 | the draw picks one of the four operations |
| ProblemHook.EachTypeDrawable | lib/hooks/useProblem.ts:49-52 | every operation is drawn by exactly one index |
| ProblemHook.ResolveType | lib/hooks/useProblem.ts:119 | the selected operation, or for "random" one of the four |
| ProblemHook.ResolveTopic | lib/hooks/useProblem.ts:55-120 | the selected topic, or for "random" "" on an empty list, otherwise a list member |
| ProblemHook.GenerateRequestOf | lib/hooks/useProblem.ts:122-130 | the body carries the selected difficulty and the resolved type and topic |
| ProblemHook.OrNotAvailable | lib/hooks/useProblem.ts:133 | an empty difficulty shows as "N/A", any other is kept |
| ProblemHook.GenerateProblem | lib/hooks/useProblem.ts:108-162 | the saved entry is dropped first; success shows the new problem and saves its id with the resolved type, topic and time; failure shows the error text with no saved entry; other keys are untouched |
| ProblemHook.SavedChoicesResolved | lib/hooks/useProblem.ts:142-152 | the saved type is one of the four operations, never "random"; the topic is "random" only if the list contains that word |
| ProblemHook.RestoreTarget | lib/hooks/useProblem.ts:64-68 | the restore fetch happens iff a non-empty entry parses to a non-null value with a truthy id whose timestamp is missing or at most a day old |
| ProblemHook.LoadSavedProblem | lib/hooks/useProblem.ts:60-106 | nothing saved is a no-op; text `JSON.parse` rejects, or `null`, is removed with a warning and the display cleared; a stale or id-less value is removed silently; a rejected fetch removes it; a fetched problem is shown; a network failure removes it, warns and clears the display |
| ProblemHook.NonRecordRemovedSilently | lib/hooks/useProblem.ts:64-89 | JSON text that is not an object, such as 123, is removed without a toast and the state is unchanged |
| ProblemHook.ExpiredNeverRestored | lib/hooks/useProblem.ts:67-90 | a record older than 86,400,000 ms is removed and the state is unchanged, whatever the server says |
| ProblemHook.DayOldStillFresh | lib/hooks/useProblem.ts:67 | exactly one day old is restored, one millisecond later is not |
| ProblemHook.SubmitRequestOf | lib/hooks/useProblem.ts:166-186 | a request is sent iff the answer, problem id and user session id are all present; it carries all three |
| ProblemHook.SubmitAnswer | lib/hooks/useProblem.ts:164-212 | a no-op without answer or ids; otherwise the display is cleared whatever the outcome, and the shown difficulty and the three selectors are never touched; success shows the verdict, clears the answer, drops the saved entry and asks for a refresh; failure shows the error and keeps answer and entry |
| ProblemHook.FailedSubmitKeepsSavedProblem | lib/hooks/useProblem.ts:171-208 | a failed submit hides the problem but keeps the typed answer and the saved entry |
| ProblemHook.HintFailure | lib/hooks/useProblem.ts:226-238 | the toast is the server's error or the rejection's message, with a fixed fallback when empty |
| ProblemHook.GetHint | lib/hooks/useProblem.ts:214-242 | a no-op without ids; success shows the hint and asks for a refresh; failure shows only the error toast whose text is `HintFailure` of the reply (the server's error, the network error's message, or the fallback) |
| ProblemHook.HintRefusalShown | lib/hooks/useProblem.ts:226-238 | a refusal's error message reaches the user unchanged |
| ProblemHook.ResetProblemState | lib/hooks/useProblem.ts:244-262 | every listed field returns to its empty value, the modal closes and the saved entry is removed; the problem id and the selectors survive |
| ProblemHook.ResetIdempotent | lib/hooks/useProblem.ts:244-262 | resetting twice is resetting once |
| ProblemHook.ResetMatchesMount | lib/hooks/useProblem.ts:244-262 | after a reset the fields equal the mount state, apart from the problem id and the selectors |
| Client.Remove | lib/hooks/useProblem.ts:86 | removing a key drops it and keeps every other entry |
| Client.DisplayTopic | lib/hooks/useProblem.ts:81 | an empty topic shows as ""; otherwise its mapped display name when truthy, else the key |
| SessionHook.CountersOf | lib/hooks/useSession.ts:40-46 | the shown counters and hint values are those of the data reply |
| SessionHook.RefreshSessionData | lib/hooks/useSession.ts:33-51 | a no-op without a current id; only an ok reply overwrites the counters |
| SessionHook.RefreshIdempotent | lib/hooks/useSession.ts:33-51 | refreshing twice with the same reply is refreshing once |
| SessionHook.SavedSession | lib/hooks/useSession.ts:58-59 | the saved id is used iff it is a non-empty text entry |
| SessionHook.LoadSession | lib/hooks/useSession.ts:53-91 | a saved id the server accepts becomes current; one it rejects is removed; a network failure removes it, warns and clears the session |
| SessionHook.CreateNewSession | lib/hooks/useSession.ts:93-149 | success makes the new id current and saved; the counters are the data reply's or the fallback 0, 0, 0, 3, 5; failure only shows an error |
| SessionHook.FallbackMatchesNewRow | lib/hooks/useSession.ts:115-134 | the fallback equals what a data reply for a freshly created session would show, given the assumed hint defaults (see Left out) |
| SessionHook.EndSession | lib/hooks/useSession.ts:151-161 | a no-op without a session; otherwise it clears the saved id, current id and counters, and asks for the problem reset |
| SessionHook.EndedSessionNotRestored | lib/hooks/useSession.ts:151-161 | after ending, the next load restores nothing |
| SessionHook.JoinFailure | lib/hooks/useSession.ts:181-224 | a 404 maps to the not-found message; anything else maps to the generic one |
| SessionHook.JoinSession | lib/hooks/useSession.ts:163-228 | a no-op unless the input has five characters; joining the current session sends nothing and clears the input; success sets the current and saved id, clears the input and holds no hint values; failure changes nothing but shows why |
| SessionHook.JoinedSessionRestored | lib/hooks/useSession.ts:190-198 | after a join the saved id is the joined one, so a reload asks for it again |
| HistoryHook.HistoryRequestOf | lib/hooks/useHistory.ts:38-43 | a request is sent iff a user session id is given, always with limit 10 and the given page |
| HistoryHook.FetchHistory | lib/hooks/useHistory.ts:37-56 | without a user session id nothing changes; success replaces rows, page and page count with the server's; failure leaves them and shows an error |
| HistoryHook.OpenHistory | lib/hooks/useHistory.ts:58-61 | opening sets the open flag and fetches page 1 |
| HistoryHook.CloseHistory | lib/hooks/useHistory.ts:63-67 | closing clears the flag and rows and sets page 1, leaving the page count |
| HistoryHook.OpenThenClose | lib/hooks/useHistory.ts:58-67 | closing after opening gives the initial state with the last page count |
| HistoryHook.OpenShowsFirstPage | lib/hooks/useHistory.ts:58-61 | opening shows the server's first page of the whole log, whoever asks |
| HistoryHook.PagerNeverMoves | lib/hooks/useHistory.ts:37-38 | the modal's pager, which passes only a page number, changes nothing for any page or reply |
| HistoryHook.PagerShowsRequestedPage | lib/hooks/useHistory.ts:37-49 | a pager that passes the user session id shows exactly the server's rows for the requested page |
| App.FollowUp | app/page.tsx:35 | a refresh step updates the session hook from the data reply; no other step touches it |
| App.SubmitAnswer | app/page.tsx:35-111 | a successful page submit refreshes the counters; a failed one leaves them |
| App.GetHint | app/page.tsx:35-117 | a successful hint refreshes the counters and shows the hint; a failed one changes neither hook |
| App.EndSession | app/page.tsx:31-71 | ending clears the session and both saved keys, and resets the problem hook |
| App.EndedPageRestoresNothing | app/page.tsx:31-71 | after ending, a reload restores neither the session nor the problem |
| App.ScoreNeverMoves | app/page.tsx:35-111 | after a successful submit and its refresh, the counters shown are those before the submit |
| App.ScoredSubmitCounts | app/page.tsx:35-111 | with scoring, the refreshed page shows one more attempt and the grown or reset streak |
| App.HintSpendsShownCredit | app/page.tsx:35-117 | after a successful hint, the page shows one credit fewer |
| App.GeneratedProblemSurvivesReload | lib/hooks/useProblem.ts:60-152 | reloading within a day shows the generated problem again: same id, text, topic and difficulty |
| App.CreatedSessionJoinable | app/api/session/create/route.ts:38-45 | a created session can be joined elsewhere; it shows zero counters and becomes current and saved |

## Left out

- Environment-variable checks (`GOOGLE_API_KEY` and the Supabase URL and key) are left out. They only add a 500 when the deployment is misconfigured.
- Prompt wording for hints and feedback is left out. It is string building handed to the generator; only the problem prompt's choice of topic clause is modelled.
- A body that `request.json()` rejects is left out. That is the catch-all 500 of every POST handler.
- The error `details` field is left out.
- `parseInt` of `page` and `limit` is left out. Both are integers in the model, so the NaN values that slip past validation are not modelled.
- Floating point is idealised. Answers and the 0.001 tolerance are reals, and `parseFloat` is an input (`None` for NaN).
- `Math.random` is replaced by supplied draw indices. `fs` loading of the topic catalog is the `catalog` parameter (`None` when unreadable).
- Concurrency is left out. This covers the read-then-write race on hint credits, the check-then-insert race on session ids, and the async interleaving of hook updates: each operation runs to completion.
- The in-flight flags `isGenerating`, `isSubmitting`, `isLoadingHint`, `isInitialLoading`, `isCreatingSession`, `isJoiningSession` and `isLoadingHistory` are left out. Each is false once its operation has finished.
- The clipboard write after a join, and exceptions thrown by `localStorage`, are left out.
- The client's `final_answer: 0` placeholder is left out, as is the `problem_type` read of a response that never carries one. The shown type is always "".
- The `problem_type` database column is left out, because no handler writes it.
- `useToast`, `useTopics` and all rendering components are left out. The page and the history modal are used only for how they wire the hooks.
- SessionHook.FallbackMatchesNewRow: a new session row's hint_credits 3 and hint_cap 5 are an assumption taken from the client's fallback at lib/hooks/useSession.ts:116-133. The create handler (app/api/session/create/route.ts:38-45) does not write them, and the table's column defaults are not in the repository's code, so this lemma and the new row in CreateRoute.CreateSession's contract rest on that assumption.
- HintRoute.Hint: a `problem_session_id` that is truthy but not a string (a number, say) is treated as missing, so it is a 400 in the model. The source's check at app/api/math-problem/hint/route.ts:8 lets it through to the lookup, which answers 404, because request fields are modelled as optional strings.
- SubmitRoute.Submit: a `session_id` that is truthy but not a string is likewise treated as missing, a 400 where app/api/math-problem/submit/route.ts:8 passes it on and the lookup answers 404. ScoredSubmit shares this.
- ProblemRoute.CreateProblem: a `problem_text` that is truthy but not a string (a number, say) is treated as missing, so it is a 500 in the model. The source stores and returns it, and how the database turns it into text is not part of this model.
- An object saved under `current_math_problem` whose `sessionId` is truthy but not a string is treated as having no id.
- CreateRoute.CreateSession: a lookup error of the existence check is not modelled separately. The code treats it like "no such row", which the model's `id !in store.users` covers only when the row is really absent.
- DataRoute.GetSessionData: `created_at` and `last_accessed_at` are integers in milliseconds, not ISO strings.
- Db.NewestFirst: `created_at` order is modelled by log position. Rows with equal timestamps are therefore always ordered newest-inserted first.

## Findings

| source | as written | input that shows it | evidently intended | confidence | as-written member | corrected member |
|---|---|---|---|---|---|---|
| lib/hooks/useHistory.ts:37-38 | the history modal's pager calls `fetchHistory(page)` without the user session id (app/page.tsx:129, components/modals/HistoryModal.tsx:187-198), and `fetchHistory` returns at once without one | open the history with 25 submissions and press "next page" | the pager passes the current user session id, so the next page is fetched | not executed; high | HistoryHook.PagerNeverMoves | HistoryHook.PagerShowsRequestedPage |
| app/api/math-problem/submit/route.ts:7,51-58 | the handler ignores the `user_session_id` the client sends (lib/hooks/useProblem.ts:184), so no submission is linked and no counter ever moves | a correct answer with user session "ABCDE" at zero counters: the answer is recorded, and the counters stay 0 | the row names the user session, whose counters are updated: total +1, correct +1 iff correct, streak +1 or reset | not executed; high | SubmitRoute.AnsweredButNotCounted | SubmitRoute.ScoredSubmitPreservesConsistency |
