/** `POST /api/math-problem/submit`: judge an answer against the stored
    problem, get feedback from the content generator, and append one
    submission. The handler reads only `session_id` and `user_answer` from the
    body and never touches a user session. */
module SubmitRoute {
  import opened Common
  import opened Db
  import opened Text

  /** The JSON body; `userAnswer` is `None` unless `user_answer` is a number.
      `userSessionId` is what the client sends; the handler ignores it. */
  datatype SubmitRequest = SubmitRequest(sessionId: Option<string>, userSessionId: Option<string>, userAnswer: Option<real>)

  datatype Verdict = Verdict(isCorrect: bool, feedback: string)

  /** Database errors: the problem read (answered like a missing row) and the insert. */
  datatype SubmitFaults = SubmitFaults(readFails: bool, insertFails: bool)

  const NoFaults: SubmitFaults := SubmitFaults(false, false)

  /** The floating-point allowance of the comparison. */
  const Tolerance: real := 0.001

  function Abs(x: real): real {
    if x < 0.0 then -x else x
  }

  /** `Math.abs(user_answer - correct_answer) < 0.001`. */
  predicate Judge(userAnswer: real, correctAnswer: real) {
    Abs(userAnswer - correctAnswer) < Tolerance
  }

  function Submit(store: Store, req: SubmitRequest, gen: Generation, faults: SubmitFaults): (h: Handled<Verdict>)
    ensures !(Present(req.sessionId) && req.userAnswer.Some?) ==>
              h == Handled(store, Error(BadRequest, "Invalid input"))
    ensures Present(req.sessionId) && req.userAnswer.Some? && (faults.readFails || req.sessionId.value !in store.problems) ==>
              h == Handled(store, Error(NotFound, "Problem session not found"))
    ensures Present(req.sessionId) && req.userAnswer.Some? && !faults.readFails && req.sessionId.value in store.problems ==>
              && (gen.GenerationFailed? ==> h == Handled(store, Error(ServerError, "Failed to submit answer")))
              && (gen.Generated? && faults.insertFails ==> h == Handled(store, Error(ServerError, "Failed to save submission")))
    ensures h.response.Error? ==> h.store == store
    ensures h.response.Ok? ==>
              var pid, answer := req.sessionId.value, req.userAnswer.value;
              && pid in store.problems
              && (h.response.body.isCorrect <==> Judge(answer, store.problems[pid].correctAnswer))
              && gen.Generated? && h.response.body.feedback == CleanGenerated(gen.text)
              && h.store == store.(submissions := store.submissions
                   + [Submission(pid, None, answer, h.response.body.isCorrect, h.response.body.feedback)])
    ensures h.response.Ok? <==>
              Present(req.sessionId) && req.userAnswer.Some? && req.sessionId.value in store.problems
              && !faults.readFails && gen.Generated? && !faults.insertFails
  {
    if !(Present(req.sessionId) && req.userAnswer.Some?) then Handled(store, Error(BadRequest, "Invalid input"))
    else
      var pid, answer := req.sessionId.value, req.userAnswer.value;
      if faults.readFails || pid !in store.problems then Handled(store, Error(NotFound, "Problem session not found"))
      else
        var isCorrect := Judge(answer, store.problems[pid].correctAnswer);
        if gen.GenerationFailed? then Handled(store, Error(ServerError, "Failed to submit answer"))
        else
          var feedback := CleanGenerated(gen.text);
          if faults.insertFails then Handled(store, Error(ServerError, "Failed to save submission"))
          else
            Handled(store.(submissions := store.submissions + [Submission(pid, None, answer, isCorrect, feedback)]),
                    Ok(Verdict(isCorrect, feedback)))
  }

  /** An answer within a thousandth of the stored one is judged correct, one
      two thousandths away is not. */
  lemma ToleranceExamples(correct: real)
    ensures Judge(correct + 0.0009, correct)
    ensures !Judge(correct + 0.002, correct)
    ensures Judge(correct, correct)
  {
  }

  /** The judgement is symmetric: it depends only on the distance of the two numbers. */
  lemma JudgeSymmetric(a: real, b: real)
    ensures Judge(a, b) <==> Judge(b, a)
  {
  }

  /** Submitting never changes the problems or the user sessions, and the
      `user_session_id` the client sends does not reach the store: the
      appended row carries none and no counter moves. */
  lemma SubmitLeavesSessionsAlone(store: Store, req: SubmitRequest, gen: Generation, faults: SubmitFaults,
                                  other: Option<string>)
    ensures var h := Submit(store, req, gen, faults);
            && h.store.problems == store.problems
            && h.store.users == store.users
            && (|h.store.submissions| == |store.submissions| || |h.store.submissions| == |store.submissions| + 1)
            && h.store.submissions[..|store.submissions|] == store.submissions
            && (forall k :: |store.submissions| <= k < |h.store.submissions| ==> h.store.submissions[k].userSessionId.None?)
    ensures Submit(store, req, gen, faults) == Submit(store, req.(userSessionId := other), gen, faults)
  {
  }

  /** The appended row records exactly the verdict and feedback returned. */
  lemma SubmitRecordsVerdict(store: Store, req: SubmitRequest, gen: Generation)
    requires Present(req.sessionId) && req.userAnswer.Some? && req.sessionId.value in store.problems
    requires gen.Generated?
    ensures var h := Submit(store, req, gen, NoFaults);
            && h.response.Ok?
            && |h.store.submissions| == |store.submissions| + 1
            && var row := h.store.submissions[|store.submissions|];
               row.isCorrect == h.response.body.isCorrect && row.feedbackText == h.response.body.feedback
               && row.problemId == req.sessionId.value && row.userAnswer == req.userAnswer.value
  {
  }

  /** Submissions keep the store consistent: the new row points at a stored
      problem and, naming no user session, leaves every tally as it was. */
  lemma SubmitPreservesConsistency(store: Store, req: SubmitRequest, gen: Generation, faults: SubmitFaults)
    requires Consistent(store)
    ensures Consistent(Submit(store, req, gen, faults).store)
  {
    var h := Submit(store, req, gen, faults);
    if h.response.Ok? {
      var row := h.store.submissions[|store.submissions|];
      assert h.store == Store(store.problems, store.users, store.submissions + [row]);
      AppendScored(store, row, store.users);
    }
  }

  // ---- Scoring ----
  // The handler above never reads the user session it is sent, so no
  // counter ever moves. Below: one concrete run showing that, and the
  // handler with the scoring the data model's counters are defined by.

  /** A correct answer, sent with an existing user session, leaves that
      session's counters at zero although one submission was answered. */
  lemma AnsweredButNotCounted()
    ensures var store := Store(map["p" := ProblemSession("1 + 1", 2.0, Easy, "", 0)],
                               map["ABCDE" := UserSession(0, 0, 0, DefaultHintCredits, DefaultHintCap, 0, 0)], []);
            var h := Submit(store, SubmitRequest(Some("p"), Some("ABCDE"), Some(2.0)), Generated("Well done"), NoFaults);
            && h.response == Ok(Verdict(true, "Well done"))
            && |h.store.submissions| == 1
            && h.store.users["ABCDE"].totalCount == 0 && h.store.users["ABCDE"].correctCount == 0
            && h.store.users["ABCDE"].streak == 0
  {
    WellDoneIsClean();
  }

  lemma WellDoneIsClean()
    ensures CleanGenerated("Well done") == "Well done"
  {
    assert Clean("Well done");
    TrimPadded("", "Well done", "");
    UnfencedUnchanged("Well done");
  }

  /** One answer counted: one more attempt, one more correct one when it is
      right, and the streak grown by one or reset. */
  function RecordAnswer(u: UserSession, isCorrect: bool): (u': UserSession)
    ensures u'.totalCount == u.totalCount + 1
    ensures u'.correctCount == u.correctCount + (if isCorrect then 1 else 0)
    ensures u'.streak == (if isCorrect then u.streak + 1 else 0)
    ensures u' == u.(totalCount := u'.totalCount, correctCount := u'.correctCount, streak := u'.streak)
  {
    u.(totalCount := u.totalCount + 1,
       correctCount := if isCorrect then u.correctCount + 1 else u.correctCount,
       streak := if isCorrect then u.streak + 1 else 0)
  }

  /** Submit with scoring: a truthy `user_session_id` must name a stored
      session, the row carries it, and the session's counters record the answer. */
  function ScoredSubmit(store: Store, req: SubmitRequest, gen: Generation, faults: SubmitFaults): (h: Handled<Verdict>)
    ensures !(Present(req.sessionId) && req.userAnswer.Some?) ==>
              h == Handled(store, Error(BadRequest, "Invalid input"))
    ensures Present(req.sessionId) && req.userAnswer.Some? && (faults.readFails || req.sessionId.value !in store.problems) ==>
              h == Handled(store, Error(NotFound, "Problem session not found"))
    ensures Present(req.sessionId) && req.userAnswer.Some? && !faults.readFails && req.sessionId.value in store.problems ==>
              && (Present(req.userSessionId) && req.userSessionId.value !in store.users ==>
                    h == Handled(store, Error(NotFound, "User session not found")))
              && (!(Present(req.userSessionId) && req.userSessionId.value !in store.users) ==>
                    && (gen.GenerationFailed? ==> h == Handled(store, Error(ServerError, "Failed to submit answer")))
                    && (gen.Generated? && faults.insertFails ==> h == Handled(store, Error(ServerError, "Failed to save submission"))))
    ensures h.response.Error? ==> h.store == store
    ensures h.response.Ok? <==>
              Present(req.sessionId) && req.userAnswer.Some? && req.sessionId.value in store.problems
              && !faults.readFails && (Present(req.userSessionId) ==> req.userSessionId.value in store.users)
              && gen.Generated? && !faults.insertFails
    ensures h.response.Ok? ==>
              var pid, answer := req.sessionId.value, req.userAnswer.value;
              var link := if Present(req.userSessionId) then req.userSessionId else None;
              && (h.response.body.isCorrect <==> Judge(answer, store.problems[pid].correctAnswer))
              && h.response.body.feedback == CleanGenerated(gen.text)
              && h.store.problems == store.problems
              && h.store.submissions == store.submissions
                   + [Submission(pid, link, answer, h.response.body.isCorrect, h.response.body.feedback)]
              && h.store.users == (if link.None? then store.users
                                   else store.users[link.value := RecordAnswer(store.users[link.value], h.response.body.isCorrect)])
  {
    if !(Present(req.sessionId) && req.userAnswer.Some?) then Handled(store, Error(BadRequest, "Invalid input"))
    else
      var pid, answer := req.sessionId.value, req.userAnswer.value;
      if faults.readFails || pid !in store.problems then Handled(store, Error(NotFound, "Problem session not found"))
      else if Present(req.userSessionId) && req.userSessionId.value !in store.users then
        Handled(store, Error(NotFound, "User session not found"))
      else
        var isCorrect := Judge(answer, store.problems[pid].correctAnswer);
        if gen.GenerationFailed? then Handled(store, Error(ServerError, "Failed to submit answer"))
        else
          var feedback := CleanGenerated(gen.text);
          if faults.insertFails then Handled(store, Error(ServerError, "Failed to save submission"))
          else
            var link := if Present(req.userSessionId) then req.userSessionId else None;
            var users := if link.None? then store.users
                         else store.users[link.value := RecordAnswer(store.users[link.value], isCorrect)];
            Handled(Store(store.problems, users, store.submissions + [Submission(pid, link, answer, isCorrect, feedback)]),
                    Ok(Verdict(isCorrect, feedback)))
  }

  /** Appending a row and recording its answer on the session it names
      keeps the store consistent. */
  lemma AppendScored(store: Store, row: Submission, users: map<string, UserSession>)
    requires Consistent(store)
    requires row.problemId in store.problems
    requires row.userSessionId.None? ==> users == store.users
    requires row.userSessionId.Some? ==>
               && row.userSessionId.value in store.users
               && users == store.users[row.userSessionId.value := RecordAnswer(store.users[row.userSessionId.value], row.isCorrect)]
    ensures Consistent(Store(store.problems, users, store.submissions + [row]))
  {
    var s' := Store(store.problems, users, store.submissions + [row]);
    assert users.Keys == store.users.Keys;
    forall id | id in users
      ensures users[id].totalCount == AttemptsOf(s'.submissions, id)
      ensures users[id].correctCount == CorrectOf(s'.submissions, id)
      ensures users[id].streak == StreakOf(s'.submissions, id)
      ensures 0 <= users[id].hintCredits <= users[id].hintCap
    {
      AppendTallies(store.submissions, row, id);
    }
    assert forall k :: 0 <= k < |store.submissions| ==> s'.submissions[k] == store.submissions[k];
  }

  /** Scored submissions keep the store consistent: every counter stays the
      tally of its session's submissions. */
  lemma ScoredSubmitPreservesConsistency(store: Store, req: SubmitRequest, gen: Generation, faults: SubmitFaults)
    requires Consistent(store)
    ensures Consistent(ScoredSubmit(store, req, gen, faults).store)
  {
    var h := ScoredSubmit(store, req, gen, faults);
    if h.response.Ok? {
      var row := h.store.submissions[|store.submissions|];
      assert h.store == Store(store.problems, h.store.users, store.submissions + [row]);
      AppendScored(store, row, h.store.users);
    }
  }

  /** From a fresh session, wrong, right, right gives three attempts, two
      correct and a streak of two. */
  lemma ScoredExample(store: Store, uid: string, pid: string, gen: Generation)
    requires JsLength(uid) == 5 && uid in store.users && pid != "" && pid in store.problems
    requires gen.Generated?
    requires store.users[uid].totalCount == 0 && store.users[uid].correctCount == 0 && store.users[uid].streak == 0
    ensures var ca := store.problems[pid].correctAnswer;
            var s1 := ScoredSubmit(store, SubmitRequest(Some(pid), Some(uid), Some(ca + 1.0)), gen, NoFaults).store;
            var s2 := ScoredSubmit(s1, SubmitRequest(Some(pid), Some(uid), Some(ca)), gen, NoFaults).store;
            var s3 := ScoredSubmit(s2, SubmitRequest(Some(pid), Some(uid), Some(ca)), gen, NoFaults).store;
            && s3.users[uid].totalCount == 3 && s3.users[uid].correctCount == 2 && s3.users[uid].streak == 2
  {
    var ca := store.problems[pid].correctAnswer;
    assert !Judge(ca + 1.0, ca);
    assert Judge(ca, ca);
  }
}
