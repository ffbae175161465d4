/** `POST /api/math-problem/hint`: spend one hint credit of a user session on
    one hint for a problem, at most one hint per problem. */
module HintRoute {
  import opened Common
  import opened Db
  import opened Text

  datatype HintRequest = HintRequest(problemSessionId: Option<string>, userSessionId: Option<string>)

  /** Database errors, in the order the handler meets them: the two reads
      (answered like a missing row) and the two updates. */
  datatype HintFaults = HintFaults(problemReadFails: bool, userReadFails: bool,
                                   problemUpdateFails: bool, userUpdateFails: bool)

  const NoFaults: HintFaults := HintFaults(false, false, false, false)

  /** The request shape the handler accepts: a truthy problem id and a
      five-character user-session id. */
  predicate ValidHintRequest(req: HintRequest) {
    Present(req.problemSessionId) && FiveChars(req.userSessionId)
  }

  /** The problem row after the first write: one more hint used. */
  function MarkHinted(s: Store, pid: string): Store
    requires pid in s.problems
  {
    s.(problems := s.problems[pid := s.problems[pid].(hintsUsed := s.problems[pid].hintsUsed + 1)])
  }

  /** The user row after the second write: one credit fewer. */
  function SpendCredit(s: Store, uid: string): Store
    requires uid in s.users
  {
    s.(users := s.users[uid := s.users[uid].(hintCredits := s.users[uid].hintCredits - 1)])
  }

  /** The problem row is read: it exists and the read did not fail. */
  predicate ProblemFound(store: Store, req: HintRequest, faults: HintFaults)
    requires ValidHintRequest(req)
  {
    !faults.problemReadFails && req.problemSessionId.value in store.problems
  }

  /** The user-session row is read: it exists and the read did not fail. */
  predicate UserFound(store: Store, req: HintRequest, faults: HintFaults)
    requires ValidHintRequest(req)
  {
    !faults.userReadFails && req.userSessionId.value in store.users
  }

  /** Every check before generation passes: the problem has no hint yet and
      the user session has a credit left. */
  predicate HintAllowed(store: Store, req: HintRequest, faults: HintFaults) {
    && ValidHintRequest(req)
    && ProblemFound(store, req, faults) && store.problems[req.problemSessionId.value].hintsUsed < 1
    && UserFound(store, req, faults) && store.users[req.userSessionId.value].hintCredits > 0
  }

  function Hint(store: Store, req: HintRequest, gen: Generation, faults: HintFaults): (h: Handled<string>)
    // Validation comes first and touches nothing.
    ensures !ValidHintRequest(req) ==> h == Handled(store, Error(BadRequest, "Invalid input"))
    // The problem is looked up and its hint flag checked before the user session is read.
    ensures ValidHintRequest(req) && !ProblemFound(store, req, faults) ==>
              h == Handled(store, Error(NotFound, "Problem session not found"))
    ensures ValidHintRequest(req) && ProblemFound(store, req, faults)
            && store.problems[req.problemSessionId.value].hintsUsed >= 1 ==>
              h == Handled(store, Error(BadRequest, "Hint already used for this problem"))
    ensures ValidHintRequest(req) && ProblemFound(store, req, faults)
            && store.problems[req.problemSessionId.value].hintsUsed < 1 && !UserFound(store, req, faults) ==>
              h == Handled(store, Error(NotFound, "User session not found"))
    ensures ValidHintRequest(req) && ProblemFound(store, req, faults)
            && store.problems[req.problemSessionId.value].hintsUsed < 1 && UserFound(store, req, faults)
            && store.users[req.userSessionId.value].hintCredits <= 0 ==>
              h == Handled(store, Error(BadRequest, "No hint credits remaining"))
    // Once the checks pass, a failed generation or a failed first update is a 500 that writes nothing.
    ensures HintAllowed(store, req, faults) && (gen.GenerationFailed? || faults.problemUpdateFails) ==>
              h == Handled(store, Error(ServerError, "Failed to generate hint"))
    ensures h.response.Ok? <==>
              HintAllowed(store, req, faults) && gen.Generated? && !faults.problemUpdateFails && !faults.userUpdateFails
    ensures h.response.Ok? ==>
              var pid, uid := req.problemSessionId.value, req.userSessionId.value;
              && h.response.body == CleanGenerated(gen.text)
              && h.store == SpendCredit(MarkHinted(store, pid), uid)
    // Any rejection before the first write leaves the store as it was.
    ensures h.response.Error? && h.response.status != ServerError ==> h.store == store
    // The one half-applied outcome: the problem is marked, the credit is not spent.
    ensures h.store != store && h.response.Error? ==>
              && h.response == Error(ServerError, "Failed to generate hint")
              && h.store == MarkHinted(store, req.problemSessionId.value)
              && faults.userUpdateFails
  {
    if !ValidHintRequest(req) then Handled(store, Error(BadRequest, "Invalid input"))
    else
      var pid, uid := req.problemSessionId.value, req.userSessionId.value;
      if faults.problemReadFails || pid !in store.problems then Handled(store, Error(NotFound, "Problem session not found"))
      else if store.problems[pid].hintsUsed >= 1 then
        Handled(store, Error(BadRequest, "Hint already used for this problem"))
      else if faults.userReadFails || uid !in store.users then Handled(store, Error(NotFound, "User session not found"))
      else if store.users[uid].hintCredits <= 0 then
        Handled(store, Error(BadRequest, "No hint credits remaining"))
      else if gen.GenerationFailed? then Handled(store, Error(ServerError, "Failed to generate hint"))
      else
        var hint := CleanGenerated(gen.text);
        if faults.problemUpdateFails then Handled(store, Error(ServerError, "Failed to generate hint"))
        else
          var marked := MarkHinted(store, pid);
          if faults.userUpdateFails then Handled(marked, Error(ServerError, "Failed to generate hint"))
          else Handled(SpendCredit(marked, uid), Ok(hint))
  }

  /** An already-hinted problem is refused whatever the credits, and even when
      the user session does not exist. */
  lemma HintedProblemRefused(store: Store, req: HintRequest, gen: Generation, faults: HintFaults)
    requires ValidHintRequest(req) && ProblemFound(store, req, faults)
    requires store.problems[req.problemSessionId.value].hintsUsed >= 1
    ensures Hint(store, req, gen, faults).response == Error(BadRequest, "Hint already used for this problem")
    ensures Hint(store, req, gen, faults).store == store
  {
  }

  /** With no credits left the request is refused and nothing changes. */
  lemma NoCreditsRefused(store: Store, req: HintRequest, gen: Generation, faults: HintFaults)
    requires ValidHintRequest(req) && ProblemFound(store, req, faults) && UserFound(store, req, faults)
    requires store.problems[req.problemSessionId.value].hintsUsed < 1
    requires store.users[req.userSessionId.value].hintCredits <= 0
    ensures Hint(store, req, gen, faults) == Handled(store, Error(BadRequest, "No hint credits remaining"))
  {
  }

  /** A successful hint moves exactly one unit: `hints_used` up by one on the
      problem, `hint_credits` down by one on the user session (so it stays
      non-negative); every other row and field is as before. */
  lemma HintMovesOneCredit(store: Store, req: HintRequest, gen: Generation, faults: HintFaults)
    requires Hint(store, req, gen, faults).response.Ok?
    ensures var s' := Hint(store, req, gen, faults).store;
            var pid, uid := req.problemSessionId.value, req.userSessionId.value;
            && s'.problems.Keys == store.problems.Keys && s'.users.Keys == store.users.Keys
            && s'.submissions == store.submissions
            && s'.problems[pid].hintsUsed == store.problems[pid].hintsUsed + 1
            && s'.problems[pid] == store.problems[pid].(hintsUsed := s'.problems[pid].hintsUsed)
            && s'.users[uid].hintCredits == store.users[uid].hintCredits - 1
            && s'.users[uid].hintCredits >= 0
            && s'.users[uid] == store.users[uid].(hintCredits := s'.users[uid].hintCredits)
            && (forall p :: p in store.problems && p != pid ==> s'.problems[p] == store.problems[p])
            && (forall u :: u in store.users && u != uid ==> s'.users[u] == store.users[u])
  {
  }

  /** After one successful hint, every further hint request for the same
      problem is refused, whatever the user session, generator or faults
      (given the consistent store's non-negative `hints_used`). */
  lemma SecondHintRefused(store: Store, req: HintRequest, gen: Generation, faults: HintFaults,
                          req2: HintRequest, gen2: Generation, faults2: HintFaults)
    requires Consistent(store)
    requires Hint(store, req, gen, faults).response.Ok?
    requires ValidHintRequest(req2) && req2.problemSessionId == req.problemSessionId
    ensures var s' := Hint(store, req, gen, faults).store;
            var h2 := Hint(s', req2, gen2, faults2);
            && h2.store == s' && h2.response.Error?
            && (!faults2.problemReadFails ==> h2.response == Error(BadRequest, "Hint already used for this problem"))
  {
    var pid := req.problemSessionId.value;
    assert Hint(store, req, gen, faults).store.problems[pid].hintsUsed == store.problems[pid].hintsUsed + 1;
  }

  /** A failed credit update after a successful problem update leaves the
      problem marked and the credit unspent, answered with 500. */
  lemma HalfAppliedHint(store: Store, req: HintRequest, text: string)
    requires ValidHintRequest(req)
    requires req.problemSessionId.value in store.problems
    requires store.problems[req.problemSessionId.value].hintsUsed < 1
    requires req.userSessionId.value in store.users
    requires store.users[req.userSessionId.value].hintCredits > 0
    ensures var h := Hint(store, req, Generated(text), HintFaults(false, false, false, true));
            && h.response == Error(ServerError, "Failed to generate hint")
            && h.store.problems[req.problemSessionId.value].hintsUsed == store.problems[req.problemSessionId.value].hintsUsed + 1
            && h.store.users == store.users
  {
  }

  /** Marking an unhinted problem keeps the store consistent. */
  lemma MarkHintedConsistent(store: Store, pid: string)
    requires Consistent(store) && pid in store.problems && store.problems[pid].hintsUsed < 1
    ensures Consistent(MarkHinted(store, pid))
  {
    var s' := MarkHinted(store, pid);
    assert s'.problems.Keys == store.problems.Keys;
  }

  /** Spending a credit the session still has keeps the store consistent. */
  lemma SpendCreditConsistent(store: Store, uid: string)
    requires Consistent(store) && uid in store.users && store.users[uid].hintCredits > 0
    ensures Consistent(SpendCredit(store, uid))
  {
    var s' := SpendCredit(store, uid);
    assert s'.users.Keys == store.users.Keys;
    assert forall id :: id in s'.users && id != uid ==> s'.users[id] == store.users[id];
  }

  /** Hints keep the store consistent, even when the second update fails. */
  lemma HintPreservesConsistency(store: Store, req: HintRequest, gen: Generation, faults: HintFaults)
    requires Consistent(store)
    ensures Consistent(Hint(store, req, gen, faults).store)
  {
    var h := Hint(store, req, gen, faults);
    if h.store != store {
      var pid, uid := req.problemSessionId.value, req.userSessionId.value;
      MarkHintedConsistent(store, pid);
      if h.response.Ok? {
        SpendCreditConsistent(MarkHinted(store, pid), uid);
      }
    }
  }
}
