/** `POST /api/session/join`: look up a user session by its five-character id,
    stamp its access time, and report its counters as they were read. */
module JoinRoute {
  import opened Common
  import opened Db

  /** The columns the handler selects and returns; the hint columns are not among them. */
  datatype JoinReply = JoinReply(sessionId: string, correctCount: int, totalCount: int, streak: int, lastAccessedAt: int)

  /** The user session after the access-time update. */
  function Touch(store: Store, id: string, now: int): Store
    requires id in store.users
  {
    store.(users := store.users[id := store.users[id].(lastAccessedAt := now)])
  }

  /** `fetchFails` stands for an error of the lookup query, which the handler
      answers like a missing row; a failed update is logged and ignored. */
  function Join(store: Store, sessionId: Option<string>, now: int, fetchFails: bool, updateFails: bool): (h: Handled<JoinReply>)
    ensures !FiveChars(sessionId) ==> h == Handled(store, Error(BadRequest, "Invalid session_id format"))
    ensures FiveChars(sessionId) && (fetchFails || sessionId.value !in store.users) ==>
              h == Handled(store, Error(NotFound, "Session not found"))
    ensures h.response.Ok? <==> FiveChars(sessionId) && !fetchFails && sessionId.value in store.users
    // The reply carries the row as read, before the access time moved.
    ensures h.response.Ok? ==>
              var u := store.users[sessionId.value];
              h.response.body == JoinReply(sessionId.value, u.correctCount, u.totalCount, u.streak, u.lastAccessedAt)
    ensures h.response.Ok? && !updateFails ==> h.store == Touch(store, sessionId.value, now)
    ensures h.response.Error? || updateFails ==> h.store == store
  {
    if !FiveChars(sessionId) then Handled(store, Error(BadRequest, "Invalid session_id format"))
    else
      var id := sessionId.value;
      if fetchFails || id !in store.users then Handled(store, Error(NotFound, "Session not found"))
      else
        var u := store.users[id];
        var reply := JoinReply(id, u.correctCount, u.totalCount, u.streak, u.lastAccessedAt);
        Handled(if updateFails then store else Touch(store, id, now), Ok(reply))
  }

  /** Joining changes at most the joined session's access time: every other
      column of every row stays as it was. */
  lemma JoinTouchesOnlyAccessTime(store: Store, sessionId: Option<string>, now: int, fetchFails: bool, updateFails: bool)
    ensures var s' := Join(store, sessionId, now, fetchFails, updateFails).store;
            && s'.problems == store.problems
            && s'.submissions == store.submissions
            && s'.users.Keys == store.users.Keys
            && (forall id :: id in store.users ==>
                  s'.users[id] == store.users[id].(lastAccessedAt := s'.users[id].lastAccessedAt))
            && (forall id :: id in store.users && Some(id) != sessionId ==> s'.users[id] == store.users[id])
  {
  }

  /** Joining twice: the second reply reports the first join's time, and the
      counters are the same in both replies. */
  lemma RejoinReportsPreviousAccess(store: Store, id: string, t1: int, t2: int)
    requires JsLength(id) == 5 && id in store.users
    ensures var h1 := Join(store, Some(id), t1, false, false);
            var h2 := Join(h1.store, Some(id), t2, false, false);
            && h2.response.Ok?
            && h2.response.body.lastAccessedAt == t1
            && h2.response.body == h1.response.body.(lastAccessedAt := t1)
  {
  }

  /** Joining keeps the store consistent. */
  lemma JoinPreservesConsistency(store: Store, sessionId: Option<string>, now: int, fetchFails: bool, updateFails: bool)
    requires Consistent(store)
    ensures Consistent(Join(store, sessionId, now, fetchFails, updateFails).store)
  {
  }
}
