/** `GET /api/session/data?session_id=`: one user session's row and its ten
    newest submissions, each joined with its problem. */
module DataRoute {
  import opened Common
  import opened Db

  /** `session: { id, ...row }`: the selected columns plus the requested id. */
  datatype SessionView = SessionView(
    id: string,
    correctCount: int,
    totalCount: int,
    streak: int,
    hintCredits: int,
    hintCap: int,
    createdAt: int,
    lastAccessedAt: int)

  datatype SessionData = SessionData(session: SessionView, recentSubmissions: seq<Row>)

  const RecentLimit: nat := 10

  function View(id: string, u: UserSession): SessionView {
    SessionView(id, u.correctCount, u.totalCount, u.streak, u.hintCredits, u.hintCap, u.createdAt, u.lastAccessedAt)
  }

  predicate LinkedRow(row: Row, id: string) {
    row.submission.userSessionId == Some(id)
  }

  predicate Descending(rows: seq<Row>) {
    forall i, j :: 0 <= i < j < |rows| ==> rows[i].position > rows[j].position
  }

  /** Putting a newer row in front of a descending list keeps it descending. */
  lemma ConsDescending(x: Row, rest: seq<Row>)
    requires Descending(rest)
    requires forall y :: y in rest ==> y.position < x.position
    ensures Descending([x] + rest)
  {
    var r := [x] + rest;
    forall i, j | 0 <= i < j < |r| ensures r[i].position > r[j].position {
      assert r[j] == rest[j - 1];
      assert rest[j - 1] in rest;
      if i > 0 {
        assert r[i] == rest[i - 1];
      }
    }
  }

  /** In a descending list the head is newer than everything after it. */
  lemma HeadIsNewest(rows: seq<Row>)
    requires |rows| > 0 && Descending(rows)
    ensures Descending(rows[1..])
    ensures forall x :: x in rows[1..] ==> x.position < rows[0].position
  {
    assert forall k :: 0 <= k < |rows[1..]| ==> rows[1..][k] == rows[k + 1];
  }

  /** `.eq('user_session_id', id)`: the rows naming the user session, in their order. */
  function LinkedTo(rows: seq<Row>, id: string): (r: seq<Row>)
    ensures forall x :: x in r <==> x in rows && LinkedRow(x, id)
    ensures Descending(rows) ==> Descending(r)
    ensures (forall x :: x in rows ==> !LinkedRow(x, id)) ==> r == []
  {
    if rows == [] then []
    else
      var rest := LinkedTo(rows[1..], id);
      assert forall x :: x in rows[1..] ==> x in rows;
      assert rows == [rows[0]] + rows[1..];
      if LinkedRow(rows[0], id) then
        var r := [rows[0]] + rest;
        if Descending(rows) then
          HeadIsNewest(rows);
          ConsDescending(rows[0], rest);
          r
        else r
      else
        if Descending(rows) then
          HeadIsNewest(rows);
          rest
        else rest
  }

  /** `.limit(n)`. */
  function Take(rows: seq<Row>, n: nat): (r: seq<Row>)
    ensures |r| == Min(|rows|, n)
    ensures r == rows[..|r|]
  {
    if |rows| <= n then rows else rows[..n]
  }

  /** Every joined row is the log entry at its position. */
  lemma NewestFirstMembers(problems: map<string, ProblemSession>, log: seq<Submission>)
    ensures forall x :: x in NewestFirst(problems, log) ==> x.position < |log| && x.submission == log[x.position]
  {
    var rows := NewestFirst(problems, log);
    forall x | x in rows ensures x.position < |log| && x.submission == log[x.position] {
      var i :| 0 <= i < |rows| && rows[i] == x;
    }
  }

  /** The recent submissions the handler returns: at most ten rows of the
      user session's submissions, newest first. */
  function Recent(store: Store, id: string): (recent: seq<Row>)
    ensures |recent| <= RecentLimit
    ensures Descending(recent)
    ensures forall x :: x in recent ==>
              && LinkedRow(x, id)
              && x.position < |store.submissions|
              && x.submission == store.submissions[x.position]
  {
    var all := NewestFirst(store.problems, store.submissions);
    NewestFirstMembers(store.problems, store.submissions);
    assert Descending(all);
    var linked := LinkedTo(all, id);
    TakePrefix(linked, RecentLimit);
    Take(linked, RecentLimit)
  }

  /** A prefix of a descending list is descending and holds only its rows. */
  lemma TakePrefix(rows: seq<Row>, n: nat)
    requires Descending(rows)
    ensures Descending(Take(rows, n))
    ensures forall x :: x in Take(rows, n) ==> x in rows
  {
    var r := Take(rows, n);
    assert forall i :: 0 <= i < |r| ==> r[i] == rows[i];
  }

  /** `fetchFails` is an error of the session query (answered like a missing
      row), `queryFails` one of the submissions query. The handler writes nothing. */
  function GetSessionData(store: Store, sessionId: Option<string>, fetchFails: bool, queryFails: bool): (r: Response<SessionData>)
    ensures !FiveChars(sessionId) ==> r == Error(BadRequest, "Invalid session_id parameter")
    ensures FiveChars(sessionId) && (fetchFails || sessionId.value !in store.users) ==> r == Error(NotFound, "Session not found")
    ensures FiveChars(sessionId) && !fetchFails && sessionId.value in store.users && queryFails ==>
              r == Error(ServerError, "Failed to fetch session data")
    ensures r.Ok? <==> FiveChars(sessionId) && !fetchFails && sessionId.value in store.users && !queryFails
    ensures r.Ok? ==>
              var id := sessionId.value;
              var recent := r.body.recentSubmissions;
              && r.body.session == View(id, store.users[id])
              && recent == Recent(store, id)
              && |recent| <= RecentLimit
              && Descending(recent)
              && (forall x :: x in recent ==>
                    && LinkedRow(x, id)
                    && x.position < |store.submissions|
                    && x.submission == store.submissions[x.position])
  {
    if !FiveChars(sessionId) then Error(BadRequest, "Invalid session_id parameter")
    else
      var id := sessionId.value;
      if fetchFails || id !in store.users then Error(NotFound, "Session not found")
      else if queryFails then Error(ServerError, "Failed to fetch session data")
      else
        Ok(SessionData(View(id, store.users[id]), Recent(store, id)))
  }

  /** Cutting a descending list after `n` rows keeps row `m`, or keeps `n`
      rows all newer than it. */
  lemma TakeKeepsNewest(rows: seq<Row>, m: nat, n: nat)
    requires Descending(rows) && m < |rows|
    ensures m < n ==> m < |Take(rows, n)| && Take(rows, n)[m] == rows[m]
    ensures m >= n ==> |Take(rows, n)| == n && forall i :: 0 <= i < n ==> Take(rows, n)[i].position > rows[m].position
  {
  }

  /** The returned rows are the newest ones: a linked, joined submission is
      left out only when ten newer ones are returned. */
  lemma RecentAreNewest(store: Store, id: string, k: nat)
    requires k < |store.submissions| && store.submissions[k].problemId in store.problems
    requires store.submissions[k].userSessionId == Some(id)
    ensures var recent := Recent(store, id);
            (exists i :: 0 <= i < |recent| && recent[i].position == k)
            || (|recent| == RecentLimit && forall i :: 0 <= i < |recent| ==> recent[i].position > k)
  {
    var all := NewestFirst(store.problems, store.submissions);
    var linked := LinkedTo(all, id);
    NewestFirstCovers(store.problems, store.submissions, k);
    var j :| 0 <= j < |all| && all[j].position == k;
    assert all[j] in linked;
    var m :| 0 <= m < |linked| && linked[m] == all[j];
    TakeKeepsNewest(linked, m, RecentLimit);
  }

  /** With no submission naming the user session, the recent list is empty. */
  lemma UnlinkedMeansNoRecent(store: Store, id: string)
    requires forall k :: 0 <= k < |store.submissions| ==> store.submissions[k].userSessionId.None?
    ensures Recent(store, id) == []
  {
    var all := NewestFirst(store.problems, store.submissions);
    assert forall x :: x in all ==> !LinkedRow(x, id);
  }
}
