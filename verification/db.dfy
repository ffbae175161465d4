/** The three tables the route handlers read and write, held in memory:
    `math_problem_sessions`, `user_sessions` and the append-only
    `math_problem_submissions`, plus the joined rows the read queries return. */
module Db {
  import opened Common

  datatype Difficulty = Easy | Medium | Hard

  function DifficultyName(d: Difficulty): string {
    match d
    case Easy => "easy"
    case Medium => "medium"
    case Hard => "hard"
  }

  datatype ProblemType = Addition | Subtraction | Multiplication | Division

  function ProblemTypeName(t: ProblemType): string {
    match t
    case Addition => "addition"
    case Subtraction => "subtraction"
    case Multiplication => "multiplication"
    case Division => "division"
  }

  /** A row of `math_problem_sessions`. The table's `problem_type` column is
      never written by the handlers and is not kept. */
  datatype ProblemSession = ProblemSession(
    problemText: string,
    correctAnswer: real,
    difficulty: Difficulty,
    topic: string,
    hintsUsed: int)

  /** A row of `user_sessions`; timestamps are milliseconds. */
  datatype UserSession = UserSession(
    correctCount: int,
    totalCount: int,
    streak: int,
    hintCredits: int,
    hintCap: int,
    createdAt: int,
    lastAccessedAt: int)

  /** A row of `math_problem_submissions`; its `created_at` order is the order
      of the log. */
  datatype Submission = Submission(
    problemId: string,
    userSessionId: Option<string>,
    userAnswer: real,
    isCorrect: bool,
    feedbackText: string)

  datatype Store = Store(
    problems: map<string, ProblemSession>,
    users: map<string, UserSession>,
    submissions: seq<Submission>)

  /** The hint credits and cap a new `user_sessions` row is assumed to start
      with. The create handler does not write them and the table's column
      defaults are not part of this model; these are the values the client
      falls back to (lib/hooks/useSession.ts:116-133). */
  const DefaultHintCredits: int := 3
  const DefaultHintCap: int := 5

  /** What a handler leaves behind: the store after its writes, and its answer. */
  datatype Handled<+T> = Handled(store: Store, response: Response<T>)

  /** The problem columns a submission query selects through its inner join
      (`correct_answer` included). */
  datatype ProblemSummary = ProblemSummary(
    id: string,
    problemText: string,
    correctAnswer: real,
    difficulty: Difficulty,
    topic: string)

  /** One joined submission row; `position` is its place in the log and stands
      for its `id` and `created_at`. */
  datatype Row = Row(position: nat, submission: Submission, problem: ProblemSummary)

  function Summary(id: string, p: ProblemSession): ProblemSummary {
    ProblemSummary(id, p.problemText, p.correctAnswer, p.difficulty, p.topic)
  }

  /** The submissions joined with their problems, ordered by `created_at`
      descending; the inner join drops a submission whose problem is missing. */
  function NewestFirst(problems: map<string, ProblemSession>, log: seq<Submission>): (rows: seq<Row>)
    ensures |rows| <= |log|
    ensures forall i :: 0 <= i < |rows| ==>
              && rows[i].position < |log|
              && rows[i].submission == log[rows[i].position]
              && rows[i].submission.problemId in problems
              && rows[i].problem == Summary(rows[i].submission.problemId, problems[rows[i].submission.problemId])
    ensures forall i, j :: 0 <= i < j < |rows| ==> rows[i].position > rows[j].position
  {
    if log == [] then []
    else
      var n := |log| - 1;
      var rest := NewestFirst(problems, log[..n]);
      assert forall k :: 0 <= k < n ==> log[..n][k] == log[k];
      if log[n].problemId in problems then
        var rows := [Row(n, log[n], Summary(log[n].problemId, problems[log[n].problemId]))] + rest;
        assert forall i :: 1 <= i < |rows| ==> rows[i] == rest[i - 1];
        rows
      else
        rest
  }

  /** Every submission whose problem is stored shows up among the rows. */
  lemma {:induction false} NewestFirstCovers(problems: map<string, ProblemSession>, log: seq<Submission>, k: nat)
    requires k < |log| && log[k].problemId in problems
    ensures exists i :: 0 <= i < |NewestFirst(problems, log)| && NewestFirst(problems, log)[i].position == k
  {
    var n := |log| - 1;
    var rest := NewestFirst(problems, log[..n]);
    var rows := NewestFirst(problems, log);
    if k == n {
      assert rows[0].position == k;
    } else {
      assert log[..n][k] == log[k];
      NewestFirstCovers(problems, log[..n], k);
      var i :| 0 <= i < |rest| && rest[i].position == k;
      if log[n].problemId in problems {
        assert rows[i + 1] == rest[i];
      } else {
        assert rows[i] == rest[i];
      }
    }
  }

  /** Every submission points at a stored problem. */
  predicate Joined(s: Store) {
    forall k :: 0 <= k < |s.submissions| ==> s.submissions[k].problemId in s.problems
  }

  /** With every submission joined, the rows are the whole log, newest first. */
  lemma {:induction false} NewestFirstComplete(problems: map<string, ProblemSession>, log: seq<Submission>)
    requires forall k :: 0 <= k < |log| ==> log[k].problemId in problems
    ensures |NewestFirst(problems, log)| == |log|
    ensures forall i :: 0 <= i < |log| ==> NewestFirst(problems, log)[i].position == |log| - 1 - i
  {
    if log != [] {
      var n := |log| - 1;
      NewestFirstComplete(problems, log[..n]);
      var rest := NewestFirst(problems, log[..n]);
      var rows := NewestFirst(problems, log);
      assert log[n].problemId in problems;
      assert forall k :: 0 <= k < n ==> log[..n][k] == log[k];
      assert rows == [Row(n, log[n], Summary(log[n].problemId, problems[log[n].problemId]))] + rest;
      assert forall i :: 1 <= i < |rows| ==> rows[i] == rest[i - 1];
    }
  }

  // ---- Per-user tallies over the submission log ----

  /** Submissions in the log that carry user session `id`. */
  function AttemptsOf(log: seq<Submission>, id: string): nat {
    if log == [] then 0
    else AttemptsOf(log[..|log| - 1], id) + (if log[|log| - 1].userSessionId == Some(id) then 1 else 0)
  }

  /** Correct submissions in the log that carry user session `id`. */
  function CorrectOf(log: seq<Submission>, id: string): nat {
    if log == [] then 0
    else
      var last := log[|log| - 1];
      CorrectOf(log[..|log| - 1], id) + (if last.userSessionId == Some(id) && last.isCorrect then 1 else 0)
  }

  /** Length of the trailing run of correct submissions of user session `id`. */
  function StreakOf(log: seq<Submission>, id: string): nat {
    if log == [] then 0
    else
      var last := log[|log| - 1];
      if last.userSessionId != Some(id) then StreakOf(log[..|log| - 1], id)
      else if last.isCorrect then StreakOf(log[..|log| - 1], id) + 1
      else 0
  }

  /** Appending a row changes the tallies of the session it names, and only those. */
  lemma AppendTallies(log: seq<Submission>, s: Submission, id: string)
    ensures AttemptsOf(log + [s], id) == AttemptsOf(log, id) + (if s.userSessionId == Some(id) then 1 else 0)
    ensures CorrectOf(log + [s], id) == CorrectOf(log, id) + (if s.userSessionId == Some(id) && s.isCorrect then 1 else 0)
    ensures StreakOf(log + [s], id) == (if s.userSessionId != Some(id) then StreakOf(log, id)
                                       else if s.isCorrect then StreakOf(log, id) + 1 else 0)
  {
    assert (log + [s])[..|log|] == log;
  }

  /** The consistency rules of the data model: every submission refers to a
      stored problem and, if it names one, a stored user session; each user
      session's counters are the tallies of its submissions; hint credits stay
      within `0..hint_cap`; a problem has used at most one hint. */
  predicate Consistent(s: Store) {
    && Joined(s)
    && (forall k :: 0 <= k < |s.submissions| && s.submissions[k].userSessionId.Some? ==>
          s.submissions[k].userSessionId.value in s.users)
    && (forall id :: id in s.users ==>
          && s.users[id].totalCount == AttemptsOf(s.submissions, id)
          && s.users[id].correctCount == CorrectOf(s.submissions, id)
          && s.users[id].streak == StreakOf(s.submissions, id)
          && 0 <= s.users[id].hintCredits <= s.users[id].hintCap)
    && (forall id :: id in s.problems ==> 0 <= s.problems[id].hintsUsed <= 1)
  }

  /** A user session that no submission names has all tallies at zero. */
  lemma UnnamedHasNoTallies(log: seq<Submission>, id: string)
    requires forall k :: 0 <= k < |log| ==> log[k].userSessionId != Some(id)
    ensures AttemptsOf(log, id) == 0 && CorrectOf(log, id) == 0 && StreakOf(log, id) == 0
  {
    if log != [] {
      UnnamedHasNoTallies(log[..|log| - 1], id);
    }
  }
}
