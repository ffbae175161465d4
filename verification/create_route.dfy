/** `POST /api/session/create`: draw five-character session ids until one is
    not taken (at most ten tries), then insert a user session with zeroed
    counters. */
module CreateRoute {
  import opened Common
  import opened Db

  const Alphabet: string := "ABCDEFGHIJKLMNOPQRSTUVWXYZ0123456789"
  const IdLength: nat := 5
  const MaxAttempts: nat := 10

  /** One `Math.floor(Math.random() * 36)` per character. */
  predicate ValidDraws(draws: seq<nat>) {
    |draws| == IdLength && forall i :: 0 <= i < |draws| ==> draws[i] < |Alphabet|
  }

  predicate IdChar(c: char) {
    'A' <= c <= 'Z' || '0' <= c <= '9'
  }

  /** `generateSessionId`: each draw picks one character of the alphabet. */
  function GenerateSessionId(draws: seq<nat>): (id: string)
    requires ValidDraws(draws)
    ensures |id| == IdLength
    ensures forall i :: 0 <= i < |id| ==> IdChar(id[i])
  {
    assert forall k :: 0 <= k < |Alphabet| ==> IdChar(Alphabet[k]);
    seq(IdLength, i requires 0 <= i < IdLength => Alphabet[draws[i]])
  }

  /** Every generated id passes the routes' five-character check, which
      counts UTF-16 code units: the alphabet lies in the Basic Multilingual Plane. */
  lemma GeneratedIdAccepted(draws: seq<nat>)
    requires ValidDraws(draws)
    ensures FiveChars(Some(GenerateSessionId(draws)))
  {
    BmpLength(GenerateSessionId(draws));
  }

  /** Position of an id character in the alphabet. */
  function CharIndex(c: char): nat
    requires IdChar(c)
  {
    if 'A' <= c <= 'Z' then (c as int - 'A' as int) as nat else 26 + (c as int - '0' as int) as nat
  }

  /** The alphabet is exactly A-Z then 0-9: each id character sits at its index. */
  lemma AlphabetIndex(c: char)
    requires IdChar(c)
    ensures CharIndex(c) < |Alphabet| && Alphabet[CharIndex(c)] == c
  {
  }

  /** Reading an id back gives the draws that made it: different draws give different ids. */
  lemma DrawsRecoverable(draws: seq<nat>)
    requires ValidDraws(draws)
    ensures forall i :: 0 <= i < IdLength ==> CharIndex(GenerateSessionId(draws)[i]) == draws[i]
  {
    forall i | 0 <= i < IdLength ensures CharIndex(GenerateSessionId(draws)[i]) == draws[i] {
      var k := draws[i];
      assert GenerateSessionId(draws)[i] == Alphabet[k];
      assert k < 26 ==> Alphabet[k] == ('A' as int + k) as char;
      assert k >= 26 ==> Alphabet[k] == ('0' as int + k - 26) as char;
    }
  }

  /** The user session a successful create inserts: counters at zero, hint
      credits and cap from the column defaults. */
  function NewUserSession(now: int): UserSession {
    UserSession(0, 0, 0, DefaultHintCredits, DefaultHintCap, now, now)
  }

  datatype CreateReply = CreateReply(sessionId: string)

  /** The handler. `candidates[k]` holds the draws of attempt `k + 1`;
      `attempts` reports how many of them were tried. */
  method CreateSession(store: Store, candidates: seq<seq<nat>>, insertFails: bool, now: int)
      returns (h: Handled<CreateReply>, attempts: nat)
    requires |candidates| == MaxAttempts
    requires forall k :: 0 <= k < |candidates| ==> ValidDraws(candidates[k])
    ensures 1 <= attempts <= MaxAttempts
    // The candidates tried before the last all collided.
    ensures forall k :: 0 <= k < attempts - 1 ==> GenerateSessionId(candidates[k]) in store.users
    ensures h.response.Ok? ==>
              var id := h.response.body.sessionId;
              && id == GenerateSessionId(candidates[attempts - 1])
              && id !in store.users
              && h.store == store.(users := store.users[id := NewUserSession(now)])
    ensures h.response.Error? ==> h == Handled(store, Error(ServerError, "Failed to create session"))
    // Failure happens exactly when the insert fails or all ten candidates collide.
    ensures h.response.Error? <==>
              insertFails || forall k :: 0 <= k < MaxAttempts ==> GenerateSessionId(candidates[k]) in store.users
  {
    attempts := 0;
    var id: string;
    while true
      invariant 0 <= attempts < MaxAttempts
      invariant forall k :: 0 <= k < attempts ==> GenerateSessionId(candidates[k]) in store.users
      decreases MaxAttempts - attempts
    {
      id := GenerateSessionId(candidates[attempts]);
      attempts := attempts + 1;
      if id !in store.users {
        break;
      }
      if attempts >= MaxAttempts {
        h := Handled(store, Error(ServerError, "Failed to create session"));
        return;
      }
    }
    if insertFails {
      h := Handled(store, Error(ServerError, "Failed to create session"));
    } else {
      h := Handled(store.(users := store.users[id := NewUserSession(now)]), Ok(CreateReply(id)));
    }
  }

  /** Creating a session keeps the store consistent: the new id is named by no
      submission, so its zero counters are its tallies. */
  lemma CreatePreservesConsistency(store: Store, id: string, now: int)
    requires Consistent(store)
    requires id !in store.users
    ensures Consistent(store.(users := store.users[id := NewUserSession(now)]))
  {
    UnnamedHasNoTallies(store.submissions, id);
  }
}
