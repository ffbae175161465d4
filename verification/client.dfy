/** What the browser-side hooks share: the outcome of a `fetch`, toast
    notifications, and `localStorage` as a map from keys to stored entries. */
module Client {
  import opened Common

  /** A `fetch` either rejects (the network failed; `message` is the error's
      text) or answers with the route's response: `res.ok` is `Ok`. */
  datatype Reply<+T> = NetworkError(message: string) | Answered(response: Response<T>)

  predicate Succeeded<T>(r: Reply<T>) {
    r.Answered? && r.response.Ok?
  }

  datatype Toast = Toast(message: string, isError: bool)

  /** A stored value. `current_session_id` holds plain text; the saved
      problem is the record `generateProblem` writes with `JSON.stringify`.
      Any other text under a key is `Text`, and the hook reading it decides
      what `JSON.parse` makes of it. */
  datatype Entry =
    | Text(text: string)
    | ProblemRecord(sessionId: Option<string>, problemType: string, topic: string, timestamp: int)

  type Storage = map<string, Entry>

  /** A call a hook makes into another hook once its own update is done:
      `refreshSessionData` after a submit or hint, `resetProblemState` after
      ending a session. */
  datatype Effect = NoEffect | RefreshSession | ResetProblem

  /** The outcome of one hook operation, run to completion: the hook's new
      state, the storage, the toast shown (if any) and the follow-up call. */
  datatype Step<+S> = Step(state: S, storage: Storage, toast: Option<Toast>, effect: Effect)

  const ProblemKey: string := "current_math_problem"
  const SessionKey: string := "current_session_id"

  /** `localStorage.removeItem(key)`. */
  function Remove(storage: Storage, key: string): (s: Storage)
    ensures key !in s
    ensures forall k :: k in storage && k != key ==> k in s && s[k] == storage[k]
    ensures forall k :: k in s ==> k in storage
  {
    storage - {key}
  }

  /** A topic key shown under its display name when the mapping has a
      truthy one: `topic ? (topicMapping?.[topic] || topic) : ""`. */
  function DisplayTopic(topic: string, mapping: map<string, string>): (shown: string)
    ensures topic == "" <==> shown == ""
    ensures topic != "" && topic in mapping && mapping[topic] != "" ==> shown == mapping[topic]
    ensures topic != "" && (topic !in mapping || mapping[topic] == "") ==> shown == topic
  {
    if topic == "" then ""
    else if topic in mapping && mapping[topic] != "" then mapping[topic]
    else topic
  }
}
