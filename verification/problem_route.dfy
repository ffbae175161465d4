/** `/api/math-problem`: `POST` generates and stores a new problem, `GET`
    reads one back without its answer. */
module ProblemRoute {
  import opened Common
  import opened Db
  import opened Text

  /** The JSON body the client sends. Only `difficulty` is read; a value that
      is not a string is `None`. */
  datatype GenerateRequest = GenerateRequest(difficulty: Option<string>, topic: Option<string>, problemType: Option<string>)

  /** The two fields of the generator's JSON the handler inspects, as
      `JSON.parse` leaves them: `None` when missing or of another type. */
  datatype GeneratedData = GeneratedData(problemText: Option<string>, finalAnswer: Option<real>)

  datatype Created = Created(sessionId: string, problemText: string, topic: string, difficulty: Difficulty)

  /** The columns `GET` selects: `correct_answer` is not among them. */
  datatype ProblemView = ProblemView(problemText: string, topic: string, difficulty: string)

  /** `['easy', 'medium', 'hard'].includes(difficulty)`. */
  predicate ValidDifficultyName(d: Option<string>) {
    d == Some("easy") || d == Some("medium") || d == Some("hard")
  }

  /** A valid difficulty is kept; anything else becomes medium. */
  function NormaliseDifficulty(d: Option<string>): (r: Difficulty)
    ensures ValidDifficultyName(d) ==> DifficultyName(r) == d.value
    ensures !ValidDifficultyName(d) ==> r == Medium
  {
    if d == Some("easy") then Easy
    else if d == Some("medium") then Medium
    else if d == Some("hard") then Hard
    else Medium
  }

  /** Naming a difficulty and normalising the name gives it back. */
  lemma DifficultyRoundTrip(d: Difficulty)
    ensures NormaliseDifficulty(Some(DifficultyName(d))) == d
  {
  }

  /** A name survives normalisation exactly when it is one of the three valid names. */
  lemma NormaliseKeepsOnlyValid(s: string)
    ensures DifficultyName(NormaliseDifficulty(Some(s))) == s <==> s == "easy" || s == "medium" || s == "hard"
  {
  }

  /** The topic draw is an index into a readable, non-empty catalog. */
  predicate TopicDrawFits(catalog: Option<seq<string>>, draw: nat) {
    catalog.Some? && |catalog.value| > 0 ==> draw < |catalog.value|
  }

  /** The topic: a catalog entry, or "" when the catalog could not be read or is empty. */
  function PickTopic(catalog: Option<seq<string>>, draw: nat): (t: string)
    requires TopicDrawFits(catalog, draw)
    ensures catalog.None? || catalog.value == [] ==> t == ""
    ensures catalog.Some? && catalog.value != [] ==> t in catalog.value
  {
    if catalog.Some? && |catalog.value| > 0 then catalog.value[draw] else ""
  }

  /** The two prompts: with a topic clause, or the general one. */
  datatype Prompt = TopicPrompt(difficulty: Difficulty, topic: string) | GeneralPrompt(difficulty: Difficulty)

  function ChoosePrompt(d: Difficulty, topic: string): (p: Prompt)
    ensures p.difficulty == d
    ensures p.TopicPrompt? <==> topic != ""
    ensures p.TopicPrompt? ==> p.topic == topic
  {
    if topic != "" then TopicPrompt(d, topic) else GeneralPrompt(d)
  }

  const PromptTail: string :=
    ". Return only valid JSON with no extra text or formatting: {\"problem_text\": \"[word problem]\", \"final_answer\": [numerical answer]}"

  function PromptLead(d: Difficulty): string {
    "Generate a " + DifficultyName(d) + " level math word problem suitable for a Primary 5 student"
  }

  function RenderPrompt(p: Prompt): string {
    match p
    case TopicPrompt(d, t) => PromptLead(d) + " on the topic: " + t + PromptTail
    case GeneralPrompt(d) => PromptLead(d) + PromptTail
  }

  /** The topic prompt is the general prompt with the topic clause inserted
      just before its closing instructions. */
  lemma TopicClauseInserted(d: Difficulty, topic: string)
    ensures var g := RenderPrompt(GeneralPrompt(d));
            var k := |g| - |PromptTail|;
            0 <= k && RenderPrompt(TopicPrompt(d, topic)) == g[..k] + " on the topic: " + topic + g[k..]
  {
    var g := RenderPrompt(GeneralPrompt(d));
    assert g[..|PromptLead(d)|] == PromptLead(d);
    assert g[|PromptLead(d)|..] == PromptTail;
  }

  /** Accepted generator data: a truthy `problem_text` and a numeric `final_answer`. */
  predicate WellShaped(data: GeneratedData) {
    Present(data.problemText) && data.finalAnswer.Some?
  }

  /** `POST`. The generator and `JSON.parse` are parameters; `newId` is the id
      the database assigns, and inserting under an id already taken fails. */
  function CreateProblem(store: Store, req: GenerateRequest, catalog: Option<seq<string>>, topicDraw: nat,
                         generate: string -> Generation, parse: string -> Option<GeneratedData>,
                         newId: string, insertFails: bool): (h: Handled<Created>)
    requires TopicDrawFits(catalog, topicDraw)
    ensures h.response.Error? ==> h == Handled(store, Error(ServerError, "Failed to generate problem"))
    ensures h.response.Ok? ==>
              var d, t := NormaliseDifficulty(req.difficulty), PickTopic(catalog, topicDraw);
              var gen := generate(RenderPrompt(ChoosePrompt(d, t)));
              && gen.Generated?
              && var data := parse(StripJsonFence(gen.text));
                 && data.Some? && WellShaped(data.value)
                 && h.response.body == Created(newId, data.value.problemText.value, t, d)
                 && newId !in store.problems
                 && h.store == store.(problems := store.problems[newId :=
                      ProblemSession(data.value.problemText.value, data.value.finalAnswer.value, d, t, 0)])
    ensures h.response.Ok? <==>
              var gen := generate(RenderPrompt(ChoosePrompt(NormaliseDifficulty(req.difficulty), PickTopic(catalog, topicDraw))));
              && gen.Generated?
              && parse(StripJsonFence(gen.text)).Some?
              && WellShaped(parse(StripJsonFence(gen.text)).value)
              && newId !in store.problems && !insertFails
  {
    var d := NormaliseDifficulty(req.difficulty);
    var t := PickTopic(catalog, topicDraw);
    var gen := generate(RenderPrompt(ChoosePrompt(d, t)));
    if gen.GenerationFailed? then Handled(store, Error(ServerError, "Failed to generate problem"))
    else
      var data := parse(StripJsonFence(gen.text));
      if data.None? || !WellShaped(data.value) then Handled(store, Error(ServerError, "Failed to generate problem"))
      else if newId in store.problems || insertFails then
        Handled(store, Error(ServerError, "Failed to generate problem"))
      else
        var text, answer := data.value.problemText.value, data.value.finalAnswer.value;
        Handled(store.(problems := store.problems[newId := ProblemSession(text, answer, d, t, 0)]),
                Ok(Created(newId, text, t, d)))
  }

  /** Only `difficulty` is read: a topic or problem type sent by the client changes nothing. */
  lemma CreateIgnoresClientChoices(store: Store, req: GenerateRequest, catalog: Option<seq<string>>, topicDraw: nat,
                                   generate: string -> Generation, parse: string -> Option<GeneratedData>,
                                   newId: string, insertFails: bool, topic: Option<string>, problemType: Option<string>)
    requires TopicDrawFits(catalog, topicDraw)
    ensures CreateProblem(store, req, catalog, topicDraw, generate, parse, newId, insertFails)
         == CreateProblem(store, req.(topic := topic, problemType := problemType), catalog, topicDraw, generate, parse, newId, insertFails)
  {
  }

  /** The stored row carries the difficulty and topic the response reports, a
      difficulty that is always one of the three, and no hint used yet. */
  lemma CreateStoresWhatItReturns(store: Store, req: GenerateRequest, catalog: Option<seq<string>>, topicDraw: nat,
                                  generate: string -> Generation, parse: string -> Option<GeneratedData>,
                                  newId: string, insertFails: bool)
    requires TopicDrawFits(catalog, topicDraw)
    requires CreateProblem(store, req, catalog, topicDraw, generate, parse, newId, insertFails).response.Ok?
    ensures var h := CreateProblem(store, req, catalog, topicDraw, generate, parse, newId, insertFails);
            var row := h.store.problems[newId];
            && row.difficulty == h.response.body.difficulty
            && row.topic == h.response.body.topic
            && row.problemText == h.response.body.problemText
            && row.hintsUsed == 0
            && (req.difficulty == Some(DifficultyName(row.difficulty)) || row.difficulty == Medium)
            && (catalog.Some? && catalog.value != [] ==> row.topic in catalog.value)
  {
  }

  /** Generated text that does not parse to a well-shaped problem is a 500 and nothing is inserted. */
  lemma BadShapeRejected(store: Store, req: GenerateRequest, catalog: Option<seq<string>>, topicDraw: nat,
                         text: string, parse: string -> Option<GeneratedData>, newId: string, insertFails: bool)
    requires TopicDrawFits(catalog, topicDraw)
    requires parse(StripJsonFence(text)).None? || !WellShaped(parse(StripJsonFence(text)).value)
    ensures CreateProblem(store, req, catalog, topicDraw, _ => Generated(text), parse, newId, insertFails)
         == Handled(store, Error(ServerError, "Failed to generate problem"))
  {
  }

  /** Creating a problem keeps the store consistent. */
  lemma CreatePreservesConsistency(store: Store, req: GenerateRequest, catalog: Option<seq<string>>, topicDraw: nat,
                                   generate: string -> Generation, parse: string -> Option<GeneratedData>,
                                   newId: string, insertFails: bool)
    requires TopicDrawFits(catalog, topicDraw)
    requires Consistent(store)
    ensures Consistent(CreateProblem(store, req, catalog, topicDraw, generate, parse, newId, insertFails).store)
  {
    var h := CreateProblem(store, req, catalog, topicDraw, generate, parse, newId, insertFails);
    if h.response.Ok? {
      var row := h.store.problems[newId];
      assert h.store == store.(problems := store.problems[newId := row]);
      AddProblemConsistent(store, newId, row);
    }
  }

  /** Inserting a fresh problem row with no hint used keeps the store consistent. */
  lemma AddProblemConsistent(store: Store, id: string, row: ProblemSession)
    requires Consistent(store) && row.hintsUsed == 0
    ensures Consistent(store.(problems := store.problems[id := row]))
  {
  }

  /** `GET ?sessionId=`: the display fields of one problem. `readFails` is an
      error of the query, answered like a missing row. */
  function GetProblem(store: Store, sessionId: Option<string>, readFails: bool): (r: Response<ProblemView>)
    ensures !Present(sessionId) ==> r == Error(BadRequest, "sessionId required")
    ensures Present(sessionId) && (readFails || sessionId.value !in store.problems) ==> r == Error(NotFound, "Problem not found")
    ensures r.Ok? <==> Present(sessionId) && !readFails && sessionId.value in store.problems
    ensures r.Ok? ==>
              var p := store.problems[sessionId.value];
              r.body == ProblemView(p.problemText, p.topic, DifficultyName(p.difficulty))
  {
    if !Present(sessionId) then Error(BadRequest, "sessionId required")
    else if readFails || sessionId.value !in store.problems then Error(NotFound, "Problem not found")
    else
      var p := store.problems[sessionId.value];
      Ok(ProblemView(p.problemText, p.topic, DifficultyName(p.difficulty)))
  }

  /** The answer never leaks through `GET`: stores that differ only in a
      problem's `correct_answer` give the same response. */
  lemma GetHidesAnswer(store: Store, id: string, answer: real, sessionId: Option<string>, readFails: bool)
    requires id in store.problems
    ensures GetProblem(store, sessionId, readFails)
         == GetProblem(store.(problems := store.problems[id := store.problems[id].(correctAnswer := answer)]), sessionId, readFails)
  {
  }

  /** A problem created by `POST` reads back through `GET` with the text,
      topic and difficulty `POST` returned. */
  lemma CreateThenGet(store: Store, req: GenerateRequest, catalog: Option<seq<string>>, topicDraw: nat,
                      generate: string -> Generation, parse: string -> Option<GeneratedData>,
                      newId: string, insertFails: bool)
    requires TopicDrawFits(catalog, topicDraw)
    requires newId != ""
    requires CreateProblem(store, req, catalog, topicDraw, generate, parse, newId, insertFails).response.Ok?
    ensures var h := CreateProblem(store, req, catalog, topicDraw, generate, parse, newId, insertFails);
            var c := h.response.body;
            GetProblem(h.store, Some(newId), false) == Ok(ProblemView(c.problemText, c.topic, DifficultyName(c.difficulty)))
  {
  }
}
