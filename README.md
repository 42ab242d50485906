# Quizzie backend core, modelled in Dafny

This project models the core of a quiz-and-poll backend (an Express and
Mongoose service). Owners create quizzes and polls. Anyone can view them and
submit results, and the service keeps counters on them:

- impressions on each quiz or poll;
- attempts, correct answers and incorrect answers on each quiz question;
- a selection count on each poll option.

The model covers three parts:

- **Creating a quiz or a poll.** The controller checks the request in order
  and returns early on the first failure: the title, the `questions` array,
  then each question's prompt, option type and at least two options, and,
  for quizzes only, at least one option marked correct. Then the schema
  builds the document: it fills in defaults (counters 0, `timer` off,
  `correct` false, poll `optionType` text) and runs its validators
  (required fields, the `optionType` and `timer` enumerations, `arrayLimit`
  of at most five questions). A failure at either stage is a 400 and
  stores nothing. Success is a 201, and the document is stored under a
  fresh id with the caller as owner and no impressions.
- **The stats updaters.** `updateQuizStats` adds each result's three deltas
  to the counters of the question the result names. `updatePollStats` adds
  one to the selection count of every option index a result selects that
  lies within the question's options. A result naming no question is
  skipped, and so is an out-of-range index. Both return 404 when the
  document is absent. The handlers' loops are modelled as Dafny loops
  (`CreditResults`, `CountSelections`). Each loop is proved equal to a fold
  over the batch (`ApplyResults`, `ApplyPollResults`). Lemmas prove each
  fold equal to a closed form: every counter plus exactly what the batch
  addresses to it. From the closed form they derive, for quizzes and polls
  alike, additivity of two batches, doubling, independence from the order
  of the batch, the frame (nothing but the counters changes, and questions
  no result names do not change at all) and skipping. For polls they also
  derive the growth of the total selection count.
- **The document store.** Each collection is a `Store` class holding a map
  from id to document. Its methods model create, get/view, replace
  questions, delete, increment impressions, and list by owner sorted by
  impressions in descending order. Each method states its exact effect on
  the map. Get, replace questions, delete and increment impressions also
  have a 404 case, for an id that is not stored. The quiz and poll
  controllers run the same code for these, so one generic `Store<Q>` models both (`Store<QuizQuestion>` and
  `Store<PollQuestion>`).

Modules: `Common` (shared helpers), `DocumentStore` (`Store`, responses),
`QuizSchema` and `PollSchema` (the two model files), `QuizStats` and
`PollStats` (the stats specifications), `QuizController` and
`PollController` (the handlers with a validation or update loop).

Model choices:

- Document ids come from the store's own counter `nextId`, so ids are fresh
  and never reused. Question sub-document ids are part of the question input,
  since Mongoose assigns them while casting.
- `questions.id(x)` is modelled as finding the first question with id `x`.
- Request fields that may be missing are `Option`s. A string field counts as
  given when it is present and not empty, which is both JavaScript
  truthiness and what Mongoose's `required` accepts.
- The caller's user id, which the token middleware supplies, is a parameter.
- Two behaviours of the code are more permissive than an owner-restricted
  API; the model follows the code:
  - Update and delete do not check that the caller owns the document. Any
    authenticated caller can update or delete any document by id.
  - Update runs no validators, so its questions are stored as given (see
    "Left out").

## Model

| member | source | states |
|---|---|---|
| `Common.ParseOptionType` | src/models/quiz.model.js:22-26 | the `optionType` enum accepts exactly "text", "image", "textImage", each as its own value (the poll schema uses the same enumeration) |
| `QuizSchema.ParseTimer` | src/models/quiz.model.js:28-32 | the `timer` enum accepts exactly "off", "5", "10", each as its own value |
| `QuizSchema.CastTimer` | src/models/quiz.model.js:28-32 | an absent timer defaults to off; a given one must name one of the three values |
| `QuizSchema.CastOption` | src/models/quiz.model.js:3-15 | an option is accepted exactly when its required text is given; text and imageUrl are kept; `correct` is true exactly when given as true (default false) |
| `QuizSchema.CastQuestion` | src/models/quiz.model.js:17-45 | a question is accepted exactly when its schema constraints hold (prompt, optionType in the enum, timer in the enum, text on every option); it keeps its id, prompt and options in order; the three counters take the given values or default to 0 |
| `QuizSchema.NewQuiz` | src/models/quiz.model.js:47-78 | saving a new quiz succeeds exactly when the title and owner are given, `arrayLimit` holds (at most 5 questions) and every question conforms; the result has the given title and owner, impressions 0, the cast questions in order, and satisfies the schema invariant `ValidQuiz` |
| `QuizSchema.ValidQuiz` | src/models/quiz.model.js:47-78 | the quiz schema's invariant: a non-empty title and owner, at most 5 questions, each with a prompt and text on every option; `NewQuiz` proves every quiz it builds satisfies it |
| `Common.ArrayLimit` | src/models/quiz.model.js:76-78 | the `arrayLimit` validator of both schemas (also src/models/poll.model.js:64-66): at most `MaxQuestions` = 5 questions; `NewQuiz` and `NewPoll` accept exactly when it holds, together with the other validators |
| `QuizSchema.FindQuestion` | src/controllers/quiz.controller.js:174 | `questions.id(x)`: either the first index whose question has id x, or none when no question has it |
| `PollSchema.CastOptionType` | src/models/poll.model.js:25-29 | an absent poll optionType defaults to text; a given one must be in the enum |
| `PollSchema.CastOption` | src/models/poll.model.js:4-17 | a poll option is accepted exactly when its required text is given; `selectionCount` takes the given value or defaults to 0 |
| `PollSchema.CastQuestion` | src/models/poll.model.js:19-30 | a poll question (prompt, options, optionType; no correctness, timer or counters) is accepted exactly when its constraints hold, keeping id, prompt and the cast options in order |
| `PollSchema.NewPoll` | src/models/poll.model.js:32-66 | saving a new poll succeeds exactly when title and owner are given, at most 5 questions, and every question conforms; the result has impressions 0, the given title and owner, and satisfies `ValidPoll` |
| `PollSchema.ValidPoll` | src/models/poll.model.js:32-66 | the poll schema's invariant: a non-empty title and owner, at most 5 questions, each with a prompt and text on every option; `NewPoll` proves every poll it builds satisfies it |
| `PollSchema.FindQuestion` | src/controllers/poll.controller.js:172 | `questions.id(x)` on a poll: either the first index with id x, or none when no question has it |
| `QuizController.Validate` | src/controllers/quiz.controller.js:14-30 | no error exactly when every check passes; InvalidInput exactly when the title is not truthy, questions is not an array or is empty; InvalidQuestion or NoCorrectOption exactly when the first failing question lacks prompt/optionType/two options, or has them but no option marked correct |
| `QuizController.AcceptedQuizShape` | src/controllers/quiz.controller.js:19-30 | a stored quiz built from a passing payload has 1 to 5 questions, each with a prompt, at least 2 options and an option whose `correct` is true |
| `QuizController.CreateQuiz` | src/controllers/quiz.controller.js:9-57 | 201 exactly when the controller checks and the schema accept; then the quiz is stored under a fresh id with createdBy = caller, the given title, impressions 0; otherwise 400 (SaveFailed only when the controller checks passed) and the store is unchanged |
| `QuizController.UpdateQuizStats` | src/controllers/quiz.controller.js:162-197 | 404 and no change for an unknown id; otherwise the stored quiz becomes the old one with questions `ApplyResults(old questions, results)` (title, owner, impressions unchanged), no other document changes, and it is returned with 200 |
| `QuizController.Lifecycle` | src/controllers/quiz.controller.js:9-197 | on a fresh collection, create/get/submit results/delete/get answer 201, 200, 200, 200, 404, and the submitted results end up in the created quiz's counters |
| `QuizController.CreditResults` | src/controllers/quiz.controller.js:173-181 | the handler's `forEach` over `questionResults`, as a loop updating the questions: the result is `ApplyResults(questions, results)` |
| `QuizStats.Credit` | src/controllers/quiz.controller.js:177-179 | the three `+=`: each counter gains its delta from the result, and prompt, type, options, timer and id are unchanged |
| `QuizStats.ApplyResult` | src/controllers/quiz.controller.js:174-180 | one iteration: same number of questions, same layout; the question `questions.id` finds gains the result's deltas and every other question is unchanged |
| `QuizStats.ApplyResults` | src/controllers/quiz.controller.js:173-181 | the whole batch: same number of questions, each keeping its layout; the lemmas below give its exact counters |
| `QuizStats.ApplyResultsIsTallied` | src/controllers/quiz.controller.js:173-181 | the handler's loop equals the closed form: each question's counters plus the sum of the deltas of the results that resolve to it |
| `QuizStats.CountersExact` | src/controllers/quiz.controller.js:176-180 | attempts, correctAnswers and incorrectAnswers of question k rise by exactly the `attempts`, `correct` and `incorrect` of the results naming it, with no sign condition on the deltas |
| `QuizStats.LayoutPreserved` | src/controllers/quiz.controller.js:173-181 | question count, order and ids, and each question's prompt, optionType, options and timer are unchanged |
| `QuizStats.BatchesAccumulate` | src/controllers/quiz.controller.js:177-179 | a second batch adds to the counters left by the first; nothing is overwritten |
| `QuizStats.BatchTwiceDoubles` | src/controllers/quiz.controller.js:177-179 | applying the same batch twice adds twice its deltas to every counter |
| `QuizStats.BatchOrderIrrelevant` | src/controllers/quiz.controller.js:173-181 | any reordering of a batch (an equal multiset of results) gives the same questions |
| `QuizStats.UnaddressedQuestionUnchanged` | src/controllers/quiz.controller.js:173-181 | a question that no result of the batch names is left exactly as it was |
| `QuizStats.UnknownQuestionSkipped` | src/controllers/quiz.controller.js:174-176 | a result whose questionId names no question has no effect wherever it stands in the batch |
| `QuizStats.RepeatedSubmissionExample` | src/controllers/quiz.controller.js:177-179 | {attempts 3, correct 2, incorrect 1} submitted twice to a fresh question gives 6, 4, 2 |
| `PollController.Validate` | src/controllers/poll.controller.js:14-23 | no error exactly when every check passes; InvalidInput exactly when the title is not truthy or questions is not a non-empty array; InvalidQuestion exactly when some question lacks prompt, optionType or two options; nothing else |
| `PollController.AcceptedPollShape` | src/controllers/poll.controller.js:19-23 | a poll built from a passing payload has 1 to 5 questions, each with a prompt and at least 2 options |
| `PollController.CreatePoll` | src/controllers/poll.controller.js:9-51 | 201 exactly when the controller checks and the schema accept, storing the poll under a fresh id with createdBy = caller and impressions 0; otherwise 400 and no change |
| `PollController.UpdatePollStats` | src/controllers/poll.controller.js:160-197 | 404 and no change for an unknown id; otherwise the stored poll becomes the old one with questions `ApplyPollResults(old questions, results)`, nothing else changes, and it is returned with 200 |
| `PollController.CountSelections` | src/controllers/poll.controller.js:171-181 | the handler's two nested `forEach` loops, as loops updating the questions and options: the result is `ApplyPollResults(questions, results)` |
| `PollStats.Select` | src/controllers/poll.controller.js:176-178 | one bounds-checked increment: same options, texts and images; option i gains 1 when it is in range, every other option is unchanged, and an out-of-range i changes nothing |
| `PollStats.SelectAll` | src/controllers/poll.controller.js:175-179 | the inner loop as a fold of `Select`; `SelectAllIsCounted` proves it adds each index's number of occurrences |
| `PollStats.ApplyPollResult` | src/controllers/poll.controller.js:172-180 | one outer iteration: the named question's options go through `SelectAll`; `ApplyPollResultsIsTallied` and `UnaddressedQuestionUnchanged` give its effect |
| `PollStats.ApplyPollResults` | src/controllers/poll.controller.js:171-181 | the outer loop as a fold of `ApplyPollResult`; `ApplyPollResultsIsTallied` proves it equals the closed form |
| `PollStats.SelectAllIsCounted` | src/controllers/poll.controller.js:175-179 | the inner loop adds to each option's count the number of occurrences of its index in `optionsSelected`: duplicates count once per occurrence, out-of-range indices not at all |
| `PollStats.ApplyPollResultsIsTallied` | src/controllers/poll.controller.js:171-181 | the two loops equal the closed form: each option's count plus how often its index was selected by the results resolving to its question |
| `PollStats.SelectionsExact` | src/controllers/poll.controller.js:175-178 | option j of question k rises by exactly the number of times j was selected for k; nothing else of the question changes |
| `PollStats.PollLayoutPreserved` | src/controllers/poll.controller.js:171-181 | question count, order and ids, prompts, option types, option counts, option texts and images are unchanged |
| `PollStats.OutOfRangeIgnored` | src/controllers/poll.controller.js:176 | indices outside [0, number of options) leave the options unchanged |
| `PollStats.UnknownQuestionSkipped` | src/controllers/poll.controller.js:172-174 | a result whose questionId names no question has no effect wherever it stands |
| `PollStats.BatchesAccumulate` | src/controllers/poll.controller.js:177 | a second batch adds its votes to the counts left by the first; nothing is overwritten |
| `PollStats.BatchTwiceDoubles` | src/controllers/poll.controller.js:177 | applying the same batch twice counts each of its selections twice |
| `PollStats.BatchOrderIrrelevant` | src/controllers/poll.controller.js:171-181 | any reordering of a batch (an equal multiset of results) gives the same questions |
| `PollStats.UnaddressedQuestionUnchanged` | src/controllers/poll.controller.js:171-181 | a question that no result of the batch names is left exactly as it was |
| `PollStats.SelectAllTotal` | src/controllers/poll.controller.js:175-179 | a question's total selection count grows by exactly the number of in-range indices selected |
| `PollStats.PollTotalGrowth` | src/controllers/poll.controller.js:171-183 | the poll's total selection count grows by exactly the number of in-range indices over the results that resolve |
| `PollStats.TwoOptionExample` | src/controllers/poll.controller.js:175-178 | selecting [0, 1] on a two-option question counts each option once; [5] changes nothing |
| `DocumentStore.InsertByImpressions` | src/controllers/quiz.controller.js:62 | `sort({ impressions: -1 })` one document at a time; the three lemmas below prove that it adds exactly the entry, keeps the order and keeps the ids distinct |
| `DocumentStore.InsertByImpressionsContents` | src/controllers/quiz.controller.js:62 | inserting one document into the sorted listing adds exactly that entry: as multisets the result is the old listing plus the entry (so it is one longer, every earlier entry is kept with its multiplicity, and nothing else appears) |
| `DocumentStore.InsertByImpressionsSorted` | src/controllers/quiz.controller.js:62 | `sort({ impressions: -1 })`: inserting into a listing in non-increasing order of impressions keeps that order |
| `DocumentStore.InsertByImpressionsDistinct` | src/controllers/quiz.controller.js:62 | inserting an entry whose id is not yet listed keeps the listed ids distinct |
| `DocumentStore.Store.ListByOwner` | src/controllers/quiz.controller.js:59-75 | getallQuizzes/getallPoll: every listed entry is a stored document of the caller, every such document is listed, once, in non-increasing order of impressions |
| `DocumentStore.Store.Get` | src/controllers/quiz.controller.js:77-116 | getQuizById and viewQuiz (and the poll versions): the stored document, or 404 when the id is absent |
| `DocumentStore.Store.ReplaceQuestions` | src/controllers/quiz.controller.js:119-139 | updateQuiz/updatePoll: 404 and no change when absent; otherwise only that document's questions are replaced, and the updated document is returned |
| `DocumentStore.Store.Delete` | src/controllers/poll.controller.js:136-157 | deletePoll/deleteQuiz: 404 and no change when absent; otherwise exactly that id is removed and the removed document returned |
| `DocumentStore.Store.IncrementImpressions` | src/controllers/poll.controller.js:199-217 | impressionIncrement (both controllers): 404 and no change when absent; otherwise impressions rise by exactly 1 and nothing else changes |
| `DocumentStore.Store.Insert` | src/controllers/quiz.controller.js:36-41 | a new document is stored under an id not in use and nothing else changes |
| `DocumentStore.Store.Save` | src/controllers/quiz.controller.js:183 | saving a loaded document replaces it and nothing else |

## Left out

- HTTP routing, CORS, body parsing, the database connection, the JSON
  response envelope and its argument order, and log output: framework
  wiring. A handler's outcome is a `Response` value with its status code.
- Authentication (`verifyToken`, register, login, token handling): these
  use foreign libraries. The caller's user id is a parameter, and the model
  does not tell authenticated routes from public ones.
- Store failures and the 500 replies: ObjectId cast errors, exceptions
  thrown by the driver, and the empty `catch` of `getallQuizzes`, which
  sends no reply. The model has no failing store.
- Concurrency: the atomicity of `$inc` and the lost updates between
  concurrent read-modify-write stats submissions. Every operation is one
  sequential step.
- JavaScript `Number` semantics in the stats handlers. Deltas and indices
  are unbounded integers. Missing or non-numeric deltas (NaN), fractional
  or string indices, and a `questionResults` or `optionsSelected` that is
  not an array (a thrown TypeError and a 500) are not modelled.
- Values of JavaScript types other than the schema's turned up by Mongoose
  casting (a number given as a title, the string "true" for `correct`).
  Request fields have their schema types or are absent.
- `DocumentStore.Store.ReplaceQuestions`: takes the new questions already
  in stored form. The casting of a raw update body (defaults, missing
  fields) is not modelled. `findByIdAndUpdate` runs no validators, so the
  model does not validate either: an update can store six questions or a
  quiz question with no correct option.
- `QuizController.UpdateQuizStats`, `PollController.UpdatePollStats`: the
  schema validation that `save()` re-runs on the changed document is not
  modelled. It can only fail for a document that an unvalidated update had
  already made invalid.
- Timestamps (`createdAt`, `updatedAt`) and `Date.now`: clock values.
- The order among listed documents with equal impressions is left open,
  because the database does not fix it.
