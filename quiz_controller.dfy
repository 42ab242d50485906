/** The quiz handlers that do more than one store call: `createQuiz`
    (the controller's checks, then the schema's) and `updateQuizStats`
    (load, apply the batch of results to the question counters, save).
    The remaining quiz handlers are the `DocumentStore.Store` methods on
    the quiz collection. */
module QuizController {
  import opened Common
  import opened DocumentStore
  import opened QuizSchema
  import opened QuizStats

  /** The body of a create request: `title` and `questions`; None for
      `questions` stands for a value that is not an array. */
  datatype Payload = Payload(title: Option<string>, questions: Option<seq<QuestionInput>>)

  /** The first check: a truthy title and a non-empty questions array. */
  predicate RequestShapeOk(p: Payload) {
    Truthy(p.title) && p.questions.Some? && |p.questions.value| > 0
  }

  /** The per-question shape check. */
  predicate QuestionShapeOk(q: QuestionInput) {
    Truthy(q.pollQuestion) && Truthy(q.optionType) && q.options.Some? && |q.options.value| >= 2
  }

  /** `option.correct` is truthy. */
  predicate MarkedCorrect(o: OptionInput) {
    o.correct == Some(true)
  }

  predicate HasCorrectOption(q: QuestionInput) {
    q.options.Some? && exists j :: 0 <= j < |q.options.value| && MarkedCorrect(q.options.value[j])
  }

  predicate QuestionPasses(q: QuestionInput) {
    QuestionShapeOk(q) && HasCorrectOption(q)
  }

  /** Question i is the first one that fails a check. */
  predicate FirstFailure(qs: seq<QuestionInput>, i: int) {
    0 <= i < |qs| && !QuestionPasses(qs[i]) && forall j :: 0 <= j < i ==> QuestionPasses(qs[j])
  }

  /** Everything the controller checks before building the document. */
  predicate Passes(p: Payload) {
    RequestShapeOk(p) && forall i :: 0 <= i < |p.questions.value| ==> QuestionPasses(p.questions.value[i])
  }

  /** The validation loop of `createQuiz` with its early returns: None
      when every check passes; otherwise the reply of the first check that
      fails, the questions being checked in order. */
  method Validate(p: Payload) returns (err: Option<CreateError>)
    ensures err.None? <==> Passes(p)
    ensures err != Some(SaveFailed)
    ensures err == Some(InvalidInput) <==> !RequestShapeOk(p)
    ensures err == Some(InvalidQuestion) <==>
      RequestShapeOk(p) && exists i :: FirstFailure(p.questions.value, i) && !QuestionShapeOk(p.questions.value[i])
    ensures err == Some(NoCorrectOption) <==>
      RequestShapeOk(p) && exists i :: FirstFailure(p.questions.value, i) && QuestionShapeOk(p.questions.value[i])
  {
    if !RequestShapeOk(p) {
      return Some(InvalidInput);
    }
    var questions := p.questions.value;
    var i := 0;
    while i < |questions|
      invariant 0 <= i <= |questions|
      invariant forall j :: 0 <= j < i ==> QuestionPasses(questions[j])
    {
      var question := questions[i];
      if !QuestionShapeOk(question) {
        assert FirstFailure(questions, i);
        return Some(InvalidQuestion);
      }
      var options := question.options.value;
      var correctOptionSelected := false;
      var j := 0;
      while j < |options|
        invariant 0 <= j <= |options|
        invariant correctOptionSelected <==> exists m :: 0 <= m < j && MarkedCorrect(options[m])
      {
        if options[j].correct == Some(true) {
          correctOptionSelected := true;
        }
        j := j + 1;
      }
      if !correctOptionSelected {
        assert FirstFailure(questions, i);
        return Some(NoCorrectOption);
      }
      i := i + 1;
    }
    return None;
  }

  /** What every quiz that `createQuiz` stores looks like: one to five
      questions, each with a prompt, at least two options and an option
      marked correct. */
  predicate AcceptedShape(quiz: Quiz) {
    && 1 <= |quiz.questions| <= MaxQuestions
    && forall i :: 0 <= i < |quiz.questions| ==>
         && quiz.questions[i].pollQuestion != ""
         && |quiz.questions[i].options| >= 2
         && exists j :: 0 <= j < |quiz.questions[i].options| && quiz.questions[i].options[j].correct
  }

  /** A quiz built from a payload that passed the controller's checks has
      the accepted shape. */
  lemma AcceptedQuizShape(p: Payload, caller: UserId)
    requires Passes(p) && NewQuiz(p.title, p.questions, caller).Some?
    ensures AcceptedShape(NewQuiz(p.title, p.questions, caller).value)
  {
    var quiz := NewQuiz(p.title, p.questions, caller).value;
    var ins := p.questions.value;
    forall i | 0 <= i < |quiz.questions|
      ensures exists j :: 0 <= j < |quiz.questions[i].options| && quiz.questions[i].options[j].correct
    {
      assert CastQuestion(ins[i]) == Some(quiz.questions[i]);
      assert QuestionPasses(ins[i]);
      var j :| 0 <= j < |ins[i].options.value| && MarkedCorrect(ins[i].options.value[j]);
      assert CastOption(ins[i].options.GetOr([])[j]) == Some(quiz.questions[i].options[j]);
    }
  }

  /** `createQuiz`: a payload that fails a controller check, or whose
      document fails the schema (more than five questions, an unknown
      option type or timer, an option without text), is answered with 400
      and nothing is stored; otherwise the quiz is stored under a fresh id
      with the caller as owner and answered with 201. */
  method CreateQuiz(store: Store<QuizQuestion>, caller: UserId, p: Payload) returns (r: Response<Quiz>)
    requires store.Valid()
    modifies store
    ensures store.Valid()
    ensures r.Created? || r.BadRequest?
    ensures r.Created? <==> Passes(p) && NewQuiz(p.title, p.questions, caller).Some?
    ensures !Passes(p) ==> r.BadRequest? && r.error != SaveFailed
    ensures Passes(p) && r.BadRequest? ==> r.error == SaveFailed
    ensures r.BadRequest? ==> store.docs == old(store.docs)
    ensures r.Created? ==>
      && r.id !in old(store.docs)
      && store.docs == old(store.docs)[r.id := r.value]
      && Some(r.value) == NewQuiz(p.title, p.questions, caller)
      && r.value.createdBy == caller && r.value.title == p.title.value && r.value.impressions == 0
      && AcceptedShape(r.value) && ValidQuiz(r.value)
  {
    var err := Validate(p);
    if err.Some? {
      return BadRequest(err.value);
    }
    var quiz := NewQuiz(p.title, p.questions, caller);
    if quiz.None? {
      return BadRequest(SaveFailed);
    }
    AcceptedQuizShape(p, caller);
    var id := store.Insert(quiz.value);
    r := Created(id, quiz.value);
  }

  /** The loop of `updateQuizStats` over the loaded questions: each
      result that names a question adds its three deltas to that
      question's counters. */
  method CreditResults(qs: seq<QuizQuestion>, results: seq<QuizResult>) returns (questions: seq<QuizQuestion>)
    ensures questions == ApplyResults(qs, results)
  {
    questions := qs;
    var i := 0;
    while i < |results|
      invariant 0 <= i <= |results|
      invariant questions == ApplyResults(qs, results[..i])
    {
      var result := results[i];
      var k := FindQuestion(questions, result.questionId);
      if k.Some? {
        var question := questions[k.value];
        questions := questions[k.value := question.(
          attempts := question.attempts + result.attempts,
          correctAnswers := question.correctAnswers + result.correct,
          incorrectAnswers := question.incorrectAnswers + result.incorrect)];
      }
      ApplyResultsStep(qs, results, i);
      i := i + 1;
    }
    assert results[..|results|] == results;
  }

  /** `updateQuizStats`: 404 and no change when the quiz does not exist;
      otherwise each result's deltas are added to the counters of the
      question it names (results naming no question are skipped), the
      quiz is saved and returned. */
  method UpdateQuizStats(store: Store<QuizQuestion>, id: Id, results: seq<QuizResult>) returns (r: Response<Quiz>)
    requires store.Valid()
    modifies store
    ensures store.Valid() && store.nextId == old(store.nextId)
    ensures id !in old(store.docs) ==> r == NotFound && store.docs == old(store.docs)
    ensures id in old(store.docs) ==>
      && r == Ok(old(store.docs)[id].(questions := ApplyResults(old(store.docs)[id].questions, results)))
      && store.docs == old(store.docs)[id := r.value]
  {
    var found := store.Get(id);
    if found.NotFound? {
      return NotFound;
    }
    var quiz := found.value;
    var questions := CreditResults(quiz.questions, results);
    quiz := quiz.(questions := questions);
    store.Save(id, quiz);
    r := Ok(quiz);
  }

  /** A whole life cycle on a fresh quiz collection: create (201), get
      (200), submit results (200), delete (200), get again (404); the
      results end up in the counters of the created quiz. */
  method Lifecycle(caller: UserId, p: Payload, results: seq<QuizResult>) returns (codes: seq<int>, scored: Quiz)
    requires Passes(p) && NewQuiz(p.title, p.questions, caller).Some?
    ensures codes == [201, 200, 200, 200, 404]
    ensures var quiz := NewQuiz(p.title, p.questions, caller).value;
      scored == quiz.(questions := ApplyResults(quiz.questions, results))
  {
    var store := new Store<QuizQuestion>();
    var created := CreateQuiz(store, caller, p);
    var id := created.id;
    var fetched := store.Get(id);
    assert fetched == Ok(created.value);
    var submitted := UpdateQuizStats(store, id, results);
    scored := submitted.value;
    var deleted := store.Delete(id);
    var gone := store.Get(id);
    codes := [created.StatusCode(), fetched.StatusCode(), submitted.StatusCode(), deleted.StatusCode(), gone.StatusCode()];
  }
}
