/** The poll handlers that do more than one store call: `createPoll`
    (the controller's checks, then the schema's) and `updatePollStats`
    (load, count the selected options, save). The remaining poll handlers
    are the `DocumentStore.Store` methods on the poll collection. */
module PollController {
  import opened Common
  import opened DocumentStore
  import opened PollSchema
  import opened PollStats

  /** The body of a create request; None for `questions` stands for a
      value that is not an array. */
  datatype Payload = Payload(title: Option<string>, questions: Option<seq<QuestionInput>>)

  /** The first check: a truthy title and a non-empty questions array. */
  predicate RequestShapeOk(p: Payload) {
    Truthy(p.title) && p.questions.Some? && |p.questions.value| > 0
  }

  /** The per-question check; polls have no correct-option check. */
  predicate QuestionShapeOk(q: QuestionInput) {
    Truthy(q.pollQuestion) && Truthy(q.optionType) && q.options.Some? && |q.options.value| >= 2
  }

  predicate FirstFailure(qs: seq<QuestionInput>, i: int) {
    0 <= i < |qs| && !QuestionShapeOk(qs[i]) && forall j :: 0 <= j < i ==> QuestionShapeOk(qs[j])
  }

  predicate Passes(p: Payload) {
    RequestShapeOk(p) && forall i :: 0 <= i < |p.questions.value| ==> QuestionShapeOk(p.questions.value[i])
  }

  /** The validation loop of `createPoll` with its early returns. */
  method Validate(p: Payload) returns (err: Option<CreateError>)
    ensures err.None? <==> Passes(p)
    ensures err.None? || err == Some(InvalidInput) || err == Some(InvalidQuestion)
    ensures err == Some(InvalidInput) <==> !RequestShapeOk(p)
    ensures err == Some(InvalidQuestion) <==> RequestShapeOk(p) && exists i :: FirstFailure(p.questions.value, i)
  {
    if !RequestShapeOk(p) {
      return Some(InvalidInput);
    }
    var questions := p.questions.value;
    var i := 0;
    while i < |questions|
      invariant 0 <= i <= |questions|
      invariant forall j :: 0 <= j < i ==> QuestionShapeOk(questions[j])
    {
      if !QuestionShapeOk(questions[i]) {
        assert FirstFailure(questions, i);
        return Some(InvalidQuestion);
      }
      i := i + 1;
    }
    return None;
  }

  /** What every poll that `createPoll` stores looks like: one to five
      questions, each with a prompt and at least two options. */
  predicate AcceptedShape(poll: Poll) {
    && 1 <= |poll.questions| <= MaxQuestions
    && forall i :: 0 <= i < |poll.questions| ==>
         poll.questions[i].pollQuestion != "" && |poll.questions[i].options| >= 2
  }

  lemma AcceptedPollShape(p: Payload, caller: UserId)
    requires Passes(p) && NewPoll(p.title, p.questions, caller).Some?
    ensures AcceptedShape(NewPoll(p.title, p.questions, caller).value)
  {
    var poll := NewPoll(p.title, p.questions, caller).value;
    forall i | 0 <= i < |poll.questions| ensures |poll.questions[i].options| >= 2 {
      assert CastQuestion(p.questions.value[i]) == Some(poll.questions[i]);
    }
  }

  /** `createPoll`: 400 and nothing stored when a controller check or the
      schema rejects the payload; otherwise the poll is stored under a
      fresh id with the caller as owner and answered with 201. */
  method CreatePoll(store: Store<PollQuestion>, caller: UserId, p: Payload) returns (r: Response<Poll>)
    requires store.Valid()
    modifies store
    ensures store.Valid()
    ensures r.Created? || r.BadRequest?
    ensures r.Created? <==> Passes(p) && NewPoll(p.title, p.questions, caller).Some?
    ensures !Passes(p) ==> r.BadRequest? && r.error != SaveFailed
    ensures Passes(p) && r.BadRequest? ==> r.error == SaveFailed
    ensures r.BadRequest? ==> store.docs == old(store.docs)
    ensures r.Created? ==>
      && r.id !in old(store.docs)
      && store.docs == old(store.docs)[r.id := r.value]
      && Some(r.value) == NewPoll(p.title, p.questions, caller)
      && r.value.createdBy == caller && r.value.title == p.title.value && r.value.impressions == 0
      && AcceptedShape(r.value) && ValidPoll(r.value)
  {
    var err := Validate(p);
    if err.Some? {
      return BadRequest(err.value);
    }
    var poll := NewPoll(p.title, p.questions, caller);
    if poll.None? {
      return BadRequest(SaveFailed);
    }
    AcceptedPollShape(p, caller);
    var id := store.Insert(poll.value);
    r := Created(id, poll.value);
  }

  /** The two loops of `updatePollStats` over the loaded questions: for
      each result that names a question, every in-range option index it
      selects adds one to that option's count. */
  method CountSelections(qs: seq<PollQuestion>, results: seq<PollResult>) returns (questions: seq<PollQuestion>)
    ensures questions == ApplyPollResults(qs, results)
  {
    questions := qs;
    var i := 0;
    while i < |results|
      invariant 0 <= i <= |results|
      invariant questions == ApplyPollResults(qs, results[..i])
    {
      var result := results[i];
      var k := FindQuestion(questions, result.questionId);
      if k.Some? {
        var question := questions[k.value];
        var options := question.options;
        var j := 0;
        while j < |result.optionsSelected|
          invariant 0 <= j <= |result.optionsSelected|
          invariant options == SelectAll(question.options, result.optionsSelected[..j])
        {
          var optionIndex := result.optionsSelected[j];
          if 0 <= optionIndex < |options| {
            options := options[optionIndex := options[optionIndex].(selectionCount := options[optionIndex].selectionCount + 1)];
          }
          SelectAllStep(question.options, result.optionsSelected, j);
          j := j + 1;
        }
        assert result.optionsSelected[..|result.optionsSelected|] == result.optionsSelected;
        questions := questions[k.value := question.(options := options)];
      }
      ApplyPollResultsStep(qs, results, i);
      i := i + 1;
    }
    assert results[..|results|] == results;
  }

  /** `updatePollStats`: 404 and no change when the poll does not exist;
      otherwise every in-range option index of every result that names a
      question adds one to that option's count, and the poll is saved and
      returned. */
  method UpdatePollStats(store: Store<PollQuestion>, id: Id, results: seq<PollResult>) returns (r: Response<Poll>)
    requires store.Valid()
    modifies store
    ensures store.Valid() && store.nextId == old(store.nextId)
    ensures id !in old(store.docs) ==> r == NotFound && store.docs == old(store.docs)
    ensures id in old(store.docs) ==>
      && r == Ok(old(store.docs)[id].(questions := ApplyPollResults(old(store.docs)[id].questions, results)))
      && store.docs == old(store.docs)[id := r.value]
  {
    var found := store.Get(id);
    if found.NotFound? {
      return NotFound;
    }
    var poll := found.value;
    var questions := CountSelections(poll.questions, results);
    poll := poll.(questions := questions);
    store.Save(id, poll);
    r := Ok(poll);
  }
}
