/** The poll schema: stored options (each with its selection counter),
    questions and polls, the request fields they are built from, and what
    constructing and saving a new poll document does with them. Poll
    questions have no correctness, timer or attempt counters: only their
    options count. */
module PollSchema {
  import opened Common
  import opened DocumentStore

  datatype PollOption = PollOption(text: string, imageUrl: Option<string>, selectionCount: int)

  datatype PollQuestion = PollQuestion(id: QId, pollQuestion: string, options: seq<PollOption>, optionType: OptionType)

  type Poll = Aggregate<PollQuestion>

  datatype OptionInput = OptionInput(text: Option<string>, imageUrl: Option<string>, selectionCount: Option<int>)

  /** A question as the request body gives it. `id` is the sub-document id
      Mongoose assigns while casting. */
  datatype QuestionInput = QuestionInput(
    id: QId,
    pollQuestion: Option<string>,
    options: Option<seq<OptionInput>>,
    optionType: Option<string>)

  /** `optionType` defaults to text; a given value must be one of the three. */
  function CastOptionType(s: Option<string>): (r: Option<OptionType>)
    ensures s.None? ==> r == Some(Text)
    ensures s.Some? ==> forall t :: r == Some(t) <==> s.value == OptionTypeName(t)
  {
    if s.None? then Some(Text) else ParseOptionType(s.value)
  }

  /** An option is stored when its required `text` is given; its
      `selectionCount` defaults to 0. */
  function CastOption(o: OptionInput): (r: Option<PollOption>)
    ensures r.Some? <==> Truthy(o.text)
    ensures r.Some? ==> r.value.text == o.text.value && r.value.imageUrl == o.imageUrl
    ensures r.Some? ==> r.value.selectionCount == o.selectionCount.GetOr(0)
  {
    if Truthy(o.text) then Some(PollOption(o.text.value, o.imageUrl, o.selectionCount.GetOr(0))) else None
  }

  /** What the question schema demands: the required `pollQuestion`, an
      `optionType` from the enumeration when one is given, and a `text`
      on every option. */
  predicate QuestionConforms(q: QuestionInput) {
    && Truthy(q.pollQuestion)
    && CastOptionType(q.optionType).Some?
    && forall j :: 0 <= j < |q.options.GetOr([])| ==> Truthy(q.options.GetOr([])[j].text)
  }

  function CastQuestion(q: QuestionInput): (r: Option<PollQuestion>)
    ensures r.Some? <==> QuestionConforms(q)
    ensures r.Some? ==>
      && r.value.id == q.id && r.value.pollQuestion == q.pollQuestion.value
      && Some(r.value.optionType) == CastOptionType(q.optionType)
      && |r.value.options| == |q.options.GetOr([])|
      && forall j :: 0 <= j < |r.value.options| ==> CastOption(q.options.GetOr([])[j]) == Some(r.value.options[j])
  {
    if !Truthy(q.pollQuestion) then None
    else
      match (CastOptionType(q.optionType), CastAll(q.options.GetOr([]), CastOption))
      case (Some(t), Some(os)) => Some(PollQuestion(q.id, q.pollQuestion.value, os, t))
      case _ => None
  }

  /** The invariant the schema's validators enforce on a saved poll. */
  predicate ValidPoll(poll: Poll) {
    && poll.title != ""
    && poll.createdBy != ""
    && ArrayLimit(poll.questions)
    && forall i :: 0 <= i < |poll.questions| ==> ValidQuestion(poll.questions[i])
  }

  predicate ValidQuestion(q: PollQuestion) {
    q.pollQuestion != "" && forall j :: 0 <= j < |q.options| ==> q.options[j].text != ""
  }

  /** `new Poll({ title, questions, createdBy }).save()`: the document is
      stored exactly when every validator passes; it then carries the
      given title and owner, the cast questions in order, no impressions,
      and satisfies the schema invariant. */
  function NewPoll(title: Option<string>, questions: Option<seq<QuestionInput>>, createdBy: UserId): (r: Option<Poll>)
    ensures r.Some? <==>
      && Truthy(title) && createdBy != "" && questions.Some? && ArrayLimit(questions.value)
      && forall i :: 0 <= i < |questions.value| ==> QuestionConforms(questions.value[i])
    ensures r.Some? ==>
      && r.value.title == title.value && r.value.createdBy == createdBy && r.value.impressions == 0
      && |r.value.questions| == |questions.value|
      && (forall i :: 0 <= i < |questions.value| ==> CastQuestion(questions.value[i]) == Some(r.value.questions[i]))
      && ValidPoll(r.value)
  {
    if !Truthy(title) || createdBy == "" || questions.None? || !ArrayLimit(questions.value) then None
    else
      match CastAll(questions.value, CastQuestion)
      case None => None
      case Some(qs) =>
        var poll := Aggregate(title.value, qs, createdBy, 0);
        assert forall i :: 0 <= i < |qs| ==> ValidQuestion(qs[i]) by {
          forall i | 0 <= i < |qs| ensures ValidQuestion(qs[i]) {
            assert CastQuestion(questions.value[i]) == Some(qs[i]);
            forall j | 0 <= j < |qs[i].options| ensures qs[i].options[j].text != "" {
              assert CastOption(questions.value[i].options.GetOr([])[j]) == Some(qs[i].options[j]);
            }
          }
        }
        Some(poll)
  }

  function Ids(qs: seq<PollQuestion>): (ids: seq<QId>)
    ensures |ids| == |qs| && forall i :: 0 <= i < |qs| ==> ids[i] == qs[i].id
  {
    seq(|qs|, i requires 0 <= i < |qs| => qs[i].id)
  }

  /** `questions.id(x)`: the first question whose sub-document id is x. */
  function FindQuestion(qs: seq<PollQuestion>, x: QId): (r: Option<nat>)
    ensures r.Some? ==> r.value < |qs| && qs[r.value].id == x && forall j :: 0 <= j < r.value ==> qs[j].id != x
    ensures r.None? <==> forall j :: 0 <= j < |qs| ==> qs[j].id != x
  {
    IndexOf(Ids(qs), x)
  }
}
