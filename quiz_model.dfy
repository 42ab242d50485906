/** The quiz schema: stored options, questions and quizzes, the shape of
    the request fields they are built from, and what constructing and
    saving a new quiz document does with them (defaults and validators). */
module QuizSchema {
  import opened Common
  import opened DocumentStore

  /** The `timer` enumeration: off, 5 seconds, 10 seconds. */
  datatype Timer = Off | Five | Ten

  datatype QuizOption = QuizOption(text: string, imageUrl: Option<string>, correct: bool)

  datatype QuizQuestion = QuizQuestion(
    id: QId,
    pollQuestion: string,
    optionType: OptionType,
    options: seq<QuizOption>,
    timer: Timer,
    attempts: int,
    correctAnswers: int,
    incorrectAnswers: int)

  type Quiz = Aggregate<QuizQuestion>

  /** An option as the request body gives it; any field may be absent. */
  datatype OptionInput = OptionInput(text: Option<string>, imageUrl: Option<string>, correct: Option<bool>)

  /** A question as the request body gives it. `id` is the sub-document id
      Mongoose assigns while casting. */
  datatype QuestionInput = QuestionInput(
    id: QId,
    pollQuestion: Option<string>,
    optionType: Option<string>,
    options: Option<seq<OptionInput>>,
    timer: Option<string>,
    attempts: Option<int>,
    correctAnswers: Option<int>,
    incorrectAnswers: Option<int>)

  function TimerName(t: Timer): string {
    match t
    case Off => "off"
    case Five => "5"
    case Ten => "10"
  }

  /** The enum validator of `timer`. */
  function ParseTimer(s: string): (r: Option<Timer>)
    ensures forall t :: r == Some(t) <==> s == TimerName(t)
  {
    if s == "off" then Some(Off)
    else if s == "5" then Some(Five)
    else if s == "10" then Some(Ten)
    else None
  }

  /** `timer` defaults to off; a given value must be one of the three. */
  function CastTimer(s: Option<string>): (r: Option<Timer>)
    ensures s.None? ==> r == Some(Off)
    ensures s.Some? ==> forall t :: r == Some(t) <==> s.value == TimerName(t)
  {
    if s.None? then Some(Off) else ParseTimer(s.value)
  }

  /** An option is stored when its required `text` is given; `correct`
      defaults to false. */
  function CastOption(o: OptionInput): (r: Option<QuizOption>)
    ensures r.Some? <==> Truthy(o.text)
    ensures r.Some? ==> r.value.text == o.text.value && r.value.imageUrl == o.imageUrl
    ensures r.Some? ==> (r.value.correct <==> o.correct == Some(true))
  {
    if Truthy(o.text) then Some(QuizOption(o.text.value, o.imageUrl, o.correct.GetOr(false))) else None
  }

  /** What the question schema demands: the required `pollQuestion`, an
      `optionType` from the enumeration, a `timer` from its enumeration
      when one is given, and a `text` on every option. */
  predicate QuestionConforms(q: QuestionInput) {
    && Truthy(q.pollQuestion)
    && q.optionType.Some? && ParseOptionType(q.optionType.value).Some?
    && CastTimer(q.timer).Some?
    && forall j :: 0 <= j < |q.options.GetOr([])| ==> Truthy(q.options.GetOr([])[j].text)
  }

  /** The counters default to 0 and the options array to empty. */
  function CastQuestion(q: QuestionInput): (r: Option<QuizQuestion>)
    ensures r.Some? <==> QuestionConforms(q)
    ensures r.Some? ==>
      && r.value.id == q.id && r.value.pollQuestion == q.pollQuestion.value
      && Some(r.value.optionType) == ParseOptionType(q.optionType.value)
      && Some(r.value.timer) == CastTimer(q.timer)
      && r.value.attempts == q.attempts.GetOr(0)
      && r.value.correctAnswers == q.correctAnswers.GetOr(0)
      && r.value.incorrectAnswers == q.incorrectAnswers.GetOr(0)
      && |r.value.options| == |q.options.GetOr([])|
      && forall j :: 0 <= j < |r.value.options| ==> CastOption(q.options.GetOr([])[j]) == Some(r.value.options[j])
  {
    if !Truthy(q.pollQuestion) || q.optionType.None? then None
    else
      match (ParseOptionType(q.optionType.value), CastTimer(q.timer), CastAll(q.options.GetOr([]), CastOption))
      case (Some(t), Some(tm), Some(os)) =>
        Some(QuizQuestion(q.id, q.pollQuestion.value, t, os, tm,
                          q.attempts.GetOr(0), q.correctAnswers.GetOr(0), q.incorrectAnswers.GetOr(0)))
      case _ => None
  }

  /** The invariant the schema's validators enforce on a saved quiz. */
  predicate ValidQuiz(quiz: Quiz) {
    && quiz.title != ""
    && quiz.createdBy != ""
    && ArrayLimit(quiz.questions)
    && forall i :: 0 <= i < |quiz.questions| ==> ValidQuestion(quiz.questions[i])
  }

  predicate ValidQuestion(q: QuizQuestion) {
    q.pollQuestion != "" && forall j :: 0 <= j < |q.options| ==> q.options[j].text != ""
  }

  /** `new Quiz({ title, questions, createdBy }).save()`: the document is
      stored exactly when every validator passes; it then carries the
      given title and owner, the cast questions in order, no impressions,
      and satisfies the schema invariant. */
  function NewQuiz(title: Option<string>, questions: Option<seq<QuestionInput>>, createdBy: UserId): (r: Option<Quiz>)
    ensures r.Some? <==>
      && Truthy(title) && createdBy != "" && questions.Some? && ArrayLimit(questions.value)
      && forall i :: 0 <= i < |questions.value| ==> QuestionConforms(questions.value[i])
    ensures r.Some? ==>
      && r.value.title == title.value && r.value.createdBy == createdBy && r.value.impressions == 0
      && |r.value.questions| == |questions.value|
      && (forall i :: 0 <= i < |questions.value| ==> CastQuestion(questions.value[i]) == Some(r.value.questions[i]))
      && ValidQuiz(r.value)
  {
    if !Truthy(title) || createdBy == "" || questions.None? || !ArrayLimit(questions.value) then None
    else
      match CastAll(questions.value, CastQuestion)
      case None => None
      case Some(qs) =>
        var quiz := Aggregate(title.value, qs, createdBy, 0);
        assert forall i :: 0 <= i < |qs| ==> ValidQuestion(qs[i]) by {
          forall i | 0 <= i < |qs| ensures ValidQuestion(qs[i]) {
            assert CastQuestion(questions.value[i]) == Some(qs[i]);
            forall j | 0 <= j < |qs[i].options| ensures qs[i].options[j].text != "" {
              assert CastOption(questions.value[i].options.GetOr([])[j]) == Some(qs[i].options[j]);
            }
          }
        }
        Some(quiz)
  }

  function Ids(qs: seq<QuizQuestion>): (ids: seq<QId>)
    ensures |ids| == |qs| && forall i :: 0 <= i < |qs| ==> ids[i] == qs[i].id
  {
    seq(|qs|, i requires 0 <= i < |qs| => qs[i].id)
  }

  /** `questions.id(x)`: the first question whose sub-document id is x. */
  function FindQuestion(qs: seq<QuizQuestion>, x: QId): (r: Option<nat>)
    ensures r.Some? ==> r.value < |qs| && qs[r.value].id == x && forall j :: 0 <= j < r.value ==> qs[j].id != x
    ensures r.None? <==> forall j :: 0 <= j < |qs| ==> qs[j].id != x
  {
    IndexOf(Ids(qs), x)
  }
}
