/** What `updateQuizStats` does to a quiz's questions, as functions: each
    result of the batch that names a question of the quiz adds its three
    deltas to that question's counters, and a result naming no question is
    skipped. `ApplyResults` follows the handler's loop; `Tallied` is the
    closed form (each counter plus the deltas addressed to its question),
    and the lemmas below connect the two and derive additivity, order
    independence and the frame. */
module QuizStats {
  import opened Common
  import opened DocumentStore
  import opened QuizSchema

  /** One element of `questionResults`: the question's sub-document id and
      the three deltas. Nothing requires the deltas to be non-negative. */
  datatype QuizResult = QuizResult(questionId: QId, attempts: int, correct: int, incorrect: int)

  /** The three counters of a quiz question. */
  datatype Counter = Attempts | CorrectAnswers | IncorrectAnswers

  function Count(q: QuizQuestion, c: Counter): int {
    match c
    case Attempts => q.attempts
    case CorrectAnswers => q.correctAnswers
    case IncorrectAnswers => q.incorrectAnswers
  }

  /** The field of a result that is added to counter c. */
  function Delta(r: QuizResult, c: Counter): int {
    match c
    case Attempts => r.attempts
    case CorrectAnswers => r.correct
    case IncorrectAnswers => r.incorrect
  }

  /** Everything of a question except its counters. */
  predicate SameLayout(q: QuizQuestion, q': QuizQuestion) {
    && q.id == q'.id
    && q.pollQuestion == q'.pollQuestion
    && q.optionType == q'.optionType
    && q.options == q'.options
    && q.timer == q'.timer
  }

  /** The three `+=` of one resolved result: each counter gains its
      delta and nothing else of the question changes. */
  function Credit(q: QuizQuestion, r: QuizResult): (res: QuizQuestion)
    ensures SameLayout(q, res)
    ensures forall c :: Count(res, c) == Count(q, c) + Delta(r, c)
  {
    q.(attempts := q.attempts + r.attempts,
       correctAnswers := q.correctAnswers + r.correct,
       incorrectAnswers := q.incorrectAnswers + r.incorrect)
  }

  /** One iteration of the handler's loop: only the question the result
      names is credited. */
  function ApplyResult(qs: seq<QuizQuestion>, r: QuizResult): (res: seq<QuizQuestion>)
    ensures |res| == |qs|
    ensures forall k :: 0 <= k < |qs| ==> SameLayout(qs[k], res[k])
    ensures forall k :: 0 <= k < |qs| && FindQuestion(qs, r.questionId) != Some(k) ==> res[k] == qs[k]
    ensures forall k, c :: 0 <= k < |qs| && FindQuestion(qs, r.questionId) == Some(k) ==>
      Count(res[k], c) == Count(qs[k], c) + Delta(r, c)
  {
    match FindQuestion(qs, r.questionId)
    case None => qs
    case Some(k) => qs[k := Credit(qs[k], r)]
  }

  /** The batch, one result after the other. It keeps every question's
      place and everything but its counters. */
  function ApplyResults(qs: seq<QuizQuestion>, rs: seq<QuizResult>): (res: seq<QuizQuestion>)
    ensures |res| == |qs|
    ensures forall k :: 0 <= k < |qs| ==> SameLayout(qs[k], res[k])
    decreases |rs|
  {
    if rs == [] then qs
    else ApplyResult(ApplyResults(qs, rs[..|rs| - 1]), rs[|rs| - 1])
  }

  /** The sum of the c-deltas of the results in rs that resolve to
      question k of qs. */
  function Received(qs: seq<QuizQuestion>, rs: seq<QuizResult>, k: nat, c: Counter): int
    decreases |rs|
  {
    if rs == [] then 0
    else
      var last := rs[|rs| - 1];
      Received(qs, rs[..|rs| - 1], k, c) + (if FindQuestion(qs, last.questionId) == Some(k) then Delta(last, c) else 0)
  }

  function Tally(qs: seq<QuizQuestion>, rs: seq<QuizResult>, k: nat): QuizQuestion
    requires k < |qs|
  {
    qs[k].(attempts := qs[k].attempts + Received(qs, rs, k, Attempts),
           correctAnswers := qs[k].correctAnswers + Received(qs, rs, k, CorrectAnswers),
           incorrectAnswers := qs[k].incorrectAnswers + Received(qs, rs, k, IncorrectAnswers))
  }

  /** The closed form: every question plus the deltas addressed to it. */
  function Tallied(qs: seq<QuizQuestion>, rs: seq<QuizResult>): seq<QuizQuestion> {
    seq(|qs|, k requires 0 <= k < |qs| => Tally(qs, rs, k))
  }

  lemma {:induction false} ReceivedConcat(qs: seq<QuizQuestion>, a: seq<QuizResult>, b: seq<QuizResult>, k: nat, c: Counter)
    ensures Received(qs, a + b, k, c) == Received(qs, a, k, c) + Received(qs, b, k, c)
    decreases |b|
  {
    if b == [] {
      assert a + b == a;
    } else {
      assert (a + b)[..|a + b| - 1] == a + b[..|b| - 1];
      assert (a + b)[|a + b| - 1] == b[|b| - 1];
      ReceivedConcat(qs, a, b[..|b| - 1], k, c);
    }
  }

  /** One more result changes question k of the closed form as one
      iteration of the handler's loop does. */
  lemma TallyStep(qs: seq<QuizQuestion>, rs: seq<QuizResult>, k: nat)
    requires rs != [] && k < |qs|
    ensures ApplyResult(Tallied(qs, rs[..|rs| - 1]), rs[|rs| - 1])[k] == Tally(qs, rs, k)
  {
    var init, last := rs[..|rs| - 1], rs[|rs| - 1];
    var prev := Tallied(qs, init);
    assert Ids(prev) == Ids(qs);
    assert FindQuestion(prev, last.questionId) == FindQuestion(qs, last.questionId);
  }

  /** The handler's loop computes the closed form. */
  lemma {:induction false} ApplyResultsIsTallied(qs: seq<QuizQuestion>, rs: seq<QuizResult>)
    ensures ApplyResults(qs, rs) == Tallied(qs, rs)
    decreases |rs|
  {
    var t := Tallied(qs, rs);
    if rs == [] {
      assert forall k :: 0 <= k < |qs| ==> t[k] == qs[k];
    } else {
      ApplyResultsIsTallied(qs, rs[..|rs| - 1]);
      forall k | 0 <= k < |qs| ensures ApplyResults(qs, rs)[k] == t[k] {
        TallyStep(qs, rs, k);
      }
    }
  }

  /** Per question and counter: the new value is the old one plus the
      deltas of the results that name that question, and nothing else of
      the question changes. */
  lemma CountersExact(qs: seq<QuizQuestion>, rs: seq<QuizResult>, k: nat, c: Counter)
    requires k < |qs|
    ensures |ApplyResults(qs, rs)| == |qs|
    ensures Count(ApplyResults(qs, rs)[k], c) == Count(qs[k], c) + Received(qs, rs, k, c)
    ensures SameLayout(qs[k], ApplyResults(qs, rs)[k])
  {
    ApplyResultsIsTallied(qs, rs);
  }

  /** The question count, their order and ids, and each question's text,
      option type, options and timer are unchanged. */
  lemma LayoutPreserved(qs: seq<QuizQuestion>, rs: seq<QuizResult>)
    ensures |ApplyResults(qs, rs)| == |qs|
    ensures forall k :: 0 <= k < |qs| ==> SameLayout(qs[k], ApplyResults(qs, rs)[k])
    ensures Ids(ApplyResults(qs, rs)) == Ids(qs)
  {
    ApplyResultsIsTallied(qs, rs);
  }

  /** Submitting a second batch adds on top of the first: counters are
      accumulated, never overwritten. */
  lemma BatchesAccumulate(qs: seq<QuizQuestion>, a: seq<QuizResult>, b: seq<QuizResult>, k: nat, c: Counter)
    requires k < |qs|
    ensures |ApplyResults(qs, a)| == |ApplyResults(qs, a + b)| == |qs|
    ensures Count(ApplyResults(qs, a + b)[k], c) == Count(ApplyResults(qs, a)[k], c) + Received(qs, b, k, c)
  {
    CountersExact(qs, a, k, c);
    CountersExact(qs, a + b, k, c);
    ReceivedConcat(qs, a, b, k, c);
  }

  /** Applying the same batch twice doubles its effect on every counter. */
  lemma BatchTwiceDoubles(qs: seq<QuizQuestion>, rs: seq<QuizResult>, k: nat, c: Counter)
    requires k < |qs|
    ensures |ApplyResults(qs, rs + rs)| == |qs|
    ensures Count(ApplyResults(qs, rs + rs)[k], c) == Count(qs[k], c) + 2 * Received(qs, rs, k, c)
  {
    CountersExact(qs, rs + rs, k, c);
    ReceivedConcat(qs, rs, rs, k, c);
  }

  /** Two batches that send every question the same deltas give the same
      closed form. */
  lemma SameReceivedSameTally(qs: seq<QuizQuestion>, a: seq<QuizResult>, b: seq<QuizResult>)
    requires forall k, c :: 0 <= k < |qs| ==> Received(qs, a, k, c) == Received(qs, b, k, c)
    ensures Tallied(qs, a) == Tallied(qs, b)
  {
    assert forall k :: 0 <= k < |qs| ==> Tally(qs, a, k) == Tally(qs, b, k);
  }

  /** The handler's loop, one iteration further. */
  lemma ApplyResultsStep(qs: seq<QuizQuestion>, rs: seq<QuizResult>, i: nat)
    requires i < |rs|
    ensures ApplyResults(qs, rs[..i + 1]) == ApplyResult(ApplyResults(qs, rs[..i]), rs[i])
  {
    assert rs[..i + 1][..i] == rs[..i];
  }

  /** What the results of a batch send to a question does not depend on
      their order. */
  lemma {:induction false} ReceivedPerm(qs: seq<QuizQuestion>, a: seq<QuizResult>, b: seq<QuizResult>, k: nat, c: Counter)
    requires multiset(a) == multiset(b)
    ensures Received(qs, a, k, c) == Received(qs, b, k, c)
    decreases |a|
  {
    if a == [] {
      assert |b| == |multiset(b)| == 0;
    } else {
      var init, last := a[..|a| - 1], a[|a| - 1];
      assert a == init + [last];
      assert last in multiset(b);
      var m :| 0 <= m < |b| && b[m] == last;
      var rest := b[..m] + b[m + 1..];
      assert b == b[..m] + [last] + b[m + 1..];
      assert multiset(init) == multiset(a) - multiset{last};
      assert multiset(rest) == multiset(b) - multiset{last};
      ReceivedPerm(qs, init, rest, k, c);
      ReceivedConcat(qs, init, [last], k, c);
      ReceivedConcat(qs, b[..m] + [last], b[m + 1..], k, c);
      ReceivedConcat(qs, b[..m], [last], k, c);
      ReceivedConcat(qs, b[..m], b[m + 1..], k, c);
    }
  }

  /** Any reordering of a batch gives the same questions. */
  lemma BatchOrderIrrelevant(qs: seq<QuizQuestion>, a: seq<QuizResult>, b: seq<QuizResult>)
    requires multiset(a) == multiset(b)
    ensures ApplyResults(qs, a) == ApplyResults(qs, b)
  {
    ApplyResultsIsTallied(qs, a);
    ApplyResultsIsTallied(qs, b);
    forall k, c | 0 <= k < |qs| ensures Received(qs, a, k, c) == Received(qs, b, k, c) {
      ReceivedPerm(qs, a, b, k, c);
    }
    SameReceivedSameTally(qs, a, b);
  }

  /** A question that no result of the batch names receives nothing. */
  lemma {:induction false} ReceivedNone(qs: seq<QuizQuestion>, rs: seq<QuizResult>, k: nat, c: Counter)
    requires forall i :: 0 <= i < |rs| ==> FindQuestion(qs, rs[i].questionId) != Some(k)
    ensures Received(qs, rs, k, c) == 0
    decreases |rs|
  {
    if rs != [] {
      ReceivedNone(qs, rs[..|rs| - 1], k, c);
    }
  }

  /** The questions no result names are left exactly as they were. */
  lemma UnaddressedQuestionUnchanged(qs: seq<QuizQuestion>, rs: seq<QuizResult>, k: nat)
    requires k < |qs|
    requires forall i :: 0 <= i < |rs| ==> FindQuestion(qs, rs[i].questionId) != Some(k)
    ensures ApplyResults(qs, rs)[k] == qs[k]
  {
    ApplyResultsIsTallied(qs, rs);
    ReceivedNone(qs, rs, k, Attempts);
    ReceivedNone(qs, rs, k, CorrectAnswers);
    ReceivedNone(qs, rs, k, IncorrectAnswers);
  }

  /** A result whose question id names no question of the quiz is
      skipped, wherever it stands in the batch. */
  lemma UnknownQuestionSkipped(qs: seq<QuizQuestion>, a: seq<QuizResult>, r: QuizResult, b: seq<QuizResult>)
    requires FindQuestion(qs, r.questionId).None?
    ensures ApplyResults(qs, a + [r] + b) == ApplyResults(qs, a + b)
  {
    ApplyResultsIsTallied(qs, a + [r] + b);
    ApplyResultsIsTallied(qs, a + b);
    forall k, c | 0 <= k < |qs| ensures Received(qs, a + [r] + b, k, c) == Received(qs, a + b, k, c) {
      ReceivedConcat(qs, a + [r], b, k, c);
      ReceivedConcat(qs, a, [r], k, c);
      ReceivedConcat(qs, a, b, k, c);
      assert [r][..0] == [];
    }
    SameReceivedSameTally(qs, a + [r] + b, a + b);
  }

  /** The same result {attempts: 3, correct: 2, incorrect: 1} submitted
      twice to a fresh question accumulates to 6, 4 and 2. */
  lemma RepeatedSubmissionExample(q: QuizQuestion)
    requires q.attempts == 0 && q.correctAnswers == 0 && q.incorrectAnswers == 0
    ensures var rs := [QuizResult(q.id, 3, 2, 1)];
      var t := ApplyResults([q], rs + rs);
      && |t| == 1
      && t[0].attempts == 6 && t[0].correctAnswers == 4 && t[0].incorrectAnswers == 2
  {
    var rs := [QuizResult(q.id, 3, 2, 1)];
    assert FindQuestion([q], q.id) == Some(0);
    assert rs[..0] == [];
    BatchTwiceDoubles([q], rs, 0, Attempts);
    BatchTwiceDoubles([q], rs, 0, CorrectAnswers);
    BatchTwiceDoubles([q], rs, 0, IncorrectAnswers);
  }
}
