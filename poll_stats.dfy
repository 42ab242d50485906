/** What `updatePollStats` does to a poll's questions, as functions: for
    each result of the batch that names a question of the poll, every
    option index it selects that lies within the question's options adds
    one to that option's `selectionCount`; other indices and results
    naming no question are skipped. `ApplyPollResults` follows the
    handler's two loops; `PollTallied` is the closed form (each counter
    plus the number of times its index was selected for its question). */
module PollStats {
  import opened Common
  import opened DocumentStore
  import opened PollSchema

  /** One element of `questionResults`: the question's sub-document id and
      the option indices chosen. */
  datatype PollResult = PollResult(questionId: QId, optionsSelected: seq<int>)

  /** `question.options[optionIndex].selectionCount += 1` behind the
      bounds check. */
  function Select(opts: seq<PollOption>, i: int): (res: seq<PollOption>)
    ensures |res| == |opts|
    ensures forall j :: 0 <= j < |opts| ==>
      && res[j].text == opts[j].text && res[j].imageUrl == opts[j].imageUrl
      && res[j].selectionCount == opts[j].selectionCount + (if j == i then 1 else 0)
  {
    if 0 <= i < |opts| then opts[i := opts[i].(selectionCount := opts[i].selectionCount + 1)] else opts
  }

  /** The inner loop over `optionsSelected`. */
  function SelectAll(opts: seq<PollOption>, sel: seq<int>): seq<PollOption>
    decreases |sel|
  {
    if sel == [] then opts else Select(SelectAll(opts, sel[..|sel| - 1]), sel[|sel| - 1])
  }

  /** One iteration of the outer loop: only the question the result names
      has its options counted. */
  function ApplyPollResult(qs: seq<PollQuestion>, r: PollResult): seq<PollQuestion> {
    match FindQuestion(qs, r.questionId)
    case None => qs
    case Some(k) => qs[k := qs[k].(options := SelectAll(qs[k].options, r.optionsSelected))]
  }

  /** The outer loop over `questionResults`. */
  function ApplyPollResults(qs: seq<PollQuestion>, rs: seq<PollResult>): seq<PollQuestion>
    decreases |rs|
  {
    if rs == [] then qs else ApplyPollResult(ApplyPollResults(qs, rs[..|rs| - 1]), rs[|rs| - 1])
  }

  /** The outer loop, one iteration further. */
  lemma ApplyPollResultsStep(qs: seq<PollQuestion>, rs: seq<PollResult>, i: nat)
    requires i < |rs|
    ensures ApplyPollResults(qs, rs[..i + 1]) == ApplyPollResult(ApplyPollResults(qs, rs[..i]), rs[i])
  {
    assert rs[..i + 1][..i] == rs[..i];
  }

  /** The inner loop, one iteration further. */
  lemma SelectAllStep(opts: seq<PollOption>, sel: seq<int>, j: nat)
    requires j < |sel|
    ensures SelectAll(opts, sel[..j + 1]) == Select(SelectAll(opts, sel[..j]), sel[j])
  {
    assert sel[..j + 1][..j] == sel[..j];
  }

  /** Each option counter plus the number of occurrences of its index. */
  function Counted(opts: seq<PollOption>, sel: seq<int>): seq<PollOption> {
    seq(|opts|, j requires 0 <= j < |opts| => opts[j].(selectionCount := opts[j].selectionCount + multiset(sel)[j]))
  }

  /** How often index j was selected, over the results of rs that
      resolve to question k of qs. */
  function Votes(qs: seq<PollQuestion>, rs: seq<PollResult>, k: nat, j: int): nat
    decreases |rs|
  {
    if rs == [] then 0
    else
      var last := rs[|rs| - 1];
      Votes(qs, rs[..|rs| - 1], k, j) + (if FindQuestion(qs, last.questionId) == Some(k) then multiset(last.optionsSelected)[j] else 0)
  }

  function PollTally(qs: seq<PollQuestion>, rs: seq<PollResult>, k: nat): PollQuestion
    requires k < |qs|
  {
    var opts := qs[k].options;
    qs[k].(options := seq(|opts|, j requires 0 <= j < |opts| =>
      opts[j].(selectionCount := opts[j].selectionCount + Votes(qs, rs, k, j))))
  }

  /** The closed form of a whole batch. */
  function PollTallied(qs: seq<PollQuestion>, rs: seq<PollResult>): seq<PollQuestion> {
    seq(|qs|, k requires 0 <= k < |qs| => PollTally(qs, rs, k))
  }

  /** Everything of a question except the option counters. */
  predicate SamePollLayout(q: PollQuestion, q': PollQuestion) {
    && q.id == q'.id
    && q.pollQuestion == q'.pollQuestion
    && q.optionType == q'.optionType
    && |q.options| == |q'.options|
    && forall j :: 0 <= j < |q.options| ==>
         q.options[j].text == q'.options[j].text && q.options[j].imageUrl == q'.options[j].imageUrl
  }

  /** The inner loop counts every in-range index once per occurrence. */
  lemma {:induction false} SelectAllIsCounted(opts: seq<PollOption>, sel: seq<int>)
    ensures SelectAll(opts, sel) == Counted(opts, sel)
    decreases |sel|
  {
    if sel == [] {
      assert forall j :: 0 <= j < |opts| ==> Counted(opts, sel)[j] == opts[j];
    } else {
      var init, last := sel[..|sel| - 1], sel[|sel| - 1];
      SelectAllIsCounted(opts, init);
      assert sel == init + [last];
      assert multiset(sel) == multiset(init) + multiset{last};
      var next := Select(Counted(opts, init), last);
      assert |next| == |opts|;
      forall j | 0 <= j < |opts| ensures next[j] == Counted(opts, sel)[j] {
        if j == last {
          assert next[j].selectionCount == Counted(opts, init)[j].selectionCount + 1;
        } else {
          assert next[j] == Counted(opts, init)[j];
        }
      }
    }
  }

  lemma {:induction false} VotesConcat(qs: seq<PollQuestion>, a: seq<PollResult>, b: seq<PollResult>, k: nat, j: int)
    ensures Votes(qs, a + b, k, j) == Votes(qs, a, k, j) + Votes(qs, b, k, j)
    decreases |b|
  {
    if b == [] {
      assert a + b == a;
    } else {
      assert (a + b)[..|a + b| - 1] == a + b[..|b| - 1];
      assert (a + b)[|a + b| - 1] == b[|b| - 1];
      VotesConcat(qs, a, b[..|b| - 1], k, j);
    }
  }

  /** One more result changes question k of the closed form as the
      handler's inner loop does. */
  lemma TallyStep(qs: seq<PollQuestion>, rs: seq<PollResult>, k: nat)
    requires rs != [] && k < |qs|
    ensures var next := ApplyPollResult(PollTallied(qs, rs[..|rs| - 1]), rs[|rs| - 1]);
      |next| == |qs| && next[k] == PollTally(qs, rs, k)
  {
    var init, last := rs[..|rs| - 1], rs[|rs| - 1];
    var prev := PollTallied(qs, init);
    TalliedSameIds(qs, init);
    var found := FindQuestion(qs, last.questionId);
    var next := ApplyPollResult(prev, last);
    if found == Some(k) {
      SelectAllIsCounted(prev[k].options, last.optionsSelected);
      TallyGainsLast(qs, rs, k);
    } else {
      assert next[k] == prev[k];
      assert next[k].options == PollTally(qs, rs, k).options;
    }
  }

  /** The closed form keeps the question ids, so `questions.id` finds the
      same question in it. */
  lemma TalliedSameIds(qs: seq<PollQuestion>, rs: seq<PollResult>)
    ensures |PollTallied(qs, rs)| == |qs|
    ensures forall x :: FindQuestion(PollTallied(qs, rs), x) == FindQuestion(qs, x)
  {
    assert Ids(PollTallied(qs, rs)) == Ids(qs);
  }

  /** The last result of a batch that names question k adds its
      occurrences to the closed form of the rest. */
  lemma TallyGainsLast(qs: seq<PollQuestion>, rs: seq<PollResult>, k: nat)
    requires rs != [] && k < |qs| && FindQuestion(qs, rs[|rs| - 1].questionId) == Some(k)
    ensures PollTally(qs, rs, k).options == Counted(PollTally(qs, rs[..|rs| - 1], k).options, rs[|rs| - 1].optionsSelected)
  {
  }

  /** The handler's two loops compute the closed form. */
  lemma {:induction false} ApplyPollResultsIsTallied(qs: seq<PollQuestion>, rs: seq<PollResult>)
    ensures ApplyPollResults(qs, rs) == PollTallied(qs, rs)
    decreases |rs|
  {
    var t := PollTallied(qs, rs);
    if rs == [] {
      forall k | 0 <= k < |qs| ensures t[k] == qs[k] {
        assert t[k].options == qs[k].options;
      }
    } else {
      ApplyPollResultsIsTallied(qs, rs[..|rs| - 1]);
      var next := ApplyPollResult(PollTallied(qs, rs[..|rs| - 1]), rs[|rs| - 1]);
      assert |next| == |t| by { if |qs| > 0 { TallyStep(qs, rs, 0); } }
      forall k | 0 <= k < |qs| ensures next[k] == t[k] {
        TallyStep(qs, rs, k);
      }
    }
  }

  /** Per option: the new count is the old one plus the number of times
      its index was selected for its question in the batch; nothing else
      of the question changes. */
  lemma SelectionsExact(qs: seq<PollQuestion>, rs: seq<PollResult>, k: nat, j: nat)
    requires k < |qs| && j < |qs[k].options|
    ensures |ApplyPollResults(qs, rs)| == |qs|
    ensures SamePollLayout(qs[k], ApplyPollResults(qs, rs)[k])
    ensures ApplyPollResults(qs, rs)[k].options[j].selectionCount
         == qs[k].options[j].selectionCount + Votes(qs, rs, k, j)
  {
    ApplyPollResultsIsTallied(qs, rs);
  }

  /** The question count, order and ids, and every question's text,
      option type, option count, option texts and images are unchanged. */
  lemma PollLayoutPreserved(qs: seq<PollQuestion>, rs: seq<PollResult>)
    ensures |ApplyPollResults(qs, rs)| == |qs|
    ensures forall k :: 0 <= k < |qs| ==> SamePollLayout(qs[k], ApplyPollResults(qs, rs)[k])
    ensures Ids(ApplyPollResults(qs, rs)) == Ids(qs)
  {
    ApplyPollResultsIsTallied(qs, rs);
  }

  /** Indices outside the options are ignored without error. */
  lemma {:induction false} OutOfRangeIgnored(opts: seq<PollOption>, sel: seq<int>)
    requires forall i :: 0 <= i < |sel| ==> sel[i] < 0 || sel[i] >= |opts|
    ensures SelectAll(opts, sel) == opts
    decreases |sel|
  {
    if sel != [] {
      OutOfRangeIgnored(opts, sel[..|sel| - 1]);
    }
  }

  /** Two batches that give every option the same votes give the same
      closed form. */
  lemma SameVotesSameTally(qs: seq<PollQuestion>, a: seq<PollResult>, b: seq<PollResult>)
    requires forall k, j :: 0 <= k < |qs| ==> Votes(qs, a, k, j) == Votes(qs, b, k, j)
    ensures PollTallied(qs, a) == PollTallied(qs, b)
  {
    forall k | 0 <= k < |qs| ensures PollTally(qs, a, k) == PollTally(qs, b, k) {
      assert PollTally(qs, a, k).options == PollTally(qs, b, k).options;
    }
  }

  /** A result whose question id names no question of the poll is
      skipped, wherever it stands in the batch. */
  lemma UnknownQuestionSkipped(qs: seq<PollQuestion>, a: seq<PollResult>, r: PollResult, b: seq<PollResult>)
    requires FindQuestion(qs, r.questionId).None?
    ensures ApplyPollResults(qs, a + [r] + b) == ApplyPollResults(qs, a + b)
  {
    ApplyPollResultsIsTallied(qs, a + [r] + b);
    ApplyPollResultsIsTallied(qs, a + b);
    forall k, j | 0 <= k < |qs| ensures Votes(qs, a + [r] + b, k, j) == Votes(qs, a + b, k, j) {
      VotesConcat(qs, a + [r], b, k, j);
      VotesConcat(qs, a, [r], k, j);
      VotesConcat(qs, a, b, k, j);
      assert [r][..0] == [];
    }
    SameVotesSameTally(qs, a + [r] + b, a + b);
  }

  /** A second batch adds to the counts left by the first. */
  lemma BatchesAccumulate(qs: seq<PollQuestion>, a: seq<PollResult>, b: seq<PollResult>, k: nat, j: nat)
    requires k < |qs| && j < |qs[k].options|
    ensures |ApplyPollResults(qs, a)| == |ApplyPollResults(qs, a + b)| == |qs|
    ensures |ApplyPollResults(qs, a)[k].options| == |ApplyPollResults(qs, a + b)[k].options| == |qs[k].options|
    ensures ApplyPollResults(qs, a + b)[k].options[j].selectionCount
         == ApplyPollResults(qs, a)[k].options[j].selectionCount + Votes(qs, b, k, j)
  {
    SelectionsExact(qs, a, k, j);
    SelectionsExact(qs, a + b, k, j);
    VotesConcat(qs, a, b, k, j);
  }

  /** Applying the same batch twice counts its selections twice. */
  lemma BatchTwiceDoubles(qs: seq<PollQuestion>, rs: seq<PollResult>, k: nat, j: nat)
    requires k < |qs| && j < |qs[k].options|
    ensures |ApplyPollResults(qs, rs + rs)| == |qs| && |ApplyPollResults(qs, rs + rs)[k].options| == |qs[k].options|
    ensures ApplyPollResults(qs, rs + rs)[k].options[j].selectionCount
         == qs[k].options[j].selectionCount + 2 * Votes(qs, rs, k, j)
  {
    SelectionsExact(qs, rs + rs, k, j);
    VotesConcat(qs, rs, rs, k, j);
  }

  /** How often an index was selected for a question does not depend on
      the order of the batch. */
  lemma {:induction false} VotesPerm(qs: seq<PollQuestion>, a: seq<PollResult>, b: seq<PollResult>, k: nat, j: int)
    requires multiset(a) == multiset(b)
    ensures Votes(qs, a, k, j) == Votes(qs, b, k, j)
    decreases |a|
  {
    if a == [] {
      assert |b| == |multiset(b)| == 0;
    } else {
      var init, last := a[..|a| - 1], a[|a| - 1];
      assert a == init + [last];
      assert last in multiset(b);
      var m :| 0 <= m < |b| && b[m] == last;
      var rest := b[..m] + b[m + 1..];
      assert b == b[..m] + [last] + b[m + 1..];
      assert multiset(init) == multiset(a) - multiset{last};
      assert multiset(rest) == multiset(b) - multiset{last};
      VotesPerm(qs, init, rest, k, j);
      VotesConcat(qs, init, [last], k, j);
      VotesConcat(qs, b[..m] + [last], b[m + 1..], k, j);
      VotesConcat(qs, b[..m], [last], k, j);
      VotesConcat(qs, b[..m], b[m + 1..], k, j);
    }
  }

  /** Any reordering of a batch gives the same questions. */
  lemma BatchOrderIrrelevant(qs: seq<PollQuestion>, a: seq<PollResult>, b: seq<PollResult>)
    requires multiset(a) == multiset(b)
    ensures ApplyPollResults(qs, a) == ApplyPollResults(qs, b)
  {
    ApplyPollResultsIsTallied(qs, a);
    ApplyPollResultsIsTallied(qs, b);
    forall k, j | 0 <= k < |qs| ensures Votes(qs, a, k, j) == Votes(qs, b, k, j) {
      VotesPerm(qs, a, b, k, j);
    }
    SameVotesSameTally(qs, a, b);
  }

  /** A question that no result of the batch names gets no votes. */
  lemma {:induction false} VotesNone(qs: seq<PollQuestion>, rs: seq<PollResult>, k: nat, j: int)
    requires forall i :: 0 <= i < |rs| ==> FindQuestion(qs, rs[i].questionId) != Some(k)
    ensures Votes(qs, rs, k, j) == 0
    decreases |rs|
  {
    if rs != [] {
      VotesNone(qs, rs[..|rs| - 1], k, j);
    }
  }

  /** The questions no result names are left exactly as they were. */
  lemma UnaddressedQuestionUnchanged(qs: seq<PollQuestion>, rs: seq<PollResult>, k: nat)
    requires k < |qs|
    requires forall i :: 0 <= i < |rs| ==> FindQuestion(qs, rs[i].questionId) != Some(k)
    ensures |ApplyPollResults(qs, rs)| == |qs| && ApplyPollResults(qs, rs)[k] == qs[k]
  {
    ApplyPollResultsIsTallied(qs, rs);
    forall j | 0 <= j < |qs[k].options| ensures Votes(qs, rs, k, j) == 0 {
      VotesNone(qs, rs, k, j);
    }
    assert PollTally(qs, rs, k).options == qs[k].options;
  }

  // Totals over a poll.

  function SelectionCountOf(o: PollOption): int {
    o.selectionCount
  }

  function OptionsTotal(opts: seq<PollOption>): int {
    SumOf(opts, SelectionCountOf)
  }

  function QuestionTotal(q: PollQuestion): int {
    OptionsTotal(q.options)
  }

  /** The sum of every `selectionCount` in the poll. */
  function PollTotal(qs: seq<PollQuestion>): int {
    SumOf(qs, QuestionTotal)
  }

  /** The number of indices of sel within [0, n). */
  function InRange(sel: seq<int>, n: int): nat
    decreases |sel|
  {
    if sel == [] then 0
    else InRange(sel[..|sel| - 1], n) + (if 0 <= sel[|sel| - 1] < n then 1 else 0)
  }

  /** The number of in-range indices over the results that resolve. */
  function ResolvedInRange(qs: seq<PollQuestion>, rs: seq<PollResult>): nat
    decreases |rs|
  {
    if rs == [] then 0
    else
      var last := rs[|rs| - 1];
      ResolvedInRange(qs, rs[..|rs| - 1]) +
        match FindQuestion(qs, last.questionId)
        case None => 0
        case Some(k) => InRange(last.optionsSelected, |qs[k].options|)
  }

  lemma {:induction false} SelectAllTotal(opts: seq<PollOption>, sel: seq<int>)
    ensures |SelectAll(opts, sel)| == |opts|
    ensures OptionsTotal(SelectAll(opts, sel)) == OptionsTotal(opts) + InRange(sel, |opts|)
    decreases |sel|
  {
    if sel != [] {
      var init, last := sel[..|sel| - 1], sel[|sel| - 1];
      SelectAllTotal(opts, init);
      var prev := SelectAll(opts, init);
      if 0 <= last < |prev| {
        SumOfUpdate(prev, last, prev[last].(selectionCount := prev[last].selectionCount + 1), SelectionCountOf);
      }
    }
  }

  /** The poll's total selection count grows by exactly the number of
      in-range indices over the results that name one of its questions. */
  lemma {:induction false} PollTotalGrowth(qs: seq<PollQuestion>, rs: seq<PollResult>)
    ensures PollTotal(ApplyPollResults(qs, rs)) == PollTotal(qs) + ResolvedInRange(qs, rs)
    decreases |rs|
  {
    if rs != [] {
      var init, last := rs[..|rs| - 1], rs[|rs| - 1];
      PollTotalGrowth(qs, init);
      PollLayoutPreserved(qs, init);
      var prev := ApplyPollResults(qs, init);
      var found := FindQuestion(qs, last.questionId);
      assert FindQuestion(prev, last.questionId) == found;
      if found.Some? {
        var k := found.value;
        var q' := prev[k].(options := SelectAll(prev[k].options, last.optionsSelected));
        SelectAllTotal(prev[k].options, last.optionsSelected);
        SumOfUpdate(prev, k, q', QuestionTotal);
      }
    }
  }

  /** Selecting indices 0 and 1 of a two-option question counts each
      option once; index 5 of the same question is ignored. */
  lemma TwoOptionExample(qid: QId, a: PollOption, b: PollOption, rest: seq<PollQuestion>)
    ensures var qs := [PollQuestion(qid, "Q", [a, b], Text)] + rest;
      var t := ApplyPollResults(qs, [PollResult(qid, [0, 1])]);
      && |t| == |qs|
      && t[0].options
           == [a.(selectionCount := a.selectionCount + 1), b.(selectionCount := b.selectionCount + 1)]
      && ApplyPollResults(qs, [PollResult(qid, [5])]) == qs
  {
    var qs := [PollQuestion(qid, "Q", [a, b], Text)] + rest;
    assert FindQuestion(qs, qid) == Some(0);
    var r01 := [PollResult(qid, [0, 1])];
    assert r01[..0] == [];
    assert [0, 1][..1] == [0];
    assert [0][..0] == [];
    var r5 := [PollResult(qid, [5])];
    assert r5[..0] == [];
    OutOfRangeIgnored([a, b], [5]);
  }
}
