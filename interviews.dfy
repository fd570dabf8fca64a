/** The interview session of the `interview/` backend: starting a session, the current
    question, answering and skipping by index, and finalisation. An `Interview` object is
    the stored session; its methods are the route handlers' updates of it. */
module Interviews {
  import opened Wrappers
  import opened Text
  import opened InterviewRecords
  import opened AiService

  // ---------------------------------------------------------------- starting

  datatype StartError = CandidateNotFound | InterviewInProgress(existing: nat)

  /** Index of the first session that is in progress, or `|ss|`. */
  function FirstInProgress(ss: seq<Status>): (r: nat)
    ensures r <= |ss|
    ensures r < |ss| ==> ss[r] == InProgress
    ensures forall j :: 0 <= j < r ==> ss[j] != InProgress
  {
    if ss == [] then 0 else if ss[0] == InProgress then 0 else 1 + FirstInProgress(ss[1..])
  }

  /** The checks before a session is created, for whether the candidate exists and the
      statuses of the candidate's stored sessions: a missing candidate, then a session
      still in progress (the first one found) stop the start. */
  function StartCheck(candidateFound: bool, existing: seq<Status>): (r: Option<StartError>)
    ensures r == Some(CandidateNotFound) <==> !candidateFound
    ensures r.None? <==> candidateFound && InProgress !in existing
    ensures r.Some? && r.value.InterviewInProgress? ==>
      r.value.existing < |existing| && existing[r.value.existing] == InProgress
      && forall j :: 0 <= j < r.value.existing ==> existing[j] != InProgress
  {
    if !candidateFound then Some(CandidateNotFound)
    else
      var k := FirstInProgress(existing);
      if k < |existing| then Some(InterviewInProgress(k)) else None
  }

  /** The stored record of a generated question, `{...q, startedAt}`: every schema member
      the reply carries is kept, so a question without answer, score, reasoning or
      time-out is stored open and unscored. */
  function Fresh(g: GenQuestion): (q: Question)
    ensures q.text == g.text && q.difficulty == g.difficulty && q.idealAnswer == g.idealAnswer
    ensures q.answer == g.answer && q.score == g.score && q.reasoning == g.reasoning
    ensures q.timedOut == g.timedOut
    ensures Bare(g) ==> !IsResolved(q) && q.score.None? && q.reasoning.None?
    ensures IsResolved(q) <==> g.answer != [] || g.timedOut
  {
    Question(g.text, g.difficulty, g.idealAnswer, g.answer, g.score, g.reasoning, g.timedOut)
  }

  function InitialQuestions(gs: seq<GenQuestion>): (qs: seq<Question>)
    ensures |qs| == |gs| && forall i :: 0 <= i < |gs| ==> qs[i] == Fresh(gs[i])
  {
    seq(|gs|, i requires 0 <= i < |gs| => Fresh(gs[i]))
  }

  // ---------------------------------------------------------------- current question

  /** `questions.find(q => !q.answer && !q.timedOut)`, as a position. */
  function FirstOpen(qs: seq<Question>): (r: Option<nat>)
    ensures r.Some? ==> r.value < |qs| && !IsResolved(qs[r.value])
    ensures r.Some? ==> forall j :: 0 <= j < r.value ==> IsResolved(qs[j])
    ensures r.None? <==> AllResolved(qs)
  {
    if qs == [] then None
    else if !IsResolved(qs[0]) then Some(0)
    else
      match FirstOpen(qs[1..])
      case None =>
        assert forall j :: 1 <= j < |qs| ==> qs[j] == qs[1..][j - 1];
        None
      case Some(k) =>
        assert forall j :: 1 <= j < k + 1 ==> qs[j] == qs[1..][j - 1];
        Some(k + 1)
  }

  /** The reply of the current-question route. */
  datatype CurrentView =
    | Current(question: Question, questionIndex: nat, totalQuestions: nat)
    | AllDone(totalQuestions: nat, answeredQuestions: nat)

  function CurrentOf(qs: seq<Question>): CurrentView
  {
    match FirstOpen(qs)
    case Some(i) => Current(qs[i], i + 1, |qs|)
    case None => AllDone(|qs|, CountResolved(qs))
  }

  /** The current question is the first open one in stored order, reported with its
      position plus one; when there is none every question is answered or timed out and
      the reported count is the number of questions. */
  lemma CurrentOfSpec(qs: seq<Question>)
    ensures var v := CurrentOf(qs);
      && (v.Current? ==>
            && 1 <= v.questionIndex <= |qs| && v.question == qs[v.questionIndex - 1]
            && !IsResolved(v.question)
            && (forall j :: 0 <= j < v.questionIndex - 1 ==> IsResolved(qs[j]))
            && v.totalQuestions == |qs|)
      && (v.AllDone? <==> AllResolved(qs))
      && (v.AllDone? ==> v.totalQuestions == |qs| && v.answeredQuestions == |qs|)
  {
    CountResolvedAll(qs);
  }

  /** A new session of questions carrying only the requested members starts at its first
      question, numbered 1; the fallback set is one of these. */
  lemma StartsAtFirst(gs: seq<GenQuestion>)
    requires gs != [] && forall i :: 0 <= i < |gs| ==> Bare(gs[i])
    ensures var qs := InitialQuestions(gs);
      CurrentOf(qs) == Current(qs[0], 1, |gs|) && CountResolved(qs) == 0
  {
    var qs := InitialQuestions(gs);
    NoneResolved(qs);
  }

  /** The fallback set starts at its first question. */
  lemma FallbackStartsAtFirst()
    ensures var qs := InitialQuestions(FallbackQuestions);
      CurrentOf(qs) == Current(qs[0], 1, 6) && CountResolved(qs) == 0
  {
    FallbackQuestionsShape();
    StartsAtFirst(FallbackQuestions);
  }

  /** A reply whose first question already carries `"timedOut": true` is stored with that
      question resolved: the session starts at its second question. */
  lemma PresetTimeOutSkipsFirst(gs: seq<GenQuestion>)
    requires |gs| >= 2 && gs[0].timedOut && Bare(gs[1])
    ensures var qs := InitialQuestions(gs);
      CurrentOf(qs) == Current(qs[1], 2, |gs|)
  {
  }

  lemma {:induction false} NoneResolved(qs: seq<Question>)
    requires forall i :: 0 <= i < |qs| ==> !IsResolved(qs[i])
    ensures CountResolved(qs) == 0
  {
    if qs != [] {
      assert forall i :: 0 <= i < |qs[1..]| ==> qs[1..][i] == qs[i + 1];
      NoneResolved(qs[1..]);
    }
  }

  // ---------------------------------------------------------------- count of resolved

  /** Replacing one question changes the count only by that question's own change. */
  lemma {:induction false} CountResolvedUpdate(qs: seq<Question>, i: nat, q: Question)
    requires i < |qs|
    ensures CountResolved(qs[i := q]) + (if IsResolved(qs[i]) then 1 else 0)
         == CountResolved(qs) + (if IsResolved(q) then 1 else 0)
  {
    if i > 0 {
      assert qs[i := q][1..] == qs[1..][i - 1 := q];
      CountResolvedUpdate(qs[1..], i - 1, q);
    } else {
      assert qs[i := q][1..] == qs[1..];
    }
  }

  // ---------------------------------------------------------------- answering

  datatype AnswerError = InvalidIndex | AlreadyAnswered | ScoringFailed

  /** The question after a scored answer; `answeredAt` is not modelled. */
  function WithAnswer(q: Question, answer: string, sr: ScoreResult): Question
  {
    q.(answer := answer, score := Some(sr.score), reasoning := Some(sr.reasoning))
  }

  /** The answer route on the question list: the index must lie in range and the
      question must have no answer yet (a timed-out one is accepted); when scoring fails
      nothing is changed. */
  function Answer(qs: seq<Question>, index: int, answer: string, scoring: AiOutcome<ScoreReply>)
    : Result<seq<Question>, AnswerError>
  {
    if index < 0 || index >= |qs| then Failure(InvalidIndex)
    else if qs[index].answer != [] then Failure(AlreadyAnswered)
    else match ScoreAnswer(scoring)
      case None => Failure(ScoringFailed)
      case Some(sr) => Success(qs[index := WithAnswer(qs[index], answer, sr)])
  }

  /** Exactly these three cases reject an answer, in this order. */
  lemma AnswerRejections(qs: seq<Question>, index: int, answer: string, scoring: AiOutcome<ScoreReply>)
    ensures var r := Answer(qs, index, answer, scoring);
      && (r == Failure(InvalidIndex) <==> !(0 <= index < |qs|))
      && (r == Failure(AlreadyAnswered) <==> 0 <= index < |qs| && qs[index].answer != [])
      && (r == Failure(ScoringFailed) <==> 0 <= index < |qs| && qs[index].answer == [] && scoring.Threw?)
      && (r.Success? <==> 0 <= index < |qs| && qs[index].answer == [] && scoring.Returned?)
  {
  }

  /** A successful answer writes the answer, the selected score and its reasoning into
      the addressed question and changes nothing else. */
  lemma AnswerChangesOnlyIndex(qs: seq<Question>, index: int, answer: string, scoring: AiOutcome<ScoreReply>)
    requires Answer(qs, index, answer, scoring).Success?
    ensures var r := Answer(qs, index, answer, scoring).value;
      var sr := SelectScore(scoring.parsed);
      && |r| == |qs|
      && r[index].answer == answer
      && r[index].score == Some(sr.score) && r[index].reasoning == Some(sr.reasoning)
      && r[index].timedOut == qs[index].timedOut && r[index].text == qs[index].text
      && r[index].difficulty == qs[index].difficulty && r[index].idealAnswer == qs[index].idealAnswer
      && forall j :: 0 <= j < |qs| && j != index ==> r[j] == qs[j]
  {
  }

  /** A question that timed out without an answer can still be answered. */
  lemma AnswerAfterTimeout(qs: seq<Question>, index: int, answer: string, scoring: AiOutcome<ScoreReply>)
    requires 0 <= index < |qs| && qs[index].timedOut && qs[index].answer == [] && scoring.Returned?
    ensures Answer(qs, index, answer, scoring).Success?
  {
  }

  /** An empty answer is stored and scored, yet the question stays open and can be
      answered again. */
  lemma EmptyAnswerStaysOpen(qs: seq<Question>, index: int, scoring: AiOutcome<ScoreReply>, again: AiOutcome<ScoreReply>, next: string)
    requires 0 <= index < |qs| && qs[index].answer == [] && !qs[index].timedOut
    requires scoring.Returned? && again.Returned?
    ensures var r := Answer(qs, index, "", scoring);
      r.Success? && !IsResolved(r.value[index]) && Answer(r.value, index, next, again).Success?
  {
  }

  /** A non-empty answer to an open question resolves it: one more question counts as
      resolved. */
  lemma AnswerProgress(qs: seq<Question>, index: int, answer: string, scoring: AiOutcome<ScoreReply>)
    requires Answer(qs, index, answer, scoring).Success? && answer != []
    ensures var r := Answer(qs, index, answer, scoring).value;
      CountResolved(r) == CountResolved(qs) + (if qs[index].timedOut then 0 else 1)
  {
    var sr := SelectScore(scoring.parsed);
    CountResolvedUpdate(qs, index, WithAnswer(qs[index], answer, sr));
  }

  /** Answering the current question with a non-empty answer moves the current question
      past it. */
  lemma AnsweringCurrentAdvances(qs: seq<Question>, answer: string, scoring: AiOutcome<ScoreReply>)
    requires FirstOpen(qs).Some? && answer != [] && scoring.Returned?
    requires qs[FirstOpen(qs).value].answer == []
    ensures var i := FirstOpen(qs).value;
      var r := Answer(qs, i, answer, scoring);
      r.Success? && (FirstOpen(r.value).None? || FirstOpen(r.value).value > i)
  {
    var i := FirstOpen(qs).value;
    var r := Answer(qs, i, answer, scoring).value;
    assert IsResolved(r[i]);
    assert forall j :: 0 <= j < i ==> r[j] == qs[j];
  }

  /** A score within `[0, 10]` keeps every stored score within it. */
  lemma AnswerKeepsScoresInRange(qs: seq<Question>, index: int, answer: string, scoring: AiOutcome<ScoreReply>)
    requires ScoresInRange(qs) && Answer(qs, index, answer, scoring).Success?
    requires 0 <= SelectScore(scoring.parsed).score <= 10
    ensures ScoresInRange(Answer(qs, index, answer, scoring).value)
  {
  }

  // ---------------------------------------------------------------- skipping

  datatype SkipError = SkipInvalidIndex | AlreadyProcessed

  const SkipReasoning: string := "Question skipped or timed out"

  function WithSkip(q: Question): Question
  {
    q.(timedOut := true, score := Some(0), reasoning := Some(SkipReasoning))
  }

  /** The skip route on the question list. */
  function Skip(qs: seq<Question>, index: int): Result<seq<Question>, SkipError>
  {
    if index < 0 || index >= |qs| then Failure(SkipInvalidIndex)
    else if IsResolved(qs[index]) then Failure(AlreadyProcessed)
    else Success(qs[index := WithSkip(qs[index])])
  }

  /** A skip is refused exactly for an index out of range or a question already
      answered or timed out; an accepted one marks that question timed out with score 0
      and the fixed reasoning, changes nothing else and resolves one more question. */
  lemma SkipSpec(qs: seq<Question>, index: int)
    ensures var r := Skip(qs, index);
      && (r == Failure(SkipInvalidIndex) <==> !(0 <= index < |qs|))
      && (r == Failure(AlreadyProcessed) <==> 0 <= index < |qs| && IsResolved(qs[index]))
      && (r.Success? ==>
            && |r.value| == |qs|
            && r.value[index].timedOut && r.value[index].score == Some(0)
            && r.value[index].reasoning == Some(SkipReasoning)
            && r.value[index].answer == qs[index].answer && r.value[index].text == qs[index].text
            && (forall j :: 0 <= j < |qs| && j != index ==> r.value[j] == qs[j])
            && CountResolved(r.value) == CountResolved(qs) + 1)
  {
    if 0 <= index < |qs| && !IsResolved(qs[index]) {
      CountResolvedUpdate(qs, index, WithSkip(qs[index]));
    }
  }

  /** A skipped question, which has no answer, is still accepted by the answer route. */
  lemma AnswerAfterSkip(qs: seq<Question>, index: int, answer: string, scoring: AiOutcome<ScoreReply>)
    requires Skip(qs, index).Success? && scoring.Returned?
    ensures Answer(Skip(qs, index).value, index, answer, scoring).Success?
  {
  }

  lemma SkipKeepsScoresInRange(qs: seq<Question>, index: int)
    requires ScoresInRange(qs) && Skip(qs, index).Success?
    ensures ScoresInRange(Skip(qs, index).value)
  {
  }

  // ---------------------------------------------------------------- finalisation

  /** The stored `finalScore`, in tenths: the rounded mean over the scored questions, 0
      when there are none. */
  function FinalScoreOf(qs: seq<Question>): int
  {
    var sc := ScoresOf(qs);
    if |sc| == 0 then 0 else RoundTenths(Sum(sc), |sc|)
  }

  /** With every score within `[0, 10]` the final score lies within `[0, 10]` (0 to 100
      tenths); with none it is 0. */
  lemma FinalScoreBounds(qs: seq<Question>)
    requires ScoresInRange(qs)
    ensures 0 <= FinalScoreOf(qs) <= 100
    ensures ScoresOf(qs) == [] ==> FinalScoreOf(qs) == 0
  {
    ScoresOfInRange(qs);
    var sc := ScoresOf(qs);
    if |sc| > 0 {
      RoundTenthsRange(Sum(sc), |sc|);
    }
  }

  /** The summary stored when summarising throws. */
  function CompletedSummary(scored: nat, total: nat, finalScore: int): string
  {
    "Interview completed with " + NatToString(scored) + "/" + NatToString(total)
      + " questions answered. Average score: " + TenthsToString(finalScore) + "/10."
  }

  /** The summary `finalizeInterview` stores, for the final score it has just set. */
  function FinalSummary(candidate: CandidateRef, qs: seq<Question>, outcome: AiOutcome<string>): string
  {
    var f := FinalScoreOf(qs);
    match SummarizeInterview(candidate, qs, Some(f), outcome)
    case Success(s) => s
    case Failure(_) => CompletedSummary(|ScoresOf(qs)|, |qs|, f)
  }

  /** The stored summary: the model's non-empty summary, else the service's fallback;
      only a missing candidate record leads to the completed-with template. */
  lemma FinalSummaryCases(candidate: CandidateRef, qs: seq<Question>, outcome: AiOutcome<string>)
    ensures var s := FinalSummary(candidate, qs, outcome);
      var f := FinalScoreOf(qs);
      && (candidate.NullCandidate? ==> s == CompletedSummary(|ScoresOf(qs)|, |qs|, f))
      && (!candidate.NullCandidate? && outcome.Returned? && outcome.parsed.Some? && outcome.parsed.value != [] ==>
            s == outcome.parsed.value)
      && (!candidate.NullCandidate? && !(outcome.Returned? && outcome.parsed.Some? && outcome.parsed.value != []) ==>
            s == AiService.FallbackSummary(candidate, qs, Some(f)))
  {
  }

  // ---------------------------------------------------------------- the session

  /** A stored session. `finalScore` is in tenths. The candidate reference is not kept:
      each call that needs it receives it in the form that route loads it. */
  class Interview {
    var questions: seq<Question>
    var status: Status
    var finalScore: Option<int>
    var summary: Option<string>

    /** `Interview.create` with the generated questions. */
    constructor (gs: seq<GenQuestion>)
      ensures questions == InitialQuestions(gs) && status == InProgress
      ensures finalScore.None? && summary.None?
    {
      questions := InitialQuestions(gs);
      status := InProgress;
      finalScore := None;
      summary := None;
    }

    /** The current-question route. */
    function CurrentQuestion(): (v: CurrentView)
      reads this
      ensures v.AllDone? <==> AllResolved(questions)
    {
      CurrentOfSpec(questions);
      CurrentOf(questions)
    }

    /** `finalizeInterview`: the questions stay as they are. Nothing guards it, so running
        it again over the same questions stores the same score. */
    method Finalize(candidate: CandidateRef, outcome: AiOutcome<string>)
      modifies this
      ensures questions == old(questions) && status == Completed
      ensures finalScore == Some(FinalScoreOf(questions))
      ensures summary == Some(FinalSummary(candidate, questions, outcome))
    {
      var f := FinalScoreOf(questions);
      finalScore := Some(f);
      status := Completed;
      summary := Some(FinalSummary(candidate, questions, outcome));
    }

    /** The answer route. The session is loaded without its candidate, so a finalisation
        it triggers summarises an unpopulated candidate. The reply's `completed` is
        whether every question is now answered or timed out. */
    method SubmitAnswer(index: int, answer: string, scoring: AiOutcome<ScoreReply>, summaryOutcome: AiOutcome<string>)
      returns (r: Result<(ScoreResult, bool), AnswerError>)
      modifies this
      ensures Answer(old(questions), index, answer, scoring).Failure? ==>
        r == Failure(Answer(old(questions), index, answer, scoring).error) && unchanged(this)
      ensures Answer(old(questions), index, answer, scoring).Success? ==>
        && r == Success((SelectScore(scoring.parsed), AllResolved(questions)))
        && questions == Answer(old(questions), index, answer, scoring).value
        && (AllResolved(questions) ==>
              status == Completed && finalScore == Some(FinalScoreOf(questions))
              && summary == Some(FinalSummary(Unpopulated, questions, summaryOutcome)))
        && (!AllResolved(questions) ==>
              status == old(status) && finalScore == old(finalScore) && summary == old(summary))
    {
      if index < 0 || index >= |questions| {
        return Failure(InvalidIndex);
      }
      if questions[index].answer != [] {
        return Failure(AlreadyAnswered);
      }
      var scored := ScoreAnswer(scoring);
      if scored.None? {
        return Failure(ScoringFailed);
      }
      var sr := scored.value;
      questions := questions[index := WithAnswer(questions[index], answer, sr)];
      var allAnswered := CountResolved(questions) == |questions|;
      CountResolvedAll(questions);
      if allAnswered {
        Finalize(Unpopulated, summaryOutcome);
      }
      return Success((sr, allAnswered));
    }

    /** The skip route; finalisation as for an answer. */
    method SkipQuestion(index: int, summaryOutcome: AiOutcome<string>) returns (r: Result<bool, SkipError>)
      modifies this
      ensures Skip(old(questions), index).Failure? ==>
        r == Failure(Skip(old(questions), index).error) && unchanged(this)
      ensures Skip(old(questions), index).Success? ==>
        && r == Success(AllResolved(questions))
        && questions == Skip(old(questions), index).value
        && (AllResolved(questions) ==>
              status == Completed && finalScore == Some(FinalScoreOf(questions))
              && summary == Some(FinalSummary(Unpopulated, questions, summaryOutcome)))
        && (!AllResolved(questions) ==>
              status == old(status) && finalScore == old(finalScore) && summary == old(summary))
    {
      if index < 0 || index >= |questions| {
        return Failure(SkipInvalidIndex);
      }
      if questions[index].answer != [] || questions[index].timedOut {
        return Failure(AlreadyProcessed);
      }
      questions := questions[index := WithSkip(questions[index])];
      var allAnswered := CountResolved(questions) == |questions|;
      CountResolvedAll(questions);
      if allAnswered {
        Finalize(Unpopulated, summaryOutcome);
      }
      return Success(allAnswered);
    }
  }
}
