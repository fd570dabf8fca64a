/** The parts of the interview backend's AI service that do not call the model: reading a
    reply (`safeJson`), validating a generated question set, selecting a score, choosing a
    summary, and the fallback questions and summary. The model call itself and
    `JSON.parse` are outside; what they produced is an `AiOutcome`. */
module AiService {
  import opened Wrappers
  import opened Text
  import opened InterviewRecords

  /** What a call to the model led to: it threw, or it returned a reply that `safeJson`
      turned into a value (`None` when the text did not parse). */
  datatype AiOutcome<T> = Threw | Returned(parsed: Option<T>)

  // ---------------------------------------------------------------- safeJson

  const Fence: string := ['`', '`', '`']
  const JsonFence: string := ['`', '`', '`', 'j', 's', 'o', 'n']

  /** `/^p/i` for a lower-case literal `p`. */
  predicate StartsWithIgnoringCase(s: string, p: string)
  {
    |p| <= |s| && Lower(s[..|p|]) == p
  }

  /** Without a leading "```json" in any case. */
  function DropJsonFence(t: string): (r: string)
    ensures |r| <= |t|
  {
    if StartsWithIgnoringCase(t, JsonFence) then t[|JsonFence|..] else t
  }

  /** Without a trailing "```". */
  function DropFence(a: string): (r: string)
    ensures |r| <= |a|
  {
    if EndsWith(a, Fence) then a[..|a| - |Fence|] else a
  }

  /** The text `safeJson` hands to `JSON.parse`: trimmed, without a leading "```json" in
      any case and then without a trailing "```". */
  function StripFence(s: string): (r: string)
    ensures |r| <= |s|
  {
    DropFence(DropJsonFence(Trim(s)))
  }

  lemma LowerJsonFence()
    ensures Lower(JsonFence) == JsonFence
  {
    assert forall i :: 0 <= i < |JsonFence| ==> !IsUpper(JsonFence[i]);
  }

  lemma FencedIsTrimmed(a: string)
    requires a != [] && a[|a| - 1] == '`'
    ensures Trim(JsonFence + a) == JsonFence + a
  {
    var s := JsonFence + a;
    assert s[0] == '`' && s[|s| - 1] == a[|a| - 1];
    TrimOfTrimmed(s);
  }

  lemma FencedPrefix(a: string)
    ensures DropJsonFence(JsonFence + a) == a
  {
    assert (JsonFence + a)[..|JsonFence|] == JsonFence;
    LowerJsonFence();
    assert (JsonFence + a)[|JsonFence|..] == a;
  }

  lemma FencedSuffix(body: string)
    ensures DropFence(body + Fence) == body
  {
    var a := body + Fence;
    assert a[|a| - |Fence|..] == Fence;
    assert a[..|a| - |Fence|] == body;
  }

  /** A fenced reply gives back exactly its body. */
  lemma StripFenceOfFenced(body: string)
    ensures StripFence(JsonFence + body + Fence) == body
  {
    var a := body + Fence;
    assert JsonFence + body + Fence == JsonFence + a;
    assert a[|a| - 1] == '`';
    FencedIsTrimmed(a);
    FencedPrefix(a);
    FencedSuffix(body);
  }

  /** A reply with no fence and no surrounding white space is passed on unchanged. */
  lemma StripFenceOfPlain(s: string)
    requires Trimmed(s) && !StartsWithIgnoringCase(s, JsonFence) && !EndsWith(s, Fence)
    ensures StripFence(s) == s
  {
    TrimOfTrimmed(s);
  }

  /** `safeJson(str)`, for the parse `JSON.parse` performs. */
  function SafeJson<T>(str: string, parse: string -> Option<T>): Option<T>
  {
    parse(StripFence(str))
  }

  // ---------------------------------------------------------------- generateQuestions

  /** A generated question: the three members the prompt asks for, a missing one being
      `""`, and the members of the stored question schema the reply may carry as well,
      as the schema casts them (`answer` absent is `""`, `timedOut` absent is `false`).
      Other members of the reply are not stored and are not modelled. */
  datatype GenQuestion = GenQuestion(
    text: string, difficulty: string, idealAnswer: string,
    answer: string, score: Option<int>, reasoning: Option<string>, timedOut: bool)

  /** A question with only the three requested members. */
  function Plain(text: string, difficulty: string, idealAnswer: string): (g: GenQuestion)
    ensures g.text == text && g.difficulty == difficulty && g.idealAnswer == idealAnswer
    ensures Bare(g)
  {
    GenQuestion(text, difficulty, idealAnswer, "", None, None, false)
  }

  /** Carries none of the stored members beyond the three requested ones. */
  predicate Bare(g: GenQuestion)
  {
    g.answer == [] && g.score.None? && g.reasoning.None? && !g.timedOut
  }

  /** The parsed reply: its `questions` member when that is an array. */
  datatype QuestionsDoc = QuestionsDoc(questions: Option<seq<GenQuestion>>)

  const Difficulties: seq<string> := ["Easy", "Medium", "Hard"]

  /** The per-question test of the validation loop. */
  predicate QuestionOk(q: GenQuestion)
  {
    q.text != [] && q.difficulty != [] && q.idealAnswer != [] && q.difficulty in Difficulties
  }

  /** A set the service accepts: exactly six questions, each complete with a known
      difficulty. How many of each difficulty there are is not looked at. */
  predicate ValidQuestionSet(qs: seq<GenQuestion>)
  {
    |qs| == 6 && forall i :: 0 <= i < |qs| ==> QuestionOk(qs[i])
  }

  const FallbackText1: string := "What is the difference between let, const, and var in JavaScript?"
  const FallbackIdeal1: string := "let and const are block-scoped while var is function-scoped. const cannot be reassigned after declaration."
  const FallbackText2: string := "Explain the concept of React components and their lifecycle."
  const FallbackIdeal2: string := "React components are reusable pieces of UI. They have lifecycle methods like componentDidMount, componentDidUpdate, etc."
  const FallbackText3: string := "How would you implement user authentication in a React/Node.js application?"
  const FallbackIdeal3: string := "Use JWT tokens, implement login/logout endpoints, store tokens securely, and protect routes on both frontend and backend."
  const FallbackText4: string := "Explain the difference between SQL and NoSQL databases and when to use each."
  const FallbackIdeal4: string := "SQL databases are relational with structured schema, NoSQL are flexible. Use SQL for complex relationships, NoSQL for scalability."
  const FallbackText5: string := "Design a scalable system for handling millions of user requests per day."
  const FallbackIdeal5: string := "Use load balancers, microservices, caching layers, database sharding, CDNs, and horizontal scaling strategies."
  const FallbackText6: string := "Explain how you would optimize a slow-performing React application."
  const FallbackIdeal6: string := "Use React.memo, useMemo, useCallback, code splitting, lazy loading, optimize bundle size, and implement virtual scrolling."

  /** `getFallbackQuestions(role)`; the role is ignored. */
  const FallbackQuestions: seq<GenQuestion> :=
    [ Plain(FallbackText1, "Easy", FallbackIdeal1),
      Plain(FallbackText2, "Easy", FallbackIdeal2),
      Plain(FallbackText3, "Medium", FallbackIdeal3),
      Plain(FallbackText4, "Medium", FallbackIdeal4),
      Plain(FallbackText5, "Hard", FallbackIdeal5),
      Plain(FallbackText6, "Hard", FallbackIdeal6) ]

  /** The fallback set is itself a valid set, two of each difficulty in the order Easy,
      Easy, Medium, Medium, Hard, Hard. */
  lemma FallbackQuestionsShape()
    ensures ValidQuestionSet(FallbackQuestions)
    ensures forall i :: 0 <= i < 6 ==> FallbackQuestions[i].difficulty == Difficulties[i / 2]
    ensures forall i :: 0 <= i < 6 ==> Bare(FallbackQuestions[i])
  {
    var f := FallbackQuestions;
    forall i | 0 <= i < 6 ensures QuestionOk(f[i]) && f[i].difficulty == Difficulties[i / 2] && Bare(f[i]) {
      assert f[i].difficulty == Difficulties[i / 2];
      assert f[i].difficulty in Difficulties;
    }
  }

  /** What `generateQuestions` returns for the model's outcome. */
  function QuestionsFor(outcome: AiOutcome<QuestionsDoc>): seq<GenQuestion>
  {
    if outcome.Returned? && outcome.parsed.Some? && outcome.parsed.value.questions.Some?
       && ValidQuestionSet(outcome.parsed.value.questions.value)
    then outcome.parsed.value.questions.value
    else FallbackQuestions
  }

  /** `generateQuestions`: the checks of the reply, each failure falling back to the fixed
      set. */
  method GenerateQuestions(outcome: AiOutcome<QuestionsDoc>) returns (qs: seq<GenQuestion>)
    ensures qs == QuestionsFor(outcome)
    ensures ValidQuestionSet(qs)
  {
    FallbackQuestionsShape();
    if outcome.Threw? || outcome.parsed.None? || outcome.parsed.value.questions.None? {
      return FallbackQuestions;
    }
    var items := outcome.parsed.value.questions.value;
    if |items| != 6 {
      return FallbackQuestions;
    }
    var i := 0;
    while i < |items|
      invariant 0 <= i <= |items|
      invariant forall j :: 0 <= j < i ==> QuestionOk(items[j])
    {
      var q := items[i];
      if q.text == [] || q.difficulty == [] || q.idealAnswer == [] {
        return FallbackQuestions;
      }
      if q.difficulty !in Difficulties {
        return FallbackQuestions;
      }
      i := i + 1;
    }
    return items;
  }

  /** A reply is used as it is exactly when it is a valid set; anything else gives the
      fallback set. */
  lemma QuestionsForIff(outcome: AiOutcome<QuestionsDoc>)
    ensures var qs := QuestionsFor(outcome);
      (outcome.Returned? && outcome.parsed.Some? && outcome.parsed.value.questions.Some?
       && ValidQuestionSet(outcome.parsed.value.questions.value))
      ==> qs == outcome.parsed.value.questions.value
    ensures !(outcome.Returned? && outcome.parsed.Some? && outcome.parsed.value.questions.Some?
              && ValidQuestionSet(outcome.parsed.value.questions.value))
      ==> QuestionsFor(outcome) == FallbackQuestions
    ensures outcome.Threw? ==> QuestionsFor(outcome) == FallbackQuestions
    ensures ValidQuestionSet(QuestionsFor(outcome))
  {
    FallbackQuestionsShape();
  }

  /** Six complete Easy questions pass: the two-of-each distribution the prompt asks for
      is not enforced. */
  lemma DistributionNotChecked(q: GenQuestion)
    requires q.text != [] && q.idealAnswer != [] && q.difficulty == "Easy"
    ensures var set6 := [q, q, q, q, q, q];
      QuestionsFor(Returned(Some(QuestionsDoc(Some(set6))))) == set6
  {
    var set6 := [q, q, q, q, q, q];
    assert q.difficulty == Difficulties[0];
    assert forall i :: 0 <= i < |set6| ==> set6[i] == q;
  }

  // ---------------------------------------------------------------- scoreAnswer

  /** The parsed scoring reply; `score` is absent when the member is missing. */
  datatype ScoreReply = ScoreReply(score: Option<int>, reasoning: string)

  datatype ScoreResult = ScoreResult(score: int, reasoning: string)

  const UnparsedReasoning: string := "Could not parse score"

  /** `parsed?.score ? parsed : { score: 0, reasoning: "Could not parse score" }` */
  function SelectScore(parsed: Option<ScoreReply>): ScoreResult
  {
    if parsed.Some? && parsed.value.score.Some? && parsed.value.score.value != 0
    then ScoreResult(parsed.value.score.value, parsed.value.reasoning)
    else ScoreResult(0, UnparsedReasoning)
  }

  /** The reply is taken as it is exactly when its score is present and not zero; a
      genuine zero is replaced by the fixed result too, and no range is checked. */
  lemma SelectScoreIff(parsed: Option<ScoreReply>)
    ensures var r := SelectScore(parsed);
      (r.score != 0 <==> parsed.Some? && parsed.value.score.Some? && parsed.value.score.value != 0)
      && (r.score != 0 ==> r == ScoreResult(parsed.value.score.value, parsed.value.reasoning))
      && (r.score == 0 ==> r.reasoning == UnparsedReasoning)
  {
  }

  /** `scoreAnswer`: a failed call propagates (`None`), a returned one is selected. */
  function ScoreAnswer(outcome: AiOutcome<ScoreReply>): (r: Option<ScoreResult>)
    ensures r.None? <==> outcome.Threw?
  {
    match outcome
    case Threw => None
    case Returned(p) => Some(SelectScore(p))
  }

  // ---------------------------------------------------------------- summaries

  /** The `candidate` member of the interview being summarised: `null` (its candidate no
      longer exists), a bare id (not populated: no `name`), or a populated record. */
  datatype CandidateRef = NullCandidate | Unpopulated | Populated(name: string)

  /** `candidate.name || 'Candidate'` */
  function DisplayName(c: CandidateRef): (r: string)
    requires !c.NullCandidate?
    ensures r != []
  {
    if c.Populated? && c.name != [] then c.name else "Candidate"
  }

  const StrongRemark: string := "Strong performance with good technical knowledge."
  const ModerateRemark: string := "Moderate performance with room for improvement."
  const WeakRemark: string := "Needs significant improvement in technical skills."

  /** The closing remark for an average of `tenths` tenths. */
  function Remark(tenths: int): string
  {
    if tenths >= 70 then StrongRemark else if tenths >= 50 then ModerateRemark else WeakRemark
  }

  /** The remark is "Strong…" exactly from 7 up, "Moderate…" exactly from 5 below 7, and
      "Needs…" exactly below 5. */
  lemma RemarkThresholds(tenths: int)
    ensures Remark(tenths) == StrongRemark <==> tenths >= 70
    ensures Remark(tenths) == ModerateRemark <==> 50 <= tenths < 70
    ensures Remark(tenths) == WeakRemark <==> tenths < 50
  {
  }

  /** Questions with a non-empty answer that did not time out. */
  function CountAnswered(qs: seq<Question>): (r: nat)
    ensures r <= |qs|
  {
    if qs == [] then 0
    else (if qs[0].answer != [] && !qs[0].timedOut then 1 else 0) + CountAnswered(qs[1..])
  }

  lemma {:induction false} CountAnsweredAtMostResolved(qs: seq<Question>)
    ensures CountAnswered(qs) <= CountResolved(qs)
  {
    if qs != [] {
      CountAnsweredAtMostResolved(qs[1..]);
    }
  }

  /** `generateFallbackSummary(candidate, interview)`; a missing `finalScore` counts as 0. */
  function FallbackSummary(candidate: CandidateRef, qs: seq<Question>, finalScore: Option<int>): string
    requires !candidate.NullCandidate?
  {
    var average := finalScore.GetOr(0);
    "Interview Summary for " + DisplayName(candidate) + ": \nAnswered " + NatToString(CountAnswered(qs))
      + "/" + NatToString(|qs|) + " questions with an average score of " + TenthsToString(average)
      + "/10. \n" + Remark(average)
  }

  /** `summarizeInterview`: the reply's `summary` when it is non-empty, else the fallback,
      which a failed call also gets. The prompt reads `candidate.name` before the call, so
      a `null` candidate throws (`Failure`). */
  function SummarizeInterview(candidate: CandidateRef, qs: seq<Question>, finalScore: Option<int>,
                              outcome: AiOutcome<string>): (r: Result<string, ()>)
    ensures r.Failure? <==> candidate.NullCandidate?
    ensures r.Success? && outcome.Returned? && outcome.parsed.Some? && outcome.parsed.value != []
      ==> r.value == outcome.parsed.value
    ensures r.Success? && !(outcome.Returned? && outcome.parsed.Some? && outcome.parsed.value != [])
      ==> r.value == FallbackSummary(candidate, qs, finalScore)
  {
    if candidate.NullCandidate? then Failure(())
    else if outcome.Returned? && outcome.parsed.Some? && outcome.parsed.value != [] then Success(outcome.parsed.value)
    else Success(FallbackSummary(candidate, qs, finalScore))
  }
}
