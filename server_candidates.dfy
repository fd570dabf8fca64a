/** The candidate routes of the `server/` backend: creation from an uploaded resume, the
    profile update that starts the interview once the profile is complete, and the answer
    transition that scores the current item, moves the `currentIndex` cursor forward and
    completes the interview after the last item. The record is an in-memory object. */
module ServerCandidates {
  import opened Wrappers
  import opened Text
  import opened Questions
  import opened Score
  import RS = ServerResume

  datatype Sender = System | Bot | User

  datatype ChatMessage = ChatMessage(sender: Sender, text: string)

  /** `'collecting-profile' | 'in-progress' | 'completed'` */
  datatype Status = CollectingProfile | InProgress | Completed

  /** The interview part of a candidate record: what the answer and profile routes
      change. */
  datatype Session = Session(
    status: Status,
    currentIndex: int,
    items: seq<QAItem>,
    chat: seq<ChatMessage>,
    totalScore: int,
    summary: Option<string>)

  const WelcomeText: string := "Welcome to Crisp! Please confirm Name, Email, Phone to begin."
  const StartText: string := "Great! Starting your interview now. 6 questions: 2 Easy, 2 Medium, 2 Hard."
  const NoAnswerText: string := "[No answer]"
  const NoFileMessage: string := "No file uploaded"

  // ---------------------------------------------------------------- upload

  /** The upload route: a request without a file is rejected before the parser runs;
      otherwise the outcome is the parser's. */
  function UploadOutcome(file: Option<RS.ResumeFile>, run: RS.DecoderRun): (r: Result<RS.Parsed, RS.ParseError>)
    ensures file.None? <==> r == Failure(RS.ParseError(400, NoFileMessage))
    ensures file.Some? ==> r == RS.ParseResumeOf(file, run)
  {
    if file.None? then Failure(RS.ParseError(400, NoFileMessage))
    else
      RS.ParseOutcomes(file, run);
      RS.ParseResumeOf(file, run)
  }

  /** The session of a newly created candidate: collecting the profile, no items, and the
      welcome message alone in the chat. */
  function NewSession(): (s: Session)
    ensures s.status == CollectingProfile && s.items == [] && s.currentIndex == 0
    ensures s.chat == [ChatMessage(System, WelcomeText)]
  {
    Session(CollectingProfile, 0, [], [ChatMessage(System, WelcomeText)], 0, None)
  }

  // ---------------------------------------------------------------- invariant

  /** An item not yet answered. */
  predicate IsOpen(it: QAItem)
  {
    it.answer.None? && it.aiScore.None? && it.aiNotes.None?
  }

  /** An item the answer route has written. */
  predicate IsAnswered(it: QAItem)
  {
    it.answer.Some? && it.aiScore.Some? && it.aiNotes.Some?
  }

  /** Six items, none answered: what `buildInterview` gives. */
  predicate FreshItems(items: seq<QAItem>)
  {
    |items| == 6 && forall j :: 0 <= j < 6 ==> IsOpen(items[j])
  }

  /** The states the routes can reach: no items while the profile is collected; during the
      interview the items before the cursor are answered and the rest open; once complete
      every item is answered, the cursor rests on the last one and the total is the sum
      of the scores. */
  predicate ProgressOk(s: Session)
  {
    match s.status
    case CollectingProfile => s.items == [] && s.currentIndex == 0
    case InProgress =>
      && |s.items| == 6 && 0 <= s.currentIndex < 6
      && (forall j :: 0 <= j < s.currentIndex ==> IsAnswered(s.items[j]))
      && (forall j :: s.currentIndex <= j < 6 ==> IsOpen(s.items[j]))
    case Completed =>
      && |s.items| == 6 && s.currentIndex == 5
      && (forall j :: 0 <= j < 6 ==> IsAnswered(s.items[j]))
      && s.totalScore == TotalScore(s.items)
  }

  lemma NewSessionOk()
    ensures ProgressOk(NewSession())
  {
  }

  /** Six items laid out as the three tiers are all unanswered. */
  lemma TiersFresh(r: seq<QAItem>)
    requires |r| == 6
    requires TierOk(r[..2], "easy", 20, EasyPool)
    requires TierOk(r[2..4], "medium", 60, MediumPool)
    requires TierOk(r[4..], "hard", 120, HardPool)
    ensures FreshItems(r)
  {
    forall j | 0 <= j < 6 ensures IsOpen(r[j]) {
      if j < 2 {
        assert r[j] == r[..2][j];
      } else if j < 4 {
        assert r[j] == r[2..4][j - 2];
      } else {
        assert r[j] == r[4..][j - 4];
      }
    }
  }

  lemma BuildInterviewFresh(easyDraws: seq<nat>, mediumDraws: seq<nat>, hardDraws: seq<nat>, ids: seq<string>)
    requires PairDraws(easyDraws) && PairDraws(mediumDraws) && PairDraws(hardDraws) && |ids| == 6
    ensures FreshItems(BuildInterview(easyDraws, mediumDraws, hardDraws, ids))
  {
    BuildInterviewShape(easyDraws, mediumDraws, hardDraws, ids);
    TiersFresh(BuildInterview(easyDraws, mediumDraws, hardDraws, ids));
  }

  // ---------------------------------------------------------------- profile update

  /** The auto-start condition: the three fields non-empty, not completed, no items. */
  predicate ShouldStart(name: string, email: string, phone: string, s: Session)
  {
    name != [] && email != [] && phone != [] && s.status != Completed && s.items == []
  }

  /** The session after the profile update with the fields `name`, `email`, `phone`;
      `built` is what `buildInterview` returns. */
  function ProfileStep(s: Session, name: string, email: string, phone: string, built: seq<QAItem>): Session
  {
    if ShouldStart(name, email, phone, s) then
      s.(items := built, currentIndex := 0, status := InProgress,
         chat := s.chat + [ChatMessage(Bot, StartText)])
    else s
  }

  /** The interview starts exactly under the auto-start condition, with the built items,
      the cursor on the first one and the start message appended; otherwise nothing
      changes. */
  lemma ProfileStepSpec(s: Session, name: string, email: string, phone: string, built: seq<QAItem>)
    ensures var t := ProfileStep(s, name, email, phone, built);
      && (ShouldStart(name, email, phone, s) ==>
            t.status == InProgress && t.items == built && t.currentIndex == 0
            && t.chat == s.chat + [ChatMessage(Bot, StartText)]
            && t.totalScore == s.totalScore && t.summary == s.summary)
      && (!ShouldStart(name, email, phone, s) ==> t == s)
  {
  }

  /** Existing items are never rebuilt, and a completed interview never restarts. */
  lemma ProfileNeverRebuilds(s: Session, name: string, email: string, phone: string, built: seq<QAItem>)
    requires s.items != [] || s.status == Completed
    ensures ProfileStep(s, name, email, phone, built) == s
  {
  }

  /** Once started, a later profile update changes nothing in the session. */
  lemma ProfileStartsOnce(s: Session, n1: string, e1: string, p1: string, b1: seq<QAItem>,
                          n2: string, e2: string, p2: string, b2: seq<QAItem>)
    requires ShouldStart(n1, e1, p1, s) && b1 != []
    ensures var t := ProfileStep(s, n1, e1, p1, b1);
      ProfileStep(t, n2, e2, p2, b2) == t
  {
  }

  /** Starting from a valid state with freshly built items gives a valid state. */
  lemma ProfileKeepsProgress(s: Session, name: string, email: string, phone: string, built: seq<QAItem>)
    requires ProgressOk(s) && FreshItems(built)
    ensures ProgressOk(ProfileStep(s, name, email, phone, built))
  {
    if ShouldStart(name, email, phone, s) {
      var t := ProfileStep(s, name, email, phone, built);
      assert t.items == built && t.currentIndex == 0 && t.status == InProgress;
    }
  }

  // ---------------------------------------------------------------- answer

  datatype AnswerError = NotInProgress | NoQuestion

  /** `{ status, nextIndex }` of the reply. */
  datatype AnswerReply = AnswerReply(status: Status, nextIndex: int)

  /** `answer || '[No answer]'` */
  function UserText(answer: string): (t: string)
    ensures t != []
    ensures answer != [] ==> t == answer
  {
    if answer == [] then NoAnswerText else answer
  }

  /** The external result when it was requested and came back; `localScore` otherwise. */
  function ChosenScore(useGemini: bool, gemini: Option<Scored>, it: QAItem, answer: string): (r: Scored)
    ensures useGemini && gemini.Some? ==> r == gemini.value
    ensures !(useGemini && gemini.Some?) ==>
      r.score == LocalScoreOf(it.question, answer, it.difficulty) && r.notes == HeuristicNotes
      && 0 <= r.score <= 10
  {
    LocalScoreRange(it.question, answer, it.difficulty);
    if useGemini && gemini.Some? then gemini.value
    else Scored(LocalScoreOf(it.question, answer, it.difficulty), HeuristicNotes)
  }

  /** `result = useGemini ? await geminiScore(..) : null; if (!result) result = localScore(..)` */
  method ScoreAnswer(useGemini: bool, gemini: Option<Scored>, it: QAItem, answer: string) returns (r: Scored)
    ensures r == ChosenScore(useGemini, gemini, it, answer)
  {
    var result: Option<Scored> := if useGemini then gemini else None;
    if result.None? {
      var local := LocalScore(it.question, answer, it.difficulty);
      result := Some(local);
    }
    return result.value;
  }

  /** The stored answer, score and notes. */
  function WithAnswer(it: QAItem, answer: string, sc: Scored): QAItem
  {
    it.(answer := Some(answer), aiScore := Some(sc.score), aiNotes := Some(sc.notes))
  }

  /** `Score: ${score}/10. ${notes || ''}` */
  function FeedbackText(sc: Scored): string
  {
    "Score: " + IntToString(sc.score) + "/10. " + sc.notes
  }

  /** `Final score: ${totalScore}/60. ${summary}` */
  function FinalText(total: int, summary: string): string
  {
    "Final score: " + IntToString(total) + "/60. " + summary
  }

  /** The checks before anything is written: the status, then an item at the cursor. */
  function AnswerCheck(s: Session): (e: Option<AnswerError>)
    ensures e == Some(NotInProgress) <==> s.status != InProgress
    ensures e.None? <==> s.status == InProgress && 0 <= s.currentIndex < |s.items|
  {
    if s.status != InProgress then Some(NotInProgress)
    else if !(0 <= s.currentIndex < |s.items|) then Some(NoQuestion)
    else None
  }

  /** The session after an answer to the current item, for the candidate `name`. */
  function AnswerStep(name: string, s: Session, answer: string, useGemini: bool, gemini: Option<Scored>)
    : Result<Session, AnswerError>
  {
    match AnswerCheck(s)
    case Some(e) => Failure(e)
    case None =>
      var idx := s.currentIndex;
      var sc := ChosenScore(useGemini, gemini, s.items[idx], answer);
      var items := s.items[idx := WithAnswer(s.items[idx], answer, sc)];
      var chat := s.chat + [ChatMessage(User, UserText(answer))] + [ChatMessage(Bot, FeedbackText(sc))];
      if idx < |s.items| - 1 then
        Success(s.(items := items, chat := chat, currentIndex := idx + 1))
      else
        var total := TotalScore(items);
        var summary := SummarizeCandidate(name, items);
        Success(s.(items := items, status := Completed, totalScore := total, summary := Some(summary),
                   chat := chat + [ChatMessage(Bot, FinalText(total, summary))]))
  }

  /** An answer is rejected, with nothing written, unless the interview is in progress and
      an item is at the cursor; the status is checked first. */
  lemma AnswerRejections(name: string, s: Session, answer: string, useGemini: bool, gemini: Option<Scored>)
    ensures var r := AnswerStep(name, s, answer, useGemini, gemini);
      && (r == Failure(NotInProgress) <==> s.status != InProgress)
      && (r == Failure(NoQuestion) <==> s.status == InProgress && !(0 <= s.currentIndex < |s.items|))
      && (r.Success? <==> s.status == InProgress && 0 <= s.currentIndex < |s.items|)
  {
  }

  /** In a valid state the item lookup never fails: only the status can reject. */
  lemma ValidNeverLacksQuestion(name: string, s: Session, answer: string, useGemini: bool, gemini: Option<Scored>)
    requires ProgressOk(s)
    ensures AnswerStep(name, s, answer, useGemini, gemini) != Failure(NoQuestion)
  {
  }

  /** Only the current item changes: it keeps its question, difficulty, id and time, and
      gets the answer as sent and the chosen score and notes. */
  lemma AnswerChangesOnlyCurrent(name: string, s: Session, answer: string, useGemini: bool, gemini: Option<Scored>)
    requires AnswerStep(name, s, answer, useGemini, gemini).Success?
    ensures var t := AnswerStep(name, s, answer, useGemini, gemini).value;
      var i := s.currentIndex;
      var sc := ChosenScore(useGemini, gemini, s.items[i], answer);
      && |t.items| == |s.items|
      && (forall j :: 0 <= j < |s.items| && j != i ==> t.items[j] == s.items[j])
      && t.items[i].questionId == s.items[i].questionId && t.items[i].question == s.items[i].question
      && t.items[i].difficulty == s.items[i].difficulty
      && t.items[i].secondsAllowed == s.items[i].secondsAllowed
      && t.items[i].answer == Some(answer) && t.items[i].aiScore == Some(sc.score)
      && t.items[i].aiNotes == Some(sc.notes)
  {
  }

  /** Before the last item the cursor moves one forward and the user message and the
      feedback are appended. */
  lemma AnswerAdvances(name: string, s: Session, answer: string, useGemini: bool, gemini: Option<Scored>)
    requires AnswerStep(name, s, answer, useGemini, gemini).Success? && s.currentIndex < |s.items| - 1
    ensures var t := AnswerStep(name, s, answer, useGemini, gemini).value;
      var sc := ChosenScore(useGemini, gemini, s.items[s.currentIndex], answer);
      && t.status == InProgress && t.currentIndex == s.currentIndex + 1
      && t.chat == s.chat + [ChatMessage(User, UserText(answer)), ChatMessage(Bot, FeedbackText(sc))]
      && t.totalScore == s.totalScore && t.summary == s.summary
  {
  }

  /** On the last item the interview completes, the total is the sum of the scores (a
      missing one counting 0) and a third, final message follows the two of every answer. */
  lemma AnswerCompletes(name: string, s: Session, answer: string, useGemini: bool, gemini: Option<Scored>)
    requires AnswerStep(name, s, answer, useGemini, gemini).Success? && s.currentIndex == |s.items| - 1
    ensures var t := AnswerStep(name, s, answer, useGemini, gemini).value;
      var sc := ChosenScore(useGemini, gemini, s.items[s.currentIndex], answer);
      && t.status == Completed && t.currentIndex == s.currentIndex
      && t.totalScore == TotalScore(t.items)
      && t.summary == Some(SummarizeCandidate(name, t.items))
      && t.chat == s.chat + [ChatMessage(User, UserText(answer)), ChatMessage(Bot, FeedbackText(sc))]
                  + [ChatMessage(Bot, FinalText(t.totalScore, t.summary.value))]
  {
  }

  /** Before the last item the cursor moves one forward and the user message and the
      feedback are appended; on the last item the interview completes, the total is the
      sum of the scores (a missing one counting 0) and a third, final message follows. */
  lemma AnswerAdvancesOrCompletes(name: string, s: Session, answer: string, useGemini: bool, gemini: Option<Scored>)
    requires AnswerStep(name, s, answer, useGemini, gemini).Success?
    ensures var t := AnswerStep(name, s, answer, useGemini, gemini).value;
      var i := s.currentIndex;
      var sc := ChosenScore(useGemini, gemini, s.items[i], answer);
      var msgs := [ChatMessage(User, UserText(answer)), ChatMessage(Bot, FeedbackText(sc))];
      && (i < |s.items| - 1 ==>
            t.status == InProgress && t.currentIndex == i + 1 && t.chat == s.chat + msgs
            && t.totalScore == s.totalScore && t.summary == s.summary)
      && (i == |s.items| - 1 ==>
            t.status == Completed && t.currentIndex == i && t.totalScore == TotalScore(t.items)
            && t.summary == Some(SummarizeCandidate(name, t.items))
            && t.chat == s.chat + msgs + [ChatMessage(Bot, FinalText(t.totalScore, t.summary.value))])
  {
    if s.currentIndex < |s.items| - 1 {
      AnswerAdvances(name, s, answer, useGemini, gemini);
    } else {
      AnswerRejections(name, s, answer, useGemini, gemini);
      AnswerCompletes(name, s, answer, useGemini, gemini);
    }
  }

  /** Where the cursor goes: one forward, or on the last item to completion with the
      summed total. */
  lemma AnswerMovesCursor(name: string, s: Session, answer: string, useGemini: bool, gemini: Option<Scored>)
    requires AnswerStep(name, s, answer, useGemini, gemini).Success?
    ensures var t := AnswerStep(name, s, answer, useGemini, gemini).value;
      && (s.currentIndex < |s.items| - 1 ==> t.status == InProgress && t.currentIndex == s.currentIndex + 1)
      && (s.currentIndex == |s.items| - 1 ==> t.status == Completed && t.totalScore == TotalScore(t.items))
  {
  }

  /** Every answer keeps the state valid. */
  lemma AnswerKeepsProgress(name: string, s: Session, answer: string, useGemini: bool, gemini: Option<Scored>)
    requires ProgressOk(s) && AnswerStep(name, s, answer, useGemini, gemini).Success?
    ensures ProgressOk(AnswerStep(name, s, answer, useGemini, gemini).value)
  {
    var t := AnswerStep(name, s, answer, useGemini, gemini).value;
    var i := s.currentIndex;
    forall j | 0 <= j < t.currentIndex ensures IsAnswered(t.items[j]) {
      if j != i {
        assert t.items[j] == s.items[j];
      }
    }
  }

  /** Scores within `[0, 10]`. */
  predicate ScoresInRange(items: seq<QAItem>)
  {
    forall j :: 0 <= j < |items| ==> 0 <= ScoreOrZero(items[j]) <= 10
  }

  /** With every score within `[0, 10]` the completed total lies in `[0, 60]`, the scale of
      the final message. */
  lemma CompletedTotalRange(s: Session)
    requires ProgressOk(s) && s.status == Completed && ScoresInRange(s.items)
    ensures 0 <= s.totalScore <= 60
  {
    TotalScoreRange(s.items);
  }

  /** The local score keeps scores in range; so does an external one within `[0, 10]`. */
  lemma AnswerKeepsScoresInRange(name: string, s: Session, answer: string, useGemini: bool, gemini: Option<Scored>)
    requires ScoresInRange(s.items) && AnswerStep(name, s, answer, useGemini, gemini).Success?
    requires useGemini && gemini.Some? ==> 0 <= gemini.value.score <= 10
    ensures ScoresInRange(AnswerStep(name, s, answer, useGemini, gemini).value.items)
  {
    var t := AnswerStep(name, s, answer, useGemini, gemini).value;
    forall j | 0 <= j < |t.items| ensures 0 <= ScoreOrZero(t.items[j]) <= 10 {
      if j != s.currentIndex {
        assert t.items[j] == s.items[j];
      }
    }
  }

  /** One request to the answer route. */
  datatype AnswerInput = AnswerInput(answer: string, useGemini: bool, gemini: Option<Scored>)

  /** The answers applied in turn, up to the first rejection. */
  function Replay(name: string, s: Session, ins: seq<AnswerInput>): Result<Session, AnswerError>
    decreases |ins|
  {
    if ins == [] then Success(s)
    else
      match AnswerStep(name, s, ins[0].answer, ins[0].useGemini, ins[0].gemini)
      case Failure(e) => Failure(e)
      case Success(t) => Replay(name, t, ins[1..])
  }

  /** From a valid state in progress, one answer per remaining item completes the
      interview, and every item is then answered. */
  lemma {:induction false} RemainingAnswersComplete(name: string, s: Session, ins: seq<AnswerInput>)
    requires ProgressOk(s) && s.status == InProgress && |ins| == 6 - s.currentIndex
    ensures var r := Replay(name, s, ins);
      && r.Success? && r.value.status == Completed && ProgressOk(r.value)
      && r.value.totalScore == TotalScore(r.value.items)
    decreases |ins|
  {
    var a := ins[0];
    AnswerRejections(name, s, a.answer, a.useGemini, a.gemini);
    AnswerKeepsProgress(name, s, a.answer, a.useGemini, a.gemini);
    AnswerMovesCursor(name, s, a.answer, a.useGemini, a.gemini);
    var t := AnswerStep(name, s, a.answer, a.useGemini, a.gemini).value;
    if |ins| > 1 {
      RemainingAnswersComplete(name, t, ins[1..]);
    } else {
      assert ins[1..] == [];
    }
  }

  /** A completed interview rejects every further answer. */
  lemma CompletedRejects(name: string, s: Session, ins: seq<AnswerInput>)
    requires s.status == Completed && ins != []
    ensures Replay(name, s, ins) == Failure(NotInProgress)
  {
  }

  /** The record of `server/src/models/Candidate.js`; an absent string field is `""`. */
  class Candidate {
    var name: string
    var email: string
    var phone: string
    var uploadedFileName: string
    var status: Status
    var currentIndex: int
    var items: seq<QAItem>
    var chat: seq<ChatMessage>
    var totalScore: int
    var summary: Option<string>

    function State(): Session
      reads this
    {
      Session(status, currentIndex, items, chat, totalScore, summary)
    }

    /** `Candidate.create` in the upload route: the parsed fields, the file name, the
        initial status and the welcome message. */
    constructor FromUpload(fields: RS.Fields, originalName: string)
      ensures name == fields.name.GetOr("") && email == fields.email.GetOr("")
      ensures phone == fields.phone.GetOr("") && uploadedFileName == originalName
      ensures State() == NewSession()
    {
      name := fields.name.GetOr("");
      email := fields.email.GetOr("");
      phone := fields.phone.GetOr("");
      uploadedFileName := originalName;
      status := CollectingProfile;
      currentIndex := 0;
      items := [];
      chat := [ChatMessage(System, WelcomeText)];
      totalScore := 0;
      summary := None;
    }

    /** The profile route: `$set` of the three fields, then the auto-start with the items
        `buildInterview` draws. */
    method UpdateProfile(newName: string, newEmail: string, newPhone: string,
                         easyDraws: seq<nat>, mediumDraws: seq<nat>, hardDraws: seq<nat>, ids: seq<string>)
      requires PairDraws(easyDraws) && PairDraws(mediumDraws) && PairDraws(hardDraws) && |ids| == 6
      modifies this`name, this`email, this`phone, this`items, this`currentIndex, this`status, this`chat
      ensures name == newName && email == newEmail && phone == newPhone
      ensures State() == ProfileStep(old(State()), newName, newEmail, newPhone,
                                     BuildInterview(easyDraws, mediumDraws, hardDraws, ids))
    {
      name := newName;
      email := newEmail;
      phone := newPhone;
      if name != [] && email != [] && phone != [] && status != Completed && |items| == 0 {
        Start(BuildInterview(easyDraws, mediumDraws, hardDraws, ids));
      }
    }

    /** The start of the interview on the items `buildInterview` gave. */
    method Start(built: seq<QAItem>)
      modifies this`items, this`currentIndex, this`status, this`chat
      ensures items == built && currentIndex == 0 && status == InProgress
      ensures chat == old(chat) + [ChatMessage(Bot, StartText)]
    {
      items := built;
      currentIndex := 0;
      status := InProgress;
      chat := chat + [ChatMessage(Bot, StartText)];
    }

    /** The completion after the last answer: the status, the total, the summary and the
        final message. */
    method Complete()
      modifies this`status, this`totalScore, this`summary, this`chat
      ensures status == Completed && totalScore == TotalScore(items)
      ensures summary == Some(SummarizeCandidate(name, items))
      ensures chat == old(chat) + [ChatMessage(Bot, FinalText(totalScore, summary.value))]
    {
      status := Completed;
      totalScore := TotalScore(items);
      summary := Some(SummarizeCandidate(name, items));
      chat := chat + [ChatMessage(Bot, FinalText(totalScore, summary.value))];
    }

    /** The answer route: `gemini` is what `geminiScore` returned when it was asked. */
    method SubmitAnswer(answer: string, useGemini: bool, gemini: Option<Scored>) returns (r: Result<AnswerReply, AnswerError>)
      modifies this`items, this`chat, this`currentIndex, this`status, this`totalScore, this`summary
      ensures var step := AnswerStep(name, old(State()), answer, useGemini, gemini);
        && (step.Failure? ==> r == Failure(step.error) && State() == old(State()))
        && (step.Success? ==> State() == step.value && r == Success(AnswerReply(status, currentIndex)))
    {
      if status != InProgress {
        return Failure(NotInProgress);
      }
      var idx := currentIndex;
      if !(0 <= idx < |items|) {
        return Failure(NoQuestion);
      }
      var item := items[idx];
      chat := chat + [ChatMessage(User, UserText(answer))];
      var result := ScoreAnswer(useGemini, gemini, item, answer);
      items := items[idx := WithAnswer(item, answer, result)];
      chat := chat + [ChatMessage(Bot, FeedbackText(result))];
      if idx < |items| - 1 {
        currentIndex := idx + 1;
      } else {
        Complete();
      }
      return Success(AnswerReply(status, currentIndex));
    }
  }
}
