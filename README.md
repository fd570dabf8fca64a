# AI-Powered Interview Assistant — a Dafny model of its core

This project models the logic of AI-Powered-Interview-Assistant, a system that takes a
candidate's resume, runs a timed six-question technical interview, scores the answers
and writes a summary. The repository has two backends and a client, and the model
covers the logic of each:

- **`interview/` backend.**
  - Resume field extraction (`resumeParser.js`): white-space normalisation, heading
    detection and section segmentation, summary selection with a word-capped fallback,
    the name heuristic, and the first e-mail and phone matches.
  - The AI service (`aiService.js`): stripping the JSON fence, validating generated
    question sets with a fixed fallback, selecting a score, and the summary with its
    templated fallback.
  - The interview session (`routes/interviews.js`): the start checks, the
    current-question lookup, the answer and skip transitions with their rejection
    order, and finalisation with the rounded mean in tenths.
  - The candidate record (`routes/candidates.js`, `models/Candidate.js`): creation,
    the upload filter, the size limit and the stored path, extraction and backfill,
    the field update with recomputed missing fields, and the listing projection.
- **`server/` backend.**
  - Resume parsing (`lib/resume.js`): the buffer and type checks, decoder errors, and
    the `NAME_HINT` regular expression read as a leftmost-longest search.
  - Question-set building (`lib/questions.js`): `pick` over a copy, and three tiers of
    two.
  - The heuristic scorer and the candidate summary (`lib/score.js`).
  - The candidate routes (`web/candidates.js`): upload, profile auto-start, and the
    answer step that advances or completes the interview.
- **Client** (`client/src/services/api.js`): the per-difficulty time limit and the
  `m:ss` clock.

Each core file is its own module. Pure code is written as functions and lemmas. The
mutable records are classes whose methods change their fields:

- `InterviewCandidates.Candidate`
- `Interviews.Interview`
- `ServerCandidates.Candidate`

Loops in the source are written as methods with loops and invariants. Each such
method is proved equal to a specification function, and the lemmas state the
properties of that function:

- `ExtractSections` and `MergeSections`
- `NameHeuristic`
- `Pick`
- `GenerateQuestions`

Straight-line code that reassigns local variables is written as a method without a
loop, proved equal to its function: `LocalScore`, `ExtractFields`, `ParseResume`,
`InterviewCandidates.Checked` and `ServerCandidates.ScoreAnswer`. These methods are
the imperative rendering of the source, not proofs in their own right; what is proved
about them is proved about their functions.

Shared modules:

- `Wrappers`: `Option` and `Result`.
- `Text`: the JavaScript string operations the core relies on — `trim` with its
  white-space set, ASCII `toLowerCase`, `split`, `join`, `includes`, `split(/\s+/)`,
  `String(n)`, `Math.round` and `toFixed(1)` on integer tenths.
- `Patterns`: leftmost-longest matching and the e-mail and phone languages.
- `NodePath`: Node's POSIX `path.extname`.

Everything outside the process is an input or a parameter rather than a call. That
covers decoder output, model replies, random draws, UUIDs, `Date.now()` and
`Math.random()`.

Scores are integers. A `finalScore` is held as integer tenths: `Math.round(mean * 10)`
becomes `(20 * total + n) / (2 * n)`, and with a positive divisor Dafny's division is
the floor that `Math.round` applies after adding a half. The JavaScript `%` takes the
sign of its dividend; `ClientApi.JsRem60` writes it out.

Where the documented design and the code disagree, the model follows the code:

- An answer to a question that was skipped (timed out without an answer) is accepted,
  because the answer route only looks at `question.answer`
  (`Interviews.AnswerAfterSkip`).
- Finalisation has no guard. Running it again recomputes the score and asks for a new
  summary (`Interviews.Interview.Finalize`).
- A scoring call that throws in the `interview/` service fails the answer route
  (`ScoringFailed`); there is no local fallback there. A genuine score of 0 from the
  model is replaced by the "could not parse" result (`AiService.SelectScoreIff`).
- A Gemini score in the `server/` backend is not range-checked.
- The generated question set is not checked for two questions per difficulty
  (`AiService.DistributionNotChecked`).

## Model

| member | source | states |
|---|---|---|
| ResumeParser.RemoveCR | interview/src/services/resumeParser.js:55 | the result has no carriage return and only characters of the input |
| ResumeParser.CollapseBlanks | interview/src/services/resumeParser.js:56 | no tab and no two adjacent spaces remain; only input characters and spaces appear |
| ResumeParser.CapNewlines | interview/src/services/resumeParser.js:57 | no run of three newlines remains; it keeps the first character and never creates double spaces |
| ResumeParser.NormalizeText | interview/src/services/resumeParser.js:53-59 | definition of normalizeText as the composition of its three replacements and trim; its properties are the lemmas below |
| ResumeParser.NormalizeTextIsNormalized | interview/src/services/resumeParser.js:53-59 | the output of normalizeText is trimmed, without CR or tab, double space or triple newline |
| ResumeParser.NormalizeTextFixesNormalized | interview/src/services/resumeParser.js:53-59 | normalised text is a fixed point of normalizeText |
| ResumeParser.NormalizeTextIdempotent | interview/src/services/resumeParser.js:53-59 | normalizeText applied twice equals applying it once |
| ResumeParser.RemoveCRNoop | interview/src/services/resumeParser.js:55 | removing CRs from CR-free text changes nothing |
| ResumeParser.CollapseBlanksNoop | interview/src/services/resumeParser.js:56 | collapsing blanks in text with no tab or double space changes nothing |
| ResumeParser.CapNewlinesNoop | interview/src/services/resumeParser.js:57 | capping newlines in text with no triple newline changes nothing |
| ResumeParser.LettersOnly | interview/src/services/resumeParser.js:84 | only ASCII letters remain, never more characters than the input |
| ResumeParser.NormalizeHeading | interview/src/services/resumeParser.js:83-85 | the normalised heading consists of lower-case ASCII letters only |
| ResumeParser.NormalizeHeadingIdempotent | interview/src/services/resumeParser.js:83-85 | a normalised heading is its own normal form |
| ResumeParser.MapKey | interview/src/services/resumeParser.js:87-103 | every result is a section key or "_other" |
| ResumeParser.PrefixKey | interview/src/services/resumeParser.js:95-102 | the prefix rules yield a section key or "_other" |
| ResumeParser.MapKeyExactRules1 | interview/src/services/resumeParser.js:88-91 | the summary-like headings map to their keys, profile and aboutme both to "aboutme" |
| ResumeParser.MapKeyExactRules2 | interview/src/services/resumeParser.js:92-93 | experience and workexperience map to "experience" |
| ResumeParser.MapKeyExactRules3 | interview/src/services/resumeParser.js:92-93 | employment maps to "experience" |
| ResumeParser.MapKeyExactRules4 | interview/src/services/resumeParser.js:94 | education maps to itself |
| ResumeParser.PrefixKeyRules1 | interview/src/services/resumeParser.js:95-98 | projects, skills, certifications, achievements map to their keys; awards to "achievements" |
| ResumeParser.PrefixKeyRules2 | interview/src/services/resumeParser.js:99-101 | publications and interests map to their keys; contact and personaldetails to "contact" |
| ResumeParser.ExactHeadingsMapToKeys | interview/src/services/resumeParser.js:88-94 | each canonical heading of the exact rules maps to a section key |
| ResumeParser.PrefixHeadingsMapToKeys | interview/src/services/resumeParser.js:95-101 | each canonical heading of the prefix rules maps to a section key |
| ResumeParser.CanonKeysMapToKeys | interview/src/services/resumeParser.js:62-81 | every canonical heading maps to a section key, so the CANON_KEYS test adds nothing to mapKey's |
| ResumeParser.MapKeyFixesKeys | interview/src/services/resumeParser.js:87-103 | each section key maps to itself, so mapKey is idempotent on its results |
| ResumeParser.ClassifyIff | interview/src/services/resumeParser.js:111-117 | a line is a heading iff its normalised form is non-empty and maps to a key; a body line is kept verbatim |
| ResumeParser.ClassifyLine | interview/src/services/resumeParser.js:111-115 | the loop body's heading test equals the classification of the line |
| ResumeParser.SectionsOf | interview/src/services/resumeParser.js:105-132 | definition of extractSections: classify the lines, segment them, collect the sections; ExtractSections, SegmentKeepsBody, SegmentShape and CollectValue state its properties |
| ResumeParser.ExtractSections | interview/src/services/resumeParser.js:105-132 | the two loops compute the section map of the text |
| ResumeParser.MergeSections | interview/src/services/resumeParser.js:124-131 | the merge loop computes the accumulated map of the pushed sections |
| ResumeParser.SegmentKeepsBody | interview/src/services/resumeParser.js:110-122 | the sections hold exactly the non-heading lines in original order |
| ResumeParser.SegmentShape | interview/src/services/resumeParser.js:115-122 | no pushed section is empty and each title is "_start" or a section key |
| ResumeParser.SegmentPrefix | interview/src/services/resumeParser.js:108-120 | lines before the next heading stay in the open section |
| ResumeParser.StartSectionIsPrefix | interview/src/services/resumeParser.js:108-117 | the text before the first heading becomes the "_start" section |
| ResumeParser.CollectValue | interview/src/services/resumeParser.js:124-131 | a key is present iff some section has it; its value is those texts joined by blank lines from the first non-empty one |
| ResumeParser.PickSummaryLike | interview/src/services/resumeParser.js:134-139 | definition of pickSummaryLike as the first truthy of professionalsummary, summary, objective, aboutme; FirstTruthy states the property |
| ResumeParser.FirstTruthy | interview/src/services/resumeParser.js:134-139 | the result is the first key's non-empty value in order, or empty when none has one |
| ResumeParser.TrimEach | interview/src/services/resumeParser.js:155 | every mapped line is trimmed, one per input line |
| ResumeParser.KeepLines | interview/src/services/resumeParser.js:156 | kept lines are non-empty input lines matching no skip pattern |
| ResumeParser.KeptLines | interview/src/services/resumeParser.js:153-156 | the lines the fallback reads are non-empty and trimmed |
| ResumeParser.FirstParagraph | interview/src/services/resumeParser.js:158 | the first paragraph, at most 12 kept lines joined by spaces, is trimmed |
| ResumeParser.FirstParagraphWords | interview/src/services/resumeParser.js:153-158 | the words of the first paragraph are those of the first min(12, kept) kept lines, in order; a 13th line never contributes |
| ResumeParser.FirstWordsOfTrimmed | interview/src/services/resumeParser.js:159-160 | of a trimmed paragraph exactly its first maxWords words are kept |
| ResumeParser.FallbackSummary | interview/src/services/resumeParser.js:142-161 | definition of generateFallbackSummary as the first maxWords words of the first paragraph; FallbackSummaryWords states the property |
| ResumeParser.FallbackSummaryWords | interview/src/services/resumeParser.js:142-161 | the fallback summary is the first maxWords words of the first paragraph, so at most maxWords words, and they are the first maxWords words of the first 12 kept lines |
| ResumeParser.TrimmedLines | interview/src/services/resumeParser.js:15-18 | every line is non-empty and trimmed |
| ResumeParser.TrimIgnoresCR | interview/src/services/resumeParser.js:16 | a trailing white-space character such as the CR of CRLF does not change the trimmed line |
| ResumeParser.FindFirst | interview/src/services/resumeParser.js:43-49 | the result is the first element satisfying the test; none means no element does |
| ResumeParser.NameLike | interview/src/services/resumeParser.js:21-38 | the first-pass loop body computes the name-line test |
| ResumeParser.NameHeuristic | interview/src/services/resumeParser.js:14-51 | the loop returns the heuristic's name |
| ResumeParser.NameOf | interview/src/services/resumeParser.js:14-51 | definition of nameHeuristic's result: the first name-like line, else the first short line, else empty; NameOfIsALine and NameHeuristic state its properties |
| ResumeParser.NameOfIsALine | interview/src/services/resumeParser.js:14-51 | the name is "" or a trimmed line; a name-like line wins when one exists, otherwise a short line |
| ResumeParser.ExtractResumeSummary | interview/src/services/resumeParser.js:176-209 | the method computes the outcome of extractResumeSummary |
| ResumeParser.ResumeSummaryOf | interview/src/services/resumeParser.js:176-209 | definition of extractResumeSummary's outcome for the decoder's result; ResumeSummaryOutcomes and FieldsOfSpec state its properties |
| ResumeParser.ResumeSummaryOutcomes | interview/src/services/resumeParser.js:176-200 | the unsupported, PDF, DOCX and empty-text failures happen exactly in their cases; otherwise the fields of the normalised text |
| ResumeParser.TrimmedOrEmptyOfMatch | interview/src/services/resumeParser.js:202-203 | a trimmed non-empty match is kept as is and is empty only when absent |
| ResumeParser.FieldsOfSpec | interview/src/services/resumeParser.js:198-204 | e-mail and phone are the leftmost matches or empty; the name is trimmed; the summary is the picked section, else the 120-word fallback |
| Patterns.LeftmostLongestFrom | interview/src/services/resumeParser.js:202 | the span found is the leftmost start with a text in the language, longest there; none means no substring qualifies |
| Patterns.MatchText | interview/src/services/resumeParser.js:202-203 | a match is in the language; none means no substring is |
| Patterns.IsEmail | interview/src/services/resumeParser.js:10 | the language of the e-mail pattern; EmailIsTrimmed states its property |
| Patterns.IsPhone | interview/src/services/resumeParser.js:11 | the language of the phone pattern; PhoneIsTrimmed states its property |
| Patterns.EmailIsTrimmed | interview/src/services/resumeParser.js:10 | a text of the e-mail pattern has no white space at its ends |
| Patterns.PhoneIsTrimmed | interview/src/services/resumeParser.js:11 | a text of the phone pattern has no white space at its ends |
| NodePath.Extname | interview/src/routes/candidates.js:30 | the extension is empty or a dot followed by no dot and no slash |
| NodePath.ExtnameOfPrefixed | interview/src/routes/candidates.js:19-21 | a non-empty prefix without slash or dot keeps the extension |
| NodePath.ExtnameInDir | interview/src/routes/candidates.js:15-21 | a file under a directory keeps its own extension |
| InterviewRecords.CountResolved | interview/src/routes/interviews.js:80 | the count of answered or timed-out questions is at most the number of questions |
| InterviewRecords.CountResolvedAll | interview/src/routes/interviews.js:132 | the count equals the length iff every question is answered or timed out |
| InterviewRecords.ScoresOf | interview/src/routes/interviews.js:223 | the present scores are at most as many as the questions |
| InterviewRecords.ScoresOfInRange | interview/src/routes/interviews.js:224-225 | scores in [0, 10] sum to between 0 and 10 times their count |
| AiService.DropJsonFence | interview/src/services/aiService.js:12 | dropping the leading fence never lengthens the text |
| AiService.DropFence | interview/src/services/aiService.js:13 | dropping the trailing fence never lengthens the text |
| AiService.SafeJson | interview/src/services/aiService.js:7-18 | definition of safeJson: the parse parameter, whose none stands for a throwing JSON.parse, applied to the fence-stripped text; the StripFence lemmas state its properties |
| AiService.StripFence | interview/src/services/aiService.js:9-14 | the text handed to JSON.parse is never longer than the reply |
| AiService.StripFenceOfFenced | interview/src/services/aiService.js:9-14 | a fenced reply gives back exactly its body |
| AiService.StripFenceOfPlain | interview/src/services/aiService.js:9-14 | an unfenced trimmed reply is passed on unchanged |
| AiService.FallbackQuestionsShape | interview/src/services/aiService.js:117-150 | the fallback set is valid, two of each difficulty in Easy, Medium, Hard order |
| AiService.Plain | interview/src/services/aiService.js:117-150 | a fallback question carries its text, difficulty and ideal answer and no answer, score, reasoning or timeout |
| AiService.QuestionsFor | interview/src/services/aiService.js:41-69 | definition of generateQuestions' result; QuestionsForIff states both directions |
| AiService.GenerateQuestions | interview/src/services/aiService.js:41-69 | the validation loop returns the selected set, which is always valid |
| AiService.QuestionsForIff | interview/src/services/aiService.js:46-69 | a reply is used as is iff it is returned, parsed, has a question list and that list is valid; in every other case the result is the fallback set; the result is always valid |
| AiService.DistributionNotChecked | interview/src/services/aiService.js:50-62 | six complete Easy questions pass the validation |
| AiService.SelectScore | interview/src/services/aiService.js:82-84 | definition of the score selection; SelectScoreIff states both directions |
| AiService.SelectScoreIff | interview/src/services/aiService.js:82-84 | the reply is used iff its score is present and non-zero; otherwise the fixed reasoning |
| AiService.ScoreAnswer | interview/src/services/aiService.js:80-84 | no result exactly when the model call throws |
| AiService.DisplayName | interview/src/services/aiService.js:157 | the shown name is never empty |
| AiService.RemarkThresholds | interview/src/services/aiService.js:159-161 | strong iff at least 7, moderate iff in [5, 7), weak iff below 5 |
| AiService.CountAnswered | interview/src/services/aiService.js:154 | the answered count is at most the number of questions |
| AiService.CountAnsweredAtMostResolved | interview/src/services/aiService.js:154 | answered questions are never more than the resolved ones |
| AiService.FallbackSummary | interview/src/services/aiService.js:152-162 | definition of generateFallbackSummary(candidate, interview); DisplayName, CountAnswered and RemarkThresholds state the properties of its parts |
| AiService.SummarizeInterview | interview/src/services/aiService.js:87-115 | a null candidate throws; otherwise a non-empty model summary, else the fallback |
| Interviews.FirstInProgress | interview/src/routes/interviews.js:20-23 | the index of the first in-progress session, none before it |
| Interviews.StartCheck | interview/src/routes/interviews.js:16-27 | a missing candidate is reported first; the start is allowed iff the candidate exists and none is in progress; the first in-progress one is named |
| Interviews.Fresh | interview/src/routes/interviews.js:30-33 | a stored question keeps every member of the generated one, answer, score, reasoning and timeout included; it is open iff the generated one has neither answer nor timeout; a bare generated question gives an open, unscored one |
| Interviews.InitialQuestions | interview/src/routes/interviews.js:30-38 | one fresh question per generated one, in order |
| Interviews.FirstOpen | interview/src/routes/interviews.js:71-73 | the first unresolved question, every earlier one resolved; none iff all are |
| Interviews.CurrentOf | interview/src/routes/interviews.js:64-95 | definition of the current-question view; CurrentOfSpec states its property |
| Interviews.CurrentOfSpec | interview/src/routes/interviews.js:71-90 | the current question is the first open one, numbered from 1; when none is open all count as answered |
| Interviews.StartsAtFirst | interview/src/routes/interviews.js:29-38 | for generated questions without answer, score, reasoning or timeout, a new session's current question is its first, numbered 1, with none resolved |
| Interviews.FallbackStartsAtFirst | interview/src/routes/interviews.js:29-38 | a session built from the fallback set starts at its first question, numbered 1 of 6, none resolved |
| Interviews.PresetTimeOutSkipsFirst | interview/src/routes/interviews.js:30-33 | a generated question that arrives with a timeout set is stored resolved, so the session starts at the next bare one |
| Interviews.CountResolvedUpdate | interview/src/routes/interviews.js:124-132 | replacing one question changes the resolved count only by that question's change |
| Interviews.Answer | interview/src/routes/interviews.js:98-147 | definition of the answer route on the question list; the Answer lemmas below state its properties |
| Interviews.AnswerRejections | interview/src/routes/interviews.js:107-121 | invalid index, then already answered, then a thrown scoring call reject exactly in their cases |
| Interviews.AnswerChangesOnlyIndex | interview/src/routes/interviews.js:123-126 | the addressed question gets the answer, score and reasoning; nothing else changes |
| Interviews.AnswerAfterTimeout | interview/src/routes/interviews.js:111-114 | a timed-out question without answer is still accepted |
| Interviews.EmptyAnswerStaysOpen | interview/src/routes/interviews.js:112-124 | an empty answer is stored, yet the question stays open and can be answered again |
| Interviews.AnswerProgress | interview/src/routes/interviews.js:124-132 | a non-empty answer to an open question resolves one more question |
| Interviews.AnsweringCurrentAdvances | interview/src/routes/interviews.js:71-73 | answering the current question moves the current question past it |
| Interviews.AnswerKeepsScoresInRange | interview/src/routes/interviews.js:125 | an in-range score keeps all scores in [0, 10] |
| Interviews.Skip | interview/src/routes/interviews.js:150-189 | definition of the skip route on the question list; SkipSpec states its property |
| Interviews.SkipSpec | interview/src/routes/interviews.js:159-171 | rejected exactly for a bad index or a processed question; otherwise timed out, score 0, fixed reasoning, one more resolved |
| Interviews.AnswerAfterSkip | interview/src/routes/interviews.js:112 | a skipped question is still accepted by the answer route |
| Interviews.SkipKeepsScoresInRange | interview/src/routes/interviews.js:169 | a skip keeps all scores in [0, 10] |
| Interviews.FinalScoreOf | interview/src/routes/interviews.js:222-227 | definition of the stored final score in tenths; FinalScoreBounds states its bounds |
| Interviews.FinalScoreBounds | interview/src/routes/interviews.js:223-227 | with scores in range the final score is within 0 to 100 tenths; 0 when none is scored |
| Interviews.FinalSummary | interview/src/routes/interviews.js:232-237 | definition of the stored summary; FinalSummaryCases states its cases |
| Interviews.FinalSummaryCases | interview/src/routes/interviews.js:232-237 | a missing candidate gets the completed-with template, else the model summary or the service fallback |
| Interviews.Interview.constructor | interview/src/routes/interviews.js:35-38 | a new session holds the fresh questions, in progress, without score or summary |
| Interviews.Interview.CurrentQuestion | interview/src/routes/interviews.js:64-95 | the route reports completion iff every question is resolved |
| Interviews.Interview.Finalize | interview/src/routes/interviews.js:222-241 | questions unchanged, completed, final score and summary as specified |
| Interviews.Interview.SubmitAnswer | interview/src/routes/interviews.js:98-147 | a rejection changes nothing; otherwise the answered list, and finalisation exactly when all are resolved |
| Interviews.Interview.SkipQuestion | interview/src/routes/interviews.js:150-189 | a rejection changes nothing; otherwise the skipped list, and finalisation exactly when all are resolved |
| InterviewCandidates.MissingOf | interview/src/routes/candidates.js:41 | definition of the missing-fields filter; MissingOfSpec states both directions |
| InterviewCandidates.MissingOfSpec | interview/src/routes/candidates.js:98 | a field is listed iff empty, in the order name, email, phone without repeats |
| InterviewCandidates.Fill | interview/src/routes/candidates.js:94-96 | definition of one back-fill step; FillSpec states its property |
| InterviewCandidates.FillSpec | interview/src/routes/candidates.js:94-96 | a non-empty field is never overwritten; an empty one takes a non-empty extracted value |
| InterviewCandidates.StoredPath | interview/src/routes/candidates.js:18-22 | definition of the stored file path; StampPartClean and StoredPathKeepsExtension state its properties |
| InterviewCandidates.StampPartClean | interview/src/routes/candidates.js:19-20 | the generated part of the stored name holds no slash and no dot |
| InterviewCandidates.StoredPathKeepsExtension | interview/src/routes/candidates.js:18-22 | the stored file keeps the original's extension |
| InterviewCandidates.AcceptedIsSupported | interview/src/routes/candidates.js:28-34 | a file the filter accepts passes the parser's own extension test |
| InterviewCandidates.Checked | interview/src/routes/candidates.js:61-82 | the route's checks in order, then extraction |
| InterviewCandidates.UploadOutcome | interview/src/routes/candidates.js:61-82 | definition of the upload checks and extraction; Checked and UploadOutcomeSpec state its properties |
| InterviewCandidates.UploadOutcomeSpec | interview/src/routes/candidates.js:81-82 | an accepted file fails only on a decoder error or empty text; otherwise the fields of the normalised text |
| InterviewCandidates.LastCompleted | interview/src/routes/candidates.js:128-131 | the last completed interview, none after it; none means none is completed |
| InterviewCandidates.Candidate.constructor | interview/src/routes/candidates.js:38-58 | trimmed fields, e-mail lower-cased, missing list of the raw request, empty resume metadata |
| InterviewCandidates.Candidate.Update | interview/src/routes/candidates.js:167-185 | only the fields present change; the missing list is current |
| InterviewCandidates.Candidate.Backfill | interview/src/routes/candidates.js:94-98 | empty fields are filled through their setters; the missing list is current |
| InterviewCandidates.Candidate.AttachResume | interview/src/routes/candidates.js:61-117 | any failure changes nothing; success stores the summary and file data, drops the legacy text and fills the fields |
| InterviewCandidates.Candidate.ApplyUpload | interview/src/routes/candidates.js:85-98 | the record writes of a successful upload |
| InterviewCandidates.Candidate.Listed | interview/src/routes/candidates.js:120-136 | the count of interviews, and the score and summary of the last completed one, or none |
| InterviewCandidates.CreateListsRawFields | interview/src/routes/candidates.js:41 | a name of spaces is stored empty yet not listed as missing |
| Questions.PoolsDistinct | server/src/lib/questions.js:3-20 | no pool repeats a question |
| Questions.Remove | server/src/lib/questions.js:26 | splice removes exactly the element at k, shifting the rest |
| Questions.PickOf | server/src/lib/questions.js:22-29 | definition of pick for the given draws; Pick, PickLength, PickSubMultiset and PickDistinct state its properties |
| Questions.Pick | server/src/lib/questions.js:22-29 | the loop returns the picks for the given draws |
| Questions.PickLength | server/src/lib/questions.js:25 | pick returns min(n, length) elements |
| Questions.PickSubMultiset | server/src/lib/questions.js:22-29 | the picks are a sub-multiset of the array |
| Questions.PickDistinct | server/src/lib/questions.js:22-29 | from a distinct array the picks are distinct members of it |
| Questions.TierItems | server/src/lib/questions.js:32-37 | one item per picked question |
| Questions.TierShape | server/src/lib/questions.js:32-37 | a tier holds two distinct unanswered pool questions with its name, time and ids |
| Questions.BuildInterview | server/src/lib/questions.js:31-51 | definition of buildInterview for the draws and identifiers; BuildInterviewShape states its shape |
| Questions.BuildInterviewShape | server/src/lib/questions.js:31-51 | six items: easy 20 s, medium 60 s, hard 120 s, two per tier from their own pools |
| Score.Budget | server/src/lib/score.js:6 | 8 exactly for easy, 10 exactly for medium, otherwise 12 |
| Score.LengthBonusMonotone | server/src/lib/score.js:7-8 | the length bonus never decreases with length and is at most 4 |
| Score.Hits | server/src/lib/score.js:10-12 | no more hits than keywords |
| Score.LocalScoreOf | server/src/lib/score.js:3-24 | definition of localScore's score; LocalScoreRange and EmptyAnswerScoresZero state its properties |
| Score.LocalScore | server/src/lib/score.js:3-24 | the method computes the local score with notes "heuristic", within [0, 10] |
| Score.LocalScoreRange | server/src/lib/score.js:21-23 | every local score lies in [0, 10] |
| Score.UseStateNeverMatches | server/src/lib/score.js:15 | on the lower-cased question only "hook" triggers the second group |
| Score.EmptyAnswerScoresZero | server/src/lib/score.js:4 | a missing or empty answer scores 0 |
| Score.RawPointsBounds | server/src/lib/score.js:7-20 | the raw points are even and at most 16 |
| Score.FirstWord | server/src/lib/score.js:49 | the first word holds no space |
| Score.BandWords | server/src/lib/score.js:47-49 | at most one word per item |
| Score.BandWordsSpec | server/src/lib/score.js:46-51 | one word per item in the band, each the first word of such an item |
| Score.BandTextSpec | server/src/lib/score.js:50-51 | at most three words shown; an empty band reads a dash |
| Score.AverageText | server/src/lib/score.js:45-60 | definition of the toFixed(1) mean; AverageTextOfRange states its property |
| Score.SummarizeCandidate | server/src/lib/score.js:44-61 | definition of summarizeCandidate; BandTextSpec and AverageTextOfRange state the properties of its parts |
| Score.AverageTextOfRange | server/src/lib/score.js:58-60 | with scores in range the mean text reads back as the rounded mean in [0, 100] tenths |
| Score.TotalScoreRange | server/src/lib/score.js:45 | scores in [0, 10] total between 0 and 10 per item |
| Text.RoundTenths | interview/src/routes/interviews.js:227 | the result is the nearest integer to 10 * total / n, halves up |
| Text.RoundTenthsRange | interview/src/routes/interviews.js:227 | a mean in [0, 10] rounds to between 0 and 100 tenths |
| Text.TenthsRoundTrip | interview/src/routes/interviews.js:236 | the printed final score reads back as its tenths |
| Text.FixedTenthsRoundTrip | server/src/lib/score.js:58-60 | the toFixed(1) text reads back as its tenths |
| ServerResume.ParseResume | server/src/lib/resume.js:7-66 | the method computes parseResume's outcome |
| ServerResume.ParseResumeOf | server/src/lib/resume.js:7-47 | definition of parseResume's outcome; ParseOutcomes states its cases |
| ServerResume.ParseOutcomes | server/src/lib/resume.js:10-47 | buffer failure first, then the unsupported type; 422 with the decoder's prefix iff it threw; success carries the decoded text and its fields |
| ServerResume.PdfChecksFirst | server/src/lib/resume.js:15-22 | a PDF MIME type selects the PDF decoder whatever the name |
| ServerResume.RunEnd | server/src/lib/resume.js:5 | the end of the longest run of class characters from j |
| ServerResume.HintAtSpec | server/src/lib/resume.js:5 | an attempt succeeds iff NAME_HINT matches there, capturing the longest second group of the only split |
| ServerResume.HintFromSpec | server/src/lib/resume.js:57 | the capture is from the leftmost matching start, longest there; none means no match |
| ServerResume.HintCaptureSpec | server/src/lib/resume.js:55-57 | the test holds iff the pattern matches; the capture is a letter then at least two name characters |
| ServerResume.ExtractFields | server/src/lib/resume.js:49-63 | the method computes the fields of the text |
| ServerResume.NameFrom | server/src/lib/resume.js:52-63 | definition of the name field; NameFromHinted, NameFromUnhinted and NameFromNonEmpty state its properties |
| ServerResume.NameFromHinted | server/src/lib/resume.js:55-59 | the first hint line gives the trimmed capture, never empty |
| ServerResume.NameFromUnhinted | server/src/lib/resume.js:60-63 | without a hint line the name is the first plain line, or none |
| ServerResume.NameFromNonEmpty | server/src/lib/resume.js:52-63 | a found name is never empty |
| ServerResume.FieldsFrom | server/src/lib/resume.js:49-63 | definition of the extracted fields; FieldsFromSpec states its property |
| ServerResume.FieldsFromSpec | server/src/lib/resume.js:49-50 | e-mail and phone, when present, are in their languages and trimmed; absent, no substring is |
| ServerCandidates.UploadOutcome | server/src/web/candidates.js:14-15 | no file gives the 400 "No file uploaded", otherwise the parser's outcome |
| ServerCandidates.ProgressOk | server/src/web/candidates.js:16-115 | the progress invariant of a session: no items while collecting the profile, answered items before the cursor and open ones after it while in progress, all answered and the summed total once completed; NewSessionOk, ProfileKeepsProgress and AnswerKeepsProgress prove it is kept |
| ServerCandidates.NewSession | server/src/web/candidates.js:16-21 | collecting profile, no items, the welcome message alone |
| ServerCandidates.NewSessionOk | server/src/web/candidates.js:16-21 | a new session satisfies the progress invariant |
| ServerCandidates.BuildInterviewFresh | server/src/lib/questions.js:31-51 | the built interview is six unanswered items |
| ServerCandidates.ProfileStep | server/src/web/candidates.js:34-41 | definition of the profile step; ProfileStepSpec states both directions |
| ServerCandidates.ProfileStepSpec | server/src/web/candidates.js:34-41 | the interview starts exactly under the auto-start condition, with the start message; otherwise nothing changes |
| ServerCandidates.ProfileNeverRebuilds | server/src/web/candidates.js:34-36 | existing items are never rebuilt and a completed interview never restarts |
| ServerCandidates.ProfileStartsOnce | server/src/web/candidates.js:34-41 | after a start a later profile update changes nothing |
| ServerCandidates.ProfileKeepsProgress | server/src/web/candidates.js:34-41 | the profile step keeps the progress invariant |
| ServerCandidates.UserText | server/src/web/candidates.js:87 | the user message is never empty and is the answer when given |
| ServerCandidates.ChosenScore | server/src/web/candidates.js:90-91 | the external result when requested and present, else the local score in [0, 10] |
| ServerCandidates.ScoreAnswer | server/src/web/candidates.js:90-91 | the method computes the chosen score |
| ServerCandidates.AnswerCheck | server/src/web/candidates.js:80-84 | not in progress is reported first; no error iff in progress with an item at the cursor |
| ServerCandidates.AnswerStep | server/src/web/candidates.js:75-115 | definition of the answer step; the Answer lemmas below state its properties |
| ServerCandidates.AnswerRejections | server/src/web/candidates.js:80-84 | the two rejections happen exactly in their cases, success otherwise |
| ServerCandidates.ValidNeverLacksQuestion | server/src/web/candidates.js:82-84 | in a valid state the item lookup never fails |
| ServerCandidates.AnswerChangesOnlyCurrent | server/src/web/candidates.js:93-95 | only the current item changes, getting answer, score and notes |
| ServerCandidates.AnswerAdvancesOrCompletes | server/src/web/candidates.js:98-109 | the cursor advances with two messages, or on the last item completes with total, summary and final message |
| ServerCandidates.AnswerAdvances | server/src/web/candidates.js:86-102 | before the last item the cursor moves one forward and exactly the answer and feedback messages are appended |
| ServerCandidates.AnswerCompletes | server/src/web/candidates.js:86-109 | on the last item the status is completed, the total is the sum of the scores and the final message follows |
| ServerCandidates.AnswerKeepsProgress | server/src/web/candidates.js:75-115 | every accepted answer keeps the progress invariant |
| ServerCandidates.CompletedTotalRange | server/src/web/candidates.js:106-108 | with scores in range the completed total lies in [0, 60] |
| ServerCandidates.AnswerKeepsScoresInRange | server/src/web/candidates.js:94 | the local score, or an in-range external one, keeps scores in range |
| ServerCandidates.RemainingAnswersComplete | server/src/web/candidates.js:101-109 | one answer per remaining item completes the interview in a valid state with the summed total |
| ServerCandidates.CompletedRejects | server/src/web/candidates.js:80 | a completed interview rejects every further answer |
| ServerCandidates.Candidate.FromUpload | server/src/web/candidates.js:16-21 | the parsed fields, file name and the new session |
| ServerCandidates.Candidate.UpdateProfile | server/src/web/candidates.js:27-47 | the three fields are set and the session takes the profile step with the built items |
| ServerCandidates.Candidate.Start | server/src/web/candidates.js:37-41 | the built items, cursor 0, in progress, one start message appended |
| ServerCandidates.Candidate.Complete | server/src/web/candidates.js:103-109 | completed, total of the scores, summary and one final message appended |
| ServerCandidates.Candidate.SubmitAnswer | server/src/web/candidates.js:75-115 | a rejection changes nothing; success gives the answer step's session and the reply's status and next index |
| ClientApi.GetTimeLimit | client/src/services/api.js:41-48 | the allowance is 20, 60 or 120 seconds |
| ClientApi.TimeLimitCases | client/src/services/api.js:42-47 | 20 iff easy, 120 iff hard, 60 otherwise and for a missing label |
| ClientApi.TimeLimitIgnoresCase | client/src/services/api.js:42 | the letter case of the label does not matter |
| ClientApi.TimeLimitMatchesItems | client/src/services/api.js:41-48 | the client's allowance equals the stored time of every built item |
| ClientApi.Minutes | client/src/services/api.js:52 | the floor of seconds / 60 |
| ClientApi.JsRem60 | client/src/services/api.js:53 | JavaScript's remainder: in [0, 60) for non-negative input, in (-60, 0] for negative |
| ClientApi.PadStart2 | client/src/services/api.js:54 | at least two characters, ending with the input |
| ClientApi.PaddedSeconds | client/src/services/api.js:54 | seconds below 60 print as two digits that read back as them |
| ClientApi.FormatTime | client/src/services/api.js:51-55 | definition of formatTime for whole seconds; FormatTimeRoundTrip and NegativeCountQuirk state its behaviour |
| ClientApi.FormatTimeRoundTrip | client/src/services/api.js:51-55 | a non-negative count prints as minutes, a colon and two-digit seconds, reading back as the count |
| ClientApi.NegativeCountQuirk | client/src/services/api.js:51-55 | formatTime(-5) is "-1:-5", which is not a clock |

## Left out

- HTTP routing, Express, multer wiring and Mongo persistence (`findById`, `save`,
  `populate`, sorting) are not modelled. Each route works on the record it was given,
  so "candidate not found" and "interview not found" (404) are not modelled either.
- Calls into Gemini, pdf-parse and mammoth are parameters. The model takes what they
  returned or that they threw.
- The server's Gemini score is an arbitrary integer, with no JSON parse and no float.
  The `interview/` service's reply score is an optional integer.
- `Math.random()`, `randomUUID()` and `Date.now()` are inputs. They are the draws, ids
  and stamps.
- The timestamps `startedAt`, `answeredAt`, `finishedAt`, `finalizedAt` and
  `createdAt` are not modelled.
- Floating point is not modelled. `finalScore` and the summary's mean are integer
  tenths. `formatTime` is modelled for whole seconds only.
- `toLowerCase` and `trim` are modelled on ASCII letters and the JavaScript
  white-space set. String lengths count characters, not UTF-16 code units.
- The zod `ProfileSchema` and `AnswerSchema` validation is not modelled. The answer
  arrives as a string, a missing one being `""`.
- The `server/` skip route (`server/src/web/candidates.js:117-121`) is not modelled.
  It re-dispatches the request through the router, which is routing, not logic.
- `server/src/web/candidates.js:4` imports `parseResume` by name. `resume.js` exports
  it only as its default. The model treats the route as calling the parser.
- The `server/` list route, its search and sort (`server/src/web/candidates.js:50-63`),
  and the detail and delete routes are not modelled: they are database queries.
- The resume download route and the `GET /interviews` listing of the `interview/`
  backend are not modelled: they are queries.
- Absent string fields of the `server/` record (`name`, `email`, `phone`) are read as
  `""`.
- `fs.unlink` of rejected uploads and the upload directory setup are not modelled.
- The legacy fields `resumeText` and `resumeSections` are only cleared.
- `ServerCandidates.Candidate.SubmitAnswer`: the `ensures` omits the progress
  invariant (`ProgressOk`). `ServerCandidates.AnswerKeepsProgress` proves it for the
  `AnswerStep` result that the method's state is proved equal to.
- `ServerCandidates.Candidate.UpdateProfile`: the `ensures` omits the progress
  invariant. `ServerCandidates.ProfileKeepsProgress` proves it for `ProfileStep`.
- `ServerResume.FieldsFromSpec`: it states membership in the pattern languages, not
  leftmost position. Leftmost-longest is stated once, by
  `Patterns.LeftmostLongestFrom`.
- Regular expressions are modelled as languages with leftmost-longest search. For the
  e-mail and phone patterns this agrees with the backtracking engine: neither class of
  the e-mail pattern holds `@`, the last dot is fixed, and the digit runs are greedy.
- A generated question is stored with `{...q, startedAt}`. The model keeps the members
  the stored-question schema declares (`text`, `difficulty`, `idealAnswer`, `answer`,
  `score`, `reasoning`, `timedOut`). Other members of the reply are dropped by the
  schema and are not modelled. Mongoose's casting of wrongly typed members, such as a
  string `score`, is not modelled either.
