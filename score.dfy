/** The deterministic answer score of the `server/` backend (`localScore`) and its
    templated candidate summary (`summarizeCandidate`). */
module Score {
  import opened Wrappers
  import opened Text
  import opened Questions

  /** A score with its notes, as both scorers return it. */
  datatype Scored = Scored(score: int, notes: string)

  const HeuristicNotes: string := "heuristic"

  /** The point budget: 8 for "easy", 10 for "medium", 12 for anything else. */
  function Budget(difficulty: string): (max: nat)
    ensures max == 8 || max == 10 || max == 12
    ensures max == 8 <==> difficulty == "easy"
    ensures max == 10 <==> difficulty == "medium"
  {
    if difficulty == "easy" then 8 else if difficulty == "medium" then 10 else 12
  }

  /** +2 past 40 characters and another +2 past 120. */
  function LengthBonus(len: nat): nat
  {
    (if len > 40 then 2 else 0) + (if len > 120 then 2 else 0)
  }

  lemma LengthBonusMonotone(a: nat, b: nat)
    requires a <= b
    ensures LengthBonus(a) <= LengthBonus(b) <= 4
  {
  }

  const DeclarationKeywords: seq<string> := ["let", "const", "var", "hoist", "scope", "temporal"]
  const HookKeywords: seq<string> := ["state", "setter", "functional", "re-render"]

  /** The literal of the second test, written out so its capital `S` can be named. */
  const UseStateWord: string := ['u', 's', 'e', 'S', 't', 'a', 't', 'e']

  /** `ks.filter(k => t.includes(k)).length` */
  function Hits(t: string, ks: seq<string>): (r: nat)
    ensures r <= |ks|
  {
    if ks == [] then 0 else (if Contains(t, ks[0]) then 1 else 0) + Hits(t, ks[1..])
  }

  /** `Math.min(6, hits * 2)` */
  function KeywordPoints(hits: nat): nat
  {
    if 2 * hits < 6 then 2 * hits else 6
  }

  /** `/let|const|var/.test(q)` */
  predicate AsksDeclarations(q: string)
  {
    Contains(q, "let") || Contains(q, "const") || Contains(q, "var")
  }

  /** `/useState|hook/.test(q)` */
  predicate AsksHooks(q: string)
  {
    Contains(q, UseStateWord) || Contains(q, "hook")
  }

  /** The raw points before the budget clamp, for the lower-cased answer `t` and the
      lower-cased question `q`. */
  function RawPoints(t: string, q: string): nat
  {
    LengthBonus(|t|)
      + (if AsksDeclarations(q) then KeywordPoints(Hits(t, DeclarationKeywords)) else 0)
      + (if AsksHooks(q) then KeywordPoints(Hits(t, HookKeywords)) else 0)
  }

  /** The score `localScore` gives: the clamped points over the budget, on a scale of 10,
      rounded. A missing answer is `""`. */
  function LocalScoreOf(question: string, answer: string, difficulty: string): int
  {
    var max := Budget(difficulty);
    var s := RawPoints(Lower(answer), Lower(question));
    RoundTenths(if s < max then s else max, max)
  }

  /** `localScore`: the points accumulate in `s` step by step. */
  method LocalScore(question: string, answer: string, difficulty: string) returns (r: Scored)
    ensures r == Scored(LocalScoreOf(question, answer, difficulty), HeuristicNotes)
    ensures 0 <= r.score <= 10
  {
    var t := Lower(answer);
    var s := 0;
    var max := Budget(difficulty);
    if |t| > 40 {
      s := s + 2;
    }
    if |t| > 120 {
      s := s + 2;
    }
    var q := Lower(question);
    if AsksDeclarations(q) {
      var hits := Hits(t, DeclarationKeywords);
      s := s + KeywordPoints(hits);
    }
    if AsksHooks(q) {
      var hits := Hits(t, HookKeywords);
      s := s + KeywordPoints(hits);
    }
    assert s == RawPoints(t, q);
    s := if s < max then s else max;
    var normalized := RoundTenths(s, max);
    LocalScoreRange(question, answer, difficulty);
    return Scored(normalized, HeuristicNotes);
  }

  /** Every score lies in `[0, 10]`. */
  lemma LocalScoreRange(question: string, answer: string, difficulty: string)
    ensures 0 <= LocalScoreOf(question, answer, difficulty) <= 10
  {
    var max := Budget(difficulty);
    var s := RawPoints(Lower(answer), Lower(question));
    var c := if s < max then s else max;
    var r := RoundTenths(c, max);
    MulMono(2 * max, r, 11);
  }

  /** The question is lower-cased before the test, so its `useState` alternative never
      matches: only "hook" triggers the second keyword group. */
  lemma UseStateNeverMatches(question: string)
    ensures AsksHooks(Lower(question)) <==> Contains(Lower(question), "hook")
  {
    LowerHasNoUpper(question);
    NoUpperExcludes(Lower(question), UseStateWord, 3);
  }

  lemma {:induction false} HitsOfEmpty(ks: seq<string>)
    requires forall i :: 0 <= i < |ks| ==> ks[i] != []
    ensures Hits([], ks) == 0
  {
    if ks != [] {
      assert !Contains([], ks[0]);
      HitsOfEmpty(ks[1..]);
    }
  }

  /** A missing or empty answer scores 0. */
  lemma EmptyAnswerScoresZero(question: string, difficulty: string)
    ensures LocalScoreOf(question, "", difficulty) == 0
  {
    HitsOfEmpty(DeclarationKeywords);
    HitsOfEmpty(HookKeywords);
    assert Lower("") == [];
  }

  /** Each keyword group adds an even number of points, at most 6; the whole raw total is
      at most 16, more than any budget. */
  lemma RawPointsBounds(t: string, q: string)
    ensures RawPoints(t, q) <= 16 && RawPoints(t, q) % 2 == 0
  {
  }

  // ---------------------------------------------------------------- summarizeCandidate

  /** `item.aiScore || 0` */
  function ScoreOrZero(it: QAItem): int
  {
    it.aiScore.GetOr(0)
  }

  function TotalScore(items: seq<QAItem>): int
  {
    if items == [] then 0 else ScoreOrZero(items[0]) + TotalScore(items[1..])
  }

  /** `question.split(" ")[0]` */
  function FirstWord(q: string): (w: string)
    ensures ' ' !in w
  {
    SplitPiecesHaveNoSeparator(q, Exactly(' '));
    var w := SplitBy(q, Exactly(' '))[0];
    assert HasNo(w, Exactly(' '));
    w
  }

  /** The two filters: `score >= 7` and `score <= 4`. */
  datatype Band = Strong | Weak

  predicate InBand(b: Band, score: int)
  {
    match b
    case Strong => score >= 7
    case Weak => score <= 4
  }

  /** `items.filter(i => inBand(i.aiScore || 0)).map(i => firstWord(i.question))` */
  function BandWords(items: seq<QAItem>, b: Band): (r: seq<string>)
    ensures |r| <= |items|
  {
    if items == [] then []
    else
      var head := if InBand(b, ScoreOrZero(items[0])) then [FirstWord(items[0].question)] else [];
      head + BandWords(items[1..], b)
  }

  /** Number of items in the band. */
  function CountBand(items: seq<QAItem>, b: Band): nat
  {
    if items == [] then 0 else (if InBand(b, ScoreOrZero(items[0])) then 1 else 0) + CountBand(items[1..], b)
  }

  /** `.slice(0, 3).join(", ") || "—"` */
  function BandText(items: seq<QAItem>, b: Band): string
  {
    var j := Join(Take(BandWords(items, b), 3), ", ");
    if j == [] then "—" else j
  }

  /** `w` is the first word of an item in the band. */
  predicate FromBandItem(items: seq<QAItem>, b: Band, w: string)
  {
    exists i :: 0 <= i < |items| && InBand(b, ScoreOrZero(items[i])) && w == FirstWord(items[i].question)
  }

  lemma FromBandItemTail(items: seq<QAItem>, b: Band, w: string)
    requires items != [] && FromBandItem(items[1..], b, w)
    ensures FromBandItem(items, b, w)
  {
    var i :| 0 <= i < |items[1..]| && InBand(b, ScoreOrZero(items[1..][i])) && w == FirstWord(items[1..][i].question);
    assert items[1..][i] == items[i + 1];
  }

  /** The band has one word per item in it, each the first word of such an item. */
  lemma {:induction false} BandWordsSpec(items: seq<QAItem>, b: Band)
    ensures |BandWords(items, b)| == CountBand(items, b)
    ensures forall k :: 0 <= k < |BandWords(items, b)| ==> FromBandItem(items, b, BandWords(items, b)[k])
  {
    if items != [] {
      BandWordsSpec(items[1..], b);
      var h := if InBand(b, ScoreOrZero(items[0])) then [FirstWord(items[0].question)] else [];
      var t := BandWords(items[1..], b);
      assert BandWords(items, b) == h + t;
      forall k | 0 <= k < |h + t|
        ensures FromBandItem(items, b, (h + t)[k])
      {
        if k < |h| {
          assert (h + t)[k] == FirstWord(items[0].question) && InBand(b, ScoreOrZero(items[0]));
        } else {
          assert (h + t)[k] == t[k - |h|];
          FromBandItemTail(items, b, t[k - |h|]);
        }
      }
    }
  }

  /** At most three words are shown; with no item in the band the list reads "—". */
  lemma BandTextSpec(items: seq<QAItem>, b: Band)
    ensures |Take(BandWords(items, b), 3)| == Min(3, CountBand(items, b))
    ensures CountBand(items, b) == 0 ==> BandText(items, b) == "—"
  {
    BandWordsSpec(items, b);
  }

  /** `avg.toFixed(1)` for `avg = total / n`; `NaN` for no items. A negative mean is
      rounded by magnitude after its sign, as `toFixed` does. */
  function AverageText(total: int, n: nat): string
  {
    if n == 0 then "NaN"
    else if total < 0 then "-" + FixedTenths(RoundTenths(-total, n))
    else FixedTenths(RoundTenths(total, n))
  }

  /** With every score within `[0, 10]` the shown mean reads back as a number of tenths
      in `[0, 100]`. */
  lemma AverageTextOfRange(items: seq<QAItem>)
    requires items != []
    requires forall i :: 0 <= i < |items| ==> 0 <= ScoreOrZero(items[i]) <= 10
    ensures var s := AverageText(TotalScore(items), |items|);
      IsTenthsText(s) && 0 <= ParseTenths(s) <= 100
      && ParseTenths(s) == RoundTenths(TotalScore(items), |items|)
  {
    TotalScoreRange(items);
    RoundTenthsRange(TotalScore(items), |items|);
    FixedTenthsRoundTrip(RoundTenths(TotalScore(items), |items|));
  }

  lemma {:induction false} TotalScoreRange(items: seq<QAItem>)
    requires forall i :: 0 <= i < |items| ==> 0 <= ScoreOrZero(items[i]) <= 10
    ensures 0 <= TotalScore(items) <= 10 * |items|
  {
    if items != [] {
      assert forall i :: 0 <= i < |items[1..]| ==> items[1..][i] == items[i + 1];
      TotalScoreRange(items[1..]);
    }
  }

  /** `summarizeCandidate(name, items)`; a missing name is `""`. */
  function SummarizeCandidate(name: string, items: seq<QAItem>): string
  {
    (if name == [] then "Candidate" else name) + " shows a " + AverageText(TotalScore(items), |items|)
      + "/10 average. Strengths: " + BandText(items, Strong) + ". Areas to improve: "
      + BandText(items, Weak) + "."
  }
}
