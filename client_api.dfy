/** The two helpers of the client's API module: the time allowed for a question of a
    given difficulty, and the `m:ss` rendering of the countdown. */
module ClientApi {
  import opened Wrappers
  import opened Text
  import opened Questions

  // ---------------------------------------------------------------- getTimeLimit

  /** `getTimeLimit(difficulty)`: the lower-cased label picks 20, 60 or 120 seconds; any
      other label, and a missing one, gives 60. */
  function GetTimeLimit(difficulty: Option<string>): (seconds: nat)
    ensures seconds == 20 || seconds == 60 || seconds == 120
  {
    match difficulty
    case None => 60
    case Some(d) =>
      var l := Lower(d);
      if l == "easy" then 20
      else if l == "medium" then 60
      else if l == "hard" then 120
      else 60
  }

  /** Each allowance belongs to exactly one group of labels; a missing label gives 60. */
  lemma TimeLimitCases(d: string)
    ensures GetTimeLimit(Some(d)) == 20 <==> Lower(d) == "easy"
    ensures GetTimeLimit(Some(d)) == 120 <==> Lower(d) == "hard"
    ensures GetTimeLimit(Some(d)) == 60 <==> Lower(d) != "easy" && Lower(d) != "hard"
    ensures GetTimeLimit(None) == 60
  {
  }

  lemma LowerTwice(s: string)
    ensures Lower(Lower(s)) == Lower(s)
  {
    LowerHasNoUpper(s);
  }

  /** The letter case of the label does not matter. */
  lemma TimeLimitIgnoresCase(d: string)
    ensures GetTimeLimit(Some(d)) == GetTimeLimit(Some(Lower(d)))
  {
    LowerTwice(d);
  }

  lemma LowerOfLabels()
    ensures Lower("easy") == "easy" && Lower("medium") == "medium" && Lower("hard") == "hard"
  {
  }

  /** On the two items of a tier the allowance is the tier's time. */
  lemma TimeLimitOfTier(t: seq<QAItem>, tier: string, seconds: nat, pool: seq<string>)
    requires TierOk(t, tier, seconds, pool) && GetTimeLimit(Some(tier)) == seconds
    ensures forall k :: 0 <= k < 2 ==> GetTimeLimit(Some(t[k].difficulty)) == t[k].secondsAllowed
  {
  }

  /** On six items laid out as the three tiers, the allowance matches every item's time. */
  lemma TimeLimitOfTiers(r: seq<QAItem>)
    requires |r| == 6
    requires TierOk(r[..2], "easy", 20, EasyPool)
    requires TierOk(r[2..4], "medium", 60, MediumPool)
    requires TierOk(r[4..], "hard", 120, HardPool)
    ensures forall j :: 0 <= j < |r| ==> GetTimeLimit(Some(r[j].difficulty)) == r[j].secondsAllowed
  {
    LowerOfLabels();
    TimeLimitOfTier(r[..2], "easy", 20, EasyPool);
    TimeLimitOfTier(r[2..4], "medium", 60, MediumPool);
    TimeLimitOfTier(r[4..], "hard", 120, HardPool);
    forall j | 0 <= j < |r| ensures GetTimeLimit(Some(r[j].difficulty)) == r[j].secondsAllowed {
      if j < 2 {
        assert r[j] == r[..2][j];
      } else if j < 4 {
        assert r[j] == r[2..4][j - 2];
      } else {
        assert r[j] == r[4..][j - 4];
      }
    }
  }

  /** The client's allowance agrees with the time stored on every item the `server/`
      backend builds. */
  lemma TimeLimitMatchesItems(easyDraws: seq<nat>, mediumDraws: seq<nat>, hardDraws: seq<nat>, ids: seq<string>)
    requires PairDraws(easyDraws) && PairDraws(mediumDraws) && PairDraws(hardDraws) && |ids| == 6
    ensures var r := BuildInterview(easyDraws, mediumDraws, hardDraws, ids);
      forall j :: 0 <= j < |r| ==> GetTimeLimit(Some(r[j].difficulty)) == r[j].secondsAllowed
  {
    BuildInterviewShape(easyDraws, mediumDraws, hardDraws, ids);
    TimeLimitOfTiers(BuildInterview(easyDraws, mediumDraws, hardDraws, ids));
  }

  // ---------------------------------------------------------------- formatTime

  /** `Math.floor(seconds / 60)`: with a positive divisor Dafny's division is the floor. */
  function Minutes(seconds: int): (m: int)
    ensures m * 60 <= seconds < m * 60 + 60
  {
    seconds / 60
  }

  /** `seconds % 60` in JavaScript: the remainder takes the sign of the dividend. */
  function JsRem60(seconds: int): (r: int)
    ensures seconds >= 0 ==> 0 <= r < 60 && r == seconds % 60
    ensures seconds < 0 ==> -60 < r <= 0
    ensures (seconds - r) % 60 == 0
  {
    if seconds >= 0 then seconds % 60 else -((-seconds) % 60)
  }

  /** `s.padStart(2, '0')` */
  function PadStart2(s: string): (r: string)
    ensures |r| == if |s| >= 2 then |s| else 2
    ensures r[|r| - |s|..] == s
  {
    if |s| >= 2 then s else (if |s| == 0 then "00" else "0" + s)
  }

  /** `formatTime(seconds)` for a whole number of seconds. */
  function FormatTime(seconds: int): string
  {
    IntToString(Minutes(seconds)) + ":" + PadStart2(IntToString(JsRem60(seconds)))
  }

  predicate AllDigits(s: string)
  {
    forall i :: 0 <= i < |s| ==> IsDigit(s[i])
  }

  /** Reading an `m:ss` clock back: digits, a colon, and two digits below 60. */
  function ParseClock(t: string): Option<nat>
  {
    var parts := SplitBy(t, Exactly(':'));
    if |parts| == 2 && parts[0] != [] && AllDigits(parts[0]) && |parts[1]| == 2 && AllDigits(parts[1])
       && ParseDigits(parts[1]) < 60
    then Some(ParseDigits(parts[0]) * 60 + ParseDigits(parts[1]))
    else None
  }

  /** The seconds field of a count below a minute: two digits that read back as it. */
  lemma {:induction false} PaddedSeconds(x: nat)
    requires x < 60
    ensures var p := PadStart2(NatToString(x));
      |p| == 2 && AllDigits(p) && ParseDigits(p) == x && ':' !in p
  {
    var n := NatToString(x);
    ParseNatToString(x);
    var p := PadStart2(n);
    if x < 10 {
      assert n == [DigitChar(x)];
      assert p == ['0', DigitChar(x)];
      assert p[..1] == ['0'];
    } else {
      assert NatToString(x / 10) == [DigitChar(x / 10)];
      assert p == n;
    }
  }

  /** A clock of `m` minutes and `x < 60` seconds splits at its colon and reads back as
      `m * 60 + x`. */
  lemma ClockReadsBack(m: nat, x: nat, n: nat)
    requires x < 60 && n == m * 60 + x
    ensures var t := NatToString(m) + [':'] + PadStart2(NatToString(x));
      && SplitBy(t, Exactly(':')) == [NatToString(m), PadStart2(NatToString(x))]
      && ParseClock(t) == Some(n)
  {
    var d := NatToString(m);
    var p := PadStart2(NatToString(x));
    PaddedSeconds(x);
    ParseNatToString(m);
    assert HasNo(d, Exactly(':'));
    assert HasNo(p, Exactly(':'));
    SplitWithoutSeparator(d, Exactly(':'));
    SplitWithoutSeparator(p, Exactly(':'));
    SplitAtSeparator(d, ':', p, Exactly(':'));
  }

  /** For a non-negative count the printed clock is the minutes, a colon and the padded
      remainder. */
  lemma FormatTimeOfNat(seconds: nat)
    ensures FormatTime(seconds) == NatToString(seconds / 60) + [':'] + PadStart2(NatToString(seconds % 60))
  {
    assert IntToString(Minutes(seconds)) == NatToString(seconds / 60);
    assert IntToString(JsRem60(seconds)) == NatToString(seconds % 60);
  }

  /** For a non-negative count the clock reads back as the count: the minutes, then a
      seconds field of two digits below 60. */
  lemma FormatTimeRoundTrip(seconds: nat)
    ensures var t := FormatTime(seconds);
      && ParseClock(t) == Some(seconds)
      && SplitBy(t, Exactly(':')) == [NatToString(seconds / 60), PadStart2(NatToString(seconds % 60))]
  {
    FormatTimeOfNat(seconds);
    ClockReadsBack(seconds / 60, seconds % 60, seconds);
  }

  /** A negative count keeps JavaScript's signs: `formatTime(-5)` is `-1:-5`. */
  lemma NegativeCountQuirk()
    ensures FormatTime(-5) == "-1:-5"
    ensures ParseClock(FormatTime(-5)).None?
  {
    assert Minutes(-5) == -1 && JsRem60(-5) == -5;
    assert NatToString(1) == "1" && NatToString(5) == "5";
    assert FormatTime(-5) == "-1:-5";
    var parts := SplitBy("-1:-5", Exactly(':'));
    SplitWithoutSeparator("-1", Exactly(':'));
    SplitWithoutSeparator("-5", Exactly(':'));
    SplitAtSeparator("-1", ':', "-5", Exactly(':'));
    assert "-1:-5" == "-1" + [':'] + "-5";
    assert !IsDigit(parts[0][0]);
  }
}
