/** The question bank of the `server/` backend: three tier pools, `pick` (up to `n`
    random entries without repeats) and `buildInterview` (two per tier, easy to hard).
    `Math.random` and `randomUUID` are inputs: the draws and the identifiers. */
module Questions {
  import opened Wrappers
  import opened Text

  /** A stored interview item; `answer`, `aiScore` and `aiNotes` are absent until the item
      is answered. */
  datatype QAItem = QAItem(
    questionId: string,
    difficulty: string,
    question: string,
    answer: Option<string>,
    secondsAllowed: nat,
    aiScore: Option<int>,
    aiNotes: Option<string>)

  const Easy1: string := "What is the difference between let, const, and var in JavaScript?"
  const Easy2: string := "Explain how useState works in React."
  const Easy3: string := "What is npm and what does package.json do?"
  const Easy4: string := "How do you handle environment variables in a React + Vite app?"
  const Medium1: string := "Describe how you would design a pagination API in Node/Express and consume it in React."
  const Medium2: string := "What are React keys and why are they important? Provide pitfalls."
  const Medium3: string := "Explain middleware in Express and give a real-world example."
  const Medium4: string := "How would you debounce a search input in React without external libs?"
  const Hard1: string := "Design a production-grade authentication flow for a React/Node app (tokens, refresh, cookies, CSRF)."
  const Hard2: string := "How would you scale a chat service (WebSockets, backpressure, horizontal scaling)?"
  const Hard3: string := "Explain React concurrent features and how they impact large forms or dashboards."
  const Hard4: string := "Outline an indexing strategy for a MongoDB collection that supports text search and range filters."

  const EasyPool: seq<string> := [Easy1, Easy2, Easy3, Easy4]
  const MediumPool: seq<string> := [Medium1, Medium2, Medium3, Medium4]
  const HardPool: seq<string> := [Hard1, Hard2, Hard3, Hard4]

  predicate Distinct<T(==)>(s: seq<T>)
  {
    forall i, j :: 0 <= i < j < |s| ==> s[i] != s[j]
  }

  /** No pool repeats an entry. */
  lemma PoolsDistinct()
    ensures Distinct(EasyPool) && Distinct(MediumPool) && Distinct(HardPool)
  {
    assert |Easy1| == 65 && |Easy2| == 36 && |Easy3| == 42 && |Easy4| == 62;
    assert |Medium1| == 87 && |Medium2| == 65 && |Medium3| == 60 && |Medium4| == 69;
    assert |Hard1| == 100 && |Hard2| == 82 && |Hard3| == 80 && |Hard4| == 98;
  }

  // ---------------------------------------------------------------- pick

  /** `a.splice(k, 1)` on a copy: `a` without its element at `k`. */
  function Remove<T>(a: seq<T>, k: nat): (r: seq<T>)
    requires k < |a|
    ensures |r| == |a| - 1
    ensures forall j :: 0 <= j < k ==> r[j] == a[j]
    ensures forall j :: k <= j < |r| ==> r[j] == a[j + 1]
  {
    a[..k] + a[k + 1..]
  }

  /** Draws that `Math.floor(Math.random() * a.length)` can give: the `j`-th draw lies
      below the length of the working copy at that step, `len - j`. */
  predicate ValidDraws(len: nat, n: nat, draws: seq<nat>)
  {
    |draws| >= Min(n, len) && forall j :: 0 <= j < Min(n, len) ==> draws[j] < len - j
  }

  lemma ValidDrawsTail(len: nat, n: nat, draws: seq<nat>)
    requires ValidDraws(len, n, draws) && n > 0 && len > 0
    ensures ValidDraws(len - 1, n - 1, draws[1..])
  {
    forall j | 0 <= j < Min(n - 1, len - 1) ensures draws[1..][j] < len - 1 - j {
      assert draws[1..][j] == draws[j + 1];
    }
  }

  /** What `pick(arr, n)` returns for the given draws: each step takes the drawn element
      of what is left and removes it. */
  function PickOf<T>(a: seq<T>, n: nat, draws: seq<nat>): seq<T>
    requires ValidDraws(|a|, n, draws)
    decreases n
  {
    if n == 0 || a == [] then []
    else
      ValidDrawsTail(|a|, n, draws);
      [a[draws[0]]] + PickOf(Remove(a, draws[0]), n - 1, draws[1..])
  }

  /** `pick`: a loop over a copy of the array; the array itself is a value and so is
      never changed. */
  method Pick<T>(arr: seq<T>, n: nat, draws: seq<nat>) returns (out: seq<T>)
    requires ValidDraws(|arr|, n, draws)
    ensures out == PickOf(arr, n, draws)
  {
    var a := arr;
    out := [];
    var left := n;
    var j := 0;
    while left > 0 && |a| > 0
      invariant 0 <= j <= |draws| && ValidDraws(|a|, left, draws[j..])
      invariant out + PickOf(a, left, draws[j..]) == PickOf(arr, n, draws)
      decreases left
    {
      ValidDrawsTail(|a|, left, draws[j..]);
      assert draws[j..][1..] == draws[j + 1..];
      var k := draws[j];
      out := out + [a[k]];
      a := Remove(a, k);
      left := left - 1;
      j := j + 1;
    }
  }

  /** `pick` returns `min(n, arr.length)` elements. */
  lemma {:induction false} PickLength<T>(a: seq<T>, n: nat, draws: seq<nat>)
    requires ValidDraws(|a|, n, draws)
    ensures |PickOf(a, n, draws)| == Min(n, |a|)
    decreases n
  {
    if n > 0 && a != [] {
      ValidDrawsTail(|a|, n, draws);
      PickLength(Remove(a, draws[0]), n - 1, draws[1..]);
    }
  }

  lemma RemoveMultiset<T>(a: seq<T>, k: nat)
    requires k < |a|
    ensures multiset(Remove(a, k)) + multiset{a[k]} == multiset(a)
  {
    assert a == a[..k] + [a[k]] + a[k + 1..];
  }

  /** `pick` never takes one position twice: what it returns is a sub-multiset of the
      array. */
  lemma {:induction false} PickSubMultiset<T>(a: seq<T>, n: nat, draws: seq<nat>)
    requires ValidDraws(|a|, n, draws)
    ensures multiset(PickOf(a, n, draws)) <= multiset(a)
    decreases n
  {
    if n > 0 && a != [] {
      ValidDrawsTail(|a|, n, draws);
      var k := draws[0];
      var rest := Remove(a, k);
      var p := PickOf(rest, n - 1, draws[1..]);
      PickSubMultiset(rest, n - 1, draws[1..]);
      RemoveMultiset(a, k);
      assert PickOf(a, n, draws) == [a[k]] + p;
      ConsSubMultiset(a[k], p, rest, a);
    }
  }

  /** Taking one more element that the remainder lacks keeps the sub-multiset relation. */
  lemma ConsSubMultiset<T>(x: T, p: seq<T>, rest: seq<T>, a: seq<T>)
    requires multiset(p) <= multiset(rest) && multiset(rest) + multiset{x} == multiset(a)
    ensures multiset([x] + p) <= multiset(a)
  {
    assert multiset([x] + p) == multiset(p) + multiset{x};
  }

  /** From an array without repeats `pick` returns entries without repeats. */
  lemma {:induction false} PickDistinct<T>(a: seq<T>, n: nat, draws: seq<nat>)
    requires ValidDraws(|a|, n, draws) && Distinct(a)
    ensures Distinct(PickOf(a, n, draws))
    ensures forall x :: x in PickOf(a, n, draws) ==> x in a
    decreases n
  {
    if n > 0 && a != [] {
      ValidDrawsTail(|a|, n, draws);
      var k := draws[0];
      var rest := Remove(a, k);
      assert Distinct(rest) by {
        forall i, j | 0 <= i < j < |rest| ensures rest[i] != rest[j] {
          var i' := if i < k then i else i + 1;
          var j' := if j < k then j else j + 1;
          assert rest[i] == a[i'] && rest[j] == a[j'];
        }
      }
      assert a[k] !in rest by {
        forall i | 0 <= i < |rest| ensures rest[i] != a[k] {
          if i < k { assert rest[i] == a[i]; } else { assert rest[i] == a[i + 1]; }
        }
      }
      PickDistinct(rest, n - 1, draws[1..]);
      var p := PickOf(a, n, draws);
      assert forall x :: x in rest ==> x in a;
      assert p == [a[k]] + PickOf(rest, n - 1, draws[1..]);
    }
  }

  // ---------------------------------------------------------------- buildInterview

  /** The items of one tier, in pick order: `<tier>-<i>-<uuid>`, the tier's name and
      time allowance. */
  function TierItems(tier: string, seconds: nat, qs: seq<string>, ids: seq<string>): (r: seq<QAItem>)
    requires |ids| == |qs| && |qs| <= 10
    ensures |r| == |qs|
  {
    seq(|qs|, i requires 0 <= i < |qs| =>
      QAItem(tier + "-" + [DigitChar(i)] + "-" + ids[i], tier, qs[i], None, seconds, None, None))
  }

  /** The draws of one call of `pick(pool, 2)` on a pool of four. */
  predicate PairDraws(draws: seq<nat>)
  {
    ValidDraws(4, 2, draws)
  }

  /** `buildInterview`, for the draws of the three `pick` calls and the six identifiers
      `randomUUID` gives, in call order. */
  function BuildInterview(easyDraws: seq<nat>, mediumDraws: seq<nat>, hardDraws: seq<nat>, ids: seq<string>)
    : seq<QAItem>
    requires PairDraws(easyDraws) && PairDraws(mediumDraws) && PairDraws(hardDraws) && |ids| == 6
  {
    PickLength(EasyPool, 2, easyDraws);
    PickLength(MediumPool, 2, mediumDraws);
    PickLength(HardPool, 2, hardDraws);
    TierItems("easy", 20, PickOf(EasyPool, 2, easyDraws), ids[..2])
      + TierItems("medium", 60, PickOf(MediumPool, 2, mediumDraws), ids[2..4])
      + TierItems("hard", 120, PickOf(HardPool, 2, hardDraws), ids[4..])
  }

  /** Two unanswered items of one tier: its name and time allowance, distinct questions
      from its pool, and ids beginning with the tier, the position within the tier and a
      dash. */
  predicate TierOk(t: seq<QAItem>, tier: string, seconds: nat, pool: seq<string>)
  {
    && |t| == 2
    && (forall k :: 0 <= k < 2 ==>
          && t[k].difficulty == tier && t[k].secondsAllowed == seconds && t[k].question in pool
          && t[k].answer.None? && t[k].aiScore.None? && t[k].aiNotes.None?
          && StartsWith(t[k].questionId, tier + "-" + [DigitChar(k)] + "-"))
    && t[0].question != t[1].question
  }

  lemma TierShape(tier: string, seconds: nat, pool: seq<string>, draws: seq<nat>, ids: seq<string>)
    requires |pool| == 4 && Distinct(pool) && PairDraws(draws) && |ids| == 2
    ensures |PickOf(pool, 2, draws)| == 2
    ensures TierOk(TierItems(tier, seconds, PickOf(pool, 2, draws), ids), tier, seconds, pool)
  {
    PickDistinct(pool, 2, draws);
    PickLength(pool, 2, draws);
    var t := TierItems(tier, seconds, PickOf(pool, 2, draws), ids);
    forall k | 0 <= k < 2 ensures StartsWith(t[k].questionId, tier + "-" + [DigitChar(k)] + "-") {
      var p := tier + "-" + [DigitChar(k)] + "-";
      assert t[k].questionId == p + ids[k];
      assert (p + ids[k])[..|p|] == p;
    }
  }

  /** Six items, two per tier from easy to hard with 20, 60 and 120 seconds, each tier as
      `TierOk` describes. */
  lemma BuildInterviewShape(easyDraws: seq<nat>, mediumDraws: seq<nat>, hardDraws: seq<nat>, ids: seq<string>)
    requires PairDraws(easyDraws) && PairDraws(mediumDraws) && PairDraws(hardDraws) && |ids| == 6
    ensures var r := BuildInterview(easyDraws, mediumDraws, hardDraws, ids);
      && |r| == 6
      && TierOk(r[..2], "easy", 20, EasyPool)
      && TierOk(r[2..4], "medium", 60, MediumPool)
      && TierOk(r[4..], "hard", 120, HardPool)
  {
    PoolsDistinct();
    TierShape("easy", 20, EasyPool, easyDraws, ids[..2]);
    TierShape("medium", 60, MediumPool, mediumDraws, ids[2..4]);
    TierShape("hard", 120, HardPool, hardDraws, ids[4..]);
    var e := TierItems("easy", 20, PickOf(EasyPool, 2, easyDraws), ids[..2]);
    var m := TierItems("medium", 60, PickOf(MediumPool, 2, mediumDraws), ids[2..4]);
    var h := TierItems("hard", 120, PickOf(HardPool, 2, hardDraws), ids[4..]);
    var r := BuildInterview(easyDraws, mediumDraws, hardDraws, ids);
    assert r == e + m + h;
    assert r[..2] == e && r[2..4] == m && r[4..] == h;
  }
}
