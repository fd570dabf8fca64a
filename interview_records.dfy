/** The stored interview of the `interview/` backend: its question records and status. */
module InterviewRecords {
  import opened Wrappers

  /** A question record. `answer` is `""` when absent (both are falsy); `score` and
      `reasoning` are absent until the question is answered or skipped. */
  datatype Question = Question(
    text: string,
    difficulty: string,
    idealAnswer: string,
    answer: string,
    score: Option<int>,
    reasoning: Option<string>,
    timedOut: bool)

  datatype Status = InProgress | Completed

  /** `q.answer || q.timedOut` */
  predicate IsResolved(q: Question)
  {
    q.answer != [] || q.timedOut
  }

  /** Every question is answered or timed out. */
  predicate AllResolved(qs: seq<Question>)
  {
    forall i :: 0 <= i < |qs| ==> IsResolved(qs[i])
  }

  /** Number of questions that are answered or timed out. */
  function CountResolved(qs: seq<Question>): (r: nat)
    ensures r <= |qs|
  {
    if qs == [] then 0 else (if IsResolved(qs[0]) then 1 else 0) + CountResolved(qs[1..])
  }

  lemma {:induction false} CountResolvedAll(qs: seq<Question>)
    ensures CountResolved(qs) == |qs| <==> AllResolved(qs)
  {
    if qs != [] {
      CountResolvedAll(qs[1..]);
      if AllResolved(qs) {
        assert AllResolved(qs[1..]) by {
          forall i | 0 <= i < |qs[1..]| ensures IsResolved(qs[1..][i]) {
            assert qs[1..][i] == qs[i + 1];
          }
        }
      }
      if CountResolved(qs) == |qs| {
        assert CountResolved(qs[1..]) <= |qs[1..]|;
        forall i | 0 <= i < |qs| ensures IsResolved(qs[i]) {
          if i > 0 { assert qs[i] == qs[1..][i - 1]; }
        }
      }
    }
  }

  /** The scores present, in order: `questions.filter(q => q.score !== undefined)`. */
  function ScoresOf(qs: seq<Question>): (r: seq<int>)
    ensures |r| <= |qs|
  {
    if qs == [] then []
    else (if qs[0].score.Some? then [qs[0].score.value] else []) + ScoresOf(qs[1..])
  }

  function Sum(xs: seq<int>): int
  {
    if xs == [] then 0 else xs[0] + Sum(xs[1..])
  }

  lemma {:induction false} SumAppend(a: seq<int>, b: seq<int>)
    ensures Sum(a + b) == Sum(a) + Sum(b)
  {
    if a == [] {
      assert a + b == b;
    } else {
      assert (a + b)[0] == a[0];
      assert (a + b)[1..] == a[1..] + b;
      SumAppend(a[1..], b);
    }
  }

  /** Every present score lies in `[0, 10]`, the range the scoring prompt asks for. */
  predicate ScoresInRange(qs: seq<Question>)
  {
    forall i :: 0 <= i < |qs| && qs[i].score.Some? ==> 0 <= qs[i].score.value <= 10
  }

  lemma {:induction false} ScoresOfInRange(qs: seq<Question>)
    requires ScoresInRange(qs)
    ensures 0 <= Sum(ScoresOf(qs)) <= 10 * |ScoresOf(qs)|
  {
    if qs != [] {
      assert ScoresInRange(qs[1..]) by {
        forall i | 0 <= i < |qs[1..]| && qs[1..][i].score.Some?
          ensures 0 <= qs[1..][i].score.value <= 10
        {
          assert qs[1..][i] == qs[i + 1];
        }
      }
      ScoresOfInRange(qs[1..]);
      var h := if qs[0].score.Some? then [qs[0].score.value] else [];
      SumAppend(h, ScoresOf(qs[1..]));
    }
  }
}
