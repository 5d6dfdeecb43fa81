/** The Mock Interview page state kept in Streamlit's `session_state`:
    `mi_questions`, `mi_idx` and `mi_results`. `main.py` (lines 315-371) and
    `app.py` (lines 209-288) update it the same way; they differ only in
    where questions and evaluations come from, so the state is generic in
    the question type `Q` and the result type `R`. */
module Session {
  import opened Base

  /** The three session fields at one moment. */
  datatype Snapshot<Q, R> = Snapshot(questions: seq<Q>, idx: int, results: seq<R>)

  /** The index names a question whenever there is one, and is 0 otherwise. */
  predicate IndexInRange<Q, R>(s: Snapshot<Q, R>) {
    if s.questions == [] then s.idx == 0 else 0 <= s.idx < |s.questions|
  }

  /** The page shows a question and its buttons: `mi_questions[mi_idx]`
      can be read. */
  predicate Showing<Q, R>(s: Snapshot<Q, R>) {
    0 <= s.idx < |s.questions|
  }

  /** The fields after a start with a non-empty question list. */
  function Started<Q, R>(qs: seq<Q>): Snapshot<Q, R> {
    Snapshot(qs, 0, [])
  }

  /** The fields after an answer was evaluated: the evaluation is appended
      and the index moves on unless it is at the last question. */
  function Answered<Q, R>(s: Snapshot<Q, R>, r: R): Snapshot<Q, R> {
    Snapshot(s.questions, if s.idx + 1 < |s.questions| then s.idx + 1 else s.idx, s.results + [r])
  }

  /** The fields after "Skip / Next". */
  function Skipped<Q, R>(s: Snapshot<Q, R>): Snapshot<Q, R> {
    Snapshot(s.questions, Min(s.idx + 1, |s.questions| - 1), s.results)
  }

  /** The fields after "Finish Interview". */
  function Finished<Q, R>(): Snapshot<Q, R> {
    Snapshot([], 0, [])
  }

  function Min(a: int, b: int): int {
    if a <= b then a else b
  }

  /** The session keys' first values, filled in only where a key is
      missing (main.py:315-320, app.py:209-214). */
  function Initial<Q, R>(questions: Option<seq<Q>>, idx: Option<int>, results: Option<seq<R>>): (s: Snapshot<Q, R>)
    ensures questions.Some? ==> s.questions == questions.value
    ensures idx.Some? ==> s.idx == idx.value
    ensures results.Some? ==> s.results == results.value
    ensures questions.None? ==> s.questions == []
    ensures idx.None? ==> s.idx == 0
    ensures results.None? ==> s.results == []
    ensures questions.None? && idx.None? && results.None? ==> IndexInRange(s)
  {
    Snapshot(questions.GetOr([]), idx.GetOr(0), results.GetOr([]))
  }

  /** What one run of the page script does to the fields after a button
      press whose outcome is already decided. */
  datatype Action<Q, R> =
    | Start(questions: seq<Q>)
    | Answer(result: R)
    | Skip
    | Finish

  /** One button press. An action whose button the page does not show
      (no question on screen) or whose guard fails changes nothing. */
  function Step<Q, R>(s: Snapshot<Q, R>, a: Action<Q, R>): Snapshot<Q, R> {
    match a
    case Start(qs) => if qs == [] then s else Started(qs)
    case Answer(r) => if Showing(s) then Answered(s, r) else s
    case Skip => if Showing(s) then Skipped(s) else s
    case Finish => if Showing(s) then Finished() else s
  }

  /** A sequence of button presses, one script run each. */
  function Run<Q, R>(s: Snapshot<Q, R>, acts: seq<Action<Q, R>>): Snapshot<Q, R>
    decreases |acts|
  {
    if acts == [] then s else Run(Step(s, acts[0]), acts[1..])
  }

  /** Every transition keeps the index on a question. */
  lemma StepKeepsIndexInRange<Q, R>(s: Snapshot<Q, R>, a: Action<Q, R>)
    requires IndexInRange(s)
    ensures IndexInRange(Step(s, a))
  {
  }

  /** Any run of presses keeps the index on a question, so the page can
      always read `mi_questions[mi_idx]` when the list is not empty. */
  lemma {:induction false} RunKeepsIndexInRange<Q, R>(s: Snapshot<Q, R>, acts: seq<Action<Q, R>>)
    requires IndexInRange(s)
    ensures IndexInRange(Run(s, acts))
    ensures Run(s, acts).questions != [] ==> Showing(Run(s, acts))
    decreases |acts|
  {
    if acts != [] {
      StepKeepsIndexInRange(s, acts[0]);
      RunKeepsIndexInRange(Step(s, acts[0]), acts[1..]);
    }
  }

  /** A successful submit appends exactly one result, keeps the earlier
      ones, and advances the index only when a next question exists. */
  lemma AnswerAppendsOne<Q, R>(s: Snapshot<Q, R>, r: R)
    requires Showing(s)
    ensures var t := Step(s, Answer(r));
      |t.results| == |s.results| + 1 && t.results[..|s.results|] == s.results
      && t.results[|s.results|] == r && t.questions == s.questions
      && (t.idx == s.idx + 1 <==> s.idx + 1 < |s.questions|)
      && (t.idx == s.idx <==> s.idx + 1 >= |s.questions|)
  {
    assert (s.results + [r])[..|s.results|] == s.results;
  }

  /** At the last question neither a submit nor a skip moves the index. */
  lemma LastQuestionStays<Q, R>(s: Snapshot<Q, R>, r: R)
    requires Showing(s) && s.idx == |s.questions| - 1
    ensures Step(s, Answer(r)).idx == s.idx
    ensures Step(s, Skip).idx == s.idx
  {
  }

  function Skips<Q, R>(n: nat): (acts: seq<Action<Q, R>>)
    ensures |acts| == n && forall i :: 0 <= i < n ==> acts[i] == Skip
  {
    if n == 0 then [] else [Skip] + Skips(n - 1)
  }

  function Answers<Q, R>(rs: seq<R>): (acts: seq<Action<Q, R>>)
    ensures |acts| == |rs| && forall i :: 0 <= i < |rs| ==> acts[i] == Answer(rs[i])
  {
    if rs == [] then [] else [Answer(rs[0])] + Answers(rs[1..])
  }

  /** `n` skips move the index forward by `n`, clamped at the last
      question, and touch nothing else. */
  lemma {:induction false} SkipsClamp<Q, R>(s: Snapshot<Q, R>, n: nat)
    requires Showing(s)
    ensures Run(s, Skips(n)) == Snapshot(s.questions, Min(s.idx + n, |s.questions| - 1), s.results)
    decreases n
  {
    if n > 0 {
      var acts := Skips<Q, R>(n);
      assert acts[1..] == Skips(n - 1);
      SkipsClamp(Step(s, Skip), n - 1);
    }
  }

  /** Answering from the index `i` records the evaluations in order and
      leaves the index at `min(i + k, len - 1)`. */
  lemma {:induction false} AnswersRecord<Q, R>(s: Snapshot<Q, R>, rs: seq<R>)
    requires Showing(s)
    ensures Run(s, Answers(rs)) == Snapshot(s.questions, Min(s.idx + |rs|, |s.questions| - 1), s.results + rs)
    decreases |rs|
  {
    if rs != [] {
      var r, rest := rs[0], rs[1..];
      assert [r] + rest == rs;
      var acts := Answers<Q, R>(rs);
      assert acts[0] == Answer(r) && acts[1..] == Answers(rest);
      var next := Answered(s, r);
      assert Run(s, acts) == Run(next, Answers(rest));
      AnswersRecord(next, rest);
      AppendHead(s.results, rs);
    }
  }

  lemma AppendHead<R>(a: seq<R>, rs: seq<R>)
    requires rs != []
    ensures a + [rs[0]] + rs[1..] == a + rs
  {
    assert [rs[0]] + rs[1..] == rs;
  }

  /** From a fresh start, answering `k` questions leaves the index at
      `min(k, len - 1)` and exactly the `k` evaluations in the results. */
  lemma AnswersFromStart<Q, R>(s: Snapshot<Q, R>, qs: seq<Q>, rs: seq<R>)
    requires qs != []
    ensures Run(s, [Start(qs)] + Answers(rs)) == Snapshot(qs, Min(|rs|, |qs| - 1), rs)
  {
    var acts := [Start(qs)] + Answers<Q, R>(rs);
    assert acts[1..] == Answers(rs);
    AnswersRecord(Started<Q, R>(qs), rs);
  }

  /** Submitting twice at a single question keeps two results for one
      question: the results can outgrow the questions. */
  lemma ResultsOutgrowQuestions<Q, R>(s: Snapshot<Q, R>, q: Q, r1: R, r2: R)
    ensures var t := Run(s, [Start([q]), Answer(r1), Answer(r2)]);
      t.results == [r1, r2] && |t.results| > |t.questions|
  {
    var acts: seq<Action<Q, R>> := [Start([q]), Answer(r1), Answer(r2)];
    var s1 := Step(s, acts[0]);
    var s2 := Step(s1, acts[1]);
    assert s2 == Snapshot([q], 0, [r1]);
    assert Run(s, acts) == Run(s1, acts[1..]);
    assert Run(s1, acts[1..]) == Run(s2, [Answer(r2)]);
    assert Run(s2, [Answer(r2)]) == Step(s2, Answer(r2));
  }

  /** Without a start or a finish, results are only ever appended to. */
  lemma {:induction false} ResultsAppendOnly<Q, R>(s: Snapshot<Q, R>, acts: seq<Action<Q, R>>)
    requires forall i :: 0 <= i < |acts| ==> !acts[i].Start? && !acts[i].Finish?
    ensures |s.results| <= |Run(s, acts).results|
    ensures Run(s, acts).results[..|s.results|] == s.results
    ensures Run(s, acts).questions == s.questions
    decreases |acts|
  {
    if acts != [] {
      var t := Step(s, acts[0]);
      ResultsAppendOnly(t, acts[1..]);
      assert t.results[..|s.results|] == s.results;
      assert Run(s, acts).results[..|t.results|][..|s.results|] == Run(s, acts).results[..|s.results|];
    }
  }

  /** The session fields as a Streamlit script run sees and changes them. */
  class InterviewSession<Q, R> {
    var questions: seq<Q>
    var idx: int
    var results: seq<R>

    function State(): Snapshot<Q, R>
      reads this
    {
      Snapshot(questions, idx, results)
    }

    /** The initialisation at the top of the page: each key keeps the
        value it already has and only a missing key gets its default. */
    constructor Restore(q: Option<seq<Q>>, i: Option<int>, r: Option<seq<R>>)
      ensures State() == Initial(q, i, r)
    {
      questions := if q.Some? then q.value else [];
      idx := if i.Some? then i.value else 0;
      results := if r.Some? then r.value else [];
    }

    /** `mi_questions = questions; mi_idx = 0; mi_results = []`, reached
        only for a non-empty list. */
    method Start(qs: seq<Q>)
      modifies this
      ensures State() == Step(old(State()), Action.Start(qs))
    {
      if qs != [] {
        questions := qs;
        idx := 0;
        results := [];
      }
    }

    /** `mi_results.append(res)`, then `mi_idx += 1` if a next question exists. */
    method Submit(r: R)
      requires Showing(State())
      modifies this
      ensures State() == Step(old(State()), Answer(r))
    {
      results := results + [r];
      if idx + 1 < |questions| {
        idx := idx + 1;
      }
    }

    /** `mi_idx = min(idx + 1, len(mi_questions) - 1)`. */
    method Skip()
      requires Showing(State())
      modifies this
      ensures State() == Step(old(State()), Action.Skip)
    {
      idx := Min(idx + 1, |questions| - 1);
    }

    /** `mi_idx = 0; mi_questions = []; mi_results = []`. */
    method Finish()
      requires Showing(State())
      modifies this
      ensures State() == Step(old(State()), Action.Finish)
    {
      idx := 0;
      questions := [];
      results := [];
    }

    /** `mi_questions[idx]`, the question on screen. */
    method Current() returns (q: Q)
      requires Showing(State())
      ensures q == questions[idx]
    {
      q := questions[idx];
    }
  }
}
