/** The end-of-course quiz: a fixed table of ten four-option questions and a
    small state machine driven by three click handlers (pick an option,
    submit it, go to the next question), with the final percentage and its
    feedback tier derived from the score. */
module Quiz {

  datatype Option<T> = None | Some(value: T)

  /** A question as far as scoring is concerned: its option labels and the
      index of the correct one (prompt and explanation text are omitted). */
  datatype Question = Question(options: seq<string>, correct: nat)

  const Questions: seq<Question> := [
    Question(["1%", "2%", "5%", "10%"], 1),
    Question(["Bullish continuation", "Bearish reversal", "Neutral consolidation", "Bullish reversal"], 1),
    Question(["1:1", "2:1 or better", "3:1 or better", "Any positive ratio"], 1),
    Question(["1-hour chart", "4-hour chart", "Daily chart", "Weekly chart"], 3),
    Question(["All timeframes showing the same trend", "Daily and weekly in conflict",
              "Only the daily chart matters", "Short-term counter to long-term trend"], 0),
    Question(["At the entry price", "Just below support level", "10% below entry", "At the recent high"], 1),
    Question(["A reversal pattern", "A topping pattern", "A continuation pattern during uptrend",
              "A bottoming pattern"], 2),
    Question(["Immediately after entry", "When profit equals your initial risk (1R)", "Never move stops",
              "Only at the profit target"], 1),
    Question(["Three-dimensional charts", "Analyzing price, volume, and time together", "Using three indicators",
              "Three different stocks"], 1),
    Question(["It guarantees profits", "It locks in partial gains while keeping exposure to larger moves",
              "It avoids all risk", "It increases position size"], 1)
  ]

  /** Every question offers four options and its correct index names one of them. */
  lemma CorrectIndicesValid()
    ensures |Questions| == 10
    ensures forall i :: 0 <= i < |Questions| ==>
      |Questions[i].options| == 4 && Questions[i].correct < |Questions[i].options|
  {
  }

  /** The number of `true` entries of a result log. */
  function CountTrue(bs: seq<bool>): (n: nat)
    ensures n <= |bs|
    ensures n == |bs| <==> forall i :: 0 <= i < |bs| ==> bs[i]
    ensures n == 0 <==> forall i :: 0 <= i < |bs| ==> !bs[i]
  {
    if bs == [] then 0
    else
      var init := bs[..|bs| - 1];
      assert forall i :: 0 <= i < |init| ==> init[i] == bs[i];
      CountTrue(init) + (if bs[|bs| - 1] then 1 else 0)
  }

  /** Appending one result adds one to the count exactly when it is `true`. */
  lemma CountTrueAppend(bs: seq<bool>, b: bool)
    ensures CountTrue(bs + [b]) == CountTrue(bs) + (if b then 1 else 0)
  {
    assert (bs + [b])[..|bs|] == bs;
  }

  // ----- The component's state and its handlers, as functions on values -----

  /** The five state cells of the component. */
  datatype QuizState = QuizState(
    current: nat,            // index of the question on screen
    selected: Option<int>,   // the option picked, if any
    showResult: bool,        // whether the picked option has been submitted
    score: nat,              // running count of correct submissions
    answers: seq<bool>)      // one correctness flag per submission

  const Initial := QuizState(0, None, false, 0, [])

  /** What the handlers keep true: the index is in range, the score is the
      number of correct entries in the log, the log holds one entry per
      question already passed plus one for the current question once its
      result is shown, a shown result always has a selection, and a
      selection always names an option of the current question. */
  predicate Inv(s: QuizState) {
    && s.current < |Questions|
    && |s.answers| == s.current + (if s.showResult then 1 else 0)
    && s.score == CountTrue(s.answers)
    && (s.showResult ==> s.selected.Some?)
    && (s.selected.Some? ==> 0 <= s.selected.value < |Questions[s.current].options|)
  }

  /** Whether the option picked for the current question is its correct one. */
  predicate IsCorrect(s: QuizState)
    requires s.current < |Questions|
    ensures IsCorrect(s) ==> s.selected.Some? && 0 <= s.selected.value < |Questions[s.current].options|
  {
    CorrectIndicesValid();
    s.selected.Some? && s.selected.value == Questions[s.current].correct
  }

  /** The last question has been answered and its result is on screen. */
  predicate IsComplete(s: QuizState)
    ensures Inv(s) ==> (IsComplete(s) <==> |s.answers| == |Questions|)
  {
    s.current == |Questions| - 1 && s.showResult
  }

  /** Picking an option: ignored once the result is shown. */
  function Answer(s: QuizState, index: int): (r: QuizState)
    ensures r.current == s.current && r.showResult == s.showResult
    ensures r.score == s.score && r.answers == s.answers
  {
    if s.showResult then s else s.(selected := Some(index))
  }

  /** Submitting: ignored without a selection; otherwise shows the result,
      logs whether the pick was correct and scores it. */
  function Submit(s: QuizState): (r: QuizState)
    requires s.current < |Questions|
    ensures r.current == s.current && r.selected == s.selected
    ensures |s.answers| <= |r.answers| <= |s.answers| + 1 && r.answers[..|s.answers|] == s.answers
    ensures r.score as int - s.score == CountTrue(r.answers) - CountTrue(s.answers)
  {
    if s.selected.None? then s
    else
      var correct := s.selected.value == Questions[s.current].correct;
      CountTrueAppend(s.answers, correct);
      assert (s.answers + [correct])[..|s.answers|] == s.answers;
      s.(showResult := true,
         answers := s.answers + [correct],
         score := if correct then s.score + 1 else s.score)
  }

  /** Moving on: to the next question with a clean slate, except on the last one. */
  function Next(s: QuizState): (r: QuizState)
    ensures r.score == s.score && r.answers == s.answers
    ensures r == s || (r.current == s.current + 1 && r.selected.None? && !r.showResult)
  {
    if s.current < |Questions| - 1 then s.(current := s.current + 1, selected := None, showResult := false)
    else s
  }

  /** Once the result is shown a pick changes nothing; before that it only sets the selection. */
  lemma AnswerLocksOnceShown(s: QuizState, index: int)
    ensures s.showResult ==> Answer(s, index) == s
    ensures !s.showResult ==> Answer(s, index) == s.(selected := Some(index))
  {
  }

  /** Submitting without a selection is a no-op; with one it logs exactly one
      flag, for the current question, and the score grows by one iff that
      flag is `true`. */
  lemma SubmitLogsOneResult(s: QuizState)
    requires Inv(s) && !s.showResult
    ensures s.selected.None? ==> Submit(s) == s
    ensures s.selected.Some? ==>
      var t := Submit(s);
      && t.showResult && t.current == s.current && t.selected == s.selected
      && |t.answers| == |s.answers| + 1 && t.answers[..|s.answers|] == s.answers
      && t.answers[s.current] == IsCorrect(s)
      && (t.score == s.score + 1 <==> IsCorrect(s))
      && (t.score == s.score <==> !IsCorrect(s))
  {
  }

  /** Next advances by one and clears the question's state, except on the
      last question, where it changes nothing. */
  lemma NextAdvancesOrStays(s: QuizState)
    requires Inv(s)
    ensures var t := Next(s);
      if s.current < |Questions| - 1 then
        t.current == s.current + 1 && t.selected.None? && !t.showResult
        && t.score == s.score && t.answers == s.answers
      else t == s
  {
  }

  // ----- Runs of clicks, gated as the page renders its controls -----

  datatype Event = Pick(index: int) | SubmitClick | NextClick

  /** Which clicks the rendered page can deliver: the question view (options,
      Submit, Next) is replaced by the summary once the quiz is complete; an
      option button passes its own index; Submit is rendered only while the
      result is hidden; Next only while it is shown. */
  predicate Enabled(s: QuizState, e: Event)
    requires s.current < |Questions|
    ensures Inv(s) && Enabled(s, e) ==> |s.answers| < |Questions|
    ensures Inv(s) && Enabled(s, e) && e.SubmitClick? ==> |s.answers| == s.current
  {
    !IsComplete(s) &&
    match e
    case Pick(i) => 0 <= i < |Questions[s.current].options|
    case SubmitClick => !s.showResult
    case NextClick => s.showResult
  }

  function Step(s: QuizState, e: Event): (t: QuizState)
    requires s.current < |Questions|
    ensures t.current < |Questions|
    ensures |s.answers| <= |t.answers| <= |s.answers| + 1 && t.answers[..|s.answers|] == s.answers
    ensures t.score as int - s.score == CountTrue(t.answers) - CountTrue(s.answers)
  {
    match e
    case Pick(i) => Answer(s, i)
    case SubmitClick => Submit(s)
    case NextClick => Next(s)
  }

  function Run(s: QuizState, events: seq<Event>): (t: QuizState)
    requires s.current < |Questions|
    ensures t.current < |Questions|
    decreases |events|
  {
    if events == [] then s else Run(Step(s, events[0]), events[1..])
  }

  /** Every click of the run was possible in the state it met. */
  predicate ValidRun(s: QuizState, events: seq<Event>)
    requires s.current < |Questions|
    decreases |events|
  {
    events == [] || (Enabled(s, events[0]) && ValidRun(Step(s, events[0]), events[1..]))
  }

  lemma InitialInv()
    ensures Inv(Initial)
  {
  }

  /** Each possible click keeps the invariant. */
  lemma StepPreservesInv(s: QuizState, e: Event)
    requires Inv(s) && Enabled(s, e)
    ensures Inv(Step(s, e))
  {
    match e
    case Pick(i) =>
    case SubmitClick =>
      if s.selected.Some? {
        CountTrueAppend(s.answers, s.selected.value == Questions[s.current].correct);
      }
    case NextClick =>
  }

  /** Any possible sequence of clicks keeps the invariant. */
  lemma {:induction false} RunPreservesInv(s: QuizState, events: seq<Event>)
    requires Inv(s) && ValidRun(s, events)
    ensures Inv(Run(s, events))
    decreases |events|
  {
    if events != [] {
      StepPreservesInv(s, events[0]);
      RunPreservesInv(Step(s, events[0]), events[1..]);
    }
  }

  /** A possible run never rewrites a logged result: the old log is a prefix
      of the new one, and the score never drops. */
  lemma {:induction false} RunKeepsLoggedResults(s: QuizState, events: seq<Event>)
    requires Inv(s) && ValidRun(s, events)
    ensures |s.answers| <= |Run(s, events).answers|
    ensures Run(s, events).answers[..|s.answers|] == s.answers
    ensures s.score <= Run(s, events).score
    decreases |events|
  {
    if events != [] {
      var t := Step(s, events[0]);
      StepPreservesInv(s, events[0]);
      RunKeepsLoggedResults(t, events[1..]);
      var u := Run(t, events[1..]);
      assert u.answers[..|t.answers|] == t.answers;
      assert t.answers[..|s.answers|] == s.answers;
      assert u.answers[..|s.answers|] == t.answers[..|s.answers|];
    }
  }

  /** On a valid state the quiz is complete exactly when all ten results are
      logged, so the summary's per-question breakdown reads a defined flag
      for every question and the score is at most the number of questions. */
  lemma CompleteIffAllAnswered(s: QuizState)
    requires Inv(s)
    ensures IsComplete(s) <==> |s.answers| == |Questions|
    ensures s.score <= |s.answers| <= |Questions|
  {
  }

  /** The running "score / answered" line shows the number of correct
      results over the number of results logged. */
  lemma DisplayedScoreLine(events: seq<Event>)
    requires ValidRun(Initial, events)
    ensures var s := Run(Initial, events);
      && s.current + (if s.showResult then 1 else 0) == |s.answers|
      && s.score == CountTrue(s.answers)
  {
    InitialInv();
    RunPreservesInv(Initial, events);
  }

  // ----- Final percentage and feedback -----

  /** Math.round on a real: the nearest integer, halves going up. */
  function Round(x: real): (r: int)
    ensures r as real - 0.5 <= x < r as real + 0.5
  {
    (x + 0.5).Floor
  }

  /** The percentage shown at the end: score over the number of questions,
      times one hundred, rounded to the nearest integer. */
  function ScorePercentage(score: int): (p: int)
    ensures p as real - 0.5 <= score as real / |Questions| as real * 100.0 < p as real + 0.5
    ensures 0 <= score <= |Questions| ==> 0 <= p <= 100
  {
    Round(score as real / |Questions| as real * 100.0)
  }

  /** With ten questions no rounding happens: each correct answer is worth ten points. */
  lemma PercentageIsTenPerPoint(score: int)
    ensures ScorePercentage(score) == 10 * score
  {
    var x := score as real / |Questions| as real * 100.0;
    assert x == (10 * score) as real;
    var p := ScorePercentage(score);
    assert p as real - 0.5 <= (10 * score) as real < p as real + 0.5;
  }

  datatype Tier = Excellent | Good | KeepLearning

  /** The feedback band: at least 80, else at least 60, else the rest. */
  function FeedbackTier(percentage: int): (t: Tier)
    ensures t == Excellent <==> percentage >= 80
    ensures t == Good <==> 60 <= percentage < 80
    ensures t == KeepLearning <==> percentage < 60
  {
    if percentage >= 80 then Excellent
    else if percentage >= 60 then Good
    else KeepLearning
  }

  /** Both tier cut-offs are inclusive, and in terms of correct answers the
      bands are 8-10, 6-7 and 0-5. */
  lemma TiersByScore(score: int)
    requires 0 <= score <= |Questions|
    ensures FeedbackTier(ScorePercentage(score)) == Excellent <==> score >= 8
    ensures FeedbackTier(ScorePercentage(score)) == Good <==> 6 <= score < 8
    ensures FeedbackTier(ScorePercentage(score)) == KeepLearning <==> score < 6
    ensures FeedbackTier(80) == Excellent && FeedbackTier(79) == Good
    ensures FeedbackTier(60) == Good && FeedbackTier(59) == KeepLearning
  {
    PercentageIsTenPerPoint(score);
  }

  // ----- The component, with its state cells updated in place -----

  class QuizSession {
    var currentQuestion: nat
    var selectedAnswer: Option<int>
    var showResult: bool
    var score: nat
    var answers: seq<bool>

    function State(): QuizState
      reads this
    {
      QuizState(currentQuestion, selectedAnswer, showResult, score, answers)
    }

    predicate Valid()
      reads this
    {
      Inv(State())
    }

    constructor ()
      ensures Valid() && State() == Initial
    {
      currentQuestion, selectedAnswer, showResult, score, answers := 0, None, false, 0, [];
    }

    /** The `isComplete` flag that replaces the question view with the summary. */
    function Complete(): (b: bool)
      reads this
      requires Valid()
      ensures b <==> |answers| == |Questions|
    {
      CompleteIffAllAnswered(State());
      IsComplete(State())
    }

    method HandleAnswer(index: int)
      requires Valid() && Enabled(State(), Pick(index))
      modifies this
      ensures Valid()
      ensures State() == Answer(old(State()), index)
    {
      if showResult {
        return;
      }
      selectedAnswer := Some(index);
    }

    method HandleSubmit()
      requires Valid() && Enabled(State(), SubmitClick)
      modifies this
      ensures Valid()
      ensures State() == Submit(old(State()))
    {
      ghost var s0 := State();
      if selectedAnswer.None? {
        return;
      }
      showResult := true;
      var correct := selectedAnswer.value == Questions[currentQuestion].correct;
      answers := answers + [correct];
      if correct {
        score := score + 1;
      }
      StepPreservesInv(s0, SubmitClick);
    }

    method HandleNext()
      requires Valid() && Enabled(State(), NextClick)
      modifies this
      ensures Valid()
      ensures State() == Next(old(State()))
    {
      if currentQuestion < |Questions| - 1 {
        currentQuestion := currentQuestion + 1;
        selectedAnswer := None;
        showResult := false;
      }
    }
  }
}
