/** The pattern-recognition lesson: a slide show over a fixed list of chart
    patterns, moved by Previous and Next, with a per-slide flag that reveals
    the trading signal. Next on the last slide reports the module complete. */
module PatternRecognition {

  /** A chart pattern as far as navigation is concerned (its description,
      signal text, price series and key levels are display content). */
  datatype Pattern = Pattern(name: string)

  const Patterns: seq<Pattern> := [
    Pattern("Head and Shoulders"),
    Pattern("Double Bottom"),
    Pattern("Bull Flag"),
    Pattern("Triangle Consolidation")
  ]

  /** The index of the last slide. */
  function Last(): nat {
    |Patterns| - 1
  }

  /** The two state cells of the component. */
  datatype PatternView = PatternView(current: nat, showAnswer: bool)

  const Initial := PatternView(0, false)

  predicate Inv(v: PatternView) {
    v.current < |Patterns|
  }

  /** Next: the following slide with its signal hidden, or, on the last
      slide, no change and the completion callback (the `bool` result). */
  function Next(v: PatternView): (r: (PatternView, bool))
    ensures Inv(v) ==> Inv(r.0)
    ensures r.1 ==> r.0 == v
    ensures !r.1 ==> r.0.current == v.current + 1 && !r.0.showAnswer
  {
    if v.current < |Patterns| - 1 then (PatternView(v.current + 1, false), false)
    else (v, true)
  }

  /** Previous: the preceding slide with its signal hidden; nothing on the first. */
  function Previous(v: PatternView): (r: PatternView)
    ensures Inv(v) ==> Inv(r)
    ensures r.current == v.current ==> r == v
    ensures r.current != v.current ==> r.current + 1 == v.current && !r.showAnswer
  {
    if v.current > 0 then PatternView(v.current - 1, false) else v
  }

  /** Show trading signal: reveals the signal of the current slide. */
  function Show(v: PatternView): (r: PatternView)
    ensures r.current == v.current && r.showAnswer
  {
    v.(showAnswer := true)
  }

  /** Next before the last slide moves on and hides the signal without
      completing; on the last slide it only completes. */
  lemma NextCases(v: PatternView)
    requires Inv(v)
    ensures v.current < Last() ==> Next(v) == (PatternView(v.current + 1, false), false)
    ensures v.current == Last() ==> Next(v) == (v, true)
  {
  }

  /** The completion callback fires exactly when Next is pressed on the last slide. */
  lemma CompletesOnlyAtLast(v: PatternView)
    requires Inv(v)
    ensures Next(v).1 <==> v.current == Last()
  {
  }

  lemma PreviousCases(v: PatternView)
    ensures v.current == 0 ==> Previous(v) == v
    ensures v.current > 0 ==> Previous(v) == PatternView(v.current - 1, false)
  {
  }

  /** The signal is revealed only by its button, and every change of slide
      hides it again. */
  lemma RevealOnlyByShow(v: PatternView, e: Event)
    ensures !v.showAnswer && Step(v, e).showAnswer ==> e == ShowClick
    ensures Step(v, e).current != v.current ==> !Step(v, e).showAnswer
  {
  }

  /** The progress bar's filled fraction, (index + 1) / number of patterns. */
  function ProgressFraction(v: PatternView): (f: real)
    requires Inv(v)
    ensures 0.0 < f <= 1.0
    ensures f == 1.0 <==> v.current == Last()
  {
    (v.current + 1) as real / |Patterns| as real
  }

  // ----- Runs of clicks -----

  datatype Event = NextClick | PreviousClick | ShowClick

  function Step(v: PatternView, e: Event): PatternView {
    match e
    case NextClick => Next(v).0
    case PreviousClick => Previous(v)
    case ShowClick => Show(v)
  }

  function Run(v: PatternView, events: seq<Event>): PatternView
    decreases |events|
  {
    if events == [] then v else Run(Step(v, events[0]), events[1..])
  }

  /** However the buttons are pressed, the slide index stays in range. */
  lemma {:induction false} RunStaysInBounds(v: PatternView, events: seq<Event>)
    requires Inv(v)
    ensures Inv(Run(v, events))
    decreases |events|
  {
    if events != [] {
      var w := Step(v, events[0]);
      assert Inv(w);
      RunStaysInBounds(w, events[1..]);
    }
  }

  /** `n` presses of Next: the view reached and how often the completion
      callback fired. */
  function PressNext(v: PatternView, n: nat): (PatternView, nat)
    decreases n
  {
    if n == 0 then (v, 0)
    else
      var (w, fired) := Next(v);
      var (u, count) := PressNext(w, n - 1);
      (u, count + (if fired then 1 else 0))
  }

  /** Pressing Next `n` times walks forward to the last slide and then stays
      there; the callback fires once for every press made on the last slide
      and never before. */
  lemma {:induction false} PressNextReachesEnd(v: PatternView, n: nat)
    requires Inv(v)
    ensures PressNext(v, n).0.current == if v.current + n <= Last() then v.current + n else Last()
    ensures PressNext(v, n).1 == if v.current + n <= Last() then 0 else v.current + n - Last()
    decreases n
  {
    if n > 0 {
      PressNextReachesEnd(Next(v).0, n - 1);
    }
  }

  // ----- The component, with its state cells updated in place -----

  class PatternNavigator {
    var currentPattern: nat
    var showAnswer: bool

    function State(): PatternView
      reads this
    {
      PatternView(currentPattern, showAnswer)
    }

    predicate Valid()
      reads this
    {
      Inv(State())
    }

    constructor ()
      ensures Valid() && State() == Initial
    {
      currentPattern, showAnswer := 0, false;
    }

    /** Returns whether the completion callback was called. */
    method HandleNext() returns (completed: bool)
      requires Valid()
      modifies this
      ensures Valid()
      ensures (State(), completed) == Next(old(State()))
    {
      if currentPattern < |Patterns| - 1 {
        currentPattern := currentPattern + 1;
        showAnswer := false;
        completed := false;
      } else {
        completed := true;
      }
    }

    method HandlePrevious()
      requires Valid()
      modifies this
      ensures Valid()
      ensures State() == Previous(old(State()))
    {
      if currentPattern > 0 {
        currentPattern := currentPattern - 1;
        showAnswer := false;
      }
    }

    method HandleShow()
      requires Valid()
      modifies this
      ensures Valid()
      ensures State() == Show(old(State()))
    {
      showAnswer := true;
    }
  }
}
