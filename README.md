# Swing Trading Academy — a verified model of its lesson logic

The Swing Trading Academy is a single-page course: an introduction, four
lesson modules (pattern recognition, risk management, timeframe analysis,
entry and exit strategies) and a ten-question quiz. This Dafny project
models the logic these screens contain. Each screen becomes one module:

- `Quiz` (Quiz.dfy) holds the question table with its correct indices. It
  models the five state cells (current question, selected option, result
  shown, score and results log) with the handlers that update them, and it
  derives the final percentage and feedback tier.
- `RiskManagement` (RiskManagement.dfy) models the position-size calculator:
  risk amount, risk per share, position size with its division guard and
  floor, and total position value.
- `PatternRecognition` (PatternRecognition.dfy) models the slide navigator:
  a bounded slide index and a reveal flag, moved by Next, Previous and Show.
  Next on the last slide fires the completion callback.
- `CoursePage` (CoursePage.dfy) models the page: the current section, and
  the set of completed modules, which `markComplete` grows by union. It also
  models the progress counter and the completed badges.
- `EntryExitStrategies` (EntryExitStrategies.dfy) models the table of trade
  setups, the tab bar, and the displayed risk-per-share and reward:risk values.

The stateful screens share one design. A datatype holds the state, and pure
functions (`Answer`, `Submit`, `Next`, `Previous`, `Show`, `MarkComplete`)
give its transitions; these functions are the specification. A class has the
same state cells as fields. Each of its methods updates them in place and is
proved to produce `State() == Transition(old(State()))`. On top of that, lemmas
about single steps and about arbitrary runs prove what the screens promise.
A run is a sequence of clicks, each one possible in the state it meets.

The page decides which controls can be clicked, and the model states this
gating as requirements (`Enabled`, method `requires`):

- Submit is rendered only while the result is hidden.
- Next is rendered only while the result is shown.
- The whole question view disappears once the quiz is complete.
- An option button passes its own index.
- A lesson module, and so its completion callback, is on screen only while
  it is the current section.

The handlers' own guards are still modelled: a pick after the result is
shown is ignored, Submit with no selection does nothing, and Next on the last
question does nothing.

JavaScript numbers are modelled as Dafny `real`s and `int`s. `Math.round(x)`
is `(x + 0.5).Floor` and `Math.floor(x)` is `x.Floor`.

## Model

| member | source | states |
|---|---|---|
| `Quiz.CorrectIndicesValid` | app/components/Quiz.tsx:6-102 | The table has ten questions. Each has four options, and its `correct` index names one of them. |
| `Quiz.QuizSession.constructor` | app/components/Quiz.tsx:109-113 | The quiz starts on question 0 with no selection, the result hidden, score 0 and an empty log, and this state satisfies the invariant. |
| `Quiz.InitialInv` | app/components/Quiz.tsx:109-113 | The initial state satisfies the quiz invariant. |
| `Quiz.IsCorrect` | app/components/Quiz.tsx:116 | `isCorrect` holds only when an option is selected and that option is one of the current question's four. |
| `Quiz.IsComplete` | app/components/Quiz.tsx:117 | In a valid state, `isComplete` (last question with its result shown) holds iff the log has one flag per question. |
| `Quiz.Answer` | app/components/Quiz.tsx:119-122 | A pick never changes the question index, the result flag, the score or the log. |
| `Quiz.Submit` | app/components/Quiz.tsx:124-132 | Submit keeps the question index and the selection. It appends at most one flag and never rewrites the old log. The score changes by exactly the change in the number of true flags. |
| `Quiz.Next` | app/components/Quiz.tsx:134-140 | Next never changes the score or the log. It either changes nothing or moves to the following question with no selection and the result hidden. |
| `Quiz.AnswerLocksOnceShown` | app/components/Quiz.tsx:119-122 | Once the result is shown, a pick changes nothing. Before that, a pick changes only the selection. |
| `Quiz.SubmitLogsOneResult` | app/components/Quiz.tsx:124-132 | Submit with no selection is a no-op. With a selection it shows the result and appends exactly one flag, at the current question's position, equal to "selected == correct". The score grows by one iff that flag is true and stays the same iff it is false. |
| `Quiz.NextAdvancesOrStays` | app/components/Quiz.tsx:134-140 | Before the last question, Next moves to the next question, clears the selection and hides the result; score and log stay the same. On the last question nothing changes. |
| `Quiz.Enabled` | app/components/Quiz.tsx:165-246 | The clicks the page can deliver: none once the quiz is complete (line 165), an option button's own index (line 180), Submit while the result is hidden and Next while it is shown (lines 230-246). In a valid state every possible click leaves at least one question unlogged, and Submit can be clicked only while the current question has no logged result. |
| `Quiz.Step` | app/components/Quiz.tsx:119-140 | One click, dispatched to its handler, keeps the index in range. It appends at most one flag, never rewrites the old log, and changes the score by exactly the change in the number of true flags. |
| `Quiz.StepPreservesInv` | app/components/Quiz.tsx:119-140 | Any click the page can deliver keeps the invariant: the index is in range; the score is the count of true flags in the log; the log length is the current index plus one if the result is shown; a shown result has a selection; a selection is an option of the current question. |
| `Quiz.RunPreservesInv` | app/components/Quiz.tsx:119-140 | Every possible sequence of clicks keeps that invariant. |
| `Quiz.RunKeepsLoggedResults` | app/components/Quiz.tsx:128 | Within one visit of the quiz, a possible run never rewrites a logged result: the old log is a prefix of the new one, and the score never decreases. |
| `Quiz.CompleteIffAllAnswered` | app/components/Quiz.tsx:117 | In a valid state the quiz is complete iff all ten results are logged, and score <= logged results <= 10. So the summary's per-question breakdown (lines 287-289) always reads a flag that exists. |
| `Quiz.DisplayedScoreLine` | app/components/Quiz.tsx:228 | In every state a possible run of clicks reaches from the start, the "score / answered" denominator (index plus one once the result is shown) equals the number of logged results, and the numerator equals the number of correct ones. |
| `Quiz.QuizSession.Complete` | app/components/Quiz.tsx:117 | `isComplete` holds iff the results log has one entry per question. |
| `Quiz.QuizSession.HandleAnswer` | app/components/Quiz.tsx:119-122 | The in-place handler produces exactly `Answer` of the old state and keeps the invariant. |
| `Quiz.QuizSession.HandleSubmit` | app/components/Quiz.tsx:124-132 | The in-place handler produces exactly `Submit` of the old state and keeps the invariant. It may be called only while the result is hidden. |
| `Quiz.QuizSession.HandleNext` | app/components/Quiz.tsx:134-140 | The in-place handler produces exactly `Next` of the old state and keeps the invariant. It may be called only while the result is shown. |
| `Quiz.Round` | app/components/Quiz.tsx:146 | `Math.round` gives the integer r with r - 0.5 <= x < r + 0.5. |
| `Quiz.ScorePercentage` | app/components/Quiz.tsx:146 | The percentage is the integer nearest to 100 * score / 10, with halves rounded up. It lies in 0..100 whenever 0 <= score <= 10. |
| `Quiz.PercentageIsTenPerPoint` | app/components/Quiz.tsx:146 | With ten questions no rounding occurs: the percentage is exactly 10 * score. |
| `Quiz.FeedbackTier` | app/components/Quiz.tsx:259-281 | The feedback is Excellent iff the percentage is at least 80, Good iff it is in 60..79, and Keep learning iff it is below 60. |
| `Quiz.TiersByScore` | app/components/Quiz.tsx:259-281 | Both tier bounds are inclusive: 80 is Excellent and 79 is Good; 60 is Good and 59 is Keep learning. In correct answers, the tiers are 8-10, 6-7 and 0-5. |
| `RiskManagement.RiskPerShare` | app/components/RiskManagement.tsx:17 | Risk per share is the absolute distance between entry and stop. It is non-negative and zero iff entry equals stop. |
| `RiskManagement.RiskPerShareSymmetric` | app/components/RiskManagement.tsx:17 | Swapping entry and stop does not change the risk per share. |
| `RiskManagement.RiskAmount` | app/components/RiskManagement.tsx:16 | The risk amount is riskPercent percent of the account. It is non-negative for a non-negative account and percentage, and at most the account when the percentage is at most 100. |
| `RiskManagement.TotalPosition` | app/components/RiskManagement.tsx:19 | The total position is the value of positionSize shares at the entry price: divided by a non-zero entry price it gives back the share count. No shares, or an entry price of 0, means a total of 0. |
| `RiskManagement.Calculate` | app/components/RiskManagement.tsx:16-19 | The four displayed values fit together: the risk amount is riskPercent percent of the account, and the risk per share is the distance between entry and stop, which is zero iff they are equal. With no stop distance the size and total are 0. Otherwise the size is the largest share count whose stop-out loss fits the risk amount. The total is that many shares at the entry price, and 0 when that price is 0. |
| `RiskManagement.PositionSize` | app/components/RiskManagement.tsx:18 | With no per-share risk the size is 0 (the division guard). Otherwise the size n satisfies n * riskPerShare <= riskAmount < (n + 1) * riskPerShare, which is the floor of the quotient. It is non-negative when the risk amount is. |
| `RiskManagement.PositionSizeIsLargestAffordable` | app/components/RiskManagement.tsx:18 | For any whole number of shares k: k * riskPerShare fits the risk amount iff k <= positionSize. |
| `RiskManagement.NoPositionWithoutStopDistance` | app/components/RiskManagement.tsx:18 | When entry equals stop, risk per share, position size and total position value are all 0. |
| `RiskManagement.StopOutLossWithinRisk` | app/components/RiskManagement.tsx:16-19 | When entry differs from stop, the stop-out loss on the displayed position is at most accountSize * riskPercent / 100, and one more share would exceed that amount. |
| `RiskManagement.NonNegativeInputsGiveNonNegativeSize` | app/components/RiskManagement.tsx:18-19 | A non-negative account and risk percentage give a non-negative size. A non-negative entry price then also gives a non-negative total position value (positionSize * entryPrice). |
| `RiskManagement.DefaultScenario` | app/components/RiskManagement.tsx:11-19 | The initial inputs 10000, 2, 50 and 48 give risk 200, 2 per share, 100 shares and a total of 5000, which is half the account. This is the worked example of lines 209-212. |
| `PatternRecognition.NextCases` | app/components/PatternRecognition.tsx:64-71 | Before the last slide, Next moves forward one slide, hides the signal and does not complete. On the last slide it changes nothing and calls `onComplete`. |
| `PatternRecognition.CompletesOnlyAtLast` | app/components/PatternRecognition.tsx:64-71 | Next fires `onComplete` iff the current slide is the last one. |
| `PatternRecognition.PreviousCases` | app/components/PatternRecognition.tsx:163-168 | On the first slide, Previous is a no-op. Otherwise it moves back one slide and hides the signal. |
| `PatternRecognition.Next` | app/components/PatternRecognition.tsx:64-71 | Next keeps the index in range. When it completes it changes nothing; otherwise it moves forward exactly one slide with the signal hidden. |
| `PatternRecognition.Previous` | app/components/PatternRecognition.tsx:163-168 | Previous keeps the index in range. Either it changes nothing, or it moves back exactly one slide with the signal hidden. |
| `PatternRecognition.Show` | app/components/PatternRecognition.tsx:136 | Show reveals the signal and keeps the slide index. |
| `PatternRecognition.RevealOnlyByShow` | app/components/PatternRecognition.tsx:134-141 | Only the Show button turns a hidden signal visible, and every click that changes the slide (Next, lines 64-71; Previous, lines 163-168) leaves the signal hidden. |
| `PatternRecognition.ProgressFraction` | app/components/PatternRecognition.tsx:85 | The progress fraction (index + 1) / 4 lies in (0, 1] and equals 1 iff on the last slide. |
| `PatternRecognition.RunStaysInBounds` | app/components/PatternRecognition.tsx:59-71 | Any sequence of Next, Previous and Show clicks keeps the index in 0..3. |
| `PatternRecognition.PressNextReachesEnd` | app/components/PatternRecognition.tsx:64-71 | n presses of Next from slide i reach slide min(i + n, 3). The callback fires once per press made on the last slide and never earlier. |
| `PatternRecognition.PatternNavigator.constructor` | app/components/PatternRecognition.tsx:59-60 | The navigator starts on slide 0 with the signal hidden. |
| `PatternRecognition.PatternNavigator.HandleNext` | app/components/PatternRecognition.tsx:64-71 | The in-place handler produces exactly `Next` of the old state. It also returns whether `onComplete` was called. |
| `PatternRecognition.PatternNavigator.HandlePrevious` | app/components/PatternRecognition.tsx:163-168 | The in-place handler produces exactly `Previous` of the old state. |
| `PatternRecognition.PatternNavigator.HandleShow` | app/components/PatternRecognition.tsx:136 | The in-place handler produces exactly `Show` of the old state. |
| `CoursePage.ModuleIds` | app/page.tsx:21-27 | The sidebar lists five module ids: every section except the introduction. |
| `CoursePage.MarkComplete` | app/page.tsx:17-19 | The new set holds the section and every earlier member. Its size, the progress count, grows by one exactly when the section was not yet completed. |
| `CoursePage.MarkCompleteGrows` | app/page.tsx:17-19 | `markComplete(s)` yields exactly the old set together with s: it adds s and keeps every earlier member. |
| `CoursePage.MarkCompleteIdempotent` | app/page.tsx:18 | Marking a section twice gives the same set as marking it once. Marking an already completed section changes nothing. |
| `CoursePage.ProgressCount` | app/page.tsx:42 | The progress counter is at most 5, the number of sidebar modules. It equals 5 iff every module is completed. |
| `CoursePage.ShowsCompleted` | app/page.tsx:70-86 | In a valid state, a completed badge can only be on a listed module, never on the introduction. |
| `CoursePage.StepEffect` | app/page.tsx:226-244 | A navigation click sets the current section and leaves the completed set unchanged. A module's callback marks exactly the module on screen, and never the introduction. |
| `CoursePage.Enabled` | app/page.tsx:226-244 | A completion callback can fire only while a listed module is on screen, since each module is rendered only while it is the current section. Navigation is always possible. |
| `CoursePage.Step` | app/page.tsx:56-244 | A navigation click (sidebar lines 56 and 74, Start Learning line 215) moves to its target. A callback keeps the section. Either way the completed set only grows, and by at most the section on screen. |
| `CoursePage.BadgesAfterStep` | app/page.tsx:70-87 | A completed badge shows iff the section is in the set. Navigation changes no badge. A callback adds the badge of the module on screen and no other. |
| `CoursePage.StepPreservesInv` | app/page.tsx:17-27 | Every possible step keeps the completed set inside the five module ids. |
| `CoursePage.RunGrowsCompleted` | app/page.tsx:17-19 | Over any possible run the completed set stays inside the module ids and only grows, and the introduction is never added. |
| `CoursePage.Course.constructor` | app/page.tsx:14-15 | The page starts on the introduction with nothing completed. |
| `CoursePage.Course.Progress` | app/page.tsx:42 | The displayed progress count never exceeds 5. |
| `CoursePage.Course.Navigate` | app/page.tsx:56 | A navigation click sets `currentSection` and leaves `completedSections` unchanged. The same holds for the module buttons (line 74) and Start Learning (line 215). |
| `CoursePage.Course.MarkModuleComplete` | app/page.tsx:17-19 | `markComplete` replaces the completed set with the old set together with the section, and keeps the current section. |
| `CoursePage.Course.CompleteCurrentModule` | app/page.tsx:226-244 | The callback of the module on screen marks that module, as `Step` with a completion describes. |
| `EntryExitStrategies.TableWellFormed` | app/components/EntryExitStrategies.tsx:7-68 | Each of the three setups has stop < entry < target. Each has eight points with x = 1..8 in order, and its entry is one of those points. |
| `EntryExitStrategies.WellFormed` | app/components/EntryExitStrategies.tsx:7-68 | For a setup of the table's shape, the entry's time step is in 1..8 and picks out exactly the entry point of the series. So the chart's entry line (line 135) sits on a drawn point. |
| `EntryExitStrategies.RiskPerShare` | app/components/EntryExitStrategies.tsx:162 | The displayed risk per share is entry minus stop. It is positive iff the stop is below the entry and zero iff they are equal. |
| `EntryExitStrategies.RewardToRisk` | app/components/EntryExitStrategies.tsx:174 | When the entry differs from the stop, the ratio times the risk per share is the reward (target minus entry). The ratio is zero iff the target equals the entry. |
| `EntryExitStrategies.WellFormedFigures` | app/components/EntryExitStrategies.tsx:162-174 | For any setup with stop < entry < target, the displayed risk per share (entry - stop, not absolute) is positive. So the reward:risk denominator is non-zero, the ratio is positive, and ratio * risk equals the reward. |
| `EntryExitStrategies.TableFigures` | app/components/EntryExitStrategies.tsx:162-174 | The three tabs show risk 4, 7 and 10 per share, and reward:risk 2.75, 9/7 and 1.2. |
| `EntryExitStrategies.StrategyTabs.constructor` | app/components/EntryExitStrategies.tsx:75 | The tab bar starts on setup 0. |
| `EntryExitStrategies.StrategyTabs.Select` | app/components/EntryExitStrategies.tsx:96-99 | A tab click sets `currentStrategy` to that tab's index, which is always in 0..2. |
| `EntryExitStrategies.StrategyTabs.ShownRiskPerShare` | app/components/EntryExitStrategies.tsx:162 | Whichever tab is selected, the risk per share shown is positive. |
| `EntryExitStrategies.StrategyTabs.ShownRewardToRisk` | app/components/EntryExitStrategies.tsx:174 | Whichever tab is selected, the reward:risk shown is positive. |

## Left out

- Rendering (JSX, Tailwind classes, recharts charts, lucide icons): presentation only.
- `toFixed` formatting of the calculator's values and of the strategy figures: these are float-to-string conversions. The model keeps the numbers as reals.
- The `Number(e.target.value)` coercion of the calculator inputs: JavaScript parsing, including NaN for unparsable text. The inputs are arbitrary reals. The `max="5"` attribute on the risk field is a browser hint and does not clamp typed values, so no bound is modelled.
- IEEE-754 rounding: the calculator and the percentage are modelled over exact reals. Binary floating point can differ near a whole quotient: `Math.floor(0.3 / 0.1)` is 2 in JavaScript, but 3 over reals.
- React's state batching: each handler is a single atomic transition.
- Remounting: the page renders only the current section (app/page.tsx:226-244), so leaving a lesson unmounts it. On return, its state cells start again from their initial values (Quiz.tsx:109-113, PatternRecognition.tsx:59-60, RiskManagement.tsx:11-14, EntryExitStrategies.tsx:75). `Quiz`, `PatternRecognition`, `RiskManagement` and `EntryExitStrategies` therefore each model one visit of their section, and their run lemmas (`RunKeepsLoggedResults`, `RunPreservesInv`, `RunStaysInBounds`, `PressNextReachesEnd`) hold within that visit. Only the course page's completed set survives navigation.
- Lesson text (prompts, explanations, descriptions, signals, rules, labels), the pattern price series and the pattern key levels: these are display content. Only pattern names, option labels, strategy titles and the strategy numbers are kept.
- `app/components/TimeframeAnalysis.tsx`: its chart data comes from `Math.random`, and the rest is static display. Its completion callback appears only as one module id on the page.
- `app/layout.tsx`: page metadata and HTML shell.
- The quiz's `handleComplete` / "Complete Course" button: it only forwards to `onComplete`, and it is shown only on the completion screen. It is modelled on the course page as the callback of the module on screen (`CompleteCurrentModule`).
- The progress bars of the quiz (line 160): they do the same arithmetic as the pattern progress fraction, which is modelled.
- `Quiz.QuizSession.HandleAnswer`: it requires the index to be an option of the current question, because only the option buttons call it. The handler itself accepts any number.
- `CoursePage.Course.MarkModuleComplete`: it requires a module id, because every call site passes one. The source's `markComplete` type also admits `'intro'`.
- Completion firing: Next on the last slide fires `onComplete` on every press, not once. Marking is idempotent, so the completed set changes only on the first press (`PressNextReachesEnd`, `MarkCompleteIdempotent`).
