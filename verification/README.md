# Parenting-style quiz engine

A Dafny model of the quiz inside the `RecoveryParentingSite` React component
of the Mothers in Recovery site. The quiz asks two fixed questions. Each has
four answer buttons, and each button is tagged with one of four parenting
styles: authoritative, authoritarian, permissive or neglectful. Pressing a
button adds one to that style's score and moves to the next question. Once
both questions are answered, the panel shows the style with the highest
score and its description. When scores tie, the style listed first in the
score record wins.

The component's two `useState` hooks become one explicit `QuizState` record
(step index plus score record). The handlers become pure functions over it.

- `styles.dfy` (`Styles`): the closed set of styles and the fixed key order
  of the score record.
- `scores.dfy` (`Scores`): the score record and the increment. It also holds
  the result computation: the maximum over the record's values, then the
  first key holding it.
- `quiz.dfy` (`Quiz`): the question data, the display text, the state, the
  answer transition, the view, button presses, and runs of presses and
  answers.
- `wrappers.dfy` (`Wrappers`): an `Option` type. It stands for the
  `undefined` that a JavaScript `find` can return, and for a button press
  that matches no button.

The score record keeps its key order after every answer. The update is
`{...prev, [style]: …}`: the spread copies the keys in their original order,
and overwriting a key that already exists does not move it. So the result
always scans the keys in the order authoritative, authoritarian, permissive,
neglectful (`Styles.Order`).

## Model

| member | source | states |
|---|---|---|
| Styles.Rank | RecoveryParentingSite.js:8 | every style has a position in the score record's key order, and the key at that position is that style |
| Styles.OrderIsEnumeration | RecoveryParentingSite.js:8 | the key order lists each of the four styles exactly once |
| Scores.Inc | RecoveryParentingSite.js:32 | the chosen style's score goes up by exactly one; every other style's score is unchanged |
| Scores.IncTotal | RecoveryParentingSite.js:32 | one answer adds exactly one to the sum of the scores |
| Scores.MaxOver | RecoveryParentingSite.js:37 | the maximum over a non-empty list of keys is the score of one of them, and no key's score exceeds it |
| Scores.MaxScore | RecoveryParentingSite.js:37 | the maximum over the record's values is attained by some style and bounds every style's score |
| Scores.FindKey | RecoveryParentingSite.js:38 | the find returns nothing exactly when no key has the searched score; otherwise it returns a key with that score that no earlier key has |
| Scores.GetResult | RecoveryParentingSite.js:36-39 | the result is always defined; it has the maximum score, and every style before it in key order scores strictly less |
| Scores.FirstWinsUnique | RecoveryParentingSite.js:38 | at most one style is maximal and strictly ahead of every earlier style, so the tie-break is deterministic |
| Scores.GetResultCharacterized | RecoveryParentingSite.js:36-39 | the result is a given style if and only if that style satisfies the first-wins rule |
| Scores.TieGoesToFirst | RecoveryParentingSite.js:36-39 | when all scores are equal, the all-zero record included, the result is authoritative |
| Quiz.InitialState | RecoveryParentingSite.js:7-8 | the quiz starts at step 0 with every score at 0, so the scores sum to the step |
| Quiz.HandleOption | RecoveryParentingSite.js:31-34 | an answer adds one to its own style's score, leaves every other score unchanged, and advances the step by exactly one |
| Quiz.HandleOptionConsistent | RecoveryParentingSite.js:31-34 | an answer keeps the scores summing to the step |
| Quiz.CurrentView | RecoveryParentingSite.js:41-65 | before the last question is answered, it shows the current question's prompt and options in order; afterwards it shows the first-wins result and that style's description |
| Quiz.EveryLabelHasWording | RecoveryParentingSite.js:10-49 | every prompt, every option and every style's description has display words, so the description lookup is total |
| Quiz.Click | RecoveryParentingSite.js:57-62 | a button press is accepted exactly while a question is showing and the index names one of its options; it records that option's style |
| Quiz.ClickFollowsView | RecoveryParentingSite.js:57-62 | the accepted presses are exactly the option buttons of the current view, and each records the style of the button pressed |
| Quiz.DoneIsTerminal | RecoveryParentingSite.js:42-56 | once the step reaches the question count, the view is the result and no press is accepted |
| Quiz.ReplaySteps | RecoveryParentingSite.js:33 | replaying any answers advances the step by their number, never backward |
| Quiz.ReplayScores | RecoveryParentingSite.js:32 | replaying any answers adds to each style's score the number of answers of that style |
| Quiz.ReplayConsistent | RecoveryParentingSite.js:31-34 | replaying any answers keeps the scores summing to the step |
| Quiz.AnswersFromStart | RecoveryParentingSite.js:7-34 | from the start, after any answers the step is their number, each score counts that style's answers, and the scores sum to the step |
| Quiz.OptionsFollowOrder | RecoveryParentingSite.js:10-29 | every question has four options, tagged with the four styles in key order |
| Quiz.Chosen | RecoveryParentingSite.js:61-62 | a run of presses stands for one style per press, each the style of the option pressed at that step |
| Quiz.PlayAccepted | RecoveryParentingSite.js:41-65 | from a state not past the end, a run of presses is accepted exactly when it fits in the remaining questions and every press names an offered option |
| Quiz.PlayIsReplay | RecoveryParentingSite.js:31-62 | an accepted run of presses has the same effect as answering, in order, the styles of the pressed options |
| Quiz.PlaySteps | RecoveryParentingSite.js:33 | every accepted run of presses advances the step by its length |
| Quiz.PlayConsistent | RecoveryParentingSite.js:31-34 | every accepted run of presses keeps the scores summing to the step |
| Quiz.CompletedQuiz | RecoveryParentingSite.js:41-43 | pressing an offered option on every question from the start is accepted and reaches the result view, with step and score sum both equal to the question count |
| Quiz.ScenarioAllAuthoritativeAnswers | RecoveryParentingSite.js:14-33 | pressing the first option on both questions reaches step 2 with scores {2, 0, 0, 0} |
| Quiz.ScenarioAllAuthoritativeResult | RecoveryParentingSite.js:36-43 | with scores {2, 0, 0, 0} at step 2, the view shows the authoritative result |
| Quiz.ScenarioPermissiveNeglectfulAnswers | RecoveryParentingSite.js:16-33 | pressing permissive, then neglectful, reaches step 2 with scores {0, 0, 1, 1} |
| Quiz.ScenarioPermissiveNeglectfulResult | RecoveryParentingSite.js:36-43 | with the one-one tie {0, 0, 1, 1}, the view shows permissive, because it comes before neglectful in key order |
| Quiz.InitialViewIsFirstQuestion | RecoveryParentingSite.js:57-62 | before any answer, the view is the first question with its options in their original order |
| Quiz.ZeroScoresYieldAuthoritative | RecoveryParentingSite.js:36-39 | the all-zero score record yields authoritative |

## Left out

- JSX rendering, the `Card`, `Button` and `Tabs` components, and the re-render that React's `useState` triggers. The state is an explicit record, and each handler is a pure function returning the next state.
- The static tab content (RecoveryParentingSite.js:68-167): activities, style explanations, worksheets, self-care and resources. It is fixed data with no computation.
- Dynamic key lookup. An unknown style would make `prev[style] + 1` produce `NaN`. Styles are a closed datatype here, so that case cannot be written.
- JavaScript number semantics. Scores are floating-point numbers in the source and unbounded naturals here. At most two answers are ever counted, so the two agree.
- `Math.max` of an empty list (`-Infinity`) and `descriptions[undefined]`. The score record always has four keys, so neither can occur. `Scores.GetResult` proves the find always succeeds.
- Display text inside the state machine. Prompts, options and descriptions travel through the model as labels: which question, which option, which style. `Quiz.Wording` holds the source's exact words for each label, but no proof compares strings.
- Button markup: the `key={idx}` attributes and CSS classes. A button press is modelled as the index of the option pressed.
- Quiz.PlayAccepted: stated only for states whose step has not passed the question count. Every state reachable from the start satisfies this.
