/**
 * The parenting-style quiz as a pure state machine: a step index and a score
 * record, advanced one answered question at a time, and a view that shows
 * either the current question or, once every question is answered, the result.
 */
module Quiz {

  import opened Wrappers
  import opened Styles
  import opened Scores

  /**
   * A piece of display text, named by where it appears: a question's prompt,
   * one of its options, or a style's result description.  `Wording` gives the
   * words themselves; nothing else depends on them.
   */
  datatype Label =
    | Prompt(question: nat)
    | OptionText(question: nat, option: nat)
    | Description(style: Category)

  /** An answer button: its label and the style it scores for. */
  datatype AnswerOption = AnswerOption(text: Label, style: Category)

  datatype Question = Question(prompt: Label, options: seq<AnswerOption>)

  /** The fixed question list, options in display order. */
  const Questions: seq<Question> := [
    Question(Prompt(0), [
      AnswerOption(OptionText(0, 0), Authoritative),
      AnswerOption(OptionText(0, 1), Authoritarian),
      AnswerOption(OptionText(0, 2), Permissive),
      AnswerOption(OptionText(0, 3), Neglectful)
    ]),
    Question(Prompt(1), [
      AnswerOption(OptionText(1, 0), Authoritative),
      AnswerOption(OptionText(1, 1), Authoritarian),
      AnswerOption(OptionText(1, 2), Permissive),
      AnswerOption(OptionText(1, 3), Neglectful)
    ])
  ]

  /** The words of each label the quiz shows; None for a label it never shows. */
  function Wording(l: Label): Option<string> {
    match l
    case Prompt(0) => Some("When your child breaks a rule, how do you usually respond?")
    case Prompt(1) => Some("How often do you set and enforce consistent rules?")
    case OptionText(0, 0) => Some("Explain why it's wrong and discuss consequences")
    case OptionText(0, 1) => Some("Punish immediately without discussion")
    case OptionText(0, 2) => Some("Let it slide most of the time")
    case OptionText(0, 3) => Some("I'm often too tired to respond")
    case OptionText(1, 0) => Some("Always, with flexibility and warmth")
    case OptionText(1, 1) => Some("Always, without exception")
    case OptionText(1, 2) => Some("Rarely, I avoid conflict")
    case OptionText(1, 3) => Some("Rarely, I forget or don't have energy")
    case Description(Authoritative) =>
      Some("You are likely an Authoritative parent: warm, responsive, and consistent. This is considered one of the most effective parenting styles.")
    case Description(Authoritarian) =>
      Some("You lean toward Authoritarian: structured and rule-focused, but may benefit from more emotional connection.")
    case Description(Permissive) =>
      Some("You may be a Permissive parent: loving and flexible, but could strengthen boundaries and consistency.")
    case Description(Neglectful) =>
      Some("You may be experiencing signs of Neglectful parenting—likely due to emotional fatigue. Recovery support and self-care can help immensely.")
    case _ => None
  }

  /** Every label the quiz can show has words: each prompt, each option and each style's description. */
  lemma EveryLabelHasWording()
    ensures forall q :: 0 <= q < |Questions| ==> Wording(Questions[q].prompt).Some?
    ensures forall q, k :: 0 <= q < |Questions| && 0 <= k < |Questions[q].options| ==>
              Wording(Questions[q].options[k].text).Some?
    ensures forall c :: Wording(Description(c)).Some?
  {
  }

  /** The component's state: which question is showing, and the scores so far. */
  datatype QuizState = QuizState(step: nat, scores: Tally)

  /** The state on mount. */
  const Initial: QuizState := QuizState(0, Tally(0, 0, 0, 0))

  /** One increment per answered question: the scores add up to the step. */
  predicate Consistent(s: QuizState) {
    Total(s.scores) == s.step
  }

  /** The start state is step 0 with every score at zero, and is consistent. */
  lemma InitialState()
    ensures Initial.step == 0
    ensures forall c :: Initial.scores.Get(c) == 0
    ensures Consistent(Initial)
  {
  }

  /**
   * Records an answer of style `c`: that score goes up by one, the others stay,
   * and the step advances by one.  Nothing here checks the step.
   */
  function HandleOption(s: QuizState, c: Category): (r: QuizState)
    ensures r.step == s.step + 1
    ensures r.scores.Get(c) == s.scores.Get(c) + 1
    ensures forall d :: d != c ==> r.scores.Get(d) == s.scores.Get(d)
  {
    QuizState(s.step + 1, Inc(s.scores, c))
  }

  /** An answer keeps the scores adding up to the step. */
  lemma HandleOptionConsistent(s: QuizState, c: Category)
    requires Consistent(s)
    ensures Consistent(HandleOption(s, c))
  {
    IncTotal(s.scores, c);
  }

  /** What the quiz panel shows. */
  datatype View =
    | Asking(prompt: Label, options: seq<AnswerOption>)
    | Finished(style: Category, description: Label)

  /** Done once the step has reached the number of questions. */
  predicate IsDone(s: QuizState) {
    s.step >= |Questions|
  }

  /** The panel: the current question while answering, the result once done. */
  function CurrentView(s: QuizState): (v: View)
    ensures v.Finished? <==> IsDone(s)
    ensures v.Asking? ==> v.prompt == Questions[s.step].prompt && v.options == Questions[s.step].options
    ensures v.Finished? ==> FirstWins(s.scores, v.style) && v.description == Description(v.style)
  {
    if s.step >= |Questions| then
      var result := GetResult(s.scores);
      Finished(result.value, Description(result.value))
    else
      var current := Questions[s.step];
      Asking(current.prompt, current.options)
  }

  /**
   * Pressing the `i`-th button of the current view.  There is such a button
   * only while a question is showing and `i` is one of its option indices.
   */
  function Click(s: QuizState, i: nat): (r: Option<QuizState>)
    ensures r.Some? <==> !IsDone(s) && i < |Questions[s.step].options|
    ensures r.Some? ==> r.value == HandleOption(s, Questions[s.step].options[i].style)
  {
    if IsDone(s) then None
    else
      var options := Questions[s.step].options;
      if i < |options| then Some(HandleOption(s, options[i].style)) else None
  }

  /** The accepted presses are exactly the option buttons the current view shows. */
  lemma ClickFollowsView(s: QuizState, i: nat)
    ensures Click(s, i).Some? <==> CurrentView(s).Asking? && i < |CurrentView(s).options|
    ensures Click(s, i).Some? ==> Click(s, i).value == HandleOption(s, CurrentView(s).options[i].style)
  {
  }

  /** Once done, the view is the result and no button press is accepted. */
  lemma DoneIsTerminal(s: QuizState, i: nat)
    requires IsDone(s)
    ensures CurrentView(s).Finished?
    ensures Click(s, i) == None
  {
  }

  /** The answers applied one after another to `s`, oldest first. */
  function Replay(s: QuizState, answers: seq<Category>): QuizState
    decreases |answers|
  {
    if |answers| == 0 then s
    else Replay(HandleOption(s, answers[0]), answers[1..])
  }

  /** Replaying answers moves the step forward by their number. */
  lemma {:induction false} ReplaySteps(s: QuizState, answers: seq<Category>)
    ensures Replay(s, answers).step == s.step + |answers|
    decreases |answers|
  {
    if |answers| > 0 {
      ReplaySteps(HandleOption(s, answers[0]), answers[1..]);
    }
  }

  /** Replaying answers adds to each score the number of answers of that style. */
  lemma {:induction false} ReplayScores(s: QuizState, answers: seq<Category>, c: Category)
    ensures Replay(s, answers).scores.Get(c) == s.scores.Get(c) + multiset(answers)[c]
    decreases |answers|
  {
    if |answers| > 0 {
      var rest := answers[1..];
      ReplayScores(HandleOption(s, answers[0]), rest, c);
      assert answers == [answers[0]] + rest;
      assert multiset(answers) == multiset{answers[0]} + multiset(rest);
    }
  }

  /** Replaying answers keeps the scores adding up to the step. */
  lemma {:induction false} ReplayConsistent(s: QuizState, answers: seq<Category>)
    requires Consistent(s)
    ensures Consistent(Replay(s, answers))
    decreases |answers|
  {
    if |answers| > 0 {
      HandleOptionConsistent(s, answers[0]);
      ReplayConsistent(HandleOption(s, answers[0]), answers[1..]);
    }
  }

  /** From the start, after any answers the step is their number and the scores count them. */
  lemma AnswersFromStart(answers: seq<Category>)
    ensures Replay(Initial, answers).step == |answers|
    ensures forall c :: Replay(Initial, answers).scores.Get(c) == multiset(answers)[c]
    ensures Total(Replay(Initial, answers).scores) == |answers|
  {
    ReplaySteps(Initial, answers);
    forall c ensures Replay(Initial, answers).scores.Get(c) == multiset(answers)[c] {
      ReplayScores(Initial, answers, c);
    }
    ReplayConsistent(Initial, answers);
  }

  /** Button presses applied one after another; None as soon as one has no button. */
  function Play(s: QuizState, picks: seq<nat>): Option<QuizState>
    decreases |picks|
  {
    if |picks| == 0 then Some(s)
    else match Click(s, picks[0])
      case None => None
      case Some(next) => Play(next, picks[1..])
  }

  /** Every question offers one button per style, in key order. */
  lemma OptionsFollowOrder()
    ensures forall q, k :: 0 <= q < |Questions| && 0 <= k < |Questions[q].options| ==>
              Questions[q].options[k].style == Order[k]
    ensures forall q :: 0 <= q < |Questions| ==> |Questions[q].options| == |Order|
  {
  }

  /** The styles a sequence of button presses stands for, from step `start` on. */
  function Chosen(start: nat, picks: seq<nat>): (styles: seq<Category>)
    requires start + |picks| <= |Questions|
    requires forall k :: 0 <= k < |picks| ==> picks[k] < |Questions[start + k].options|
    ensures |styles| == |picks|
    ensures forall k :: 0 <= k < |picks| ==> styles[k] == Questions[start + k].options[picks[k]].style
    decreases |picks|
  {
    if |picks| == 0 then []
    else [Questions[start].options[picks[0]].style] + Chosen(start + 1, picks[1..])
  }

  /**
   * From a state that has not run past the end, a run of presses is accepted
   * exactly when it fits in the remaining questions and each press names an
   * offered option.
   */
  lemma {:induction false} PlayAccepted(s: QuizState, picks: seq<nat>)
    requires s.step <= |Questions|
    ensures Play(s, picks).Some? <==>
              s.step + |picks| <= |Questions| &&
              forall k :: 0 <= k < |picks| ==> picks[k] < |Questions[s.step + k].options|
    decreases |picks|
  {
    if |picks| > 0 {
      match Click(s, picks[0])
      case None =>
        assert Play(s, picks) == None;
      case Some(next) =>
        assert Play(s, picks) == Play(next, picks[1..]);
        PlayAccepted(next, picks[1..]);
        assert next.step == s.step + 1;
        assert forall k :: 1 <= k < |picks| ==>
          picks[k] == picks[1..][k - 1] && s.step + k == next.step + (k - 1);
    }
  }

  /** An accepted run of presses answers, in order, the styles of the options pressed. */
  lemma {:induction false} PlayIsReplay(s: QuizState, picks: seq<nat>)
    requires s.step + |picks| <= |Questions|
    requires forall k :: 0 <= k < |picks| ==> picks[k] < |Questions[s.step + k].options|
    ensures Play(s, picks) == Some(Replay(s, Chosen(s.step, picks)))
    decreases |picks|
  {
    if |picks| > 0 {
      var next := HandleOption(s, Questions[s.step].options[picks[0]].style);
      assert Play(s, picks) == Play(next, picks[1..]);
      forall k | 0 <= k < |picks[1..]|
        ensures picks[1..][k] < |Questions[next.step + k].options|
      {
        assert picks[1..][k] == picks[k + 1];
      }
      PlayIsReplay(next, picks[1..]);
    }
  }

  /** Every accepted press advances the step by exactly one. */
  lemma {:induction false} PlaySteps(s: QuizState, picks: seq<nat>, f: QuizState)
    requires Play(s, picks) == Some(f)
    ensures f.step == s.step + |picks|
    decreases |picks|
  {
    if |picks| > 0 {
      var next := Click(s, picks[0]).value;
      assert Play(s, picks) == Play(next, picks[1..]);
      PlaySteps(next, picks[1..], f);
    }
  }

  /** Accepted presses keep the scores adding up to the step. */
  lemma {:induction false} PlayConsistent(s: QuizState, picks: seq<nat>)
    requires Consistent(s)
    ensures Play(s, picks).Some? ==> Consistent(Play(s, picks).value)
    decreases |picks|
  {
    if |picks| > 0 && Click(s, picks[0]).Some? {
      var next := Click(s, picks[0]).value;
      assert Play(s, picks) == Play(next, picks[1..]);
      HandleOptionConsistent(s, Questions[s.step].options[picks[0]].style);
      PlayConsistent(next, picks[1..]);
    }
  }

  /**
   * Pressing an offered option on every question, from the start, is accepted
   * and reaches the result view, with one point per question.
   */
  lemma CompletedQuiz(picks: seq<nat>)
    requires |picks| == |Questions|
    requires forall k :: 0 <= k < |picks| ==> picks[k] < |Questions[k].options|
    ensures Play(Initial, picks).Some?
    ensures CurrentView(Play(Initial, picks).value).Finished?
    ensures Play(Initial, picks).value.step == |Questions|
    ensures Total(Play(Initial, picks).value.scores) == |Questions|
  {
    PlayAccepted(Initial, picks);
    var f := Play(Initial, picks).value;
    PlaySteps(Initial, picks, f);
    PlayConsistent(Initial, picks);
  }

  /** Both questions answered with the first option: two points for authoritative, step 2. */
  lemma ScenarioAllAuthoritativeAnswers()
    ensures Play(Initial, [0, 0]) == Some(QuizState(2, Tally(2, 0, 0, 0)))
  {
  }

  /** ... and the result shown is authoritative. */
  lemma ScenarioAllAuthoritativeResult()
    ensures CurrentView(QuizState(2, Tally(2, 0, 0, 0))).Finished?
    ensures CurrentView(QuizState(2, Tally(2, 0, 0, 0))).style == Authoritative
  {
    GetResultCharacterized(Tally(2, 0, 0, 0), Authoritative);
  }

  /** Permissive on the first question, neglectful on the second: one point each. */
  lemma ScenarioPermissiveNeglectfulAnswers()
    ensures Play(Initial, [2, 3]) == Some(QuizState(2, Tally(0, 0, 1, 1)))
  {
  }

  /** ... a tie, which permissive wins by coming first in key order. */
  lemma ScenarioPermissiveNeglectfulResult()
    ensures CurrentView(QuizState(2, Tally(0, 0, 1, 1))).Finished?
    ensures CurrentView(QuizState(2, Tally(0, 0, 1, 1))).style == Permissive
  {
    GetResultCharacterized(Tally(0, 0, 1, 1), Permissive);
  }

  /** The start state, before any answer, shows the first question with its four options. */
  lemma InitialViewIsFirstQuestion()
    ensures CurrentView(Initial) == Asking(Questions[0].prompt, Questions[0].options)
  {
  }

  /** The all-zero start would yield authoritative. */
  lemma ZeroScoresYieldAuthoritative()
    ensures GetResult(Zero) == Some(Authoritative)
  {
    TieGoesToFirst(Zero);
  }
}
