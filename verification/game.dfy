/** The game screen as a state machine: one state record holding the screen's
    `useState` hooks, and one pure transition per handler. Asynchronous work
    (the question request, the 5-second reveal, the 1-second interval) becomes
    events delivered one at a time. */
module Game {
  import opened Wrappers
  import Catalog
  import Quiz

  const Rounds := 10
  const TimerStart := 10

  /** The navigation to the results screen that ends a game. */
  datatype GameOver = GameOver(score: nat, total: nat)

  datatype State = State(
    loading: bool,
    pendingLoads: nat,               // question requests sent and not yet settled
    question: Option<Quiz.Question>,
    round: nat,
    score: nat,
    showOptions: bool,
    selectedAnswer: Option<string>,
    showFeedback: bool,
    isCorrect: bool,
    timeLeft: int,
    isAnswered: bool,
    finished: Option<GameOver>)

  /** The state after mounting: hooks at their initial values, the first request in flight. */
  const Start := State(true, 1, None, 1, 0, false, None, false, false, TimerStart, false, None)

  datatype Event =
    | Answer(choice: Catalog.Butterfly)  // an option button pressed
    | Tick                               // the 1-second interval fires
    | Reveal                             // the 5-second timeout after a load fires
    | Next                               // the Next / View Results button pressed
    | Loaded(q: Quiz.Question)           // a question request succeeded
    | LoadFailed                         // a question request failed

  /** An answer can still be scored in this round. */
  predicate CanScore(s: State) {
    !s.isAnswered && s.question.Some?
  }

  /** `handleTimeout`: the round counts as answered and wrong; nothing else changes. */
  function HandleTimeout(s: State): (t: State)
    ensures t.isAnswered && !t.isCorrect && t.showFeedback
    ensures t.(isAnswered := s.isAnswered, isCorrect := s.isCorrect, showFeedback := s.showFeedback) == s
  {
    s.(isAnswered := true, isCorrect := false, showFeedback := true)
  }

  /** `handleAnswer`: ignored once answered or before a question is loaded;
      otherwise records the choice and scores it if its id is the correct one. */
  function HandleAnswer(s: State, b: Catalog.Butterfly): (t: State)
    ensures !CanScore(s) ==> t == s
    ensures CanScore(s) ==> t.isAnswered && t.showFeedback && t.selectedAnswer == b.id
    ensures CanScore(s) ==> (t.isCorrect <==> b.id == s.question.value.correctAnswer.id)
    ensures t.score == s.score + (if CanScore(s) && t.isCorrect then 1 else 0)
    ensures t.(isAnswered := s.isAnswered, selectedAnswer := s.selectedAnswer, isCorrect := s.isCorrect,
               score := s.score, showFeedback := s.showFeedback) == s
  {
    if s.isAnswered || s.question.None? then s
    else
      var correct := b.id == s.question.value.correctAnswer.id;
      s.(isAnswered := true, selectedAnswer := b.id, isCorrect := correct,
         score := if correct then s.score + 1 else s.score, showFeedback := true)
  }

  /** The interval callback: it only runs while options are shown and the round
      is unanswered; at 1 or below it times the round out and shows 0. */
  function HandleTick(s: State): (t: State)
    ensures !(s.showOptions && !s.isAnswered) ==> t == s
    ensures s.showOptions && !s.isAnswered && s.timeLeft > 1 ==> t == s.(timeLeft := s.timeLeft - 1)
    ensures s.showOptions && !s.isAnswered && s.timeLeft <= 1 ==>
      t == HandleTimeout(s).(timeLeft := 0)
  {
    if !(s.showOptions && !s.isAnswered) then s
    else if s.timeLeft <= 1 then HandleTimeout(s).(timeLeft := 0)
    else s.(timeLeft := s.timeLeft - 1)
  }

  /** The reveal timeout shows the options; the timer effect, whose dependencies
      just changed, restarts the countdown at 10 when the round is unanswered. */
  function HandleReveal(s: State): (t: State)
    ensures s.showOptions ==> t == s
    ensures !s.showOptions ==> t.showOptions && t.timeLeft == (if s.isAnswered then s.timeLeft else TimerStart)
    ensures t.(showOptions := s.showOptions, timeLeft := s.timeLeft) == s
  {
    if s.showOptions then s
    else if s.isAnswered then s.(showOptions := true)
    else s.(showOptions := true, timeLeft := TimerStart)
  }

  /** `handleNext`: after round 10 the game ends with `total: 10`; before that the
      round advances by one and a new question is requested. */
  function HandleNext(s: State): (t: State)
    ensures s.round >= Rounds ==> t == s.(finished := Some(GameOver(s.score, Rounds)))
    ensures s.round < Rounds ==> t.round == s.round + 1 && t.pendingLoads == s.pendingLoads + 1 && t.loading
    ensures s.round < Rounds ==> t.(round := s.round, loading := s.loading, pendingLoads := s.pendingLoads) == s
  {
    if s.round >= Rounds then s.(finished := Some(GameOver(s.score, Rounds)))
    else s.(round := s.round + 1, loading := true, pendingLoads := s.pendingLoads + 1)
  }

  /** A successful request installs the question and clears the previous round's selection and flags. */
  function HandleLoaded(s: State, q: Quiz.Question): (t: State)
    requires s.pendingLoads > 0
    ensures t.question == Some(q) && !t.showOptions && t.selectedAnswer.None?
    ensures !t.showFeedback && !t.isAnswered && !t.loading
    ensures t.pendingLoads == s.pendingLoads - 1
    ensures t.(question := s.question, showOptions := s.showOptions, selectedAnswer := s.selectedAnswer,
               showFeedback := s.showFeedback, isAnswered := s.isAnswered, loading := s.loading,
               pendingLoads := s.pendingLoads) == s
  {
    s.(question := Some(q), showOptions := false, selectedAnswer := None, showFeedback := false,
       isAnswered := false, loading := false, pendingLoads := s.pendingLoads - 1)
  }

  /** A failed request only ends the loading state. */
  function HandleLoadFailed(s: State): (t: State)
    requires s.pendingLoads > 0
    ensures t == s.(loading := false, pendingLoads := s.pendingLoads - 1)
  {
    s.(loading := false, pendingLoads := s.pendingLoads - 1)
  }

  /** The screen shows the question rather than the spinner. */
  predicate Shown(s: State) {
    !s.loading && s.question.Some?
  }

  /** One event. A button press reaches its handler only while that button is on
      screen: the options while they are shown, Next while the feedback is shown.
      A response with no request in flight cannot arrive and changes nothing. */
  function Step(s: State, e: Event): State {
    match e
    case Answer(b) => if Shown(s) && s.showOptions then HandleAnswer(s, b) else s
    case Tick => HandleTick(s)
    case Reveal => HandleReveal(s)
    case Next => if Shown(s) && s.showFeedback then HandleNext(s) else s
    case Loaded(q) => if s.pendingLoads > 0 then HandleLoaded(s, q) else s
    case LoadFailed => if s.pendingLoads > 0 then HandleLoadFailed(s) else s
  }

  function Run(s: State, events: seq<Event>): State
    decreases |events|
  {
    if |events| == 0 then s else Run(Step(s, events[0]), events[1..])
  }

  /** What every reachable state satisfies: the round stays within 1..10, the
      countdown within 0..10, and the score, plus the scoring chances still open
      (requests in flight and an unanswered loaded question), never exceeds the
      round; in particular the score never exceeds the round. A finished game
      reports `total: 10` and a score of at most 10. */
  ghost predicate Inv(s: State) {
    && 1 <= s.round <= Rounds
    && 0 <= s.timeLeft <= TimerStart
    && s.score + s.pendingLoads + (if CanScore(s) then 1 else 0) <= s.round
    && (s.finished.Some? ==> s.round == Rounds && s.finished.value.total == Rounds && s.finished.value.score <= Rounds)
  }

  lemma StartInv()
    ensures Inv(Start)
  {
  }

  lemma StepInv(s: State, e: Event)
    requires Inv(s)
    ensures Inv(Step(s, e))
  {
  }

  lemma {:induction false} RunInv(s: State, events: seq<Event>)
    requires Inv(s)
    ensures Inv(Run(s, events))
    decreases |events|
  {
    if |events| > 0 {
      StepInv(s, events[0]);
      RunInv(Step(s, events[0]), events[1..]);
    }
  }

  /** Every state the screen can reach satisfies the invariant. */
  lemma Reachable(events: seq<Event>)
    ensures Inv(Run(Start, events))
    ensures Run(Start, events).score <= Run(Start, events).round <= Rounds
  {
    StartInv();
    RunInv(Start, events);
  }

  /** At most one scoring event per round: a second answer is ignored. */
  lemma AnswerOnce(s: State, a: Catalog.Butterfly, b: Catalog.Butterfly)
    ensures HandleAnswer(HandleAnswer(s, a), b) == HandleAnswer(s, a)
  {
  }
}
