/**
 * The quiz session of script.js as one immutable state record and one pure
 * transition per source function. The 500 ms position poll, the 1 s countdown
 * and the 1500 ms advance delay are explicit step functions; the player's
 * current time, the clicked button and the shuffle draws are inputs.
 */
module Session {

  import opened Common
  import opened Quiz
  import opened Storage
  import Shuffle

  /** The text in the feedback element, by message key. */
  datatype Feedback = NoFeedback | SelectPrompt | CorrectFeedback | IncorrectFeedback | TimeUpNotice

  /** The hint element: hidden, one of the question's hints, or the "no more hints" text. */
  datatype HintDisplay = HintHidden | HintShown(text: string) | NoMoreHints

  /** One block of the review section. */
  datatype ReviewItem = NoAnswersYet(questionCount: nat) | Reviewed(number: nat, entry: AnswerRecord)

  /** The value written under the score key (the timestamp is left out). */
  datatype ScoreEntry = ScoreEntry(score: int, level: int)

  /**
   * The three global progress keys. The index is only ever written as
   * `currentQuestionIndex.toString()`; the answer log goes through JSON.
   */
  datatype Progress = Progress(
    index: Option<nat>,
    answers: Option<Slot<seq<AnswerRecord>>>,
    score: Option<ScoreEntry>)

  datatype State = State(
    questions: seq<Question>,
    cursor: nat,                     // currentQuestionIndex: the next unanswered question
    log: seq<AnswerRecord>,          // userAnswers
    active: bool,                    // isQuestionActive
    current: Option<Question>,       // currentQuestionData
    buttons: seq<Answer>,            // the answer buttons, in display order
    selected: Option<nat>,           // position of the button marked `selected`
    hintsUsed: nat,
    hint: HintDisplay,
    timeRemaining: int,
    timerRunning: bool,              // the 1 s countdown interval is live
    polling: bool,                   // the 500 ms position poll is live
    pendingAdvances: nat,            // 1500 ms advance callbacks not yet fired
    score: int,
    level: int,
    feedback: Feedback,
    review: Option<seq<ReviewItem>>, // the review section, when shown
    paused: bool,                    // the last play/pause command sent to the player
    seek: Option<int>,               // the last seek command sent to the player
    saved: Progress)

  /** The module-level variables as the script declares them, over whatever is persisted. */
  function Initial(saved: Progress): State
  {
    State([], 0, [], false, None, [], None, 0, HintHidden, 0, false, false, 0, 0, 1,
          NoFeedback, None, true, None, saved)
  }

  /** setupVideo's reset of the session for a freshly loaded question list. */
  function StartSession(s: State, questions: seq<Question>): State
  {
    s.(questions := questions, cursor := 0, log := [], score := 0)
  }

  /** checkQuestionTiming: (re)arm the position poll unless a question is open. */
  function StartPolling(s: State): State
  {
    if s.active then s else s.(polling := true)
  }

  /** startQuestionTimer: reset the countdown and (re)arm it. */
  function StartTimer(s: State): State
  {
    s.(timeRemaining := QuestionTimeLimit, timerRunning := true)
  }

  /**
   * displayQuestion: make q the current question, reset hints and feedback,
   * start the countdown and lay out a copy of the answers, shuffled when
   * q.randomize is set. q itself is not reordered.
   */
  function Display(s: State, q: Question, draws: seq<nat>): State
  {
    var shown := if q.randomize then Shuffle.Shuffled(q.answers, draws) else q.answers;
    StartTimer(s.(current := Some(q), feedback := NoFeedback, hintsUsed := 0, hint := HintHidden,
                  buttons := shown, selected := None))
  }

  /** One firing of the 500 ms poll; `time` is None when the player cannot report one. */
  function PollTick(s: State, time: Option<real>, draws: seq<nat>): State
  {
    if !s.polling || time.None? then s
    else if s.cursor < |s.questions| && time.value >= s.questions[s.cursor].time as real && !s.active then
      Display(s.(paused := true, active := true, polling := false), s.questions[s.cursor], draws)
    else s
  }

  /** selectAnswer: mark the clicked button; a position with no button is no click. */
  function SelectAnswer(s: State, button: nat): State
  {
    if button < |s.buttons| then s.(selected := Some(button), feedback := NoFeedback) else s
  }

  /** saveProgress: write the cursor as it is now and the encoded answer log. */
  function SaveProgress(s: State): State
  {
    s.(saved := s.saved.(index := Some(s.cursor), answers := Some(Encoded(s.log))))
  }

  /**
   * checkAnswer. The selected button's position is looked up in the unshuffled
   * `currentQuestionData.answers`. When that lookup or `find(a => a.correct)`
   * fails the source throws a TypeError before anything is written, so the state
   * is unchanged. A correct answer only schedules the advance; the countdown
   * keeps running and the score is not touched.
   */
  function Submit(s: State): State
  {
    if s.selected.None? then s.(feedback := SelectPrompt)
    else if s.current.None? || s.selected.value >= |s.current.value.answers| then s
    else
      var q := s.current.value;
      var i := s.selected.value;
      match FindCorrect(q.answers)
      case None => s
      case Some(c) =>
        var entry := AnswerRecord(q.text, q.answers[i].text, q.answers[c].text, q.answers[i].correct);
        var saved := SaveProgress(s.(log := s.log + [entry]));
        if q.answers[i].correct then
          saved.(feedback := CorrectFeedback, pendingAdvances := s.pendingAdvances + 1)
        else
          saved.(feedback := IncorrectFeedback)
  }

  /** The review section's content: one block per logged answer, or a single placeholder. */
  function BuildReview(log: seq<AnswerRecord>, questionCount: nat): seq<ReviewItem>
  {
    if |log| == 0 then [NoAnswersYet(questionCount)]
    else seq(|log|, i requires 0 <= i < |log| => Reviewed(i + 1, log[i]))
  }

  /** showReviewSection: pause and show the review built from the log. */
  function ShowReview(s: State): State
  {
    s.(review := Some(BuildReview(s.log, |s.questions|)), paused := true)
  }

  /** The 1500 ms callback scheduled by a correct answer. */
  function AdvanceTimeout(s: State): State
  {
    if s.pendingAdvances == 0 then s
    else
      var t := s.(pendingAdvances := s.pendingAdvances - 1, active := false, cursor := s.cursor + 1);
      if t.cursor < |t.questions| then StartPolling(t.(paused := false)) else ShowReview(t)
  }

  /** showHint: reveal the next hint unless there is no question or the ceiling is reached. */
  function ShowHint(s: State): State
  {
    if s.current.None? || s.hintsUsed >= HintsPerQuestion then s
    else
      var hints := s.current.value.hints;
      var shown := if s.hintsUsed < |hints| && hints[s.hintsUsed] != "" then HintShown(hints[s.hintsUsed]) else NoMoreHints;
      s.(hint := shown, hintsUsed := s.hintsUsed + 1)
  }

  /** handleTimeUp: the time-up notice, then the same hint reveal as the hint button. */
  function HandleTimeUp(s: State): State
  {
    ShowHint(s.(feedback := TimeUpNotice))
  }

  /** One firing of the 1 s countdown. */
  function CountdownTick(s: State): State
  {
    if !s.timerRunning then s
    else
      var t := s.(timeRemaining := s.timeRemaining - 1);
      if t.timeRemaining <= 0 then HandleTimeUp(t.(timerRunning := false)) else t
  }

  /** updateScore: 100 base points, twice the seconds left, minus 20 per hint used. */
  function UpdateScore(s: State, isCorrect: bool): State
  {
    if !isCorrect then s
    else
      var score := s.score + 100 + 2 * s.timeRemaining - 20 * s.hintsUsed;
      s.(score := score, saved := s.saved.(score := Some(ScoreEntry(score, s.level))))
  }

  /**
   * resetProgress: forget the persisted index and answer log, rewind and play,
   * hide the review, close the question and resume polling. The score, the
   * countdown and any pending advance are left as they are.
   */
  function ResetProgress(s: State): State
  {
    StartPolling(s.(saved := s.saved.(index := None, answers := None), cursor := 0, log := [],
                    seek := Some(0), paused := false, review := None, active := false))
  }

  /**
   * loadProgress: restore the index and the answer log when present; a log that
   * does not parse resets everything. Then either go to review (all questions
   * done) or seek to the last answered question's time and leave the video paused.
   */
  function LoadProgress(s: State): State
  {
    var withIndex := if s.saved.index.Some? then s.(cursor := s.saved.index.value) else s;
    if s.saved.answers.None? || IsEmptyText(s.saved.answers.value) then ResumeAfterLoad(withIndex)
    else
      match Parse(s.saved.answers.value)
      case Some(log) => ResumeAfterLoad(withIndex.(log := log))
      case None => ResetProgress(withIndex)
  }

  function ResumeAfterLoad(s: State): State
  {
    if s.cursor >= |s.questions| && |s.questions| > 0 then ShowReview(s)
    else
      var resumed := if s.cursor > 0 then
        s.(seek := Some(if s.cursor - 1 < |s.questions| then s.questions[s.cursor - 1].time else 0))
      else s;
      resumed.(paused := true)
  }

  /** What can happen to a running session. */
  datatype Event =
    | Poll(time: Option<real>, draws: seq<nat>)  // the 500 ms interval fires
    | PlayerPlaying                               // state change to PLAYING
    | PlayerEnded                                 // state change to ENDED
    | PlayerReady                                 // onPlayerReady
    | ClickAnswer(button: nat)
    | ClickSubmit
    | Countdown                                   // the 1 s interval fires
    | AdvanceFires                                // the 1500 ms timeout fires
    | ClickReset                                  // the reset or restart-video button

  function Next(s: State, e: Event): State
  {
    match e
    case Poll(time, draws) => PollTick(s, time, draws)
    case PlayerPlaying => StartPolling(s)
    case PlayerEnded => ShowReview(s)
    case PlayerReady => LoadProgress(s).(paused := true)
    case ClickAnswer(b) => SelectAnswer(s, b)
    case ClickSubmit => Submit(s)
    case Countdown => CountdownTick(s)
    case AdvanceFires => AdvanceTimeout(s)
    case ClickReset => ResetProgress(s)
  }
}
