/** Properties of the quiz session: what each transition promises and what runs of them keep. */
module SessionProps {

  import opened Common
  import opened Quiz
  import opened Storage
  import opened Session
  import Shuffle

  /** Facts every reachable session state keeps. */
  ghost predicate Inv(s: State)
  {
    && s.hintsUsed <= HintsPerQuestion
    && 0 <= s.timeRemaining <= QuestionTimeLimit
    && (s.timerRunning ==> s.timeRemaining >= 1)
    && (s.active ==> !s.polling && s.current.Some?)
    && (s.current.Some? ==> multiset(s.buttons) == multiset(s.current.value.answers))
    && (s.selected.Some? ==> s.selected.value < |s.buttons|)
  }

  /** The events that can move the cursor backwards or rewrite the log. */
  predicate Rewinds(e: Event)
  {
    e.PlayerReady? || e.ClickReset?
  }

  function Run(s: State, events: seq<Event>): State
    decreases |events|
  {
    if |events| == 0 then s else Run(Next(s, events[0]), events[1..])
  }

  // ---------------------------------------------------------------------------
  // The invariant

  lemma InitialInv(saved: Progress, questions: seq<Question>)
    ensures Inv(Initial(saved))
    ensures Inv(StartSession(Initial(saved), questions))
  {
  }

  lemma DisplayInv(s: State, q: Question, draws: seq<nat>)
    requires s.active ==> !s.polling
    ensures Inv(Display(s, q, draws))
  {
    Shuffle.ShuffledPermutes(q.answers, draws);
  }

  lemma ShowHintInv(s: State)
    requires Inv(s)
    ensures Inv(ShowHint(s))
  {
  }

  lemma PollTickInv(s: State, time: Option<real>, draws: seq<nat>)
    requires Inv(s)
    ensures Inv(PollTick(s, time, draws))
  {
    if s.polling && time.Some? && s.cursor < |s.questions| && !s.active
       && time.value >= s.questions[s.cursor].time as real {
      DisplayInv(s.(paused := true, active := true, polling := false), s.questions[s.cursor], draws);
    }
  }

  lemma TickInv(s: State)
    requires Inv(s) && s.timerRunning && s.timeRemaining > 1
    ensures Inv(s.(timeRemaining := s.timeRemaining - 1))
  {
  }

  lemma TimeUpInv(s: State)
    requires Inv(s) && s.timerRunning && s.timeRemaining <= 1
    ensures Inv(HandleTimeUp(s.(timeRemaining := s.timeRemaining - 1).(timerRunning := false)))
  {
    ShowHintInv(s.(timeRemaining := s.timeRemaining - 1).(timerRunning := false).(feedback := TimeUpNotice));
  }

  lemma CountdownInv(s: State)
    requires Inv(s)
    ensures Inv(CountdownTick(s))
  {
    if s.timerRunning {
      if s.timeRemaining <= 1 {
        TimeUpInv(s);
      } else {
        TickInv(s);
      }
    }
  }

  lemma SubmitInv(s: State)
    requires Inv(s)
    ensures Inv(Submit(s))
  {
    if s.selected.Some? && s.current.Some? && s.selected.value < |s.current.value.answers| {
      var q := s.current.value;
      if HasCorrect(q.answers) {
        SubmitStep(s);
        var r := Submit(s);
        assert r == s.(log := r.log, saved := r.saved, feedback := r.feedback, pendingAdvances := r.pendingAdvances);
      }
    }
  }

  lemma ResumeInv(s: State)
    requires Inv(s)
    ensures Inv(ResumeAfterLoad(s))
  {
    if s.cursor >= |s.questions| && |s.questions| > 0 {
      assert ResumeAfterLoad(s) == ShowReview(s);
    } else if s.cursor > 0 {
      var seek := if s.cursor - 1 < |s.questions| then s.questions[s.cursor - 1].time else 0;
      assert ResumeAfterLoad(s) == s.(seek := Some(seek), paused := true);
    } else {
      assert ResumeAfterLoad(s) == s.(paused := true);
    }
  }

  lemma ResetInv(s: State)
    requires Inv(s)
    ensures Inv(ResetProgress(s))
  {
  }

  lemma PausedInv(s: State)
    requires Inv(s)
    ensures Inv(s.(paused := true))
  {
  }

  lemma LoadInv(s: State)
    requires Inv(s)
    ensures Inv(LoadProgress(s).(paused := true))
  {
    LoadProgressInv(s);
    PausedInv(LoadProgress(s));
  }

  lemma LoadProgressInv(s: State)
    requires Inv(s)
    ensures Inv(LoadProgress(s))
  {
    var withIndex := if s.saved.index.Some? then s.(cursor := s.saved.index.value) else s;
    assert Inv(withIndex);
    if s.saved.answers.None? || IsEmptyText(s.saved.answers.value) {
      ResumeInv(withIndex);
    } else {
      match Parse(s.saved.answers.value) {
        case Some(log) => ResumeInv(withIndex.(log := log));
        case None => ResetInv(withIndex);
      }
    }
  }

  lemma AdvanceInv(s: State)
    requires Inv(s)
    ensures Inv(AdvanceTimeout(s))
  {
  }

  lemma NextInv(s: State, e: Event)
    requires Inv(s)
    ensures Inv(Next(s, e))
  {
    match e
    case Poll(time, draws) => PollTickInv(s, time, draws);
    case Countdown => CountdownInv(s);
    case ClickSubmit => SubmitInv(s);
    case PlayerReady => LoadInv(s);
    case AdvanceFires => AdvanceInv(s);
    case _ =>
  }

  lemma {:induction false} RunInv(s: State, events: seq<Event>)
    requires Inv(s)
    ensures Inv(Run(s, events))
    decreases |events|
  {
    if |events| > 0 {
      NextInv(s, events[0]);
      RunInv(Next(s, events[0]), events[1..]);
    }
  }

  // ---------------------------------------------------------------------------
  // Timing monitor

  /** The threshold-crossing rule of the 500 ms poll. */
  predicate Crosses(s: State, t: real)
  {
    s.polling && !s.active && s.cursor < |s.questions| && t >= s.questions[s.cursor].time as real
  }

  /**
   * A poll tick opens the next unanswered question exactly when the poll is live,
   * no question is open, the cursor is in range and playback has reached the
   * question's time; it then pauses, stops polling and shows questions[cursor].
   * Otherwise nothing changes.
   */
  lemma PollTickActivation(s: State, t: real, draws: seq<nat>)
    ensures var r := Next(s, Poll(Some(t), draws));
      && (Crosses(s, t) ==>
            && r.active && r.paused && !r.polling
            && r.current == Some(s.questions[s.cursor])
            && r.cursor == s.cursor && r.log == s.log && r.score == s.score
            && r.hintsUsed == 0 && r.timeRemaining == QuestionTimeLimit && r.timerRunning
            && r.selected.None?)
      && (!Crosses(s, t) ==> r == s)
  {
  }

  /** Without a playback position the tick is skipped. */
  lemma PollWithoutTime(s: State, draws: seq<nat>)
    ensures Next(s, Poll(None, draws)) == s
  {
  }

  /** While a question is open, neither poll ticks nor PLAYING notifications change anything. */
  lemma OpenQuestionIgnoresPlayback(s: State, time: Option<real>, draws: seq<nat>)
    requires s.active
    ensures Next(s, Poll(time, draws)) == s
    ensures Next(s, PlayerPlaying) == s
  {
  }

  /** A PLAYING notification with no open question (re)arms the poll and changes nothing else. */
  lemma PlayingArmsPoll(s: State)
    requires !s.active
    ensures Next(s, PlayerPlaying) == s.(polling := true)
  {
  }

  // ---------------------------------------------------------------------------
  // Display

  /**
   * Display lays out a permutation of the question's answers (the answers
   * themselves when randomize is off) and keeps the unshuffled question as the
   * current one; hints, feedback and the countdown start afresh.
   */
  lemma DisplayLaysOutCopy(s: State, q: Question, draws: seq<nat>)
    ensures var r := Display(s, q, draws);
      && r.current == Some(q)
      && |r.buttons| == |q.answers| && multiset(r.buttons) == multiset(q.answers)
      && (!q.randomize ==> r.buttons == q.answers)
      && r.hintsUsed == 0 && r.hint == HintHidden && r.feedback == NoFeedback
      && r.timeRemaining == QuestionTimeLimit && r.timerRunning && r.selected.None?
      && r.cursor == s.cursor && r.log == s.log && r.questions == s.questions
  {
    Shuffle.ShuffledPermutes(q.answers, draws);
  }

  // ---------------------------------------------------------------------------
  // Hints

  /** What the k-th reveal (0-based) shows for q. */
  function HintFor(q: Question, k: nat): HintDisplay
  {
    if k < |q.hints| && q.hints[k] != "" then HintShown(q.hints[k]) else NoMoreHints
  }

  function HintCalls(s: State, n: nat): State
  {
    if n == 0 then s else ShowHint(HintCalls(s, n - 1))
  }

  /** One reveal: a no-op without a question or at the ceiling, else exactly one more hint. */
  lemma ShowHintStep(s: State)
    ensures var r := ShowHint(s);
      && (s.current.None? || s.hintsUsed >= HintsPerQuestion ==> r == s)
      && (s.current.Some? && s.hintsUsed < HintsPerQuestion ==>
            r == s.(hintsUsed := s.hintsUsed + 1, hint := HintFor(s.current.value, s.hintsUsed)))
  {
  }

  /**
   * The hint ceiling: n reveals on a freshly displayed question use min(n, 2)
   * hints, and the one on view is the last one revealed.
   */
  lemma {:induction false} HintCeiling(s: State, q: Question, draws: seq<nat>, n: nat)
    ensures var r := HintCalls(Display(s, q, draws), n);
      && r.hintsUsed == Min(n, HintsPerQuestion)
      && (n == 0 ==> r.hint == HintHidden)
      && (n > 0 ==> r.hint == HintFor(q, Min(n, HintsPerQuestion) - 1))
      && r.current == Some(q)
  {
    if n > 0 {
      HintCeiling(s, q, draws, n - 1);
    }
  }

  /**
   * The scenario of a two-hint question: three reveals give two hints, the
   * third is a no-op, and the second hint stays on view (the no-more-hints text
   * only when it is empty).
   */
  lemma ThreeRevealsOnTwoHints(s: State, q: Question, draws: seq<nat>)
    requires |q.hints| == 2
    ensures HintCalls(Display(s, q, draws), 3).hintsUsed == 2
    ensures HintCalls(Display(s, q, draws), 3) == HintCalls(Display(s, q, draws), 2)
    ensures HintCalls(Display(s, q, draws), 3).hint
         == if q.hints[1] != "" then HintShown(q.hints[1]) else NoMoreHints
  {
    HintCeiling(s, q, draws, 2);
  }

  // ---------------------------------------------------------------------------
  // Countdown

  function Ticks(s: State, k: nat): State
  {
    if k == 0 then s else CountdownTick(Ticks(s, k - 1))
  }

  /** One countdown tick: a no-op when stopped, one second less above 1, time-up at 1 or below. */
  lemma CountdownStep(s: State)
    ensures !s.timerRunning ==> CountdownTick(s) == s
    ensures s.timerRunning && s.timeRemaining > 1 ==> CountdownTick(s) == s.(timeRemaining := s.timeRemaining - 1)
    ensures s.timerRunning && s.timeRemaining <= 1 ==>
      CountdownTick(s) == HandleTimeUp(s.(timeRemaining := s.timeRemaining - 1, timerRunning := false))
  {
  }

  /** The time-up handler posts its notice and leaves the countdown as it finds it. */
  lemma TimeUpKeepsCountdown(s: State)
    ensures var r := HandleTimeUp(s);
      r.timerRunning == s.timerRunning && r.timeRemaining == s.timeRemaining && r.feedback == TimeUpNotice
  {
  }

  /**
   * A running countdown at T seconds drops by one per tick for T - 1 ticks; the
   * T-th tick stops it at 0, posts the time-up notice and reveals a hint under
   * the shared ceiling; later ticks change nothing. The question stays open.
   */
  lemma {:induction false} CountdownRun(s: State, k: nat)
    requires s.timerRunning && s.timeRemaining >= 1
    ensures var T := s.timeRemaining; var r := Ticks(s, k);
      && (k < T ==> r == s.(timeRemaining := T - k))
      && (k >= T ==>
            && !r.timerRunning && r.timeRemaining == 0 && r.feedback == TimeUpNotice
            && r == HandleTimeUp(s.(timeRemaining := 0, timerRunning := false)))
  {
    var T := s.timeRemaining;
    var done := HandleTimeUp(s.(timeRemaining := 0, timerRunning := false));
    TimeUpKeepsCountdown(s.(timeRemaining := 0, timerRunning := false));
    if k > 0 {
      var prev := Ticks(s, k - 1);
      CountdownRun(s, k - 1);
      CountdownStep(prev);
      if k < T {
        assert prev == s.(timeRemaining := T - k + 1);
      } else if k == T {
        assert prev.(timeRemaining := prev.timeRemaining - 1, timerRunning := false)
            == s.(timeRemaining := 0, timerRunning := false);
      } else {
        assert prev == done;
      }
    }
  }

  /** Thirty ticks after a question opens its time is up and one hint is on view. */
  lemma DisplayedQuestionTimesOut(s: State, q: Question, draws: seq<nat>)
    requires Inv(s)
    ensures var r := Ticks(Display(s, q, draws), QuestionTimeLimit);
      && !r.timerRunning && r.timeRemaining == 0 && r.feedback == TimeUpNotice
      && r.hintsUsed == 1 && r.hint == HintFor(q, 0)
      && r.current == Some(q) && r.active == s.active
  {
    var d := Display(s, q, draws);
    DisplayInv(s, q, draws);
    CountdownRun(d, QuestionTimeLimit);
  }

  // ---------------------------------------------------------------------------
  // Submitting an answer

  /**
   * A click on a button marks that one alone as selected and clears the
   * feedback; the log, the cursor and the countdown are untouched.
   */
  lemma SelectAnswerStep(s: State, button: nat)
    requires button < |s.buttons|
    ensures var r := Next(s, ClickAnswer(button));
      && r.selected == Some(button) && r.feedback == NoFeedback
      && r.buttons == s.buttons && r.log == s.log && r.cursor == s.cursor
      && r.timeRemaining == s.timeRemaining && r.current == s.current
  {
  }

  /** Submitting with nothing selected only sets the prompt. */
  lemma SubmitWithoutSelection(s: State)
    requires s.selected.None?
    ensures Next(s, ClickSubmit) == s.(feedback := SelectPrompt)
  {
  }

  /** A question with no correct answer makes checkAnswer throw before it writes anything. */
  lemma SubmitWithoutCorrectAnswer(s: State)
    requires s.selected.Some? && s.current.Some? && !HasCorrect(s.current.value.answers)
    ensures Next(s, ClickSubmit) == s
  {
  }

  /** The record checkAnswer appends for the answer at position i of q. */
  function RecordFor(q: Question, i: nat): AnswerRecord
    requires i < |q.answers| && HasCorrect(q.answers)
  {
    AnswerRecord(q.text, q.answers[i].text, q.answers[FindCorrect(q.answers).value].text, q.answers[i].correct)
  }

  /** The effect of checkAnswer when the selection indexes the unshuffled answers and one of them is correct. */
  lemma SubmitStep(s: State)
    requires s.selected.Some? && s.current.Some? && HasCorrect(s.current.value.answers)
    requires s.selected.value < |s.current.value.answers|
    ensures var q := s.current.value; var i := s.selected.value; var r := Submit(s);
      && r.log == s.log + [RecordFor(q, i)]
      && r.saved.index == Some(s.cursor) && r.saved.answers == Some(Encoded(r.log))
      && r.saved.score == s.saved.score
      && r.cursor == s.cursor && r.active == s.active && r.score == s.score && r.selected == s.selected
      && r.questions == s.questions && r.review == s.review
      && r.timerRunning == s.timerRunning && r.timeRemaining == s.timeRemaining
      && r.pendingAdvances == s.pendingAdvances + (if q.answers[i].correct then 1 else 0)
      && r.feedback == (if q.answers[i].correct then CorrectFeedback else IncorrectFeedback)
  {
  }

  /**
   * Submitting a selection appends exactly one record: the question, the answer
   * at the selected position of the unshuffled list, the first correct answer's
   * text and whether the selected one is correct. The progress is saved with the
   * cursor as it is now; the cursor, the open-question flag, the countdown and
   * the score are untouched, and only a correct answer schedules the advance.
   * The selected position always indexes the unshuffled list, because the
   * buttons are a permutation of it.
   */
  lemma SubmitRecordsAnswer(s: State)
    requires Inv(s) && s.selected.Some? && s.current.Some? && HasCorrect(s.current.value.answers)
    ensures var q := s.current.value; var i := s.selected.value; var r := Next(s, ClickSubmit);
      && i < |q.answers|
      && r.log == s.log + [RecordFor(q, i)]
      && r.saved.index == Some(s.cursor) && r.saved.answers == Some(Encoded(r.log))
      && r.saved.score == s.saved.score
      && r.cursor == s.cursor && r.active == s.active && r.score == s.score
      && r.timerRunning == s.timerRunning && r.timeRemaining == s.timeRemaining
      && r.pendingAdvances == s.pendingAdvances + (if q.answers[i].correct then 1 else 0)
      && r.feedback == (if q.answers[i].correct then CorrectFeedback else IncorrectFeedback)
  {
    assert |s.buttons| == |s.current.value.answers| by {
      assert |multiset(s.buttons)| == |multiset(s.current.value.answers)|;
    }
    SubmitStep(s);
  }

  /** The question state a selection is submitted from: valid selection, a correct answer exists. */
  ghost predicate ReadyToSubmit(s: State)
  {
    s.selected.Some? && s.current.Some? && HasCorrect(s.current.value.answers)
    && s.selected.value < |s.current.value.answers| && s.pendingAdvances == 0
  }

  /**
   * The 1500 ms callback: with nothing pending it is a no-op; otherwise the
   * cursor moves on, the question closes, and either polling resumes with the
   * video playing or, past the last question, the review opens.
   */
  lemma AdvanceStep(s: State)
    ensures s.pendingAdvances == 0 ==> AdvanceTimeout(s) == s
    ensures var r := AdvanceTimeout(s);
      s.pendingAdvances > 0 ==>
        && r.cursor == s.cursor + 1 && !r.active && r.pendingAdvances == s.pendingAdvances - 1
        && r.log == s.log && r.saved == s.saved && r.questions == s.questions
        && (r.cursor < |r.questions| ==> r.polling && !r.paused && r.review == s.review)
        && (r.cursor >= |r.questions| ==> r.review == Some(BuildReview(r.log, |r.questions|)) && r.paused)
  {
  }

  /**
   * A correct answer, once the 1500 ms delay has passed: the cursor moves on by
   * one, the question closes and either polling resumes with the video playing
   * or, after the last question, the review opens. The saved index is the
   * cursor from before the advance.
   */
  lemma CorrectAnswerAdvances(s: State)
    requires ReadyToSubmit(s) && s.current.value.answers[s.selected.value].correct
    ensures var r := Next(Next(s, ClickSubmit), AdvanceFires);
      && r.cursor == s.cursor + 1 && !r.active && r.pendingAdvances == 0
      && |r.log| == |s.log| + 1 && r.saved.index == Some(r.cursor - 1)
      && (r.cursor < |r.questions| ==> r.polling && !r.paused && r.review == s.review)
      && (r.cursor >= |r.questions| ==> r.review == Some(BuildReview(r.log, |r.questions|)) && r.paused)
  {
    var r1 := Submit(s);
    SubmitStep(s);
    AdvanceStep(r1);
  }

  /**
   * A wrong answer is logged and saved but nothing advances, so the log can run
   * ahead of the cursor: a log as long as the cursor becomes one longer.
   */
  lemma WrongAnswerStays(s: State)
    requires ReadyToSubmit(s) && !s.current.value.answers[s.selected.value].correct
    ensures var r := Next(Next(s, ClickSubmit), AdvanceFires);
      && r.cursor == s.cursor && r.active == s.active && r.selected == s.selected
      && |r.log| == |s.log| + 1 && r.feedback == IncorrectFeedback
      && (|s.log| == s.cursor ==> |r.log| == r.cursor + 1)
  {
    var r1 := Submit(s);
    SubmitStep(s);
    AdvanceStep(r1);
  }

  /**
   * Without shuffling, the button clicked is the answer scored and recorded.
   */
  lemma UnshuffledClickIsScored(s: State, q: Question, draws: seq<nat>, button: nat)
    requires !q.randomize && button < |q.answers| && HasCorrect(q.answers)
    ensures var shown := Display(s, q, draws);
            var r := Submit(SelectAnswer(shown, button));
      && |r.log| == |s.log| + 1
      && r.log[|s.log|].userAnswer == shown.buttons[button].text
      && r.log[|s.log|].isCorrect == shown.buttons[button].correct
  {
  }

  /** The question used by ShuffledClickIsMisscored: the right answer first, shuffled on display. */
  function SwappedQuestion(): Question
  {
    Question("q", 0, [Answer("right", true), Answer("wrong", false)], [], true)
  }

  /**
   * With shuffling, the clicked position is looked up in the unshuffled list:
   * here the draws swap the two answers, the user clicks the correct one, and
   * the record says "wrong", incorrect.
   */
  lemma ShuffledClickIsMisscored()
    ensures var s0 := StartSession(Initial(Progress(None, None, None)), [SwappedQuestion()]);
            var shown := Run(s0, [PlayerPlaying, Poll(Some(0.0), [0, 0])]);
            var r := Run(shown, [ClickAnswer(1), ClickSubmit]);
      && shown.active && shown.buttons[1] == Answer("right", true)
      && r.log == [AnswerRecord("q", "wrong", "right", false)]
  {
    var q := SwappedQuestion();
    var s0 := StartSession(Initial(Progress(None, None, None)), [q]);
    var s1 := Next(s0, PlayerPlaying);
    assert Crosses(s1, 0.0);
    assert Shuffle.Shuffled(q.answers, [0, 0]) == [Answer("wrong", false), Answer("right", true)] by {
      assert Shuffle.Draw([0, 0], 1) == 0;
      assert Shuffle.ShuffleDown(q.answers, [0, 0], 1)
          == Shuffle.ShuffleDown(Shuffle.Swap(q.answers, 1, 0), [0, 0], 0);
    }
    var shown := Run(s0, [PlayerPlaying, Poll(Some(0.0), [0, 0])]);
    assert shown == Next(Next(s0, PlayerPlaying), Poll(Some(0.0), [0, 0]));
    var r := Run(shown, [ClickAnswer(1), ClickSubmit]);
    assert r == Next(Next(shown, ClickAnswer(1)), ClickSubmit);
    assert FindCorrect(q.answers) == Some(0);
  }

  // ---------------------------------------------------------------------------
  // Scoring

  /**
   * updateScore adds 100 + 2 * timeRemaining - 20 * hintsUsed on a correct answer
   * and records it under the score key; with the countdown in 0..30 and at most
   * two hints each addition lies in 60..160. A wrong answer changes nothing.
   */
  lemma ScoreDelta(s: State, isCorrect: bool)
    requires Inv(s)
    ensures var r := UpdateScore(s, isCorrect);
      && (isCorrect ==>
            && r.score - s.score == 100 + 2 * s.timeRemaining - 20 * s.hintsUsed
            && 60 <= r.score - s.score <= 160
            && r.saved.score == Some(ScoreEntry(r.score, s.level))
            && r.cursor == s.cursor && r.log == s.log)
      && (!isCorrect ==> r == s)
  {
  }

  /** 25 seconds left and no hints: 150 points. */
  lemma ScoreScenario(s: State)
    requires s.timeRemaining == 25 && s.hintsUsed == 0
    ensures UpdateScore(s, true).score == s.score + 150
  {
  }

  // ---------------------------------------------------------------------------
  // Reset, review and persistence

  /**
   * resetProgress rewinds the session: cursor 0, empty log, no open question,
   * polling on, video playing from 0, persisted index and log removed. The score
   * (in memory and persisted), the questions and the countdown are kept.
   */
  lemma ResetProgressEffects(s: State)
    ensures var r := Next(s, ClickReset);
      && r.cursor == 0 && r.log == [] && !r.active && r.polling
      && r.seek == Some(0) && !r.paused && r.review.None?
      && r.saved.index.None? && r.saved.answers.None? && r.saved.score == s.saved.score
      && r.score == s.score && r.questions == s.questions
      && r.timerRunning == s.timerRunning && r.pendingAdvances == s.pendingAdvances
  {
  }

  /** The answer records a review shows, in order. */
  function ReviewedEntries(items: seq<ReviewItem>): seq<AnswerRecord>
  {
    if |items| == 0 then []
    else (if items[0].Reviewed? then [items[0].entry] else []) + ReviewedEntries(items[1..])
  }

  lemma {:induction false} ReviewedEntriesOfReviewed(items: seq<ReviewItem>)
    requires forall i :: 0 <= i < |items| ==> items[i].Reviewed?
    ensures |ReviewedEntries(items)| == |items|
    ensures forall i :: 0 <= i < |items| ==> ReviewedEntries(items)[i] == items[i].entry
    decreases |items|
  {
    if |items| > 0 {
      ReviewedEntriesOfReviewed(items[1..]);
    }
  }

  /**
   * The review is never empty: a placeholder when nothing has been answered,
   * otherwise one numbered block per log entry, from which the log is read back.
   */
  lemma ReviewShowsLog(log: seq<AnswerRecord>, questionCount: nat)
    ensures var items := BuildReview(log, questionCount);
      && |items| >= 1
      && (|log| == 0 ==> items == [NoAnswersYet(questionCount)])
      && (|log| > 0 ==> |items| == |log| && forall i :: 0 <= i < |items| ==> items[i].Reviewed? && items[i].number == i + 1)
      && ReviewedEntries(items) == log
  {
    var items := BuildReview(log, questionCount);
    if |log| > 0 {
      ReviewedEntriesOfReviewed(items);
    }
  }

  /** The ENDED event opens the review at once, whatever the cursor. */
  lemma EndedShowsReview(s: State)
    ensures var r := Next(s, PlayerEnded);
      && r.review == Some(BuildReview(s.log, |s.questions|)) && r.paused
      && r.cursor == s.cursor && r.log == s.log && r.active == s.active
  {
  }

  /** Round trip: loading what was just saved restores the cursor and the log. */
  lemma SaveLoadRoundTrip(s: State)
    ensures var r := LoadProgress(SaveProgress(s));
      r.cursor == s.cursor && r.log == s.log
  {
  }

  /** A non-empty answer log that does not parse resets the session instead of restoring it. */
  lemma CorruptLogResets(s: State, text: string)
    requires s.saved.answers == Some(Unparsable(text)) && text != ""
    ensures var r := LoadProgress(s);
      && r.cursor == 0 && r.log == [] && !r.active
      && r.saved.index.None? && r.saved.answers.None?
  {
  }

  /**
   * With an index k and a log saved for a question list longer than k, loading
   * restores both, seeks to question k - 1's time (0 when k is 0, by not seeking)
   * and leaves the video paused; with k at or past the end it opens the review.
   */
  lemma LoadResumes(s: State, k: nat, log: seq<AnswerRecord>)
    requires s.saved.index == Some(k) && s.saved.answers == Some(Encoded(log))
    ensures var r := LoadProgress(s);
      && r.cursor == k && r.log == log && r.paused
      && (0 < k < |s.questions| ==> r.seek == Some(s.questions[k - 1].time) && r.review == s.review)
      && (k == 0 && |s.questions| > 0 ==> r.seek == s.seek && r.review == s.review)
      && (k >= |s.questions| > 0 ==> r.review == Some(BuildReview(log, |s.questions|)))
  {
  }

  /**
   * Because the index is saved before the cursor advances, reloading after the
   * last question was answered correctly asks that question again instead of
   * opening the review, with the log one entry ahead of the cursor.
   */
  lemma ReloadAfterLastAnswer(s: State)
    requires ReadyToSubmit(s) && s.current.value.answers[s.selected.value].correct
    requires |s.questions| > 0 && s.cursor == |s.questions| - 1
    ensures var done := Next(Next(s, ClickSubmit), AdvanceFires);
            var reloaded := Next(StartSession(Initial(done.saved), s.questions), PlayerReady);
      && done.review.Some?
      && reloaded.cursor == |s.questions| - 1 && reloaded.review.None?
      && |reloaded.log| == reloaded.cursor + |s.log| - s.cursor + 1
  {
    var r1 := Submit(s);
    SubmitStep(s);
    AdvanceStep(r1);
    var done := AdvanceTimeout(r1);
    var restarted := StartSession(Initial(done.saved), s.questions);
    LoadResumes(restarted, s.cursor, done.log);
  }

  // ---------------------------------------------------------------------------
  // Runs

  /** The monotonicity facts for one step from s to r. */
  ghost predicate Advances(s: State, r: State)
  {
    && r.cursor >= s.cursor && s.log <= r.log && r.questions == s.questions
    && (s.cursor + s.pendingAdvances <= |s.log| ==> r.cursor + r.pendingAdvances <= |r.log|)
  }

  lemma SubmitAdvances(s: State)
    ensures Advances(s, Submit(s))
  {
    if s.selected.Some? && s.current.Some? && s.selected.value < |s.current.value.answers| {
      var q := s.current.value;
      match FindCorrect(q.answers)
      case None =>
      case Some(c) =>
        var entry := AnswerRecord(q.text, q.answers[s.selected.value].text, q.answers[c].text,
                                  q.answers[s.selected.value].correct);
        assert s.log <= s.log + [entry];
    }
  }

  lemma AdvanceTimeoutAdvances(s: State)
    ensures Advances(s, AdvanceTimeout(s))
  {
  }

  /**
   * Apart from reset and reload, the cursor never goes back, the log only grows
   * at its end, the question list is fixed, and a log at least as long as the
   * cursor plus the scheduled advances stays so.
   */
  lemma NextMonotone(s: State, e: Event)
    requires !Rewinds(e)
    ensures Advances(s, Next(s, e))
  {
    match e
    case ClickSubmit => SubmitAdvances(s);
    case AdvanceFires => AdvanceTimeoutAdvances(s);
    case _ =>
  }

  lemma {:induction false} RunMonotone(s: State, events: seq<Event>)
    requires forall i :: 0 <= i < |events| ==> !Rewinds(events[i])
    ensures Advances(s, Run(s, events))
    decreases |events|
  {
    if |events| > 0 {
      NextMonotone(s, events[0]);
      RunMonotone(Next(s, events[0]), events[1..]);
    }
  }
}
