/** The question data the quiz works on (the JSON shape the question source produces). */
module Quiz {

  import opened Common

  /** QUESTION_TIME_LIMIT: seconds on the countdown when a question opens. */
  const QuestionTimeLimit: int := 30

  /** HINTS_PER_QUESTION: the hint ceiling shared by manual and time-up reveals. */
  const HintsPerQuestion: nat := 2

  datatype Answer = Answer(text: string, correct: bool)

  /** A timed multiple-choice question; `time` is the playback offset in seconds. */
  datatype Question = Question(
    text: string,
    time: int,
    answers: seq<Answer>,
    hints: seq<string>,
    randomize: bool)

  /** One entry of the answer log kept for the review section. */
  datatype AnswerRecord = AnswerRecord(
    question: string,
    userAnswer: string,
    correctAnswer: string,
    isCorrect: bool)

  /** The object stored and returned by the question source: `{ questions: [...] }`. */
  datatype QuestionSet = QuestionSet(questions: seq<Question>)

  predicate HasCorrect(answers: seq<Answer>)
  {
    exists i :: 0 <= i < |answers| && answers[i].correct
  }

  /** `answers.find(a => a.correct)`, as an index: the first correct answer, or None. */
  function FindCorrect(answers: seq<Answer>): (r: Option<nat>)
    ensures r.Some? <==> HasCorrect(answers)
    ensures r.Some? ==> r.value < |answers| && answers[r.value].correct
    ensures r.Some? ==> forall i :: 0 <= i < r.value ==> !answers[i].correct
  {
    if |answers| == 0 then None
    else if answers[0].correct then Some(0)
    else
      match FindCorrect(answers[1..])
      case None =>
        assert forall i :: 1 <= i < |answers| ==> answers[i] == answers[1..][i - 1];
        None
      case Some(k) =>
        assert answers[k + 1] == answers[1..][k];
        assert forall i :: 1 <= i < k + 1 ==> answers[i] == answers[1..][i - 1];
        Some(k + 1)
  }
}
