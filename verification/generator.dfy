/**
 * The pure parts of the question source (questionGenerator.js): the video id
 * check of getVideoInfo, the number of questions requested for a video of a
 * given length, the validation of the returned question object and the
 * spreading of the questions over the video's running time.
 */
module Generator {

  import opened Common
  import opened Quiz
  import VideoUrl

  /** YouTube video ids are 11 characters long. */
  const VideoIdLength: nat := 11

  /** One question per started minute, but never fewer than this. */
  const MinQuestions: nat := 5

  /** No question is placed in the last half minute of the video. */
  const EndMargin: int := 30

  datatype GenerationError = InvalidVideoId | InvalidQuestionFormat

  /** The placeholder details getVideoInfo returns instead of asking the video API. */
  datatype VideoInfo = VideoInfo(title: string, description: string, duration: nat)

  /** getVideoInfo: an empty id or one that is not 11 characters long is rejected. */
  function GetVideoInfo(videoId: string): (r: Result<VideoInfo, GenerationError>)
    ensures r.Ok? <==> |videoId| == VideoIdLength
    ensures r.Err? ==> r.error == InvalidVideoId
    ensures r.Ok? ==> r.value == VideoInfo("", "", 0)
  {
    if |videoId| == 0 || |videoId| != VideoIdLength then Err(InvalidVideoId)
    else Ok(VideoInfo("", "", 0))
  }

  /** Every id that the URL extraction yields passes the id check. */
  lemma ExtractedIdsAreAccepted(url: string)
    requires VideoUrl.ExtractVideoId(url).Some?
    ensures GetVideoInfo(VideoUrl.ExtractVideoId(url).value).Ok?
  {
  }

  /** `Math.ceil(duration / 60)` for a non-negative whole number of seconds. */
  function Minutes(duration: nat): (m: nat)
    ensures m * 60 >= duration
    ensures m == 0 || (m - 1) * 60 < duration
  {
    (duration + 59) / 60
  }

  /** The number of questions generateQuestions asks for: `Math.max(5, minutes)`. */
  function QuestionCount(duration: nat): (n: nat)
    ensures n >= MinQuestions
    ensures n * 60 >= duration
    ensures n == MinQuestions || (n - 1) * 60 < duration
  {
    Max(MinQuestions, Minutes(duration))
  }

  /** `Math.floor(duration / minutes)`: the spacing between consecutive questions. */
  function Interval(duration: nat): (i: nat)
    requires duration > 0
    ensures i >= 1
    ensures i * Minutes(duration) <= duration < (i + 1) * Minutes(duration)
  {
    var m := Minutes(duration);
    assert (m - 1) * 60 >= m - 1 >= 0;
    assert m <= duration;
    var i := duration / m;
    assert i * m <= duration < (i + 1) * m;
    i
  }

  /** The playback offset of the question at `index`: one interval per position, kept out of the last 30 seconds. */
  function SlotTime(duration: nat, index: nat): int
    requires duration > 0
  {
    Min(Interval(duration) * (index + 1), duration - EndMargin)
  }

  /**
   * distributeQuestions: each question keeps every field but `time`, which
   * becomes its slot. The source has no guard for a zero duration; there the
   * interval is 0/0 and every time is NaN, which this model does not represent.
   */
  function DistributeQuestions(qs: seq<Question>, duration: nat): (r: seq<Question>)
    requires duration > 0
    ensures |r| == |qs|
    ensures forall i :: 0 <= i < |r| ==> r[i].(time := qs[i].time) == qs[i]
    ensures forall i :: 0 <= i < |r| ==> r[i].time <= duration - EndMargin
    ensures forall i :: 0 <= i < |r| ==> r[i].time == SlotTime(duration, i)
  {
    seq(|qs|, i requires 0 <= i < |qs| => qs[i].(time := SlotTime(duration, i)))
  }

  lemma ScaleMonotone(k: nat, a: nat, b: nat)
    requires a <= b
    ensures k * a <= k * b
  {
    assert k * b - k * a == k * (b - a);
  }

  /** Slots never move backwards: a later question is never scheduled before an earlier one. */
  lemma SlotsAreOrdered(duration: nat, i: nat, j: nat)
    requires duration > 0 && i <= j
    ensures SlotTime(duration, i) <= SlotTime(duration, j)
  {
    ScaleMonotone(Interval(duration), i + 1, j + 1);
  }

  /** The distributed questions appear in the order of the list. */
  lemma DistributedTimesAreOrdered(qs: seq<Question>, duration: nat)
    requires duration > 0
    ensures var r := DistributeQuestions(qs, duration);
            forall i, j :: 0 <= i <= j < |r| ==> r[i].time <= r[j].time
  {
    var r := DistributeQuestions(qs, duration);
    forall i, j | 0 <= i <= j < |r|
      ensures r[i].time <= r[j].time
    {
      SlotsAreOrdered(duration, i, j);
    }
  }

  /**
   * One question per started minute fits inside the video: the slot of each of
   * the first `Minutes(duration)` questions is at most the duration, and it is
   * a whole number of intervals unless the end margin cuts it.
   */
  lemma SlotsWithinVideo(duration: nat, index: nat)
    requires duration > 0 && index < Minutes(duration)
    ensures 0 < Interval(duration) * (index + 1) <= duration
  {
    var k := Interval(duration);
    ScaleMonotone(k, index + 1, Minutes(duration));
    ScaleMonotone(index + 1, 1, k);
  }

  /** A 70-second video with two questions: one every 35 seconds, the second held back to 40. */
  lemma SeventySecondVideo(a: Question, b: Question)
    ensures var r := DistributeQuestions([a, b], 70); r[0].time == 35 && r[1].time == 40
  {
    assert Minutes(70) == 2;
    assert Interval(70) == 35;
  }

  /** The `questions` field of the parsed reply, as the validation sees it. */
  datatype QuestionsField =
    | Absent          // missing or otherwise falsy
    | NotArray        // present but not an array
    | Items(items: seq<Question>)

  /**
   * The end of generateQuestions: a reply whose `questions` field is not an array
   * is rejected; otherwise the questions are distributed over the video.
   */
  function PrepareQuestions(field: QuestionsField, duration: nat): (r: Result<QuestionSet, GenerationError>)
    requires duration > 0
    ensures r.Err? <==> !field.Items?
    ensures r.Err? ==> r.error == InvalidQuestionFormat
    ensures r.Ok? ==> |r.value.questions| == |field.items|
    ensures r.Ok? ==> forall i :: 0 <= i < |field.items| ==>
              r.value.questions[i].(time := field.items[i].time) == field.items[i]
  {
    match field
    case Items(items) => Ok(QuestionSet(DistributeQuestions(items, duration)))
    case _ => Err(InvalidQuestionFormat)
  }
}
