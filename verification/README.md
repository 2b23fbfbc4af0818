# Interactive video quiz — a Dafny model of its core

This project models the core of an interactive YouTube quiz. A list of timed
multiple-choice questions is attached to a video. A 500 ms poll watches the
playback position, and when the position reaches the next question's time it
pauses the video and shows that question. Each question has:

- a 30-second countdown;
- up to two hints;
- answers that may be shuffled on display.

Each submitted answer is logged for a review section. The progress (the
question index and the answer log) is kept in the browser's key-value store,
and so are the generated question sets, cached per video.

The model covers two files:

- **`script.js`**: the session state machine, the Fisher–Yates shuffle, hints,
  the countdown, scoring, progress persistence, the review and the
  video-URL parsing.
- **`questionGenerator.js`**: the pure parts of the question source. These are
  the video-id check, the number of questions per video length, the
  duration decoding, the validation of the generated reply, the spreading of
  questions over the video, and the question cache.

The modules are:

| module | file | contents |
|---|---|---|
| `Common` | common.dfy | `Option`, `Result`, `Min`, `Max` |
| `Quiz` | quiz.dfy | questions, answers, answer records, the two constants, the first-correct-answer lookup |
| `Shuffle` | shuffle.dfy | `shuffleArray`, with `Math.random` replaced by a sequence of draws |
| `Storage` | storage.dfy | JSON slots (encoded value or unparsable text) and the per-video question cache |
| `Session` | session.dfy | the quiz session as one immutable `State` record, one pure transition per source function, and an `Event`/`Next` dispatch |
| `SessionProps` | session_props.dfy | the session invariant and the properties of the transitions and of event runs |
| `VideoUrl` | video_url.dfy | `extractVideoId`, as the regular expression defines it |
| `Duration` | duration.dfy | the ISO 8601 time-part decoding of `getVideoDuration` and its round trip |
| `Generator` | generator.dfy | the id check, the question count, `distributeQuestions`, the reply validation |

## How time and the outside world appear

- **Timers.** The three timers become events:
  - the 500 ms position poll is `Poll`;
  - the 1 s countdown is `Countdown`;
  - the 1500 ms advance after a correct answer is `AdvanceFires`.

  A state field says whether each timer is live. For the advance timer, a
  counter holds the callbacks not yet fired.
- **The player.** The player's current time is an input of `Poll`. It is
  `None` when the player cannot report one. The player's play, pause and
  seek commands are recorded as the `paused` and `seek` fields.
- **Randomness.** The shuffle's random numbers are an input sequence of draws.
  The step at position `i` swaps with `draws[i] % (i + 1)`, which ranges over
  exactly the indices `Math.floor(Math.random() * (i + 1))` can produce.
- **Storage and JSON.** The key-value store is a record (session progress) or a
  map (question cache). Each stored value is either the encoding of a value,
  which `JSON.parse` reads back unchanged, or text that `JSON.parse` rejects.
- **Source errors.** A TypeError the source would throw becomes "no change":
  - reading an answer position that does not exist;
  - a question without a correct answer.

  In both cases the source writes nothing before it throws.

## Where the code departs from its own stated intent

The model follows the code, including where the code does not do what it says
it does. The comment on each answer button (script.js line 199) says the index
it carries is the original answer index, used for checking; after shuffling it
is the display position. `updateScore` (script.js line 687) is defined but
never called. In detail:

- **No scoring on submit.** `checkAnswer` never calls `updateScore`; nothing
  in the file does. Submitting changes the log and the saved progress, not
  the score. `updateScore` is modelled on its own (`Session.UpdateScore`).
- **The countdown keeps running.** A correct answer does not stop the
  countdown. A time-up can still fire while the 1500 ms advance is pending.
- **The saved index lags the cursor.** `saveProgress` runs before the cursor is
  incremented. Reloading after the last question was answered correctly
  therefore asks that question again instead of opening the review
  (`SessionProps.ReloadAfterLastAnswer`).
- **Wrong answers are logged too.** The answer log gets an entry for every
  submit, and nothing advances after a wrong answer. The log can therefore
  be longer than the number of questions passed (`SessionProps.WrongAnswerStays`).
- **Shuffled answers are scored against the wrong list.** With shuffling on,
  the clicked button's position is looked up in the unshuffled answer list,
  so the answer recorded and scored is not always the one clicked
  (`SessionProps.ShuffledClickIsMisscored`). Without shuffling they agree
  (`SessionProps.UnshuffledClickIsScored`).
- **Video ids are not validated.** `extractVideoId` accepts any 11
  characters other than `#`, `&` and `?` after the rightmost marker that `.*`
  can reach. `getVideoInfo` checks only the length.

## Model

| member | source | states |
|---|---|---|
| Quiz.FindCorrect | script.js:250 | `answers.find(a => a.correct)`: present exactly when some answer is correct, and then the first correct one |
| Shuffle.Draw | script.js:54 | the partner index of step i never exceeds i |
| Shuffle.Swap | script.js:55 | the destructuring swap exchanges positions i and j and keeps every other element |
| Shuffle.ShuffleArray | script.js:52-58 | the descending Fisher–Yates loop returns a permutation of its input (same length, same multiset) and agrees with the recursive definition `Shuffled` |
| Shuffle.ShuffleDown | script.js:53-56 | the loop from position i down to 1 keeps the length; it permutes (Shuffle.ShuffleDownPermutes) and does nothing when every draw picks its own position (Shuffle.ShuffleDownIdentity) |
| Shuffle.Shuffled | script.js:52-58 | the whole shuffle keeps the length; it is a permutation (Shuffle.ShuffledPermutes) and the identity without draws (Shuffle.ShuffleWithoutDraws) |
| Shuffle.SwapPermutes | script.js:55 | one swap keeps the multiset of elements |
| Shuffle.ShuffleDownPermutes | script.js:53-56 | the loop from position i down to 1 keeps the multiset |
| Shuffle.ShuffledPermutes | script.js:52-58 | the shuffle is a permutation of its input |
| Shuffle.ShuffleDownIdentity | script.js:53-56 | when every draw picks its own position, no element moves |
| Shuffle.ShuffleWithoutDraws | script.js:52-58 | with no random draws (every step picks j = i) the array comes back unchanged |
| Shuffle.ShuffledSameElements | script.js:52-58 | an element is in the shuffled array exactly when it is in the input |
| Storage.Parse | questionGenerator.js:271 | `JSON.parse` gives a value exactly for encoded text, and that value is the one that was encoded; both the question cache and the progress load go through it |
| Storage.SaveQuestions | questionGenerator.js:255-261 | saving adds the key `questions_<id>` and leaves every other key's value unchanged |
| Storage.LoadQuestions | questionGenerator.js:268-276 | loading gives a set exactly when the key is present and holds an encoded set, and then that set; absent, empty or unparsable text gives null |
| Storage.CacheKey | questionGenerator.js:257 | the key `questions_<id>`; distinct ids give distinct keys (Storage.CacheKeyInjective) |
| Storage.CacheKeyInjective | questionGenerator.js:255-271 | two different video ids never share a cache key |
| Storage.LoadAfterSave | questionGenerator.js:255-276 | round trip: loading right after saving returns the saved set |
| Storage.SaveKeepsOtherVideos | questionGenerator.js:255-276 | saving one video's questions does not change what any other video loads |
| Storage.CachedOrGenerated | script.js:465-470 | setupVideo uses the cached set when loading succeeds, unchanged cache; otherwise the generated set, which is then cached so that it loads back |
| Storage.SecondSetupReusesQuestions | script.js:465-470 | a second setup of the same video gets the first setup's questions and leaves the cache alone, whatever is generated the second time |
| Session.Initial | script.js:24-36 | the declared globals; they satisfy the session invariant (SessionProps.InitialInv) |
| Session.StartSession | script.js:472-476 | setupVideo's reset of cursor, log and score for the loaded questions; it keeps the invariant (SessionProps.InitialInv) |
| Session.StartPolling | script.js:144-166 | checkQuestionTiming arms the poll unless a question is open (SessionProps.PlayingArmsPoll, SessionProps.OpenQuestionIgnoresPlayback) |
| Session.StartTimer | script.js:635-648 | a fresh running countdown of 30 s, which then runs down as SessionProps.CountdownRun states |
| Session.Display | script.js:174-210 | the question's behaviour on display as SessionProps.DisplayLaysOutCopy states: shuffled copy as buttons, fresh hints, feedback and countdown |
| Session.PollTick | script.js:153-165 | the poll's threshold rule, both directions, as SessionProps.PollTickActivation and SessionProps.PollWithoutTime state |
| Session.SelectAnswer | script.js:216-229 | marking the clicked button, as SessionProps.SelectAnswerStep states |
| Session.SaveProgress | script.js:302-310 | writes the cursor and the encoded log, which loadProgress restores (SessionProps.SaveLoadRoundTrip) |
| Session.Submit | script.js:234-280 | checkAnswer's prompt, error and record paths as SessionProps.SubmitWithoutSelection, SessionProps.SubmitWithoutCorrectAnswer and SessionProps.SubmitStep state |
| Session.BuildReview | script.js:381-402 | the review blocks, from which the log reads back (SessionProps.ReviewShowsLog) |
| Session.ShowReview | script.js:374-406 | shows the review of the current log and pauses (SessionProps.EndedShowsReview) |
| Session.AdvanceTimeout | script.js:262-273 | the 1500 ms callback as SessionProps.AdvanceStep states |
| Session.ShowHint | script.js:673-682 | one reveal under the two-hint ceiling (SessionProps.ShowHintStep, SessionProps.HintCeiling) |
| Session.HandleTimeUp | script.js:664-668 | the time-up notice plus one reveal, countdown untouched (SessionProps.TimeUpKeepsCountdown) |
| Session.CountdownTick | script.js:639-647 | one countdown firing, as SessionProps.CountdownStep and SessionProps.CountdownRun state |
| Session.UpdateScore | script.js:687-709 | the score formula and the saved score entry, as SessionProps.ScoreDelta states |
| Session.ResetProgress | script.js:353-366 | the rewind as SessionProps.ResetProgressEffects states |
| Session.LoadProgress | script.js:315-348 | restores index and log or resets on a corrupt log, as SessionProps.LoadResumes, SessionProps.CorruptLogResets and SessionProps.SaveLoadRoundTrip state |
| Session.ResumeAfterLoad | script.js:329-342 | review when every question is done, otherwise seek to the last answered question and pause (SessionProps.LoadResumes) |
| Session.Next | script.js:129-138 | dispatches each event to its handler; every event keeps the invariant (SessionProps.NextInv) and all but reset and reload are monotone (SessionProps.NextMonotone) |
| SessionProps.InitialInv | script.js:24-36 | the declared start state, and the state after setupVideo's reset, satisfy the session invariant |
| SessionProps.DisplayInv | script.js:174-210 | displaying a question establishes the invariant: buttons a permutation of the answers, full countdown, no hints used, no selection |
| SessionProps.ShowHintInv | script.js:673-682 | a hint reveal keeps the invariant (at most two hints) |
| SessionProps.PollTickInv | script.js:144-166 | a poll tick keeps the invariant |
| SessionProps.TickInv | script.js:640 | a countdown tick above 1 keeps the invariant |
| SessionProps.TimeUpInv | script.js:640-646 | the last tick, which stops the countdown and runs handleTimeUp, keeps the invariant |
| SessionProps.CountdownInv | script.js:639-647 | every firing of the 1 s interval keeps the invariant |
| SessionProps.SubmitInv | script.js:234-280 | checkAnswer keeps the invariant |
| SessionProps.ResumeInv | script.js:331-342 | the tail of loadProgress (review, or seek and pause) keeps the invariant |
| SessionProps.ResetInv | script.js:353-366 | resetProgress keeps the invariant |
| SessionProps.PausedInv | script.js:122 | pausing the player keeps the invariant |
| SessionProps.LoadProgressInv | script.js:315-348 | loadProgress keeps the invariant on every branch: restored log, missing log, empty log, corrupt log |
| SessionProps.LoadInv | script.js:117-123 | onPlayerReady (load, then play and pause) keeps the invariant |
| SessionProps.AdvanceInv | script.js:262-273 | the 1500 ms advance callback keeps the invariant |
| SessionProps.NextInv | script.js:129-280 | every event keeps the invariant |
| SessionProps.RunInv | script.js:129-280 | every run of events from an invariant state ends in an invariant state |
| SessionProps.PollTickActivation | script.js:150-165 | a poll tick opens questions[cursor] exactly when the poll is live, no question is open, the cursor is in range and playback has reached its time; it then pauses, stops polling and starts a fresh countdown. Otherwise nothing changes |
| SessionProps.PollWithoutTime | script.js:151 | a tick with no player position changes nothing |
| SessionProps.OpenQuestionIgnoresPlayback | script.js:144-156 | while a question is open, neither poll ticks nor PLAYING notifications change anything |
| SessionProps.PlayingArmsPoll | script.js:129-155 | PLAYING with no question open arms the poll and changes nothing else |
| SessionProps.SelectAnswerStep | script.js:216-229 | a click marks that button alone as selected and clears the feedback; log, cursor and countdown are untouched |
| SessionProps.DisplayLaysOutCopy | script.js:174-206 | the buttons are a permutation of the answers, and the answers themselves when randomize is off; the unshuffled question stays current; hints, feedback and countdown start afresh; cursor and log are untouched |
| SessionProps.ShowHintStep | script.js:673-682 | a reveal is a no-op with no question or at the ceiling; otherwise it uses exactly one more hint and shows that hint, or the no-more-hints text when it is missing or empty |
| SessionProps.HintCeiling | script.js:673-682 | n reveals on a freshly shown question use min(n, 2) hints, and the hint on view is the last one revealed |
| SessionProps.ThreeRevealsOnTwoHints | script.js:673-682 | on a two-hint question a third reveal changes nothing, and the second hint stays on view |
| SessionProps.CountdownStep | script.js:640-646 | one tick: no-op when stopped; one second less above 1; stop and time-up at 1 |
| SessionProps.TimeUpKeepsCountdown | script.js:664-668 | handleTimeUp posts the time-up notice and does not touch the countdown |
| SessionProps.CountdownRun | script.js:635-648 | a countdown at T drops by one per tick for T-1 ticks; the T-th tick stops it at 0 with the time-up notice and a hint reveal; later ticks change nothing |
| SessionProps.DisplayedQuestionTimesOut | script.js:635-668 | 30 ticks after a question opens, its time is up and its first hint is on view, with the question still open |
| SessionProps.SubmitWithoutSelection | script.js:235-241 | submitting with no selected button only shows the select-an-answer prompt |
| SessionProps.SubmitWithoutCorrectAnswer | script.js:243-250 | a question with no correct answer makes checkAnswer throw before it writes anything |
| SessionProps.SubmitStep | script.js:243-279 | submit appends exactly one record and saves the progress with the current cursor; only a correct answer schedules an advance; cursor, score and countdown are untouched |
| SessionProps.SubmitRecordsAnswer | script.js:243-253 | under the invariant, the selected position always indexes the answer list, and submit logs that answer, the first correct answer's text and whether the selection is correct |
| SessionProps.AdvanceStep | script.js:262-273 | the advance callback moves the cursor on by one and closes the question; it then resumes polling with the video playing, or opens the review after the last question |
| SessionProps.CorrectAnswerAdvances | script.js:243-274 | a correct answer followed by the 1500 ms callback advances the cursor by one, logs one entry, and leaves the saved index one behind the new cursor |
| SessionProps.WrongAnswerStays | script.js:243-279 | a wrong answer is logged but the cursor stays, so a log as long as the cursor becomes one longer |
| SessionProps.UnshuffledClickIsScored | script.js:190-252 | without shuffling, the button clicked is the answer recorded and judged |
| SessionProps.ShuffledClickIsMisscored | script.js:190-252 | with shuffling, clicking the correct answer when it was moved is recorded as the wrong answer and judged incorrect |
| SessionProps.ScoreDelta | script.js:687-709 | a correct answer adds 100 + 2 * seconds left - 20 * hints used, which lies between 60 and 160, and saves the new score; a wrong answer changes nothing |
| SessionProps.ScoreScenario | script.js:687-698 | 25 seconds left and no hints: 150 points |
| SessionProps.ResetProgressEffects | script.js:353-366 | reset rewinds to question 0 with an empty log, no open question, polling on, playback from 0 and the saved index and log removed; the score and the question list are kept |
| SessionProps.ReviewedEntriesOfReviewed | script.js:381-402 | a list of answer blocks reads back as its entries, in order |
| SessionProps.ReviewShowsLog | script.js:374-406 | the review is a placeholder when nothing has been answered, otherwise one block per log entry numbered from 1, and the log can be read back from it |
| SessionProps.EndedShowsReview | script.js:135-137 | ENDED opens the review of the current log at once and pauses, whatever the cursor |
| SessionProps.SaveLoadRoundTrip | script.js:302-348 | round trip: loading what saveProgress wrote restores the cursor and the log |
| SessionProps.CorruptLogResets | script.js:325-346 | a non-empty answer log that does not parse resets the session instead of restoring it |
| SessionProps.LoadResumes | script.js:315-342 | a saved index k and log are restored; the video seeks to question k-1's time (no seek when k is 0) and is left paused; with k at or past the end the review opens |
| SessionProps.ReloadAfterLastAnswer | script.js:253-342 | after the last question is answered correctly the review opens, but a reload asks the last question again, with the log one entry ahead of the cursor |
| SessionProps.SubmitAdvances | script.js:234-280 | submit never moves the cursor back and only extends the log at its end |
| SessionProps.AdvanceTimeoutAdvances | script.js:262-273 | the advance callback never moves the cursor back and keeps the log |
| SessionProps.NextMonotone | script.js:129-280 | apart from reset and reload, every event keeps the cursor from going back, only appends to the log and keeps the question list fixed |
| SessionProps.RunMonotone | script.js:129-280 | the same holds for any run of such events |
| VideoUrl.MarkerAt | script.js:416 | a marker alternative matches at p only inside the string, starting with y, v, u, e, w or &, and without line terminators |
| VideoUrl.Reach | script.js:416 | the furthest position `^.*` can reach: no line terminator before it, and none further is reachable |
| VideoUrl.LastMarker | script.js:416 | the rightmost marker at or before p, where the greedy `.*` stops backtracking; none exactly when no marker starts in 0..p |
| VideoUrl.IdLength | script.js:416 | `[^#&?]*` consumes the maximal run without #, & or ? |
| VideoUrl.IdFrom | script.js:416 | the second group from a position; a tail free of #, & and ? is taken whole (VideoUrl.WholeRun) |
| VideoUrl.IdAfter | script.js:416 | the second group after the marker the match uses (VideoUrl.ExtractAtRightmostMarker) |
| VideoUrl.ExtractVideoId | script.js:415-419 | a returned id is 11 characters long and contains no #, & or ? |
| VideoUrl.ExtractAtRightmostMarker | script.js:415-419 | when the pattern matches, the id is the second group after the rightmost reachable marker if that group is 11 long, null otherwise |
| VideoUrl.ExtractWithoutMarker | script.js:415-419 | when no marker can be reached, the result is null |
| VideoUrl.WholeRun | script.js:416 | a tail free of #, & and ? is consumed whole by `[^#&?]*` |
| VideoUrl.ShortLink | script.js:415-419 | https://youtu.be/dQw4w9WgXcQ yields dQw4w9WgXcQ |
| VideoUrl.PlainUrlHasNoMarker | script.js:416 | in https://example.com/ no marker alternative matches anywhere |
| VideoUrl.PlainUrlHasNoId | script.js:415-419 | https://example.com/ yields null |
| VideoUrl.WithoutMarkerLetters | script.js:415-419 | a URL with none of the letters y, v, u, e, w and & yields null |
| Duration.Decimal | questionGenerator.js:224-226 | a number is written as a non-empty digit string that parseInt reads back as the number |
| Duration.LeadingDigits | questionGenerator.js:222 | `\d+` greedily takes the maximal digit run |
| Duration.DigitsValue | questionGenerator.js:224-226 | parseInt of a digit run; it reads every written numeral back (Duration.Decimal) |
| Duration.ReadGroup | questionGenerator.js:222 | a group `(\d+X)` that matches ends with its designator X |
| Duration.FindPT | questionGenerator.js:222 | the unanchored match starts at the leftmost "PT" |
| Duration.ParseDuration | questionGenerator.js:220-227 | no duration exactly when "PT" does not occur (the source then throws) |
| Duration.TimePart | questionGenerator.js:222-227 | the three optional groups after "PT" summed as hours * 3600 + minutes * 60 + seconds (Duration.TimePartOfParts) |
| Duration.MinutesPart | questionGenerator.js:222-227 | the minutes and seconds groups summed (Duration.MinutesOfParts) |
| Duration.SecondsPart | questionGenerator.js:222-226 | the seconds group (Duration.SecondsOfPart) |
| Duration.ReadNumeral | questionGenerator.js:222-226 | a written numeral followed by designator X is read back as a group for X, and for no other designator |
| Duration.LeadingDigitsOfNumeral | questionGenerator.js:222 | the digit run of a written numeral followed by a non-digit is exactly the numeral |
| Duration.ReadPart | questionGenerator.js:222-226 | an optional written component is read back as its group, or as none when absent |
| Duration.NoGroupBefore | questionGenerator.js:222 | a group for one designator does not match over a component written with another |
| Duration.ParseAtStart | questionGenerator.js:221-222 | text that starts with "PT" is decoded from what follows |
| Duration.SecondsOfPart | questionGenerator.js:222-226 | the seconds group reads back a written seconds component |
| Duration.MinutesOfParts | questionGenerator.js:222-226 | the minutes and seconds groups read back written components |
| Duration.TimePartOfParts | questionGenerator.js:222-227 | the three groups read back written components as hours * 3600 + minutes * 60 + seconds |
| Duration.ParseFormatRoundTrip | questionGenerator.js:220-227 | round trip: decoding any written PT[nH][nM][nS] duration gives its length in seconds, absent parts counting 0 |
| Duration.OneHourTwoMinutesThreeSeconds | questionGenerator.js:220-227 | "PT1H2M3S" is 3723 seconds |
| Duration.DaysAreNotDecoded | questionGenerator.js:222-224 | a duration with days written before the T ("P1DT2H") has no "PT" and is not decoded |
| Generator.GetVideoInfo | questionGenerator.js:89-100 | the id is accepted exactly when it is 11 characters long, with the placeholder details; otherwise the invalid-id error |
| Generator.ExtractedIdsAreAccepted | script.js:415-419 | every id extracted from a URL passes getVideoInfo's check |
| Generator.Minutes | questionGenerator.js:120 | `Math.ceil(duration / 60)`: the fewest whole minutes covering the duration |
| Generator.QuestionCount | questionGenerator.js:120-121 | at least 5 questions, and one per started minute: the least such number covering the duration |
| Generator.Interval | questionGenerator.js:241-242 | the spacing is at least 1 and is `floor(duration / minutes)`: minutes intervals fit in the duration and one more does not |
| Generator.SlotTime | questionGenerator.js:246 | a question's time: never after 30 s before the end, never earlier for a later question (Generator.SlotsAreOrdered) |
| Generator.DistributeQuestions | questionGenerator.js:240-248 | each question keeps every field but time; its time is the next interval multiple, never later than 30 s before the end |
| Generator.ScaleMonotone | questionGenerator.js:246 | multiplying by the interval keeps order |
| Generator.SlotsAreOrdered | questionGenerator.js:246 | a later position never gets an earlier time |
| Generator.DistributedTimesAreOrdered | questionGenerator.js:240-248 | the distributed questions' times are non-decreasing in list order |
| Generator.SlotsWithinVideo | questionGenerator.js:241-246 | the uncut slot of each of the first `minutes` questions lies inside the video |
| Generator.SeventySecondVideo | questionGenerator.js:240-248 | a 70-second video with two questions gets times 35 and 40 |
| Generator.PrepareQuestions | questionGenerator.js:191-196 | a reply whose `questions` is missing or not an array is rejected with the format error; otherwise every question is kept, in order, with only its time reassigned |

## Left out

- The DOM is not modelled: overlays, button styles, the progress bar, focus and the feedback colours. Only the feedback message key and the hint text are kept.
- The YouTube player is left out beyond its current time (an input) and the last play, pause and seek commands (state fields).
- The network is left out: the YouTube Data API, the OpenAI request, the transcription, the prompt text and `loadLocale`. The generated reply enters as a parsed `questions` field, and the duration enters as the decoded string.
- API key configuration (`configureAPIKeys`) and the missing-key errors are left out.
- Real time is not modelled: the intervals and the timeout are events that may arrive in any order, and the real clock is not.
- The setup form is submitted by two listeners (lines 531 and 557). This concurrency is left out; setup is modelled once, as `Storage.CachedOrGenerated` and `Session.StartSession`.
- The submit button's visibility is not modelled. The source hides it after a correct answer (line 259) and never shows it again. The model lets a submit arrive at any time, so its properties cover more behaviour than the page allows.
- Practice mode is not modelled: `practiceMode` is never set to true.
- The `data.choices` checks of the reply (lines 184-186) are not modelled.
- Exceptions thrown by the key-value store itself (quota, access) are not modelled. Parse failures of stored text are modelled.
- JSON values of the wrong shape are left out: an answer log that parses but is not an array, or a saved index that is not a number. The index is only ever written as the cursor's decimal string.
- The date stored with the score is left out.
- The item shape inside the `questions` array is not validated by the source and is not modelled; items are taken as well-formed questions.
- VideoUrl.ExtractVideoId: works on Unicode scalar values rather than JavaScript's UTF-16 code units, so a URL containing characters outside the Basic Multilingual Plane can differ in length counting.
- Duration.ParseDuration: numbers are unbounded, while parseInt on very long digit runs loses precision in floating point.
- Generator.DistributeQuestions: requires a positive duration. The source computes 0/0 (NaN times) for a zero duration, and NaN is not represented.
- Generator.PrepareQuestions: requires a positive duration for the same reason.
- Session.UpdateScore: has no call site in the source and is modelled as a standalone transition (`SessionProps.ScoreDelta`), not an event.
