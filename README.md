# IELTS practice app: timed speaking and writing exercises

This project models in Dafny the two timed exercises of the IELTS practice
app, and proves properties of the model.

**Speaking exercise.** A session walks a fixed script of 22 steps:

- 12 Part 1 questions of 60 seconds each;
- the Part 2 cue card, with 90 seconds of preparation and 180 seconds of speaking;
- 8 Part 3 questions of 90 seconds each.

When a step's countdown runs out, any live recording is stopped. The
session then moves to the next step, or from the last step to the review
screen. On every step except the preparation step the candidate may record
an answer. When a recorder's stop handler runs, the recording list drops
any earlier entry of that step and appends the new one.

**Writing exercise.** A task has a title, a time allowed, a minimum word
count, instructions, a prompt and an optional image. The exercise has:

- a countdown that locks the editor when it runs out;
- a reset to the start screen when the task changes;
- a word-count badge;
- a plain-text download of the essay.

Files:

- `speaking_script.dfy` (module `SpeakingScript`): the step script and its shape.
- `recordings.dfy` (`Recordings`): the list of finished recordings and its update.
- `speaking.dfy` (`Speaking`): the session as a class. Each button press,
  timer tick and recorder event is one method.
- `speaking_scenarios.dfy` (`SpeakingScenarios`): whole sessions driven
  through those methods.
- `words.dfy` (`Words`): the word counter, step by step as the component
  writes it (trim, split on white-space runs, drop empty pieces). The split is
  proved to give back the text when the white-space runs are put back, and
  the count is proved equal to the number of maximal runs of non-white-space
  characters.
- `writing.dfy` (`Writing`): the download text, the minutes display, and the
  exercise as a class.
- `writing_scenarios.dfy` (`WritingScenarios`): the two writing tasks of the
  app, and whole sessions.
- `wrappers.dfy` (`Wrappers`): `Option`.

How the model treats the host environment:

- Microphone permission and stream requests are boolean parameters: granted or not.
- The recorded audio's object URL is an opaque string parameter of `FinalizeRecording`.
- A recorder is stopped at once, but its stop handler runs later. The model
  keeps stopped recorders in `pendingStops`, oldest first. `FinalizeRecording`
  is the oldest one's stop handler.
- A recorder's stop handler closes over the step that was current when the
  recorder was started. So each recorder is modelled by that step's index.
- The step change after a timeout is immediate. In the app it waits 100 ms.
- The step-initialisation effect (`EnterStep`) runs as part of the
  transition that triggers it: `Start` and `CompleteStep` call it.
- A tick is delivered only while the countdown runs. A tick at any other time changes nothing.

Behaviour of the app worth noting:

- Step ids start at 1, and a step's index is its id minus one.
- There is no "finish this step early" command. "Stop Recording" does not advance the step.
- A second recording cannot start while one is live because the record button is
  hidden, not because the request is rejected. So this is a precondition of
  `BeginRecording`.
- "Take New Test" reloads the page. Switching to another tab unmounts the
  speaking exercise: the cleanup of its timer effect clears the interval and
  all of its state is lost. A recorder that is live at that moment, and its
  microphone stream, are not stopped.

## Model

| member | source | states |
|---|---|---|
| SpeakingScript.ScriptShape | ielts-practice-app/components/SpeakingModule.tsx:16-66 | the script has 22 steps, step i has id i + 1, and every duration is positive |
| SpeakingScript.OnlyPreparationStep | ielts-practice-app/components/SpeakingModule.tsx:36-43 | step 13 (index 12) is the only preparation step |
| SpeakingScript.FirstStep | ielts-practice-app/components/SpeakingModule.tsx:19 | the first step is question 1, lasts 60 s and is labelled "Part 1 - Work or Study" |
| SpeakingScript.ScriptTotal | ielts-practice-app/components/SpeakingModule.tsx:16-66 | the durations add up to 1710 seconds (12 x 60 + 90 + 180 + 8 x 90) |
| SpeakingScript.TotalDurationByParts | ielts-practice-app/components/SpeakingModule.tsx:16-66 | any 22-step script with 12 one-minute steps, then 90 s and 180 s, then 8 steps of 90 s lasts 1710 seconds |
| SpeakingScript.TotalDurationConcat | ielts-practice-app/components/SpeakingModule.tsx:16-66 | the total duration of two concatenated scripts is the sum of their totals |
| SpeakingScript.TotalDurationUniform | ielts-practice-app/components/SpeakingModule.tsx:17-30 | a run of steps of equal duration d lasts d times its length |
| SpeakingScript.Label | ielts-practice-app/components/SpeakingModule.tsx:154 | a recording's label is the step's part, then " - ", then its topic, at those exact positions |
| Recordings.WithoutStep | ielts-practice-app/components/SpeakingModule.tsx:150 | the filter keeps exactly the entries of other steps |
| Recordings.WithoutStepKeepsNoDuplicates | ielts-practice-app/components/SpeakingModule.tsx:150 | the filter never creates two entries for the same step |
| Recordings.Replace | ielts-practice-app/components/SpeakingModule.tsx:148-156 | the new entry is last; the other entries are exactly the old entries of other steps |
| Recordings.WithoutStepConcat | ielts-practice-app/components/SpeakingModule.tsx:150 | the filter distributes over concatenation, so it keeps relative order |
| Recordings.WithoutAbsentStep | ielts-practice-app/components/SpeakingModule.tsx:150 | filtering out a step the list does not hold leaves the list unchanged |
| Recordings.ReplaceKeepsNoDuplicates | ielts-practice-app/components/SpeakingModule.tsx:148-156 | the update never creates two entries for the same step |
| Recordings.ReplaceAbsent | ielts-practice-app/components/SpeakingModule.tsx:148-156 | a first recording of a step is appended after the unchanged list |
| Recordings.ReplaceExisting | ielts-practice-app/components/SpeakingModule.tsx:148-156 | a re-recording removes the step's old entry from its place and appends the new one; the others keep their order |
| Recordings.ReplaceLength | ielts-practice-app/components/SpeakingModule.tsx:148-156 | the list grows by one exactly when the step had no entry |
| Speaking.ReplaceOfScript | ielts-practice-app/components/SpeakingModule.tsx:148-156 | replacing with an entry for a recording step of the script, carrying its label, keeps every entry such an entry and keeps the steps distinct |
| Speaking.SpeakingSession.Controls | ielts-practice-app/components/SpeakingModule.tsx:271-331 | record controls appear only on a running non-preparation step; "Record" only when not recording, "Stop" only while recording |
| Speaking.SpeakingSession.RemainingTicksNonNegative | ielts-practice-app/components/SpeakingModule.tsx:16-66 | a valid session never has a negative number of ticks still to come |
| Speaking.SpeakingSession.constructor | ielts-practice-app/components/SpeakingModule.tsx:69-81 | the session starts on the start screen with no timer, recording or recordings |
| Speaking.SpeakingSession.EnterStep | ielts-practice-app/components/SpeakingModule.tsx:87-97 | entering a running step sets the countdown to the step's duration, clears the audio URL and the recording flag, and starts nothing |
| Speaking.SpeakingSession.Start | ielts-practice-app/components/SpeakingModule.tsx:118-127 | with permission: step 0 with a full countdown and 1710 ticks to go; without it: an alert and no state change |
| Speaking.SpeakingSession.BeginRecording | ielts-practice-app/components/SpeakingModule.tsx:129-167 | with a stream: recording, with the recorder bound to the current step; without one: nothing changes |
| Speaking.SpeakingSession.StopRecording | ielts-practice-app/components/SpeakingModule.tsx:169-174 | a live recorder is stopped and queued for its stop handler; without a live recording nothing changes |
| Speaking.SpeakingSession.FinalizeRecording | ielts-practice-app/components/SpeakingModule.tsx:142-156 | the oldest stopped recorder's step gets its entry replaced by the new recording with that step's id and label; the audio URL is set |
| Speaking.SpeakingSession.CompleteStep | ielts-practice-app/components/SpeakingModule.tsx:176-192 | the live recording is stopped first; then the index goes up by one, or the last step finishes with timer 0; progress rises by one and the ticks still to come are unchanged |
| Speaking.SpeakingSession.Tick | ielts-practice-app/components/SpeakingModule.tsx:100-111 | above 1 s the countdown drops by one; at 1 s or less the step completes; no tick outside a running step; progress never decreases and one tick is used up |
| SpeakingScenarios.StartSession | ielts-practice-app/components/SpeakingModule.tsx:118-127 | a new session started with permission is on step 1, a one-minute question labelled "Part 1 - Work or Study", with 1710 ticks to come |
| SpeakingScenarios.RunWholeSession | ielts-practice-app/components/SpeakingModule.tsx:100-192 | letting every step run out reaches the review screen after exactly 1710 ticks with no recordings |
| SpeakingScenarios.RunOut | ielts-practice-app/components/SpeakingModule.tsx:100-192 | ticking a running session until the review screen takes exactly the ticks it still had to come, and adds no recording |
| SpeakingScenarios.RecordFirstAnswer | ielts-practice-app/components/SpeakingModule.tsx:129-174 | recording step 1 for two seconds gives one entry for step 1, and the countdown stands at 58 |
| SpeakingScenarios.RecordingOutlivesStep | ielts-practice-app/components/SpeakingModule.tsx:142-192 | a recording cut off by the timeout of step 1 is filed under step 1, while the session is already at index 1 |
| SpeakingScenarios.RecordTwice | ielts-practice-app/components/SpeakingModule.tsx:148-156 | recording step 1 twice leaves only the second recording |
| Words.IsSpace | ielts-practice-app/components/WritingModule.tsx:89 | the ASCII blanks (space, tab, line feed, carriage return) are white space; letters, digits, apostrophes and hyphens are not |
| Words.SkipSpace | ielts-practice-app/components/WritingModule.tsx:89 | the end of the white-space run starting at a position: everything skipped is white space and the next character is not |
| Words.SkipSpaceBack | ielts-practice-app/components/WritingModule.tsx:89 | the start of the white-space run ending at a position, going back no further than a bound |
| Words.TrimBounds | ielts-practice-app/components/WritingModule.tsx:89 | the bounds of the trimmed text: white space only before and after them, and no white space at either end of a non-empty result |
| Words.Trim | ielts-practice-app/components/WritingModule.tsx:89 | the trimmed text is the slice left when white space is removed at both ends: only white space lies before and after it, it has no white space at either end, and it is empty exactly when the text is all white space |
| Words.FirstSpace | ielts-practice-app/components/WritingModule.tsx:89 | the end of the word starting at a position: no white space before it, and white space at it unless it is the end of the text |
| Words.SplitFrom | ielts-practice-app/components/WritingModule.tsx:89 | splitting from a position gives at least one piece, and no piece contains white space |
| Words.Split | ielts-practice-app/components/WritingModule.tsx:89 | splitting gives at least one piece, and no piece contains white space |
| Words.NonEmpty | ielts-practice-app/components/WritingModule.tsx:89 | the filter keeps exactly the non-empty pieces |
| Words.WordCount | ielts-practice-app/components/WritingModule.tsx:89 | the count is 0 exactly when the text is empty or all white space |
| Words.GapsFrom | ielts-practice-app/components/WritingModule.tsx:89 | the white-space runs split at are non-empty, all white space, and one fewer than the pieces |
| Words.SplitFromWeave | ielts-practice-app/components/WritingModule.tsx:89 | the pieces from a position, woven back with the white-space runs between them, give back the text from that position |
| Words.SplitFromInnerNonEmpty | ielts-practice-app/components/WritingModule.tsx:89 | every piece of a split except the first and the last is non-empty |
| Words.SplitRoundTrip | ielts-practice-app/components/WritingModule.tsx:89 | the split pieces, with the white-space runs put back between them, are the text; only the first and the last piece can be empty |
| Words.NonEmptyConcat | ielts-practice-app/components/WritingModule.tsx:89 | filtering a concatenation filters each part and keeps their order |
| Words.NonEmptyCons | ielts-practice-app/components/WritingModule.tsx:89 | a piece in front adds one to the filtered count exactly when it is non-empty |
| Words.RunsBetweenSplit | ielts-practice-app/components/WritingModule.tsx:89 | counting runs over a range split in two adds the counts of the two parts |
| Words.RunsBetweenSlice | ielts-practice-app/components/WritingModule.tsx:89 | counting runs over a range of a text is counting them in that slice of it |
| Words.RunsBetweenAllSpace | ielts-practice-app/components/WritingModule.tsx:89 | white space starts no run |
| Words.RunsBetweenNoSpace | ielts-practice-app/components/WritingModule.tsx:89 | a range without white space is one run after white space, and none otherwise |
| Words.NoRunsAllSpace | ielts-practice-app/components/WritingModule.tsx:89 | a range after white space that holds no run is all white space |
| Words.SplitCountsRuns | ielts-practice-app/components/WritingModule.tsx:89 | split then filter leaves one piece per maximal non-white-space run |
| Words.TrimKeepsRuns | ielts-practice-app/components/WritingModule.tsx:89 | trimming does not change the number of runs |
| Words.WordCountIsRuns | ielts-practice-app/components/WritingModule.tsx:89 | the word count equals the number of maximal non-white-space runs |
| Words.WordCountOneWord | ielts-practice-app/components/WritingModule.tsx:89 | a non-empty text with no white space counts as 1 |
| Words.RunsJoin | ielts-practice-app/components/WritingModule.tsx:89 | two texts joined by one white-space character have as many runs as the two together |
| Words.WordCountJoin | ielts-practice-app/components/WritingModule.tsx:89 | two texts joined by one white-space character count as the sum of their counts |
| Words.SplitFromNoEmpty | ielts-practice-app/components/WritingModule.tsx:89 | splitting from a non-white-space position of a text that does not end in white space gives no empty piece |
| Words.SplitTrimmedNoEmpty | ielts-practice-app/components/WritingModule.tsx:89 | the split of a trimmed blank text is the single empty piece; otherwise it has no empty piece |
| Writing.ImageLine | ielts-practice-app/components/WritingModule.tsx:69 | the image line is non-empty exactly when the image source is present and non-empty |
| Writing.DownloadContent | ielts-practice-app/components/WritingModule.tsx:62-76 | the file is the part before the image line (`DownloadHead`), the image line, and the part after it (`DownloadTail`); its properties are the contracts of the four lemmas below |
| Writing.HeadParts | ielts-practice-app/components/WritingModule.tsx:62-68 | the part of the download before the image line starts with the title on a line of its own and has 31 fixed characters |
| Writing.TailParts | ielts-practice-app/components/WritingModule.tsx:69-76 | the part of the download after the image line ends with a line break, the essay and a line break, and has 126 fixed characters |
| Writing.DownloadLayout | ielts-practice-app/components/WritingModule.tsx:62-76 | the download starts with the title and a newline, ends with a newline, the essay and a newline, and has 157 fixed characters |
| Writing.DownloadImage | ielts-practice-app/components/WritingModule.tsx:62-76 | the image line sits right after the prompt line; the download with an image is the one without it plus that line; they are equal iff the line is empty |
| Writing.Minutes | ielts-practice-app/components/WritingModule.tsx:99 | the minutes shown are the time allowed divided by 60, rounded down |
| Writing.WritingSession.constructor | ielts-practice-app/components/WritingModule.tsx:24-27 | a new exercise is not started, not finished, shows the full time and has an empty essay |
| Writing.WritingSession.ChangeTask | ielts-practice-app/components/WritingModule.tsx:31-37 | a new title or time resets started, time, essay and finished; other prop changes keep the state |
| Writing.WritingSession.Start | ielts-practice-app/components/WritingModule.tsx:57-59 | the exercise is started; nothing else changes |
| Writing.WritingSession.Running | ielts-practice-app/components/WritingModule.tsx:40 | the countdown runs only between the start and the end of the time |
| Writing.WritingSession.Tick | ielts-practice-app/components/WritingModule.tsx:39-50 | above 1 s the countdown drops by one; at 1 s or less it is 0 and time is up; no tick before the start or after time is up |
| Writing.WritingSession.Edit | ielts-practice-app/components/WritingModule.tsx:169-176 | edits change the essay only while the exercise runs; after time is up they are ignored |
| Writing.WritingSession.BadgeWarns | ielts-practice-app/components/WritingModule.tsx:123 | the badge warns exactly when the essay has fewer non-white-space runs than the minimum |
| Writing.WritingSession.Download | ielts-practice-app/components/WritingModule.tsx:62-76 | the file starts with the title line and ends with the essay and a newline |
| WritingScenarios.TaskMinutes | ielts-practice-app/App.tsx:58-77 | Task 1 announces 20 minutes and Task 2 announces 40 |
| WritingScenarios.RunTask1 | ielts-practice-app/components/WritingModule.tsx:39-55 | Task 1 runs out after exactly 1200 ticks; the essay typed before is kept and later typing is ignored |
| WritingScenarios.SwitchTask | ielts-practice-app/components/WritingModule.tsx:31-37 | switching from Task 1 to Task 2 goes back to the start screen with 2400 s and an empty essay |

## Left out

- Browser media is not modelled: `getUserMedia`, `MediaRecorder`, buffering of
  audio chunks (`ondataavailable`), `Blob`, `URL.createObjectURL`, and stopping the
  stream's tracks. Those are host device APIs. The model keeps only
  permission flags and an opaque URL string.
- `startRecording` resets the shared chunk buffer. So a stopped recorder whose
  handler runs after a new recorder has started would build its audio from the
  new recorder's chunks. Audio content is opaque here, so this is not captured.
- The `await` in `handleStartTest` and `startRecording` is treated as atomic. State
  changes while the permission prompt is open are not modelled. Neither are
  the two background recorder events: `ondataavailable`
  (ielts-practice-app/components/SpeakingModule.tsx:136-140) buffers audio, and
  `onstop` (ielts-practice-app/components/SpeakingModule.tsx:142-160) is modelled
  only as `FinalizeRecording`.
- Wall-clock scheduling is not modelled: `setInterval`/`clearInterval`, the 100 ms
  `setTimeout` before a step change, and effect re-subscription (which resets the
  phase of the one-second interval). Each tick is one method call, and the step
  change is immediate. One consequence: a stop handler that runs after a
  timeout-driven step change sets the "just recorded" URL on the new step.
  With the real delay, the handler usually runs before the step change clears it.
- React's development double call of state updaters is not modelled.
- `handleDownload` in both modules is host I/O (anchor click, `revokeObjectURL`),
  and so is `window.location.reload()` for "Take New Test". The download
  *text* is modelled.
- The `Timer` display component is not part of this model.
- JSX rendering and styling are left out. Only the decisions the screens show
  are modelled: the record controls, the badge and the minutes display.
- Unmounting the speaking exercise on a tab switch is not modelled. Coming
  back to the tab is a fresh `SpeakingSession`. A recorder live at the switch
  keeps running with its microphone stream, and that is not captured.
- Tab switching in ielts-practice-app/App.tsx is left out. Each tab mounts its own
  writing exercise, so a tab switch is a fresh `WritingSession`. Its two task
  property sets are modelled.
- The whole havina placement report app is left out. It is hard-coded report
  data, a chart library and floating-point band scores.
- Speaking.SpeakingSession.Start: requires the start screen, because its button
  is rendered only there.
- Speaking.SpeakingSession.BeginRecording: requires the record button to be shown.
- Numbers are integers. Durations and word minimums in the app are whole numbers.
- The optional `topic` of a step is a plain string, because every step of the script has one.
- The recording's `label` field is named `caption`, because `label` is a Dafny keyword.
