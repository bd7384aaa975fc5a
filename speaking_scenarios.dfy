/**
 * Whole sessions of the speaking exercise, driven through the session's
 * methods only: what a candidate sees when letting every step run out,
 * when recording an answer, when a step times out during a recording, and
 * when recording the same step twice.
 */
module SpeakingScenarios {
  import opened Wrappers
  import opened SpeakingScript
  import opened Recordings
  import opened Speaking

  const FirstLabel: string := "Part 1 - Work or Study"

  /** A new session, started with microphone permission: it is on step 1,
      a one-minute question labelled "Part 1 - Work or Study", with the
      whole script's 1710 ticks to come. */
  method StartSession() returns (s: SpeakingSession)
    ensures fresh(s) && s.Valid() && s.Phase() == Active(0)
    ensures s.timeLeft == 60 && !s.isRecording && s.audioUrl == None
    ensures s.recorder == None && s.pendingStops == [] && s.completedRecordings == []
    ensures s.steps[0].id == 1 && RecordsAnswer(s.steps[0]) && Label(s.steps[0]) == FirstLabel
    ensures s.RemainingTicks() == 1710
  {
    FirstStep();
    ScriptTotal();
    s := new SpeakingSession();
    var alert := s.Start(true);
  }

  /** Letting every step run out takes exactly 1710 one-second ticks and
      ends on the review screen with no recordings. */
  method RunWholeSession() returns (ticks: nat, recordings: seq<Recording>)
    ensures ticks == 1710 && recordings == []
  {
    var s := StartSession();
    ticks := RunOut(s);
    recordings := s.completedRecordings;
  }

  /** Ticks a running session until the review screen; the number of ticks
      is the number the session still had to come. */
  method RunOut(s: SpeakingSession) returns (ticks: nat)
    requires s.Valid() && s.hasStarted
    modifies s
    ensures s.Valid() && s.isFinished
    ensures s.completedRecordings == old(s.completedRecordings)
    ensures ticks == old(s.RemainingTicks())
  {
    ticks := 0;
    s.RemainingTicksNonNegative();
    while !s.isFinished
      invariant s.Valid() && s.hasStarted
      invariant s.completedRecordings == old(s.completedRecordings)
      invariant s.RemainingTicks() >= 0
      invariant ticks + s.RemainingTicks() == old(s.RemainingTicks())
      decreases s.RemainingTicks()
    {
      s.Tick();
      ticks := ticks + 1;
      s.RemainingTicksNonNegative();
    }
  }

  /** Recording the first answer and stopping after two seconds leaves one
      entry, for step 1, while the countdown goes on unaffected. */
  method RecordFirstAnswer(url: string) returns (recordings: seq<Recording>, timeLeft: int)
    ensures recordings == [Recording(1, url, FirstLabel)]
    ensures timeLeft == 58
  {
    var s := StartSession();
    var started := s.BeginRecording(true);
    s.Tick();
    s.Tick();
    s.StopRecording();
    s.FinalizeRecording(url);
    recordings, timeLeft := s.completedRecordings, s.timeLeft;
  }

  /** A recording still running when step 1 times out is stopped by the
      step change, and its entry belongs to step 1, not to the step that is
      current when its stop handler runs. */
  method RecordingOutlivesStep(url: string) returns (index: nat, recordings: seq<Recording>)
    ensures index == 1
    ensures recordings == [Recording(1, url, FirstLabel)]
  {
    var s := StartSession();
    var started := s.BeginRecording(true);
    var k := 0;
    while k < 59
      invariant 0 <= k <= 59
      invariant s.Valid() && s.hasStarted && !s.isFinished
      invariant s.currentStepIndex == 0 && s.timeLeft == 60 - k
      invariant s.isRecording && s.pendingStops == [] && s.completedRecordings == []
    {
      s.Tick();
      k := k + 1;
    }
    s.Tick();
    index := s.currentStepIndex;
    s.FinalizeRecording(url);
    recordings := s.completedRecordings;
  }

  /** Recording step 1 a second time replaces its first recording. */
  method RecordTwice(first: string, second: string) returns (recordings: seq<Recording>)
    ensures recordings == [Recording(1, second, FirstLabel)]
  {
    var s := StartSession();
    var started := s.BeginRecording(true);
    s.StopRecording();
    s.FinalizeRecording(first);
    started := s.BeginRecording(true);
    s.StopRecording();
    s.FinalizeRecording(second);
    recordings := s.completedRecordings;
    ReplaceExisting([], Recording(1, first, FirstLabel), [], Recording(1, second, FirstLabel));
  }
}
