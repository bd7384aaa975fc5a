/**
 * The speaking exercise's step sequencer: a session walks the fixed script
 * one step at a time on a one-second countdown, lets the candidate record
 * an answer on every step but the preparation step, and collects one
 * recording per step for the review screen.
 *
 * Each timer tick, button press and recorder event is one method call;
 * the microphone stream and the recorded audio are opaque (a permission
 * flag, an object-URL string).
 */
module Speaking {
  import opened Wrappers
  import opened SpeakingScript
  import opened Recordings

  /** Where the session is: start screen, step `index`, or review screen. */
  datatype Phase = NotStarted | Active(index: nat) | Finished

  /** The recording controls shown on the step screen. */
  datatype Controls = NoControls | RecordButton | StopButton

  const PermissionAlert: string := "Microphone permission is required for this test."

  /** An entry of the recording list that belongs to a recording-bearing
      step of the script and carries that step's label. */
  ghost predicate EntryOfScript(script: seq<Step>, e: Recording) {
    1 <= e.stepId <= |script|
    && RecordsAnswer(script[e.stepId - 1])
    && e.caption == Label(script[e.stepId - 1])
  }

  /** The recording list: one entry per step at most, each from the script. */
  ghost predicate ListOfScript(script: seq<Step>, list: seq<Recording>) {
    NoDuplicateSteps(list)
    && forall k :: 0 <= k < |list| ==> EntryOfScript(script, list[k])
  }

  /** Replacing with an entry of the script keeps the list one of the script. */
  lemma ReplaceOfScript(script: seq<Step>, list: seq<Recording>, entry: Recording)
    requires ListOfScript(script, list) && EntryOfScript(script, entry)
    ensures ListOfScript(script, Replace(list, entry))
  {
    ReplaceKeepsNoDuplicates(list, entry);
    var r := Replace(list, entry);
    forall k | 0 <= k < |r| ensures EntryOfScript(script, r[k]) {
      assert r[k] in r;
      if r[k] != entry {
        var m :| 0 <= m < |list| && list[m] == r[k];
      }
    }
  }

  /** Stopped recorders all belong to recording-bearing steps up to `index`. */
  ghost predicate PendingOfScript(script: seq<Step>, pending: seq<nat>, index: nat) {
    forall k :: 0 <= k < |pending| ==> pending[k] <= index && pending[k] < |script| && RecordsAnswer(script[pending[k]])
  }

  class SpeakingSession {
    /** The script the session walks through: the fixed script `Steps`. */
    const steps: seq<Step>
    var hasStarted: bool
    var isFinished: bool
    var currentStepIndex: nat
    var timeLeft: int
    var isRecording: bool
    /** The "just recorded" audio shown under the controls. */
    var audioUrl: Option<string>
    /** The recorder last started, given by the index of the step that was
        current when it started (its stop handler closes over that step). */
    var recorder: Option<nat>
    /** Recorders that have been stopped and whose stop handler has not run
        yet, oldest first, each given by the index of its step. */
    var pendingStops: seq<nat>
    var completedRecordings: seq<Recording>

    /** The invariant of the session, apart from the countdown's range. */
    ghost predicate Consistent()
      reads this
    {
      WellNumbered(steps) && |steps| >= 1
      && currentStepIndex < |steps|
      && (!hasStarted ==>
            !isFinished && currentStepIndex == 0 && timeLeft == 0 && !isRecording
            && audioUrl == None && recorder == None && pendingStops == [] && completedRecordings == [])
      && (isFinished ==> currentStepIndex == |steps| - 1 && timeLeft == 0 && !isRecording)
      && (isRecording ==> hasStarted && !isFinished && recorder == Some(currentStepIndex))
      && (recorder.Some? ==> recorder.value <= currentStepIndex && RecordsAnswer(steps[recorder.value]))
      && PendingOfScript(steps, pendingStops, currentStepIndex)
      && ListOfScript(steps, completedRecordings)
    }

    /** The full invariant: while a step runs, its countdown is between 1
        and the step's duration. */
    ghost predicate Valid()
      reads this
    {
      Consistent()
      && (hasStarted && !isFinished ==> 1 <= timeLeft <= steps[currentStepIndex].duration)
    }

    ghost function Phase(): Phase
      reads this
    {
      if !hasStarted then NotStarted
      else if isFinished then Finished
      else Active(currentStepIndex)
    }

    /** Progress through the session: start screen, then step 0, 1, ...,
        then the review screen. */
    ghost function Rank(): nat
      reads this
    {
      match Phase()
      case NotStarted => 0
      case Active(i) => i + 1
      case Finished => |steps| + 1
    }

    /** Timer ticks still to come before the review screen. */
    ghost function RemainingTicks(): int
      reads this
      requires Consistent()
    {
      match Phase()
      case NotStarted => TotalDuration(steps)
      case Active(i) => timeLeft + TotalDuration(steps[i + 1..])
      case Finished => 0
    }

    /** A valid session has a non-negative number of ticks still to come. */
    lemma RemainingTicksNonNegative()
      requires Valid()
      ensures RemainingTicks() >= 0
    {
      if !hasStarted {
        TotalDurationNonNegative(steps, 0);
        assert steps[0..] == steps;
      } else if !isFinished {
        TotalDurationNonNegative(steps, currentStepIndex + 1);
      }
    }

    /** The recording controls of the step screen: none on the start and
        review screens and on the preparation step; otherwise "Record
        Answer" or, while recording, "Stop Recording". */
    function Controls(): (c: Controls)
      reads this
      requires Consistent()
      ensures c != NoControls <==> hasStarted && !isFinished && RecordsAnswer(steps[currentStepIndex])
      ensures c == RecordButton ==> !isRecording
      ensures c == StopButton ==> isRecording
    {
      if !hasStarted || isFinished || !RecordsAnswer(steps[currentStepIndex]) then NoControls
      else if isRecording then StopButton
      else RecordButton
    }

    /** The component as first rendered: the start screen. */
    constructor ()
      ensures steps == Steps
      ensures Valid() && Phase() == NotStarted
      ensures timeLeft == 0 && !isRecording && audioUrl == None
      ensures recorder == None && pendingStops == [] && completedRecordings == []
    {
      steps := Steps;
      ScriptShape();
      hasStarted, isFinished, currentStepIndex, timeLeft := false, false, 0, 0;
      isRecording, audioUrl, recorder := false, None, None;
      pendingStops, completedRecordings := [], [];
    }

    /** The step-initialisation effect, run whenever the step, the started
        flag or the finished flag changes: a running step restarts its
        countdown from the step's duration, clears the "just recorded"
        audio and shows the record button; recording never starts by itself. */
    method EnterStep()
      requires Consistent()
      modifies this
      ensures Valid()
      ensures old(hasStarted && !isFinished) ==>
                timeLeft == steps[currentStepIndex].duration && audioUrl == None && !isRecording
      ensures !old(hasStarted && !isFinished) ==> timeLeft == old(timeLeft) && audioUrl == old(audioUrl) && isRecording == old(isRecording)
      ensures hasStarted == old(hasStarted) && isFinished == old(isFinished) && currentStepIndex == old(currentStepIndex)
      ensures recorder == old(recorder) && pendingStops == old(pendingStops)
      ensures completedRecordings == old(completedRecordings)
    {
      if hasStarted && !isFinished {
        timeLeft := steps[currentStepIndex].duration;
        audioUrl := None;
        isRecording := false;
      }
    }

    /** "Start Test", offered on the start screen: with microphone permission
        the session enters step 0; without it the user is alerted and
        nothing changes. */
    method Start(permissionGranted: bool) returns (alert: Option<string>)
      requires Valid() && !hasStarted
      modifies this
      ensures Valid()
      ensures !permissionGranted ==> alert == Some(PermissionAlert) && Phase() == NotStarted && unchanged(this)
      ensures permissionGranted ==> alert == None && Phase() == Active(0)
      ensures permissionGranted ==> timeLeft == steps[0].duration && !isRecording && audioUrl == None
      ensures permissionGranted ==> recorder == None && pendingStops == [] && completedRecordings == []
      ensures permissionGranted ==> RemainingTicks() == TotalDuration(steps)
    {
      if !permissionGranted {
        return Some(PermissionAlert);
      }
      hasStarted := true;
      currentStepIndex := 0;
      EnterStep();
      alert := None;
      TotalDurationFirst(steps);
    }

    /** "Record Answer", offered on a recording-bearing step while not
        recording. If the microphone stream is granted, a recorder starts
        for the current step; otherwise the error is only logged. */
    method BeginRecording(streamGranted: bool) returns (started: bool)
      requires Valid() && Controls() == RecordButton
      modifies this
      ensures Valid()
      ensures started == streamGranted
      ensures started ==> isRecording && recorder == Some(currentStepIndex)
      ensures !started ==> isRecording == old(isRecording) && recorder == old(recorder)
      ensures hasStarted == old(hasStarted) && isFinished == old(isFinished)
      ensures currentStepIndex == old(currentStepIndex) && timeLeft == old(timeLeft)
      ensures audioUrl == old(audioUrl) && pendingStops == old(pendingStops)
      ensures completedRecordings == old(completedRecordings)
    {
      started := streamGranted;
      if started {
        recorder := Some(currentStepIndex);
        isRecording := true;
      }
    }

    /** "Stop Recording": stops the live recorder, if there is one; its stop
        handler runs later, as `FinalizeRecording`. Without a live
        recording it does nothing. */
    method StopRecording()
      requires Consistent()
      modifies this
      ensures Consistent()
      ensures old(isRecording) ==> pendingStops == old(pendingStops) + [old(currentStepIndex)]
      ensures !old(isRecording) ==> pendingStops == old(pendingStops)
      ensures !isRecording
      ensures hasStarted == old(hasStarted) && isFinished == old(isFinished)
      ensures currentStepIndex == old(currentStepIndex) && timeLeft == old(timeLeft)
      ensures audioUrl == old(audioUrl) && recorder == old(recorder)
      ensures completedRecordings == old(completedRecordings)
      ensures old(Valid()) ==> Valid()
    {
      if isRecording && recorder.Some? {
        pendingStops := pendingStops + [recorder.value];
        isRecording := false;
      }
    }

    /** The stop handler of the oldest stopped recorder: its audio becomes
        the "just recorded" audio, and the recording list drops any entry of
        that recorder's step and appends the new recording, labelled with
        the step's part and topic. */
    method FinalizeRecording(url: string)
      requires Valid() && pendingStops != []
      modifies this
      ensures Valid()
      ensures completedRecordings
           == Replace(old(completedRecordings),
                      Recording(steps[old(pendingStops[0])].id, url, Label(steps[old(pendingStops[0])])))
      ensures audioUrl == Some(url) && pendingStops == old(pendingStops[1..])
      ensures hasStarted == old(hasStarted) && isFinished == old(isFinished)
      ensures currentStepIndex == old(currentStepIndex) && timeLeft == old(timeLeft)
      ensures isRecording == old(isRecording) && recorder == old(recorder)
    {
      var step := steps[pendingStops[0]];
      var entry := Recording(step.id, url, Label(step));
      ReplaceOfScript(steps, completedRecordings, entry);
      completedRecordings := Replace(completedRecordings, entry);
      audioUrl := Some(url);
      pendingStops := pendingStops[1..];
    }

    /** Completion of the current step, when its countdown is over: a live
        recording is stopped first; then the session moves to the next step,
        or from the last step to the review screen. */
    method CompleteStep()
      requires Consistent() && hasStarted && !isFinished && timeLeft == 0
      modifies this
      ensures Valid()
      ensures !isRecording && hasStarted
      ensures old(isRecording) ==> pendingStops == old(pendingStops) + [old(currentStepIndex)]
      ensures !old(isRecording) ==> pendingStops == old(pendingStops)
      ensures old(currentStepIndex) < |steps| - 1 ==>
                !isFinished && currentStepIndex == old(currentStepIndex) + 1
                && timeLeft == steps[currentStepIndex].duration && audioUrl == None
      ensures old(currentStepIndex) == |steps| - 1 ==>
                isFinished && currentStepIndex == old(currentStepIndex) && timeLeft == 0
                && audioUrl == old(audioUrl)
      ensures recorder == old(recorder) && completedRecordings == old(completedRecordings)
      ensures Rank() == old(Rank()) + 1
      ensures RemainingTicks() == old(RemainingTicks())
    {
      ghost var i := currentStepIndex;
      TotalDurationFirst(steps[i + 1..]);
      StopRecording();
      if currentStepIndex < |steps| - 1 {
        currentStepIndex := currentStepIndex + 1;
        EnterStep();
        assert steps[i + 1..][1..] == steps[i + 2..];
      } else {
        isFinished := true;
      }
    }

    /** One second of the countdown. It ticks only while a step runs; a tick
        at one second or less sets the countdown to 0 and completes the step. */
    method Tick()
      requires Valid()
      modifies this
      ensures Valid()
      ensures !old(hasStarted && !isFinished) ==> unchanged(this)
      ensures old(hasStarted && !isFinished && timeLeft > 1) ==>
                timeLeft == old(timeLeft) - 1 && isFinished == old(isFinished)
                && currentStepIndex == old(currentStepIndex) && isRecording == old(isRecording)
                && audioUrl == old(audioUrl) && pendingStops == old(pendingStops)
      ensures old(hasStarted && !isFinished && timeLeft <= 1) ==>
                !isRecording
                && (old(isRecording) ==> pendingStops == old(pendingStops) + [old(currentStepIndex)])
                && (!old(isRecording) ==> pendingStops == old(pendingStops))
                && (old(currentStepIndex) < |steps| - 1 ==>
                      !isFinished && currentStepIndex == old(currentStepIndex) + 1
                      && timeLeft == steps[currentStepIndex].duration && audioUrl == None)
                && (old(currentStepIndex) == |steps| - 1 ==>
                      isFinished && currentStepIndex == old(currentStepIndex) && timeLeft == 0
                      && audioUrl == old(audioUrl))
      ensures hasStarted == old(hasStarted) && recorder == old(recorder)
      ensures completedRecordings == old(completedRecordings)
      ensures old(Rank()) <= Rank() && currentStepIndex >= old(currentStepIndex)
      ensures old(hasStarted && !isFinished) ==> RemainingTicks() == old(RemainingTicks()) - 1
    {
      if !hasStarted || isFinished {
        return;
      }
      if timeLeft <= 1 {
        timeLeft := 0;
        CompleteStep();
      } else {
        timeLeft := timeLeft - 1;
      }
    }
  }

  /** The first step's share of a script's total duration. */
  lemma TotalDurationFirst(script: seq<Step>)
    ensures script != [] ==> TotalDuration(script) == script[0].duration + TotalDuration(script[1..])
    ensures script == [] ==> TotalDuration(script) == 0
  {
  }

  /** A suffix of a well-numbered script lasts a non-negative time. */
  lemma {:induction false} TotalDurationNonNegative(script: seq<Step>, from: nat)
    requires WellNumbered(script) && from <= |script|
    ensures TotalDuration(script[from..]) >= 0
    decreases |script| - from
  {
    if from < |script| {
      TotalDurationNonNegative(script, from + 1);
      assert script[from..][1..] == script[from + 1..];
    }
  }
}
