/**
 * The fixed script of the speaking exercise: 22 timed steps covering the
 * three parts of the speaking test (Part 1 interview questions, the Part 2
 * cue card with its preparation interval, Part 3 discussion questions).
 */
module SpeakingScript {

  datatype StepKind = Question | Preparation | CueCard

  /** One scripted step. Every step of the script has a topic, so the
      optional `topic` of a step is a plain string here. */
  datatype Step = Step(id: int, part: string, topic: string, content: string, duration: int, kind: StepKind)

  const CueCardText: string :=
    "Describe a piece of good advice that you gave to someone.\n\nYou should say:\n- Who you gave the advice to\n- What the advice was\n- Why you gave this advice\n- And explain how the person reacted to your advice."

  const Steps: seq<Step> := [
    // Part 1: one minute per question
    Step(1, "Part 1", "Work or Study", "Do you work or are you a student?", 60, Question),
    Step(2, "Part 1", "Work or Study", "What do you like most about your job/course?", 60, Question),
    Step(3, "Part 1", "Work or Study", "Is there anything you dislike about it?", 60, Question),
    Step(4, "Part 1", "Work or Study", "Do you plan to continue in this field in the future?", 60, Question),
    Step(5, "Part 1", "Weekends", "How do you usually spend your weekends?", 60, Question),
    Step(6, "Part 1", "Weekends", "Do you prefer to relax or go out on weekends?", 60, Question),
    Step(7, "Part 1", "Weekends", "What did you do last weekend?", 60, Question),
    Step(8, "Part 1", "Weekends", "Do you think weekends are important for people? Why?", 60, Question),
    Step(9, "Part 1", "Sunglasses", "Do you like wearing sunglasses?", 60, Question),
    Step(10, "Part 1", "Sunglasses", "Where do you usually buy sunglasses?", 60, Question),
    Step(11, "Part 1", "Sunglasses", "Have you ever lost a pair of sunglasses?", 60, Question),
    Step(12, "Part 1", "Sunglasses", "Do people in your country wear sunglasses often?", 60, Question),
    // Part 2: 90 seconds of preparation, then 3 minutes of speaking
    Step(13, "Part 2", "Cue Card (Preparation)", CueCardText, 90, Preparation),
    Step(14, "Part 2", "Cue Card (Speaking)", CueCardText, 180, CueCard),
    // Part 3: 90 seconds per question
    Step(15, "Part 3", "Parents and Advice", "Do you think parents should give their children advice? Why or why not?", 90, Question),
    Step(16, "Part 3", "Parents and Advice", "At what age do children usually start resisting their parents' advice?", 90, Question),
    Step(17, "Part 3", "Parents and Advice", "Is the advice given by parents today different from the advice given in the past?", 90, Question),
    Step(18, "Part 3", "Professional Advice", "In which situations do people usually seek advice from professionals (e.g., doctors, lawyers)?", 90, Question),
    Step(19, "Part 3", "Professional Advice", "Do you think people rely too much on online information instead of professional advice nowadays?", 90, Question),
    Step(20, "Part 3", "Professional Advice", "What qualities make a person a good advisor?", 90, Question),
    Step(21, "Part 3", "Peer Advice", "Are friends better at giving advice than family members?", 90, Question),
    Step(22, "Part 3", "Peer Advice", "Can giving bad advice to a friend damage the friendship?", 90, Question)
  ]

  /** Shape of a script: each step is numbered by its
      position (from 1) and lasts a positive number of seconds. */
  ghost predicate WellNumbered(script: seq<Step>) {
    forall i :: 0 <= i < |script| ==> script[i].id == i + 1 && script[i].duration > 0
  }

  /** Total length of a script in seconds. */
  function TotalDuration(script: seq<Step>): int {
    if script == [] then 0 else script[0].duration + TotalDuration(script[1..])
  }

  /** The recording-bearing steps are all but the one preparation step. */
  predicate RecordsAnswer(step: Step) {
    step.kind != Preparation
  }

  /** The label shown for a finished recording: part and topic. */
  function Label(step: Step): (text: string)
    ensures |text| == |step.part| + 3 + |step.topic|
    ensures text[..|step.part|] == step.part
    ensures text[|step.part|..|step.part| + 3] == " - "
    ensures text[|step.part| + 3..] == step.topic
  {
    step.part + " - " + step.topic
  }

  lemma ScriptShape()
    ensures |Steps| == 22
    ensures WellNumbered(Steps)
  {
  }

  /** Only step 13 (index 12) is a preparation step. */
  lemma OnlyPreparationStep()
    ensures forall i :: 0 <= i < |Steps| ==> (Steps[i].kind == Preparation <==> i == 12)
  {
  }

  /** The first step asks about work or study, for one minute. */
  lemma FirstStep()
    ensures Steps[0].id == 1 && Steps[0].duration == 60 && Steps[0].kind == Question
    ensures Label(Steps[0]) == "Part 1 - Work or Study"
  {
    var first := Steps[0];
    assert first == Step(1, "Part 1", "Work or Study", "Do you work or are you a student?", 60, Question);
    assert Label(first) == "Part 1" + " - " + "Work or Study";
  }

  /** The whole session lasts 28.5 minutes. */
  lemma ScriptTotal()
    ensures TotalDuration(Steps) == 1710
  {
    TotalDurationByParts(Steps);
  }

  /** Twelve one-minute questions, 90 seconds of preparation, three minutes
      of speaking and eight 90-second questions make 1710 seconds. */
  lemma TotalDurationByParts(script: seq<Step>)
    requires |script| == 22
    requires forall i :: 0 <= i < 12 ==> script[i].duration == 60
    requires script[12].duration == 90 && script[13].duration == 180
    requires forall i :: 14 <= i < 22 ==> script[i].duration == 90
    ensures TotalDuration(script) == 1710
  {
    var part1, part2, part3 := script[..12], script[12..14], script[14..];
    assert script == part1 + (part2 + part3);
    TotalDurationConcat(part1, part2 + part3);
    TotalDurationConcat(part2, part3);
    TotalDurationUniform(part1, 60);
    TotalDurationUniform(part3, 90);
    assert part2[1..][1..] == [];
  }

  lemma {:induction false} TotalDurationConcat(a: seq<Step>, b: seq<Step>)
    ensures TotalDuration(a + b) == TotalDuration(a) + TotalDuration(b)
  {
    if a == [] {
      assert a + b == b;
    } else {
      assert (a + b)[1..] == a[1..] + b;
      TotalDurationConcat(a[1..], b);
    }
  }

  /** A script whose steps all last `d` seconds lasts `d` times its length. */
  lemma {:induction false} TotalDurationUniform(script: seq<Step>, d: int)
    requires forall i :: 0 <= i < |script| ==> script[i].duration == d
    ensures TotalDuration(script) == d * |script|
  {
    if script != [] {
      TotalDurationUniform(script[1..], d);
    }
  }
}
