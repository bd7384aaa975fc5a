/**
 * The two writing tasks of the practice app, and a whole Task 1 session
 * driven through the exercise's methods.
 */
module WritingScenarios {
  import opened Wrappers
  import opened Writing

  const Task1: TaskProps := TaskProps(
    "Writing Task 1", 20 * 60, 150,
    "You should spend about 20 minutes on this task.",
    "The chart below shows the number of girls per 100 boys enrolled in different levels of school education.\nSummarise the information by selecting and reporting the main features, and make comparisons where relevant.",
    Some("https://i.postimg.cc/7hKH3Nq2/task1.png"),
    "IELTS_Task1_Essay.txt")

  const Task2: TaskProps := TaskProps(
    "Writing Task 2", 40 * 60, 250,
    "You should spend about 40 minutes on this task.",
    "People are having more and more sugar-based drinks. What are the reasons? What are the solutions to make people drink less.",
    None,
    "IELTS_Task2_Essay.txt")

  /** The start screens announce 20 and 40 minutes. */
  lemma TaskMinutes()
    ensures Minutes(Task1.durationSeconds) == 20 && Minutes(Task2.durationSeconds) == 40
  {
  }

  /** Task 1 runs out after exactly 1200 ticks; what was typed before keeps
      its place, and typing after that is ignored. */
  method RunTask1(essay: string, late: string) returns (ticks: nat, finalEssay: string, finished: bool)
    ensures ticks == 1200 && finished && finalEssay == essay
  {
    var w := new WritingSession(Task1);
    w.Start();
    w.Edit(essay);
    ticks := 0;
    while !w.isFinished
      invariant w.Valid() && w.hasStarted && w.props == Task1 && w.essayText == essay
      invariant w.isFinished ==> ticks == 1200
      invariant !w.isFinished ==> w.timeLeft == 1200 - ticks && ticks < 1200
      decreases 1200 - ticks
    {
      w.Tick();
      ticks := ticks + 1;
    }
    w.Edit(late);
    finalEssay, finished := w.essayText, w.isFinished;
  }

  /** Giving the same exercise Task 2's properties after Task 1 was started
      and written in brings back the start screen with Task 2's time and an
      empty essay. */
  method SwitchTask(essay: string) returns (started: bool, timeLeft: int, text: string)
    ensures !started && timeLeft == 2400 && text == []
  {
    var w := new WritingSession(Task1);
    w.Start();
    w.Edit(essay);
    w.Tick();
    w.ChangeTask(Task2);
    started, timeLeft, text := w.hasStarted, w.timeLeft, w.essayText;
  }
}
