/**
 * The timed writing exercise: a task (title, time allowed, minimum number
 * of words, instructions, prompt, optional image) and the candidate's
 * essay, with a one-second countdown that locks the editor when it runs
 * out, a word-count badge and a plain-text download of the essay.
 */
module Writing {
  import opened Wrappers
  import Words

  /** The properties a writing task is shown with. */
  datatype TaskProps = TaskProps(
    title: string,
    durationSeconds: int,
    minWords: int,
    instructionText: string,
    promptText: string,
    imageSrc: Option<string>,
    downloadFileName: string)

  /** The horizontal rule of the download: 51 dashes. */
  const Rule: string := "---------------------------------------------------"

  /** The image line of the download: only a present, non-empty image
      source is written, as the component tests `imageSrc` for truthiness. */
  function ImageLine(imageSrc: Option<string>): (line: string)
    ensures line != [] <==> imageSrc.Some? && imageSrc.value != []
  {
    if imageSrc.Some? && imageSrc.value != [] then "(Image Source: " + imageSrc.value + ")" else ""
  }

  /** Everything of the download before the image line. */
  function DownloadHead(title: string, instructionText: string, promptText: string): string {
    title + "\n    \nInstructions:\n" + instructionText + "\n\nPrompt:\n" + promptText + "\n"
  }

  /** Everything of the download after the image line. */
  function DownloadTail(essayText: string): string {
    "\n\n" + Rule + "\nStudent Response:\n" + Rule + "\n\n" + essayText + "\n"
  }

  /** The plain-text file offered for download. */
  function DownloadContent(title: string, instructionText: string, promptText: string,
                           imageSrc: Option<string>, essayText: string): string {
    DownloadHead(title, instructionText, promptText) + ImageLine(imageSrc) + DownloadTail(essayText)
  }

  /** The minutes shown on the start screen: the time allowed, rounded down
      to whole minutes (Dafny's division by a positive number rounds down,
      as `Math.floor` does). */
  function Minutes(durationSeconds: int): (m: int)
    ensures m * 60 <= durationSeconds < m * 60 + 60
  {
    durationSeconds / 60
  }

  /** The part before the image line opens with the title on a line of its
      own and adds 31 characters of fixed text to its three fields. */
  lemma HeadParts(title: string, instructionText: string, promptText: string)
    ensures var head := DownloadHead(title, instructionText, promptText);
      |head| == |title| + |instructionText| + |promptText| + 31
      && head[..|title| + 1] == title + "\n"
  {
    var head := DownloadHead(title, instructionText, promptText);
    var rest := "    \nInstructions:\n" + instructionText + "\n\nPrompt:\n" + promptText + "\n";
    assert head == (title + "\n") + rest;
  }

  /** The part after the image line closes with the essay between two line
      breaks and adds 126 characters of fixed text to it. */
  lemma TailParts(essayText: string)
    ensures var tail := DownloadTail(essayText);
      |tail| == |essayText| + 126
      && tail[|tail| - |essayText| - 2..] == "\n" + essayText + "\n"
  {
    var tail := DownloadTail(essayText);
    var rest := "\n\n" + Rule + "\nStudent Response:\n" + Rule + "\n";
    assert |Rule| == 51;
    assert tail == rest + ("\n" + essayText + "\n");
  }

  /** The download starts with the title, on a line of its own, and ends
      with the essay followed by a newline; its length is the length of its
      parts plus 157 characters of fixed text. */
  lemma DownloadLayout(title: string, instructionText: string, promptText: string,
                       imageSrc: Option<string>, essayText: string)
    ensures var c := DownloadContent(title, instructionText, promptText, imageSrc, essayText);
      |c| == |title| + |instructionText| + |promptText| + |ImageLine(imageSrc)| + |essayText| + 157
      && c[..|title| + 1] == title + "\n"
      && c[|c| - |essayText| - 2..] == "\n" + essayText + "\n"
  {
    var head := DownloadHead(title, instructionText, promptText);
    var tail := DownloadTail(essayText);
    HeadParts(title, instructionText, promptText);
    TailParts(essayText);
    var c := head + ImageLine(imageSrc) + tail;
    assert c[..|title| + 1] == head[..|title| + 1];
    assert c[|c| - |essayText| - 2..] == tail[|tail| - |essayText| - 2..];
  }

  /** A present, non-empty image source adds exactly its image line to the
      download, right after the prompt; without one, or with an empty one,
      the download is the same as if there were no image. */
  lemma DownloadImage(title: string, instructionText: string, promptText: string,
                      imageSrc: Option<string>, essayText: string)
    ensures var with := DownloadContent(title, instructionText, promptText, imageSrc, essayText);
      var without := DownloadContent(title, instructionText, promptText, None, essayText);
      var at := |title| + |instructionText| + |promptText| + 31;
      var line := ImageLine(imageSrc);
      |with| == |without| + |line| && at <= |without|
      && with[..at] == without[..at]
      && with[at..at + |line|] == line
      && with[at + |line|..] == without[at..]
      && (line == [] <==> with == without)
  {
    var head := DownloadHead(title, instructionText, promptText);
    var tail := DownloadTail(essayText);
    var line := ImageLine(imageSrc);
    HeadParts(title, instructionText, promptText);
    var without := head + tail;
    assert DownloadContent(title, instructionText, promptText, None, essayText) == without by {
      assert ImageLine(None) == [];
      assert head + [] + tail == without;
    }
    var with := head + line + tail;
    assert with[..|head|] == head;
    assert without[..|head|] == head;
    assert with[|head|..|head| + |line|] == line;
    assert with[|head| + |line|..] == tail;
    assert without[|head|..] == tail;
  }

  class WritingSession {
    var props: TaskProps
    var hasStarted: bool
    var timeLeft: int
    var essayText: string
    var isFinished: bool

    /** Before the start the essay is empty and the countdown shows the time
        allowed; once time is up the countdown stays at 0. */
    ghost predicate Valid()
      reads this
    {
      (!hasStarted ==> !isFinished && timeLeft == props.durationSeconds && essayText == [])
      && (isFinished ==> hasStarted && timeLeft == 0)
      && (hasStarted && !isFinished ==> timeLeft <= props.durationSeconds)
    }

    /** The countdown ticks only between the start and the end of the time. */
    predicate Running()
      reads this
    {
      hasStarted && !isFinished
    }

    /** The component as first shown for a task (the reset effect also runs
        on mount, with the same values). */
    constructor (p: TaskProps)
      ensures Valid() && props == p
      ensures !hasStarted && !isFinished && timeLeft == p.durationSeconds && essayText == []
    {
      props := p;
      hasStarted, timeLeft, essayText, isFinished := false, p.durationSeconds, [], false;
    }

    /** New properties (another task). When the title or the time allowed
        changes, the exercise goes back to its start screen with the new
        time and an empty essay; other changes keep the exercise as it is. */
    method ChangeTask(p: TaskProps)
      requires Valid()
      modifies this
      ensures Valid() && props == p
      ensures p.title != old(props.title) || p.durationSeconds != old(props.durationSeconds) ==>
                !hasStarted && !isFinished && timeLeft == p.durationSeconds && essayText == []
      ensures p.title == old(props.title) && p.durationSeconds == old(props.durationSeconds) ==>
                hasStarted == old(hasStarted) && isFinished == old(isFinished)
                && timeLeft == old(timeLeft) && essayText == old(essayText)
    {
      var reset := p.title != props.title || p.durationSeconds != props.durationSeconds;
      props := p;
      if reset {
        hasStarted := false;
        timeLeft := p.durationSeconds;
        essayText := [];
        isFinished := false;
      }
    }

    /** "Start Writing". */
    method Start()
      requires Valid()
      modifies this
      ensures Valid() && hasStarted
      ensures props == old(props) && isFinished == old(isFinished)
      ensures timeLeft == old(timeLeft) && essayText == old(essayText)
    {
      hasStarted := true;
    }

    /** One second of the countdown: above one second it counts down by one;
        at one second or less it stops at 0 and time is up. */
    method Tick()
      requires Valid()
      modifies this
      ensures Valid()
      ensures !old(Running()) ==> unchanged(this)
      ensures old(Running()) && old(timeLeft) > 1 ==> timeLeft == old(timeLeft) - 1 && !isFinished
      ensures old(Running()) && old(timeLeft) <= 1 ==> timeLeft == 0 && isFinished
      ensures props == old(props) && hasStarted == old(hasStarted) && essayText == old(essayText)
    {
      if !hasStarted || isFinished {
        return;
      }
      if timeLeft <= 1 {
        isFinished := true;
        timeLeft := 0;
      } else {
        timeLeft := timeLeft - 1;
      }
    }

    /** Typing in the editor. The editor exists only after the start and is
        disabled once time is up, so only a running exercise takes edits. */
    method Edit(text: string)
      requires Valid()
      modifies this
      ensures Valid()
      ensures Running() ==> essayText == text
      ensures !Running() ==> essayText == old(essayText)
      ensures props == old(props) && hasStarted == old(hasStarted)
      ensures isFinished == old(isFinished) && timeLeft == old(timeLeft)
    {
      if hasStarted && !isFinished {
        essayText := text;
      }
    }

    /** The badge shows a warning exactly while the essay has fewer maximal
        non-white-space runs than the minimum number of words. */
    function BadgeWarns(): (warns: bool)
      reads this
      ensures warns <==> Words.Runs(essayText) < props.minWords
    {
      Words.WordCountIsRuns(essayText);
      Words.WordCount(essayText) < props.minWords
    }

    /** The file offered by the download button. */
    function Download(): (content: string)
      reads this
      ensures |content| >= |props.title| + |essayText| + 157
      ensures content[..|props.title| + 1] == props.title + "\n"
      ensures content[|content| - |essayText| - 2..] == "\n" + essayText + "\n"
    {
      DownloadLayout(props.title, props.instructionText, props.promptText, props.imageSrc, essayText);
      DownloadContent(props.title, props.instructionText, props.promptText, props.imageSrc, essayText)
    }
  }
}
