/** What `redline render queue` prints on success, and how the queue-attempt harness reads it back. */
module ProductionStdout {
  import opened LineSplitting
  import opened PythonValues
  import T = Text

  datatype Job = Job(
    id: int, episodeId: string, presetName: string, projectName: Option<string>, timelineName: Option<string>,
    resolveJobId: Option<string>, status: string, outputPath: string, createdAt: Option<string>, updatedAt: Option<string>)

  // ---- the printer ----

  function Repeat(c: char, n: nat): string {
    seq(n, i => c)
  }

  const BANNER := Repeat('=', 49)
  const TITLE := Repeat(' ', 12) + "REDLINE OS - Render Queue" + Repeat(' ', 12)

  function TextOrNone(s: Option<string>): string {
    if s.None? then "None" else s.value
  }

  function Optional(tag: string, s: Option<string>): seq<string> {
    if s.None? then [] else [tag + " " + s.value]
  }

  function JobLines(job: Job): seq<string> {
    ["Job ID:" + " " + T.IntText(job.id),
     "Episode ID:" + " " + job.episodeId,
     "Preset:" + " " + job.presetName]
    + Optional("Project:", job.projectName)
    + Optional("Timeline:", job.timelineName)
    + ["Resolve Job ID:" + " " + TextOrNone(job.resolveJobId),
       "Status:" + " " + job.status,
       "Output:" + " " + job.outputPath]
    + Optional("Created:", job.createdAt)
    + Optional("Last updated:", job.updatedAt)
  }

  function QueueLines(job: Job): seq<string> {
    [BANNER, TITLE, BANNER, "", "Render queued", ""] + JobLines(job)
    + ["", "Rendering started:" + " " + "no", "Archive performed:" + " " + "no"]
  }

  class Stdout {
    const newline: string
    var text: string

    constructor (newline: string)
      ensures text == "" && this.newline == newline
    {
      this.newline := newline;
      text := "";
    }

    method PrintLine(line: string)
      modifies this
      ensures text == old(text) + Printed([line], newline)
    {
      text := text + line + newline;
      assert Printed([line], newline) == line + newline + "";
    }

    method PrintOptional(tag: string, s: Option<string>)
      modifies this
      ensures text == old(text) + Printed(Optional(tag, s), newline)
    {
      if s.Some? { PrintLine(tag + " " + s.value); }
    }

    method PrintThree(a: string, b: string, c: string)
      modifies this
      ensures text == old(text) + Printed([a, b, c], newline)
    {
      PrintLine(a);
      PrintLine(b);
      PrintLine(c);
      ThreePrinted(old(text), a, b, c, newline);
    }

    method PrintJob(job: Job)
      modifies this
      ensures text == old(text) + Printed(JobLines(job), newline)
    {
      hide Printed;
      ghost var head := ["Job ID:" + " " + T.IntText(job.id), "Episode ID:" + " " + job.episodeId, "Preset:" + " " + job.presetName];
      PrintThree("Job ID:" + " " + T.IntText(job.id), "Episode ID:" + " " + job.episodeId, "Preset:" + " " + job.presetName);
      PrintOptional("Project:", job.projectName);
      PrintedJoins(head, Optional("Project:", job.projectName), newline);
      PrintOptional("Timeline:", job.timelineName);
      ghost var middle := head + Optional("Project:", job.projectName) + Optional("Timeline:", job.timelineName);
      PrintedJoins(head + Optional("Project:", job.projectName), Optional("Timeline:", job.timelineName), newline);
      ghost var tail :=
        ["Resolve Job ID:" + " " + TextOrNone(job.resolveJobId), "Status:" + " " + job.status, "Output:" + " " + job.outputPath];
      PrintThree("Resolve Job ID:" + " " + TextOrNone(job.resolveJobId), "Status:" + " " + job.status, "Output:" + " " + job.outputPath);
      PrintedJoins(middle, tail, newline);
      PrintOptional("Created:", job.createdAt);
      PrintedJoins(middle + tail, Optional("Created:", job.createdAt), newline);
      PrintOptional("Last updated:", job.updatedAt);
      PrintedJoins(middle + tail + Optional("Created:", job.createdAt), Optional("Last updated:", job.updatedAt), newline);
    }

    method PrintRenderQueueResult(job: Job)
      modifies this
      ensures text == old(text) + Printed(QueueLines(job), newline)
    {
      hide Printed, JobLines;
      PrintThree(BANNER, TITLE, BANNER);
      PrintThree("", "Render queued", "");
      ghost var first, second := [BANNER, TITLE, BANNER], ["", "Render queued", ""];
      PrintedJoins(first, second, newline);
      assert first + second == [BANNER, TITLE, BANNER, "", "Render queued", ""];
      PrintJob(job);
      PrintedJoins(first + second, JobLines(job), newline);
      ghost var tail := ["", "Rendering started:" + " " + "no", "Archive performed:" + " " + "no"];
      PrintThree("", "Rendering started:" + " " + "no", "Archive performed:" + " " + "no");
      PrintedJoins(first + second + JobLines(job), tail, newline);
    }
  }

  lemma ThreePrinted(text: string, a: string, b: string, c: string, newline: string)
    ensures text + Printed([a], newline) + Printed([b], newline) + Printed([c], newline) == text + Printed([a, b, c], newline)
  {
  }
}
