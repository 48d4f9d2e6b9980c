/** How the queue-attempt harness reads production stdout and holds it against a database row. */
module StdoutEvidence {
  import opened LineSplitting
  import opened ProductionStdout
  import opened PythonValues
  import T = Text

  datatype Field =
    | JobId | EpisodeId | PresetName | ProjectName | TimelineName | ResolveJobId | Status | OutputPath
    | RenderingStarted | ArchivePerformed

  const FIELDS: seq<Field> :=
    [JobId, EpisodeId, PresetName, ProjectName, TimelineName, ResolveJobId, Status, OutputPath,
     RenderingStarted, ArchivePerformed]

  const REQUIRED: seq<Field> := FIELDS[..8]
  const CONFIRMATIONS: seq<Field> := FIELDS[8..]

  function Tag(f: Field): string {
    match f
    case JobId => "Job ID:"
    case EpisodeId => "Episode ID:"
    case PresetName => "Preset:"
    case ProjectName => "Project:"
    case TimelineName => "Timeline:"
    case ResolveJobId => "Resolve Job ID:"
    case Status => "Status:"
    case OutputPath => "Output:"
    case RenderingStarted => "Rendering started:"
    case ArchivePerformed => "Archive performed:"
  }

  // ---- the parser ----

  function ValueOn(line: string, f: Field): seq<string> {
    if T.StartsWith(line, Tag(f)) then [T.Strip(line[|Tag(f)|..])] else []
  }

  /** Every value the field is given, in order. */
  function Values(lines: seq<string>, f: Field): seq<string> {
    if lines == [] then [] else Values(lines[..|lines| - 1], f) + ValueOn(lines[|lines| - 1], f)
  }

  type Occurrences = map<Field, seq<string>>

  predicate HoldsValues(occurrences: Occurrences, lines: seq<string>) {
    forall f: Field :: f in occurrences && occurrences[f] == Values(lines, f)
  }

  method ParseProductionStdoutOccurrences(stdout: string) returns (occurrences: Occurrences)
    ensures HoldsValues(occurrences, SplitLines(stdout))
  {
    hide ValueOn;
    var lines := SplitLines(stdout);
    occurrences := map f | f in FIELDS :: [];
    EveryFieldIsListed();
    for n := 0 to |lines|
      invariant HoldsValues(occurrences, lines[..n])
    {
      assert lines[..n + 1][..n] == lines[..n];
      occurrences := AddLine(occurrences, lines[n]);
    }
    assert lines[..|lines|] == lines;
  }

  /** The inner loop: the line's value goes to every field whose tag it starts with. */
  method AddLine(before: Occurrences, line: string) returns (occurrences: Occurrences)
    requires forall f: Field :: f in before
    ensures forall f: Field :: f in occurrences && occurrences[f] == before[f] + ValueOn(line, f)
  {
    hide Tag, T.Strip;
    occurrences := before;
    for k := 0 to |FIELDS|
      invariant forall f: Field :: f in occurrences
      invariant forall f: Field ::
                  occurrences[f] == if f in FIELDS[..k] then before[f] + ValueOn(line, f) else before[f]
    {
      var f := FIELDS[k];
      FieldsAreDistinct(k);
      NextField(k);
      if T.StartsWith(line, Tag(f)) {
        occurrences := occurrences[f := occurrences[f] + [T.Strip(line[|Tag(f)|..])]];
      } else {
        assert before[f] + [] == before[f];
      }
    }
    EveryFieldIsListed();
    assert FIELDS[..|FIELDS|] == FIELDS;
  }

  lemma EveryFieldIsListed()
    ensures forall f: Field :: f in FIELDS
  {
    forall f: Field ensures f in FIELDS {
      match f
      case JobId => assert FIELDS[0] == f;
      case EpisodeId => assert FIELDS[1] == f;
      case PresetName => assert FIELDS[2] == f;
      case ProjectName => assert FIELDS[3] == f;
      case TimelineName => assert FIELDS[4] == f;
      case ResolveJobId => assert FIELDS[5] == f;
      case Status => assert FIELDS[6] == f;
      case OutputPath => assert FIELDS[7] == f;
      case RenderingStarted => assert FIELDS[8] == f;
      case ArchivePerformed => assert FIELDS[9] == f;
    }
  }

  lemma NextField(k: nat)
    requires k < |FIELDS|
    ensures forall f: Field :: f in FIELDS[..k + 1] <==> f in FIELDS[..k] || f == FIELDS[k]
  {
    assert FIELDS[..k + 1] == FIELDS[..k] + [FIELDS[k]];
  }

  lemma FieldsAreDistinct(k: nat)
    requires k < |FIELDS|
    ensures FIELDS[k] !in FIELDS[..k]
  {
  }

  // ---- the evaluator ----

  const EPISODE_ID := "RLC-E9901"

  /** A render_jobs row; a database column may be NULL. */
  datatype Row = Row(
    id: int, presetName: Option<string>, projectName: Option<string>, timelineName: Option<string>,
    resolveJobId: Option<string>, status: Option<string>, outputPath: Option<string>)

  datatype Objection = Missing(field: Field) | Repeated(field: Field) | NotOnce(field: Field) | NotNo(field: Field) | Differs(field: Field)

  function FirstNotOnce(occurrences: Occurrences, fields: seq<Field>): Option<Objection>
    requires forall f: Field :: f in occurrences
  {
    if fields == [] then None
    else if occurrences[fields[0]] == [] then Some(Missing(fields[0]))
    else if |occurrences[fields[0]]| > 1 then Some(Repeated(fields[0]))
    else FirstNotOnce(occurrences, fields[1..])
  }

  function FirstNotConfirmed(occurrences: Occurrences, fields: seq<Field>): Option<Objection>
    requires forall f: Field :: f in occurrences
  {
    if fields == [] then None
    else if |occurrences[fields[0]]| != 1 then Some(NotOnce(fields[0]))
    else if occurrences[fields[0]][0] != "no" then Some(NotNo(fields[0]))
    else FirstNotConfirmed(occurrences, fields[1..])
  }

  function OrEmpty(s: Option<string>): string {
    if s.None? then "" else s.value
  }

  function FirstDifference(value: Field -> string, row: Row): Option<Objection> {
    if value(JobId) != T.IntText(row.id) then Some(Differs(JobId))
    else if value(EpisodeId) != EPISODE_ID then Some(Differs(EpisodeId))
    else if Some(value(PresetName)) != row.presetName then Some(Differs(PresetName))
    else if Some(value(ProjectName)) != row.projectName then Some(Differs(ProjectName))
    else if Some(value(TimelineName)) != row.timelineName then Some(Differs(TimelineName))
    else if value(ResolveJobId) != OrEmpty(row.resolveJobId) then Some(Differs(ResolveJobId))
    else if Some(value(Status)) != row.status then Some(Differs(Status))
    else if Some(value(OutputPath)) != row.outputPath then Some(Differs(OutputPath))
    else None
  }

  function FirstValue(occurrences: Occurrences): Field -> string {
    f => if f in occurrences && occurrences[f] != [] then occurrences[f][0] else ""
  }

  /** None when the evidence corroborates the row, otherwise the first objection. */
  function Evaluate(occurrences: Occurrences, row: Row): Option<Objection>
    requires forall f: Field :: f in occurrences
  {
    var missing := FirstNotOnce(occurrences, REQUIRED);
    if missing.Some? then missing
    else
      var unconfirmed := FirstNotConfirmed(occurrences, CONFIRMATIONS);
      if unconfirmed.Some? then unconfirmed else FirstDifference(FirstValue(occurrences), row)
  }

  lemma {:induction false} EachOnce(occurrences: Occurrences, fields: seq<Field>)
    requires forall f: Field :: f in occurrences
    ensures FirstNotOnce(occurrences, fields).None? <==> forall f | f in fields :: |occurrences[f]| == 1
  {
    if fields != [] {
      EachOnce(occurrences, fields[1..]);
      assert fields == [fields[0]] + fields[1..];
    }
  }

  lemma {:induction false} EachConfirmed(occurrences: Occurrences, fields: seq<Field>)
    requires forall f: Field :: f in occurrences
    ensures FirstNotConfirmed(occurrences, fields).None? <==> forall f | f in fields :: occurrences[f] == ["no"]
  {
    if fields != [] {
      EachConfirmed(occurrences, fields[1..]);
      assert fields == [fields[0]] + fields[1..];
    }
  }

  predicate IsConfirmation(f: Field) {
    f == RenderingStarted || f == ArchivePerformed
  }

  lemma FieldKinds(f: Field)
    ensures f in REQUIRED <==> !IsConfirmation(f)
    ensures f in CONFIRMATIONS <==> IsConfirmation(f)
  {
    EveryFieldIsListed();
    assert REQUIRED == [JobId, EpisodeId, PresetName, ProjectName, TimelineName, ResolveJobId, Status, OutputPath];
    assert CONFIRMATIONS == [RenderingStarted, ArchivePerformed];
  }

  /** The row is corroborated exactly when every field occurs once, both confirmations say no and the
      values are the row's. */
  lemma CorroboratedIff(occurrences: Occurrences, row: Row)
    requires forall f: Field :: f in occurrences
    ensures Evaluate(occurrences, row).None? <==>
            && (forall f: Field :: |occurrences[f]| == 1)
            && (forall f: Field | IsConfirmation(f) :: occurrences[f] == ["no"])
            && FirstDifference(FirstValue(occurrences), row).None?
  {
    EachOnce(occurrences, REQUIRED);
    EachConfirmed(occurrences, CONFIRMATIONS);
    forall f: Field ensures (f in REQUIRED <==> !IsConfirmation(f)) && (f in CONFIRMATIONS <==> IsConfirmation(f)) {
      FieldKinds(f);
    }
  }

  // ---- printing and reading back ----

  function FieldText(job: Job, f: Field): Option<string> {
    match f
    case JobId => Some(T.IntText(job.id))
    case EpisodeId => Some(job.episodeId)
    case PresetName => Some(job.presetName)
    case ProjectName => job.projectName
    case TimelineName => job.timelineName
    case ResolveJobId => Some(TextOrNone(job.resolveJobId))
    case Status => Some(job.status)
    case OutputPath => Some(job.outputPath)
    case RenderingStarted => Some("no")
    case ArchivePerformed => Some("no")
  }

  /** No field has a line break or white space at either end. */
  predicate Printable(job: Job) {
    && (forall f: Field | FieldText(job, f).Some? :: OneLine(FieldText(job, f).value) && T.Trimmed(FieldText(job, f).value))
    && (job.createdAt.Some? ==> OneLine(job.createdAt.value))
    && (job.updatedAt.Some? ==> OneLine(job.updatedAt.value))
  }

  lemma OneMoreLine(lines: seq<string>, line: string, f: Field)
    ensures Values(lines + [line], f) == Values(lines, f) + ValueOn(line, f)
  {
    assert (lines + [line])[..|lines|] == lines;
  }

  lemma {:induction false} ValuesJoin(a: seq<string>, b: seq<string>, f: Field)
    ensures Values(a + b, f) == Values(a, f) + Values(b, f)
    decreases |b|
  {
    if b == [] {
      assert a + b == a;
      assert Values(a, f) + [] == Values(a, f);
    } else {
      JoinOneMore(a, b[..|b| - 1], b[|b| - 1], b, f);
    }
  }

  lemma {:induction false} JoinOneMore(a: seq<string>, front: seq<string>, last: string, b: seq<string>, f: Field)
    requires b == front + [last]
    ensures Values(a + b, f) == Values(a, f) + Values(b, f)
    decreases |b|, 0
  {
    hide Values, ValueOn;
    ValuesJoin(a, front, f);
    OneMoreLine(a + front, last, f);
    OneMoreLine(front, last, f);
    assert a + (front + [last]) == a + front + [last];
    assert Values(a, f) + (Values(front, f) + ValueOn(last, f)) == Values(a, f) + Values(front, f) + ValueOn(last, f);
  }

  lemma ValuesOfOne(line: string, f: Field)
    ensures Values([line], f) == ValueOn(line, f)
  {
    assert [line][..0] == [];
  }

  /** No tag is the beginning of another. */
  lemma TagsAreApart(f: Field, g: Field, rest: string)
    requires f != g
    ensures !T.StartsWith(Tag(f) + rest, Tag(g))
  {
    var line := Tag(f) + rest;
    if f == ResolveJobId && g == RenderingStarted {
      assert line[2] == 's' && Tag(g)[2] == 'n';
    } else if f == RenderingStarted && g == ResolveJobId {
      assert line[2] == 'n' && Tag(g)[2] == 's';
    } else if f == PresetName && g == ProjectName {
      assert line[2] == 'e' && Tag(g)[2] == 'o';
    } else if f == ProjectName && g == PresetName {
      assert line[2] == 'o' && Tag(g)[2] == 'e';
    } else {
      assert line[0] == Tag(f)[0] != Tag(g)[0];
    }
  }

  lemma TaggedLine(f: Field, value: string, g: Field)
    requires T.Trimmed(value)
    ensures ValueOn(Tag(f) + " " + value, g) == if f == g then [value] else []
  {
    var line := Tag(f) + " " + value;
    assert line == Tag(f) + (" " + value);
    if f == g {
      assert line[|Tag(f)|..] == " " + value;
      StripAfterSpace(value);
    } else {
      TagsAreApart(f, g, " " + value);
    }
  }

  lemma StripAfterSpace(value: string)
    requires T.Trimmed(value)
    ensures T.Strip(" " + value) == value
  {
    assert (" " + value)[1..] == value;
    assert T.LeadingSpaces(" " + value) == 1 + T.LeadingSpaces(value);
  }

  function FieldLine(job: Job, f: Field): seq<string> {
    Optional(Tag(f), FieldText(job, f))
  }

  function FieldLines(job: Job, fields: seq<Field>): seq<string> {
    if fields == [] then [] else FieldLine(job, fields[0]) + FieldLines(job, fields[1..])
  }

  function ValueOf(job: Job, f: Field): seq<string> {
    if FieldText(job, f).None? then [] else [FieldText(job, f).value]
  }

  lemma {:induction false} ValuesOfFieldLines(job: Job, fields: seq<Field>, g: Field)
    requires Printable(job) && forall i, j | 0 <= i < j < |fields| :: fields[i] != fields[j]
    ensures Values(FieldLines(job, fields), g) == if g in fields then ValueOf(job, g) else []
  {
    if fields != [] {
      hide Values, ValueOn, Tag, FieldText;
      var f, rest := fields[0], fields[1..];
      ValuesOfFieldLines(job, rest, g);
      ValuesJoin(FieldLine(job, f), FieldLines(job, rest), g);
      ValuesOfFieldLine(job, f, g);
      assert fields == [f] + rest;
    } else {
      assert Values([], g) == [];
    }
  }

  lemma ValuesOfFieldLine(job: Job, f: Field, g: Field)
    requires Printable(job)
    ensures Values(FieldLine(job, f), g) == if f == g then ValueOf(job, f) else []
  {
    if FieldText(job, f).Some? {
      TaggedLine(f, FieldText(job, f).value, g);
      ValuesOfOne(FieldLine(job, f)[0], g);
    }
  }

  /** No tag begins such a line. */
  predicate IsPlain(line: string) {
    line == "" || line[0] in {'=', ' ', 'C', 'L'} || line == "Render queued"
  }

  predicate AllPlain(lines: seq<string>) {
    forall i | 0 <= i < |lines| :: IsPlain(lines[i])
  }

  lemma PlainLine(line: string, f: Field)
    requires IsPlain(line)
    ensures ValueOn(line, f) == []
  {
  }

  lemma {:induction false} PlainLines(lines: seq<string>, f: Field)
    requires AllPlain(lines)
    ensures Values(lines, f) == []
  {
    if lines != [] {
      hide Values, ValueOn, IsPlain;
      var n := |lines| - 1;
      PlainLines(lines[..n], f);
      PlainLine(lines[n], f);
      OneMoreLine(lines[..n], lines[n], f);
      assert lines == lines[..n] + [lines[n]];
    } else {
      assert Values([], f) == [];
    }
  }

  function Header(): seq<string> {
    [BANNER, TITLE, BANNER, "", "Render queued", ""]
  }

  function Times(job: Job): seq<string> {
    Optional("Created:", job.createdAt) + Optional("Last updated:", job.updatedAt) + [""]
  }

  lemma QueueLinesByField(job: Job)
    ensures QueueLines(job) == Header() + FieldLines(job, REQUIRED) + Times(job) + FieldLines(job, CONFIRMATIONS)
  {
    RequiredLines(job);
    ConfirmationLines(job);
  }

  lemma RequiredLines(job: Job)
    ensures JobLines(job) == FieldLines(job, REQUIRED) + Optional("Created:", job.createdAt) + Optional("Last updated:", job.updatedAt)
  {
    hide FieldLines, FieldLine;
    var head, tail := [JobId, EpisodeId, PresetName], [ResolveJobId, Status, OutputPath];
    assert REQUIRED == head + [ProjectName] + [TimelineName] + tail;
    FieldLinesJoin(job, head + [ProjectName] + [TimelineName], tail);
    FieldLinesJoin(job, head + [ProjectName], [TimelineName]);
    FieldLinesJoin(job, head, [ProjectName]);
    HeadLines(job);
    TailLines(job);
    OneFieldLine(job, ProjectName);
    OneFieldLine(job, TimelineName);
    ProjectAndTimeline(job);
  }

  lemma HeadLines(job: Job)
    ensures FieldLines(job, [JobId, EpisodeId, PresetName]) ==
              ["Job ID:" + " " + T.IntText(job.id), "Episode ID:" + " " + job.episodeId, "Preset:" + " " + job.presetName]
  {
    hide FieldLines;
    ThreeFieldLines(job, JobId, EpisodeId, PresetName);
  }

  lemma TailLines(job: Job)
    ensures FieldLines(job, [ResolveJobId, Status, OutputPath]) ==
              ["Resolve Job ID:" + " " + TextOrNone(job.resolveJobId), "Status:" + " " + job.status, "Output:" + " " + job.outputPath]
  {
    hide FieldLines;
    ThreeFieldLines(job, ResolveJobId, Status, OutputPath);
  }

  lemma ProjectAndTimeline(job: Job)
    ensures FieldLine(job, ProjectName) == Optional("Project:", job.projectName)
    ensures FieldLine(job, TimelineName) == Optional("Timeline:", job.timelineName)
  {
  }

  lemma ConfirmationLines(job: Job)
    ensures FieldLines(job, CONFIRMATIONS) == ["Rendering started:" + " " + "no", "Archive performed:" + " " + "no"]
  {
    FieldLinesJoin(job, [RenderingStarted], [ArchivePerformed]);
    OneFieldLine(job, RenderingStarted);
    OneFieldLine(job, ArchivePerformed);
    assert CONFIRMATIONS == [RenderingStarted] + [ArchivePerformed];
  }

  lemma {:induction false} FieldLinesJoin(job: Job, a: seq<Field>, b: seq<Field>)
    ensures FieldLines(job, a + b) == FieldLines(job, a) + FieldLines(job, b)
  {
    hide FieldLine;
    if a == [] {
      assert a + b == b;
    } else {
      FieldLinesJoin(job, a[1..], b);
      assert (a + b)[1..] == a[1..] + b;
    }
  }

  lemma OneFieldLine(job: Job, f: Field)
    ensures FieldLines(job, [f]) == FieldLine(job, f)
  {
    assert [f][1..] == [];
  }

  lemma ThreeFieldLines(job: Job, f: Field, g: Field, h: Field)
    ensures FieldLines(job, [f, g, h]) == FieldLine(job, f) + FieldLine(job, g) + FieldLine(job, h)
  {
    hide FieldLine, FieldLines;
    assert [f, g, h] == [f] + [g] + [h];
    FieldLinesJoin(job, [f] + [g], [h]);
    FieldLinesJoin(job, [f], [g]);
    OneFieldLine(job, f);
    OneFieldLine(job, g);
    OneFieldLine(job, h);
  }

  /** Reading the printed block gives every tag the one value that was printed for it. */
  lemma PrintedBlockReadsBack(job: Job, newline: string, f: Field)
    requires Printable(job) && IsNewline(newline)
    ensures SplitLines(Printed(QueueLines(job), newline)) == QueueLines(job)
    ensures Values(QueueLines(job), f) == ValueOf(job, f)
  {
    hide Values, FieldLines, QueueLines, FieldText, Tag, Header, Times, Printed, SplitLines, AllPlain, ValueOf, Printable;
    PrintedLinesAreLines(job);
    SplitLinesOfPrinted(QueueLines(job), newline);
    QueueLinesByField(job);
    OtherLinesArePlain(job);
    BlockValues(Header(), FieldLines(job, REQUIRED), Times(job), FieldLines(job, CONFIRMATIONS), f);
    ValuesOfFieldLines(job, REQUIRED, f);
    ValuesOfFieldLines(job, CONFIRMATIONS, f);
    FieldKinds(f);
    assert [] + ValueOf(job, f) == ValueOf(job, f) + [];
  }

  lemma BlockValues(a: seq<string>, b: seq<string>, c: seq<string>, d: seq<string>, f: Field)
    requires AllPlain(a) && AllPlain(c)
    ensures Values(a + b + c + d, f) == Values(b, f) + Values(d, f)
  {
    hide Values, IsPlain;
    ValuesJoin(a + b + c, d, f);
    ValuesJoin(a + b, c, f);
    ValuesJoin(a, b, f);
    PlainLines(a, f);
    PlainLines(c, f);
    assert [] + Values(b, f) + [] == Values(b, f);
  }

  lemma OtherLinesArePlain(job: Job)
    ensures AllPlain(Header()) && AllPlain(Times(job))
  {
    assert BANNER[0] == '=' && TITLE[0] == ' ';
  }

  predicate AllOneLine(lines: seq<string>) {
    forall i | 0 <= i < |lines| :: OneLine(lines[i])
  }

  lemma PrintedLinesAreLines(job: Job)
    requires Printable(job)
    ensures AllOneLine(QueueLines(job))
  {
    hide QueueLines, FieldLines, OneLine, Header, Times, FieldText;
    QueueLinesByField(job);
    FieldLinesAreLines(job, REQUIRED);
    FieldLinesAreLines(job, CONFIRMATIONS);
    HeaderIsLines();
    TimesAreLines(job);
  }

  lemma HeaderIsLines()
    ensures AllOneLine(Header())
  {
    assert OneLine("REDLINE OS - Render Queue") && OneLine("Render queued");
    assert OneLine(BANNER) && OneLine(TITLE);
  }

  lemma TimesAreLines(job: Job)
    requires Printable(job)
    ensures AllOneLine(Times(job))
  {
    assert OneLine("Created:") && OneLine("Last updated:");
  }

  lemma {:induction false} FieldLinesAreLines(job: Job, fields: seq<Field>)
    requires Printable(job)
    ensures AllOneLine(FieldLines(job, fields))
  {
    hide OneLine, FieldText;
    if fields != [] {
      FieldLinesAreLines(job, fields[1..]);
      var f := fields[0];
      if FieldText(job, f).Some? { TagIsLine(f, FieldText(job, f).value); }
    }
  }

  lemma TagIsLine(f: Field, value: string)
    requires OneLine(value)
    ensures OneLine(Tag(f) + " " + value)
  {
    if f in {JobId, EpisodeId, PresetName, ProjectName, TimelineName} { ShortTagIsLine(f); } else { LongTagIsLine(f); }
    hide Tag;
    var tag := Tag(f);
    assert forall i | 0 <= i < |tag| :: (tag + " " + value)[i] == tag[i];
  }

  lemma ShortTagIsLine(f: Field)
    requires f in {JobId, EpisodeId, PresetName, ProjectName, TimelineName}
    ensures OneLine(Tag(f))
  {
  }

  lemma LongTagIsLine(f: Field)
    requires f !in {JobId, EpisodeId, PresetName, ProjectName, TimelineName}
    ensures OneLine(Tag(f))
  {
    if f in {ResolveJobId, Status, OutputPath} { MiddleTagIsLine(f); } else { LastTagIsLine(f); }
  }

  lemma MiddleTagIsLine(f: Field)
    requires f in {ResolveJobId, Status, OutputPath}
    ensures OneLine(Tag(f))
  {
  }

  lemma LastTagIsLine(f: Field)
    requires f in {RenderingStarted, ArchivePerformed}
    ensures OneLine(Tag(f))
  {
  }

  // ---- printer against evaluator ----

  /** The row the evaluator wants to see for a printed job. */
  predicate IsRowOf(row: Row, job: Job) {
    && row.id == job.id && job.episodeId == EPISODE_ID
    && row.presetName == Some(job.presetName)
    && job.projectName.Some? && row.projectName == job.projectName
    && job.timelineName.Some? && row.timelineName == job.timelineName
    && OrEmpty(row.resolveJobId) == TextOrNone(job.resolveJobId)
    && row.status == Some(job.status) && row.outputPath == Some(job.outputPath)
  }

  lemma IntTextInjective(a: int, b: int)
    requires T.IntText(a) == T.IntText(b)
    ensures a == b
  {
    var s := T.IntText(a);
    SignShows(a);
    SignShows(b);
    if a < 0 {
      assert s[1..] == T.NatText(-a) && s[1..] == T.NatText(-b);
      T.NatTextInjective(-a, -b);
    } else {
      T.NatTextInjective(a, b);
    }
  }

  lemma SignShows(i: int)
    ensures T.IntText(i)[0] == '-' <==> i < 0
  {
    if i >= 0 { assert T.IsDigit(T.NatText(i)[0]); }
  }

  /** What was printed for a job corroborates a row exactly when the row is that job's. */
  lemma PrintedJobCorroborates(job: Job, newline: string, occurrences: Occurrences, row: Row)
    requires Printable(job) && IsNewline(newline)
    requires HoldsValues(occurrences, SplitLines(Printed(QueueLines(job), newline)))
    ensures Evaluate(occurrences, row).None? <==> IsRowOf(row, job)
  {
    hide Values, QueueLines, Printed, SplitLines, FIELDS, T.IntText, Printable, FirstNotOnce, FirstNotConfirmed;
    forall f: Field ensures occurrences[f] == ValueOf(job, f) { PrintedBlockReadsBack(job, newline, f); }
    CorroboratedIff(occurrences, row);
    ValuesAreThere(job);
    if job.projectName.Some? && job.timelineName.Some? {
      hide Evaluate;
      DifferenceOfPrinted(job, FirstValue(occurrences), row);
    }
  }

  lemma ValuesAreThere(job: Job)
    ensures (forall f: Field :: |ValueOf(job, f)| == 1) <==> job.projectName.Some? && job.timelineName.Some?
    ensures forall f: Field | IsConfirmation(f) :: ValueOf(job, f) == ["no"]
  {
    assert |ValueOf(job, ProjectName)| == 1 <==> job.projectName.Some?;
    assert |ValueOf(job, TimelineName)| == 1 <==> job.timelineName.Some?;
  }

  lemma DifferenceOfPrinted(job: Job, value: Field -> string, row: Row)
    requires job.projectName.Some? && job.timelineName.Some?
    requires forall f: Field :: FieldText(job, f) == Some(value(f))
    ensures FirstDifference(value, row).None? <==> IsRowOf(row, job)
  {
    hide T.IntText;
    assert FieldText(job, JobId) == Some(value(JobId));
    assert FieldText(job, EpisodeId) == Some(value(EpisodeId));
    assert FieldText(job, PresetName) == Some(value(PresetName));
    assert FieldText(job, ProjectName) == Some(value(ProjectName));
    assert FieldText(job, TimelineName) == Some(value(TimelineName));
    assert FieldText(job, ResolveJobId) == Some(value(ResolveJobId));
    assert FieldText(job, Status) == Some(value(Status));
    assert FieldText(job, OutputPath) == Some(value(OutputPath));
    if T.IntText(row.id) == T.IntText(job.id) { IntTextInjective(row.id, job.id); }
  }

  /** One stdout text corroborates at most one row: two rows it corroborates differ at most in whether
      a missing Resolve job id is NULL or empty. */
  lemma OneStdoutOneRow(occurrences: Occurrences, row: Row, other: Row)
    requires forall f: Field :: f in occurrences
    requires Evaluate(occurrences, row).None? && Evaluate(occurrences, other).None?
    ensures other.(resolveJobId := row.resolveJobId) == row
    ensures OrEmpty(other.resolveJobId) == OrEmpty(row.resolveJobId)
  {
    hide FIELDS, T.IntText, FirstNotOnce, FirstNotConfirmed;
    IntTextInjective(row.id, other.id);
  }
}
