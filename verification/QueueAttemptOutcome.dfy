/** The database gates of the queue-attempt harness and the acceptance path of its classifier. */
module QueueAttemptOutcome {
  import opened PythonValues
  import opened StdoutEvidence
  import L = LineSplitting
  import P = ProductionStdout
  import T = Text

  const PRESET_NAME := "broadcast_master"
  const PROJECT_NAME := "RLC-E9901_MASTER"
  const TIMELINE_NAME := "RLC-E9901_TIMELINE"

  /** The fixed places of one installation, and how a stored folder path resolves there. */
  datatype Site = Site(outputPath: string, episodeDirectory: string, directoryOf: string -> string)

  // ---- the database ----

  datatype Episode = Episode(episodeId: string, status: Option<string>, projectName: Option<string>, folderPath: Option<string>)

  datatype JobRow = JobRow(episodeId: string, row: Row)

  /** jobs are in the order of their ids. */
  datatype Database = Database(integrity: Option<string>, episodes: seq<Episode>, jobs: seq<JobRow>, archives: nat)

  /** What one read-only look records; only error is set when the read failed. */
  datatype Baseline = Baseline(
    error: bool, integrity: Option<string>, episodeExists: bool, episodeRowCount: Option<nat>,
    episodeStatus: Option<string>, episodeProjectName: Option<string>, episodeFolderPath: Option<string>,
    totalJobs: Option<nat>, episodeJobs: Option<nat>, episodeRows: Option<seq<Row>>, archives: Option<nat>)

  function EpisodesOf(episodes: seq<Episode>): seq<Episode> {
    if episodes == [] then []
    else (if episodes[0].episodeId == EPISODE_ID then [episodes[0]] else []) + EpisodesOf(episodes[1..])
  }

  function RowsOf(jobs: seq<JobRow>): seq<Row> {
    if jobs == [] then []
    else (if jobs[0].episodeId == EPISODE_ID then [jobs[0].row] else []) + RowsOf(jobs[1..])
  }

  function ReadDatabaseBaseline(db: Option<Database>): Baseline {
    match db
    case None => Baseline(true, None, false, None, None, None, None, None, None, None, None)
    case Some(d) =>
      var episodes, rows := EpisodesOf(d.episodes), RowsOf(d.jobs);
      var first := if episodes == [] then Episode(EPISODE_ID, None, None, None) else episodes[0];
      Baseline(false, d.integrity, episodes != [], Some(|episodes|), first.status, first.projectName, first.folderPath,
               Some(|d.jobs|), Some(|rows|), Some(rows), Some(d.archives))
  }

  datatype Gate =
    | Passed | BaselineUnreadable | IntegrityCheckFailed | EpisodeMissing | EpisodeRowCountUnexpected
    | EpisodeStatusUnexpected | EpisodeProjectUnexpected | EpisodeFolderUnexpected
    | RenderJobsNonzero | ArchivesNonzero

  function EpisodeDirectory(site: Site, folderPath: Option<string>): Option<string> {
    if folderPath.None? || folderPath.value == "" then None else Some(site.directoryOf(folderPath.value))
  }

  function VerifyPreMutationBaseline(site: Site, b: Baseline): Gate {
    if b.error then BaselineUnreadable
    else if b.integrity != Some("ok") then IntegrityCheckFailed
    else if !b.episodeExists then EpisodeMissing
    else if b.episodeRowCount != Some(1) then EpisodeRowCountUnexpected
    else if b.episodeStatus != Some("assembled") then EpisodeStatusUnexpected
    else if b.episodeProjectName != Some(PROJECT_NAME) then EpisodeProjectUnexpected
    else if EpisodeDirectory(site, b.episodeFolderPath) != Some(site.episodeDirectory) then EpisodeFolderUnexpected
    else if b.totalJobs != Some(0) then RenderJobsNonzero
    else if b.archives != Some(0) then ArchivesNonzero
    else Passed
  }

  // ---- the classifier ----

  datatype Classification =
    | ProcessNotLaunched | TimeoutReconciliation | RequiresReview | QueuePathAccepted
    | FailurePattern(category: string)

  /** How the production process ended and what was seen afterwards. */
  datatype Attempt = Attempt(
    exitCode: Option<int>, stdout: string, stderr: string, stderrLength: nat,
    launchError: bool, timedOut: bool, outputExists: bool)

  function OrZero(n: Option<nat>): nat {
    if n.None? then 0 else n.value
  }

  predicate RowIsExpected(site: Site, row: Row) {
    && row.id > 0 && row.presetName == Some(PRESET_NAME) && row.projectName == Some(PROJECT_NAME)
    && row.timelineName == Some(TIMELINE_NAME) && row.status == Some("queued")
    && row.resolveJobId.Some? && T.Strip(row.resolveJobId.value) != ""
    && row.outputPath == Some(site.outputPath)
  }

  predicate LooksQueued(site: Site, a: Attempt, before: Baseline, after: Baseline) {
    && a.exitCode == Some(0) && after.integrity == Some("ok") && after.episodeExists && after.episodeRowCount == Some(1)
    && after.episodeStatus == Some("render_queued") && after.episodeProjectName == Some(PROJECT_NAME)
    && EpisodeDirectory(site, after.episodeFolderPath) == Some(site.episodeDirectory)
    && after.episodeFolderPath == before.episodeFolderPath
    && OrZero(after.episodeJobs) - OrZero(before.episodeJobs) == 1
    && OrZero(after.totalJobs) - OrZero(before.totalJobs) == 1
    && after.episodeRows.Some? && |after.episodeRows.value| == 1
    && OrZero(after.archives) == 0 && !a.outputExists
  }

  function Occurred(stdout: string): (occurrences: Occurrences)
    ensures HoldsValues(occurrences, L.SplitLines(stdout))
  {
    EveryFieldIsListed();
    map f | f in FIELDS :: Values(L.SplitLines(stdout), f)
  }

  /** patterns stands for the ladder of message texts that sorts failures; it never accepts. */
  function Classify(site: Site, patterns: string -> Option<string>, a: Attempt, before: Baseline, after: Baseline): Classification {
    var episodeDelta := OrZero(after.episodeJobs) - OrZero(before.episodeJobs);
    var totalDelta := OrZero(after.totalJobs) - OrZero(before.totalJobs);
    if a.launchError then ProcessNotLaunched
    else if a.timedOut then TimeoutReconciliation
    else if after.error then RequiresReview
    else if a.exitCode == Some(0) && (episodeDelta > 1 || totalDelta > episodeDelta) then RequiresReview
    else if LooksQueued(site, a, before, after) then
      var row := after.episodeRows.value[0];
      if !RowIsExpected(site, row) then RequiresReview
      else if a.stderrLength != 0 then RequiresReview
      else if Evaluate(Occurred(a.stdout), row).Some? then RequiresReview
      else QueuePathAccepted
    else
      var category := patterns(a.stdout + "\n" + a.stderr);
      if category.None? then RequiresReview else FailurePattern(category.value)
  }

  // ---- what acceptance means ----

  /** The database holds the row and no other render job, and the episode has only changed status. */
  predicate HoldsExactly(site: Site, before: Database, after: Database, row: Row) {
    && after.jobs == [JobRow(EPISODE_ID, row)] && after.archives == 0 && after.integrity == Some("ok")
    && |EpisodesOf(before.episodes)| == 1
    && EpisodesOf(after.episodes) == [EpisodesOf(before.episodes)[0].(status := Some("render_queued"))]
  }

  lemma OneJobInAll(jobs: seq<JobRow>)
    requires |jobs| == 1
    ensures RowsOf(jobs) == if jobs[0].episodeId == EPISODE_ID then [jobs[0].row] else []
  {
    assert jobs[1..] == [];
    assert RowsOf(jobs[1..]) == [];
  }

  lemma {:induction false} EpisodesAreOfIt(episodes: seq<Episode>)
    ensures forall e | e in EpisodesOf(episodes) :: e.episodeId == EPISODE_ID
  {
    if episodes != [] { EpisodesAreOfIt(episodes[1..]); }
  }

  /** After the zero-row gate, an attempt is accepted exactly when the process ran to exit code 0 with
      nothing on stderr and no output file, the whole render_jobs table is the one expected row, and
      stdout corroborates that row. */
  lemma AcceptedIff(site: Site, patterns: string -> Option<string>, a: Attempt, before: Database, after: Option<Database>)
    requires VerifyPreMutationBaseline(site, ReadDatabaseBaseline(Some(before))) == Passed
    ensures Classify(site, patterns, a, ReadDatabaseBaseline(Some(before)), ReadDatabaseBaseline(after)) == QueuePathAccepted <==>
            && !a.launchError && !a.timedOut && a.exitCode == Some(0) && a.stderrLength == 0 && !a.outputExists
            && after.Some?
            && exists row :: HoldsExactly(site, before, after.value, row) && RowIsExpected(site, row)
                             && Evaluate(Occurred(a.stdout), row).None?
  {
    hide Evaluate, Occurred, T.Strip;
    var b, c := ReadDatabaseBaseline(Some(before)), ReadDatabaseBaseline(after);
    EpisodesAreOfIt(before.episodes);
    assert before.jobs == [] && RowsOf(before.jobs) == [];
    if after.Some? {
      EpisodesAreOfIt(after.value.episodes);
      if |after.value.jobs| == 1 { OneJobInAll(after.value.jobs); }
      if Classify(site, patterns, a, b, c) == QueuePathAccepted {
        AcceptedHoldsExactly(site, a, before, after.value);
        assert HoldsExactly(site, before, after.value, c.episodeRows.value[0]);
      }
      forall row | HoldsExactly(site, before, after.value, row) ensures LooksQueuedIf(site, a, b, c) && c.episodeRows == Some([row]) {
        OneJobInAll(after.value.jobs);
      }
    }
  }

  predicate LooksQueuedIf(site: Site, a: Attempt, before: Baseline, after: Baseline) {
    a.exitCode == Some(0) && !a.outputExists ==> LooksQueued(site, a, before, after)
  }

  lemma AcceptedHoldsExactly(site: Site, a: Attempt, before: Database, after: Database)
    requires VerifyPreMutationBaseline(site, ReadDatabaseBaseline(Some(before))) == Passed
    requires LooksQueued(site, a, ReadDatabaseBaseline(Some(before)), ReadDatabaseBaseline(Some(after)))
    ensures |RowsOf(after.jobs)| == 1 && HoldsExactly(site, before, after, RowsOf(after.jobs)[0])
  {
    assert before.jobs == [] && RowsOf(before.jobs) == [];
    OneJobInAll(after.jobs);
    EpisodesAreOfIt(before.episodes);
    EpisodesAreOfIt(after.episodes);
    var x, y := EpisodesOf(before.episodes)[0], EpisodesOf(after.episodes)[0];
    assert x in EpisodesOf(before.episodes) && y in EpisodesOf(after.episodes);
    assert EpisodesOf(after.episodes) == [y];
  }

  /** When the CLI printed the block of some job, acceptance means that the table is that job's row. */
  lemma AcceptedJobIsTheTable(
    site: Site, patterns: string -> Option<string>, a: Attempt, before: Database, after: Option<Database>,
    job: P.Job, newline: string)
    requires VerifyPreMutationBaseline(site, ReadDatabaseBaseline(Some(before))) == Passed
    requires Classify(site, patterns, a, ReadDatabaseBaseline(Some(before)), ReadDatabaseBaseline(after)) == QueuePathAccepted
    requires Printable(job) && L.IsNewline(newline) && a.stdout == L.Printed(P.QueueLines(job), newline)
    ensures after.Some? && |after.value.jobs| == 1 && after.value.jobs[0].episodeId == EPISODE_ID
    ensures IsRowOf(after.value.jobs[0].row, job)
  {
    hide Classify, ReadDatabaseBaseline, VerifyPreMutationBaseline, Evaluate, IsRowOf, Printable, L.Printed, P.QueueLines, RowIsExpected;
    AcceptedIff(site, patterns, a, before, after);
    var row :| HoldsExactly(site, before, after.value, row) && Evaluate(Occurred(a.stdout), row).None?;
    PrintedJobCorroborates(job, newline, Occurred(a.stdout), row);
  }
}
