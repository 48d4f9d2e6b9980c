/** What must be true of the outside world for production to be launched, and for the attempt to count as
    accepted, down to every single value. */
module QueueAttemptGates {
  import opened PythonValues
  import opened QueueAttemptOutcome
  import opened QueueAttemptRun
  import opened QueueAttemptSafety
  import opened StdoutEvidence
  import L = LineSplitting
  import T = Text

  // ---- the database ----

  predicate IsOnlyEpisodeAt(episodes: seq<Episode>, i: int, e: Episode) {
    && 0 <= i < |episodes| && episodes[i] == e
    && forall j | 0 <= j < |episodes| && j != i :: episodes[j].episodeId != "RLC-E9901"
  }

  /** The database has one episode RLC-E9901, in this status and with this folder path. */
  ghost predicate HasEpisode(d: Database, status: string, folder: string) {
    exists i :: IsOnlyEpisodeAt(d.episodes, i, Episode("RLC-E9901", Some(status), Some("RLC-E9901_MASTER"), Some(folder)))
  }

  /** What the gates ask of the database before production: sound, the episode assembled in its folder, and
      not one render job or archive. */
  ghost predicate Ready(site: Site, db: Option<Database>, folder: string) {
    && db.Some? && db.value.integrity == Some("ok") && HasEpisode(db.value, "assembled", folder)
    && folder != "" && site.directoryOf(folder) == site.episodeDirectory
    && db.value.jobs == [] && db.value.archives == 0
  }

  lemma JoinIsOne<X>(a: seq<X>, b: seq<X>, x: X)
    ensures a + b == [x] <==> (a == [x] && b == []) || (a == [] && b == [x])
  {
    if a + b == [x] && a != [] {
      assert (a + b)[0] == a[0] && |a + b| == |a| + |b|;
    } else if a == [] {
      assert a + b == b;
    }
  }

  lemma {:induction false} NoEpisode(episodes: seq<Episode>)
    ensures EpisodesOf(episodes) == [] <==> forall j | 0 <= j < |episodes| :: episodes[j].episodeId != "RLC-E9901"
  {
    if episodes != [] {
      NoEpisode(episodes[1..]);
      assert episodes == [episodes[0]] + episodes[1..];
    }
  }

  lemma {:induction false} OneEpisode(episodes: seq<Episode>, e: Episode)
    requires e.episodeId == "RLC-E9901"
    ensures EpisodesOf(episodes) == [e] <==> exists i :: IsOnlyEpisodeAt(episodes, i, e)
  {
    if episodes != [] {
      var rest := episodes[1..];
      assert episodes == [episodes[0]] + rest;
      OneEpisode(rest, e);
      NoEpisode(rest);
      JoinIsOne([episodes[0]], EpisodesOf(rest), e);
      if episodes[0].episodeId == "RLC-E9901" {
        if EpisodesOf(episodes) == [e] { assert IsOnlyEpisodeAt(episodes, 0, e); }
        if i :| IsOnlyEpisodeAt(episodes, i, e) { assert i == 0; }
      } else {
        if i :| IsOnlyEpisodeAt(rest, i, e) { assert IsOnlyEpisodeAt(episodes, i + 1, e); }
        if i :| IsOnlyEpisodeAt(episodes, i, e) { assert IsOnlyEpisodeAt(rest, i - 1, e); }
      }
    }
  }

  lemma EpisodeRead(d: Database, status: string, folder: string)
    ensures HasEpisode(d, status, folder) <==>
            EpisodesOf(d.episodes) == [Episode("RLC-E9901", Some(status), Some("RLC-E9901_MASTER"), Some(folder))]
  {
    OneEpisode(d.episodes, Episode("RLC-E9901", Some(status), Some("RLC-E9901_MASTER"), Some(folder)));
  }

  lemma BaselineRead(site: Site, db: Option<Database>)
    ensures VerifyPreMutationBaseline(site, ReadDatabaseBaseline(db)) == Passed <==> exists folder :: Ready(site, db, folder)
    ensures forall folder | Ready(site, db, folder) :: ReadDatabaseBaseline(db).episodeFolderPath == Some(folder)
  {
    hide HasEpisode;
    if db.Some? {
      forall status, folder ensures HasEpisode(db.value, status, folder) <==>
            EpisodesOf(db.value.episodes) == [Episode("RLC-E9901", Some(status), Some("RLC-E9901_MASTER"), Some(folder))]
      { EpisodeRead(db.value, status, folder); }
      EpisodesAreOfIt(db.value.episodes);
      if VerifyPreMutationBaseline(site, ReadDatabaseBaseline(db)) == Passed {
        var e := EpisodesOf(db.value.episodes)[0];
        assert e in EpisodesOf(db.value.episodes) && EpisodesOf(db.value.episodes) == [e];
        assert Ready(site, db, e.folderPath.value);
      }
    }
  }

  // ---- the launch ----

  /** The two passes of the gates that are equalities with fixed values. */
  predicate FixedGatesOpen(first: FixedGates, second: FixedGates) {
    && first.checkpoint && first.sources && first.wrapper && first.interpreter && first.directory
    && first.provenance && first.historical
    && second.checkpoint && second.sources && second.wrapper && second.provenance
  }

  /** The guard ran to exit code 0, said that it passed and wrote nothing to stderr. */
  predicate GuardSaysPassed(g: GuardAnswer) {
    g.GuardFinished? && g.exitCode == 0 && g.printedStatus == Some("passed") && g.stderrLength == 0
  }

  ghost predicate LaunchAllowed(w: World, folder: string) {
    && FixedGatesOpen(w.first, w.second) && GuardSaysPassed(w.guard) && w.snapshotBound
    && Ready(w.site, w.databaseBefore, folder) && Ready(w.site, w.databaseAgain, folder)
    && !w.outputBefore && !w.outputAgain
  }

  /** Production is launched exactly in a world that allows it: on both looks at the database and the
      output file, with the same stored folder path. */
  lemma LaunchIff(w: World)
    ensures ProductionLaunched in RunOf(w).events <==> exists folder :: LaunchAllowed(w, folder)
  {
    hide RunOf, Ready, AllPassed;
    LaunchedIffClassified(w);
    GatesRead(w);
  }

  lemma GatesRead(w: World)
    ensures AllPassed(w) <==> exists folder :: LaunchAllowed(w, folder)
  {
    hide Ready, VerifyPreMutationBaseline, ReadDatabaseBaseline, AllOk;
    PassesRead(w);
    BaselineRead(w.site, w.databaseBefore);
    BaselineRead(w.site, w.databaseAgain);
    if AllPassed(w) {
      var folder :| Ready(w.site, w.databaseBefore, folder);
      var again :| Ready(w.site, w.databaseAgain, again);
      assert folder == again;
      assert LaunchAllowed(w, folder);
    }
  }

  lemma PassesRead(w: World)
    ensures AllOk(FirstPass(w)) && AllOk(SecondPass(w)) <==>
            && FixedGatesOpen(w.first, w.second) && BaselineOk(w, w.databaseBefore) && BaselineOk(w, w.databaseAgain)
            && FolderPath(w.databaseAgain) == FolderPath(w.databaseBefore) && !w.outputBefore && !w.outputAgain
  {
    hide BaselineOk, FolderPath;
    var f, s := FirstPass(w), SecondPass(w);
    if AllOk(f) && AllOk(s) {
      assert f[0].ok && f[1].ok && f[2].ok && f[3].ok && f[4].ok && f[5].ok && f[6].ok && f[7].ok && f[8].ok;
      assert s[0].ok && s[1].ok && s[2].ok && s[3].ok && s[4].ok && s[5].ok && s[6].ok;
    }
  }

  // ---- what stdout must tell ----

  predicate IsOnlyLineAt(lines: seq<string>, i: int, tag: string) {
    0 <= i < |lines| && tag <= lines[i] && forall j | 0 <= j < |lines| && tag <= lines[j] :: j == i
  }

  /** One line begins with the tag, and after it stands the value. */
  ghost predicate TellsOnce(lines: seq<string>, tag: string, value: string) {
    exists i :: IsOnlyLineAt(lines, i, tag) && T.Strip(lines[i][|tag|..]) == value
  }

  /** The ten lines of a success, once each, with the values of the row. */
  ghost predicate Tells(lines: seq<string>, row: Row) {
    && TellsOnce(lines, "Job ID:", T.IntText(row.id)) && TellsOnce(lines, "Episode ID:", "RLC-E9901")
    && (row.presetName.Some? && TellsOnce(lines, "Preset:", row.presetName.value))
    && (row.projectName.Some? && TellsOnce(lines, "Project:", row.projectName.value))
    && (row.timelineName.Some? && TellsOnce(lines, "Timeline:", row.timelineName.value))
    && TellsOnce(lines, "Resolve Job ID:", if row.resolveJobId.Some? then row.resolveJobId.value else "")
    && (row.status.Some? && TellsOnce(lines, "Status:", row.status.value))
    && (row.outputPath.Some? && TellsOnce(lines, "Output:", row.outputPath.value))
    && TellsOnce(lines, "Rendering started:", "no") && TellsOnce(lines, "Archive performed:", "no")
  }

  lemma {:induction false} NoValues(lines: seq<string>, f: Field)
    ensures Values(lines, f) == [] <==> forall j | 0 <= j < |lines| :: !(Tag(f) <= lines[j])
  {
    hide Tag, T.Strip, ValueOn;
    if lines == [] {
      assert Values(lines, f) == [];
    } else {
      var front, last := lines[..|lines| - 1], lines[|lines| - 1];
      assert lines == front + [last];
      NoValues(front, f);
      assert Values(lines, f) == Values(front, f) + ValueOn(last, f);
      NoValueOn(last, f);
      assert forall j | 0 <= j < |front| :: lines[j] == front[j];
    }
  }

  lemma NoValueOn(line: string, f: Field)
    ensures ValueOn(line, f) == [] <==> !(Tag(f) <= line)
  {
    hide Tag, T.Strip;
  }

  lemma {:induction false} OneValue(lines: seq<string>, f: Field, value: string)
    ensures Values(lines, f) == [value] <==> TellsOnce(lines, Tag(f), value)
  {
    hide Tag, T.Strip;
    if lines != [] {
      var front, last := lines[..|lines| - 1], lines[|lines| - 1];
      var tag := Tag(f);
      OneValue(front, f, value);
      NoValues(front, f);
      JoinIsOne(Values(front, f), ValueOn(last, f), value);
      if tag <= last {
        if Values(front, f) == [] { assert IsOnlyLineAt(lines, |front|, tag); }
        if i :| IsOnlyLineAt(lines, i, tag) && T.Strip(lines[i][|tag|..]) == value { assert i == |front|; }
      } else {
        if i :| IsOnlyLineAt(front, i, tag) && T.Strip(front[i][|tag|..]) == value {
          assert lines[i] == front[i] && IsOnlyLineAt(lines, i, tag);
        }
        if i :| IsOnlyLineAt(lines, i, tag) && T.Strip(lines[i][|tag|..]) == value {
          assert lines[i] == front[i] && IsOnlyLineAt(front, i, tag);
        }
      }
    }
  }

  lemma StdoutRead(lines: seq<string>, occurrences: Occurrences, row: Row)
    requires HoldsValues(occurrences, lines)
    ensures Evaluate(occurrences, row).None? <==> Tells(lines, row)
  {
    hide Evaluate, Values, T.IntText, TellsOnce, Tag, FirstDifference, FirstValue;
    CorroboratedIff(occurrences, row);
    TellsEachField(lines, occurrences, row);
    if forall f: Field :: |occurrences[f]| == 1 { ValuesRead(occurrences, row); }
  }

  /** The row's value for each field. */
  function RowText(row: Row, f: Field): Option<string> {
    match f
    case JobId => Some(T.IntText(row.id))
    case EpisodeId => Some("RLC-E9901")
    case PresetName => row.presetName
    case ProjectName => row.projectName
    case TimelineName => row.timelineName
    case ResolveJobId => Some(if row.resolveJobId.Some? then row.resolveJobId.value else "")
    case Status => row.status
    case OutputPath => row.outputPath
    case RenderingStarted => Some("no")
    case ArchivePerformed => Some("no")
  }

  predicate HoldsRow(occurrences: Occurrences, row: Row)
    requires forall f: Field :: f in occurrences
  {
    forall f: Field :: RowText(row, f).Some? && occurrences[f] == [RowText(row, f).value]
  }

  lemma TellsEachField(lines: seq<string>, occurrences: Occurrences, row: Row)
    requires HoldsValues(occurrences, lines)
    ensures Tells(lines, row) <==> HoldsRow(occurrences, row)
  {
    hide Values, T.IntText, TellsOnce;
    forall f: Field, value ensures occurrences[f] == [value] <==> TellsOnce(lines, Tag(f), value) {
      OneValue(lines, f, value);
    }
    forall f: Field ensures Tells(lines, row) ==> RowText(row, f).Some? && TellsOnce(lines, Tag(f), RowText(row, f).value) {}
    if HoldsRow(occurrences, row) {
      assert forall f: Field :: RowText(row, f).Some? && TellsOnce(lines, Tag(f), RowText(row, f).value);
      FieldByField(lines, row);
    }
  }

  lemma FieldByField(lines: seq<string>, row: Row)
    requires forall f: Field :: RowText(row, f).Some? && TellsOnce(lines, Tag(f), RowText(row, f).value)
    ensures Tells(lines, row)
  {
    hide T.IntText, TellsOnce;
    assert RowText(row, PresetName).Some? && RowText(row, ProjectName).Some? && RowText(row, TimelineName).Some?
        && RowText(row, Status).Some? && RowText(row, OutputPath).Some?;
    assert TellsOnce(lines, Tag(JobId), RowText(row, JobId).value) && TellsOnce(lines, Tag(EpisodeId), "RLC-E9901");
    assert TellsOnce(lines, Tag(ResolveJobId), RowText(row, ResolveJobId).value);
    assert TellsOnce(lines, Tag(RenderingStarted), "no") && TellsOnce(lines, Tag(ArchivePerformed), "no");
  }

  lemma ValuesRead(occurrences: Occurrences, row: Row)
    requires forall f: Field :: f in occurrences && |occurrences[f]| == 1
    ensures HoldsRow(occurrences, row) <==>
            && (forall f: Field | IsConfirmation(f) :: occurrences[f] == ["no"])
            && FirstDifference(FirstValue(occurrences), row).None?
  {
    hide FirstDifference, RowText;
    var value := FirstValue(occurrences);
    forall f: Field ensures occurrences[f] == [value(f)] {}
    DifferencesRead(value, row);
    assert IsConfirmation(RenderingStarted) && IsConfirmation(ArchivePerformed);
  }

  lemma DifferencesRead(value: Field -> string, row: Row)
    ensures (forall f: Field :: RowText(row, f) == Some(value(f))) <==>
            FirstDifference(value, row).None? && value(RenderingStarted) == "no" && value(ArchivePerformed) == "no"
  {
    hide T.IntText;
    if forall f: Field :: RowText(row, f) == Some(value(f)) {
      assert RowText(row, JobId) == Some(value(JobId)) && RowText(row, EpisodeId) == Some(value(EpisodeId));
      assert RowText(row, PresetName) == Some(value(PresetName)) && RowText(row, ProjectName) == Some(value(ProjectName));
      assert RowText(row, TimelineName) == Some(value(TimelineName)) && RowText(row, ResolveJobId) == Some(value(ResolveJobId));
      assert RowText(row, Status) == Some(value(Status)) && RowText(row, OutputPath) == Some(value(OutputPath));
      assert RowText(row, RenderingStarted) == Some(value(RenderingStarted));
      assert RowText(row, ArchivePerformed) == Some(value(ArchivePerformed));
    }
  }

  // ---- an accepted run ----

  /** What acceptance asks of the one row of the render_jobs table. */
  ghost predicate ExpectedRow(site: Site, row: Row) {
    && row.id > 0 && row.presetName == Some("broadcast_master") && row.projectName == Some("RLC-E9901_MASTER")
    && row.timelineName == Some("RLC-E9901_TIMELINE") && row.status == Some("queued")
    && row.resolveJobId.Some? && T.Strip(row.resolveJobId.value) != "" && row.outputPath == Some(site.outputPath)
  }

  /** How things stand after an accepted attempt: production ended with code 0 and a silent stderr, no output
      file is there, the episode has only changed its status, and the whole render_jobs table is the row. */
  ghost predicate Succeeded(w: World, folder: string, row: Row) {
    && w.production.Finished? && w.production.exitCode == 0 && w.production.stderrLength == 0 && !w.outputAfter
    && w.databaseAfter.Some? && w.databaseAfter.value.integrity == Some("ok")
    && HasEpisode(w.databaseAfter.value, "render_queued", folder)
    && w.databaseAfter.value.jobs == [JobRow("RLC-E9901", row)] && w.databaseAfter.value.archives == 0
    && ExpectedRow(w.site, row) && Tells(L.SplitLines(w.production.stdout), row)
  }

  /** A run ends accepted exactly when the launch was allowed and everything afterwards is as it should be. */
  lemma RunIsAcceptedIff(w: World)
    ensures RunOf(w).result.Some? && RunOf(w).result.value.classification == Some(QueuePathAccepted) <==>
            exists folder, row :: LaunchAllowed(w, folder) && Succeeded(w, folder, row)
  {
    hide Ready, Classified, AllOk, FirstPass, SecondPass, FixedGatesOpen, ExpectedRow, DirectoryAfter, Seal, Stopped, Checks,
      HasEpisode, Tells;
    GatesRead(w);
    forall folder | LaunchAllowed(w, folder)
      ensures Classified(w) == QueuePathAccepted <==> exists row :: Succeeded(w, folder, row)
    {
      ClassifiedRead(w, folder);
    }
    ClassifiedRuns(w);
    if f, row :| LaunchAllowed(w, f) && Succeeded(w, f, row) { assert LaunchAllowed(w, f); }
  }

  lemma ClassifiedRuns(w: World)
    ensures RunOf(w).result.Some? && RunOf(w).result.value.classification == Some(QueuePathAccepted) <==>
            AllPassed(w) && Classified(w) == QueuePathAccepted
  {
    hide Classified, AllOk, FirstPass, SecondPass, DirectoryAfter, Seal, Checks, Opening, AfterGuard, AfterBinding, AfterRecheck,
      AfterProduction;
  }

  lemma ClassifiedRead(w: World, folder: string)
    requires LaunchAllowed(w, folder)
    ensures Classified(w) == QueuePathAccepted <==> exists row :: Succeeded(w, folder, row)
  {
    hide VerifyPreMutationBaseline, Classify, Evaluate, Occurred, FixedGatesOpen, Tells, T.Strip, ReadDatabaseBaseline, HasEpisode;
    var before := w.databaseBefore.value;
    BaselineRead(w.site, w.databaseBefore);
    AcceptedIff(w.site, w.patterns, AttemptOf(w.production, w.outputAfter), before, w.databaseAfter);
    EpisodeRead(before, "assembled", folder);
    if w.databaseAfter.Some? { EpisodeRead(w.databaseAfter.value, "render_queued", folder); }
    var lines := L.SplitLines(AttemptOf(w.production, w.outputAfter).stdout);
    forall row ensures Evaluate(Occurred(AttemptOf(w.production, w.outputAfter).stdout), row).None? <==> Tells(lines, row) {
      StdoutRead(lines, Occurred(AttemptOf(w.production, w.outputAfter).stdout), row);
    }
    forall row ensures RowIsExpected(w.site, row) <==> ExpectedRow(w.site, row) {}
    if w.databaseAfter.Some? {
      var after := w.databaseAfter.value;
      forall row ensures HoldsExactly(w.site, before, after, row) <==>
                         && after.jobs == [JobRow("RLC-E9901", row)] && after.archives == 0 && after.integrity == Some("ok")
                         && HasEpisode(after, "render_queued", folder) {}
    }
    if Classified(w) == QueuePathAccepted {
      var row :| HoldsExactly(w.site, before, w.databaseAfter.value, row) && RowIsExpected(w.site, row)
                 && Evaluate(Occurred(AttemptOf(w.production, w.outputAfter).stdout), row).None?;
      assert Succeeded(w, folder, row);
    }
    if row :| Succeeded(w, folder, row) {
      assert HoldsExactly(w.site, before, w.databaseAfter.value, row) && RowIsExpected(w.site, row);
    }
  }

  // ---- the other endings ----

  /** The first pass lets the run through. */
  ghost predicate MayStart(w: World) {
    && w.first.checkpoint && w.first.sources && w.first.wrapper && w.first.interpreter && w.first.directory
    && w.first.provenance && w.first.historical && !w.outputBefore && exists folder :: Ready(w.site, w.databaseBefore, folder)
  }

  lemma FirstPassRead(w: World)
    ensures AllOk(FirstPass(w)) <==> MayStart(w)
  {
    hide Ready, VerifyPreMutationBaseline, ReadDatabaseBaseline;
    BaselineRead(w.site, w.databaseBefore);
    var f := FirstPass(w);
    if AllOk(f) {
      assert f[0].ok && f[1].ok && f[2].ok && f[3].ok && f[4].ok && f[5].ok && f[6].ok && f[7].ok && f[8].ok;
    }
  }

  /** How every run ends: it raises in the first pass, or it stops at the guard, the snapshot or the second
      pass, or it launches production and classifies what happened. */
  lemma EndingsAre(w: World)
    ensures RunOf(w).result.None? <==> !MayStart(w)
    ensures RunOf(w).result.Some? ==>
              var r := RunOf(w).result.value;
              && (r.stopReason == Some(GuardTimeout) <==> w.guard.GuardTimedOut?)
              && (r.stopReason == Some(GuardLaunchFailed) <==> w.guard.GuardNotLaunched?)
              && (r.stopReason == Some(GuardNotPassing) <==>
                    w.guard.GuardFinished? && !(w.guard.exitCode == 0 && w.guard.printedStatus == Some("passed")))
              && (r.stopReason == Some(GuardStderrNonempty) <==>
                    w.guard.GuardFinished? && w.guard.exitCode == 0 && w.guard.printedStatus == Some("passed") && w.guard.stderrLength > 0)
              && (r.stopReason == Some(BindingFailed) <==> GuardSaysPassed(w.guard) && !w.snapshotBound)
              && (r.stopReason == Some(BoundaryDrift) <==>
                    GuardSaysPassed(w.guard) && w.snapshotBound && !exists folder :: LaunchAllowed(w, folder))
              && (r.classification == Some(ProcessNotLaunched) <==> r.stopReason.None? && w.production.NotLaunched?)
              && (r.classification == Some(TimeoutReconciliation) <==> r.stopReason.None? && w.production.TimedOut?)
  {
    hide Ready, AllOk, FirstPass, SecondPass, DirectoryAfter, Seal, Checks, Opening, AfterGuard, AfterBinding, AfterRecheck,
      AfterProduction, LaunchAllowed, MayStart, Classified;
    FirstPassRead(w);
    GatesRead(w);
    EndsOfClassification(w);
  }

  lemma EndsOfClassification(w: World)
    ensures Classified(w) == ProcessNotLaunched <==> w.production.NotLaunched?
    ensures Classified(w) == TimeoutReconciliation <==> w.production.TimedOut?
    ensures forall category :: Classified(w) == FailurePattern(category) ==>
              w.production.Finished? && w.databaseAfter.Some?
              && w.patterns(w.production.stdout + "\n" + w.production.stderr) == Some(category)
  {
    hide LooksQueued, RowIsExpected, Evaluate, Occurred;
    assert "" + "\n" + "" == "\n";
  }
}
