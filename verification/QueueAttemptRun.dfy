/** `run_authorized_queue_attempt`: one guarded attempt, as the sequence of its effects. */
module QueueAttemptRun {
  import opened EvidenceManifest
  import opened PythonValues
  import opened QueueAttemptOutcome
  import opened StdoutEvidence

  /** The evidence files the harness itself writes. */
  datatype EvidenceFile =
    | Manifest | DbPreflight | GuardInvocation | GuardResult | SnapshotBinding | BoundaryRecheck
    | ExecutionEnvironment | ProductionCommand | ProductionStdio | DbPostflight | FilesystemPostflight
    | ClassificationRecord | FinalResult | Sha256Manifest

  function Path(file: EvidenceFile): string {
    match file
    case Manifest => "manifest.json"
    case DbPreflight => "db_preflight.json"
    case GuardInvocation => "fresh_preflight_invocation.json"
    case GuardResult => "fresh_preflight_result.json"
    case SnapshotBinding => "fresh_preflight_snapshot_binding.json"
    case BoundaryRecheck => "mutation_boundary_recheck.json"
    case ExecutionEnvironment => "execution_environment.json"
    case ProductionCommand => "production_command.json"
    case ProductionStdio => "production_stdio.json"
    case DbPostflight => "db_postflight.json"
    case FilesystemPostflight => "filesystem_postflight.json"
    case ClassificationRecord => "classification.json"
    case FinalResult => "final_result.json"
    case Sha256Manifest => MANIFEST
  }

  datatype Check =
    | RepositoryCheckpoint | MutationSources | PreflightWrapper | PythonInterpreter | EvidenceDirectory
    | ModuleProvenance | HistoricalPreflight | DatabaseBaseline | FolderPathUnchanged | OutputAbsent

  datatype Event =
    | Checked(pass: nat, check: Check, ok: bool)
    | DirectoryMade
    | Wrote(file: EvidenceFile)
    | GuardLaunched
    | GuardEnded(passed: bool, stderrLength: nat, left: Leavings)
    | SnapshotChecked(ok: bool)
    | ProductionLaunched
    | ProductionEnded(left: Leavings)
    | Sealed(entries: map<string, string>)  // the SHA-256 manifest is written with these entries

  /** The files, by path, that a subprocess wrote into the evidence directory, and what they hold. */
  type Leavings = map<string, string>

  // ---- what the outside world answers ----

  /** One pass of the gates that are equalities with fixed hashes, versions and paths. */
  datatype FixedGates = FixedGates(
    checkpoint: bool, sources: bool, wrapper: bool, interpreter: bool, directory: bool, provenance: bool, historical: bool)

  datatype GuardAnswer =
    | GuardTimedOut(left: Leavings)
    | GuardNotLaunched
    | GuardFinished(exitCode: int, printedStatus: Option<string>, stderrLength: nat, left: Leavings)

  datatype ProductionAnswer =
    | NotLaunched
    | TimedOut(stdout: string, stderr: string, stderrLength: nat, left: Leavings)
    | Finished(exitCode: int, stdout: string, stderr: string, stderrLength: nat, left: Leavings)

  /** printedStatus above is the `render_preflight_status` of the JSON object on the guard's stdout, if
      there is one. evidence gives the text of each evidence file the harness writes, manifestText that
      of a manifest with given entries. */
  datatype World = World(
    site: Site, patterns: string -> Option<string>,
    evidence: EvidenceFile -> string, manifestText: map<string, string> -> string, sha256: string -> string,
    first: FixedGates, databaseBefore: Option<Database>, outputBefore: bool,
    guard: GuardAnswer, snapshotBound: bool,
    second: FixedGates, databaseAgain: Option<Database>, outputAgain: bool,
    production: ProductionAnswer, databaseAfter: Option<Database>, outputAfter: bool)

  datatype StopReason = GuardTimeout | GuardLaunchFailed | GuardNotPassing | GuardStderrNonempty | BindingFailed | BoundaryDrift

  datatype Result = Result(stopReason: Option<StopReason>, productionLaunched: bool, classification: Option<Classification>)

  /** The effects of a run nothing interrupts, and its result unless a first-pass gate raises. */
  datatype Run = Run(events: seq<Event>, result: Option<Result>)

  // ---- the gates ----

  datatype Gated = Gated(check: Check, ok: bool)

  predicate BaselineOk(w: World, db: Option<Database>) {
    VerifyPreMutationBaseline(w.site, ReadDatabaseBaseline(db)) == Passed
  }

  function FolderPath(db: Option<Database>): Option<string> {
    ReadDatabaseBaseline(db).episodeFolderPath
  }

  function FirstPass(w: World): seq<Gated> {
    [Gated(RepositoryCheckpoint, w.first.checkpoint), Gated(MutationSources, w.first.sources),
     Gated(PreflightWrapper, w.first.wrapper), Gated(PythonInterpreter, w.first.interpreter),
     Gated(EvidenceDirectory, w.first.directory), Gated(ModuleProvenance, w.first.provenance),
     Gated(HistoricalPreflight, w.first.historical), Gated(DatabaseBaseline, BaselineOk(w, w.databaseBefore)),
     Gated(OutputAbsent, !w.outputBefore)]
  }

  function SecondPass(w: World): seq<Gated> {
    [Gated(MutationSources, w.second.sources), Gated(PreflightWrapper, w.second.wrapper),
     Gated(RepositoryCheckpoint, w.second.checkpoint), Gated(DatabaseBaseline, BaselineOk(w, w.databaseAgain)),
     Gated(FolderPathUnchanged, FolderPath(w.databaseAgain) == FolderPath(w.databaseBefore)),
     Gated(OutputAbsent, !w.outputAgain), Gated(ModuleProvenance, w.second.provenance)]
  }

  predicate AllOk(gates: seq<Gated>) {
    forall i | 0 <= i < |gates| :: gates[i].ok
  }

  /** Gates are run in order; the first that fails raises. */
  function Checks(pass: nat, gates: seq<Gated>): seq<Event> {
    if gates == [] then []
    else [Checked(pass, gates[0].check, gates[0].ok)] + (if gates[0].ok then Checks(pass, gates[1..]) else [])
  }

  // ---- the run ----

  /** What one effect does to the evidence directory. */
  function Changed(w: World, directory: Directory, e: Event): Directory {
    match e
    case DirectoryMade => map["fresh_preflight" := Folder]
    case Wrote(file) => directory[Path(file) := File(w.evidence(file))]
    case GuardEnded(_, _, left) => directory + map path | path in left :: File(left[path])
    case ProductionEnded(left) => directory + map path | path in left :: File(left[path])
    case Sealed(entries) => directory[MANIFEST := File(w.manifestText(entries))]
    case _ => directory
  }

  function DirectoryAfter(w: World, events: seq<Event>): Directory {
    if events == [] then map[] else Changed(w, DirectoryAfter(w, events[..|events| - 1]), events[|events| - 1])
  }

  function Seal(w: World, events: seq<Event>): seq<Event> {
    events + [Sealed(ManifestOf(DirectoryAfter(w, events), w.sha256))]
  }

  function Stopped(w: World, events: seq<Event>, reason: StopReason): Run {
    Run(Seal(w, events + [Wrote(FinalResult)]), Some(Result(Some(reason), false, None)))
  }

  function AttemptOf(p: ProductionAnswer, outputExists: bool): Attempt {
    match p
    case NotLaunched => Attempt(None, "", "", 0, true, false, outputExists)
    case TimedOut(out, err, n, _) => Attempt(None, out, err, n, false, true, outputExists)
    case Finished(code, out, err, n, _) => Attempt(Some(code), out, err, n, false, false, outputExists)
  }

  function LeftBy(p: ProductionAnswer): Leavings {
    if p.NotLaunched? then map[] else p.left
  }

  function Opening(w: World): seq<Event> {
    Checks(1, FirstPass(w)) + [DirectoryMade, Wrote(Manifest), Wrote(DbPreflight), Wrote(GuardInvocation), GuardLaunched]
  }

  /** The printed status is looked at only when the guard exited with 0. */
  predicate GuardPassed(g: GuardAnswer) {
    g.GuardFinished? && g.exitCode == 0 && g.printedStatus == Some("passed")
  }

  function AfterGuard(w: World): seq<Event>
    requires w.guard.GuardFinished?
  {
    Opening(w) + [GuardEnded(GuardPassed(w.guard), w.guard.stderrLength, w.guard.left), Wrote(GuardResult)]
  }

  function AfterBinding(w: World): seq<Event>
    requires w.guard.GuardFinished?
  {
    AfterGuard(w) + [SnapshotChecked(w.snapshotBound), Wrote(SnapshotBinding)]
  }

  function AfterRecheck(w: World): seq<Event>
    requires w.guard.GuardFinished?
  {
    AfterBinding(w) + Checks(2, SecondPass(w)) + [Wrote(BoundaryRecheck)]
  }

  function AfterProduction(w: World): seq<Event>
    requires w.guard.GuardFinished?
  {
    AfterRecheck(w)
    + [Wrote(ExecutionEnvironment), Wrote(ProductionCommand), ProductionLaunched, ProductionEnded(LeftBy(w.production)),
       Wrote(ProductionStdio), Wrote(DbPostflight), Wrote(FilesystemPostflight), Wrote(ClassificationRecord), Wrote(FinalResult)]
  }

  function Classified(w: World): Classification {
    Classify(w.site, w.patterns, AttemptOf(w.production, w.outputAfter),
             ReadDatabaseBaseline(w.databaseBefore), ReadDatabaseBaseline(w.databaseAfter))
  }

  function RunOf(w: World): Run {
    if !AllOk(FirstPass(w)) then Run(Checks(1, FirstPass(w)), None)
    else
      match w.guard
      case GuardTimedOut(left) => Stopped(w, Opening(w) + [GuardEnded(false, 0, left)], GuardTimeout)
      case GuardNotLaunched => Stopped(w, Opening(w), GuardLaunchFailed)
      case GuardFinished(_, _, stderrLength, _) =>
        if !GuardPassed(w.guard) then Stopped(w, AfterGuard(w), GuardNotPassing)
        else if stderrLength != 0 then Stopped(w, AfterGuard(w), GuardStderrNonempty)
        else if !w.snapshotBound then Stopped(w, AfterBinding(w), BindingFailed)
        else if !AllOk(SecondPass(w)) then Stopped(w, AfterRecheck(w), BoundaryDrift)
        else Run(Seal(w, AfterProduction(w)), Some(Result(None, !w.production.NotLaunched?, Some(Classified(w)))))
  }

  // ---- the run as it goes, with a process that may die at any effect ----

  class Harness {
    const w: World
    const diesAt: nat -> bool  // whether the effect of that number is never reached
    var events: seq<Event>
    var directory: Directory

    /** The directory is what the effects so far have made of it. */
    ghost predicate Valid()
      reads this
    {
      directory == DirectoryAfter(w, events)
    }

    constructor (w: World, diesAt: nat -> bool)
      ensures this.w == w && this.diesAt == diesAt && events == [] && Valid()
    {
      this.w := w;
      this.diesAt := diesAt;
      events := [];
      directory := map[];
    }

    method Do(e: Event) returns (alive: bool)
      requires Valid()
      modifies this
      ensures Valid() && events == if alive then old(events) + [e] else old(events)
    {
      hide Changed;
      alive := !diesAt(|events|);
      if alive {
        assert (events + [e])[..|events|] == events;
        events, directory := events + [e], Changed(w, directory, e);
      }
    }

    method DoAll(es: seq<Event>) returns (alive: bool)
      requires Valid()
      modifies this
      ensures Valid()
      ensures old(events) <= events <= old(events) + es
      ensures alive ==> events == old(events) + es
    {
      for i := 0 to |es|
        invariant Valid() && events == old(events) + es[..i]
      {
        alive := Do(es[i]);
        if !alive { return; }
        assert es[..i + 1] == es[..i] + [es[i]];
      }
      return true;
    }

    /** Runs the gates of one pass; passed is false when one raises or the process dies. */
    method RunGates(pass: nat, gates: seq<Gated>) returns (alive: bool, passed: bool)
      requires Valid()
      modifies this
      ensures Valid()
      ensures old(events) <= events <= old(events) + Checks(pass, gates)
      ensures alive ==> events == old(events) + Checks(pass, gates) && passed == AllOk(gates)
    {
      hide Checks;
      NoChecks(pass);
      for i := 0 to |gates|
        invariant AllOk(gates[..i])
        invariant Valid() && events == old(events) + Checks(pass, gates[..i])
      {
        GatesSoFar(pass, gates, i);
        alive := Do(Checked(pass, gates[i].check, gates[i].ok));
        if !alive { return false, false; }
        if !gates[i].ok { return true, false; }
      }
      assert gates[..|gates|] == gates;
      return true, true;
    }

    method Finish(ending: seq<Event>, result: Result) returns (r: Option<Result>)
      requires Valid()
      modifies this
      ensures Valid()
      ensures old(events) <= events <= Seal(w, old(events) + ending)
      ensures r.Some? ==> r.value == result && events == Seal(w, old(events) + ending)
    {
      var alive := DoAll(ending);
      if !alive { return None; }
      var entries := ManifestEntries(directory, w.sha256);
      alive := Do(Sealed(entries));
      return if alive then Some(result) else None;
    }

    /** None when a gate of the first pass raises or the process dies on the way. */
    method RunAuthorizedQueueAttempt() returns (r: Option<Result>)
      requires events == []
      requires Valid()
      modifies this
      ensures Valid()
      ensures events <= RunOf(w).events
      ensures r.Some? ==> events == RunOf(w).events && r == RunOf(w).result
    {
      StagesArePrefixes(w);
      hide FirstPass, SecondPass, Checks, DirectoryAfter, Classified, GuardPassed, AfterGuard, AfterBinding, AfterRecheck, AfterProduction;
      var alive, passed := RunGates(1, FirstPass(w));
      PrefixesChain(events, Checks(1, FirstPass(w)), RunOf(w).events);
      if !alive || !passed { return None; }
      alive := DoAll([DirectoryMade, Wrote(Manifest), Wrote(DbPreflight), Wrote(GuardInvocation), GuardLaunched]);
      PrefixesChain(events, Opening(w), RunOf(w).events);
      if !alive { return None; }
      assert events == Opening(w);
      match w.guard
      case GuardTimedOut(left) =>
        alive := DoAll([GuardEnded(false, 0, left)]);
        PrefixesChain(events, Opening(w) + [GuardEnded(false, 0, left)], RunOf(w).events);
        if !alive { return None; }
        r := Finish([Wrote(FinalResult)], Result(Some(GuardTimeout), false, None));
      case GuardNotLaunched =>
        r := Finish([Wrote(FinalResult)], Result(Some(GuardLaunchFailed), false, None));
      case GuardFinished(_, _, stderrLength, _) =>
        r := AfterGuardFinished();
    }

    method AfterGuardFinished() returns (r: Option<Result>)
      requires w.guard.GuardFinished? && AllOk(FirstPass(w)) && events == Opening(w)
      requires Valid()
      modifies this
      ensures Valid()
      ensures events <= RunOf(w).events
      ensures r.Some? ==> events == RunOf(w).events && r == RunOf(w).result
    {
      StagesArePrefixes(w);
      hide FirstPass, SecondPass, Checks, DirectoryAfter, Classified, Opening, AfterRecheck, AfterProduction;
      var alive := DoAll([GuardEnded(GuardPassed(w.guard), w.guard.stderrLength, w.guard.left), Wrote(GuardResult)]);
      if !alive { return None; }
      if !GuardPassed(w.guard) {
        r := Finish([Wrote(FinalResult)], Result(Some(GuardNotPassing), false, None));
        return;
      }
      if w.guard.stderrLength != 0 {
        r := Finish([Wrote(FinalResult)], Result(Some(GuardStderrNonempty), false, None));
        return;
      }
      alive := DoAll([SnapshotChecked(w.snapshotBound), Wrote(SnapshotBinding)]);
      if !alive { return None; }
      if !w.snapshotBound {
        r := Finish([Wrote(FinalResult)], Result(Some(BindingFailed), false, None));
        return;
      }
      r := AfterSnapshotBound();
    }

    method AfterSnapshotBound() returns (r: Option<Result>)
      requires w.guard.GuardFinished? && AllOk(FirstPass(w)) && events == AfterBinding(w)
      requires GuardPassed(w.guard) && w.guard.stderrLength == 0 && w.snapshotBound
      requires Valid()
      modifies this
      ensures Valid()
      ensures events <= RunOf(w).events
      ensures r.Some? ==> events == RunOf(w).events && r == RunOf(w).result
    {
      StagesArePrefixes(w);
      hide FirstPass, SecondPass, Checks, DirectoryAfter, Classified, GuardPassed, Opening, AfterGuard, AfterBinding;
      var alive, passed := RunGates(2, SecondPass(w));
      if !alive { return None; }
      alive := DoAll([Wrote(BoundaryRecheck)]);
      if !alive { return None; }
      if !passed {
        r := Finish([Wrote(FinalResult)], Result(Some(BoundaryDrift), false, None));
        return;
      }
      var launchError, timedOut := w.production.NotLaunched?, w.production.TimedOut?;
      r := Finish(
        [Wrote(ExecutionEnvironment), Wrote(ProductionCommand), ProductionLaunched, ProductionEnded(LeftBy(w.production)),
         Wrote(ProductionStdio), Wrote(DbPostflight), Wrote(FilesystemPostflight), Wrote(ClassificationRecord), Wrote(FinalResult)],
        Result(None, !launchError, Some(Classified(w))));
    }
  }

  lemma FirstCheck(pass: nat, g: Gated, rest: seq<Gated>)
    ensures Checks(pass, [g] + rest) == [Checked(pass, g.check, g.ok)] + (if g.ok then Checks(pass, rest) else [])
  {
    assert ([g] + rest)[1..] == rest;
  }

  lemma {:induction false} ChecksJoin(pass: nat, a: seq<Gated>, b: seq<Gated>)
    requires AllOk(a)
    ensures Checks(pass, a + b) == Checks(pass, a) + Checks(pass, b)
  {
    hide Checks;
    if a == [] {
      assert a + b == b;
      NoChecks(pass);
      assert [] + Checks(pass, b) == Checks(pass, b);
    } else {
      var g, rest := a[0], a[1..];
      assert a == [g] + rest && a + b == [g] + (rest + b);
      ChecksJoin(pass, rest, b);
      FirstCheck(pass, g, rest);
      FirstCheck(pass, g, rest + b);
    }
  }

  lemma NoChecks(pass: nat)
    ensures Checks(pass, []) == []
  {
  }

  /** How far the gates have got after the first i of them passed, and what the next one adds. */
  lemma GatesSoFar(pass: nat, gates: seq<Gated>, i: nat)
    requires i <= |gates| && AllOk(gates[..i])
    ensures Checks(pass, gates[..i]) <= Checks(pass, gates)
    ensures i < |gates| ==>
              Checks(pass, gates[..i + 1]) == Checks(pass, gates[..i]) + [Checked(pass, gates[i].check, gates[i].ok)]
    ensures i < |gates| && !gates[i].ok ==> Checks(pass, gates) == Checks(pass, gates[..i + 1])
    ensures i < |gates| && gates[i].ok ==> AllOk(gates[..i + 1])
  {
    hide Checks;
    assert gates == gates[..i] + gates[i..];
    ChecksJoin(pass, gates[..i], gates[i..]);
    if i < |gates| {
      var g := gates[i];
      assert gates[i..] == [g] + gates[i + 1..] && gates[..i + 1] == gates[..i] + [g] && [g] == [g] + [];
      FirstCheck(pass, g, gates[i + 1..]);
      FirstCheck(pass, g, []);
      NoChecks(pass);
      ChecksJoin(pass, gates[..i], [g]);
      assert [Checked(pass, g.check, g.ok)] + [] == [Checked(pass, g.check, g.ok)];
    }
  }

  lemma PrefixesChain(a: seq<Event>, b: seq<Event>, c: seq<Event>)
    requires a <= b && b <= c
    ensures a <= c
  {
  }

  /** Every stage a run goes through is the beginning of all its effects. */
  lemma StagesArePrefixes(w: World)
    ensures Checks(1, FirstPass(w)) <= RunOf(w).events
    ensures AllOk(FirstPass(w)) ==> Opening(w) <= RunOf(w).events
    ensures AllOk(FirstPass(w)) && w.guard.GuardFinished? ==> AfterGuard(w) <= RunOf(w).events
    ensures AllOk(FirstPass(w)) && GuardPassed(w.guard) && w.guard.stderrLength == 0 ==> AfterBinding(w) <= RunOf(w).events
    ensures AllOk(FirstPass(w)) && GuardPassed(w.guard) && w.guard.stderrLength == 0 && w.snapshotBound ==>
              AfterRecheck(w) <= RunOf(w).events
  {
    hide FirstPass, SecondPass, Checks, DirectoryAfter, Classified;
  }
}
