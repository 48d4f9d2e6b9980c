/** What holds of every run of the queue-attempt harness. The effects of a run that dies on the way
    are a beginning of those stated here. */
module QueueAttemptSafety {
  import opened EvidenceManifest
  import opened PythonValues
  import opened QueueAttemptOutcome
  import opened QueueAttemptRun
  import opened StdoutEvidence

  /** Where in the course of a run an effect has its place. */
  function Stage(e: Event): nat {
    match e
    case Checked(pass, _, _) => if pass == 1 then 0 else 10
    case DirectoryMade => 1
    case GuardLaunched => 5
    case GuardEnded(_, _, _) => 6
    case SnapshotChecked(_) => 8
    case ProductionLaunched => 14
    case ProductionEnded(_) => 15
    case Sealed(_) => 21
    case Wrote(file) =>
      match file
      case Manifest => 2
      case DbPreflight => 3
      case GuardInvocation => 4
      case GuardResult => 7
      case SnapshotBinding => 9
      case BoundaryRecheck => 11
      case ExecutionEnvironment => 12
      case ProductionCommand => 13
      case ProductionStdio => 16
      case DbPostflight => 17
      case FilesystemPostflight => 18
      case ClassificationRecord => 19
      case FinalResult => 20
      case Sha256Manifest => 22
  }

  /** Effects come in the order of their stages, and only gates share one. */
  predicate InOrder(events: seq<Event>) {
    forall i, j | 0 <= i < j < |events| ::
      Stage(events[i]) < Stage(events[j]) || (Stage(events[i]) == Stage(events[j]) && events[i].Checked?)
  }

  predicate Between(events: seq<Event>, low: nat, high: nat) {
    forall i | 0 <= i < |events| :: low <= Stage(events[i]) <= high
  }

  lemma OrderJoins(a: seq<Event>, b: seq<Event>, low: nat, middle: nat, high: nat)
    requires InOrder(a) && InOrder(b) && Between(a, low, middle) && Between(b, middle + 1, high) && low <= middle < high
    ensures InOrder(a + b) && Between(a + b, low, high)
  {
  }

  lemma {:induction false} ChecksInOrder(pass: nat, gates: seq<Gated>)
    ensures InOrder(Checks(pass, gates))
    ensures Between(Checks(pass, gates), Stage(Checked(pass, OutputAbsent, true)), Stage(Checked(pass, OutputAbsent, true)))
    ensures forall e | e in Checks(pass, gates) :: e.Checked? && e.pass == pass
  {
    if gates != [] { ChecksInOrder(pass, gates[1..]); }
  }

  lemma OpeningInOrder(w: World)
    ensures InOrder(Opening(w)) && Between(Opening(w), 0, 5)
  {
    hide Checks, FirstPass;
    ChecksInOrder(1, FirstPass(w));
    var rest := [DirectoryMade, Wrote(Manifest), Wrote(DbPreflight), Wrote(GuardInvocation), GuardLaunched];
    OrderJoins(Checks(1, FirstPass(w)), rest, 0, 0, 5);
  }

  lemma AfterBindingInOrder(w: World)
    requires w.guard.GuardFinished?
    ensures InOrder(AfterGuard(w)) && Between(AfterGuard(w), 0, 7)
    ensures InOrder(AfterBinding(w)) && Between(AfterBinding(w), 0, 9)
  {
    hide Opening, GuardPassed;
    OpeningInOrder(w);
    OrderJoins(Opening(w), [GuardEnded(GuardPassed(w.guard), w.guard.stderrLength, w.guard.left), Wrote(GuardResult)], 0, 5, 7);
    OrderJoins(AfterGuard(w), [SnapshotChecked(w.snapshotBound), Wrote(SnapshotBinding)], 0, 7, 9);
  }

  function ProductionSteps(w: World): seq<Event> {
    [Wrote(ExecutionEnvironment), Wrote(ProductionCommand), ProductionLaunched, ProductionEnded(LeftBy(w.production)),
     Wrote(ProductionStdio), Wrote(DbPostflight), Wrote(FilesystemPostflight), Wrote(ClassificationRecord), Wrote(FinalResult)]
  }

  lemma AfterRecheckInOrder(w: World)
    requires w.guard.GuardFinished?
    ensures InOrder(AfterRecheck(w)) && Between(AfterRecheck(w), 0, 11)
  {
    hide AfterBinding, Checks, SecondPass, InOrder, Between;
    AfterBindingInOrder(w);
    ChecksInOrder(2, SecondPass(w));
    OrderJoins(AfterBinding(w), Checks(2, SecondPass(w)), 0, 9, 10);
    OneInOrder(Wrote(BoundaryRecheck));
    OrderJoins(AfterBinding(w) + Checks(2, SecondPass(w)), [Wrote(BoundaryRecheck)], 0, 10, 11);
  }

  lemma OneInOrder(e: Event)
    ensures InOrder([e]) && Between([e], Stage(e), Stage(e))
  {
  }

  lemma AfterProductionInOrder(w: World)
    requires w.guard.GuardFinished?
    ensures InOrder(AfterRecheck(w)) && Between(AfterRecheck(w), 0, 11)
    ensures AfterProduction(w) == AfterRecheck(w) + ProductionSteps(w)
    ensures InOrder(AfterProduction(w)) && Between(AfterProduction(w), 0, 20)
  {
    hide AfterRecheck, InOrder, Between, LeftBy;
    AfterRecheckInOrder(w);
    var first := [Wrote(ExecutionEnvironment), Wrote(ProductionCommand), ProductionLaunched,
                  ProductionEnded(LeftBy(w.production)), Wrote(ProductionStdio)];
    var second := [Wrote(DbPostflight), Wrote(FilesystemPostflight), Wrote(ClassificationRecord), Wrote(FinalResult)];
    FirstStepsInOrder(LeftBy(w.production));
    LastStepsInOrder();
    OrderJoins(first, second, 12, 16, 20);
    assert first + second == ProductionSteps(w);
    OrderJoins(AfterRecheck(w), ProductionSteps(w), 0, 11, 20);
  }

  lemma FirstStepsInOrder(left: Leavings)
    ensures var steps := [Wrote(ExecutionEnvironment), Wrote(ProductionCommand), ProductionLaunched,
                          ProductionEnded(left), Wrote(ProductionStdio)];
            InOrder(steps) && Between(steps, 12, 16)
  {
  }

  lemma LastStepsInOrder()
    ensures var steps := [Wrote(DbPostflight), Wrote(FilesystemPostflight), Wrote(ClassificationRecord), Wrote(FinalResult)];
            InOrder(steps) && Between(steps, 17, 20)
  {
  }

  lemma SealInOrder(w: World, events: seq<Event>)
    requires InOrder(events) && Between(events, 0, 20)
    ensures InOrder(Seal(w, events))
  {
    OrderJoins(events, [Sealed(ManifestOf(DirectoryAfter(w, events), w.sha256))], 0, 20, 21);
  }

  lemma StoppedInOrder(w: World, events: seq<Event>, reason: StopReason)
    requires InOrder(events) && Between(events, 0, 19)
    ensures InOrder(Stopped(w, events, reason).events)
  {
    OrderJoins(events, [Wrote(FinalResult)], 0, 19, 20);
    SealInOrder(w, events + [Wrote(FinalResult)]);
  }

  lemma RunsAreInOrder(w: World)
    ensures InOrder(RunOf(w).events)
  {
    hide FirstPass, SecondPass, Checks, Opening, AfterGuard, AfterBinding, AfterRecheck, AfterProduction, Seal, Stopped, InOrder, Between;
    ChecksInOrder(1, FirstPass(w));
    OpeningInOrder(w);
    if w.guard.GuardFinished? {
      AfterBindingInOrder(w);
      AfterProductionInOrder(w);
      Widen(AfterGuard(w), 7);
      Widen(AfterBinding(w), 9);
      Widen(AfterRecheck(w), 11);
      StoppedInOrder(w, AfterGuard(w), GuardNotPassing);
      StoppedInOrder(w, AfterGuard(w), GuardStderrNonempty);
      StoppedInOrder(w, AfterBinding(w), BindingFailed);
      StoppedInOrder(w, AfterRecheck(w), BoundaryDrift);
      SealInOrder(w, AfterProduction(w));
    } else {
      Widen(Opening(w), 5);
      StoppedInOrder(w, Opening(w), GuardLaunchFailed);
      if w.guard.GuardTimedOut? {
        TimedOutInOrder(w, w.guard.left);
      }
    }
  }

  lemma TimedOutInOrder(w: World, left: Leavings)
    ensures InOrder(Stopped(w, Opening(w) + [GuardEnded(false, 0, left)], GuardTimeout).events)
  {
    hide Opening, Stopped;
    OpeningInOrder(w);
    OrderJoins(Opening(w), [GuardEnded(false, 0, left)], 0, 5, 6);
    StoppedInOrder(w, Opening(w) + [GuardEnded(false, 0, left)], GuardTimeout);
  }

  lemma Widen(events: seq<Event>, high: nat)
    requires Between(events, 0, high) && high <= 19
    ensures Between(events, 0, 19)
  {
  }

  // ---- what the order gives ----

  /** The guard and the production command are each launched at most once, each evidence file is
      written at most once, and the manifest is sealed once, by its own step. */
  lemma NothingHappensTwice(w: World, i: nat, j: nat)
    requires i < j < |RunOf(w).events|
    ensures RunOf(w).events[i] == RunOf(w).events[j] ==> RunOf(w).events[i].Checked?
    ensures !(RunOf(w).events[i].Sealed? && RunOf(w).events[j].Sealed?)
  {
    hide RunOf;
    RunsAreInOrder(w);
  }

  ghost predicate HappenedBefore(events: seq<Event>, e: Event, n: nat)
    requires n <= |events|
  {
    exists k :: 0 <= k < n && events[k] == e
  }

  lemma {:induction false} PassedChecks(pass: nat, gates: seq<Gated>, k: nat)
    requires AllOk(gates) && k < |gates|
    ensures |Checks(pass, gates)| == |gates| && Checks(pass, gates)[k] == Checked(pass, gates[k].check, true)
  {
    if k > 0 { PassedChecks(pass, gates[1..], k - 1); } else if |gates| > 1 { PassedChecks(pass, gates[1..], 0); }
  }

  /** All that stands before a launch of production, in this order: every gate of the first pass, a
      guard that exited with 0, printed that it passed and wrote nothing to stderr, the snapshot bound to its bytes, and every gate of the
      second pass, with the stored folder path unchanged to the letter. */
  ghost predicate WellGuarded(w: World, events: seq<Event>, n: nat)
    requires n <= |events|
  {
    && (forall k | 0 <= k < |FirstPass(w)| :: HappenedBefore(events, Checked(1, FirstPass(w)[k].check, true), n))
    && w.guard.GuardFinished? && w.guard.exitCode == 0 && w.guard.printedStatus == Some("passed")
    && HappenedBefore(events, GuardEnded(true, 0, w.guard.left), n)
    && HappenedBefore(events, SnapshotChecked(true), n)
    && (forall k | 0 <= k < |SecondPass(w)| :: HappenedBefore(events, Checked(2, SecondPass(w)[k].check, true), n))
    && FolderPath(w.databaseAgain) == FolderPath(w.databaseBefore)
    && BaselineOk(w, w.databaseBefore) && BaselineOk(w, w.databaseAgain) && !w.outputAgain
  }

  lemma ProductionIsGuarded(w: World, n: nat)
    requires n < |RunOf(w).events| && RunOf(w).events[n] == ProductionLaunched
    ensures WellGuarded(w, RunOf(w).events, n)
  {
    var events := RunOf(w).events;
    LaunchMeansAllPassed(w, n);
    RunsAreInOrder(w);
    StagesArePrefixes(w);
    hide RunOf, InOrder, FirstPass, SecondPass, AfterRecheck, DirectoryAfter, Checks;
    FirstPassComesBefore(w, events, n);
    GuardComesBefore(w, events, n);
    SecondPassComesBefore(w, events, n);
    SecondPassMeans(w);
  }

  lemma FirstPassComesBefore(w: World, events: seq<Event>, n: nat)
    requires InOrder(events) && n < |events| && events[n] == ProductionLaunched
    requires AllOk(FirstPass(w)) && Opening(w) <= events
    ensures forall k | 0 <= k < |FirstPass(w)| :: HappenedBefore(events, Checked(1, FirstPass(w)[k].check, true), n)
  {
    hide InOrder, FirstPass, Checks;
    forall k | 0 <= k < |FirstPass(w)| ensures HappenedBefore(events, Checked(1, FirstPass(w)[k].check, true), n) {
      PassedChecks(1, FirstPass(w), k);
      assert events[k] == Opening(w)[k] == Checks(1, FirstPass(w))[k];
      StageOrders(events, k, n);
    }
  }

  lemma GuardComesBefore(w: World, events: seq<Event>, n: nat)
    requires InOrder(events) && n < |events| && events[n] == ProductionLaunched
    requires GuardPassed(w.guard) && w.guard.stderrLength == 0 && w.snapshotBound && AfterBinding(w) <= events
    ensures HappenedBefore(events, GuardEnded(true, 0, w.guard.left), n) && HappenedBefore(events, SnapshotChecked(true), n)
  {
    hide InOrder, Opening;
    var g, s := |Opening(w)|, |AfterGuard(w)|;
    assert events[g] == AfterBinding(w)[g] == GuardEnded(true, 0, w.guard.left);
    StageOrders(events, g, n);
    assert events[s] == AfterBinding(w)[s] == SnapshotChecked(true);
    StageOrders(events, s, n);
  }

  lemma SecondPassComesBefore(w: World, events: seq<Event>, n: nat)
    requires InOrder(events) && n < |events| && events[n] == ProductionLaunched
    requires w.guard.GuardFinished? && AllOk(SecondPass(w)) && AfterRecheck(w) <= events
    ensures forall k | 0 <= k < |SecondPass(w)| :: HappenedBefore(events, Checked(2, SecondPass(w)[k].check, true), n)
  {
    hide InOrder, SecondPass, Checks, AfterBinding;
    forall k | 0 <= k < |SecondPass(w)| ensures HappenedBefore(events, Checked(2, SecondPass(w)[k].check, true), n) {
      PassedChecks(2, SecondPass(w), k);
      var i := |AfterBinding(w)| + k;
      assert events[i] == AfterRecheck(w)[i] == Checks(2, SecondPass(w))[k];
      StageOrders(events, i, n);
    }
  }

  lemma StageOrders(events: seq<Event>, i: nat, j: nat)
    requires InOrder(events) && i < |events| && j < |events| && Stage(events[i]) < Stage(events[j])
    ensures i < j
  {
  }

  lemma SecondPassMeans(w: World)
    requires AllOk(FirstPass(w)) && AllOk(SecondPass(w))
    ensures BaselineOk(w, w.databaseBefore) && BaselineOk(w, w.databaseAgain)
    ensures FolderPath(w.databaseAgain) == FolderPath(w.databaseBefore) && !w.outputAgain
  {
    assert FirstPass(w)[7].ok && SecondPass(w)[3].ok && SecondPass(w)[4].ok && SecondPass(w)[5].ok;
  }

  lemma NoLaunchYet(events: seq<Event>, high: nat)
    requires Between(events, 0, high) && high < 14
    ensures ProductionLaunched !in events
  {
  }

  lemma LaunchMeansAllPassed(w: World, n: nat)
    requires n < |RunOf(w).events| && RunOf(w).events[n] == ProductionLaunched
    ensures AllOk(FirstPass(w)) && AllOk(SecondPass(w)) && w.snapshotBound
    ensures GuardPassed(w.guard) && w.guard.stderrLength == 0
  {
    hide FirstPass, SecondPass, Checks, Opening, AfterGuard, AfterBinding, AfterRecheck, AfterProduction, Between, Stopped, AllOk;
    assert ProductionLaunched in RunOf(w).events;
    ChecksInOrder(1, FirstPass(w));
    NoLaunchYet(Checks(1, FirstPass(w)), 0);
    OpeningInOrder(w);
    NoLaunchYet(Opening(w), 5);
    StopsDoNotLaunch(w, Opening(w), GuardLaunchFailed);
    if w.guard.GuardTimedOut? {
      StopsDoNotLaunch(w, Opening(w) + [GuardEnded(false, 0, w.guard.left)], GuardTimeout);
    }
    if w.guard.GuardFinished? {
      AfterBindingInOrder(w);
      AfterProductionInOrder(w);
      NoLaunchYet(AfterGuard(w), 7);
      NoLaunchYet(AfterBinding(w), 9);
      NoLaunchYet(AfterRecheck(w), 11);
      StopsDoNotLaunch(w, AfterGuard(w), GuardNotPassing);
      StopsDoNotLaunch(w, AfterGuard(w), GuardStderrNonempty);
      StopsDoNotLaunch(w, AfterBinding(w), BindingFailed);
      StopsDoNotLaunch(w, AfterRecheck(w), BoundaryDrift);
    }
  }

  lemma StopsDoNotLaunch(w: World, events: seq<Event>, reason: StopReason)
    requires ProductionLaunched !in events
    ensures ProductionLaunched !in Stopped(w, events, reason).events
  {
    hide DirectoryAfter;
  }

  /** A run that returns has written the manifest last. What it lists is what the directory then holds:
      every file but the manifest itself, each with the digest of its content, and with that every
      evidence file the run wrote. */
  lemma ManifestIsLastAndCoversAll(w: World)
    requires RunOf(w).result.Some?
    ensures var events, directory := RunOf(w).events, DirectoryAfter(w, RunOf(w).events);
            && events != [] && events[|events| - 1].Sealed?
            && Covers(events[|events| - 1].entries, directory, w.sha256)
            && MANIFEST in directory && directory[MANIFEST] == File(w.manifestText(events[|events| - 1].entries))
            && Path(FinalResult) in events[|events| - 1].entries
            && forall i | 0 <= i < |events| && events[i].Wrote? :: Path(events[i].file) in events[|events| - 1].entries
  {
    hide RunOf, DirectoryAfter, ManifestOf, InOrder, Seal, Path;
    var events := RunOf(w).events;
    var before := BeforeSeal(w);
    RunsAreInOrder(w);
    SealedDirectory(w, before);
    forall i | 0 <= i < |events| && events[i].Wrote? ensures Path(events[i].file) in events[|events| - 1].entries {
      WrittenIsListed(w, before, events, i);
    }
    assert events[|before| - 1] == Wrote(FinalResult) by { SealGoesOn(w, before); }
  }

  lemma SealGoesOn(w: World, before: seq<Event>)
    ensures before <= Seal(w, before) && |Seal(w, before)| > |before|
  {
    hide ManifestOf, DirectoryAfter;
  }

  lemma WrittenIsListed(w: World, before: seq<Event>, events: seq<Event>, i: nat)
    requires events == Seal(w, before) && InOrder(events) && events[|events| - 1].Sealed?
    requires i < |events| && events[i].Wrote?
    ensures Path(events[i].file) in events[|events| - 1].entries
  {
    hide DirectoryAfter, Path;
    WrittenBeforeTheSeal(events, i);
    SealedDirectory(w, before);
    assert events[i] == before[i];
    forall k | 0 < k < |before| && i < k ensures !before[k].DirectoryMade? { assert before[k] == events[k]; }
    WrittenFileIsThere(w, before, i);
    OtherPathsAreNotTheManifest(events[i].file);
  }

  lemma WrittenBeforeTheSeal(events: seq<Event>, i: nat)
    requires InOrder(events) && events != [] && events[|events| - 1].Sealed?
    requires i < |events| && events[i].Wrote?
    ensures i < |events| - 1 && events[i].file != Sha256Manifest
  {
  }

  lemma OtherPathsAreNotTheManifest(file: EvidenceFile)
    requires file != Sha256Manifest
    ensures Path(file) != MANIFEST
  {
  }

  lemma SealedDirectory(w: World, before: seq<Event>)
    ensures var events := Seal(w, before);
            && events != [] && events[|events| - 1] == Sealed(ManifestOf(DirectoryAfter(w, before), w.sha256))
            && DirectoryAfter(w, events)
               == DirectoryAfter(w, before)[MANIFEST := File(w.manifestText(events[|events| - 1].entries))]
            && Covers(events[|events| - 1].entries, DirectoryAfter(w, events), w.sha256)
  {
    assert Seal(w, before)[..|before|] == before;
  }

  /** A file once written stays a file. */
  lemma {:induction false} WrittenFileIsThere(w: World, events: seq<Event>, i: nat)
    requires i < |events| && events[i].Wrote? && forall k | 0 < k < |events| && i < k :: !events[k].DirectoryMade?
    ensures Path(events[i].file) in DirectoryAfter(w, events) && DirectoryAfter(w, events)[Path(events[i].file)].File?
    decreases |events|
  {
    hide Path;
    if i < |events| - 1 { WrittenFileIsThere(w, events[..|events| - 1], i); }
  }

  lemma BeforeSeal(w: World) returns (before: seq<Event>)
    requires RunOf(w).result.Some?
    ensures RunOf(w).events == Seal(w, before) && before != [] && before[|before| - 1] == Wrote(FinalResult)
  {
    hide Checks, FirstPass, SecondPass, Opening, AfterGuard, AfterBinding, AfterRecheck, Seal;
    var final := [Wrote(FinalResult)];
    match w.guard
    case GuardTimedOut(left) => before := Opening(w) + [GuardEnded(false, 0, left)] + final;
    case GuardNotLaunched => before := Opening(w) + final;
    case GuardFinished(_, _, stderrLength, _) =>
      if !GuardPassed(w.guard) || stderrLength != 0 {
        before := AfterGuard(w) + final;
      } else if !w.snapshotBound {
        before := AfterBinding(w) + final;
      } else if !AllOk(SecondPass(w)) {
        before := AfterRecheck(w) + final;
      } else {
        before := AfterProduction(w);
      }
  }

  /** A returned result names a stop reason exactly when it carries no classification, and that is
      exactly when production was never launched. */
  lemma StopReasonIffNotClassified(w: World)
    requires RunOf(w).result.Some?
    ensures var r := RunOf(w).result.value;
            && (r.stopReason.Some? <==> r.classification.None?)
            && (r.stopReason.None? <==> ProductionLaunched in RunOf(w).events)
            && (r.productionLaunched ==> r.stopReason.None?)
            && (r.stopReason.None? && !r.productionLaunched ==> r.classification == Some(ProcessNotLaunched))
  {
    var events := RunOf(w).events;
    LaunchedIffClassified(w);
    assert w.production.NotLaunched? ==> Classified(w) == ProcessNotLaunched;
    hide FirstPass, SecondPass, Checks, Opening, AfterGuard, AfterBinding, AfterRecheck, AfterProduction, DirectoryAfter, Seal, Classified;
  }

  predicate AllPassed(w: World) {
    AllOk(FirstPass(w)) && GuardPassed(w.guard) && w.guard.stderrLength == 0 && w.snapshotBound && AllOk(SecondPass(w))
  }

  lemma LaunchedIffClassified(w: World)
    ensures ProductionLaunched in RunOf(w).events <==> AllPassed(w)
  {
    hide FirstPass, SecondPass, Checks, Opening, AfterGuard, AfterBinding, AfterRecheck, AfterProduction, DirectoryAfter, Seal;
    var events := RunOf(w).events;
    if AllPassed(w) {
      LaunchIsThere(w);
    }
    forall n | 0 <= n < |events| && events[n] == ProductionLaunched ensures AllPassed(w) {
      LaunchMeansAllPassed(w, n);
    }
  }

  lemma LaunchIsThere(w: World)
    requires w.guard.GuardFinished?
    ensures ProductionLaunched in Seal(w, AfterProduction(w))
  {
  }

  /** A run that returns with acceptance found no render job before it and leaves exactly one, the
      expected row, which production stdout corroborates. */
  lemma AcceptedRunLeavesOneRow(w: World) returns (row: Row)
    requires RunOf(w).result.Some? && RunOf(w).result.value.classification == Some(QueuePathAccepted)
    ensures w.databaseBefore.Some? && w.databaseBefore.value.jobs == []
    ensures w.databaseAfter.Some? && w.databaseAfter.value.jobs == [JobRow(EPISODE_ID, row)]
    ensures RowIsExpected(w.site, row) && w.production.Finished? && w.production.exitCode == 0
    ensures Evaluate(Occurred(w.production.stdout), row).None?
  {
    hide Checks, DirectoryAfter, Evaluate, Occurred, AllOk, Classify;
    assert AllOk(FirstPass(w));
    GatedBaseline(w);
    var before := w.databaseBefore.value;
    var a := AttemptOf(w.production, w.outputAfter);
    AcceptedIff(w.site, w.patterns, a, before, w.databaseAfter);
    row :| HoldsExactly(w.site, before, w.databaseAfter.value, row) && RowIsExpected(w.site, row)
           && Evaluate(Occurred(a.stdout), row).None?;
  }

  lemma GatedBaseline(w: World)
    requires AllOk(FirstPass(w))
    ensures w.databaseBefore.Some? && w.databaseBefore.value.jobs == []
    ensures VerifyPreMutationBaseline(w.site, ReadDatabaseBaseline(w.databaseBefore)) == Passed
  {
    assert FirstPass(w)[7].ok;
  }
}
