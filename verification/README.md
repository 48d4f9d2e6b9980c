# Redline evidence protocols in Dafny

Redline OS drives DaVinci Resolve through a bridge it does not control and keeps evidence of what it
saw. This project models the parts of it where that evidence has to be right: collecting a snapshot of
a render queue that may change while it is read and checking such a snapshot offline, publishing an
evidence file without ever overwriting one, hashing a file that others may be changing, walking and
comparing object graphs, decoding git's output, cutting sections out of closure documents, and making
exactly one guarded queue attempt.

Resolve, the file system, git and subprocesses are environments: a history that may be a different
world at every call, or answers given as parameters. What the program computes is modelled as it is
written. Code that updates variables step by step is a method (of a class where the source keeps a
`seen` set, a list of records, a handle or an evidence directory), proved against a specification
function; the properties are then proved of that function, over all inputs, all environments and all
interleavings. Where an operation decides something, a theorem says when it does so on the inputs alone,
with the literal texts, names and numbers the source uses.

## How it is laid out

| files | what they model |
|---|---|
| `Text`, `Splitting`, `LineSplitting`, `SortedNames`, `PythonValues` | strings, splitting, joining and sorting, and the values that cross the bridge, with Python's `==`, truth and `strip()` |
| `RenderQueueEntries`, `RenderQueueSnapshot`, `RenderQueueValidator`, `RenderQueueExactness`, `RenderQueueAnswers`, `RenderQueueRejections`, `RenderQueueComparison` | the render-queue snapshot: producer, checker, the answers that make a run publish, the reasons for a rejection, and the comparison with an expected job |
| `EvidencePublication`, `EvidenceErrors`, `EvidenceWriter` | the create-only evidence writer as a state machine over directory entries and inodes, and as the calls of one writer among others |
| `ObjectGraph`, `ObjectGraphUnfolding`, `ObjectGraphCycles`, `ObjectGraphFailures`, `NormalizedTrees` | the JSON normalizer on graphs with sharing and cycles, and its agreement with the one on trees |
| `MediaPool`, `MediaPoolProperties`, `MediaPoolAnswers`, `MediaPoolInventory` | both media-pool walks |
| `StructuralDiff`, `StructuralDiffClasses`, `StructuralDiffProperties`, `StructuralDiffPlaces`, `StructuralDiffPaths` | the structural comparison of two snapshots: classes, places and paths of its records |
| `SnapshotCollection`, `PreflightChecks`, `PreflightDocument`, `PreflightAgainstCollector`, `PreflightAnswers` | the live snapshot's collector, the offline preflight, and what the one leaves for the other to decide |
| `StableReading`, `StableReadingCalls` | the four checkpoints around a chunked read |
| `GitCommand`, `PorcelainStatus`, `PorcelainRoundTrip` | git's answers, the porcelain v2 decoder and the printer it undoes |
| `CommitGraph`, `GitHistory`, `PathGate` | ancestry, tracking, the closed state and the path gate before it |
| `MarkdownSections` | fence-aware section extraction |
| `ProductionStdout`, `StdoutEvidence`, `QueueAttemptOutcome`, `EvidenceManifest`, `QueueAttemptRun`, `QueueAttemptSafety`, `QueueAttemptGates` | the queue-attempt harness: the CLI's printer, the parser that undoes it, the classifier, the manifest, and whole runs |
| `EvidenceRecord`, `EvidenceDurability` | the Test D evidence package: its durable writes over directory states and inodes, and what a power loss leaves of them |
| `TestDAttempt`, `TestDSafety`, `TestDGates` | the Test D attempt |

## Results that are negative

- A queue that changes and comes back between two reads is not noticed; `ReturningQueueIsMissed` gives
  such a history, and `DoubleCollect` assumes it away.
- The validator's documentation says "this exact probe revision"; `AcceptedIffPublished` shows that to
  be literally so for the modelled parts, with some capture instant the clock check lets through.
- Two records of one structural comparison may bear the same path when a key holds a slash
  (`SlashesMakePathsCollide`). Without slashes paths are unambiguous (`PathsAreDifferent`) and lead to
  one place each (`WrittenPathIsThePlace`).
- A fingerprint that vouches only for the instants it was taken at is not enough for a digest to mean
  anything (`PutBackIsMissed`), as the source's own comment warns.
- The record that Test D writes before AddRenderJob is not always durable when the call is made: the
  fsync of the directory may fail without a word. It is sure to outlive a power loss exactly when that
  fsync succeeded (`SureAtTheCallIff`), and a run may return accepted and still lose any of its records
  (`AcceptedRunMayLoseARecord`). What does come back is never torn (`PreAddRecordIsWhole`).
- A Test D record on disk may say accepted although the run returned inconclusive;
  `StoredDiffersIff` says exactly when, and `StoredAcceptanceMayOutliveTheRun` gives such a run. The
  other direction holds (`AcceptedIsStored`).
- NOT_ANCESTOR can only come up when HEAD moves between two git commands
  (`NotAncestorNeedsAMovingHead`).
- The porcelain decoder accepts output without its last terminator, a score field ending in a line
  feed, and a rename whose X column differs from its score letter; `ParsesIffPrinted` and
  `ChangesAreTheRecordsChanges` include these.
- The last check of the path gate, the comparison with `normpath`, can never fail
  (`NormalizationIsNeverNeeded`).
- Eight of the thirteen preflight checks can never fail on a snapshot the collector returned
  (`EightChecksAlwaysHold`). The timeline name is not among them: the collector reads it once more for
  the document and does not compare that reading.

## Model

| member | source | states |
|---|---|---|
| RenderQueueEntries.StatusIsRight | scripts/phase14_render_queue_snapshot.py:612-665 | the alias scan gives the one status that fits an entry however its aliases are ordered: malformed if any alias is unusable, otherwise unidentified, identified or conflicting by how many different ids they read |
| RenderQueueEntries.StatusIsUnique | scripts/phase14_render_queue_snapshot.py:612-665 | no two statuses fit the same entry |
| RenderQueueEntries.JobIdKeyStatus | scripts/phase14_render_queue_snapshot.py:612-665 | the loop that fills the id map and the list of bad keys computes that status |
| RenderQueueEntries.StatusSurvivesNormalizing | scripts/phase14_render_queue_snapshot.py:612-721 | an entry and its normalized fields get the same status and the same id |
| RenderQueueAnswers.StatusFromAnswers | scripts/phase14_render_queue_snapshot.py:612-665 | an entry's status from its seven id keys alone: malformed as soon as one holds neither text, integer, bool nor None, and otherwise by how many different ids they hold |
| RenderQueueAnswers.EntryErrors | scripts/phase14_render_queue_snapshot.py:668-721 | an entry that cannot be read is refused for the first of five reasons, and for no other |
| RenderQueueEntries.NormalizeRenderQueue | scripts/phase14_render_queue_snapshot.py:724-759 | the loop with `seen_ids` returns the normalized queue or the first error in list order |
| RenderQueueEntries.QueueIsWellFormed | scripts/phase14_render_queue_snapshot.py:668-759 | a normalized queue has consecutive indexes, distinct trimmed ids, JSON fields, and an id exactly where the fields read as identified |
| RenderQueueEntries.WellFormedQueueIsAFixpoint | scripts/phase14_render_queue_snapshot.py:668-759 | handing a well-formed queue's fields back to the normalizer reproduces the queue |
| RenderQueueAnswers.QueueFromAnswer | scripts/phase14_render_queue_snapshot.py:724-759 | one answer to GetRenderJobList reads as a queue exactly when it lists dicts with string keys, none spoilt, each with the id its keys give, and no id twice |
| RenderQueueAnswers.SameQueueAgrees | scripts/phase14_render_queue_snapshot.py:813-853 | two reads count as the same exactly when places, ids and keys agree and every value compares equal |
| RenderQueueSnapshot.Session.CollectRenderQueueSnapshot | scripts/phase14_render_queue_snapshot.py:940-1115 | the collector, call by call against a Resolve that may change between any two calls, equals the specification used below |
| RenderQueueSnapshot.Session.RebracketAfterStatuses | scripts/phase14_render_queue_snapshot.py:813-853 | the closing bracket re-reads queue and context and fails on any difference |
| RenderQueueAnswers.PublishesIff | scripts/phase14_render_queue_snapshot.py:940-1115 | a snapshot is published exactly on these answers: four guards that name the expected project and timeline and say that nothing renders, three reads that agree, a status for every entry with an id, and finite numbers only |
| RenderQueueAnswers.PublishedContextWasSeen | scripts/phase14_render_queue_snapshot.py:856-915 | at each of the four guards of a publishing run Resolve named the expected project and timeline and answered False for rendering |
| RenderQueueAnswers.GuardMismatch | scripts/phase14_render_queue_snapshot.py:875-915 | on names that can be read the first difference from what is expected decides how a guard ends |
| RenderQueueAnswers.FirstDriftIsReported | scripts/phase14_render_queue_snapshot.py:921-1049 | two first reads that do not agree stop the run as drift |
| RenderQueueAnswers.LastDriftIsReported | scripts/phase14_render_queue_snapshot.py:813-853 | a third read that does not agree stops it as drift after the status reads |
| RenderQueueSnapshot.DoubleCollect | scripts/phase14_render_queue_snapshot.py:921-1049 | if the normalized queue never returns to an earlier value within the window, a published document holds the queue of every instant from the first read to the third, and each status was read inside that window |
| RenderQueueSnapshot.StandsStillIffNeverReturns | scripts/phase14_render_queue_snapshot.py:921-1049 | of a published run that assumption says exactly that the queue stood still over the window |
| RenderQueueSnapshot.ChangedQueueNeverPublishes | scripts/phase14_render_queue_snapshot.py:921-1049 | a run whose queue differs somewhere in the window never publishes |
| RenderQueueSnapshot.ReturningQueueIsMissed | scripts/phase14_render_queue_snapshot.py:921-1049 | a queue that leaves and comes back is not noticed: the assumption on returning is needed |
| RenderQueueValidator.ValidateQueueSnapshotDocument | scripts/phase14_render_queue_snapshot.py:1142-1453 | the validator with its early exits gives the first rejection in the order of its checks |
| RenderQueueValidator.ValidateEntries | scripts/phase14_render_queue_snapshot.py:1300-1451 | the loop that updates `seen_identified_ids` gives the first rejected entry |
| RenderQueueRejections.RejectionsAreTrue | scripts/phase14_render_queue_snapshot.py:1142-1453 | whatever a document is rejected for is wrong with it, each of the thirty-seven reasons told from the document alone |
| RenderQueueExactness.EveryPublishedDocumentIsAccepted | scripts/phase14_render_queue_snapshot.py:940-1115 | every document the collector returns, against any Resolve answers, is accepted by the validator and already in normal form |
| RenderQueueExactness.AcceptedReadsBack | scripts/phase14_render_queue_snapshot.py:1142-1453 | an accepted document is the written form of some publishable snapshot, key for key |
| RenderQueueExactness.PublishableIsCollected | scripts/phase14_render_queue_snapshot.py:940-1115 | every publishable snapshot is returned by the collector run against a Resolve that stands still |
| RenderQueueExactness.AcceptedIffPublished | scripts/phase14_render_queue_snapshot.py:1142-1144 | the validator accepts exactly the documents some collector run against some Resolve answers returns |
| RenderQueueComparison.AtMostOneMatch | scripts/phase14_render_queue_snapshot.py:1490-1624 | in a publishable queue at most one entry carries the expected id |
| RenderQueueComparison.ClassificationMeaning | scripts/phase14_render_queue_snapshot.py:1490-1624 | each comparison class says exactly how many entries are identified, unidentified and matching |
| RenderQueueComparison.RefusalMeaning | scripts/phase14_render_queue_snapshot.py:1490-1624 | which arguments are refused before the queue is looked at, and why; the refusal of a duplicate never comes up |
| EvidencePublication.StepKeepsInv | scripts/phase14_resolve_context_snapshot.py:1490-1595 | one step of any writer, a crash, a failed call or a foreign creation keeps the invariant and never touches a file that is already at the output path |
| EvidencePublication.RunKeepsInv | scripts/phase14_resolve_context_snapshot.py:1490-1595 | over any interleaving of any number of writers the invariant holds and each `published` flag records whether that writer's link took place |
| EvidencePublication.OutputNeverChanges | scripts/phase14_resolve_context_snapshot.py:1517-1595 | once something is at the output path it stays there unchanged |
| EvidencePublication.LinkedOutputIsComplete | scripts/phase14_resolve_context_snapshot.py:1517-1595 | after a link the output holds the linking writer's complete, flushed text |
| EvidencePublication.AtMostOneLink | scripts/phase14_resolve_context_snapshot.py:1551-1571 | at most one of all writers ever links the output |
| EvidencePublication.NoLinkOverAnExistingFile | scripts/phase14_resolve_context_snapshot.py:1551-1571 | nobody links over a file that was there before |
| EvidencePublication.OutcomeMatchesRun | scripts/phase14_resolve_context_snapshot.py:1533-1595 | a normal return means this writer published, and the `published` detail of each error is true to fact |
| EvidenceErrors.ErrorsAreTrue | scripts/phase14_resolve_context_snapshot.py:1490-1595 | in every run the error a writer raises, or is about to raise once it has cleaned up, is what happened to it: each of the seven errors by its own step |
| EvidencePublication.NoTempLeftBehind | scripts/phase14_resolve_context_snapshot.py:1580-1595 | when every call has ended and no clean-up failed, no temporary file remains that was not there before |
| EvidencePublication.RestartNeverTearsTheOutput | scripts/phase14_resolve_context_snapshot.py:1526-1571 | after power loss the output is either absent or complete |
| EvidenceWriter.Disk.WriteNoOverwrite | scripts/phase14_resolve_context_snapshot.py:1517-1595 | the writer call by call, with other writers acting between any two of its calls, is a run of the state machine and returns normally only with its text in place |
| EvidenceWriter.Disk.WriteAndSync | scripts/phase14_resolve_context_snapshot.py:1535-1550 | the text is written in as many pieces as it takes and flushed before anything is linked |
| ObjectGraph.PathSet.NormalizeJsonValue | scripts/phase14_resolve_context_snapshot.py:242-282 | the recursive normalizer returns what the specification says and leaves `seen` on every exit as it was on entry |
| ObjectGraphUnfolding.NormalizeIffUnfolds | scripts/phase14_resolve_context_snapshot.py:242-282 | it returns t exactly when t is the key-sorted unfolding of the object graph |
| ObjectGraphUnfolding.UnfoldingIsUnique | scripts/phase14_resolve_context_snapshot.py:242-282 | an object graph has at most one unfolding |
| ObjectGraphCycles.NormalizeSucceedsIff | scripts/phase14_resolve_context_snapshot.py:242-282 | it succeeds exactly when no cycle, unsupported value or non-string key is within reach; sharing is no obstacle |
| ObjectGraphFailures.FailureIsTrue | scripts/phase14_resolve_context_snapshot.py:242-282 | a failure names something that is within reach: a cycle, a value of no supported type, or a key that is no string |
| NormalizedTrees.TreeInMemoryNormalizesAlike | scripts/phase14_resolve_context_snapshot.py:242-282 | a tree of values, however its parts are shared in memory, normalizes as an object graph exactly when it does as a tree, and to the same value with its keys in order |
| NormalizedTrees.TreeOfIsInjective | scripts/phase14_resolve_context_snapshot.py:242-282 | no two JSON values have the same key-sorted tree |
| ObjectGraphCycles.NormalizingAgainChangesNothing | scripts/phase14_resolve_context_snapshot.py:242-282 | normalizing the result again, however it is laid out in memory, gives it back |
| MediaPool.Walker.WalkMediaPoolFolder | scripts/phase14_resolve_context_snapshot.py:783-836 | the snapshot's walk with its `visited` map returns the specified tree or the first failure in walking order |
| MediaPool.Collector.WalkMediaPoolFolder | scripts/phase14_test_d_queue_attempt.py:752-797 | the gate's walk appends the rows of that tree to `out`, a folder's clips before its subfolders |
| MediaPoolProperties.WalkSucceedsIff | scripts/phase14_resolve_context_snapshot.py:783-836 | a walk succeeds exactly when every folder in reach answers usably and none is met along two ways down |
| MediaPoolAnswers.WalkSucceedsOnAnswers | scripts/phase14_resolve_context_snapshot.py:783-836 | the same told from the answers: every folder in reach lists usable clips and subfolders, for the gate with names and ids that are not blank |
| MediaPoolAnswers.NodesHoldAnswers | scripts/phase14_resolve_context_snapshot.py:772-836 | each folder in reach has its node with its own name, or the stand-in where there is none, and the clips it listed |
| MediaPoolProperties.WalkReturnsTheTree | scripts/phase14_resolve_context_snapshot.py:783-836 | the tree has one node for each folder in reach, with that folder's name, clips and the names along its only path |
| MediaPoolInventory.EachClipHasItsRow | scripts/phase14_test_d_queue_attempt.py:752-812 | the flat inventory has one row for each clip of each folder in reach, under the folder names along its only path, and no further row |
| StructuralDiff.Comparison.CompareRecursive | scripts/phase14_resolve_context_snapshot.py:1212-1292 | the recursive comparison appends the specified records or raises on an unhashable status |
| StructuralDiffProperties.AllEqualIff | scripts/phase14_resolve_context_snapshot.py:1188-1292 | all records are `equal` exactly when the documents are equal in Python's sense and hold no unavailable or failed observation |
| PythonValues.EqualityAcrossTypes | scripts/phase14_resolve_context_snapshot.py:1205-1205 | bools, ints and floats compare by value across their types, NaN with nothing, the rest with their own kind only |
| StructuralDiffProperties.EqualDocumentsShowNoDifference | scripts/phase14_resolve_context_snapshot.py:1188-1292 | equal documents yield no different, context-sensitive or one-sided record |
| StructuralDiffProperties.SwappingSwapsRecords | scripts/phase14_resolve_context_snapshot.py:1192-1292 | swapping the documents gives the same paths in the same order with sides and labels swapped |
| StructuralDiffProperties.RecordsLead | scripts/phase14_resolve_context_snapshot.py:1212-1292 | the steps that the model adds to every record lead, in each document, to the value recorded for it, and its class is the one that fits what is there |
| StructuralDiffClasses.OneClassFits | scripts/phase14_resolve_context_snapshot.py:1180-1209 | one class fits what the two documents hold at a place: by the statuses observed, unavailable and error on either side, by equality, and by the three volatile prefixes |
| StructuralDiffPlaces.PlacesAreRecorded | scripts/phase14_resolve_context_snapshot.py:1212-1292 | records stand exactly at the places where the comparison does not go on inside, told from the two documents |
| StructuralDiffPlaces.RecordsInOrder | scripts/phase14_resolve_context_snapshot.py:1219-1292 | records come by sorted key and by index, and no place has two |
| StructuralDiffPlaces.RaisesIff | scripts/phase14_resolve_context_snapshot.py:1180-1292 | the comparison raises exactly when at some place it meets a status that is a list or a dict |
| StructuralDiffProperties.LeavesAreCoveredOnce | scripts/phase14_resolve_context_snapshot.py:1212-1292 | each scalar leaf of either document lies under exactly one record |
| StructuralDiffPaths.PathsAreDifferent | scripts/phase14_resolve_context_snapshot.py:1212-1292 | written paths tell records apart when no key holds a slash |
| StructuralDiffPaths.WrittenPathIsThePlace | scripts/phase14_resolve_context_snapshot.py:1212-1292 | when no key holds a slash, any place in either document that is written as a record's path is the place of that record |
| StructuralDiffPaths.SlashesMakePathsCollide | scripts/phase14_resolve_context_snapshot.py:1212-1292 | comparing {a: {b: 1}, a/b: 2} with {a: {b: 3}, a/b: 4} reports two different records under one path, for all keys a and b (a dict under `status` makes the comparison raise) |
| StableReading.HashStableFile | src/redline_core/fsutil.py:238-263 | the chunk loop between the checkpoints computes the specified outcome |
| StableReadingCalls.HashedMeans | src/redline_core/fsutil.py:151-263 | a digest means four looks that find a plain file alike in size, time and identity, and in between its bytes read through to the end: it is the digest of those bytes |
| StableReadingCalls.OpeningEnds | src/redline_core/fsutil.py:151-210 | how the first three calls end: the first that goes wrong decides the error |
| StableReadingCalls.ClosingEnds | src/redline_core/fsutil.py:211-240 | how the last two calls end |
| StableReading.DigestIsOfOneContent | src/redline_core/fsutil.py:151-263 | if fingerprints identify object and content over the time between, a digest is that of one content the path held at the first and the last checkpoint, hashed whole and once, and the size is its length |
| StableReading.DigestUnderFileSystemLaws | src/redline_core/fsutil.py:151-263 | the same when no two files share device and inode and a change of content moves a file's time of modification forward |
| StableReading.FingerprintsIdentifyFiles | src/redline_core/fsutil.py:151-191 | what the checkpoints rely on follows from those two laws |
| StableReading.StillFileIsHashed | src/redline_core/fsutil.py:151-263 | a file nobody touches is hashed |
| StableReading.PutBackIsMissed | src/redline_core/fsutil.py:187-191 | if a fingerprint vouched only for the instants it was taken at, the digest could be of a mixture the path never held |
| PorcelainStatus.ParsePorcelainV2 | src/control_room/git_reader.py:442-494 | the index-driven loop over NUL tokens computes the specified change list or fails |
| PorcelainRoundTrip.ParseUndoesPrint | src/control_room/git_reader.py:442-569 | printing well-formed records and parsing gives their changes back: paths with spaces and original paths that look like records included |
| PorcelainRoundTrip.ParsesIffPrinted | src/control_room/git_reader.py:442-569 | output parses to a change list exactly when it is the print of well-formed records of those changes (the last terminator is optional) |
| PorcelainRoundTrip.OutputHasOneReading | src/control_room/git_reader.py:465-494 | no output is the print of two different record lists: no token is dropped or merged |
| PorcelainRoundTrip.WorkingTreeReading | src/control_room/git_reader.py:423-440 | the status is ERROR exactly when the command failed, and then there are no changes; changes are given exactly when the output is the print of well-formed records, and are theirs; an empty change list goes with CLEAN only |
| PorcelainRoundTrip.ChangesAreTheRecordsChanges | src/control_room/git_reader.py:496-569 | which changes can come out at all; the X column of a rename need not match its score letter |
| CommitGraph.NothingBetweenIff | src/control_room/git_reader.py:380-393 | a commit count between two commits is zero exactly when the one is in the other's history |
| GitHistory.TrackingIsAncestry | src/control_room/git_reader.py:571-604 | in an acyclic history the tracking status says exactly how HEAD and its upstream are related by ancestry |
| GitHistory.TrackingWithoutCounts | src/control_room/git_reader.py:571-604 | without two counts the status says how far git's answers went: detached, no upstream, or an error |
| GitHistory.OnlyOneAdditionIsTaken | src/control_room/git_reader.py:296-340 | an introduction commit is taken only when the log lists exactly one |
| GitHistory.CurrencyIsNeverWrong | src/control_room/project_status_service.py:264-348 | however commands fail, CURRENT is only said of HEAD, AHEAD of a proper ancestor with its exact distance, NOT_ANCESTOR of a commit that is none |
| GitHistory.NotAncestorNeedsAMovingHead | src/control_room/project_status_service.py:264-348 | while HEAD stands still the log lists commits of its history only, so NOT_ANCESTOR never comes up |
| GitHistory.CurrentIffClosedIsHead | src/control_room/project_status_service.py:305-348 | when the gates pass and git answers, CURRENT holds exactly when the closed commit is HEAD |
| GitHistory.AvailableIff | src/control_room/project_status_service.py:264-348 | some status other than UNAVAILABLE is said exactly when document, path, repository, HEAD, log, ancestry and count are all there |
| PathGate.AcceptedIff | src/control_room/project_status_service.py:61-93 | a path passes exactly when it joins segments none of which is empty, `.` or `..`, and holds no excluded character or prefix |
| PathGate.RefusalsAreTrue | src/control_room/project_status_service.py:61-93 | what each refusal says of the path is true of it |
| PathGate.NormalizationIsNeverNeeded | src/control_room/project_status_service.py:91-92 | the final normpath comparison never refuses a path |
| PathGate.AcceptedPathsStayInside | src/control_room/project_status_service.py:61-93 | accepted paths lead strictly below the repository and no two lead to the same place |
| MarkdownSections.ExtractSectionBody | src/control_room/mission_history_reader.py:175-211 | the loop with its fence state computes the body between the first such heading and the next heading |
| MarkdownSections.OpeningFenceIs | src/control_room/mission_history_reader.py:52-52 | a line opens a fence exactly when after three blanks at most stand three backquotes or three tildes at least |
| MarkdownSections.ClosingFenceIs | src/control_room/mission_history_reader.py:212-222 | and closes it exactly when it has the same mark, no shorter, and white space at most behind |
| MarkdownSections.ExtractUndoesRender | src/control_room/mission_history_reader.py:175-227 | for a preamble and sections of lines without headings, fence-balanced but for the last, extraction returns the newline-trimmed body of the first section with the heading, absent if blank |
| MarkdownSections.HeadingLineCarriesHeading | src/control_room/mission_history_reader.py:59-59 | a trimmed heading written as a `##` line reads back as that heading |
| MarkdownSections.FencedLinesAreOpaque | src/control_room/mission_history_reader.py:182-191 | lines inside a fence can be replaced by any that do not close it, headings included, without starting, ending or moving a section |
| LineSplitting.SplitLinesOfPrinted | src/cli/render_commands.py:124-155 | printed lines, with either newline, split back into the lines |
| ProductionStdout.Stdout.PrintRenderQueueResult | src/cli/render_commands.py:124-155 | the printer emits its lines one after another, the optional ones only when their value is there |
| StdoutEvidence.ParseProductionStdoutOccurrences | scripts/rlc_e9901_queue_attempt_harness.py:1452-1471 | the two loops collect every value of every label, in order |
| StdoutEvidence.PrintedBlockReadsBack | src/cli/render_commands.py:124-155 | reading the printed block gives each label exactly the one value printed for it |
| StdoutEvidence.PrintedJobCorroborates | scripts/rlc_e9901_queue_attempt_harness.py:1474-1539 | what was printed for a job corroborates a row exactly when the row is that job's |
| StdoutEvidence.OneStdoutOneRow | scripts/rlc_e9901_queue_attempt_harness.py:1474-1539 | one stdout text corroborates at most one row |
| QueueAttemptOutcome.AcceptedIff | scripts/rlc_e9901_queue_attempt_harness.py:1542-1728 | after the zero-row gate, an attempt is accepted exactly when it ended cleanly, the whole render_jobs table is the one expected row, the episode changed only its status, and stdout corroborates the row |
| QueueAttemptOutcome.AcceptedJobIsTheTable | scripts/rlc_e9901_queue_attempt_harness.py:1626-1728 | when the CLI printed a job, acceptance means the table is that job's row |
| QueueAttemptRun.Harness.RunAuthorizedQueueAttempt | scripts/rlc_e9901_queue_attempt_harness.py:1960-2204 | the run, dying at any effect, performs a beginning of the specified effects, and all of them when it returns |
| QueueAttemptGates.LaunchIff | scripts/rlc_e9901_queue_attempt_harness.py:1052-1205 | production is launched exactly when each fixed gate of both passes holds, the guard exited with 0, said passed and kept stderr empty, the snapshot is bound, and on both looks the database is sound with the one episode assembled in its folder and not one job or archive, the folder path unchanged, and no output file |
| QueueAttemptGates.RunIsAcceptedIff | scripts/rlc_e9901_queue_attempt_harness.py:1542-2204 | a run ends accepted exactly when the launch was allowed, production ended with code 0 and a silent stderr, the one episode is render_queued, the whole render_jobs table is the expected row, and stdout tells each of its ten lines once |
| QueueAttemptGates.EndingsAre | scripts/rlc_e9901_queue_attempt_harness.py:1916-2204 | when a run raises, and which stop reason or classification every other run ends with |
| QueueAttemptSafety.RunsAreInOrder | scripts/rlc_e9901_queue_attempt_harness.py:1960-2204 | the effects of every run come in the order of their stages |
| QueueAttemptSafety.NothingHappensTwice | scripts/rlc_e9901_queue_attempt_harness.py:1960-2224 | guard and production are launched at most once each, and every evidence file is written at most once |
| QueueAttemptSafety.ProductionIsGuarded | scripts/rlc_e9901_queue_attempt_harness.py:1124-1205 | before any launch of production stand a guard that exited with code 0, printed a passing status and nothing on stderr, the snapshot binding and both gate passes, with the raw folder path unchanged |
| QueueAttemptSafety.ManifestIsLastAndCoversAll | scripts/rlc_e9901_queue_attempt_harness.py:2207-2224 | a run that returns wrote the manifest last, and it lists every file the directory then holds but itself, each with the digest of its content, every evidence file of the run among them |
| EvidenceManifest.ManifestEntries | scripts/rlc_e9901_queue_attempt_harness.py:2207-2224 | the walk that skips the manifest lists exactly the other files, each with the digest of its content |
| QueueAttemptSafety.StopReasonIffNotClassified | scripts/rlc_e9901_queue_attempt_harness.py:1916-1957 | a stop reason is named exactly when there is no classification, which is exactly when the launch of production was not attempted |
| QueueAttemptSafety.AcceptedRunLeavesOneRow | scripts/rlc_e9901_queue_attempt_harness.py:1960-2204 | an accepted run found no render job and leaves exactly the expected row |
| EvidenceRecord.Package.WriteAndHash | scripts/phase14_test_d_queue_attempt.py:215-253 | `write_json` call by call, its text in as many pieces as it takes, and the hashing after it, leave the specified states of the directory and end as specified |
| EvidenceRecord.EndingIs | scripts/phase14_test_d_queue_attempt.py:228-253 | a write fails before the record has its name exactly when some call up to the replacement fails; a directory that does not open or whose fsync fails makes no difference to how it ends |
| EvidenceDurability.PersistIsSound | scripts/phase14_test_d_queue_attempt.py:228-253 | whichever calls of a write fail, at each of its steps every state the directory may come back in leads from record names to complete texts forced to disk only |
| EvidenceDurability.EveryRecordIsWhole | scripts/phase14_test_d_queue_attempt.py:215-253 | wherever power is lost in any sequence of writes, a record that comes back holds, complete, one of the texts written under its name |
| EvidenceDurability.SureIffSecured | scripts/phase14_test_d_queue_attempt.py:236-246 | after any sequence of writes a record is sure to come back exactly when some write forced the directory to disk while the record was in it |
| EvidenceDurability.StaysSure | scripts/phase14_test_d_queue_attempt.py:215-253 | a record that is sure to come back stays so at every step of every later write |
| TestDAttempt.Attempt.ExecuteTestD | scripts/phase14_test_d_queue_attempt.py:1014-1272 | the attempt step by step, rebinding its outcome, counting its errors and writing its records through the package, has the specified effects, states of the evidence directory and result |
| TestDGates.AddIsCalledIff | scripts/phase14_test_d_queue_attempt.py:903-1083 | AddRenderJob is called exactly when all three looks show one of the two end frames, an empty queue and no rendering, every step between went well, and the pre-add record persisted |
| TestDGates.MutationsAreGuarded | scripts/phase14_test_d_queue_attempt.py:1014-1050 | the preset is loaded only after two good looks with one end frame, the settings only after the preset, and every run begins in this order |
| TestDGates.ReturnsIff | scripts/phase14_test_d_queue_attempt.py:1014-1272 | exactly when a run returns accepted and when rejected, told from the job in the queue, the call's answer, the observations and the records |
| TestDGates.ReturnedIds | scripts/phase14_test_d_queue_attempt.py:569-706 | the ids a run returns: the one the call's answer names and, of an accepted run, the job's |
| TestDSafety.AddIsCalledOnceAfterTheRecord | scripts/phase14_test_d_queue_attempt.py:1055-1083 | AddRenderJob is called at most once, after three snapshots with one end frame passed; at the call the pre-add record bears its name and holds its whole text, forced to disk |
| TestDSafety.PreAddRecordIsWhole | scripts/phase14_test_d_queue_attempt.py:215-253 | wherever power is lost in a run, the pre-add record is then absent or holds its whole text |
| TestDSafety.CallsAddIff | scripts/phase14_test_d_queue_attempt.py:1055-1083 | AddRenderJob is called exactly when the gates pass and the pre-add record was written and hashed without an error |
| TestDSafety.SureAtTheCallIff | scripts/phase14_test_d_queue_attempt.py:236-246 | when AddRenderJob is called the record is sure to outlive a power loss exactly when the directory could be opened and its fsync succeeded |
| TestDSafety.SureFromTheCallOn | scripts/phase14_test_d_queue_attempt.py:1079-1272 | a record that is sure at the call stays sure at every later step of the run |
| TestDSafety.SureAtTheEndIff | scripts/phase14_test_d_queue_attempt.py:1079-1224 | after a run that returns, the pre-add record is sure to come back exactly when one of the three directory fsyncs was reached and succeeded |
| TestDSafety.AcceptedRunMayLoseARecord | scripts/phase14_test_d_queue_attempt.py:236-246 | a run in full that returns accepted, after which a power loss may take any one of its records with it |
| TestDSafety.OutcomeOnlyMovesToInconclusive | scripts/phase14_test_d_queue_attempt.py:1169-1199 | the queue's own outcome is kept or turned into inconclusive; the job ids are never touched |
| TestDSafety.QueueAcceptsIff | scripts/phase14_test_d_queue_attempt.py:637-706 | the queue outcome is accepted exactly when an empty queue became one identifiable job that the call's answer does not contradict, and rejected exactly when an empty queue stayed empty after the answer `''` or False |
| TestDSafety.RecordedIff | scripts/phase14_test_d_queue_attempt.py:1158-1219 | the outcome in the post-add record is accepted, or rejected, exactly under these observations, a persisted result record and the queue's own verdict |
| TestDSafety.AcceptedIff | scripts/phase14_test_d_queue_attempt.py:1014-1272 | a run returns accepted exactly under these gates, records and observations |
| TestDSafety.AcceptedIsStored | scripts/phase14_test_d_queue_attempt.py:1201-1272 | accepted means one end frame in all four snapshots, all three records in place and the stored outcome equal to the returned one |
| TestDSafety.StoredDiffersIff | scripts/phase14_test_d_queue_attempt.py:1221-1238 | stored and returned outcome part exactly when the post-add record took its name, something after that failed, and the recorded outcome is accepted or rejected, with the conditions for that spelled out |
| TestDSafety.StoredAcceptanceMayOutliveTheRun | scripts/phase14_test_d_queue_attempt.py:1221-1238 | a run in full whose stored record says accepted while it returns inconclusive |
| TestDSafety.StrictIdIsFirstId | scripts/phase14_test_d_queue_attempt.py:576-589 | a job the strict snapshot rule identifies gets the same id from this first-match rule |
| SnapshotCollection.CaptureTrackGroupByLoop | scripts/phase14_resolve_context_snapshot.py:904-963 | the loops over tracks and items return the specified track group, or fail on an unusable count, list or handle |
| PreflightChecks.CheckVideoItemCountPositive | scripts/rlc_e9901_preflight_assertion.py:611-712 | the loop that adds up item counts passes exactly when the group is well formed throughout and the total is positive |
| PreflightAgainstCollector.EightChecksAlwaysHold | scripts/rlc_e9901_preflight_assertion.py:288-446 | for every snapshot the collector returns, against any Resolve answers, the document is complete and eight of the thirteen checks hold |
| PreflightAgainstCollector.VideoCheckIsTotal | scripts/rlc_e9901_preflight_assertion.py:611-712 | on a collected snapshot the video check fails only when no video item was found at all |
| PreflightAgainstCollector.VerdictIsTheFive | scripts/rlc_e9901_preflight_assertion.py:715-742 | on a collected snapshot the verdict is exactly the conjunction of timeline name, product, version, preset and a positive total |
| PreflightAnswers.CollectedIff | scripts/phase14_resolve_context_snapshot.py:1013-1178 | there is a snapshot exactly when every accessor a step needs answers as required, both guards see the project, the timeline, no rendering and an empty queue, and the second reading of session and guard agrees with the first |
| PreflightAnswers.PassedIff | scripts/rlc_e9901_preflight_assertion.py:455-742 | a collected snapshot passes exactly when the timeline's last name, a product, the presets and the video tracks answer, and every version accessor that answers says 21.0.3.7 |
| PreflightDocument.VerdictIff | scripts/rlc_e9901_preflight_assertion.py:167-742 | on any document: not evaluated unless complete, and passed exactly when every field the thirteen checks look at is as it should be, field by field |

## Left out

- The text of `captured_at`: its check is a parameter, a predicate on strings, so the calendar, the time zone and Python's wider notion of a digit play no part.
- SHA-256, JSON text and Python's float printing: digests and texts are uninterpreted; documents are trees of values.
- NaN's identity in containers: the model's `==` never holds for NaN, where Python lets one NaN object equal itself inside a list or dict. Reflexivity is stated for finite values.
- Subprocesses, SQLite queries, argument parsing, logging, YAML loading, web routes: only their result values appear.
- `getattr` dispatch, exception type names and error message texts; an accessor answers, raises or is missing.
- A `job_id_status`, `revision` or observation status that is a list or dict raises `TypeError`; the validator then counts as not accepting and the comparison as not returning.
- The failure-message ladder of the queue-attempt classifier: one parameter sorts the texts, and it never accepts.
- Fixed hashes, versions, paths and repository checkpoints: one boolean step each in the run models.
- A guard that prints JSON which is not an object makes the harness raise; such a run does not return.
- What a subprocess may still write into the evidence directory after it has ended.
- StableReading.HashStableFile: is shown to end for files that stay within some capacity; a file that grows as fast as it is read would be read for ever.
- MediaPoolProperties.WalkSucceedsIff: takes a folder to have one id throughout, where the source uses Python's `id()` of a bridge handle, which may differ between two wrappers of one folder and may be reused once a handle is gone.
- A system call that fails is taken to have no effect, and inodes are not reused while a directory state from before may still come back.
- The package directory's own name: neither `mkdir` nor the name it makes is ever forced to disk by the source, so a power loss may take the whole directory; EvidenceRecord starts with the directory in place.
- Evidence the Test D script writes after `execute_test_d` has returned.
- Reads that are split inside one `read` call: a call sees one instant, but may return fewer bytes than asked for.
- `splitlines(keepends=True)` in the section reader: extraction starts from the lines.
- GitHistory.ReadTracking: asks that two words of a successful count be plain digits, because `int()` is unguarded there and raises or reads signs and underscores otherwise.
- Universal newline translation and decoding errors of captured command output.
- `compare_snapshots` around the structural comparison: it stands in a marker object for a root key that is missing on one side.
- SnapshotCollection.CollectSnapshot: takes the evidence of finding the one expected timeline, settings, render context, markers, track items, media pool and project listings as JSON values, or as failed; none of the thirteen checks depends on what is in them.
- RenderManager, ArchiveManager, BackupManager, restore and recovery: they are not part of this model.
- The near copies of this machinery in the presence probe, the preflight contract, the Mission 39I attempt and the provenance check: they would only add easy members.
