/** What holds over every run of `execute_test_d`. */
module TestDSafety {
  import opened PythonValues
  import opened TestDAttempt
  import D = EvidenceDurability
  import E = EvidenceRecord
  import P = EvidencePublication
  import Q = RenderQueueEntries
  import T = Text

  // ---- the call and the record before it ----

  /** AddRenderJob is called at most once, after the pre-add record and after three snapshots that all
      saw the end frame of the first; at the call the record bears its name and holds its whole text. */
  lemma AddIsCalledOnceAfterTheRecord(w: World, n: nat)
    requires n < |Execute(w).events| && Execute(w).events[n].AddCalled?
    ensures forall m | 0 <= m < |Execute(w).events| && Execute(w).events[m].AddCalled? :: m == n
    ensures n == 6 && Execute(w).events[..n] == Gates(w) + [Stored(PreAdd, None)]
    ensures GatesPass(w) && w.first.endFrame == w.second.endFrame == w.third.endFrame
    ensures var disk, name := Execute(w).events[n].evidence, E.Final(FileName(PreAdd));
            && name in disk.entries && disk.entries[name] in disk.files
            && disk.files[disk.entries[name]] == P.File(w.text(PreAdd, None), true)
  {
    hide PostErrors, RecordedOutcome, E.Writes, E.DiskAfter, EndingOf;
    assert PreAddWrite(w) == E.Persisted;
    RecordIsThere([], RequestFor(w, PreAdd, None));
    assert [] + [RequestFor(w, PreAdd, None)] == FirstRequest(w);
  }

  /** A record that took its name is in the directory, whole. */
  lemma RecordIsThere(before: seq<E.Request>, r: E.Request)
    requires EndingOf(before, r) != E.FailedBefore
    requires forall b | b in before :: b.name != r.name
    ensures var disk := E.DiskAfter(before + [r]);
            && E.Final(r.name) in disk.entries && disk.entries[E.Final(r.name)] in disk.files
            && disk.files[disk.entries[E.Final(r.name)]] == P.File(r.text, true)
  {
    hide E.Persist;
    var rs := before + [r];
    var d := E.DiskAfter(rs);
    E.LastWrite(before, r);
    E.EndingIs(E.DiskAfter(before), r.name, r.text, r.calls);
    D.SureAfterWriteIff(E.DiskAfter(before), r.name, r.text, r.calls, r.name);
    var name := E.Final(r.name);
    assert name in d.entries;
    D.LosingRestart(d, d.entries) by { assert d.entries in D.Versions(d); }
    if rs != [] { LastStateIsInTrail(rs); }
    D.EveryRecordIsWhole(rs, d, E.Disk(d.entries, [], d.files), r.name);
  }

  lemma LastStateIsInTrail(rs: seq<E.Request>)
    ensures E.DiskAfter(rs) == E.EMPTY || E.DiskAfter(rs) in E.Writes(rs)
  {
  }

  /** The writes of the run. */
  function RunRequests(w: World): seq<E.Request> {
    if !GatesPass(w) then []
    else if PreAddWrite(w) != E.Persisted || w.addResult.None? then FirstRequest(w)
    else AllThree(w, RecordedOutcome(w, w.addResult.value, w.first.endFrame.i))
  }

  lemma TrailOfRequests(w: World)
    ensures Execute(w).trail == E.Writes(RunRequests(w))
  {
    hide GatesPass, RecordedOutcome, PostErrors, E.DiskAfter, EndingOf, RequestFor;
    assert E.Writes([]) == [];
    hide E.Writes;
  }

  lemma OneTextPerName(w: World)
    ensures forall r | r in RunRequests(w) && r.name == FileName(PreAdd) :: r.text == w.text(PreAdd, None)
  {
    hide GatesPass, RecordedOutcome, EndingOf;
    assert FileName(AddResult)[0] != FileName(PreAdd)[0] && FileName(PostAdd)[1] != FileName(PreAdd)[1];
  }

  predicate CallsAdd(w: World) {
    GatesPass(w) && PreAddWrite(w) == E.Persisted
  }

  lemma CallsAddIff(w: World)
    ensures CallsAdd(w) <==> exists e :: e in Execute(w).events && e.AddCalled?
    ensures CallsAdd(w) ==> AddCalled(E.DiskAfter(FirstRequest(w))) in Execute(w).events
  {
    hide GatesPass, RecordedOutcome, PostErrors, E.Writes, E.DiskAfter, EndingOf, RequestFor;
    if CallsAdd(w) { assert Execute(w).events[6] == AddCalled(E.DiskAfter(FirstRequest(w))); }
    if !GatesPass(w) { assert forall e | e in GateEvents(w) :: !e.AddCalled?; }
  }

  /** Wherever power is lost in a run, before, at or after the call, the pre-add record is absent or
      holds its whole text. */
  lemma PreAddRecordIsWhole(w: World, k: nat, after: E.Disk)
    requires k < |Execute(w).trail| && D.MayRestartAs(Execute(w).trail[k], after)
    requires E.Final(FileName(PreAdd)) in after.entries
    ensures var name := E.Final(FileName(PreAdd));
            after.entries[name] in after.files && after.files[after.entries[name]] == P.File(w.text(PreAdd, None), true)
  {
    hide Execute, RunRequests, E.Writes, D.MayRestartAs;
    TrailOfRequests(w);
    OneTextPerName(w);
    D.EveryRecordIsWhole(RunRequests(w), Execute(w).trail[k], after, FileName(PreAdd));
  }

  /** When AddRenderJob is called the record is sure to outlive a power loss exactly when the directory
      could be opened and its fsync succeeded; neither failure is reported. */
  lemma SureAtTheCallIff(w: World)
    requires CallsAdd(w)
    ensures D.SurvivesPowerLoss(E.DiskAfter(FirstRequest(w)), FileName(PreAdd)) <==> E.SyncsDirectory(w.preAddCalls)
  {
    hide D.SurvivesPowerLoss, D.InEveryVersion, E.TakesItsName, GatesPass;
    var r := RequestFor(w, PreAdd, None);
    E.EndingIs(E.EMPTY, r.name, r.text, r.calls);
    assert FirstRequest(w) == [] + [r] && E.DiskAfter([]) == E.EMPTY;
    E.LastWrite([], r);
    D.SurvivesIff(E.DiskAfter(FirstRequest(w)), r.name);
    D.SureAfterWriteIff(E.EMPTY, r.name, r.text, r.calls, r.name);
    D.NothingInEmpty(r.name);
  }

  /** A record that is sure at the call stays so: no later step of the run can lose it. */
  lemma SureFromTheCallOn(w: World, k: nat, after: E.Disk)
    requires CallsAdd(w) && E.SyncsDirectory(w.preAddCalls)
    requires |E.Writes(FirstRequest(w))| <= k < |Execute(w).trail| && D.MayRestartAs(Execute(w).trail[k], after)
    ensures E.Final(FileName(PreAdd)) in after.entries
  {
    hide Execute, RecordedOutcome, E.Writes, D.MayRestartAs, D.InEveryVersion, GatesPass, PreAddWrite;
    SureAtTheCallIff(w);
    TrailOfRequests(w);
    var rs := RunRequests(w);
    var more := rs[|FirstRequest(w)|..];
    assert rs == FirstRequest(w) + more;
    D.StaysSure(FirstRequest(w), more);
    D.SurvivesIff(E.DiskAfter(FirstRequest(w)), FileName(PreAdd));
    D.SurvivesIff(Execute(w).trail[k], FileName(PreAdd));
  }

  /** After a run that returns, the pre-add record is sure to come back exactly when one of the three
      directory fsyncs was reached and succeeded. */
  lemma SureAtTheEndIff(w: World)
    requires Execute(w).result.Some?
    ensures var recorded := RecordedOutcome(w, w.addResult.value, w.first.endFrame.i);
            D.SurvivesPowerLoss(E.DiskAfter(AllThree(w, recorded)), FileName(PreAdd)) <==>
              || E.SyncsDirectory(w.preAddCalls)
              || (ResultWrite(w) != E.FailedBefore && E.SyncsDirectory(w.resultCalls))
              || (PostAddWrite(w, recorded) != E.FailedBefore && E.SyncsDirectory(w.postAddCalls))
  {
    SureAfterThreeIff(w, RecordedOutcome(w, w.addResult.value, w.first.endFrame.i));
  }

  lemma SureAfterThreeIff(w: World, recorded: Outcome)
    requires CallsAdd(w)
    ensures D.SurvivesPowerLoss(E.DiskAfter(AllThree(w, recorded)), FileName(PreAdd)) <==>
              || E.SyncsDirectory(w.preAddCalls)
              || (ResultWrite(w) != E.FailedBefore && E.SyncsDirectory(w.resultCalls))
              || (PostAddWrite(w, recorded) != E.FailedBefore && E.SyncsDirectory(w.postAddCalls))
  {
    hide D.SurvivesPowerLoss, D.InEveryVersion, GatesPass, EndingOf, E.DiskAfter, FileName;
    SureAtTheCallIff(w);
    D.SurvivesIff(E.DiskAfter(FirstRequest(w)), FileName(PreAdd));
    RecordIsThereAfterFirst(w);
    OneMoreWrite(FirstRequest(w), RequestFor(w, AddResult, None));
    OneMoreWrite(FirstTwo(w), RequestFor(w, PostAdd, Some(recorded)));
    D.SurvivesIff(E.DiskAfter(AllThree(w, recorded)), FileName(PreAdd));
  }

  lemma RecordIsThereAfterFirst(w: World)
    requires PreAddWrite(w) != E.FailedBefore
    ensures E.Final(FileName(PreAdd)) in E.DiskAfter(FirstRequest(w)).entries
  {
    hide E.Persist;
    RecordIsThere([], RequestFor(w, PreAdd, None));
    assert [] + [RequestFor(w, PreAdd, None)] == FirstRequest(w);
  }

  lemma OneMoreWrite(rs: seq<E.Request>, r: E.Request)
    requires E.Final(FileName(PreAdd)) in E.DiskAfter(rs).entries
    ensures E.Final(FileName(PreAdd)) in E.DiskAfter(rs + [r]).entries
    ensures D.InEveryVersion(E.DiskAfter(rs + [r]), E.Final(FileName(PreAdd))) <==>
            || D.InEveryVersion(E.DiskAfter(rs), E.Final(FileName(PreAdd)))
            || (EndingOf(rs, r) != E.FailedBefore && E.SyncsDirectory(r.calls))
  {
    hide D.InEveryVersion, E.TakesItsName, E.Persist, E.Writes;
    E.EndingIs(E.DiskAfter(rs), r.name, r.text, r.calls);
    E.LastWrite(rs, r);
    D.SureAfterWriteIff(E.DiskAfter(rs), r.name, r.text, r.calls, FileName(PreAdd));
  }

  // ---- the outcome ----

  /** What the queue alone would say is either kept or turned into `inconclusive`; the job ids are
      never touched. */
  lemma OutcomeOnlyMovesToInconclusive(w: World)
    requires Execute(w).result.Some?
    ensures var r, o := Execute(w).result.value.outcome, FirstOutcome(w.addResult.value, w.after);
            && r == (if r.kind == o.kind then o else Doubt(o))
            && (r.kind != o.kind ==>
                  || w.after.rendering != Some(Bool(false)) || Execute(w).result.value.postErrors > 0
                  || Execute(w).result.value.evidenceErrors > 0)
  {
    var recorded := RecordedOutcome(w, w.addResult.value, w.first.endFrame.i);
    hide ClassifyQueueOutcome, PostErrors, GatesPass, GateEvents, NormalizeQueue, EndingOf, E.Writes;
    assert Execute(w).result.value.outcome in [recorded, Doubt(recorded)];
  }

  lemma {:induction false} IdsOfIdentified(jobs: seq<Value>)
    requires AllIdentified(jobs)
    ensures |IdsOf(jobs)| == |jobs|
    ensures forall i | 0 <= i < |jobs| :: Some(IdsOf(jobs)[i]) == JobIdOf(jobs[i])
  {
    if jobs != [] { IdsOfIdentified(jobs[1..]); }
  }

  /** The queue accepts exactly when it went from empty to one job with an id that AddRenderJob's own
      answer does not contradict. */
  lemma QueueAcceptsIff(addResult: Value, before: seq<Value>, after: seq<Value>)
    ensures ClassifyQueueOutcome(addResult, before, after).kind == Accepted <==>
            before == [] && QueueAccepts(addResult, after)
    ensures ClassifyQueueOutcome(addResult, before, after).kind == Rejected <==>
            before == [] && QueueRejects(addResult, after)
  {
    hide JobIdOf, CoerceDirectJobId;
    if AllIdentified(after) { IdsOfIdentified(after); }
  }

  predicate QueueAccepts(addResult: Value, after: seq<Value>) {
    && |after| == 1 && JobIdOf(after[0]).Some?
    && (CoerceDirectJobId(addResult).Some? ==> CoerceDirectJobId(addResult) == JobIdOf(after[0]))
  }

  predicate QueueRejects(addResult: Value, after: seq<Value>) {
    after == [] && (addResult == Str("") || addResult == Bool(false))
  }

  /** Nothing after the call gives reason for doubt. */
  predicate Undoubted(w: World)
    requires GatesPass(w)
  {
    && w.after.rendering == Some(Bool(false)) && w.after.identityRead && w.after.projectAsReviewed
    && w.after.timeline.Some? && TimelineValid(w.after.timeline.value, Some(w.first.endFrame.i))
    && ResultWrite(w) == E.Persisted
  }

  /** The queue as it is read after the call. */
  predicate QueueReads(w: World, jobs: seq<Value>) {
    w.after.queue.Some? && NormalizeQueue(w.after.queue.value) == Some(jobs)
  }

  /** Exactly when the outcome that goes into the post-add record is accepted, and rejected. */
  lemma RecordedIff(w: World)
    requires CallsAdd(w) && w.addResult.Some?
    ensures var recorded := RecordedOutcome(w, w.addResult.value, w.first.endFrame.i);
            && (recorded.kind == Accepted <==>
                  Undoubted(w) && exists jobs :: QueueReads(w, jobs) && QueueAccepts(w.addResult.value, jobs))
            && (recorded.kind == Rejected <==>
                  Undoubted(w) && exists jobs :: QueueReads(w, jobs) && QueueRejects(w.addResult.value, jobs))
  {
    hide ClassifyQueueOutcome, GatesPass, CoerceDirectJobId, NormalizeQueue, QueueAccepts, QueueRejects, EndingOf;
    if w.after.queue.Some? && NormalizeQueue(w.after.queue.value).Some? {
      var jobs := NormalizeQueue(w.after.queue.value).value;
      QueueAcceptsIff(w.addResult.value, [], jobs);
      assert QueueReads(w, jobs);
    }
  }

  /** A returned acceptance means all of this, and all of this is enough. */
  ghost predicate AcceptableWorld(w: World) {
    && CallsAdd(w) && w.addResult.Some? && Undoubted(w)
    && (exists jobs :: QueueReads(w, jobs) && QueueAccepts(w.addResult.value, jobs))
    && PostAddWrite(w, RecordedOutcome(w, w.addResult.value, w.first.endFrame.i)) == E.Persisted
  }

  lemma AcceptedIff(w: World)
    ensures Execute(w).result.Some? && Execute(w).result.value.outcome.kind == Accepted <==> AcceptableWorld(w)
  {
    hide RecordedOutcome, GatesPass, GateEvents, Undoubted, QueueAccepts, EndingOf, PostErrors, E.Writes;
    if CallsAdd(w) && w.addResult.Some? { RecordedIff(w); }
  }

  /** Accepted means one end frame in all four snapshots, all three records in place, and the outcome
      that was stored is the one that is returned. */
  lemma AcceptedIsStored(w: World)
    requires Execute(w).result.Some? && Execute(w).result.value.outcome.kind == Accepted
    ensures var r := Execute(w).result.value;
            && Int(r.endFrame) == w.first.endFrame == w.second.endFrame == w.third.endFrame
            && w.after.timeline.Some? && w.after.timeline.value.endFrame == Int(r.endFrame)
            && Stored(PreAdd, None) in Execute(w).events && Stored(AddResult, None) in Execute(w).events
            && Stored(PostAdd, Some(r.outcome)) in Execute(w).events
            && r.postErrors == 0 && r.evidenceErrors == 0
  {
    hide FirstOutcome, EndingOf, E.Writes, NormalizeQueue;
    AcceptedIff(w);
    var recorded := RecordedOutcome(w, w.addResult.value, w.first.endFrame.i);
    var events := Execute(w).events;
    assert events[5] == Stored(PreAdd, None) && events[7] == Stored(AddResult, None);
    assert events[9] == Stored(PostAdd, Some(recorded));
  }

  /** The outcome of the run as returned is not the one in the stored record. */
  ghost predicate StoredDiffers(w: World, kind: Class) {
    exists o :: Stored(PostAdd, Some(o)) in Execute(w).events && o.kind == kind && o != Execute(w).result.value.outcome
  }

  /** The stored record and the returned outcome part exactly when the record took its name, something
      after that failed, and the outcome it holds is not already `inconclusive`. */
  lemma StoredDiffersIff(w: World)
    requires Execute(w).result.Some?
    ensures var post := PostAddWrite(w, RecordedOutcome(w, w.addResult.value, w.first.endFrame.i));
            && (StoredDiffers(w, Accepted) <==>
                  && post == E.FailedAfter && Undoubted(w)
                  && exists jobs :: QueueReads(w, jobs) && QueueAccepts(w.addResult.value, jobs))
            && (StoredDiffers(w, Rejected) <==>
                  && post == E.FailedAfter && Undoubted(w)
                  && exists jobs :: QueueReads(w, jobs) && QueueRejects(w.addResult.value, jobs))
            && !StoredDiffers(w, Inconclusive)
  {
    var o := RecordedOutcome(w, w.addResult.value, w.first.endFrame.i);
    RecordedIff(w);
    StoredOnceIff(w, o);
    hide RecordedOutcome, GatesPass, Undoubted, QueueAccepts, QueueRejects, QueueReads, EndingOf, Execute;
  }

  /** The one outcome a run can store is the recorded one. */
  lemma StoredOnceIff(w: World, recorded: Outcome)
    requires Execute(w).result.Some? && recorded == RecordedOutcome(w, w.addResult.value, w.first.endFrame.i)
    ensures forall o :: Stored(PostAdd, Some(o)) in Execute(w).events <==>
                        o == recorded && PostAddWrite(w, recorded) != E.FailedBefore
    ensures Execute(w).result.value.outcome == if PostAddWrite(w, recorded) != E.Persisted then Doubt(recorded) else recorded
  {
    hide RecordedOutcome, PostErrors, GatesPass, EndingOf, E.Writes;
    var events := Execute(w).events;
    assert events == Gates(w) + [Stored(PreAdd, None)] + [AddCalled(E.DiskAfter(FirstRequest(w)))]
                     + StoredBy(ResultWrite(w), AddResult, None) + [Observed] + StoredBy(PostAddWrite(w, recorded), PostAdd, Some(recorded));
  }

  // ---- two runs in full ----

  /** The calls of one write when nothing goes wrong but, perhaps, opening the directory or hashing. */
  function CallsOf(id: nat, directoryOpens: bool, hashed: bool): E.Calls {
    E.Calls(id, id, true, (from: nat) => Some(1), true, true, true, directoryOpens, true, true, true, true, hashed)
  }

  /** A project at its reviewed end frame, with this queue. */
  function LookAt(queue: seq<Value>): Look {
    Look(true, Int(86424), List(queue), Bool(false))
  }

  const JOB := Dict(map[Text("JobId") := Str("a")])

  /** An empty queue that gets one job, the answer of AddRenderJob being its id. */
  function GoodWorld(directoryOpens: bool, lastIsHashed: bool): World {
    World(LookAt([]), true, true, LookAt([]), true, Bool(true), Bool(true), true, LookAt([]),
          CallsOf(0, directoryOpens, true), Some(Str("a")), CallsOf(1, directoryOpens, true),
          Aftermath(Some(List([JOB])), Some(Bool(false)), true, Some(LookAt([JOB])), true),
          CallsOf(2, directoryOpens, lastIsHashed), (r, o) => "{}\n")
  }

  lemma JobIsIdentified()
    ensures JobIdOf(JOB) == Some("a") && IdText(Str("a")) == Some("a")
  {
    assert T.Strip("a") == "a";
    assert Q.JOB_ID_ALIASES[0] == "JobId";
  }

  /** A write whose temporary name and file are new, and of which no call fails but perhaps these two. */
  lemma GoodWrite(before: seq<E.Request>, r: E.Request, id: nat, directoryOpens: bool, hashed: bool)
    requires forall b | b in before :: b.calls.temp < id && b.calls.inode < id
    requires r.calls == CallsOf(id, directoryOpens, hashed)
    ensures EndingOf(before, r) == if hashed then E.Persisted else E.FailedAfter
  {
    hide E.Persist, E.WritePieces, E.DiskAfter;
    E.UsedIdsOnly(before, id);
    var d := E.DiskAfter(before);
    assert E.CanCreate(d, r.calls);
    E.EverythingIsTaken(E.Create(d, r.calls), id, r.text, 0, r.calls.takes);
    E.EndingIs(d, r.name, r.text, r.calls);
  }

  lemma GoodWrites(directoryOpens: bool, lastIsHashed: bool, outcome: Outcome)
    ensures var w := GoodWorld(directoryOpens, lastIsHashed);
            && PreAddWrite(w) == E.Persisted && ResultWrite(w) == E.Persisted
            && PostAddWrite(w, outcome) == if lastIsHashed then E.Persisted else E.FailedAfter
  {
    hide EndingOf;
    var w := GoodWorld(directoryOpens, lastIsHashed);
    GoodWrite([], RequestFor(w, PreAdd, None), 0, directoryOpens, true);
    GoodWrite(FirstRequest(w), RequestFor(w, AddResult, None), 1, directoryOpens, true);
    GoodWrite(FirstTwo(w), RequestFor(w, PostAdd, Some(outcome)), 2, directoryOpens, lastIsHashed);
  }

  /** What the good world offers, whatever becomes of the writes. */
  lemma GoodWorldIsGood(directoryOpens: bool, lastIsHashed: bool)
    ensures var w := GoodWorld(directoryOpens, lastIsHashed);
            CallsAdd(w) && Undoubted(w) && QueueReads(w, [JOB]) && QueueAccepts(Str("a"), [JOB])
  {
    hide EndingOf, JobIdOf, IdText;
    JobIsIdentified();
    GoodWrites(directoryOpens, lastIsHashed, Outcome(Accepted, None, []));
  }

  /** A run that returns accepted, after which a power loss may take any one of its records with it,
      although the job is in the queue: the directory could not be opened for its fsync. */
  lemma AcceptedRunMayLoseARecord(name: string)
    ensures var w := GoodWorld(false, true);
            && Execute(w).result.Some? && Execute(w).result.value.outcome.kind == Accepted
            && exists after :: D.MayRestartAs(E.DiskAfter(RunRequests(w)), after) && E.Final(name) !in after.entries
  {
    hide EndingOf, GatesPass, RecordedOutcome, Undoubted, QueueReads, QueueAccepts, E.DiskAfter, D.MayRestartAs;
    var w := GoodWorld(false, true);
    GoodWorldIsGood(false, true);
    GoodWrites(false, true, RecordedOutcome(w, Str("a"), 86424));
    assert AcceptableWorld(w);
    AcceptedIff(w);
    D.SureIffSecured(RunRequests(w), name);
    assert forall r | r in RunRequests(w) :: !E.SyncsDirectory(r.calls);
  }

  /** A run that returns inconclusive while its stored record says accepted: the last record took its name
      but could not be hashed. */
  lemma StoredAcceptanceMayOutliveTheRun()
    ensures var w := GoodWorld(true, false);
            && Execute(w).result.Some? && Execute(w).result.value.outcome.kind == Inconclusive
            && StoredDiffers(w, Accepted)
  {
    hide EndingOf, GatesPass, RecordedOutcome, Undoubted, QueueReads, QueueAccepts, E.DiskAfter;
    var w := GoodWorld(true, false);
    GoodWorldIsGood(true, false);
    GoodWrites(true, false, RecordedOutcome(w, Str("a"), 86424));
    StoredDiffersIff(w);
    AcceptedIff(w);
  }

  /** A job the strict snapshot rule identifies gets the same id from this first-match rule. */
  lemma StrictIdIsFirstId(fields: map<Key, Value>)
    requires Q.StatusOf(fields).Identified?
    ensures JobIdOf(Dict(fields)) == Some(Q.StatusOf(fields).id)
  {
    Q.StatusIsRight(fields);
    var id := Q.StatusOf(fields).id;
    var a :| a in Q.JOB_ID_ALIASES && Q.ReadAlias(fields, a) == Q.Usable(id);
    FirstReadableDecides(fields, Q.JOB_ID_ALIASES, a, id);
  }

  lemma {:induction false} FirstReadableDecides(fields: map<Key, Value>, aliases: seq<string>, a: string, id: string)
    requires a in aliases && Q.ReadAlias(fields, a) == Q.Usable(id)
    requires forall b | b in aliases :: b in Q.JOB_ID_ALIASES
    requires forall other | Q.SomeAliasReads(fields, other) :: other == id
    ensures FirstId(fields, aliases) == Some(id)
  {
    var b := aliases[0];
    assert b in aliases;
    if Text(b) in fields && IdText(fields[Text(b)]).Some? {
      assert Q.ReadAlias(fields, b) == Q.Usable(IdText(fields[Text(b)]).value);
      assert Q.SomeAliasReads(fields, IdText(fields[Text(b)]).value);
    } else {
      assert b != a;
      FirstReadableDecides(fields, aliases[1..], a, id);
    }
  }
}
