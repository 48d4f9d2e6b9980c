/** When the Test D attempt calls AddRenderJob, and when it returns accepted or rejected, told from what the
    project and the disk answer. */
module TestDGates {
  import opened PythonValues
  import opened TestDAttempt
  import opened TestDSafety
  import E = EvidenceRecord
  import Q = RenderQueueEntries
  import T = Text

  // ---- the gates ----

  /** A look before the call: as reviewed, at this end frame, nothing queued and nothing rendering. */
  predicate Shows(look: Look, frame: int) {
    && look.asReviewed && look.endFrame == Int(frame)
    && (look.queue == Null || look.queue == Bool(false) || look.queue == List([])) && look.rendering == Bool(false)
  }

  predicate AddAllowed(w: World, frame: int) {
    && (frame == 86424 || frame == 86544)
    && Shows(w.first, frame) && w.presetOk && w.targetOk
    && Shows(w.second, frame) && w.callable
    && w.presetLoaded == Bool(true) && w.settingsApplied == Bool(true) && w.contextOk
    && Shows(w.third, frame)
    && PreAddWrite(w) == E.Persisted
  }

  lemma LookRead(look: Look, expected: Option<int>)
    ensures PreAddSnapshotPasses(look, expected) <==>
            exists frame :: (frame == 86424 || frame == 86544) && (expected.Some? ==> frame == expected.value) && Shows(look, frame)
  {
    if PreAddSnapshotPasses(look, expected) { assert Shows(look, look.endFrame.i); }
  }

  /** AddRenderJob is called exactly when all three looks show one of the two end frames, an empty queue and
      no rendering, everything between them went well, and the record before the call was persisted. */
  lemma AddIsCalledIff(w: World)
    ensures (exists e :: e in Execute(w).events && e.AddCalled?) <==> exists frame :: AddAllowed(w, frame)
  {
    hide Execute, PreAddSnapshotPasses, PreAddWrite;
    CallsAddIff(w);
    CallsAddRead(w);
  }

  lemma CallsAddRead(w: World)
    ensures CallsAdd(w) <==> exists frame :: AddAllowed(w, frame)
    ensures forall frame | AddAllowed(w, frame) :: w.first.endFrame == Int(frame)
  {
    hide PreAddSnapshotPasses, PreAddWrite;
    LookRead(w.first, None);
    if w.first.endFrame.Int? {
      LookRead(w.second, Some(w.first.endFrame.i));
      LookRead(w.third, Some(w.first.endFrame.i));
    }
    if CallsAdd(w) { assert AddAllowed(w, w.first.endFrame.i); }
  }

  /** The render preset is loaded, and the settings applied, only after two good looks with one end frame, and
      each in its turn; whatever happens, the run begins in this order. */
  lemma MutationsAreGuarded(w: World)
    ensures PresetLoaded in Execute(w).events <==>
            && w.presetOk && w.targetOk && w.callable
            && exists frame :: (frame == 86424 || frame == 86544) && Shows(w.first, frame) && Shows(w.second, frame)
    ensures SettingsApplied in Execute(w).events <==> PresetLoaded in Execute(w).events && w.presetLoaded == Bool(true)
    ensures var order := [SnapshotPassed(1), SnapshotPassed(2), PresetLoaded, SettingsApplied, SnapshotPassed(3)];
            order <= Execute(w).events || Execute(w).events <= order
  {
    hide PreAddSnapshotPasses, RecordedOutcome, PostErrors, E.Writes, E.DiskAfter, EndingOf;
    LookRead(w.first, None);
    if w.first.endFrame.Int? { LookRead(w.second, Some(w.first.endFrame.i)); }
    EventsBegin(w);
  }

  lemma EventsBegin(w: World)
    ensures GatesPass(w) ==> GateEvents(w) == Gates(w) && Gates(w) <= Execute(w).events
    ensures !GatesPass(w) ==> Execute(w).events == GateEvents(w)
    ensures PresetLoaded in Execute(w).events <==> PresetLoaded in GateEvents(w)
    ensures SettingsApplied in Execute(w).events <==> SettingsApplied in GateEvents(w)
  {
    hide PreAddSnapshotPasses, RecordedOutcome, PostErrors, E.Writes, E.DiskAfter, EndingOf;
    GateEventsWhenPassing(w);
    if GatesPass(w) {
      assert Execute(w).events[2] == PresetLoaded && Execute(w).events[3] == SettingsApplied;
      assert GateEvents(w)[2] == PresetLoaded && GateEvents(w)[3] == SettingsApplied;
    }
  }

  // ---- job ids ----

  const KEYS := ["JobId", "JobID", "jobId", "job_id", "Id", "ID", "id"]

  predicate IsId(v: Value, id: string) {
    (v.Str? && T.Strip(v.s) == id && id != "") || (v.Int? && id == T.IntText(v.i))
  }

  /** Key n holds an id, this one. */
  predicate IdAt(fields: map<Key, Value>, keys: seq<string>, n: int, id: string) {
    0 <= n < |keys| && Text(keys[n]) in fields && IsId(fields[Text(keys[n])], id)
  }

  /** The first key that holds an id, in the order of the keys, gives it. */
  ghost predicate FirstGives(fields: map<Key, Value>, keys: seq<string>, id: string) {
    exists n :: IdAt(fields, keys, n, id) && forall m, other | m < n :: !IdAt(fields, keys, m, other)
  }

  ghost predicate JobHasId(job: Value, id: string) {
    job.Dict? && FirstGives(job.entries, KEYS, id)
  }

  /** AddRenderJob's own answer names this job: a text, a number, or a job with an id. */
  ghost predicate CallNames(answer: Value, id: string) {
    IsId(answer, id) || JobHasId(answer, id)
  }

  lemma IdRead(v: Value)
    ensures forall id :: IdText(v) == Some(id) <==> IsId(v, id)
  {
    match v
    case Str(s) => T.BlankMeansStripsToNothing(s);
    case Int(i) => T.StripOfTrimmed(T.IntText(i));
    case _ =>
  }

  lemma {:induction false} FirstIdRead(fields: map<Key, Value>, keys: seq<string>, id: string)
    ensures FirstId(fields, keys) == Some(id) <==> FirstGives(fields, keys, id)
  {
    hide IdText, IsId;
    if keys != [] {
      var rest := keys[1..];
      assert keys == [keys[0]] + rest;
      FirstIdRead(fields, rest, id);
      if Text(keys[0]) in fields { IdRead(fields[Text(keys[0])]); }
      if x :| IdAt(fields, keys, 0, x) {
        if FirstGives(fields, keys, id) {
          var n :| IdAt(fields, keys, n, id) && forall m, other | m < n :: !IdAt(fields, keys, m, other);
          assert n == 0;
        }
        if FirstId(fields, keys) == Some(id) { assert IdAt(fields, keys, 0, id); }
      } else {
        if Text(keys[0]) in fields && IdText(fields[Text(keys[0])]).Some? {
          assert IdAt(fields, keys, 0, IdText(fields[Text(keys[0])]).value);
        }
        RestGives(fields, keys, rest, id);
      }
    }
  }

  lemma RestGives(fields: map<Key, Value>, keys: seq<string>, rest: seq<string>, id: string)
    requires keys != [] && rest == keys[1..] && forall x :: !IdAt(fields, keys, 0, x)
    ensures FirstGives(fields, keys, id) <==> FirstGives(fields, rest, id)
  {
    hide IsId;
    forall n, other ensures n >= 0 ==> (IdAt(fields, keys, n + 1, other) <==> IdAt(fields, rest, n, other)) {}
    if FirstGives(fields, keys, id) {
      var n :| IdAt(fields, keys, n, id) && forall m, other | m < n :: !IdAt(fields, keys, m, other);
      assert IdAt(fields, rest, n - 1, id);
      forall m, other | m < n - 1 ensures !IdAt(fields, rest, m, other) {
        if m >= 0 { assert !IdAt(fields, keys, m + 1, other); }
      }
    }
    if FirstGives(fields, rest, id) {
      var n :| IdAt(fields, rest, n, id) && forall m, other | m < n :: !IdAt(fields, rest, m, other);
      assert IdAt(fields, keys, n + 1, id);
      forall m, other | m < n + 1 ensures !IdAt(fields, keys, m, other) {
        if m > 0 { assert !IdAt(fields, rest, m - 1, other); }
      }
    }
  }

  lemma JobIdRead(job: Value, id: string)
    ensures JobIdOf(job) == Some(id) <==> JobHasId(job, id)
    ensures CoerceDirectJobId(job) == Some(id) <==> CallNames(job, id)
  {
    hide FirstId, FirstGives, IdText, IsId;
    IdRead(job);
    assert KEYS == Q.JOB_ID_ALIASES;
    if job.Dict? { FirstIdRead(job.entries, KEYS, id); }
    if !job.Str? && !job.Int? { assert !IsId(job, id) by { NoIdThere(job, id); } }
  }

  lemma NoIdThere(v: Value, id: string)
    requires !v.Str? && !v.Int?
    ensures !IsId(v, id)
  {
  }

  // ---- accepted and rejected ----

  /** After the call every observation is as it should be, and the record of the call's result persisted. */
  predicate Untroubled(w: World, frame: int) {
    && w.after.rendering == Some(Bool(false)) && w.after.identityRead && w.after.projectAsReviewed
    && w.after.timeline.Some? && w.after.timeline.value.asReviewed && w.after.timeline.value.endFrame == Int(frame)
    && ResultWrite(w) == E.Persisted
  }

  /** The queue then holds this one job, and the call's answer names no other. */
  ghost predicate Queued(w: World, job: Value, id: string) {
    && w.addResult.Some? && w.after.queue == Some(List([job])) && JobHasId(job, id)
    && forall other | CallNames(w.addResult.value, other) :: other == id
  }

  /** The queue is still empty, and the call answered with an empty text or False. */
  predicate Refused(w: World) {
    && (w.addResult == Some(Str("")) || w.addResult == Some(Bool(false)))
    && (w.after.queue == Some(Null) || w.after.queue == Some(Bool(false)) || w.after.queue == Some(List([])))
  }

  predicate LastRecordPersisted(w: World, frame: int)
    requires w.addResult.Some?
  {
    PostAddWrite(w, RecordedOutcome(w, w.addResult.value, frame)) == E.Persisted
  }

  lemma UndoubtedRead(w: World, frame: int)
    requires GatesPass(w) && w.first.endFrame == Int(frame)
    ensures Undoubted(w) <==> Untroubled(w, frame)
  {
    hide ResultWrite;
  }

  lemma AcceptsRead(w: World)
    requires w.addResult.Some?
    ensures (exists jobs :: QueueReads(w, jobs) && QueueAccepts(w.addResult.value, jobs)) <==> exists job, id :: Queued(w, job, id)
  {
    hide JobIdOf, CoerceDirectJobId, JobHasId, CallNames;
    var answer := w.addResult.value;
    forall v, id ensures (JobIdOf(v) == Some(id) <==> JobHasId(v, id)) && (CoerceDirectJobId(v) == Some(id) <==> CallNames(v, id)) {
      JobIdRead(v, id);
    }
    if jobs :| QueueReads(w, jobs) && QueueAccepts(answer, jobs) {
      var id := JobIdOf(jobs[0]).value;
      assert jobs == [jobs[0]];
      assert Queued(w, jobs[0], id);
    }
    if job, id :| Queued(w, job, id) {
      assert QueueReads(w, [job]) && QueueAccepts(answer, [job]);
    }
  }

  lemma RefusedRead(w: World)
    requires w.addResult.Some?
    ensures (exists jobs :: QueueReads(w, jobs) && QueueRejects(w.addResult.value, jobs)) <==> Refused(w)
  {
    if Refused(w) { assert QueueReads(w, []); }
  }

  lemma RecordedRead(w: World, frame: int, kind: Class)
    requires kind != Inconclusive && CallsAdd(w) && w.addResult.Some? && w.first.endFrame == Int(frame)
    ensures RecordedOutcome(w, w.addResult.value, frame).kind == kind <==>
              && Untroubled(w, frame)
              && if kind == Accepted then exists job, id :: Queued(w, job, id) else Refused(w)
  {
    hide RecordedOutcome, Undoubted, Untroubled, QueueReads, QueueAccepts, QueueRejects, Queued, Refused, GatesPass, PreAddWrite;
    RecordedIff(w);
    UndoubtedRead(w, frame);
    AcceptsRead(w);
    RefusedRead(w);
  }

  /** Exactly when a run returns accepted, and when it returns rejected. */
  lemma ReturnsIff(w: World, kind: Class)
    requires kind != Inconclusive
    ensures Execute(w).result.Some? && Execute(w).result.value.outcome.kind == kind <==>
            exists frame :: AddAllowed(w, frame) && Untroubled(w, frame)
              && (if kind == Accepted then exists job, id :: Queued(w, job, id) else Refused(w))
              && w.addResult.Some? && LastRecordPersisted(w, frame)
  {
    hide RecordedOutcome, Untroubled, Queued, Refused, GatesPass, GateEvents, PreAddWrite, AddAllowed, PostErrors, E.Writes, EndingOf;
    CallsAddRead(w);
    if CallsAdd(w) && w.addResult.Some? {
      var frame :| AddAllowed(w, frame);
      RecordedRead(w, frame, kind);
      var recorded := RecordedOutcome(w, w.addResult.value, frame);
      StoredOnceIff(w, recorded);
      assert LastRecordPersisted(w, frame) <==> PostAddWrite(w, recorded) == E.Persisted;
    }
  }

  /** The ids a run returns: the one the call's answer names, and of an accepted run the job's. */
  lemma ReturnedIds(w: World, id: string)
    requires Execute(w).result.Some?
    ensures var o := Execute(w).result.value.outcome;
            && (o.directJobId == Some(id) <==> CallNames(w.addResult.value, id))
            && (o.kind == Accepted && (exists job :: Queued(w, job, id)) ==> o.newJobIds == [id])
            && (o.kind == Rejected ==> o.newJobIds == [])
  {
    hide JobIdOf, CoerceDirectJobId, JobHasId, CallNames, GatesPass, GateEvents, RecordedOutcome, PostErrors, E.Writes, EndingOf;
    OutcomeOnlyMovesToInconclusive(w);
    JobIdRead(w.addResult.value, id);
    if job :| Queued(w, job, id) {
      JobIdRead(job, id);
      assert IdsOf([job]) == [id] by { assert [job][1..] == []; }
    }
  }
}
