/** The offline check of a render-queue snapshot document, and the exact match between what it
    accepts and what the collector can publish. */
module RenderQueueValidator {
  import opened PythonValues
  import opened RenderQueueEntries
  import opened RenderQueueSnapshot
  import T = Text

  const SCHEMA_VERSION := "1.0"
  const MISSION := "Phase 14 \U{2014} Render Queue Read-Only Snapshot Probe"
  const COLLECTOR_NAME := "phase14_render_queue_snapshot"
  const EXECUTION_REVISION_ID := "phase14.2-render-queue-snapshot-construction-rev5"

  /** Which texts pass the timestamp check; the clock shows one of them. */
  type Clock = string -> bool

  datatype Rejection =
    | InvalidSnapshotDocument
    | NonFiniteFloat
    | TopLevelKeysInvalid
    | SchemaMismatch
    | MissionMismatch
    | IncompleteSnapshot
    | CapturedAtInvalid
    | CollectorInvalid
    | CollectorNameMismatch
    | CollectorRevisionNotAccepted
    | ExpectedContextInvalid
    | ObservedContextInvalid
    | ContextFieldInvalid
    | ObservedProjectMismatch
    | ObservedTimelineMismatch
    | RenderingNotFalse
    | RenderQueueNotAList
    | RenderQueueCountInvalid
    | RenderQueueCountMismatch
    | EntryInvalid
    | EntryShapeInvalid
    | EntryIndexInvalid
    | EntryIndexOutOfOrder
    | EntryStatusInvalid
    | IdentifiedJobIdInvalid
    | DuplicateIdentifiedJobId
    | UnidentifiedJobIdInvalid
    | JobStatusInvalid
    | UnidentifiedJobStatusInvalid
    | FieldsInvalid
    | FieldsKeyNotString
    | FieldsUnrepresentable
    | FieldsJobIdMalformed
    | FieldsJobIdConflicting
    | StatusDisagreesWithFields
    | JobIdDisagreesWithFields
    | Unhashable  // the membership test itself raises

  datatype Verdict = Accepted | Rejected(reason: Rejection)

  const TOP_LEVEL_KEYS: set<Key> := {
    Text("schema_version"), Text("mission"), Text("captured_at"), Text("collector"),
    Text("expected_context"), Text("observed_context"), Text("rendering_in_progress"),
    Text("render_queue_count"), Text("render_queue"), Text("snapshot_complete")}
  const ENTRY_KEYS: set<Key> := {
    Text("index"), Text("job_id"), Text("job_id_status"), Text("fields"), Text("job_status")}
  const CONTEXT_KEYS: set<Key> := {Text("project"), Text("timeline")}
  const COLLECTOR_KEYS: set<Key> := {Text("name"), Text("revision")}

  predicate Hashable(v: Value) {
    !v.List? && !v.Dict?
  }

  predicate ObjectWithKeys(v: Value, keys: set<Key>) {
    v.Dict? && v.entries.Keys == keys
  }

  predicate NonBlankText(v: Value) {
    v.Str? && !T.Blank(v.s)
  }

  // ---- one queue entry ----

  function CheckIdentity(status: Value, jobId: Value, jobStatus: Value, earlier: set<string>): Verdict {
    if !Hashable(status) then Rejected(Unhashable)
    else if status == Str("identified") then
      if !NonBlankText(jobId) then Rejected(IdentifiedJobIdInvalid)
      else if jobId.s in earlier then Rejected(DuplicateIdentifiedJobId)
      else if !NonBlankText(jobStatus) then Rejected(JobStatusInvalid)
      else Accepted
    else if status == Str("unidentified") then
      if !jobId.Null? then Rejected(UnidentifiedJobIdInvalid)
      else if !jobStatus.Null? then Rejected(UnidentifiedJobStatusInvalid)
      else Accepted
    else Rejected(EntryStatusInvalid)
  }

  function CheckFields(status: Value, jobId: Value, fields: Value): Verdict {
    if !fields.Dict? then Rejected(FieldsInvalid)
    else if exists k | k in fields.entries :: !k.Text? then Rejected(FieldsKeyNotString)
    else if Normalize(fields).None? then Rejected(FieldsUnrepresentable)
    else
      match StatusOf(fields.entries)
      case MalformedId => Rejected(FieldsJobIdMalformed)
      case ConflictingIds => Rejected(FieldsJobIdConflicting)
      case Identified(id) =>
        if status != Str("identified") then Rejected(StatusDisagreesWithFields)
        else if jobId != Str(id) then Rejected(JobIdDisagreesWithFields)
        else Accepted
      case Unidentified =>
        if status != Str("unidentified") then Rejected(StatusDisagreesWithFields) else Accepted
  }

  function CheckEntry(entry: Value, position: nat, earlier: set<string>): Verdict {
    if !entry.Dict? then Rejected(EntryInvalid)
    else if entry.entries.Keys != ENTRY_KEYS then Rejected(EntryShapeInvalid)
    else
      var m := entry.entries;
      var index := m[Text("index")];
      if !index.Int? || index.i < 0 then Rejected(EntryIndexInvalid)
      else if index.i != position then Rejected(EntryIndexOutOfOrder)
      else
        var identity := CheckIdentity(m[Text("job_id_status")], m[Text("job_id")], m[Text("job_status")], earlier);
        if identity.Rejected? then identity
        else CheckFields(m[Text("job_id_status")], m[Text("job_id")], m[Text("fields")])
  }

  /** The identified IDs among the given entries, which are those the loop has seen. */
  function SeenIds(entries: seq<Value>): set<string> {
    set e | e in entries && ObjectWithKeys(e, ENTRY_KEYS)
            && e.entries[Text("job_id_status")] == Str("identified") && e.entries[Text("job_id")].Str?
          :: e.entries[Text("job_id")].s
  }

  /** The first rejection of an entry, front to back. */
  function CheckEntries(entries: seq<Value>): Verdict {
    if entries == [] then Accepted
    else
      var n := |entries| - 1;
      var front := CheckEntries(entries[..n]);
      if front.Rejected? then front else CheckEntry(entries[n], n, SeenIds(entries[..n]))
  }

  // ---- the envelope ----

  function CheckCollector(collector: Value): Verdict {
    if !ObjectWithKeys(collector, COLLECTOR_KEYS) then Rejected(CollectorInvalid)
    else if collector.entries[Text("name")] != Str(COLLECTOR_NAME) then Rejected(CollectorNameMismatch)
    else if !Hashable(collector.entries[Text("revision")]) then Rejected(Unhashable)
    else if collector.entries[Text("revision")] != Str(EXECUTION_REVISION_ID) then Rejected(CollectorRevisionNotAccepted)
    else Accepted
  }

  predicate ContextTextsValid(context: Value)
    requires ObjectWithKeys(context, CONTEXT_KEYS)
  {
    NonBlankText(context.entries[Text("project")]) && NonBlankText(context.entries[Text("timeline")])
  }

  function CheckContexts(expected: Value, observed: Value): Verdict {
    if !ObjectWithKeys(expected, CONTEXT_KEYS) then Rejected(ExpectedContextInvalid)
    else if !ObjectWithKeys(observed, CONTEXT_KEYS) then Rejected(ObservedContextInvalid)
    else if !ContextTextsValid(expected) || !ContextTextsValid(observed) then Rejected(ContextFieldInvalid)
    else if observed.entries[Text("project")] != expected.entries[Text("project")] then Rejected(ObservedProjectMismatch)
    else if observed.entries[Text("timeline")] != expected.entries[Text("timeline")] then Rejected(ObservedTimelineMismatch)
    else Accepted
  }

  function CheckQueue(rendering: Value, queue: Value, count: Value): Verdict {
    if rendering != Bool(false) then Rejected(RenderingNotFalse)
    else if !queue.List? then Rejected(RenderQueueNotAList)
    else if !count.Int? || count.i < 0 then Rejected(RenderQueueCountInvalid)
    else if count.i != |queue.items| then Rejected(RenderQueueCountMismatch)
    else CheckEntries(queue.items)
  }

  function Then(first: Verdict, second: Verdict): Verdict {
    if first.Rejected? then first else second
  }

  function CheckEnvelope(clock: Clock, m: map<Key, Value>): Verdict
    requires m.Keys == TOP_LEVEL_KEYS
  {
    if m[Text("schema_version")] != Str(SCHEMA_VERSION) then Rejected(SchemaMismatch)
    else if m[Text("mission")] != Str(MISSION) then Rejected(MissionMismatch)
    else if m[Text("snapshot_complete")] != Bool(true) then Rejected(IncompleteSnapshot)
    else if !m[Text("captured_at")].Str? || !clock(m[Text("captured_at")].s) then Rejected(CapturedAtInvalid)
    else
      Then(CheckCollector(m[Text("collector")]),
           CheckContexts(m[Text("expected_context")], m[Text("observed_context")]))
  }

  function Validate(clock: Clock, document: Value): Verdict {
    if !document.Dict? then Rejected(InvalidSnapshotDocument)
    else if !AllFinite(document) then Rejected(NonFiniteFloat)
    else if document.entries.Keys != TOP_LEVEL_KEYS then Rejected(TopLevelKeysInvalid)
    else
      var m := document.entries;
      Then(CheckEnvelope(clock, m),
           CheckQueue(m[Text("rendering_in_progress")], m[Text("render_queue")], m[Text("render_queue_count")]))
  }

  /** The validator's loop over the entries with its table of identified IDs. */
  method ValidateEntries(entries: seq<Value>) returns (verdict: Verdict)
    ensures verdict == CheckEntries(entries)
  {
    hide CheckEntry;
    var seen: map<string, nat> := map[];
    for position := 0 to |entries|
      invariant CheckEntries(entries[..position]) == Accepted
      invariant seen.Keys == SeenIds(entries[..position])
    {
      assert entries[..position + 1][..position] == entries[..position];
      var entry := entries[position];
      verdict := CheckEntry(entry, position, seen.Keys);
      if verdict.Rejected? {
        FirstRejectionIsFinal(entries, position + 1);
        return;
      }
      SeenIdsGrow(entries[..position], entry);
      assert entries[..position + 1] == entries[..position] + [entry];
      if ObjectWithKeys(entry, ENTRY_KEYS) && entry.entries[Text("job_id_status")] == Str("identified")
         && entry.entries[Text("job_id")].Str?
      {
        seen := seen[entry.entries[Text("job_id")].s := position];
      }
    }
    assert entries[..|entries|] == entries;
    return Accepted;
  }

  method ValidateQueueSnapshotDocument(clock: Clock, document: Value) returns (verdict: Verdict)
    ensures verdict == Validate(clock, document)
  {
    hide CheckEntries, CheckEnvelope, AllFinite;
    if !document.Dict? { return Rejected(InvalidSnapshotDocument); }
    if !AllFinite(document) { return Rejected(NonFiniteFloat); }
    var m := document.entries;
    if m.Keys != TOP_LEVEL_KEYS { return Rejected(TopLevelKeysInvalid); }
    verdict := CheckEnvelope(clock, m);
    if verdict.Rejected? { return; }
    var queue, count := m[Text("render_queue")], m[Text("render_queue_count")];
    if m[Text("rendering_in_progress")] != Bool(false) { return Rejected(RenderingNotFalse); }
    if !queue.List? { return Rejected(RenderQueueNotAList); }
    if !count.Int? || count.i < 0 { return Rejected(RenderQueueCountInvalid); }
    if count.i != |queue.items| { return Rejected(RenderQueueCountMismatch); }
    verdict := ValidateEntries(queue.items);
  }

  lemma SeenIdsGrow(front: seq<Value>, e: Value)
    ensures SeenIds(front + [e]) == SeenIds(front) + SeenIds([e])
  {
  }

  lemma {:induction false} FirstRejectionIsFinal(entries: seq<Value>, n: nat)
    requires n <= |entries| && CheckEntries(entries[..n]).Rejected?
    ensures CheckEntries(entries) == CheckEntries(entries[..n])
    decreases |entries|
  {
    hide CheckEntry;
    if n == |entries| {
      assert entries[..n] == entries;
    } else {
      var front := entries[..|entries| - 1];
      assert front[..n] == entries[..n];
      FirstRejectionIsFinal(front, n);
    }
  }
}
