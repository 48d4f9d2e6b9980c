/** Every rejection of a render-queue snapshot document names something that is wrong with it. */
module RenderQueueRejections {
  import opened PythonValues
  import opened RenderQueueAnswers
  import opened RenderQueueEntries
  import opened RenderQueueValidator
  import T = Text

  predicate IsText(v: Value) {
    v.Str? && T.Strip(v.s) != ""
  }

  predicate HasKeys(v: Value, keys: set<string>) {
    v.Dict? && v.entries.Keys == set k | k in keys :: Text(k)
  }

  predicate IsListOrDict(v: Value) {
    v.List? || v.Dict?
  }

  function Field(v: Value, key: string): Value {
    if v.Dict? && Text(key) in v.entries then v.entries[Text(key)] else Null
  }

  // ---- what can be wrong with an entry ----

  predicate ShapeFault(e: Value, i: int, why: Rejection) {
    match why
    case EntryInvalid => !e.Dict?
    case EntryShapeInvalid => e.Dict? && !HasKeys(e, {"index", "job_id", "job_id_status", "fields", "job_status"})
    case EntryIndexInvalid => !(Field(e, "index").Int? && Field(e, "index").i >= 0)
    case EntryIndexOutOfOrder => Field(e, "index").Int? && Field(e, "index").i != i
    case _ => false
  }

  ghost predicate IdentityFault(queue: seq<Value>, i: int, status: Value, id: Value, jobStatus: Value, why: Rejection)
    requires 0 <= i < |queue|
  {
    match why
    case Unhashable => IsListOrDict(status)
    case EntryStatusInvalid => status != Str("identified") && status != Str("unidentified")
    case IdentifiedJobIdInvalid => status == Str("identified") && !IsText(id)
    case DuplicateIdentifiedJobId => status == Str("identified") && id.Str? && ListedBefore(queue, i, id)
    case JobStatusInvalid => status == Str("identified") && !IsText(jobStatus)
    case UnidentifiedJobIdInvalid => status == Str("unidentified") && id != Null
    case UnidentifiedJobStatusInvalid => status == Str("unidentified") && jobStatus != Null
    case _ => false
  }

  ghost predicate GivesNoId(fields: map<Key, Value>) {
    forall id :: !SomeKeyGives(fields, id)
  }

  ghost predicate GivesTwoIds(fields: map<Key, Value>) {
    exists x, y :: x != y && SomeKeyGives(fields, x) && SomeKeyGives(fields, y)
  }

  ghost predicate FieldsFault(status: Value, id: Value, fields: Value, why: Rejection) {
    match why
    case FieldsInvalid => !fields.Dict?
    case FieldsKeyNotString => fields.Dict? && exists k :: k in fields.entries && !k.Text?
    case FieldsUnrepresentable => Normalize(fields).None?
    case FieldsJobIdMalformed => fields.Dict? && SomeKeySpoils(fields.entries)
    case FieldsJobIdConflicting =>
      fields.Dict? && GivesTwoIds(fields.entries)
    case StatusDisagreesWithFields =>
      fields.Dict? && (status == Str("identified") <==> GivesNoId(fields.entries))
    case JobIdDisagreesWithFields => fields.Dict? && exists other :: SomeKeyGives(fields.entries, other) && id != Str(other)
    case _ => false
  }

  /** What is wrong with the entry at position i. */
  ghost predicate EntryFault(queue: seq<Value>, i: int, why: Rejection) {
    && 0 <= i < |queue|
    && var e := queue[i];
       || ShapeFault(e, i, why)
       || IdentityFault(queue, i, Field(e, "job_id_status"), Field(e, "job_id"), Field(e, "job_status"), why)
       || FieldsFault(Field(e, "job_id_status"), Field(e, "job_id"), Field(e, "fields"), why)
  }

  /** An earlier entry is identified by the same id. */
  ghost predicate ListedBefore(queue: seq<Value>, i: int, id: Value)
    requires 0 <= i < |queue|
  {
    exists j :: 0 <= j < i && Field(queue[j], "job_id_status") == Str("identified") && Field(queue[j], "job_id") == id
  }

  // ---- what can be wrong with the document ----

  predicate HeadFault(clock: Clock, document: Value, why: Rejection) {
    match why
    case InvalidSnapshotDocument => !document.Dict?
    case NonFiniteFloat => !AllFinite(document)
    case TopLevelKeysInvalid =>
      !HasKeys(document, {"schema_version", "mission", "captured_at", "collector", "expected_context", "observed_context",
                          "rendering_in_progress", "render_queue_count", "render_queue", "snapshot_complete"})
    case SchemaMismatch => Field(document, "schema_version") != Str("1.0")
    case MissionMismatch => Field(document, "mission") != Str("Phase 14 \U{2014} Render Queue Read-Only Snapshot Probe")
    case IncompleteSnapshot => Field(document, "snapshot_complete") != Bool(true)
    case CapturedAtInvalid => !(Field(document, "captured_at").Str? && clock(Field(document, "captured_at").s))
    case _ => false
  }

  predicate CollectorFault(collector: Value, why: Rejection) {
    match why
    case CollectorInvalid => !HasKeys(collector, {"name", "revision"})
    case CollectorNameMismatch => Field(collector, "name") != Str("phase14_render_queue_snapshot")
    case CollectorRevisionNotAccepted => Field(collector, "revision") != Str("phase14.2-render-queue-snapshot-construction-rev5")
    case Unhashable => IsListOrDict(Field(collector, "revision"))
    case _ => false
  }

  predicate ContextFault(expected: Value, observed: Value, why: Rejection) {
    match why
    case ExpectedContextInvalid => !HasKeys(expected, {"project", "timeline"})
    case ObservedContextInvalid => !HasKeys(observed, {"project", "timeline"})
    case ContextFieldInvalid =>
      !(IsText(Field(expected, "project")) && IsText(Field(expected, "timeline"))
        && IsText(Field(observed, "project")) && IsText(Field(observed, "timeline")))
    case ObservedProjectMismatch => Field(observed, "project") != Field(expected, "project")
    case ObservedTimelineMismatch => Field(observed, "timeline") != Field(expected, "timeline")
    case _ => false
  }

  ghost predicate QueueFault(rendering: Value, queue: Value, count: Value, why: Rejection) {
    match why
    case RenderingNotFalse => rendering != Bool(false)
    case RenderQueueNotAList => !queue.List?
    case RenderQueueCountInvalid => !(count.Int? && count.i >= 0)
    case RenderQueueCountMismatch => queue.List? && count != Int(|queue.items|)
    case _ => queue.List? && exists i :: EntryFault(queue.items, i, why)
  }

  ghost predicate Fault(clock: Clock, document: Value, why: Rejection) {
    || HeadFault(clock, document, why)
    || CollectorFault(Field(document, "collector"), why)
    || ContextFault(Field(document, "expected_context"), Field(document, "observed_context"), why)
    || QueueFault(Field(document, "rendering_in_progress"), Field(document, "render_queue"), Field(document, "render_queue_count"), why)
  }

  lemma TextRead(v: Value)
    ensures NonBlankText(v) <==> IsText(v)
  {
    if v.Str? { T.BlankMeansStripsToNothing(v.s); }
  }

  lemma IdentityRead(queue: seq<Value>, i: int, status: Value, id: Value, jobStatus: Value, earlier: set<string>)
    requires 0 <= i < |queue| && forall id | id in earlier :: ListedBefore(queue, i, Str(id))
    ensures var r := CheckIdentity(status, id, jobStatus, earlier);
            r.Rejected? ==> IdentityFault(queue, i, status, id, jobStatus, r.reason)
  {
    hide ListedBefore, IsText;
    TextRead(id);
    TextRead(jobStatus);
    if id.Str? { assert Str(id.s) == id; }
  }

  lemma IdsRead(fields: map<Key, Value>)
    ensures match StatusOf(fields)
            case MalformedId => SomeKeySpoils(fields)
            case ConflictingIds => GivesTwoIds(fields)
            case Unidentified => GivesNoId(fields)
            case Identified(id) => SomeKeyGives(fields, id) && !GivesNoId(fields)
  {
    hide SomeKeySpoils, SomeKeyGives, StatusOf;
    StatusFromAnswers(fields);
  }

  lemma FieldsRead(status: Value, id: Value, fields: Value)
    requires status == Str("identified") || status == Str("unidentified")
    ensures var r := CheckFields(status, id, fields); r.Rejected? ==> FieldsFault(status, id, fields, r.reason)
  {
    hide Normalize, SomeKeySpoils, SomeKeyGives, StatusOf, GivesNoId, GivesTwoIds;
    if fields.Dict? { IdsRead(fields.entries); }
  }

  lemma OneEntryFault(queue: seq<Value>, i: int, earlier: set<string>)
    requires 0 <= i < |queue| && forall id | id in earlier :: ListedBefore(queue, i, Str(id))
    ensures CheckEntry(queue[i], i, earlier).Rejected? ==> EntryFault(queue, i, CheckEntry(queue[i], i, earlier).reason)
  {
    hide ListedBefore, CheckFields, CheckIdentity, IdentityFault, FieldsFault;
    EntryKeysAre();
    var e := queue[i];
    var status, id, jobStatus := Field(e, "job_id_status"), Field(e, "job_id"), Field(e, "job_status");
    IdentityRead(queue, i, status, id, jobStatus, earlier);
    if CheckIdentity(status, id, jobStatus, earlier).Accepted? {
      KnownStatus(status, id, jobStatus, earlier);
      FieldsRead(status, id, Field(e, "fields"));
    }
  }

  lemma KnownStatus(status: Value, id: Value, jobStatus: Value, earlier: set<string>)
    requires CheckIdentity(status, id, jobStatus, earlier).Accepted?
    ensures status == Str("identified") || status == Str("unidentified")
  {
  }

  lemma EntryKeysAre()
    ensures ENTRY_KEYS == set k | k in {"index", "job_id", "job_id_status", "fields", "job_status"} :: Text(k)
  {
  }

  lemma {:induction false} EntriesFault(queue: seq<Value>, n: nat)
    requires n <= |queue| && CheckEntries(queue[..n]).Rejected?
    ensures exists i :: EntryFault(queue, i, CheckEntries(queue[..n]).reason)
  {
    hide CheckEntry, EntryFault;
    var front := queue[..n - 1];
    assert queue[..n][..n - 1] == front;
    if CheckEntries(front).Rejected? {
      EntriesFault(queue, n - 1);
    } else {
      forall id | id in SeenIds(front) ensures ListedBefore(queue, n - 1, Str(id)) {
        var e :| e in front && ObjectWithKeys(e, ENTRY_KEYS) && e.entries[Text("job_id_status")] == Str("identified")
                 && e.entries[Text("job_id")] == Str(id);
        var j :| 0 <= j < n - 1 && front[j] == e;
        assert queue[j] == e;
      }
      OneEntryFault(queue, n - 1, SeenIds(front));
    }
  }

  lemma CollectorRead(collector: Value)
    ensures var r := CheckCollector(collector); r.Rejected? ==> CollectorFault(collector, r.reason)
  {
    assert COLLECTOR_KEYS == set k | k in {"name", "revision"} :: Text(k);
  }

  lemma ContextsRead(expected: Value, observed: Value)
    ensures var r := CheckContexts(expected, observed); r.Rejected? ==> ContextFault(expected, observed, r.reason)
  {
    hide IsText, NonBlankText;
    forall v ensures NonBlankText(v) <==> IsText(v) { TextRead(v); }
    assert CONTEXT_KEYS == set k | k in {"project", "timeline"} :: Text(k);
  }

  lemma QueueRead(rendering: Value, queue: Value, count: Value)
    ensures var r := CheckQueue(rendering, queue, count); r.Rejected? ==> QueueFault(rendering, queue, count, r.reason)
  {
    hide EntryFault, CheckEntries;
    if queue.List? && CheckEntries(queue.items).Rejected? {
      assert queue.items[..|queue.items|] == queue.items;
      EntriesFault(queue.items, |queue.items|);
      var i :| EntryFault(queue.items, i, CheckEntries(queue.items).reason);
      FaultsOfEntries(queue.items, i, CheckEntries(queue.items).reason);
    }
  }

  lemma FaultsOfEntries(queue: seq<Value>, i: int, why: Rejection)
    requires EntryFault(queue, i, why)
    ensures why !in {RenderingNotFalse, RenderQueueNotAList, RenderQueueCountInvalid, RenderQueueCountMismatch}
  {
    hide ListedBefore, Normalize, SomeKeySpoils, SomeKeyGives, IsText;
  }

  /** A rejected document has the fault it is rejected for. */
  lemma RejectionsAreTrue(clock: Clock, document: Value)
    requires Validate(clock, document).Rejected?
    ensures Fault(clock, document, Validate(clock, document).reason)
  {
    hide QueueFault, CollectorFault, ContextFault, CheckCollector, CheckContexts, CheckQueue, AllFinite;
    assert TOP_LEVEL_KEYS == set k | k in {"schema_version", "mission", "captured_at", "collector", "expected_context",
      "observed_context", "rendering_in_progress", "render_queue_count", "render_queue", "snapshot_complete"} :: Text(k);
    CollectorRead(Field(document, "collector"));
    ContextsRead(Field(document, "expected_context"), Field(document, "observed_context"));
    QueueRead(Field(document, "rendering_in_progress"), Field(document, "render_queue"), Field(document, "render_queue_count"));
  }
}
