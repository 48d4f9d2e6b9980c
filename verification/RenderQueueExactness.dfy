/** Producer and checker match exactly: the validator accepts a JSON document if and only if some
    collector run, against some Resolve, publishes it. */
module RenderQueueExactness {
  import opened PythonValues
  import opened RenderQueueEntries
  import opened RenderQueueSnapshot
  import opened RenderQueueValidator
  import T = Text

  // ---- spelling a snapshot out as JSON ----

  function WriteContext(c: Context): Value {
    Dict(map[Text("project") := Str(c.project), Text("timeline") := Str(c.timeline)])
  }

  function WriteOptional(text: Option<string>): Value {
    match text
    case None => Null
    case Some(s) => Str(s)
  }

  function WriteEntry(e: Entry, status: Option<string>): Value {
    Dict(map[
      Text("index") := Int(e.index),
      Text("job_id") := WriteOptional(e.jobId),
      Text("job_id_status") := Str(if e.jobId.Some? then "identified" else "unidentified"),
      Text("fields") := Dict(e.fields),
      Text("job_status") := WriteOptional(status)])
  }

  function WriteEntries(queue: seq<Entry>, statuses: seq<Option<string>>): seq<Value>
    requires |statuses| == |queue|
  {
    seq(|queue|, i requires 0 <= i < |queue| => WriteEntry(queue[i], statuses[i]))
  }

  function WriteCollector(): Value {
    Dict(map[Text("name") := Str(COLLECTOR_NAME), Text("revision") := Str(EXECUTION_REVISION_ID)])
  }

  function WriteDocument(s: Snapshot): Value
    requires |s.statuses| == |s.queue|
  {
    Dict(map[
      Text("schema_version") := Str(SCHEMA_VERSION),
      Text("mission") := Str(MISSION),
      Text("captured_at") := Str(s.capturedAt),
      Text("collector") := WriteCollector(),
      Text("expected_context") := WriteContext(s.expected),
      Text("observed_context") := WriteContext(s.observed),
      Text("rendering_in_progress") := Bool(false),
      Text("render_queue_count") := Int(|s.queue|),
      Text("render_queue") := List(WriteEntries(s.queue, s.statuses)),
      Text("snapshot_complete") := Bool(true)])
  }

  /** Everything a published snapshot satisfies, and all that is needed for it to be published. */
  ghost predicate Publishable(s: Snapshot) {
    && !T.Blank(s.expected.project) && !T.Blank(s.expected.timeline)
    && s.observed == s.expected
    && WellFormedQueue(s.queue)
    && PublishableQueue(s.queue)
    && StatusesMatch(s.queue, s.statuses)
  }

  ghost predicate StatusesMatch(queue: seq<Entry>, statuses: seq<Option<string>>) {
    && |statuses| == |queue|
    && forall i | 0 <= i < |queue| :: StatusMatches(queue[i], statuses[i])
  }

  ghost predicate StatusMatches(e: Entry, status: Option<string>) {
    status.Some? == e.jobId.Some? && (status.Some? ==> !T.Blank(status.value))
  }

  // ---- producer to checker ----

  lemma {:induction false} CollectedStatusesMatch(h: History, at: nat, queue: seq<Entry>, statuses: seq<Option<string>>)
    requires ReadStatuses(h, at, queue) == Ok(statuses)
    ensures StatusesMatch(queue, statuses)
    decreases |queue|
  {
    hide T.Blank;
    if queue != [] {
      var front := queue[..|queue| - 1];
      var before := ReadStatuses(h, at, front).value;
      CollectedStatusesMatch(h, at, front, before);
      forall i | 0 <= i < |queue| ensures StatusMatches(queue[i], statuses[i]) {
        if i < |front| { assert StatusMatches(front[i], before[i]); }
      }
    }
  }

  lemma CollectedIsPublishable(h: History, at: nat, expected: Context, capturedAt: string, doc: Snapshot)
    requires Collect(h, at, expected, capturedAt) == Ok(doc)
    ensures Publishable(doc) && doc.capturedAt == capturedAt
  {
    PublishingRun(h, at, expected, capturedAt, doc);
    hide Collect, ReadStatuses, NormalizeQueue;
    QueueIsWellFormed(h(at + 13).jobs.value);
    CollectedStatusesMatch(h, at + 20, doc.queue, doc.statuses);
  }

  lemma EntryIsAccepted(e: Entry, status: Option<string>, position: nat, earlier: set<string>)
    requires WellFormedEntry(e, position) && StatusMatches(e, status)
    requires e.jobId.Some? ==> e.jobId.value !in earlier
    ensures CheckEntry(WriteEntry(e, status), position, earlier) == Accepted
  {
    hide StatusOf, T.Blank, IsJson;
    NormalizeOfJson(Dict(e.fields));
    var m := WriteEntry(e, status).entries;
    assert m.Keys == ENTRY_KEYS;
    JsonKeysAreText(e.fields);
    assert CheckIdentity(m[Text("job_id_status")], m[Text("job_id")], m[Text("job_status")], earlier) == Accepted;
    assert CheckFields(m[Text("job_id_status")], m[Text("job_id")], m[Text("fields")]) == Accepted;
  }

  lemma JsonKeysAreText(fields: map<Key, Value>)
    requires IsJson(Dict(fields))
    ensures forall k | k in fields :: k.Text?
  {
  }

  lemma SeenIdsOfWritten(queue: seq<Entry>, statuses: seq<Option<string>>)
    requires |statuses| == |queue|
    ensures forall id :: id in SeenIds(WriteEntries(queue, statuses)) ==>
              exists i :: 0 <= i < |queue| && queue[i].jobId == Some(id)
  {
  }

  lemma {:induction false} EntriesAreAccepted(queue: seq<Entry>, statuses: seq<Option<string>>)
    requires WellFormedQueue(queue) && StatusesMatch(queue, statuses)
    ensures CheckEntries(WriteEntries(queue, statuses)) == Accepted
    decreases |queue|
  {
    hide CheckEntry, WriteEntry, WellFormedEntry, StatusMatches, SeenIds;
    if queue != [] {
      var n := |queue| - 1;
      EntriesAreAccepted(queue[..n], statuses[..n]);
      var written := WriteEntries(queue, statuses);
      assert written[..n] == WriteEntries(queue[..n], statuses[..n]);
      SeenIdsOfWritten(queue[..n], statuses[..n]);
      EntryIsAccepted(queue[n], statuses[n], n, SeenIds(written[..n]));
    }
  }

  /** The ten fields of a written document. */
  lemma WrittenFields(s: Snapshot)
    requires |s.statuses| == |s.queue|
    ensures WriteDocument(s).Dict? && WriteDocument(s).entries.Keys == TOP_LEVEL_KEYS
    ensures WriteDocument(s).entries[Text("schema_version")] == Str(SCHEMA_VERSION)
    ensures WriteDocument(s).entries[Text("mission")] == Str(MISSION)
    ensures WriteDocument(s).entries[Text("captured_at")] == Str(s.capturedAt)
    ensures WriteDocument(s).entries[Text("collector")] == WriteCollector()
    ensures WriteDocument(s).entries[Text("expected_context")] == WriteContext(s.expected)
    ensures WriteDocument(s).entries[Text("observed_context")] == WriteContext(s.observed)
    ensures WriteDocument(s).entries[Text("rendering_in_progress")] == Bool(false)
    ensures WriteDocument(s).entries[Text("render_queue_count")] == Int(|s.queue|)
    ensures WriteDocument(s).entries[Text("render_queue")] == List(WriteEntries(s.queue, s.statuses))
    ensures WriteDocument(s).entries[Text("snapshot_complete")] == Bool(true)
  {
    hide WriteCollector, WriteContext, WriteEntries;
  }

  lemma WrittenPartsAreJson(c: Context)
    ensures IsJson(WriteContext(c)) && AllFinite(WriteContext(c))
    ensures IsJson(WriteCollector()) && AllFinite(WriteCollector())
  {
    assert WriteContext(c).entries.Keys == CONTEXT_KEYS;
    assert WriteCollector().entries.Keys == COLLECTOR_KEYS;
  }

  lemma WrittenPartsAreAccepted(c: Context)
    requires !T.Blank(c.project) && !T.Blank(c.timeline)
    ensures CheckCollector(WriteCollector()) == Accepted
    ensures CheckContexts(WriteContext(c), WriteContext(c)) == Accepted
  {
    hide T.Blank;
    assert WriteContext(c).entries.Keys == CONTEXT_KEYS;
    assert WriteCollector().entries.Keys == COLLECTOR_KEYS;
  }

  lemma WrittenIsJson(s: Snapshot)
    requires Publishable(s)
    ensures IsJson(WriteDocument(s)) && AllFinite(WriteDocument(s))
  {
    hide WriteDocument, WriteEntry, WellFormedEntry, T.Blank;
    var written := WriteEntries(s.queue, s.statuses);
    forall i | 0 <= i < |written|
      ensures IsJson(written[i]) && AllFinite(written[i])
    {
      WrittenEntryIsJson(s.queue[i], s.statuses[i], i);
    }
    assert IsJson(List(written)) && AllFinite(List(written));
    WrittenPartsAreJson(s.expected);
    WrittenFields(s);
    hide WriteContext, WriteCollector, WriteEntries, WellFormedQueue, PublishableQueue, StatusesMatch;
    var m := WriteDocument(s).entries;
    forall k | k in m
      ensures k.Text? && IsJson(m[k]) && AllFinite(m[k])
    {
      assert k in TOP_LEVEL_KEYS;
    }
  }

  lemma WrittenEntryIsJson(e: Entry, status: Option<string>, i: nat)
    requires WellFormedEntry(e, i) && AllFinite(Dict(e.fields))
    ensures IsJson(WriteEntry(e, status)) && AllFinite(WriteEntry(e, status))
  {
    hide StatusOf, T.Blank;
    assert IsJson(Dict(e.fields));
  }

  lemma WrittenIsAccepted(clock: Clock, s: Snapshot)
    requires Publishable(s) && clock(s.capturedAt)
    ensures Validate(clock, WriteDocument(s)) == Accepted
  {
    WrittenIsJson(s);
    EntriesAreAccepted(s.queue, s.statuses);
    WrittenFields(s);
    WrittenPartsAreAccepted(s.expected);
    hide WriteDocument, WriteCollector, WriteContext, CheckEntries, CheckCollector, CheckContexts, WriteEntries;
    hide IsJson, AllFinite, WellFormedQueue, PublishableQueue, StatusesMatch, T.Blank;
    var m := WriteDocument(s).entries;
    assert CheckEnvelope(clock, m) == Accepted;
    assert CheckQueue(m[Text("rendering_in_progress")], m[Text("render_queue")], m[Text("render_queue_count")]) == Accepted;
  }

  // ---- checker to producer ----

  function ReadOptional(v: Value): Option<string> {
    if v.Str? then Some(v.s) else None
  }

  function ReadEntry(v: Value, position: nat): Entry
    requires ObjectWithKeys(v, ENTRY_KEYS) && v.entries[Text("fields")].Dict?
  {
    Entry(position, ReadOptional(v.entries[Text("job_id")]), v.entries[Text("fields")].entries)
  }

  lemma WrittenEntryFields(e: Entry, status: Option<string>)
    ensures WriteEntry(e, status).Dict? && WriteEntry(e, status).entries.Keys == ENTRY_KEYS
    ensures WriteEntry(e, status).entries[Text("index")] == Int(e.index)
    ensures WriteEntry(e, status).entries[Text("job_id")] == WriteOptional(e.jobId)
    ensures WriteEntry(e, status).entries[Text("job_id_status")] == Str(if e.jobId.Some? then "identified" else "unidentified")
    ensures WriteEntry(e, status).entries[Text("fields")] == Dict(e.fields)
    ensures WriteEntry(e, status).entries[Text("job_status")] == WriteOptional(status)
  {
  }

  lemma SameFieldsSameEntry(m: map<Key, Value>, n: map<Key, Value>)
    requires m.Keys == ENTRY_KEYS && n.Keys == ENTRY_KEYS
    requires m[Text("index")] == n[Text("index")]
    requires m[Text("job_id")] == n[Text("job_id")]
    requires m[Text("job_id_status")] == n[Text("job_id_status")]
    requires m[Text("fields")] == n[Text("fields")]
    requires m[Text("job_status")] == n[Text("job_status")]
    ensures m == n
  {
    forall k | k in m ensures m[k] == n[k] {
      assert k in ENTRY_KEYS;
    }
  }

  lemma AcceptedEntryReadsBack(v: Value, position: nat, earlier: set<string>)
    requires IsJson(v)
    requires CheckEntry(v, position, earlier) == Accepted
    ensures ObjectWithKeys(v, ENTRY_KEYS) && v.entries[Text("fields")].Dict?
    ensures var e, status := ReadEntry(v, position), ReadOptional(v.entries[Text("job_status")]);
            && WellFormedEntry(e, position)
            && StatusMatches(e, status)
            && WriteEntry(e, status) == v
            && (e.jobId.Some? ==> e.jobId.value !in earlier)
  {
    hide StatusOf, T.Blank;
    var m := v.entries;
    var fields, status, jobId := m[Text("fields")], m[Text("job_id_status")], m[Text("job_id")];
    assert IsJson(fields);
    assert CheckIdentity(status, jobId, m[Text("job_status")], earlier) == Accepted;
    assert CheckFields(status, jobId, fields) == Accepted;
    hide IsJson, Normalize;
    var e, jobStatus := ReadEntry(v, position), ReadOptional(m[Text("job_status")]);
    WrittenEntryFields(e, jobStatus);
    hide WriteEntry;
    SameFieldsSameEntry(WriteEntry(e, jobStatus).entries, m);
  }

  ghost predicate ReadsBackAs(entries: seq<Value>, queue: seq<Entry>, statuses: seq<Option<string>>) {
    && WellFormedQueue(queue)
    && StatusesMatch(queue, statuses)
    && entries == WriteEntries(queue, statuses)
  }

  lemma {:induction false} AcceptedEntriesReadBack(entries: seq<Value>)
    returns (queue: seq<Entry>, statuses: seq<Option<string>>)
    requires forall i | 0 <= i < |entries| :: IsJson(entries[i])
    requires CheckEntries(entries) == Accepted
    ensures ReadsBackAs(entries, queue, statuses)
    decreases |entries|
  {
    queue, statuses := [], [];
    if entries != [] {
      var n := |entries| - 1;
      queue, statuses := AcceptedEntriesReadBack(entries[..n]);
      var last := entries[n];
      hide CheckEntry, WriteEntry, WellFormedEntry, StatusMatches, IsJson;
      AcceptedEntryReadsBack(last, n, SeenIds(entries[..n]));
      var e, status := ReadEntry(last, n), ReadOptional(last.entries[Text("job_status")]);
      IdsAreSeen(queue, statuses);
      ExtendReadBack(entries[..n], queue, statuses, last, e, status);
      assert entries == entries[..n] + [last];
      queue, statuses := queue + [e], statuses + [status];
    }
  }

  lemma ExtendReadBack(front: seq<Value>, queue: seq<Entry>, statuses: seq<Option<string>>, last: Value, e: Entry, status: Option<string>)
    requires ReadsBackAs(front, queue, statuses)
    requires WellFormedEntry(e, |front|) && StatusMatches(e, status) && WriteEntry(e, status) == last
    requires forall i | 0 <= i < |queue| && queue[i].jobId.Some? :: queue[i].jobId != e.jobId
    ensures ReadsBackAs(front + [last], queue + [e], statuses + [status])
  {
    hide WriteEntry, WellFormedEntry, StatusMatches;
    assert |queue| == |front|;
    assert WriteEntries(queue + [e], statuses + [status]) == WriteEntries(queue, statuses) + [WriteEntry(e, status)];
  }

  lemma IdsAreSeen(queue: seq<Entry>, statuses: seq<Option<string>>)
    requires |statuses| == |queue|
    ensures forall i | 0 <= i < |queue| && queue[i].jobId.Some? ::
              queue[i].jobId.value in SeenIds(WriteEntries(queue, statuses))
  {
    var written := WriteEntries(queue, statuses);
    forall i | 0 <= i < |queue| && queue[i].jobId.Some?
      ensures queue[i].jobId.value in SeenIds(written)
    {
      var e := written[i];
      assert e.entries.Keys == ENTRY_KEYS;
      assert e in written && e.entries[Text("job_id")].s == queue[i].jobId.value;
    }
  }

  lemma SameFieldsSameDocument(m: map<Key, Value>, n: map<Key, Value>)
    requires m.Keys == TOP_LEVEL_KEYS && n.Keys == TOP_LEVEL_KEYS
    requires m[Text("schema_version")] == n[Text("schema_version")]
    requires m[Text("mission")] == n[Text("mission")]
    requires m[Text("captured_at")] == n[Text("captured_at")]
    requires m[Text("collector")] == n[Text("collector")]
    requires m[Text("expected_context")] == n[Text("expected_context")]
    requires m[Text("observed_context")] == n[Text("observed_context")]
    requires m[Text("rendering_in_progress")] == n[Text("rendering_in_progress")]
    requires m[Text("render_queue_count")] == n[Text("render_queue_count")]
    requires m[Text("render_queue")] == n[Text("render_queue")]
    requires m[Text("snapshot_complete")] == n[Text("snapshot_complete")]
    ensures m == n
  {
    forall k | k in m ensures m[k] == n[k] {
      assert k in TOP_LEVEL_KEYS;
    }
  }

  lemma AcceptedContextReadsBack(expected: Value, observed: Value)
    requires CheckContexts(expected, observed) == Accepted
    ensures ObjectWithKeys(expected, CONTEXT_KEYS) && expected.entries[Text("project")].Str? && expected.entries[Text("timeline")].Str?
    ensures var c := Context(expected.entries[Text("project")].s, expected.entries[Text("timeline")].s);
            !T.Blank(c.project) && !T.Blank(c.timeline) && WriteContext(c) == expected && WriteContext(c) == observed
  {
  }

  lemma AcceptedCollectorReadsBack(collector: Value)
    requires CheckCollector(collector) == Accepted
    ensures WriteCollector() == collector
  {
    assert WriteCollector().entries == collector.entries;
  }

  lemma AcceptedReadsBack(clock: Clock, document: Value) returns (s: Snapshot)
    requires IsJson(document) && Validate(clock, document) == Accepted
    ensures Publishable(s) && clock(s.capturedAt) && WriteDocument(s) == document
  {
    var m := document.entries;
    assert m.Keys == TOP_LEVEL_KEYS && CheckEnvelope(clock, m) == Accepted;
    var queueValue, expected := m[Text("render_queue")], m[Text("expected_context")];
    assert IsJson(queueValue) && AllFinite(queueValue);
    hide CheckEntries, WriteDocument, WriteEntries, WellFormedQueue, StatusesMatch, CheckContexts, CheckCollector;
    hide IsJson, AllFinite;
    assert CheckQueue(m[Text("rendering_in_progress")], queueValue, m[Text("render_queue_count")]) == Accepted;
    var queue, statuses := AcceptedQueueReadsBack(queueValue);
    AcceptedCollectorReadsBack(m[Text("collector")]);
    AcceptedContextReadsBack(expected, m[Text("observed_context")]);
    var context := Context(expected.entries[Text("project")].s, expected.entries[Text("timeline")].s);
    s := Snapshot(m[Text("captured_at")].s, context, context, queue, statuses);
    WrittenFields(s);
    SameFieldsSameDocument(WriteDocument(s).entries, m);
  }

  lemma AcceptedQueueReadsBack(queueValue: Value) returns (queue: seq<Entry>, statuses: seq<Option<string>>)
    requires IsJson(queueValue) && AllFinite(queueValue) && queueValue.List?
    requires CheckEntries(queueValue.items) == Accepted
    ensures WellFormedQueue(queue) && PublishableQueue(queue) && StatusesMatch(queue, statuses)
    ensures queueValue == List(WriteEntries(queue, statuses)) && |queue| == |queueValue.items|
  {
    queue, statuses := AcceptedEntriesReadBack(queueValue.items);
    ReadBackIsFinite(queueValue.items, queue, statuses);
  }

  lemma ReadBackIsFinite(entries: seq<Value>, queue: seq<Entry>, statuses: seq<Option<string>>)
    requires ReadsBackAs(entries, queue, statuses)
    requires AllFinite(List(entries))
    ensures PublishableQueue(queue)
  {
    forall i | 0 <= i < |queue| ensures AllFinite(Dict(queue[i].fields)) {
      assert AllFinite(entries[i]) && entries[i] == WriteEntry(queue[i], statuses[i]);
      assert entries[i].entries[Text("fields")] == Dict(queue[i].fields);
    }
  }

  /** A Resolve that stands still and answers with exactly what a snapshot says. */
  function StillInstant(s: Snapshot): Instant
    requires |s.statuses| == |s.queue|
  {
    Instant(
      Returned(Handle(true)), Returned(Handle(true)), Returned(Str(s.expected.project)),
      Returned(Handle(true)), Returned(Str(s.expected.timeline)), Returned(Bool(false)),
      Returned(RawQueue(s.queue)),
      id => Returned(StillStatus(s.queue, s.statuses, id)))
  }

  function StillStatus(queue: seq<Entry>, statuses: seq<Option<string>>, id: string): Value
    requires |statuses| == |queue|
  {
    if queue == [] then Null
    else if queue[0].jobId == Some(id) && statuses[0].Some? then Dict(map[Text("JobStatus") := Str(statuses[0].value)])
    else StillStatus(queue[1..], statuses[1..], id)
  }

  lemma {:induction false} StillStatusOf(queue: seq<Entry>, statuses: seq<Option<string>>, i: nat)
    requires DistinctIds(queue) && StatusesMatch(queue, statuses)
    requires i < |queue| && queue[i].jobId.Some?
    ensures StillStatus(queue, statuses, queue[i].jobId.value) == Dict(map[Text("JobStatus") := Str(statuses[i].value)])
  {
    assert StatusMatches(queue[0], statuses[0]);
    if i > 0 {
      forall j | 0 <= j < |queue[1..]| ensures StatusMatches(queue[1..][j], statuses[1..][j]) {
        assert StatusMatches(queue[j + 1], statuses[j + 1]);
      }
      StillStatusOf(queue[1..], statuses[1..], i - 1);
    }
  }

  lemma {:induction false} StillStatusesRead(s: Snapshot, at: nat, n: nat)
    requires DistinctIds(s.queue) && StatusesMatch(s.queue, s.statuses)
    requires n <= |s.queue|
    ensures ReadStatuses(_ => StillInstant(s), at, s.queue[..n]) == Ok(s.statuses[..n])
  {
    if n > 0 {
      hide T.Blank;
      assert s.queue[..n][..n - 1] == s.queue[..n - 1];
      assert s.statuses[..n] == s.statuses[..n - 1] + [s.statuses[n - 1]];
      StillStatusesRead(s, at, n - 1);
      assert StatusMatches(s.queue[n - 1], s.statuses[n - 1]);
      if s.queue[n - 1].jobId.Some? {
        StillStatusOf(s.queue, s.statuses, n - 1);
      }
    }
  }

  lemma StillQueueAgrees(queue: seq<Entry>)
    requires WellFormedQueue(queue) && PublishableQueue(queue)
    ensures SameQueue(queue, queue)
  {
    forall i | 0 <= i < |queue| ensures SameEntry(queue[i], queue[i]) {
      assert WellFormedEntry(queue[i], i);
      SameIsReflexive(Dict(queue[i].fields));
    }
  }

  lemma StillGuard(s: Snapshot, at: nat)
    requires Publishable(s)
    ensures VerifyContext(_ => StillInstant(s), at, s.expected) == Ok(s.expected)
    ensures QueueAt(_ => StillInstant(s), at) == Ok(s.queue)
  {
    WellFormedQueueIsAFixpoint(s.queue);
    hide T.Blank, NormalizeQueue, WellFormedQueue, PublishableQueue, StatusesMatch, RawQueue;
  }

  lemma PublishableIsCollected(s: Snapshot)
    requires Publishable(s)
    ensures Collect(_ => StillInstant(s), 0, s.expected, s.capturedAt) == Ok(s)
  {
    StillStatusesRead(s, 20, |s.queue|);
    assert s.queue[..|s.queue|] == s.queue && s.statuses[..|s.statuses|] == s.statuses;
    StillQueueAgrees(s.queue);
    var k := 20 + IdentifiedCount(s.queue);
    StillGuard(s, 0);
    StillGuard(s, 6);
    StillGuard(s, 7);
    StillGuard(s, 13);
    StillGuard(s, 14);
    StillGuard(s, k);
    StillGuard(s, k + 6);
    hide VerifyContext, QueueAt, ReadStatuses, SameQueue, StillInstant, WellFormedQueue, StatusesMatch, PublishableQueue;
  }

  // ---- the two directions together ----

  ghost predicate SomeRunPublishes(clock: Clock, document: Value) {
    exists h: History, at: nat, expected: Context, capturedAt: string, doc: Snapshot ::
      RunPublishes(clock, document, h, at, expected, capturedAt, doc)
  }

  ghost predicate RunPublishes(clock: Clock, document: Value, h: History, at: nat, expected: Context, capturedAt: string, doc: Snapshot) {
    && clock(capturedAt)
    && Collect(h, at, expected, capturedAt) == Ok(doc)
    && |doc.statuses| == |doc.queue|
    && document == WriteDocument(doc)
  }

  /** Every document a collector run publishes is accepted, is JSON already, and normalises to itself. */
  lemma EveryPublishedDocumentIsAccepted(clock: Clock, h: History, at: nat, expected: Context, capturedAt: string, doc: Snapshot)
    requires clock(capturedAt)
    requires Collect(h, at, expected, capturedAt) == Ok(doc)
    ensures |doc.statuses| == |doc.queue|
    ensures Validate(clock, WriteDocument(doc)) == Accepted
    ensures Normalize(WriteDocument(doc)) == Some(WriteDocument(doc))
  {
    hide Collect, Validate, WriteDocument;
    CollectedIsPublishable(h, at, expected, capturedAt, doc);
    WrittenIsAccepted(clock, doc);
    WrittenIsJson(doc);
    NormalizeOfJson(WriteDocument(doc));
  }

  /** A JSON document is accepted exactly when some collector run publishes it. */
  lemma AcceptedIffPublished(clock: Clock, document: Value)
    requires IsJson(document)
    ensures Validate(clock, document) == Accepted <==> SomeRunPublishes(clock, document)
  {
    hide Collect, Validate, WriteDocument, IsJson;
    if Validate(clock, document) == Accepted {
      var s := AcceptedReadsBack(clock, document);
      PublishableIsCollected(s);
      assert RunPublishes(clock, document, _ => StillInstant(s), 0, s.expected, s.capturedAt, s);
    }
    if SomeRunPublishes(clock, document) {
      var h, at, expected, capturedAt, doc :|
        RunPublishes(clock, document, h, at, expected, capturedAt, doc);
      EveryPublishedDocumentIsAccepted(clock, h, at, expected, capturedAt, doc);
    }
  }
}
