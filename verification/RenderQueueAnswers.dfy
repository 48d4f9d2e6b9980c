/** What Resolve must have answered, call by call, for a snapshot to be published: the exact condition on
    the answers themselves. */
module RenderQueueAnswers {
  import opened PythonValues
  import opened RenderQueueEntries
  import opened RenderQueueSnapshot
  import T = Text

  // ---- job ids ----

  /** The keys a job id may stand under. */
  const ID_KEYS: set<string> := {"JobId", "JobID", "jobId", "job_id", "Id", "ID", "id"}

  predicate Gives(v: Value, id: string) {
    (v.Str? && T.Strip(v.s) == id && id != "") || (v.Int? && id == T.IntText(v.i))
  }

  /** A value under an id key that is neither text, a number without fraction, a bool nor None. */
  predicate Spoils(v: Value) {
    v.Real? || v.List? || v.Tuple? || v.Dict? || v.Handle?
  }

  ghost predicate SomeKeySpoils(fields: map<Key, Value>) {
    exists key :: key in ID_KEYS && Text(key) in fields && Spoils(fields[Text(key)])
  }

  ghost predicate SomeKeyGives(fields: map<Key, Value>, id: string) {
    exists key :: key in ID_KEYS && Text(key) in fields && Gives(fields[Text(key)], id)
  }

  lemma AliasReading(fields: map<Key, Value>, key: string)
    ensures ReadAlias(fields, key).Unusable? <==> Text(key) in fields && Spoils(fields[Text(key)])
    ensures forall id :: ReadAlias(fields, key) == Usable(id) <==> Text(key) in fields && Gives(fields[Text(key)], id)
  {
    if Text(key) in fields {
      match fields[Text(key)]
      case Str(s) => T.BlankMeansStripsToNothing(s);
      case Int(i) => T.StripOfTrimmed(T.IntText(i));
      case _ =>
    }
  }

  lemma AliasesAreKeys()
    ensures forall key :: key in JOB_ID_ALIASES <==> key in ID_KEYS
  {
  }

  lemma AliasesRead(fields: map<Key, Value>)
    ensures SomeAliasUnusable(fields) <==> SomeKeySpoils(fields)
    ensures forall id :: SomeAliasReads(fields, id) <==> SomeKeyGives(fields, id)
  {
    hide ReadAlias, Spoils, Gives;
    AliasesAreKeys();
    forall key ensures key in JOB_ID_ALIASES <==> key in ID_KEYS {}
    forall key { AliasReading(fields, key); }
  }

  /** Which id an entry has: malformed as soon as one key spoils it, and otherwise as many as its keys
      give. */
  lemma StatusFromAnswers(fields: map<Key, Value>)
    ensures StatusOf(fields) == MalformedId <==> SomeKeySpoils(fields)
    ensures StatusOf(fields) == Unidentified <==> !SomeKeySpoils(fields) && forall id :: !SomeKeyGives(fields, id)
    ensures forall id :: StatusOf(fields) == Identified(id) <==>
              !SomeKeySpoils(fields) && SomeKeyGives(fields, id) && forall other | SomeKeyGives(fields, other) :: other == id
    ensures StatusOf(fields) == ConflictingIds <==>
              !SomeKeySpoils(fields) && exists x, y :: x != y && SomeKeyGives(fields, x) && SomeKeyGives(fields, y)
  {
    hide StatusOf, SomeAliasUnusable, SomeAliasReads, SomeKeySpoils, SomeKeyGives;
    StatusIsRight(fields);
    AliasesRead(fields);
  }

  // ---- one read of the queue ----

  /** Entry i of a read, from what Resolve listed there. */
  ghost predicate EntryFrom(raw: Value, i: nat, e: Entry) {
    && raw.Dict? && e.index == i && e.fields.Keys == raw.entries.Keys
    && (forall k | k in raw.entries :: k.Text? && Normalize(raw.entries[k]) == Some(e.fields[k]))
    && !SomeKeySpoils(raw.entries)
    && (if e.jobId.Some? then SomeKeyGives(raw.entries, e.jobId.value) else forall id :: !SomeKeyGives(raw.entries, id))
    && (forall id | SomeKeyGives(raw.entries, id) :: e.jobId == Some(id))
  }

  /** None and False stand for an empty list. */
  predicate Lists(a: Answer, items: seq<Value>) {
    && a.Returned?
    && (a.value == List(items) || a.value == Tuple(items) || (items == [] && (a.value == Null || a.value == Bool(false))))
  }

  /** Resolve's answer to one `GetRenderJobList()` reads as this queue. */
  ghost predicate ReadsAs(a: Answer, queue: seq<Entry>) {
    && (exists items :: Lists(a, items) && |items| == |queue| && forall i | 0 <= i < |queue| :: EntryFrom(items[i], i, queue[i]))
    && (forall i, j | 0 <= i < j < |queue| && queue[i].jobId.Some? :: queue[i].jobId != queue[j].jobId)
  }

  lemma EntryFromAnswer(raw: Value, i: nat, e: Entry)
    ensures NormalizeEntry(raw, i) == Ok(e) <==> EntryFrom(raw, i, e)
  {
    hide SomeKeySpoils, SomeKeyGives, StatusOf;
    if raw.Dict? && forall k | k in raw.entries :: k.Text? {
      StatusFromAnswers(raw.entries);
      if EntryFrom(raw, i, e) { assert Normalize(raw).value.entries == e.fields; }
    }
  }

  /** The error of an entry that cannot be read: the first of these that applies. */
  lemma EntryErrors(raw: Value, i: nat)
    ensures var r := NormalizeEntry(raw, i);
            if !raw.Dict? then r == Err(QueueEntryMalformed)
            else if exists k | k in raw.entries :: !k.Text? then r == Err(QueueEntryKeyNotString)
            else if SomeKeySpoils(raw.entries) then r == Err(QueueEntryJobIdMalformed)
            else if exists x, y :: x != y && SomeKeyGives(raw.entries, x) && SomeKeyGives(raw.entries, y)
            then r == Err(QueueEntryJobIdConflicting)
            else if exists k | k in raw.entries :: Normalize(raw.entries[k]).None? then r == Err(QueueEntryFieldsUnrepresentable)
            else r.Ok?
  {
    hide SomeKeySpoils, SomeKeyGives, StatusOf;
    if raw.Dict? { StatusFromAnswers(raw.entries); }
  }

  lemma QueueFromAnswer(h: History, k: nat, queue: seq<Entry>)
    ensures QueueAt(h, k) == Ok(queue) <==> ReadsAs(h(k).jobs, queue)
  {
    hide NormalizeEntry, EntryFrom;
    forall raw, i, e ensures NormalizeEntry(raw, i) == Ok(e) <==> EntryFrom(raw, i, e) { EntryFromAnswer(raw, i, e); }
    var a := h(k).jobs;
    if QueueAt(h, k) == Ok(queue) {
      var items := RequireCollection(a.value).value;
      assert Lists(a, items) && NormalizeEntries(items) == Ok(queue);
      assert forall i | 0 <= i < |items| :: NormalizeEntry(items[i], i) == Ok(queue[i]);
    }
    if ReadsAs(a, queue) {
      var items :| Lists(a, items) && |items| == |queue| && forall i | 0 <= i < |queue| :: EntryFrom(items[i], i, queue[i]);
      assert RequireCollection(a.value) == Ok(items);
      assert forall i | 0 <= i < |items| :: NormalizeEntry(items[i], i) == Ok(queue[i]);
      assert NormalizeEntries(items).value == queue;
    }
  }

  /** The two reads agree: the same ids in the same places, under the same keys values that Python
      compares equal. */
  predicate Agree(a: seq<Entry>, b: seq<Entry>) {
    && |a| == |b|
    && forall i | 0 <= i < |a| ::
         && a[i].index == b[i].index && a[i].jobId == b[i].jobId && a[i].fields.Keys == b[i].fields.Keys
         && forall k | k in a[i].fields :: Same(a[i].fields[k], b[i].fields[k])
  }

  lemma SameQueueAgrees(a: seq<Entry>, b: seq<Entry>)
    ensures SameQueue(a, b) <==> Agree(a, b)
  {
    if SameQueue(a, b) {
      forall i | 0 <= i < |a| ensures SameEntry(a[i], b[i]) {}
    }
  }

  // ---- a guard ----

  /** From call g on, the answers that name the open project and its timeline. */
  predicate Names(h: History, g: nat, context: Context) {
    && h(g).projectManager.Returned? && Truthy(h(g).projectManager.value)
    && h(g + 1).currentProject.Returned? && Truthy(h(g + 1).currentProject.value)
    && h(g + 2).projectName == Returned(Str(context.project))
    && h(g + 3).currentTimeline.Returned? && Truthy(h(g + 3).currentTimeline.value)
    && h(g + 4).timelineName == Returned(Str(context.timeline))
  }

  /** The six answers of a guard: the expected project is open at the expected timeline, nothing renders. */
  predicate Sees(h: History, g: nat, expected: Context) {
    Names(h, g, expected) && h(g + 5).rendering == Returned(Bool(false))
  }

  lemma GuardFromAnswers(h: History, g: nat, expected: Context)
    requires !T.Blank(expected.project) && !T.Blank(expected.timeline)
    ensures VerifyContext(h, g, expected).Ok? <==> Sees(h, g, expected)
  {
    hide T.Blank, Truthy;
  }

  /** How a guard ends on names that can be read: the first difference decides. */
  lemma GuardMismatch(h: History, g: nat, expected: Context, seen: Context)
    requires Names(h, g, seen) && !T.Blank(seen.project) && !T.Blank(seen.timeline)
    ensures var r := VerifyContext(h, g, expected);
            if seen.project != expected.project then r == Err(ProjectIdentityMismatch)
            else if seen.timeline != expected.timeline then r == Err(TimelineIdentityMismatch)
            else match h(g + 5).rendering
              case Raised => r == Err(AccessorCallFailed)
              case Returned(Bool(b)) => r == if b then Err(RenderingActive) else Ok(expected)
              case Returned(_) => r == Err(InvalidRenderingState)
  {
    hide T.Blank, Truthy;
  }

  // ---- the status reads ----

  /** The answer to one `GetRenderJobStatus()` carries this status. */
  predicate Reports(a: Answer, status: string) {
    && a.Returned? && a.value.Dict? && Text("JobStatus") in a.value.entries
    && a.value.entries[Text("JobStatus")] == Str(status) && T.Strip(status) != ""
  }

  lemma StatusFromAnswer(a: Answer, status: string)
    ensures ReadStatus(a) == Ok(status) <==> Reports(a, status)
  {
    T.BlankMeansStripsToNothing(status);
  }

  /** How many of these entries have an id. */
  function WithId(queue: seq<Entry>): nat {
    if queue == [] then 0 else WithId(queue[..|queue| - 1]) + (if queue[|queue| - 1].jobId.Some? then 1 else 0)
  }

  lemma {:induction false} CallsPerId(queue: seq<Entry>)
    ensures IdentifiedCount(queue) == WithId(queue)
  {
    if queue != [] { CallsPerId(queue[..|queue| - 1]); }
  }

  /** The status published for an entry is what the call made for it at instant k reports. */
  predicate StatusRead(h: History, k: nat, e: Entry, status: Option<string>) {
    if e.jobId.None? then status == None
    else status.Some? && Reports(h(k).jobStatus(e.jobId.value), status.value)
  }

  /** From call g on, one status read for each entry with an id, in the order of the queue. */
  predicate StatusesRead(h: History, g: nat, queue: seq<Entry>, statuses: seq<Option<string>>) {
    |statuses| == |queue| && forall i | 0 <= i < |queue| :: StatusRead(h, g + WithId(queue[..i]), queue[i], statuses[i])
  }

  lemma OneMoreRead(h: History, g: nat, queue: seq<Entry>, e: Entry, statuses: seq<Option<string>>, status: Option<string>)
    ensures StatusesRead(h, g, queue + [e], statuses + [status]) <==>
            StatusesRead(h, g, queue, statuses) && StatusRead(h, g + WithId(queue), e, status)
  {
    hide StatusRead, WithId;
    var all, both := queue + [e], statuses + [status];
    assert all[..|queue|] == queue;
    forall i | 0 <= i < |queue| ensures all[..i] == queue[..i] && all[i] == queue[i] {}
    if |statuses| == |queue| {
      assert both[|queue|] == status && forall i | 0 <= i < |queue| :: both[i] == statuses[i];
    }
  }

  lemma OneMoreStatus(h: History, g: nat, queue: seq<Entry>, e: Entry, statuses: seq<Option<string>>, status: Option<string>)
    ensures ReadStatuses(h, g, queue + [e]) == Ok(statuses + [status]) <==>
            ReadStatuses(h, g, queue) == Ok(statuses) && StatusRead(h, g + IdentifiedCount(queue), e, status)
  {
    hide ReadStatus, Reports, IdentifiedCount;
    assert (queue + [e])[..|queue|] == queue;
    if e.jobId.Some? && status.Some? {
      StatusFromAnswer(h(g + IdentifiedCount(queue)).jobStatus(e.jobId.value), status.value);
    }
    if e.jobId.Some? {
      var r := ReadStatus(h(g + IdentifiedCount(queue)).jobStatus(e.jobId.value));
      if r.Ok? { StatusFromAnswer(h(g + IdentifiedCount(queue)).jobStatus(e.jobId.value), r.value); }
    }
    var r := ReadStatuses(h, g, queue + [e]);
    if r.Ok? { assert |r.value| == |queue| + 1 && r.value[..|queue|] + [r.value[|queue|]] == r.value; }
    assert (statuses + [status])[..|statuses|] == statuses;
  }

  lemma NoStatuses(h: History, g: nat, queue: seq<Entry>, statuses: seq<Option<string>>)
    requires queue == [] || statuses == []
    ensures ReadStatuses(h, g, queue) == Ok(statuses) <==> queue == [] && statuses == []
    ensures StatusesRead(h, g, queue, statuses) <==> queue == [] && statuses == []
  {
    hide StatusRead, ReadStatus;
  }

  lemma {:induction false} StatusesFromAnswers(h: History, g: nat, queue: seq<Entry>, statuses: seq<Option<string>>)
    ensures ReadStatuses(h, g, queue) == Ok(statuses) <==> StatusesRead(h, g, queue, statuses)
    decreases |queue|
  {
    hide ReadStatuses, StatusesRead, StatusRead, IdentifiedCount, WithId;
    if queue == [] || statuses == [] {
      NoStatuses(h, g, queue, statuses);
    } else {
      var front, last := queue[..|queue| - 1], queue[|queue| - 1];
      var some, status := statuses[..|statuses| - 1], statuses[|statuses| - 1];
      assert queue == front + [last] && statuses == some + [status];
      CallsPerId(front);
      OneMoreRead(h, g, front, last, some, status);
      OneMoreStatus(h, g, front, last, some, status);
      StatusesFromAnswers(h, g, front, some);
    }
  }

  // ---- publishing ----

  /** The instants the four guards of a run start at, when it publishes this queue. */
  function GuardStarts(at: nat, queue: seq<Entry>): set<nat> {
    {at, at + 7, at + 14, at + 20 + WithId(queue)}
  }

  /** A run, call by call. */
  lemma RunsThrough(h: History, at: nat, expected: Context, capturedAt: string, doc: Snapshot)
    ensures Collect(h, at, expected, capturedAt) == Ok(doc) <==>
            && !T.Blank(expected.project) && !T.Blank(expected.timeline)
            && doc == Snapshot(capturedAt, expected, expected, doc.queue, doc.statuses)
            && VerifyContext(h, at, expected).Ok? && VerifyContext(h, at + 7, expected).Ok?
            && VerifyContext(h, at + 14, expected).Ok?
            && VerifyContext(h, at + 20 + IdentifiedCount(doc.queue), expected).Ok?
            && QueueAt(h, at + 6).Ok? && SameQueue(QueueAt(h, at + 6).value, doc.queue)
            && QueueAt(h, at + 13) == Ok(doc.queue)
            && ReadStatuses(h, at + 20, doc.queue) == Ok(doc.statuses)
            && QueueAt(h, at + 26 + IdentifiedCount(doc.queue)).Ok?
            && SameQueue(QueueAt(h, at + 26 + IdentifiedCount(doc.queue)).value, doc.queue)
            && PublishableQueue(doc.queue)
  {
    hide VerifyContext, QueueAt, ReadStatuses, SameQueue, IdentifiedCount, PublishableQueue, T.Blank;
  }

  lemma AgreeingRead(h: History, k: nat, queue: seq<Entry>)
    ensures QueueAt(h, k).Ok? && SameQueue(QueueAt(h, k).value, queue) <==>
            exists other :: ReadsAs(h(k).jobs, other) && Agree(other, queue)
  {
    hide QueueAt, ReadsAs, Agree, SameQueue;
    if QueueAt(h, k).Ok? {
      QueueFromAnswer(h, k, QueueAt(h, k).value);
      SameQueueAgrees(QueueAt(h, k).value, queue);
    }
    forall other | ReadsAs(h(k).jobs, other) ensures QueueAt(h, k) == Ok(other) { QueueFromAnswer(h, k, other); }
  }

  /** A snapshot is published exactly on these answers: four guards that all see the expected project,
      the expected timeline and no rendering, three reads of the queue that agree, and a status for every
      entry with an id; and every number in it is finite. */
  lemma PublishesIff(h: History, at: nat, expected: Context, capturedAt: string, doc: Snapshot)
    ensures Collect(h, at, expected, capturedAt) == Ok(doc) <==>
            && T.Strip(expected.project) != "" && T.Strip(expected.timeline) != ""
            && doc == Snapshot(capturedAt, expected, expected, doc.queue, doc.statuses)
            && (forall g | g in GuardStarts(at, doc.queue) :: Sees(h, g, expected))
            && (exists first :: ReadsAs(h(at + 6).jobs, first) && Agree(first, doc.queue))
            && ReadsAs(h(at + 13).jobs, doc.queue)
            && StatusesRead(h, at + 20, doc.queue, doc.statuses)
            && (exists last :: ReadsAs(h(at + 26 + WithId(doc.queue)).jobs, last) && Agree(last, doc.queue))
            && (forall e | e in doc.queue :: AllFinite(Dict(e.fields)))
  {
    hide Collect, VerifyContext, Sees, QueueAt, ReadsAs, Agree, SameQueue, StatusesRead, WithId, AllFinite, T.Blank, T.Strip;
    T.BlankMeansStripsToNothing(expected.project);
    T.BlankMeansStripsToNothing(expected.timeline);
    RunsThrough(h, at, expected, capturedAt, doc);
    CallsPerId(doc.queue);
    if !T.Blank(expected.project) && !T.Blank(expected.timeline) {
      forall g ensures VerifyContext(h, g, expected).Ok? <==> Sees(h, g, expected) { GuardFromAnswers(h, g, expected); }
    }
    AgreeingRead(h, at + 6, doc.queue);
    AgreeingRead(h, at + 26 + WithId(doc.queue), doc.queue);
    QueueFromAnswer(h, at + 13, doc.queue);
    StatusesFromAnswers(h, at + 20, doc.queue, doc.statuses);
    assert PublishableQueue(doc.queue) <==> forall e | e in doc.queue :: AllFinite(Dict(e.fields));
  }

  /** At every guard of a run that publishes, the project and the timeline Resolve named were the expected
      ones, and it said that nothing renders. */
  lemma PublishedContextWasSeen(h: History, at: nat, expected: Context, capturedAt: string, doc: Snapshot, g: nat)
    requires Collect(h, at, expected, capturedAt) == Ok(doc)
    requires g in {at, at + 7, at + 14, at + 20 + IdentifiedCount(doc.queue)}
    ensures h(g + 2).projectName == Returned(Str(doc.observed.project))
    ensures h(g + 4).timelineName == Returned(Str(doc.observed.timeline))
    ensures h(g + 5).rendering == Returned(Bool(false))
    ensures doc.observed == expected
  {
    hide Collect, ReadsAs, Agree, StatusesRead, IdentifiedCount, WithId, AllFinite, T.Strip;
    CallsPerId(doc.queue);
    PublishesIff(h, at, expected, capturedAt, doc);
    assert g in GuardStarts(at, doc.queue);
  }

  /** Two first reads that do not agree stop the run as drift. */
  lemma FirstDriftIsReported(
    h: History, at: nat, expected: Context, capturedAt: string, first: seq<Entry>, second: seq<Entry>)
    requires T.Strip(expected.project) != "" && T.Strip(expected.timeline) != ""
    requires Sees(h, at, expected) && ReadsAs(h(at + 6).jobs, first)
    requires Sees(h, at + 7, expected) && ReadsAs(h(at + 13).jobs, second) && !Agree(first, second)
    ensures Collect(h, at, expected, capturedAt) == Err(RenderQueueDrift)
  {
    hide VerifyContext, Sees, QueueAt, ReadsAs, Agree, SameQueue, T.Blank, T.Strip;
    T.BlankMeansStripsToNothing(expected.project);
    T.BlankMeansStripsToNothing(expected.timeline);
    GuardFromAnswers(h, at, expected);
    GuardFromAnswers(h, at + 7, expected);
    QueueFromAnswer(h, at + 6, first);
    QueueFromAnswer(h, at + 13, second);
    SameQueueAgrees(first, second);
  }

  /** A third read that does not agree with the first two stops it as drift after the status reads. */
  lemma LastDriftIsReported(
    h: History, at: nat, expected: Context, capturedAt: string, first: seq<Entry>, queue: seq<Entry>,
    statuses: seq<Option<string>>, third: seq<Entry>)
    requires T.Strip(expected.project) != "" && T.Strip(expected.timeline) != ""
    requires forall g | g in GuardStarts(at, queue) :: Sees(h, g, expected)
    requires ReadsAs(h(at + 6).jobs, first) && ReadsAs(h(at + 13).jobs, queue) && Agree(first, queue)
    requires StatusesRead(h, at + 20, queue, statuses)
    requires ReadsAs(h(at + 26 + WithId(queue)).jobs, third) && !Agree(third, queue)
    ensures Collect(h, at, expected, capturedAt) == Err(PostStatusQueueDrift)
  {
    hide VerifyContext, Sees, QueueAt, ReadsAs, Agree, SameQueue, StatusesRead, ReadStatuses, WithId, IdentifiedCount,
      T.Blank, T.Strip, PublishableQueue;
    T.BlankMeansStripsToNothing(expected.project);
    T.BlankMeansStripsToNothing(expected.timeline);
    forall g | g in GuardStarts(at, queue) ensures VerifyContext(h, g, expected).Ok? { GuardFromAnswers(h, g, expected); }
    CallsPerId(queue);
    QueueFromAnswer(h, at + 6, first);
    QueueFromAnswer(h, at + 13, queue);
    QueueFromAnswer(h, at + 26 + WithId(queue), third);
    SameQueueAgrees(first, queue);
    SameQueueAgrees(third, queue);
    StatusesFromAnswers(h, at + 20, queue, statuses);
  }
}
