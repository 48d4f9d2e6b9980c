/** Normalising one `GetRenderJobList()` answer: job-ID aliases, entries and the whole queue. */
module RenderQueueEntries {
  import opened PythonValues
  import T = Text

  /** The error codes the probe stops with. */
  datatype Code =
    | AccessorCallFailed
    | ProjectManagerMissing
    | CurrentProjectMissing
    | CurrentTimelineMissing
    | InvalidString
    | InvalidCollection
    | InvalidExpectedContext
    | ProjectIdentityMismatch
    | TimelineIdentityMismatch
    | InvalidRenderingState
    | RenderingActive
    | QueueEntryMalformed
    | QueueEntryKeyNotString
    | QueueEntryJobIdMalformed
    | QueueEntryJobIdConflicting
    | QueueEntryFieldsUnrepresentable
    | DuplicateRenderQueueJobId
    | RenderQueueDrift
    | PostStatusQueueDrift
    | RenderJobStatusMissing
    | RenderJobStatusInvalid
    | RenderJobStatusFieldMissing
    | RenderJobStatusFieldInvalid
    | NonFiniteFloatInEvidence

  datatype Result<+R> = Ok(value: R) | Err(code: Code) {
    predicate IsFailure() { Err? }
    function PropagateFailure<U>(): Result<U>
      requires Err?
    {
      Err(code)
    }
    function Extract(): R
      requires Ok?
    {
      value
    }
  }

  // ---- _job_id_key_status ----

  const JOB_ID_ALIASES: seq<string> := ["JobId", "JobID", "jobId", "job_id", "Id", "ID", "id"]

  /** What one alias contributes. Bools, None and blank text are passed over in silence. */
  datatype Reading = Skipped | Usable(id: string) | Unusable

  function ReadAlias(fields: map<Key, Value>, alias: string): Reading {
    if Text(alias) !in fields then Skipped
    else
      match fields[Text(alias)]
      case Null => Skipped
      case Bool(_) => Skipped
      case Str(s) => if T.Blank(s) then Skipped else Usable(T.Strip(s))
      case Int(i) => Usable(T.Strip(T.IntText(i)))
      case _ => Unusable
  }

  datatype IdStatus = Identified(id: string) | Unidentified | MalformedId | ConflictingIds

  ghost predicate SomeAliasUnusable(fields: map<Key, Value>) {
    exists a :: a in JOB_ID_ALIASES && ReadAlias(fields, a).Unusable?
  }

  ghost predicate SomeAliasReads(fields: map<Key, Value>, id: string) {
    exists a :: a in JOB_ID_ALIASES && ReadAlias(fields, a) == Usable(id)
  }

  /** When a status is the right one for an entry, whatever order the aliases are looked at. */
  ghost predicate IsIdStatus(fields: map<Key, Value>, status: IdStatus) {
    match status
    case MalformedId => SomeAliasUnusable(fields)
    case Unidentified =>
      !SomeAliasUnusable(fields) && forall id :: !SomeAliasReads(fields, id)
    case Identified(id) =>
      && !SomeAliasUnusable(fields)
      && SomeAliasReads(fields, id)
      && forall other :: SomeAliasReads(fields, other) ==> other == id
    case ConflictingIds =>
      && !SomeAliasUnusable(fields)
      && exists x, y :: x != y && SomeAliasReads(fields, x) && SomeAliasReads(fields, y)
  }

  /** The same classification computed alias by alias, as the scan does. */
  function ScanAliases(fields: map<Key, Value>, aliases: seq<string>): (bool, set<string>) {
    if aliases == [] then (false, {})
    else
      var (bad, ids) := ScanAliases(fields, aliases[..|aliases| - 1]);
      match ReadAlias(fields, aliases[|aliases| - 1])
      case Skipped => (bad, ids)
      case Usable(id) => (bad, ids + {id})
      case Unusable => (true, ids)
  }

  function StatusFromScan(bad: bool, ids: set<string>): IdStatus {
    if bad then MalformedId
    else if ids == {} then Unidentified
    else if |ids| > 1 then ConflictingIds
    else
      SingletonHasOneMember(ids);
      var id :| id in ids;
      Identified(id)
  }

  lemma SingletonHasOneMember(ids: set<string>)
    requires ids != {} && |ids| <= 1
    ensures forall x, y | x in ids && y in ids :: x == y
  {
    forall x, y | x in ids && y in ids ensures x == y {
      SubsetIsNoLarger({x, y}, ids);
    }
  }

  lemma {:induction false} SubsetIsNoLarger(a: set<string>, b: set<string>)
    requires a <= b
    ensures |a| <= |b|
  {
    if a != {} {
      var x :| x in a;
      SubsetIsNoLarger(a - {x}, b - {x});
    }
  }

  function StatusOf(fields: map<Key, Value>): IdStatus {
    var (bad, ids) := ScanAliases(fields, JOB_ID_ALIASES);
    StatusFromScan(bad, ids)
  }

  lemma {:induction false} ScanFindsUnusable(fields: map<Key, Value>, aliases: seq<string>)
    ensures ScanAliases(fields, aliases).0 <==> exists a :: a in aliases && ReadAlias(fields, a).Unusable?
  {
    hide ReadAlias;
    if aliases != [] {
      var front, last := aliases[..|aliases| - 1], aliases[|aliases| - 1];
      ScanFindsUnusable(fields, front);
      assert forall a :: a in aliases <==> a in front || a == last;
    }
  }

  lemma {:induction false} ScanFindsUsable(fields: map<Key, Value>, aliases: seq<string>, id: string)
    ensures id in ScanAliases(fields, aliases).1 <==> exists a :: a in aliases && ReadAlias(fields, a) == Usable(id)
  {
    hide ReadAlias;
    if aliases != [] {
      var front, last := aliases[..|aliases| - 1], aliases[|aliases| - 1];
      ScanFindsUsable(fields, front, id);
      assert forall a :: a in aliases <==> a in front || a == last;
    }
  }

  /** The scan finds the one right status. */
  lemma StatusIsRight(fields: map<Key, Value>)
    ensures IsIdStatus(fields, StatusOf(fields))
  {
    hide ReadAlias, ScanAliases;
    ScanFindsUnusable(fields, JOB_ID_ALIASES);
    var (bad, ids) := ScanAliases(fields, JOB_ID_ALIASES);
    forall id ensures id in ids <==> SomeAliasReads(fields, id) {
      ScanFindsUsable(fields, JOB_ID_ALIASES, id);
    }
    if !bad && |ids| > 1 {
      var x :| x in ids;
      assert |ids - {x}| > 0;
      var y :| y in ids - {x};
      assert x != y && SomeAliasReads(fields, x) && SomeAliasReads(fields, y);
    } else if !bad && ids != {} {
      SingletonHasOneMember(ids);
    }
  }

  lemma StatusIsUnique(fields: map<Key, Value>, s: IdStatus, t: IdStatus)
    requires IsIdStatus(fields, s) && IsIdStatus(fields, t)
    ensures s == t
  {
  }

  /** The loop over the aliases, collecting unusable keys and normalised values. */
  method JobIdKeyStatus(fields: map<Key, Value>) returns (status: IdStatus)
    ensures status == StatusOf(fields)
    ensures IsIdStatus(fields, status)
  {
    hide ReadAlias;
    var malformed: seq<string> := [];
    var byValue: map<string, seq<string>> := map[];
    for n := 0 to |JOB_ID_ALIASES|
      invariant (malformed != []) == ScanAliases(fields, JOB_ID_ALIASES[..n]).0
      invariant byValue.Keys == ScanAliases(fields, JOB_ID_ALIASES[..n]).1
    {
      var alias := JOB_ID_ALIASES[n];
      assert JOB_ID_ALIASES[..n + 1][..n] == JOB_ID_ALIASES[..n];
      match ReadAlias(fields, alias)
      case Skipped =>
      case Unusable =>
        malformed := malformed + [alias];
      case Usable(id) =>
        byValue := byValue[id := (if id in byValue then byValue[id] else []) + [alias]];
    }
    assert JOB_ID_ALIASES[..|JOB_ID_ALIASES|] == JOB_ID_ALIASES;
    status := StatusFromScan(malformed != [], byValue.Keys);
    StatusIsRight(fields);
  }

  /** The key fact behind the offline validator: an entry and its normalised fields are
      classified alike. */
  lemma StatusSurvivesNormalizing(entries: map<Key, Value>)
    requires Normalize(Dict(entries)).Some?
    ensures StatusOf(Normalize(Dict(entries)).value.entries) == StatusOf(entries)
  {
    var fields := Normalize(Dict(entries)).value.entries;
    forall a | a in JOB_ID_ALIASES
      ensures ReadAlias(fields, a) == ReadAlias(entries, a)
    {
      if Text(a) in entries {
        assert fields[Text(a)] == Normalize(entries[Text(a)]).value;
      }
    }
    StatusIsRight(entries);
    StatusIsRight(fields);
    forall id ensures SomeAliasReads(fields, id) <==> SomeAliasReads(entries, id) {}
    StatusIsUnique(entries, StatusOf(entries), StatusOf(fields));
  }

  lemma IdentifiedIdIsTrimmed(fields: map<Key, Value>)
    requires StatusOf(fields).Identified?
    ensures !T.Blank(StatusOf(fields).id)
  {
    StatusIsRight(fields);
    var id := StatusOf(fields).id;
    var a :| a in JOB_ID_ALIASES && ReadAlias(fields, a) == Usable(id);
    match fields[Text(a)]
    case Str(s) => T.StripIsTrimmed(s);
    case Int(i) => T.StripOfTrimmed(T.IntText(i));
  }

  // ---- normalize_queue_entry ----

  datatype Entry = Entry(index: nat, jobId: Option<string>, fields: map<Key, Value>)

  function NormalizeEntry(raw: Value, index: nat): Result<Entry> {
    if !raw.Dict? then Err(QueueEntryMalformed)
    else if exists k | k in raw.entries :: !k.Text? then Err(QueueEntryKeyNotString)
    else
      match StatusOf(raw.entries)
      case MalformedId => Err(QueueEntryJobIdMalformed)
      case ConflictingIds => Err(QueueEntryJobIdConflicting)
      case Identified(id) => FinishEntry(raw, index, Some(id))
      case Unidentified => FinishEntry(raw, index, None)
  }

  function FinishEntry(raw: Value, index: nat, jobId: Option<string>): Result<Entry>
    requires raw.Dict?
  {
    var fields := Normalize(raw);
    if fields.None? then Err(QueueEntryFieldsUnrepresentable)
    else Ok(Entry(index, jobId, fields.value.entries))
  }

  // ---- normalize_render_queue ----

  function RequireCollection(raw: Value): Result<seq<Value>> {
    match raw
    case Null => Ok([])
    case Bool(b) => if b then Err(InvalidCollection) else Ok([])
    case List(items) => Ok(items)
    case Tuple(items) => Ok(items)
    case _ => Err(InvalidCollection)
  }

  /** Every entry normalised, or the error of the first bad one. */
  function NormalizeEntries(items: seq<Value>): Result<seq<Entry>> {
    if forall i {:trigger NormalizeEntry(items[i], i)} | 0 <= i < |items| :: NormalizeEntry(items[i], i).Ok?
    then Ok(seq(|items|, i requires 0 <= i < |items| => NormalizeEntry(items[i], i).value))
    else Err(FirstEntryError(items, 0))
  }

  function FirstEntryError(items: seq<Value>, from: nat): Code
    requires exists i :: from <= i < |items| && NormalizeEntry(items[i], i).Err?
    decreases |items| - from
  {
    var first := NormalizeEntry(items[from], from);
    if first.Err? then first.code else FirstEntryError(items, from + 1)
  }

  predicate DistinctIds(entries: seq<Entry>) {
    forall i, j | 0 <= i < j < |entries| ::
      entries[i].jobId.Some? ==> entries[i].jobId != entries[j].jobId
  }

  function NormalizeQueue(raw: Value): Result<seq<Entry>> {
    var items :- RequireCollection(raw);
    var entries :- NormalizeEntries(items);
    if DistinctIds(entries) then Ok(entries) else Err(DuplicateRenderQueueJobId)
  }

  /** The two loops of the queue normaliser: one entry at a time, then the table of seen IDs. */
  method NormalizeRenderQueue(raw: Value) returns (r: Result<seq<Entry>>)
    ensures r == NormalizeQueue(raw)
  {
    hide NormalizeEntry;
    var items :- RequireCollection(raw);
    var entries: seq<Entry> := [];
    for i := 0 to |items|
      invariant |entries| == i
      invariant forall k | 0 <= k < i :: NormalizeEntry(items[k], k) == Ok(entries[k])
    {
      var next := NormalizeEntry(items[i], i);
      if next.Err? {
        FirstErrorIs(items, 0, i);
        return Err(next.code);
      }
      entries := entries + [next.value];
    }
    assert NormalizeEntries(items).value == entries;
    var distinct := IdsAreDistinct(entries);
    return if distinct then Ok(entries) else Err(DuplicateRenderQueueJobId);
  }

  method IdsAreDistinct(entries: seq<Entry>) returns (distinct: bool)
    ensures distinct == DistinctIds(entries)
  {
    var seen: map<string, nat> := map[];
    for i := 0 to |entries|
      invariant DistinctIds(entries[..i])
      invariant forall id :: id in seen <==> exists j | 0 <= j < i :: entries[j].jobId == Some(id)
    {
      assert entries[..i + 1] == entries[..i] + [entries[i]];
      if entries[i].jobId.Some? {
        if entries[i].jobId.value in seen {
          return false;
        }
        seen := seen[entries[i].jobId.value := i];
      }
    }
    assert entries[..|entries|] == entries;
    return true;
  }

  lemma {:induction false} FirstErrorIs(items: seq<Value>, from: nat, i: nat)
    requires from <= i < |items| && NormalizeEntry(items[i], i).Err?
    requires forall k | from <= k < i :: NormalizeEntry(items[k], k).Ok?
    ensures FirstEntryError(items, from) == NormalizeEntry(items[i], i).code
    decreases i - from
  {
    hide NormalizeEntry;
    if from < i { FirstErrorIs(items, from + 1, i); }
  }

  /** What a normalised queue guarantees to everything downstream. */
  ghost predicate WellFormedQueue(entries: seq<Entry>) {
    && DistinctIds(entries)
    && forall i | 0 <= i < |entries| :: WellFormedEntry(entries[i], i)
  }

  ghost predicate WellFormedEntry(e: Entry, i: nat) {
    && e.index == i
    && IsJson(Dict(e.fields))
    && StatusOf(e.fields) == (if e.jobId.Some? then Identified(e.jobId.value) else Unidentified)
    && (e.jobId.Some? ==> !T.Blank(e.jobId.value))
  }

  lemma QueueIsWellFormed(raw: Value)
    requires NormalizeQueue(raw).Ok?
    ensures WellFormedQueue(NormalizeQueue(raw).value)
  {
    var items := RequireCollection(raw).value;
    var entries := NormalizeQueue(raw).value;
    forall i | 0 <= i < |entries|
      ensures WellFormedEntry(entries[i], i)
    {
      assert NormalizeEntry(items[i], i) == Ok(entries[i]);
      NormalizeYieldsJson(items[i]);
      StatusSurvivesNormalizing(items[i].entries);
      if entries[i].jobId.Some? { IdentifiedIdIsTrimmed(entries[i].fields); }
    }
  }

  /** Conversely, well-formed entries come back unchanged when Resolve lists their fields. */
  lemma WellFormedQueueIsAFixpoint(entries: seq<Entry>)
    requires WellFormedQueue(entries)
    ensures NormalizeQueue(RawQueue(entries)) == Ok(entries)
  {
    var items := RawQueue(entries).items;
    forall i | 0 <= i < |entries|
      ensures NormalizeEntry(items[i], i) == Ok(entries[i])
    {
      assert WellFormedEntry(entries[i], i);
      NormalizeOfJson(items[i]);
    }
    hide NormalizeEntry;
    assert NormalizeEntries(items).value == entries;
  }

  function RawQueue(entries: seq<Entry>): Value {
    List(seq(|entries|, i requires 0 <= i < |entries| => Dict(entries[i].fields)))
  }

  // ---- comparing two reads of the queue ----

  /** `pre["render_queue"] != post["render_queue"]`, negated. */
  predicate SameEntry(a: Entry, b: Entry) {
    a.index == b.index && a.jobId == b.jobId && Same(Dict(a.fields), Dict(b.fields))
  }

  predicate SameQueue(a: seq<Entry>, b: seq<Entry>) {
    |a| == |b| && forall i {:trigger SameEntry(a[i], b[i])} | 0 <= i < |a| :: SameEntry(a[i], b[i])
  }

  lemma SameQueueIsSymmetric(a: seq<Entry>, b: seq<Entry>)
    requires SameQueue(a, b)
    ensures SameQueue(b, a)
  {
    forall i | 0 <= i < |a| ensures SameEntry(b[i], a[i]) {
      assert SameEntry(a[i], b[i]);
      SameIsSymmetric(Dict(a[i].fields), Dict(b[i].fields));
    }
  }

  lemma SameQueueIsTransitive(a: seq<Entry>, b: seq<Entry>, c: seq<Entry>)
    requires SameQueue(a, b) && SameQueue(b, c)
    ensures SameQueue(a, c)
  {
    forall i | 0 <= i < |a| ensures SameEntry(a[i], c[i]) {
      assert SameEntry(a[i], b[i]) && SameEntry(b[i], c[i]);
      SameIsTransitive(Dict(a[i].fields), Dict(b[i].fields), Dict(c[i].fields));
    }
  }
}
