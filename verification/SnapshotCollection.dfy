/** `collect_snapshot`: the live snapshot of project and timeline, against any Resolve answers. */
module SnapshotCollection {
  import opened PythonValues
  import T = Text

  /** How one accessor call goes. */
  datatype Answer = Absent | NotCallable | LookupFails | CallFails | Returns(value: Value)

  function TypeName(v: Value): string {
    match v
    case Null => "NoneType"
    case Bool(_) => "bool"
    case Int(_) => "int"
    case Real(_) => "float"
    case Str(_) => "str"
    case List(_) => "list"
    case Tuple(_) => "tuple"
    case Dict(_) => "dict"
    case Handle(_) => "object"
  }

  // ---- observations ----

  function Observation(source: string, status: string, valueType: Value, value: Value, error: Value): Value {
    Dict(map[Text("source_method") := Str(source), Text("status") := Str(status), Text("value_type") := valueType,
             Text("value") := value, Text("error") := error])
  }

  function Failure(kind: string): Value {
    Dict(map[Text("type") := Str(kind)])
  }

  /** `observe_optional`. */
  function Observe(source: string, a: Answer): Value {
    match a
    case Absent => Observation(source, "unavailable", Null, Null, Failure("AccessorUnavailable"))
    case NotCallable => Observation(source, "unavailable", Null, Null, Failure("AccessorUnavailable"))
    case LookupFails => Observation(source, "error", Null, Null, Failure("LookupRaised"))
    case CallFails => Observation(source, "error", Null, Null, Failure("CallRaised"))
    case Returns(v) =>
      match Normalize(v)
      case None => Observation(source, "error", Str(TypeName(v)), Null, Failure("UnsupportedEvidenceType"))
      case Some(n) => Observation(source, "observed", Str(TypeName(v)), n, Null)
  }

  /** `call_required`. */
  function Required(a: Answer): Option<Value> {
    if a.Returns? then Some(a.value) else None
  }

  function RequiredName(a: Answer): Option<string> {
    match Required(a)
    case Some(Str(s)) => if T.Strip(s) == "" then None else Some(s)
    case _ => None
  }

  function RequiredCount(a: Answer): Option<nat> {
    match Required(a)
    case Some(Int(i)) => if i < 0 then None else Some(i)
    case _ => None
  }

  /** `require_collection(..., false_means_empty=True)`. */
  function RequiredCollection(a: Answer): Option<seq<Value>> {
    match Required(a)
    case Some(Null) => Some([])
    case Some(Bool(b)) => if b then None else Some([])
    case Some(List(items)) => Some(items)
    case Some(Tuple(items)) => Some(items)
    case _ => None
  }

  // ---- session and guard ----

  datatype SessionAnswers = SessionAnswers(product: Answer, version: Answer, versionString: Answer)

  predicate UsableVersion(a: Answer) {
    a.Returns? && Normalize(a.value).Some? && Normalize(a.value).value !in {Null, Str(""), List([])}
  }

  function SessionDocument(s: SessionAnswers): Value {
    Dict(map[Text("product_name") := Observe("GetProductName", s.product), Text("version") := Observe("GetVersion", s.version),
             Text("version_string") := Observe("GetVersionString", s.versionString)])
  }

  function CaptureSession(s: SessionAnswers): Option<Value> {
    if UsableVersion(s.versionString) || UsableVersion(s.version)
    then Some(SessionDocument(s)) else None
  }

  datatype GuardAnswers = GuardAnswers(
    projectName: Answer, timelineCount: Answer, current: Answer, currentName: Answer, targetName: Answer,
    rendering: Answer, queue: Answer)

  datatype Guard = Guard(
    projectName: string, timelineCount: nat, currentName: string, targetName: string, rendering: bool,
    queue: seq<Value>)

  function CaptureGuardState(g: GuardAnswers): Option<Guard> {
    match (RequiredName(g.projectName), RequiredCount(g.timelineCount), Required(g.current), RequiredName(g.currentName),
           RequiredName(g.targetName), Required(g.rendering), RequiredCollection(g.queue))
    case (Some(project), Some(count), Some(current), Some(currentName), Some(targetName), Some(Bool(rendering)), Some(queue)) =>
      if Truthy(current) then Some(Guard(project, count, currentName, targetName, rendering, queue)) else None
    case _ => None
  }

  datatype Context = Context(project: string, timeline: string)

  /** `enforce_safe_guard_state`. */
  predicate IsSafe(g: Guard, context: Context) {
    && g.projectName == context.project && g.currentName == context.timeline && g.targetName == context.timeline
    && !g.rendering && |g.queue| == 0
  }

  /** The fingerprint of a queued job is left empty: a guard with a job in its queue is never safe. */
  function BlankEntries(n: nat): seq<Value> {
    seq(n, i => Dict(map[]))
  }

  function GuardDocument(g: Guard): Value {
    Dict(map[Text("project_name") := Str(g.projectName), Text("timeline_count") := Int(g.timelineCount),
             Text("current_timeline_name") := Str(g.currentName), Text("target_timeline_name") := Str(g.targetName),
             Text("rendering_in_progress") := Bool(g.rendering), Text("queue_count") := Int(|g.queue|),
             Text("queue_fingerprint") := List(BlankEntries(|g.queue|))])
  }

  // ---- tracks ----

  /** What the track accessors of one kind answer; captured is the evidence of an item of a track. */
  datatype TrackAnswers = TrackAnswers(count: Answer, items: nat -> Answer, captured: (nat, nat) -> Value)

  /** `capture_timeline_item` on each; None at an unusable handle. */
  function CaptureItems(t: TrackAnswers, track: nat): Option<seq<Value>> {
    match RequiredCollection(t.items(track))
    case None => None
    case Some(items) =>
      if forall i | 0 <= i < |items| :: Truthy(items[i])
      then Some(seq(|items|, i requires 0 <= i < |items| => t.captured(track, i))) else None
  }

  function TrackDocument(track: nat, items: seq<Value>): Value {
    Dict(map[Text("track_index") := Int(track), Text("item_count") := Int(|items|), Text("items") := List(items)])
  }

  /** The evidence of tracks 1 to n. */
  function CaptureTracks(t: TrackAnswers, n: nat): Option<seq<seq<Value>>> {
    if n == 0 then Some([])
    else
      match (CaptureTracks(t, n - 1), CaptureItems(t, n))
      case (Some(front), Some(last)) => Some(front + [last])
      case _ => None
  }

  function TrackDocuments(tracks: seq<seq<Value>>): seq<Value> {
    seq(|tracks|, i requires 0 <= i < |tracks| => TrackDocument(i + 1, tracks[i]))
  }

  function GroupDocument(kind: string, status: string, count: Value, tracks: seq<Value>): Value {
    Dict(map[Text("status") := Str(status), Text("track_type") := Str(kind), Text("count") := count, Text("tracks") := List(tracks)])
  }

  /** Whether the observed count can be used; an observed count that is no count raises. */
  function ObservedCount(a: Answer): Option<Option<nat>> {
    if !a.Returns? || Normalize(a.value).None? then Some(None)
    else
      match Normalize(a.value).value
      case Int(i) => if i < 0 then None else Some(Some(i))
      case _ => None
  }

  function CaptureTrackGroup(kind: string, t: TrackAnswers, required: bool): Option<Value> {
    var count := Observe("GetTrackCount", t.count);
    match ObservedCount(t.count)
    case None => None
    case Some(None) => if required then None else Some(GroupDocument(kind, "unavailable", count, []))
    case Some(Some(n)) =>
      match CaptureTracks(t, n)
      case None => None
      case Some(tracks) => Some(GroupDocument(kind, "observed", count, TrackDocuments(tracks)))
  }

  /** The loops over tracks and items as they run. */
  method CaptureTrackGroupByLoop(kind: string, t: TrackAnswers, required: bool) returns (r: Option<Value>)
    ensures r == CaptureTrackGroup(kind, t, required)
  {
    hide Observe;
    var count := Observe("GetTrackCount", t.count);
    var declared := ObservedCount(t.count);
    if declared.None? { return None; }
    if declared.value.None? {
      return if required then None else Some(GroupDocument(kind, "unavailable", count, []));
    }
    var tracks: seq<Value> := [];
    ghost var captured: seq<seq<Value>> := [];
    for index := 1 to declared.value.value + 1
      invariant CaptureTracks(t, index - 1) == Some(captured)
      invariant |captured| == index - 1 && tracks == TrackDocuments(captured)
    {
      var items := RequiredCollection(t.items(index));
      if items.None? {
        FailedTrackFails(t, index, declared.value.value);
        return None;
      }
      var normalized: seq<Value> := [];
      for i := 0 to |items.value|
        invariant forall k | 0 <= k < i :: Truthy(items.value[k])
        invariant normalized == seq(i, k requires 0 <= k < i => t.captured(index, k))
      {
        if !Truthy(items.value[i]) {
          FailedTrackFails(t, index, declared.value.value);
          return None;
        }
        normalized := normalized + [t.captured(index, i)];
      }
      assert CaptureItems(t, index) == Some(normalized);
      tracks := tracks + [TrackDocument(index, normalized)];
      captured := captured + [normalized];
    }
    return Some(GroupDocument(kind, "observed", count, tracks));
  }

  lemma {:induction false} FailedTrackFails(t: TrackAnswers, track: nat, n: nat)
    requires 1 <= track <= n && CaptureItems(t, track).None?
    ensures CaptureTracks(t, n).None?
  {
    hide CaptureItems;
    if track < n { FailedTrackFails(t, track, n - 1); }
  }

  // ---- the snapshot ----

  datatype Answers = Answers(
    session: SessionAnswers, projectManager: Answer, project: Answer, projectName: Answer,
    preGuard: GuardAnswers,
    presetList: Answer, presetNames: Answer,
    audio: TrackAnswers, video: TrackAnswers, subtitle: TrackAnswers,
    timelineName: Answer,
    sessionAgain: SessionAnswers, postGuard: GuardAnswers)

  /** The evidence of the steps that play no part here, or None when one of them raises: finding the
      one expected timeline, settings, render context, the rest of the timeline, the media pool and the
      project manager's listings. */
  datatype Others = Others(
    settings: Value, inventory: Value, renderContext: Value, timeline: map<Key, Value>,
    projectManager: Value, mediaPool: Value, mission: string, capturedAt: string, policy: Value)

  function CaptureRenderPresets(list: Answer, names: Answer): Value {
    if list.Returns? && Normalize(list.value).Some? then Observe("GetRenderPresetList", list)
    else if names.Returns? && Normalize(names.value).Some? then Observe("GetRenderPresetNames", names)
    else Observation("GetRenderPresetList|GetRenderPresetNames", "unavailable", Null, Null, Failure("RenderPresetInventoryUnavailable"))
  }

  function ContextDocument(context: Context): Value {
    Dict(map[Text("project") := Str(context.project), Text("timeline") := Str(context.timeline)])
  }

  function QueueDocument(g: Guard): Value {
    Dict(map[Text("count") := Int(|g.queue|), Text("items") := List(BlankEntries(|g.queue|))])
  }

  const SCHEMA_VERSION := "1.0"

  function ProjectDocument(others: Others, name: string, presets: Value, guard: Guard): Value {
    Dict(map[Text("name") := Str(name), Text("settings") := others.settings, Text("timeline_count") := Int(guard.timelineCount),
             Text("timeline_inventory") := others.inventory, Text("render_presets") := presets,
             Text("render_queue") := QueueDocument(guard), Text("current_render_context") := others.renderContext])
  }

  function TimelineDocument(others: Others, name: string, audio: Value, video: Value, subtitle: Value): Value {
    Dict(others.timeline + map[Text("name") := Str(name),
                               Text("tracks") := Dict(map[Text("audio") := audio, Text("video") := video, Text("subtitle") := subtitle])])
  }

  function Preamble(others: Others): map<Key, Value> {
    map[Text("schema_version") := Str(SCHEMA_VERSION), Text("mission") := Str(others.mission),
        Text("captured_at") := Str(others.capturedAt), Text("snapshot_complete") := Bool(true),
        Text("ambiguity_policy") := others.policy]
  }

  function Sections(
    others: Others, context: Context, session: Value, project: Value, timeline: Value, pre: Value, post: Value): map<Key, Value>
  {
    map[Text("expected_context") := ContextDocument(context), Text("session") := session,
        Text("project_manager") := others.projectManager, Text("project") := project,
        Text("target_timeline") := timeline, Text("media_pool") := others.mediaPool,
        Text("pre_guard") := pre, Text("post_guard") := post]
  }

  function Document(others: Others, context: Context, session: Value, project: Value, timeline: Value, pre: Guard, post: Guard): Value {
    Dict(Preamble(others) + Sections(others, context, session, project, timeline, GuardDocument(pre), GuardDocument(post)))
  }

  predicate TruthyAnswer(a: Answer) {
    a.Returns? && Truthy(a.value)
  }

  /** `collect_snapshot`; None when any step raises. */
  function CollectSnapshot(a: Answers, others: Option<Others>, context: Context): Option<Value> {
    if T.Strip(context.project) == "" || T.Strip(context.timeline) == "" then None
    else
      match (CaptureSession(a.session), RequiredName(a.projectName), others, CaptureGuardState(a.preGuard))
      case (Some(session), Some(name), Some(o), Some(pre)) =>
        if !TruthyAnswer(a.projectManager) || !TruthyAnswer(a.project) || name != context.project || !IsSafe(pre, context) then None
        else
          (match (CaptureTrackGroup("audio", a.audio, true), CaptureTrackGroup("video", a.video, true),
                  CaptureTrackGroup("subtitle", a.subtitle, false), RequiredName(a.timelineName),
                  CaptureSession(a.sessionAgain), CaptureGuardState(a.postGuard))
           case (Some(audio), Some(video), Some(subtitle), Some(timelineName), Some(sessionAgain), Some(post)) =>
             if !IsSafe(post, context) || !Same(GuardDocument(post), GuardDocument(pre)) || !Same(sessionAgain, session) then None
             else
               Normalize(Document(o, context, session,
                                  ProjectDocument(o, name, CaptureRenderPresets(a.presetList, a.presetNames), pre),
                                  TimelineDocument(o, timelineName, audio, video, subtitle), pre, post))
           case _ => None)
      case _ => None
  }
}
