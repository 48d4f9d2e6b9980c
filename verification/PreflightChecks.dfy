/** `evaluate_offline_preflight`: the thirteen checks on a snapshot document. */
module PreflightChecks {
  import opened PythonValues
  import T = Text

  const PROJECT_NAME := "RLC-E9901_MASTER"
  const TIMELINE_NAME := "RLC-E9901_TIMELINE"
  const RESOLVE_VERSION := "21.0.3.7"
  const PRESET_NAME := "Redline Broadcast Master"

  /** `v.get(key)`, with None for anything that is no dict. */
  function Get(v: Value, key: string): Value {
    if v.Dict? && Text(key) in v.entries then v.entries[Text(key)] else Null
  }

  /** `_guard`: a section that is no dict reads as an empty one. */
  function Section(snapshot: Value, key: string): Value {
    if Get(snapshot, key).Dict? then Get(snapshot, key) else Dict(map[])
  }

  predicate Observed(v: Value) {
    v.Dict? && Get(v, "status") == Str("observed")
  }

  predicate CountIs(v: Value, n: int) {
    v == Int(n)
  }

  const REQUIRED_FIELDS: set<string> :=
    {"expected_context", "session", "project_manager", "project", "target_timeline", "media_pool", "pre_guard", "post_guard"}

  predicate CaptureComplete(snapshot: Value) {
    && snapshot.Dict? && Same(Get(snapshot, "schema_version"), Str("1.0")) && Get(snapshot, "snapshot_complete") == Bool(true)
    && forall k | k in REQUIRED_FIELDS :: Text(k) in snapshot.entries
  }

  predicate ExpectedContext(snapshot: Value) {
    Same(Get(snapshot, "expected_context"), Dict(map[Text("project") := Str(PROJECT_NAME), Text("timeline") := Str(TIMELINE_NAME)]))
  }

  predicate ActualProjectIdentity(snapshot: Value) {
    Same(Get(Get(snapshot, "project"), "name"), Str(PROJECT_NAME))
  }

  predicate ActualTimelineIdentity(snapshot: Value) {
    Same(Get(Get(snapshot, "target_timeline"), "name"), Str(TIMELINE_NAME))
  }

  predicate GuardIdentity(guard: Value) {
    && Same(Get(guard, "project_name"), Str(PROJECT_NAME))
    && Same(Get(guard, "current_timeline_name"), Str(TIMELINE_NAME))
    && Same(Get(guard, "target_timeline_name"), Str(TIMELINE_NAME))
  }

  predicate RenderingInactive(snapshot: Value) {
    && Get(Section(snapshot, "pre_guard"), "rendering_in_progress") == Bool(false)
    && Get(Section(snapshot, "post_guard"), "rendering_in_progress") == Bool(false)
  }

  predicate QueueEmpty(snapshot: Value) {
    && CountIs(Get(Section(snapshot, "pre_guard"), "queue_count"), 0)
    && CountIs(Get(Section(snapshot, "post_guard"), "queue_count"), 0)
  }

  predicate RenderQueueConsistency(snapshot: Value) {
    var pre, post, queue := Section(snapshot, "pre_guard"), Section(snapshot, "post_guard"), Get(Get(snapshot, "project"), "render_queue");
    && queue.Dict? && CountIs(Get(queue, "count"), 0) && Get(queue, "items") == List([])
    && CountIs(Get(pre, "queue_count"), 0) && CountIs(Get(post, "queue_count"), 0)
    && Get(pre, "queue_fingerprint") == List([]) && Get(post, "queue_fingerprint") == List([])
  }

  predicate NoGuardDrift(snapshot: Value) {
    Same(Section(snapshot, "pre_guard"), Section(snapshot, "post_guard"))
  }

  predicate NonBlankString(v: Value) {
    v.Str? && T.Strip(v.s) != ""
  }

  predicate ProductObserved(snapshot: Value) {
    var product := Get(Get(snapshot, "session"), "product_name");
    Observed(product) && NonBlankString(Get(product, "value"))
  }

  // ---- versions ----

  /** What an accessor says of the version: nothing, something malformed, or a version. */
  datatype VersionReading = NotObserved | Malformed | Version(text: string)

  function ReadVersionString(observation: Value): VersionReading {
    if !Observed(observation) then NotObserved
    else if NonBlankString(Get(observation, "value")) then Version(T.Strip(Get(observation, "value").s))
    else Malformed
  }

  predicate IsCount(v: Value) {
    v.Int? && v.i >= 0
  }

  function ReadVersionList(observation: Value): VersionReading {
    if !Observed(observation) then NotObserved
    else
      match Get(observation, "value")
      case List(parts) =>
        if |parts| == 5 && (forall i | 0 <= i < 4 :: IsCount(parts[i])) && parts[4] == Str("")
        then Version(T.IntText(parts[0].i) + "." + T.IntText(parts[1].i) + "." + T.IntText(parts[2].i) + "." + T.IntText(parts[3].i))
        else Malformed
      case _ => Malformed
  }

  /** At least one accessor was observed, and each that was says the reviewed version. */
  predicate VersionsAgree(fromString: VersionReading, fromList: VersionReading) {
    && fromString != Malformed && fromList != Malformed
    && (fromString.Version? || fromList.Version?)
    && (fromString.Version? && fromList.Version? ==> fromString == fromList)
    && (if fromString.Version? then fromString.text == RESOLVE_VERSION else fromList.text == RESOLVE_VERSION)
  }

  predicate VersionMatches(snapshot: Value) {
    var session := Get(snapshot, "session");
    session.Dict? && VersionsAgree(ReadVersionString(Get(session, "version_string")), ReadVersionList(Get(session, "version")))
  }

  // ---- presets ----

  /** `_extract_preset_names`; None for any other shape. */
  function PresetNames(v: Value): Option<seq<string>> {
    match v
    case List(items) =>
      if forall i | 0 <= i < |items| :: items[i].Str?
      then Some(seq(|items|, i requires 0 <= i < |items| => items[i].s))
      else if forall i | 0 <= i < |items| :: PresetName(items[i]).Some?
      then Some(seq(|items|, i requires 0 <= i < |items| => PresetName(items[i]).value))
      else None
    case _ => None
  }

  /** `item.get("PresetName") or item.get("Name")`, when that is a string. */
  function PresetName(item: Value): Option<string> {
    if !item.Dict? then None
    else
      var name := if Truthy(Get(item, "PresetName")) then Get(item, "PresetName") else Get(item, "Name");
      if name.Str? then Some(name.s) else None
  }

  predicate PresetObserved(snapshot: Value) {
    var presets := Get(Get(snapshot, "project"), "render_presets");
    Observed(presets) && PresetNames(Get(presets, "value")).Some? && PRESET_NAME in PresetNames(Get(presets, "value")).value
  }

  // ---- video items ----

  function VideoGroup(snapshot: Value): Value {
    Get(Get(Get(snapshot, "target_timeline"), "tracks"), "video")
  }

  predicate TrackWellFormed(track: Value) {
    && track.Dict? && IsCount(Get(track, "item_count"))
    && (Get(track, "items") != Null ==> Get(track, "items").List? && |Get(track, "items").items| == Get(track, "item_count").i)
  }

  function TotalItems(tracks: seq<Value>): int
    requires forall i | 0 <= i < |tracks| :: TrackWellFormed(tracks[i])
  {
    if tracks == [] then 0
    else
      var last := tracks[|tracks| - 1];
      assert TrackWellFormed(last);
      TotalItems(tracks[..|tracks| - 1]) + Get(last, "item_count").i
  }

  predicate GroupWellFormed(group: Value) {
    && Observed(group) && Get(group, "tracks").List?
    && Observed(Get(group, "count")) && CountIs(Get(Get(group, "count"), "value"), |Get(group, "tracks").items|)
    && forall i | 0 <= i < |Get(group, "tracks").items| :: TrackWellFormed(Get(group, "tracks").items[i])
  }

  predicate VideoItemsPositive(snapshot: Value) {
    GroupWellFormed(VideoGroup(snapshot)) && TotalItems(Get(VideoGroup(snapshot), "tracks").items) > 0
  }

  /** The check as it runs, adding up the item counts and leaving at the first malformed track. */
  method CheckVideoItemCountPositive(snapshot: Value) returns (passed: bool)
    ensures passed == VideoItemsPositive(snapshot)
  {
    var group := VideoGroup(snapshot);
    if !Observed(group) { return false; }
    var trackList := Get(group, "tracks");
    if !trackList.List? { return false; }
    var count := Get(group, "count");
    if !Observed(count) { return false; }
    var declared := Get(count, "value");
    if !IsCount(declared) || declared.i != |trackList.items| { return false; }
    var total := 0;
    for n := 0 to |trackList.items|
      invariant forall i | 0 <= i < n :: TrackWellFormed(trackList.items[i])
      invariant total == TotalItems(trackList.items[..n])
    {
      var track := trackList.items[n];
      if !TrackWellFormed(track) { return false; }
      assert trackList.items[..n + 1][..n] == trackList.items[..n];
      total := total + Get(track, "item_count").i;
    }
    assert trackList.items[..|trackList.items|] == trackList.items;
    return total > 0;
  }

  // ---- the verdict ----

  datatype Verdict = NotEvaluated | Passed | Failed

  function EvaluateOfflinePreflight(snapshot: Value): Verdict {
    if !CaptureComplete(snapshot) then NotEvaluated
    else if ExpectedContext(snapshot) && ActualProjectIdentity(snapshot) && ActualTimelineIdentity(snapshot)
            && GuardIdentity(Section(snapshot, "pre_guard")) && GuardIdentity(Section(snapshot, "post_guard"))
            && RenderingInactive(snapshot) && QueueEmpty(snapshot) && RenderQueueConsistency(snapshot) && NoGuardDrift(snapshot)
            && ProductObserved(snapshot) && VersionMatches(snapshot) && PresetObserved(snapshot) && VideoItemsPositive(snapshot)
    then Passed
    else Failed
  }
}
