/** When the offline preflight passes a document, whoever wrote it: field by field. */
module PreflightDocument {
  import opened PythonValues
  import A = PreflightAnswers
  import P = PreflightChecks
  import T = Text

  /** What stands under these keys, one inside the other; None for a key that is not there. */
  function Look(doc: Value, path: seq<string>): Value {
    if path == [] then doc
    else if doc.Dict? && Text(path[0]) in doc.entries then Look(doc.entries[Text(path[0])], path[1..])
    else Null
  }

  lemma LookStep(doc: Value, a: string, rest: seq<string>)
    ensures Look(doc, [a] + rest) == Look(P.Get(doc, a), rest)
  {
    assert ([a] + rest)[1..] == rest;
  }

  lemma LookAt(doc: Value, a: string, b: string, c: string)
    ensures Look(doc, [a]) == P.Get(doc, a) && Look(doc, [a, b]) == P.Get(P.Get(doc, a), b)
    ensures Look(doc, [a, b, c]) == P.Get(P.Get(P.Get(doc, a), b), c)
  {
    hide P.Get;
    var x := P.Get(doc, a);
    var y := P.Get(x, b);
    assert [a] == [a] + [] && [a, b] == [a] + [b] && [b] == [b] + [] && [a, b, c] == [a] + [b, c] && [b, c] == [b] + [c] && [c] == [c] + [];
    LookStep(doc, a, []);
    LookStep(doc, a, [b]);
    LookStep(doc, a, [b, c]);
    LookStep(x, b, []);
    LookStep(x, b, [c]);
    LookStep(y, c, []);
  }

  /** A complete snapshot document. */
  predicate IsComplete(doc: Value) {
    && doc.Dict? && Look(doc, ["schema_version"]) == Str("1.0") && Look(doc, ["snapshot_complete"]) == Bool(true)
    && Text("expected_context") in doc.entries && Text("session") in doc.entries && Text("project_manager") in doc.entries
    && Text("project") in doc.entries && Text("target_timeline") in doc.entries && Text("media_pool") in doc.entries
    && Text("pre_guard") in doc.entries && Text("post_guard") in doc.entries
  }

  /** A guard that saw the right project and timeline, nothing rendering and nothing queued. */
  predicate GuardIsGood(doc: Value, guard: string) {
    && Look(doc, [guard, "project_name"]) == Str("RLC-E9901_MASTER")
    && Look(doc, [guard, "current_timeline_name"]) == Str("RLC-E9901_TIMELINE")
    && Look(doc, [guard, "target_timeline_name"]) == Str("RLC-E9901_TIMELINE")
    && Look(doc, [guard, "rendering_in_progress"]) == Bool(false)
    && Look(doc, [guard, "queue_count"]) == Int(0) && Look(doc, [guard, "queue_fingerprint"]) == List([])
  }

  predicate IsObserved(doc: Value, path: seq<string>) {
    Look(Look(doc, path), ["status"]) == Str("observed")
  }

  function ValueAt(doc: Value, path: seq<string>): Value {
    Look(Look(doc, path), ["value"])
  }

  predicate VersionIsGood(doc: Value) {
    && (IsObserved(doc, ["session", "version_string"]) || IsObserved(doc, ["session", "version"]))
    && (IsObserved(doc, ["session", "version_string"]) ==>
          ValueAt(doc, ["session", "version_string"]).Str? && T.Strip(ValueAt(doc, ["session", "version_string"]).s) == "21.0.3.7")
    && (IsObserved(doc, ["session", "version"]) ==>
          ValueAt(doc, ["session", "version"]) == List([Int(21), Int(0), Int(3), Int(7), Str("")]))
  }

  /** A track with as many items as it says, if it lists them. */
  predicate TrackIsGood(track: Value) {
    && track.Dict? && Look(track, ["item_count"]).Int? && Look(track, ["item_count"]).i >= 0
    && (Look(track, ["items"]) == Null
        || (Look(track, ["items"]).List? && |Look(track, ["items"]).items| == Look(track, ["item_count"]).i))
  }

  /** The video tracks were counted, each is good, and one has an item. */
  predicate VideoIsGood(doc: Value) {
    var group := Look(doc, ["target_timeline", "tracks", "video"]);
    && Look(group, ["status"]) == Str("observed") && Look(group, ["tracks"]).List?
    && var tracks := Look(group, ["tracks"]).items;
       && IsObserved(group, ["count"]) && ValueAt(group, ["count"]) == Int(|tracks|)
       && (forall i | 0 <= i < |tracks| :: TrackIsGood(tracks[i]))
       && exists i :: 0 <= i < |tracks| && Look(tracks[i], ["item_count"]) != Int(0)
  }

  ghost predicate DocumentIsGood(doc: Value) {
    && Look(doc, ["expected_context"]) == Dict(map[Text("project") := Str("RLC-E9901_MASTER"), Text("timeline") := Str("RLC-E9901_TIMELINE")])
    && Look(doc, ["project", "name"]) == Str("RLC-E9901_MASTER")
    && Look(doc, ["target_timeline", "name"]) == Str("RLC-E9901_TIMELINE")
    && GuardIsGood(doc, "pre_guard") && GuardIsGood(doc, "post_guard")
    && Same(Look(doc, ["pre_guard"]), Look(doc, ["post_guard"]))
    && Look(doc, ["project", "render_queue", "count"]) == Int(0) && Look(doc, ["project", "render_queue", "items"]) == List([])
    && IsObserved(doc, ["session", "product_name"])
    && ValueAt(doc, ["session", "product_name"]).Str? && T.Strip(ValueAt(doc, ["session", "product_name"]).s) != ""
    && VersionIsGood(doc)
    && IsObserved(doc, ["project", "render_presets"])
    && A.ListsPreset(ValueAt(doc, ["project", "render_presets"]), "Redline Broadcast Master")
    && VideoIsGood(doc)
  }

  lemma CompleteRead(doc: Value)
    ensures P.CaptureComplete(doc) <==> IsComplete(doc)
  {
    LookAt(doc, "schema_version", "", "");
    LookAt(doc, "snapshot_complete", "", "");
    TextIs(Look(doc, ["schema_version"]), "1.0");
  }

  lemma TextIs(v: Value, s: string)
    ensures Same(v, Str(s)) <==> v == Str(s)
  {
  }

  lemma ContextRead(doc: Value)
    ensures P.ExpectedContext(doc) <==>
            Look(doc, ["expected_context"]) == Dict(map[Text("project") := Str("RLC-E9901_MASTER"), Text("timeline") := Str("RLC-E9901_TIMELINE")])
  {
    LookAt(doc, "expected_context", "", "");
    var v := Look(doc, ["expected_context"]);
    if v.Dict? && v.entries.Keys == {Text("project"), Text("timeline")} {
      TextIs(v.entries[Text("project")], "RLC-E9901_MASTER");
      TextIs(v.entries[Text("timeline")], "RLC-E9901_TIMELINE");
      assert v.entries == map[Text("project") := v.entries[Text("project")], Text("timeline") := v.entries[Text("timeline")]];
    }
  }

  lemma GuardRead(doc: Value, guard: string)
    ensures GuardIsGood(doc, guard) <==>
            var g := P.Section(doc, guard);
            && P.GuardIdentity(g) && P.Get(g, "rendering_in_progress") == Bool(false)
            && P.Get(g, "queue_count") == Int(0) && P.Get(g, "queue_fingerprint") == List([])
    ensures GuardIsGood(doc, guard) ==> P.Section(doc, guard) == Look(doc, [guard])
  {
    hide Look, Same;
    LookAt(doc, guard, "project_name", "");
    LookAt(doc, guard, "current_timeline_name", "");
    LookAt(doc, guard, "target_timeline_name", "");
    LookAt(doc, guard, "rendering_in_progress", "");
    LookAt(doc, guard, "queue_count", "");
    LookAt(doc, guard, "queue_fingerprint", "");
    var g := P.Section(doc, guard);
    TextIs(P.Get(g, "project_name"), "RLC-E9901_MASTER");
    TextIs(P.Get(g, "current_timeline_name"), "RLC-E9901_TIMELINE");
    TextIs(P.Get(g, "target_timeline_name"), "RLC-E9901_TIMELINE");
  }

  /** The nine checks on identities, guards and queue, taken together. */
  lemma IdentitiesRead(doc: Value)
    ensures P.ExpectedContext(doc) && P.ActualProjectIdentity(doc) && P.ActualTimelineIdentity(doc)
            && P.GuardIdentity(P.Section(doc, "pre_guard")) && P.GuardIdentity(P.Section(doc, "post_guard"))
            && P.RenderingInactive(doc) && P.QueueEmpty(doc) && P.RenderQueueConsistency(doc) && P.NoGuardDrift(doc)
       <==> && Look(doc, ["expected_context"]) == Dict(map[Text("project") := Str("RLC-E9901_MASTER"), Text("timeline") := Str("RLC-E9901_TIMELINE")])
            && Look(doc, ["project", "name"]) == Str("RLC-E9901_MASTER")
            && Look(doc, ["target_timeline", "name"]) == Str("RLC-E9901_TIMELINE")
            && GuardIsGood(doc, "pre_guard") && GuardIsGood(doc, "post_guard")
            && Same(Look(doc, ["pre_guard"]), Look(doc, ["post_guard"]))
            && Look(doc, ["project", "render_queue", "count"]) == Int(0) && Look(doc, ["project", "render_queue", "items"]) == List([])
  {
    hide Look, Same, P.GuardIdentity, P.Section, P.ExpectedContext, GuardIsGood;
    ContextRead(doc);
    LookAt(doc, "project", "name", "");
    LookAt(doc, "target_timeline", "name", "");
    TextIs(Look(doc, ["project", "name"]), "RLC-E9901_MASTER");
    TextIs(Look(doc, ["target_timeline", "name"]), "RLC-E9901_TIMELINE");
    GuardRead(doc, "pre_guard");
    GuardRead(doc, "post_guard");
    LookAt(doc, "project", "render_queue", "count");
    LookAt(doc, "project", "render_queue", "items");
  }

  lemma VersionStringRead(o: Value)
    ensures var r := P.ReadVersionString(o);
            && (r.NotObserved? <==> !P.Observed(o))
            && (r == P.Version("21.0.3.7") <==> P.Observed(o) && P.Get(o, "value").Str? && T.Strip(P.Get(o, "value").s) == "21.0.3.7")
  {
    hide P.Observed, P.Get, T.Strip;
  }

  lemma SessionRead(doc: Value)
    ensures P.ProductObserved(doc) <==>
            && IsObserved(doc, ["session", "product_name"]) && ValueAt(doc, ["session", "product_name"]).Str?
            && T.Strip(ValueAt(doc, ["session", "product_name"]).s) != ""
    ensures P.VersionMatches(doc) <==> VersionIsGood(doc)
  {
    hide Look, P.ReadVersionString, P.ReadVersionList, T.Strip;
    LookAt(doc, "session", "product_name", "");
    LookAt(doc, "session", "version_string", "");
    LookAt(doc, "session", "version", "");
    var session := P.Get(doc, "session");
    ObservedAt(P.Get(session, "product_name"));
    ObservedAt(P.Get(session, "version_string"));
    ObservedAt(P.Get(session, "version"));
    VersionStringRead(P.Get(session, "version_string"));
    A.ListReading(P.Get(session, "version"));
  }

  lemma ObservedAt(o: Value)
    ensures P.Observed(o) <==> Look(o, ["status"]) == Str("observed")
    ensures Look(o, ["value"]) == P.Get(o, "value")
  {
    hide Look;
    LookAt(o, "status", "", "");
    LookAt(o, "value", "", "");
  }

  lemma PresetsRead(doc: Value)
    ensures P.PresetObserved(doc) <==>
            IsObserved(doc, ["project", "render_presets"])
            && A.ListsPreset(ValueAt(doc, ["project", "render_presets"]), "Redline Broadcast Master")
  {
    hide Look, P.Observed, P.PresetNames, A.ListsPreset;
    LookAt(doc, "project", "render_presets", "");
    ObservedAt(P.Get(P.Get(doc, "project"), "render_presets"));
    A.PresetListRead(P.Get(P.Get(P.Get(doc, "project"), "render_presets"), "value"), "Redline Broadcast Master");
  }

  lemma TrackRead(track: Value)
    ensures P.TrackWellFormed(track) <==> TrackIsGood(track)
    ensures Look(track, ["item_count"]) == P.Get(track, "item_count")
  {
    hide Look;
    LookAt(track, "item_count", "", "");
    LookAt(track, "items", "", "");
  }

  lemma {:induction false} TotalIsPositive(tracks: seq<Value>)
    requires forall i | 0 <= i < |tracks| :: P.TrackWellFormed(tracks[i])
    ensures P.TotalItems(tracks) >= 0
    ensures P.TotalItems(tracks) > 0 <==> exists i :: 0 <= i < |tracks| && P.Get(tracks[i], "item_count") != Int(0)
  {
    if tracks != [] {
      var n := |tracks| - 1;
      TotalIsPositive(tracks[..n]);
      assert P.TrackWellFormed(tracks[n]);
      hide P.Get, P.TrackWellFormed;
      if i :| 0 <= i < |tracks| && P.Get(tracks[i], "item_count") != Int(0) {
        if i < n { assert tracks[..n][i] == tracks[i]; }
      }
    }
  }

  lemma VideoRead(doc: Value)
    ensures P.VideoItemsPositive(doc) <==> VideoIsGood(doc)
  {
    hide Look, P.TrackWellFormed, TrackIsGood, P.TotalItems;
    LookAt(doc, "target_timeline", "tracks", "video");
    var group := P.VideoGroup(doc);
    ObservedAt(group);
    LookAt(group, "tracks", "", "");
    LookAt(group, "count", "", "");
    ObservedAt(P.Get(group, "count"));
    forall track { TrackRead(track); }
    if P.GroupWellFormed(group) { TotalIsPositive(P.Get(group, "tracks").items); }
  }

  /** The verdict on any document: not evaluated unless it is complete, and then passed exactly when every
      field is as it should be. */
  lemma VerdictIff(doc: Value)
    ensures P.EvaluateOfflinePreflight(doc) == P.NotEvaluated <==> !IsComplete(doc)
    ensures P.EvaluateOfflinePreflight(doc) == P.Passed <==> IsComplete(doc) && DocumentIsGood(doc)
  {
    hide P.CaptureComplete, IsComplete, P.ExpectedContext, P.ActualProjectIdentity, P.ActualTimelineIdentity, P.GuardIdentity, P.Section,
      P.RenderingInactive, P.QueueEmpty, P.RenderQueueConsistency, P.NoGuardDrift, P.ProductObserved, P.VersionMatches, P.PresetObserved,
      P.VideoItemsPositive, Look, GuardIsGood, VersionIsGood, VideoIsGood, A.ListsPreset, Same, T.Strip;
    CompleteRead(doc);
    IdentitiesRead(doc);
    SessionRead(doc);
    PresetsRead(doc);
    VideoRead(doc);
  }
}
