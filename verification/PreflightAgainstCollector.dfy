/** What the offline preflight can still find wrong with a snapshot its own collector returned. */
module PreflightAgainstCollector {
  import opened PythonValues
  import C = SnapshotCollection
  import P = PreflightChecks
  import T = Text

  const CONTEXT := C.Context(P.PROJECT_NAME, P.TIMELINE_NAME)

  predicate JsonMap(m: map<Key, Value>) {
    forall k | k in m :: k.Text? && IsJson(m[k])
  }

  /** The evidence that plays no part is JSON, as every observation is. */
  ghost predicate OthersAreJson(a: C.Answers, o: C.Others) {
    && IsJson(o.settings) && IsJson(o.inventory) && IsJson(o.renderContext) && JsonMap(o.timeline)
    && IsJson(o.projectManager) && IsJson(o.mediaPool) && IsJson(o.policy)
    && (forall i, j :: IsJson(a.audio.captured(i, j)) && IsJson(a.video.captured(i, j)) && IsJson(a.subtitle.captured(i, j)))
  }

  // ---- the document is JSON ----

  lemma ObservationIsJson(source: string, a: C.Answer)
    ensures IsJson(C.Observe(source, a))
  {
    if a.Returns? && Normalize(a.value).Some? { NormalizeYieldsJson(a.value); }
  }

  lemma SessionIsJson(s: C.SessionAnswers)
    ensures IsJson(C.SessionDocument(s))
  {
    hide C.Observe;
    ObservationIsJson("GetProductName", s.product);
    ObservationIsJson("GetVersion", s.version);
    ObservationIsJson("GetVersionString", s.versionString);
  }

  lemma GuardIsJson(g: C.Guard)
    ensures IsJson(C.GuardDocument(g)) && IsJson(C.QueueDocument(g))
  {
    BlanksAreJson(|g.queue|);
    hide C.BlankEntries;
  }

  lemma BlanksAreJson(n: nat)
    ensures IsJson(List(C.BlankEntries(n)))
  {
    var blank := Dict(map[]);
    assert IsJson(blank);
    forall i | 0 <= i < n ensures C.BlankEntries(n)[i] == blank {}
  }

  lemma {:induction false} CapturedItemsAreJson(t: C.TrackAnswers, n: nat)
    requires C.CaptureTracks(t, n).Some? && forall i, j :: IsJson(t.captured(i, j))
    ensures |C.CaptureTracks(t, n).value| == n
    ensures forall i | 0 <= i < n :: C.CaptureItems(t, i + 1) == Some(C.CaptureTracks(t, n).value[i])
    ensures forall i | 0 <= i < n :: IsJson(List(C.CaptureTracks(t, n).value[i]))
  {
    if n > 0 { CapturedItemsAreJson(t, n - 1); }
  }

  lemma TracksAreJson(tracks: seq<seq<Value>>)
    requires forall i | 0 <= i < |tracks| :: IsJson(List(tracks[i]))
    ensures forall i | 0 <= i < |tracks| :: IsJson(C.TrackDocuments(tracks)[i])
  {
    forall i | 0 <= i < |tracks| ensures IsJson(C.TrackDocument(i + 1, tracks[i])) {}
  }

  lemma GroupIsJson(kind: string, t: C.TrackAnswers, required: bool)
    requires C.CaptureTrackGroup(kind, t, required).Some? && forall i, j :: IsJson(t.captured(i, j))
    ensures IsJson(C.CaptureTrackGroup(kind, t, required).value)
  {
    hide C.Observe, C.CaptureTracks, C.TrackDocument, C.GroupDocument, IsJson;
    ObservationIsJson("GetTrackCount", t.count);
    var count := C.Observe("GetTrackCount", t.count);
    var declared := C.ObservedCount(t.count);
    if declared.value.Some? {
      CapturedItemsAreJson(t, declared.value.value);
      var tracks := C.CaptureTracks(t, declared.value.value).value;
      TracksAreJson(tracks);
      GroupDocumentIsJson(kind, "observed", count, C.TrackDocuments(tracks));
    } else {
      GroupDocumentIsJson(kind, "unavailable", count, []);
    }
  }

  lemma GroupDocumentIsJson(kind: string, status: string, count: Value, tracks: seq<Value>)
    requires IsJson(count) && forall i | 0 <= i < |tracks| :: IsJson(tracks[i])
    ensures IsJson(C.GroupDocument(kind, status, count, tracks))
  {
    assert IsJson(List(tracks));
  }

  lemma PresetsAreJson(list: C.Answer, names: C.Answer)
    ensures IsJson(C.CaptureRenderPresets(list, names))
  {
    hide C.Observe;
    ObservationIsJson("GetRenderPresetList", list);
    ObservationIsJson("GetRenderPresetNames", names);
  }

  // ---- the sections of the document ----

  /** What a successful collection has in hand when it puts the document together. */
  datatype Parts = Parts(
    session: Value, presets: Value, audio: Value, video: Value, subtitle: Value, timelineName: string,
    pre: C.Guard, post: C.Guard)

  function PartsOf(a: C.Answers): Parts
    requires C.CaptureTrackGroup("audio", a.audio, true).Some? && C.CaptureTrackGroup("video", a.video, true).Some?
    requires C.CaptureTrackGroup("subtitle", a.subtitle, false).Some? && C.RequiredName(a.timelineName).Some?
    requires C.CaptureGuardState(a.preGuard).Some? && C.CaptureGuardState(a.postGuard).Some?
  {
    Parts(C.SessionDocument(a.session), C.CaptureRenderPresets(a.presetList, a.presetNames),
          C.CaptureTrackGroup("audio", a.audio, true).value, C.CaptureTrackGroup("video", a.video, true).value,
          C.CaptureTrackGroup("subtitle", a.subtitle, false).value, C.RequiredName(a.timelineName).value,
          C.CaptureGuardState(a.preGuard).value, C.CaptureGuardState(a.postGuard).value)
  }

  function DocumentOf(o: C.Others, p: Parts): Value {
    C.Document(o, CONTEXT, p.session,
               C.ProjectDocument(o, P.PROJECT_NAME, p.presets, p.pre),
               C.TimelineDocument(o, p.timelineName, p.audio, p.video, p.subtitle), p.pre, p.post)
  }

  predicate PartsAreJson(p: Parts) {
    IsJson(p.session) && IsJson(p.presets) && IsJson(p.audio) && IsJson(p.video) && IsJson(p.subtitle)
  }

  lemma CollectedParts(a: C.Answers, others: C.Others, doc: Value) returns (p: Parts)
    requires C.CollectSnapshot(a, Some(others), CONTEXT) == Some(doc) && OthersAreJson(a, others)
    ensures p.session == C.SessionDocument(a.session) && p.presets == C.CaptureRenderPresets(a.presetList, a.presetNames)
    ensures C.CaptureTrackGroup("video", a.video, true) == Some(p.video) && C.RequiredName(a.timelineName) == Some(p.timelineName)
    ensures C.IsSafe(p.pre, CONTEXT) && C.IsSafe(p.post, CONTEXT) && Same(C.GuardDocument(p.post), C.GuardDocument(p.pre))
    ensures PartsAreJson(p) && doc == DocumentOf(others, p)
  {
    hide C.CaptureTrackGroup, C.CaptureGuardState, C.RequiredName, C.SessionDocument, C.CaptureRenderPresets, C.GuardDocument,
      C.IsSafe, C.Document, C.ProjectDocument, C.TimelineDocument, C.UsableVersion, Normalize, Same, T.Strip;
    p := PartsOf(a);
    SessionIsJson(a.session);
    PresetsAreJson(a.presetList, a.presetNames);
    GroupIsJson("audio", a.audio, true);
    GroupIsJson("video", a.video, true);
    GroupIsJson("subtitle", a.subtitle, false);
    DocumentIsJson(others, p);
    NormalizeOfJson(DocumentOf(others, p));
  }

  lemma DocumentIsJson(o: C.Others, p: Parts)
    requires PartsAreJson(p) && IsJson(o.settings) && IsJson(o.inventory) && IsJson(o.renderContext) && JsonMap(o.timeline)
    requires IsJson(o.projectManager) && IsJson(o.mediaPool) && IsJson(o.policy)
    ensures IsJson(DocumentOf(o, p))
  {
    hide C.GuardDocument, C.QueueDocument, C.ProjectDocument, C.TimelineDocument, C.Preamble, C.Sections, IsJson;
    GuardIsJson(p.pre);
    GuardIsJson(p.post);
    ProjectIsJson(o, p);
    TimelineIsJson(o, p);
    var project := C.ProjectDocument(o, P.PROJECT_NAME, p.presets, p.pre);
    var timeline := C.TimelineDocument(o, p.timelineName, p.audio, p.video, p.subtitle);
    PreambleIsJson(o);
    SectionsAreJson(o, p.session, project, timeline, C.GuardDocument(p.pre), C.GuardDocument(p.post));
    JoinedMapsAreJson(C.Preamble(o), C.Sections(o, CONTEXT, p.session, project, timeline, C.GuardDocument(p.pre), C.GuardDocument(p.post)));
  }

  lemma PreambleIsJson(o: C.Others)
    requires IsJson(o.policy)
    ensures JsonMap(C.Preamble(o))
  {
  }

  lemma SectionsAreJson(o: C.Others, session: Value, project: Value, timeline: Value, pre: Value, post: Value)
    requires IsJson(o.projectManager) && IsJson(o.mediaPool)
    requires IsJson(session) && IsJson(project) && IsJson(timeline) && IsJson(pre) && IsJson(post)
    ensures JsonMap(C.Sections(o, CONTEXT, session, project, timeline, pre, post))
  {
    ContextIsJson();
    hide IsJson, C.ContextDocument;
  }

  lemma ContextIsJson()
    ensures IsJson(C.ContextDocument(CONTEXT))
  {
  }

  lemma JoinedMapsAreJson(m: map<Key, Value>, n: map<Key, Value>)
    requires JsonMap(m) && JsonMap(n)
    ensures IsJson(Dict(m + n))
  {
  }

  lemma ProjectIsJson(o: C.Others, p: Parts)
    requires IsJson(p.presets) && IsJson(o.settings) && IsJson(o.inventory) && IsJson(o.renderContext)
    ensures IsJson(C.ProjectDocument(o, P.PROJECT_NAME, p.presets, p.pre))
  {
    hide C.QueueDocument;
    GuardIsJson(p.pre);
  }

  lemma TimelineIsJson(o: C.Others, p: Parts)
    requires PartsAreJson(p) && JsonMap(o.timeline)
    ensures IsJson(C.TimelineDocument(o, p.timelineName, p.audio, p.video, p.subtitle))
  {
    assert IsJson(Dict(map[Text("audio") := p.audio, Text("video") := p.video, Text("subtitle") := p.subtitle]));
  }

  /** Where the sections of the document are found. */
  predicate HasSections(doc: Value, session: Value, project: Value, timeline: Value, pre: Value, post: Value) {
    && P.Get(doc, "expected_context") == C.ContextDocument(CONTEXT) && P.Get(doc, "session") == session
    && P.Get(doc, "project") == project && P.Get(doc, "target_timeline") == timeline
    && P.Section(doc, "pre_guard") == pre && P.Section(doc, "post_guard") == post
  }

  lemma SectionsAreFound(o: C.Others, session: Value, project: Value, timeline: Value, pre: Value, post: Value)
    requires pre.Dict? && post.Dict?
    ensures HasSections(Dict(C.Preamble(o) + C.Sections(o, CONTEXT, session, project, timeline, pre, post)),
                        session, project, timeline, pre, post)
  {
    hide C.ContextDocument, C.Preamble;
  }

  lemma DocumentSections(o: C.Others, p: Parts)
    ensures HasSections(DocumentOf(o, p), p.session, C.ProjectDocument(o, P.PROJECT_NAME, p.presets, p.pre),
                        C.TimelineDocument(o, p.timelineName, p.audio, p.video, p.subtitle),
                        C.GuardDocument(p.pre), C.GuardDocument(p.post))
  {
    var pre, post := C.GuardDocument(p.pre), C.GuardDocument(p.post);
    assert pre.Dict? && post.Dict?;
    hide C.ProjectDocument, C.TimelineDocument, C.GuardDocument, C.Preamble, C.Sections, HasSections;
    SectionsAreFound(o, p.session, C.ProjectDocument(o, P.PROJECT_NAME, p.presets, p.pre),
                     C.TimelineDocument(o, p.timelineName, p.audio, p.video, p.subtitle), pre, post);
  }

  lemma DocumentIsComplete(o: C.Others, p: Parts)
    ensures P.CaptureComplete(DocumentOf(o, p))
  {
    hide C.ProjectDocument, C.TimelineDocument, C.ContextDocument, C.GuardDocument;
    var doc := DocumentOf(o, p);
    assert P.Get(doc, "schema_version") == Str("1.0") && P.Get(doc, "snapshot_complete") == Bool(true);
  }

  lemma ProjectSections(o: C.Others, name: string, presets: Value, g: C.Guard)
    ensures var project := C.ProjectDocument(o, name, presets, g);
            && P.Get(project, "name") == Str(name) && P.Get(project, "render_presets") == presets
            && P.Get(project, "render_queue") == C.QueueDocument(g)
  {
    hide C.QueueDocument;
  }

  lemma TimelineSections(o: C.Others, name: string, audio: Value, video: Value, subtitle: Value)
    ensures var timeline := C.TimelineDocument(o, name, audio, video, subtitle);
            P.Get(timeline, "name") == Str(name) && P.Get(P.Get(timeline, "tracks"), "video") == video
  {
  }

  predicate GuardPasses(guard: Value) {
    && P.GuardIdentity(guard) && P.Get(guard, "rendering_in_progress") == Bool(false)
    && P.Get(guard, "queue_count") == Int(0) && P.Get(guard, "queue_fingerprint") == List([])
  }

  predicate QueuePasses(queue: Value) {
    queue.Dict? && P.Get(queue, "count") == Int(0) && P.Get(queue, "items") == List([])
  }

  lemma GuardSections(g: C.Guard)
    requires C.IsSafe(g, CONTEXT)
    ensures GuardPasses(C.GuardDocument(g)) && QueuePasses(C.QueueDocument(g))
  {
    assert C.BlankEntries(|g.queue|) == [];
  }

  // ---- eight checks that can never fail ----

  predicate EightChecks(snapshot: Value) {
    && P.ExpectedContext(snapshot) && P.ActualProjectIdentity(snapshot)
    && P.GuardIdentity(P.Section(snapshot, "pre_guard")) && P.GuardIdentity(P.Section(snapshot, "post_guard"))
    && P.RenderingInactive(snapshot) && P.QueueEmpty(snapshot) && P.RenderQueueConsistency(snapshot) && P.NoGuardDrift(snapshot)
  }

  /** For every snapshot the collector returns, the document is complete and eight of the thirteen
      checks hold, whatever Resolve answered. */
  lemma EightChecksAlwaysHold(a: C.Answers, others: C.Others, doc: Value)
    requires C.CollectSnapshot(a, Some(others), CONTEXT) == Some(doc) && OthersAreJson(a, others)
    ensures P.CaptureComplete(doc) && EightChecks(doc)
  {
    hide C.CollectSnapshot, P.CaptureComplete, DocumentOf, EightChecks, C.CaptureRenderPresets, C.SessionDocument, OthersAreJson,
      PartsAreJson, C.IsSafe, Same, C.GuardDocument;
    var p := CollectedParts(a, others, doc);
    DocumentIsComplete(others, p);
    SafeGuardsPass(others, p);
  }

  lemma SafeGuardsPass(o: C.Others, p: Parts)
    requires C.IsSafe(p.pre, CONTEXT) && C.IsSafe(p.post, CONTEXT) && Same(C.GuardDocument(p.post), C.GuardDocument(p.pre))
    ensures EightChecks(DocumentOf(o, p))
  {
    hide C.ProjectDocument, C.TimelineDocument, C.GuardDocument, C.QueueDocument, C.IsSafe, DocumentOf, EightChecks, HasSections,
      GuardPasses, QueuePasses, P.Get, Same;
    var project := C.ProjectDocument(o, P.PROJECT_NAME, p.presets, p.pre);
    var timeline := C.TimelineDocument(o, p.timelineName, p.audio, p.video, p.subtitle);
    var pre, post := C.GuardDocument(p.pre), C.GuardDocument(p.post);
    DocumentSections(o, p);
    ProjectSections(o, P.PROJECT_NAME, p.presets, p.pre);
    GuardSections(p.pre);
    GuardSections(p.post);
    SameIsSymmetric(post, pre);
    EightFromSections(DocumentOf(o, p), p.session, project, timeline, pre, post);
  }

  lemma EightFromSections(doc: Value, session: Value, project: Value, timeline: Value, pre: Value, post: Value)
    requires HasSections(doc, session, project, timeline, pre, post)
    requires P.Get(project, "name") == Str(P.PROJECT_NAME) && QueuePasses(P.Get(project, "render_queue"))
    requires GuardPasses(pre) && GuardPasses(post) && Same(pre, post)
    ensures EightChecks(doc)
  {
    ContextIsItself();
    assert Same(Str(P.PROJECT_NAME), Str(P.PROJECT_NAME));
    hide P.Get, P.Section, P.GuardIdentity, Same, C.ContextDocument;
  }

  lemma ContextIsItself()
    ensures Same(C.ContextDocument(CONTEXT), Dict(map[Text("project") := Str(P.PROJECT_NAME), Text("timeline") := Str(P.TIMELINE_NAME)]))
  {
  }

  // ---- the five that decide ----

  /** The items found on all video tracks together. */
  function VideoItems(t: C.TrackAnswers, n: nat): nat {
    if n == 0 || C.CaptureItems(t, n).None? then 0 else VideoItems(t, n - 1) + |C.CaptureItems(t, n).value|
  }

  function VideoTrackCount(t: C.TrackAnswers): nat {
    var count := C.ObservedCount(t.count);
    if count.Some? && count.value.Some? then count.value.value else 0
  }

  lemma TracksAddUp(t: C.TrackAnswers, n: nat, tracks: seq<seq<Value>>)
    requires C.CaptureTracks(t, n) == Some(tracks)
    ensures forall i | 0 <= i < |tracks| :: P.TrackWellFormed(C.TrackDocuments(tracks)[i])
    ensures |tracks| == n == |C.TrackDocuments(tracks)| && P.TotalItems(C.TrackDocuments(tracks)) == VideoItems(t, n)
    decreases n
  {
    forall i | 0 <= i < |tracks| ensures P.TrackWellFormed(C.TrackDocuments(tracks)[i]) {
      TrackIsWellFormed(i + 1, tracks[i]);
    }
    hide P.TrackWellFormed, C.CaptureItems, C.TrackDocument;
    if n > 0 {
      var front, last := C.CaptureTracks(t, n - 1).value, C.CaptureItems(t, n).value;
      TracksAddUp(t, n - 1, front);
      assert tracks == front + [last] && C.TrackDocuments(tracks)[..n - 1] == C.TrackDocuments(front);
      TrackIsWellFormed(n, last);
    }
  }

  lemma TrackIsWellFormed(track: nat, items: seq<Value>)
    ensures P.TrackWellFormed(C.TrackDocument(track, items))
    ensures P.Get(C.TrackDocument(track, items), "item_count") == Int(|items|)
  {
  }

  /** The video check fails on a collected snapshot only when no video item was found at all. */
  lemma VideoCheckIsTotal(a: C.Answers, video: Value, snapshot: Value)
    requires C.CaptureTrackGroup("video", a.video, true) == Some(video) && P.VideoGroup(snapshot) == video
    ensures P.VideoItemsPositive(snapshot) <==> VideoItems(a.video, VideoTrackCount(a.video)) > 0
  {
    hide C.CaptureTracks, C.TrackDocuments, P.VideoGroup, P.TrackWellFormed, C.Observe, C.GroupDocument, P.Observed, P.Get;
    var n := VideoTrackCount(a.video);
    var tracks := C.CaptureTracks(a.video, n).value;
    TracksAddUp(a.video, n, tracks);
    GroupFields("video", C.Observe("GetTrackCount", a.video.count), C.TrackDocuments(tracks));
    CountIsObserved(a.video.count, n);
    assert |C.TrackDocuments(tracks)| == n;
  }

  lemma GroupFields(kind: string, count: Value, tracks: seq<Value>)
    ensures var group := C.GroupDocument(kind, "observed", count, tracks);
            P.Observed(group) && P.Get(group, "tracks") == List(tracks) && P.Get(group, "count") == count
  {
  }

  lemma CountIsObserved(a: C.Answer, n: nat)
    requires C.ObservedCount(a) == Some(Some(n))
    ensures P.Observed(C.Observe("GetTrackCount", a)) && P.Get(C.Observe("GetTrackCount", a), "value") == Int(n)
  {
  }

  /** Timeline name, product, version, preset and at least one video item. */
  predicate FiveHold(a: C.Answers) {
    && C.RequiredName(a.timelineName) == Some(P.TIMELINE_NAME)
    && P.Observed(C.Observe("GetProductName", a.session.product))
    && P.NonBlankString(P.Get(C.Observe("GetProductName", a.session.product), "value"))
    && P.VersionsAgree(P.ReadVersionString(C.Observe("GetVersionString", a.session.versionString)),
                       P.ReadVersionList(C.Observe("GetVersion", a.session.version)))
    && PresetSeen(C.CaptureRenderPresets(a.presetList, a.presetNames))
    && VideoItems(a.video, VideoTrackCount(a.video)) > 0
  }

  predicate PresetSeen(presets: Value) {
    && P.Observed(presets) && P.PresetNames(P.Get(presets, "value")).Some?
    && P.PRESET_NAME in P.PresetNames(P.Get(presets, "value")).value
  }

  lemma SessionSections(s: C.SessionAnswers)
    ensures var session := C.SessionDocument(s);
            && session.Dict? && P.Get(session, "product_name") == C.Observe("GetProductName", s.product)
            && P.Get(session, "version") == C.Observe("GetVersion", s.version)
            && P.Get(session, "version_string") == C.Observe("GetVersionString", s.versionString)
  {
    hide C.Observe;
  }

  lemma SessionChecks(a: C.Answers, snapshot: Value)
    requires P.Get(snapshot, "session") == C.SessionDocument(a.session)
    ensures P.ProductObserved(snapshot) <==>
            && P.Observed(C.Observe("GetProductName", a.session.product))
            && P.NonBlankString(P.Get(C.Observe("GetProductName", a.session.product), "value"))
    ensures P.VersionMatches(snapshot) <==>
            P.VersionsAgree(P.ReadVersionString(C.Observe("GetVersionString", a.session.versionString)),
                            P.ReadVersionList(C.Observe("GetVersion", a.session.version)))
  {
    SessionSections(a.session);
    hide C.SessionDocument, C.Observe, P.Get, P.Observed, P.NonBlankString, P.VersionsAgree, P.ReadVersionString, P.ReadVersionList;
  }

  lemma ProjectAndTimelineChecks(o: C.Others, p: Parts, snapshot: Value)
    requires P.Get(snapshot, "project") == C.ProjectDocument(o, P.PROJECT_NAME, p.presets, p.pre)
    requires P.Get(snapshot, "target_timeline") == C.TimelineDocument(o, p.timelineName, p.audio, p.video, p.subtitle)
    ensures P.ActualTimelineIdentity(snapshot) <==> p.timelineName == P.TIMELINE_NAME
    ensures P.PresetObserved(snapshot) <==> PresetSeen(p.presets)
    ensures P.VideoGroup(snapshot) == p.video
  {
    ProjectSections(o, P.PROJECT_NAME, p.presets, p.pre);
    TimelineSections(o, p.timelineName, p.audio, p.video, p.subtitle);
    assert Same(Str(p.timelineName), Str(P.TIMELINE_NAME)) <==> p.timelineName == P.TIMELINE_NAME;
    hide C.ProjectDocument, C.TimelineDocument, P.Get, P.Observed, P.PresetNames, Same;
  }

  lemma VerdictFromChecks(snapshot: Value)
    requires P.CaptureComplete(snapshot) && EightChecks(snapshot)
    ensures P.EvaluateOfflinePreflight(snapshot) ==
              if P.ActualTimelineIdentity(snapshot) && P.ProductObserved(snapshot) && P.VersionMatches(snapshot)
                 && P.PresetObserved(snapshot) && P.VideoItemsPositive(snapshot)
              then P.Passed else P.Failed
  {
    hide P.CaptureComplete, P.ExpectedContext, P.ActualProjectIdentity, P.GuardIdentity, P.RenderingInactive, P.QueueEmpty,
      P.RenderQueueConsistency, P.NoGuardDrift, P.ActualTimelineIdentity, P.ProductObserved, P.VersionMatches,
      P.PresetObserved, P.VideoItemsPositive, P.Section;
  }

  /** On a collected snapshot the verdict is exactly the conjunction of the five. */
  lemma VerdictIsTheFive(a: C.Answers, others: C.Others, doc: Value)
    requires C.CollectSnapshot(a, Some(others), CONTEXT) == Some(doc) && OthersAreJson(a, others)
    ensures P.EvaluateOfflinePreflight(doc) == if FiveHold(a) then P.Passed else P.Failed
  {
    hide C.CollectSnapshot, C.ProjectDocument, C.TimelineDocument, C.SessionDocument, C.CaptureRenderPresets, C.Observe,
      C.RequiredName, C.CaptureTrackGroup, C.IsSafe, C.GuardDocument, P.EvaluateOfflinePreflight, P.CaptureComplete, P.Get, P.Section,
      P.Observed, P.NonBlankString, P.ReadVersionList, P.ReadVersionString, P.VersionsAgree, P.ActualTimelineIdentity,
      P.ProductObserved, P.VersionMatches, P.PresetObserved, P.VideoItemsPositive, P.VideoGroup, PresetSeen, VideoItems,
      VideoTrackCount, DocumentOf, EightChecks, OthersAreJson, PartsAreJson;
    EightChecksAlwaysHold(a, others, doc);
    var p := CollectedParts(a, others, doc);
    DocumentSections(others, p);
    SessionChecks(a, doc);
    ProjectAndTimelineChecks(others, p, doc);
    VideoCheckIsTotal(a, p.video, doc);
    VerdictFromChecks(doc);
  }
}
