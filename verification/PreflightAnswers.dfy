/** When the offline preflight passes a snapshot of its own collector, told from the answers of Resolve. */
module PreflightAnswers {
  import opened PythonValues
  import opened PreflightAgainstCollector
  import C = SnapshotCollection
  import P = PreflightChecks
  import S = Splitting
  import T = Text

  /** The accessor answers, and this is its answer as JSON data. */
  predicate Gives(a: C.Answer, n: Value) {
    a.Returns? && Normalize(a.value) == Some(n)
  }

  ghost predicate Answered(a: C.Answer) {
    exists n :: Gives(a, n)
  }

  lemma ObservedRead(source: string, a: C.Answer)
    ensures P.Observed(C.Observe(source, a)) <==> Answered(a)
    ensures forall n | Gives(a, n) :: P.Get(C.Observe(source, a), "value") == n
  {
    if P.Observed(C.Observe(source, a)) { assert Gives(a, Normalize(a.value).value); }
  }

  // ---- versions ----

  const REVIEWED_PARTS := List([Int(21), Int(0), Int(3), Int(7), Str("")])

  /** An accessor that answers says the reviewed version, and one of the two does answer. */
  ghost predicate VersionIsReviewed(fromString: C.Answer, fromList: C.Answer) {
    && (Answered(fromString) || Answered(fromList))
    && (forall n | Gives(fromString, n) :: n.Str? && T.Strip(n.s) == "21.0.3.7")
    && (forall n | Gives(fromList, n) :: n == REVIEWED_PARTS)
  }

  lemma DigitsHaveNoDot(n: nat)
    ensures S.Without(T.NatText(n), '.')
  {
    var s := T.NatText(n);
    forall i | 0 <= i < |s| ensures s[i] != '.' { assert T.IsDigit(s[i]); }
  }

  lemma ReviewedNumbers()
    ensures T.NatText(21) == "21" && T.NatText(0) == "0" && T.NatText(3) == "3" && T.NatText(7) == "7"
  {
    assert T.NatText(2) == "2" && T.NatText(1) == "1";
  }

  lemma FourPartsAreUnique(a: string, b: string, c: string, d: string, e: string, f: string, g: string, h: string)
    requires S.Without(a, '.') && S.Without(b, '.') && S.Without(c, '.') && S.Without(d, '.')
    requires S.Without(e, '.') && S.Without(f, '.') && S.Without(g, '.') && S.Without(h, '.')
    requires a + "." + b + "." + c + "." + d == e + "." + f + "." + g + "." + h
    ensures a == e && b == f && c == g && d == h
  {
    hide S.Without, S.Split, S.Join;
    FourJoined(a, b, c, d);
    FourJoined(e, f, g, h);
    S.SplitOfJoin([a, b, c, d], '.');
    S.SplitOfJoin([e, f, g, h], '.');
    assert [a, b, c, d][0] == a && [a, b, c, d][1] == b && [a, b, c, d][2] == c && [a, b, c, d][3] == d;
  }

  lemma ReviewedText()
    ensures "21" + "." + "0" + "." + "3" + "." + "7" == "21.0.3.7"
    ensures S.Without("21", '.') && S.Without("0", '.') && S.Without("3", '.') && S.Without("7", '.')
  {
  }

  /** A dotted version is the reviewed one only if its parts are. */
  lemma DottedVersion(a: nat, b: nat, c: nat, d: nat)
    ensures T.NatText(a) + "." + T.NatText(b) + "." + T.NatText(c) + "." + T.NatText(d) == "21.0.3.7" <==>
            a == 21 && b == 0 && c == 3 && d == 7
  {
    hide T.NatText, S.Without;
    ReviewedNumbers();
    ReviewedText();
    DigitsHaveNoDot(a);
    DigitsHaveNoDot(b);
    DigitsHaveNoDot(c);
    DigitsHaveNoDot(d);
    if T.NatText(a) + "." + T.NatText(b) + "." + T.NatText(c) + "." + T.NatText(d) == "21.0.3.7" {
      FourPartsAreUnique(T.NatText(a), T.NatText(b), T.NatText(c), T.NatText(d), "21", "0", "3", "7");
      T.NatTextInjective(a, 21);
      T.NatTextInjective(b, 0);
      T.NatTextInjective(c, 3);
      T.NatTextInjective(d, 7);
    }
  }

  lemma FourJoined(a: string, b: string, c: string, d: string)
    ensures S.Join([a, b, c, d], '.') == a + "." + b + "." + c + "." + d
  {
    S.JoinCons(a, [b, c, d], '.');
    S.JoinCons(b, [c, d], '.');
    S.JoinCons(c, [d], '.');
    S.JoinSingle(d, '.');
  }

  lemma StringRead(a: C.Answer)
    ensures var r := P.ReadVersionString(C.Observe("GetVersionString", a));
            && (r.NotObserved? <==> !Answered(a))
            && (r == P.Version("21.0.3.7") <==> Answered(a) && forall n | Gives(a, n) :: n.Str? && T.Strip(n.s) == "21.0.3.7")
  {
    hide C.Observe, T.Strip, P.Observed, P.Get;
    ObservedRead("GetVersionString", a);
    if n :| Gives(a, n) {}
  }

  lemma ListRead(a: C.Answer)
    ensures var r := P.ReadVersionList(C.Observe("GetVersion", a));
            && (r.NotObserved? <==> !Answered(a))
            && (r == P.Version("21.0.3.7") <==> Answered(a) && forall n | Gives(a, n) :: n == REVIEWED_PARTS)
  {
    hide C.Observe, P.Observed, P.Get, P.ReadVersionList;
    ObservedRead("GetVersion", a);
    var o := C.Observe("GetVersion", a);
    ListReading(o);
    if n :| Gives(a, n) {}
  }

  lemma ListReading(o: Value)
    ensures var r := P.ReadVersionList(o);
            && (r.NotObserved? <==> !P.Observed(o))
            && (r == P.Version("21.0.3.7") <==> P.Observed(o) && P.Get(o, "value") == REVIEWED_PARTS)
  {
    hide P.Observed, P.Get, T.IntText;
    var v := P.Get(o, "value");
    if P.Observed(o) && v.List? && |v.items| == 5 && v.items[4] == Str("") && forall i | 0 <= i < 4 :: P.IsCount(v.items[i]) {
      FiveParts(v.items);
    }
  }

  function Dotted(x: seq<Value>): string
    requires |x| == 5 && forall i | 0 <= i < 4 :: P.IsCount(x[i])
  {
    assert P.IsCount(x[0]) && P.IsCount(x[1]) && P.IsCount(x[2]) && P.IsCount(x[3]);
    T.IntText(x[0].i) + "." + T.IntText(x[1].i) + "." + T.IntText(x[2].i) + "." + T.IntText(x[3].i)
  }

  lemma FiveParts(x: seq<Value>)
    requires |x| == 5 && x[4] == Str("") && forall i | 0 <= i < 4 :: P.IsCount(x[i])
    ensures Dotted(x) == "21.0.3.7" <==> x == [Int(21), Int(0), Int(3), Int(7), Str("")]
  {
    hide T.NatText;
    assert P.IsCount(x[0]) && P.IsCount(x[1]) && P.IsCount(x[2]) && P.IsCount(x[3]);
    DottedVersion(x[0].i, x[1].i, x[2].i, x[3].i);
    assert x == [x[0], x[1], x[2], x[3], x[4]];
  }

  lemma VersionRead(a: C.Answer, b: C.Answer)
    ensures P.VersionsAgree(P.ReadVersionString(C.Observe("GetVersionString", a)), P.ReadVersionList(C.Observe("GetVersion", b))) <==>
            VersionIsReviewed(a, b)
  {
    hide P.ReadVersionString, P.ReadVersionList, C.Observe, Gives;
    StringRead(a);
    ListRead(b);
  }

  // ---- product, presets, video items ----

  /** One listed preset's name: the item itself, or its PresetName, or without a usable one its Name. */
  predicate IsNamed(item: Value, name: string, plain: bool) {
    if plain then item == Str(name)
    else
      item.Dict?
      && if Text("PresetName") in item.entries && Truthy(item.entries[Text("PresetName")])
         then item.entries[Text("PresetName")] == Str(name)
         else Text("Name") in item.entries && item.entries[Text("Name")] == Str(name)
  }

  ghost predicate HasName(item: Value, plain: bool) {
    exists name :: IsNamed(item, name, plain)
  }

  ghost predicate NamesPreset(items: seq<Value>, preset: string, plain: bool) {
    && (forall i | 0 <= i < |items| :: HasName(items[i], plain))
    && (exists i :: 0 <= i < |items| && IsNamed(items[i], preset, plain))
  }

  /** All items are texts, or all are dicts with a name, and one of them is this preset. */
  ghost predicate ListsPreset(v: Value, preset: string) {
    v.List? && (NamesPreset(v.items, preset, true) || NamesPreset(v.items, preset, false))
  }

  /** The first of the two accessors that answers lists the preset. */
  ghost predicate PresetIsListed(list: C.Answer, names: C.Answer) {
    exists n :: (Gives(list, n) || (!Answered(list) && Gives(names, n))) && ListsPreset(n, "Redline Broadcast Master")
  }

  lemma PresetNameRead(item: Value)
    ensures forall name :: P.PresetName(item) == Some(name) <==> IsNamed(item, name, false)
  {
  }

  lemma PresetListRead(v: Value, preset: string)
    ensures P.PresetNames(v).Some? && preset in P.PresetNames(v).value <==> ListsPreset(v, preset)
  {
    hide P.PresetName, NamesPreset, P.PresetNames;
    if v.List? {
      if forall i | 0 <= i < |v.items| :: v.items[i].Str? {
        PlainListRead(v.items, preset);
      } else {
        NamedListRead(v.items, preset);
      }
    } else {
      NoNames(v);
    }
  }

  lemma NoNames(v: Value)
    requires !v.List?
    ensures P.PresetNames(v).None?
  {
  }

  lemma PlainListRead(items: seq<Value>, preset: string)
    requires forall i | 0 <= i < |items| :: items[i].Str?
    ensures P.PresetNames(List(items)).Some?
    ensures preset in P.PresetNames(List(items)).value <==> NamesPreset(items, preset, true)
    ensures !NamesPreset(items, preset, false)
  {
    hide P.PresetName;
    var names := P.PresetNames(List(items)).value;
    forall k | 0 <= k < |items| ensures HasName(items[k], true) { assert IsNamed(items[k], items[k].s, true); }
    if preset in names {
      var i :| 0 <= i < |names| && names[i] == preset;
      assert IsNamed(items[i], preset, true);
    }
    if i :| 0 <= i < |items| && IsNamed(items[i], preset, true) { assert names[i] == preset; }
  }

  lemma NamedListRead(items: seq<Value>, preset: string)
    requires exists i :: 0 <= i < |items| && !items[i].Str?
    ensures P.PresetNames(List(items)).Some? && preset in P.PresetNames(List(items)).value <==> NamesPreset(items, preset, false)
    ensures !NamesPreset(items, preset, true)
  {
    hide P.PresetName, IsNamed;
    forall item ensures forall name :: P.PresetName(item) == Some(name) <==> IsNamed(item, name, false) { PresetNameRead(item); }
    assert !NamesPreset(items, preset, true) by {
      var odd :| 0 <= odd < |items| && !items[odd].Str?;
      NoPlainName(items[odd]);
    }
    assert (forall i | 0 <= i < |items| :: P.PresetName(items[i]).Some?) <==> forall i | 0 <= i < |items| :: HasName(items[i], false) by {
      forall i | 0 <= i < |items| ensures P.PresetName(items[i]).Some? <==> HasName(items[i], false) {
        if P.PresetName(items[i]).Some? { assert IsNamed(items[i], P.PresetName(items[i]).value, false); }
      }
    }
    if forall i | 0 <= i < |items| :: P.PresetName(items[i]).Some? {
      var names := P.PresetNames(List(items)).value;
      if preset in names {
        var i :| 0 <= i < |names| && names[i] == preset;
        assert IsNamed(items[i], preset, false);
      }
      if i :| 0 <= i < |items| && IsNamed(items[i], preset, false) { assert names[i] == preset; }
    }
  }

  lemma NoPlainName(item: Value)
    requires !item.Str?
    ensures !HasName(item, true)
  {
  }

  lemma PresetsRead(list: C.Answer, names: C.Answer)
    ensures PresetSeen(C.CaptureRenderPresets(list, names)) <==> PresetIsListed(list, names)
  {
    hide C.Observe, P.PresetNames, ListsPreset;
    ObservedRead("GetRenderPresetList", list);
    ObservedRead("GetRenderPresetNames", names);
    forall v { PresetListRead(v, "Redline Broadcast Master"); }
    assert Answered(list) <==> list.Returns? && Normalize(list.value).Some? by { AnsweredIs(list); }
    assert Answered(names) <==> names.Returns? && Normalize(names.value).Some? by { AnsweredIs(names); }
  }

  lemma AnsweredIs(a: C.Answer)
    ensures Answered(a) <==> a.Returns? && Normalize(a.value).Some?
  {
    if a.Returns? && Normalize(a.value).Some? { assert Gives(a, Normalize(a.value).value); }
  }

  predicate ListsSomething(a: C.Answer) {
    a.Returns? && (a.value.List? || a.value.Tuple?) && a.value.items != []
  }

  /** Some track up to the count lists at least one item. */
  ghost predicate HasItem(t: C.TrackAnswers, count: nat) {
    exists track: nat :: 1 <= track <= count && ListsSomething(t.items(track))
  }

  lemma {:induction false} ItemsRead(t: C.TrackAnswers, n: nat)
    requires C.CaptureTracks(t, n).Some?
    ensures VideoItems(t, n) > 0 <==> HasItem(t, n)
  {
    if n > 0 {
      ItemsRead(t, n - 1);
      TrackRead(t, n);
      hide C.CaptureItems, ListsSomething;
      if track: nat :| 1 <= track <= n && ListsSomething(t.items(track)) {
        if track < n { assert 1 <= track <= n - 1 && ListsSomething(t.items(track)); }
      }
    }
  }

  lemma TrackRead(t: C.TrackAnswers, n: nat)
    requires C.CaptureItems(t, n).Some?
    ensures |C.CaptureItems(t, n).value| > 0 <==> ListsSomething(t.items(n))
  {
  }

  /** The video tracks, as many as counted, list at least one item. */
  ghost predicate HasVideoItem(t: C.TrackAnswers) {
    exists n: nat :: Gives(t.count, Int(n)) && HasItem(t, n)
  }

  lemma CountRead(a: C.Answer, n: nat)
    ensures C.ObservedCount(a) == Some(Some(n)) <==> Gives(a, Int(n))
  {
  }

  lemma VideoRead(t: C.TrackAnswers)
    requires C.CaptureTrackGroup("video", t, true).Some?
    ensures VideoItems(t, VideoTrackCount(t)) > 0 <==> HasVideoItem(t)
  {
    hide C.CaptureTracks, C.Observe, VideoItems, HasItem, Gives;
    var n := VideoTrackCount(t);
    forall m: nat ensures C.ObservedCount(t.count) == Some(Some(m)) <==> Gives(t.count, Int(m)) { CountRead(t.count, m); }
    ItemsRead(t, n);
  }

  lemma NameRead(a: C.Answer, name: string)
    ensures C.RequiredName(a) == Some(name) <==> a == C.Returns(Str(name)) && T.Strip(name) != ""
  {
    hide T.Strip;
  }

  /** The answer is a text that is not blank. */
  predicate IsText(a: C.Answer) {
    a.Returns? && a.value.Str? && T.Strip(a.value.s) != ""
  }

  lemma TextsStay(v: Value, n: Value)
    requires Normalize(v) == Some(n)
    ensures n.Str? <==> v.Str?
    ensures n.Str? ==> n == v
  {
  }

  lemma ProductRead(a: C.Answer)
    ensures P.Observed(C.Observe("GetProductName", a)) && P.NonBlankString(P.Get(C.Observe("GetProductName", a), "value")) <==>
            IsText(a)
  {
    hide C.Observe, P.Observed, P.Get, T.Strip;
    ObservedRead("GetProductName", a);
    if n :| Gives(a, n) { TextsStay(a.value, n); }
    if IsText(a) { assert Gives(a, a.value); }
  }

  /** A collected snapshot passes exactly when the last reading of the timeline's name, the product, the
      versions, the presets and the video tracks answered like this. */
  lemma PassedIff(a: C.Answers, others: C.Others, doc: Value)
    requires C.CollectSnapshot(a, Some(others), CONTEXT) == Some(doc) && OthersAreJson(a, others)
    ensures P.EvaluateOfflinePreflight(doc) == P.Passed <==>
            && a.timelineName == C.Returns(Str("RLC-E9901_TIMELINE"))
            && IsText(a.session.product)
            && VersionIsReviewed(a.session.versionString, a.session.version)
            && PresetIsListed(a.presetList, a.presetNames)
            && HasVideoItem(a.video)
    ensures P.EvaluateOfflinePreflight(doc) != P.NotEvaluated
  {
    hide C.CollectSnapshot, C.CaptureRenderPresets, C.Observe, P.EvaluateOfflinePreflight, P.Observed, P.NonBlankString, P.Get,
      P.VersionsAgree, P.ReadVersionString, P.ReadVersionList, PresetSeen, VideoItems, VideoTrackCount, C.RequiredName,
      IsText, VersionIsReviewed, PresetIsListed, HasVideoItem, OthersAreJson, C.CaptureTrackGroup;
    VerdictIsTheFive(a, others, doc);
    var p := CollectedParts(a, others, doc);
    NameRead(a.timelineName, "RLC-E9901_TIMELINE");
    assert T.Strip("RLC-E9901_TIMELINE") != "" by { T.StripOfTrimmed("RLC-E9901_TIMELINE"); }
    ProductRead(a.session.product);
    VersionRead(a.session.versionString, a.session.version);
    PresetsRead(a.presetList, a.presetNames);
    VideoRead(a.video);
  }

  // ---- when there is a snapshot at all ----

  /** An accessor that cannot be called counts as unavailable. */
  predicate IsUnavailable(a: C.Answer) {
    a.Absent? || a.NotCallable?
  }

  /** Two calls of one accessor leave the same evidence. */
  predicate SameEvidence(a: C.Answer, b: C.Answer) {
    || (IsUnavailable(a) && IsUnavailable(b)) || (a.LookupFails? && b.LookupFails?) || (a.CallFails? && b.CallFails?)
    || (a.Returns? && b.Returns? && C.TypeName(a.value) == C.TypeName(b.value)
        && match (Normalize(a.value), Normalize(b.value))
           case (Some(m), Some(n)) => Same(m, n)
           case (None, None) => true
           case _ => false)
  }

  /** One of the version accessors gives something. */
  ghost predicate VersionGiven(s: C.SessionAnswers) {
    exists n :: (Gives(s.versionString, n) || Gives(s.version, n)) && n != Null && n != Str("") && n != List([])
  }

  /** The guard's answers: the project, its timelines, the timeline, no rendering and nothing queued. */
  predicate GuardShows(g: C.GuardAnswers, timelines: nat) {
    && g.projectName == C.Returns(Str("RLC-E9901_MASTER")) && g.timelineCount == C.Returns(Int(timelines))
    && g.current.Returns? && Truthy(g.current.value)
    && g.currentName == C.Returns(Str("RLC-E9901_TIMELINE")) && g.targetName == C.Returns(Str("RLC-E9901_TIMELINE"))
    && g.rendering == C.Returns(Bool(false))
    && (g.queue == C.Returns(Null) || g.queue == C.Returns(Bool(false)) || g.queue == C.Returns(List([])) || g.queue == C.Returns(Tuple([])))
  }

  /** A list of usable handles; None and False stand for an empty one. */
  predicate ListsHandles(a: C.Answer) {
    && a.Returns?
    && match a.value
       case Null => true
       case Bool(b) => !b
       case List(items) => forall i | 0 <= i < |items| :: Truthy(items[i])
       case Tuple(items) => forall i | 0 <= i < |items| :: Truthy(items[i])
       case _ => false
  }

  /** The tracks of one kind can be captured: counted, and each lists handles; a count may be missing
      where the kind is optional. */
  ghost predicate TracksGiven(t: C.TrackAnswers, required: bool) {
    if !Answered(t.count) then !required
    else exists n: nat :: Gives(t.count, Int(n)) && forall track: nat | 1 <= track <= n :: ListsHandles(t.items(track))
  }

  lemma ObservationFields(source: string, s: string, x: Value, v: Value, e: Value)
    ensures var m := C.Observation(source, s, x, v, e);
            && m.Dict? && m.entries.Keys == {Text("source_method"), Text("status"), Text("value_type"), Text("value"), Text("error")}
            && m.entries[Text("source_method")] == Str(source) && m.entries[Text("status")] == Str(s)
            && m.entries[Text("value_type")] == x && m.entries[Text("value")] == v && m.entries[Text("error")] == e
  {
  }

  lemma ObservationsAgree(source: string, s: string, t: string, x: Value, y: Value, v: Value, w: Value, e: Value, f: Value)
    ensures Same(C.Observation(source, s, x, v, e), C.Observation(source, t, y, w, f)) <==>
            s == t && Same(x, y) && Same(v, w) && Same(e, f)
  {
    hide C.Observation;
    ObservationFields(source, s, x, v, e);
    ObservationFields(source, t, y, w, f);
    var m, n := C.Observation(source, s, x, v, e).entries, C.Observation(source, t, y, w, f).entries;
    FiveAgree(m, n);
    TextsAgree(Str(source), Str(source));
    TextsAgree(Str(s), Str(t));
  }

  lemma FiveAgree(m: map<Key, Value>, n: map<Key, Value>)
    requires m.Keys == n.Keys == {Text("source_method"), Text("status"), Text("value_type"), Text("value"), Text("error")}
    ensures Same(Dict(m), Dict(n)) <==>
            && Same(m[Text("source_method")], n[Text("source_method")]) && Same(m[Text("status")], n[Text("status")])
            && Same(m[Text("value_type")], n[Text("value_type")]) && Same(m[Text("value")], n[Text("value")])
            && Same(m[Text("error")], n[Text("error")])
  {
  }

  lemma TextsAgree(x: Value, y: Value)
    requires (x.Null? || x.Str?) && (y.Null? || y.Str?)
    ensures Same(x, y) <==> x == y
  {
  }

  ghost predicate IsFailure(e: Value) {
    e.Null? || exists kind :: e == C.Failure(kind)
  }

  lemma FailuresAgree(e: Value, f: Value)
    requires IsFailure(e) && IsFailure(f)
    ensures Same(e, f) <==> e == f
  {
    if !e.Null? && !f.Null? {
      var k :| e == C.Failure(k);
      var l :| f == C.Failure(l);
      TextsAgree(Str(k), Str(l));
      assert e.entries.Keys == {Text("type")} == f.entries.Keys;
      assert Same(e, f) <==> Same(e.entries[Text("type")], f.entries[Text("type")]);
      assert Same(e, f) ==> k == l;
    }
  }

  /** The status, the value's type, the value and the error that an answer leaves. */
  function Evidence(a: C.Answer): (string, Value, Value, Value) {
    match a
    case Absent => ("unavailable", Null, Null, C.Failure("AccessorUnavailable"))
    case NotCallable => ("unavailable", Null, Null, C.Failure("AccessorUnavailable"))
    case LookupFails => ("error", Null, Null, C.Failure("LookupRaised"))
    case CallFails => ("error", Null, Null, C.Failure("CallRaised"))
    case Returns(v) =>
      match Normalize(v)
      case None => ("error", Str(C.TypeName(v)), Null, C.Failure("UnsupportedEvidenceType"))
      case Some(n) => ("observed", Str(C.TypeName(v)), n, Null)
  }

  lemma EvidenceIs(source: string, a: C.Answer)
    ensures var (s, x, v, e) := Evidence(a); C.Observe(source, a) == C.Observation(source, s, x, v, e)
  {
  }

  lemma SameEvidenceRead(source: string, a: C.Answer, b: C.Answer)
    ensures Same(C.Observe(source, a), C.Observe(source, b)) <==> SameEvidence(a, b)
  {
    hide C.Observe, C.Observation, C.Failure, Same;
    EvidenceIs(source, a);
    EvidenceIs(source, b);
    var (s, x, v, e) := Evidence(a);
    var (t, y, w, f) := Evidence(b);
    ObservationsAgree(source, s, t, x, y, v, w, e, f);
    EvidenceAgrees(a, b);
  }

  lemma EvidenceAgrees(a: C.Answer, b: C.Answer)
    ensures var (s, x, v, e) := Evidence(a);
            var (t, y, w, f) := Evidence(b);
            s == t && Same(x, y) && Same(v, w) && Same(e, f) <==> SameEvidence(a, b)
  {
    hide C.Failure, Normalize, C.TypeName, Same;
    var (s, x, v, e) := Evidence(a);
    var (t, y, w, f) := Evidence(b);
    TextsAgree(x, y);
    FailuresAgree(e, f);
    FailureKinds();
    if v.Null? && w.Null? { TextsAgree(v, w); }
  }

  lemma FailureKinds()
    ensures forall k, l :: C.Failure(k) == C.Failure(l) <==> k == l
    ensures forall k :: C.Failure(k).Dict?
  {
    forall k, l: string | C.Failure(k) == C.Failure(l) ensures k == l {
      assert C.Failure(k).entries[Text("type")] == Str(k) && C.Failure(l).entries[Text("type")] == Str(l);
    }
  }

  lemma EmptyQueueRead(a: C.Answer)
    ensures C.RequiredCollection(a) == Some([]) <==>
            a == C.Returns(Null) || a == C.Returns(Bool(false)) || a == C.Returns(List([])) || a == C.Returns(Tuple([]))
  {
  }

  lemma NatRead(a: C.Answer, n: nat)
    ensures C.RequiredCount(a) == Some(n) <==> a == C.Returns(Int(n))
  {
  }

  lemma NamesAreNotBlank()
    ensures T.Strip("RLC-E9901_MASTER") != "" && T.Strip("RLC-E9901_TIMELINE") != ""
  {
    T.StripOfTrimmed("RLC-E9901_MASTER");
    T.StripOfTrimmed("RLC-E9901_TIMELINE");
  }

  lemma GuardRead(g: C.GuardAnswers)
    ensures C.CaptureGuardState(g).Some? && C.IsSafe(C.CaptureGuardState(g).value, CONTEXT) <==> exists n: nat :: GuardShows(g, n)
    ensures forall n: nat | GuardShows(g, n) ::
              C.CaptureGuardState(g) == Some(C.Guard("RLC-E9901_MASTER", n, "RLC-E9901_TIMELINE", "RLC-E9901_TIMELINE", false, []))
  {
    hide C.RequiredName, C.RequiredCount, C.RequiredCollection, T.Strip, Truthy;
    NamesAreNotBlank();
    NameRead(g.projectName, "RLC-E9901_MASTER");
    NameRead(g.currentName, "RLC-E9901_TIMELINE");
    NameRead(g.targetName, "RLC-E9901_TIMELINE");
    EmptyQueueRead(g.queue);
    forall n: nat ensures C.RequiredCount(g.timelineCount) == Some(n) <==> g.timelineCount == C.Returns(Int(n)) {
      NatRead(g.timelineCount, n);
    }
    if C.CaptureGuardState(g).Some? && C.IsSafe(C.CaptureGuardState(g).value, CONTEXT) {
      assert C.RequiredCollection(g.queue).value == [];
      assert GuardShows(g, C.CaptureGuardState(g).value.timelineCount);
    }
  }

  lemma HandlesRead(t: C.TrackAnswers, track: nat)
    ensures C.CaptureItems(t, track).Some? <==> ListsHandles(t.items(track))
  {
    hide Truthy;
  }

  lemma {:induction false} AllTracksRead(t: C.TrackAnswers, n: nat)
    ensures C.CaptureTracks(t, n).Some? <==> forall track: nat | 1 <= track <= n :: ListsHandles(t.items(track))
  {
    hide C.CaptureItems, ListsHandles;
    if n > 0 {
      AllTracksRead(t, n - 1);
      HandlesRead(t, n);
    }
  }

  lemma NoCountRead(a: C.Answer)
    ensures C.ObservedCount(a) == Some(None) <==> !Answered(a)
  {
    AnsweredIs(a);
  }

  lemma TracksRead(kind: string, t: C.TrackAnswers, required: bool)
    ensures C.CaptureTrackGroup(kind, t, required).Some? <==> TracksGiven(t, required)
  {
    hide C.CaptureTracks, C.Observe, ListsHandles, Answered, Gives, C.ObservedCount, C.TrackDocuments;
    NoCountRead(t.count);
    forall m: nat ensures C.ObservedCount(t.count) == Some(Some(m)) <==> Gives(t.count, Int(m)) { CountRead(t.count, m); }
    forall n: nat { AllTracksRead(t, n); }
  }

  lemma UsableRead(a: C.Answer)
    ensures C.UsableVersion(a) <==> exists n :: Gives(a, n) && n != Null && n != Str("") && n != List([])
  {
    if C.UsableVersion(a) { assert Gives(a, Normalize(a.value).value); }
  }

  lemma SessionRead(s: C.SessionAnswers)
    ensures C.CaptureSession(s) == if VersionGiven(s) then Some(C.SessionDocument(s)) else None
  {
    hide C.UsableVersion, C.SessionDocument, Gives;
    UsableRead(s.version);
    UsableRead(s.versionString);
  }

  lemma SessionsAgree(s: C.SessionAnswers, t: C.SessionAnswers)
    ensures Same(C.SessionDocument(s), C.SessionDocument(t)) <==>
            SameEvidence(s.product, t.product) && SameEvidence(s.version, t.version) && SameEvidence(s.versionString, t.versionString)
  {
    hide C.Observe, SameEvidence;
    SameEvidenceRead("GetProductName", s.product, t.product);
    SameEvidenceRead("GetVersion", s.version, t.version);
    SameEvidenceRead("GetVersionString", s.versionString, t.versionString);
    var m, n := C.SessionDocument(s).entries, C.SessionDocument(t).entries;
    assert m.Keys == {Text("product_name"), Text("version"), Text("version_string")} == n.Keys;
    assert m[Text("product_name")] == C.Observe("GetProductName", s.product) && n[Text("product_name")] == C.Observe("GetProductName", t.product);
    assert m[Text("version")] == C.Observe("GetVersion", s.version) && n[Text("version")] == C.Observe("GetVersion", t.version);
    assert m[Text("version_string")] == C.Observe("GetVersionString", s.versionString)
        && n[Text("version_string")] == C.Observe("GetVersionString", t.versionString);
  }

  function SafeGuard(n: nat): C.Guard {
    C.Guard("RLC-E9901_MASTER", n, "RLC-E9901_TIMELINE", "RLC-E9901_TIMELINE", false, [])
  }

  lemma GuardsAgree(m: nat, n: nat)
    ensures Same(C.GuardDocument(SafeGuard(m)), C.GuardDocument(SafeGuard(n))) <==> m == n
  {
    var x, y := C.GuardDocument(SafeGuard(m)), C.GuardDocument(SafeGuard(n));
    assert x.entries[Text("timeline_count")] == Int(m) && y.entries[Text("timeline_count")] == Int(n);
    if m == n {
      GuardIsJson(SafeGuard(m));
      assert C.BlankEntries(0) == [];
      assert AllFinite(x);
      SameIsReflexive(x);
    }
  }

  /** There is a snapshot exactly when every step found what it needs, and the second look at session and
      guard saw what the first one did. */
  ghost predicate Collectable(a: C.Answers) {
    && VersionGiven(a.session) && VersionGiven(a.sessionAgain)
    && SameEvidence(a.sessionAgain.product, a.session.product) && SameEvidence(a.sessionAgain.version, a.session.version)
    && SameEvidence(a.sessionAgain.versionString, a.session.versionString)
    && a.projectManager.Returns? && Truthy(a.projectManager.value) && a.project.Returns? && Truthy(a.project.value)
    && a.projectName == C.Returns(Str("RLC-E9901_MASTER"))
    && (exists n: nat :: GuardShows(a.preGuard, n) && GuardShows(a.postGuard, n))
    && TracksGiven(a.audio, true) && TracksGiven(a.video, true) && TracksGiven(a.subtitle, false)
    && IsText(a.timelineName)
  }

  lemma GuardPairRead(pre: C.GuardAnswers, post: C.GuardAnswers)
    ensures (exists n: nat :: GuardShows(pre, n) && GuardShows(post, n)) <==>
            && C.CaptureGuardState(pre).Some? && C.IsSafe(C.CaptureGuardState(pre).value, CONTEXT)
            && C.CaptureGuardState(post).Some? && C.IsSafe(C.CaptureGuardState(post).value, CONTEXT)
            && Same(C.GuardDocument(C.CaptureGuardState(post).value), C.GuardDocument(C.CaptureGuardState(pre).value))
  {
    hide C.CaptureGuardState, C.IsSafe, C.GuardDocument, GuardShows, Same;
    GuardRead(pre);
    GuardRead(post);
    if n: nat :| GuardShows(pre, n) && GuardShows(post, n) {
      assert C.CaptureGuardState(pre) == Some(SafeGuard(n)) == C.CaptureGuardState(post);
      GuardsAgree(n, n);
    }
    if n: nat, m: nat :| GuardShows(pre, n) && GuardShows(post, m) {
      assert C.CaptureGuardState(pre) == Some(SafeGuard(n)) && C.CaptureGuardState(post) == Some(SafeGuard(m));
      GuardsAgree(m, n);
    }
  }

  lemma TextRead(a: C.Answer)
    ensures C.RequiredName(a).Some? <==> IsText(a)
  {
    hide T.Strip;
  }

  lemma CollectedIff(a: C.Answers, others: C.Others)
    requires OthersAreJson(a, others)
    ensures C.CollectSnapshot(a, Some(others), CONTEXT).Some? <==> Collectable(a)
  {
    hide C.CaptureTrackGroup, C.CaptureGuardState, C.RequiredName, C.SessionDocument, C.CaptureSession, C.CaptureRenderPresets,
      C.GuardDocument, C.IsSafe, C.Document, C.ProjectDocument, C.TimelineDocument, VersionGiven, SameEvidence, TracksGiven, GuardShows,
      IsText, Normalize, Same, T.Strip, OthersAreJson, Truthy;
    NamesAreNotBlank();
    SessionRead(a.session);
    SessionRead(a.sessionAgain);
    SessionsAgree(a.sessionAgain, a.session);
    NameRead(a.projectName, "RLC-E9901_MASTER");
    GuardPairRead(a.preGuard, a.postGuard);
    TracksRead("audio", a.audio, true);
    TracksRead("video", a.video, true);
    TracksRead("subtitle", a.subtitle, false);
    TextRead(a.timelineName);
    if Collectable(a) { DocumentNormalizes(a, others); }
  }

  lemma DocumentNormalizes(a: C.Answers, others: C.Others)
    requires C.CaptureTrackGroup("audio", a.audio, true).Some? && C.CaptureTrackGroup("video", a.video, true).Some?
    requires C.CaptureTrackGroup("subtitle", a.subtitle, false).Some? && C.RequiredName(a.timelineName).Some?
    requires C.CaptureGuardState(a.preGuard).Some? && C.CaptureGuardState(a.postGuard).Some?
    requires OthersAreJson(a, others)
    ensures Normalize(DocumentOf(others, PartsOf(a))).Some?
  {
    hide C.CaptureTrackGroup, C.CaptureGuardState, C.RequiredName, C.SessionDocument, C.CaptureRenderPresets, DocumentOf, Normalize;
    SessionIsJson(a.session);
    PresetsAreJson(a.presetList, a.presetNames);
    GroupIsJson("audio", a.audio, true);
    GroupIsJson("video", a.video, true);
    GroupIsJson("subtitle", a.subtitle, false);
    DocumentIsJson(others, PartsOf(a));
    NormalizeOfJson(DocumentOf(others, PartsOf(a)));
  }
}
