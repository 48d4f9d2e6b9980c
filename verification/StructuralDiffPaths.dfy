/** The written form of a record's path tells records apart as long as no key holds a slash. */
module StructuralDiffPaths {
  import opened PythonValues
  import opened Splitting
  import opened StructuralDiff
  import opened StructuralDiffProperties
  import T = Text

  predicate SlashFree(v: Value) {
    match v
    case List(items) => forall i | 0 <= i < |items| :: SlashFree(items[i])
    case Dict(entries) => forall k | k in entries :: (k.Text? ==> Without(k.text, '/')) && SlashFree(entries[k])
    case _ => true
  }

  predicate SlashFreeStep(s: Step) {
    s.KeyStep? ==> Without(s.key, '/')
  }

  predicate AllDifferent(rs: seq<Record>) {
    forall i, j | 0 <= i < j < |rs| :: rs[i].path != rs[j].path
  }

  /** path goes on from base through step s and stops there or goes on further. */
  predicate Through(base: string, s: Step, path: string) {
    var n := |base + StepText(s)|;
    base + StepText(s) <= path && (|path| == n || path[n] == '/')
  }

  function StepName(s: Step): string {
    StepText(s)[1..]
  }

  lemma StepNameIsSlashFree(s: Step)
    requires SlashFreeStep(s)
    ensures Without(StepName(s), '/') && StepText(s) == "/" + StepName(s)
  {
  }

  lemma NameEndsAtSlash(base: string, s: Step, path: string)
    requires SlashFreeStep(s) && Through(base, s, path)
    ensures |base| + 1 <= |path|
    ensures var tail := path[|base| + 1..]; tail[..FirstAt(tail, '/')] == StepName(s)
  {
    StepNameIsSlashFree(s);
    var name := StepName(s);
    assert base + StepText(s) == base + "/" + name;
    var tail := path[|base| + 1..];
    assert tail[..|name|] == name by {
      assert path[..|base| + 1 + |name|] == base + "/" + name;
    }
    if |tail| == |name| {
      FirstAtEndOfPart(name, '/', "");
      assert tail == name;
    } else {
      assert tail == name + ['/'] + tail[|name| + 1..];
      FirstAtEndOfPart(name, '/', tail[|name| + 1..]);
    }
  }

  lemma DifferentStepsDifferentPaths(base: string, s: Step, t: Step, p: string, q: string)
    requires SlashFreeStep(s) && SlashFreeStep(t) && s.KeyStep? == t.KeyStep? && s != t
    requires Through(base, s, p) && Through(base, t, q)
    ensures p != q
  {
    NameEndsAtSlash(base, s, p);
    NameEndsAtSlash(base, t, q);
    assert StepName(s) != StepName(t) by {
      if s.KeyStep? {
        assert StepName(s) == s.key && StepName(t) == t.key;
      } else {
        assert StepName(s) == T.NatText(s.index) && StepName(t) == T.NatText(t.index);
        if StepName(s) == StepName(t) { T.NatTextInjective(s.index, t.index); }
      }
    }
  }

  lemma {:induction false} PathGoesThrough(root: string, steps: seq<Step>, s: Step, longer: seq<Step>)
    requires steps + [s] <= longer
    ensures Through(PathText(root, steps), s, PathText(root, longer))
    decreases |longer|
  {
    if |longer| == |steps| + 1 {
      assert longer[..|longer| - 1] == steps && longer[|longer| - 1] == s;
    } else {
      PathGoesThrough(root, steps, s, longer[..|longer| - 1]);
    }
  }

  lemma {:induction false} PathsAreDifferent(root: string, steps: seq<Step>, c: Value, p: Value)
    requires SlashFree(c) && SlashFree(p) && Diff(root, steps, c, p).Some?
    ensures AllDifferent(Diff(root, steps, c, p).value)
    decreases c, 1, 0
  {
    if Descends(c, p) {
      hide Slots;
      SlotsAreDistinct(c, p);
      forall s | s in Slots(c, p) ensures SlashFreeStep(s) && s.KeyStep? == c.Dict? && (Child(c, s).Some? || Child(p, s).Some?) {
        SlotsHold(c, p, s);
      }
      SlotPathsAreDifferent(root, steps, c, p, Slots(c, p));
    }
  }

  predicate ThroughOneOf(base: string, rs: seq<Record>, slots: seq<Step>) {
    forall r | r in rs :: exists s :: s in slots && Through(base, s, r.path)
  }

  lemma {:induction false} SlotPathsAreDifferent(root: string, steps: seq<Step>, c: Value, p: Value, slots: seq<Step>)
    requires SlashFree(c) && SlashFree(p) && DiffSlots(root, steps, c, p, slots).Some? && Distinct(slots)
    requires forall s | s in slots ::
               SlashFreeStep(s) && s.KeyStep? == c.Dict? && (Child(c, s).Some? || Child(p, s).Some?)
    ensures AllDifferent(DiffSlots(root, steps, c, p, slots).value)
    ensures ThroughOneOf(PathText(root, steps), DiffSlots(root, steps, c, p, slots).value, slots)
    decreases c, 0, |slots|
  {
    hide DiffSlot, Through, SlashFree, SlashFreeStep, PathText;
    if slots != [] {
      var base := PathText(root, steps);
      var front, last := slots[..|slots| - 1], slots[|slots| - 1];
      assert slots == front + [last];
      assert last !in front;
      SlotPathsAreDifferent(root, steps, c, p, front);
      OneSlotPathsAreDifferent(root, steps, c, p, last);
      var rs, qs := DiffSlots(root, steps, c, p, front).value, DiffSlot(root, steps, c, p, last).value;
      forall i, j | 0 <= i < |rs| && 0 <= j < |qs| ensures rs[i].path != qs[j].path {
        assert rs[i] in rs;
        var s :| s in front && Through(base, s, rs[i].path);
        DifferentStepsDifferentPaths(base, s, last, rs[i].path, qs[j].path);
      }
    }
  }

  lemma {:induction false} OneSlotPathsAreDifferent(root: string, steps: seq<Step>, c: Value, p: Value, s: Step)
    requires SlashFree(c) && SlashFree(p) && DiffSlot(root, steps, c, p, s).Some?
    requires Child(c, s).Some? || Child(p, s).Some?
    ensures AllDifferent(DiffSlot(root, steps, c, p, s).value)
    ensures forall r | r in DiffSlot(root, steps, c, p, s).value :: Through(PathText(root, steps), s, r.path)
    decreases c, 0, 0
  {
    hide IsContextSensitive, Diff, Through, PathText;
    SlotLeads(root, steps, c, p, s);
    forall r | r in DiffSlot(root, steps, c, p, s).value ensures Through(PathText(root, steps), s, r.path) {
      PathGoesThrough(root, steps, s, r.steps);
    }
    if Child(c, s).Some? && Child(p, s).Some? {
      assert Child(c, s).value < c && SlashFree(Child(c, s).value) && SlashFree(Child(p, s).value);
      PathsAreDifferent(root, steps + [s], Child(c, s).value, Child(p, s).value);
    }
  }

  // ---- the written path and the place ----

  lemma {:induction false} PathGrows(root: string, steps: seq<Step>, more: seq<Step>)
    requires more != []
    ensures |PathText(root, steps + more)| > |PathText(root, steps)|
  {
    assert steps + [more[0]] <= steps + more;
    PathGoesThrough(root, steps, more[0], steps + more);
    StepIsWritten(more[0]);
  }

  lemma StepIsWritten(s: Step)
    ensures |StepText(s)| > 0
  {
  }

  /** The steps q exist in one of the two documents. */
  predicate Exists(c: Value, p: Value, q: seq<Step>) {
    At(c, q).Some? || At(p, q).Some?
  }

  /** Without slashes in keys the written path of a record leads to one place only: any steps that exist
      in either document and are written the same are the record's own. */
  lemma {:induction false} WrittenPathIsThePlace(root: string, steps: seq<Step>, c: Value, p: Value, r: Record, q: seq<Step>)
    requires SlashFree(c) && SlashFree(p) && Diff(root, steps, c, p).Some? && r in Diff(root, steps, c, p).value
    requires Exists(c, p, q) && PathText(root, steps + q) == r.path
    ensures r.steps == steps + q
    decreases c, 1
  {
    hide PathText, SlashFree, IsContextSensitive, Same;
    if Descends(c, p) {
      hide DiffSlot, Slots;
      SlotBySlot(root, steps, c, p, Slots(c, p));
      var s :| s in Slots(c, p) && r in DiffSlot(root, steps, c, p, s).value;
      SlotsHold(c, p, s);
      PlaceInSlot(root, steps, c, p, s, r, q);
    } else if q != [] {
      PathGrows(root, steps, q);
    } else {
      assert steps + q == steps;
    }
  }

  lemma {:induction false} PlaceInSlot(root: string, steps: seq<Step>, c: Value, p: Value, s: Step, r: Record, q: seq<Step>)
    requires SlashFree(c) && SlashFree(p) && Descends(c, p) && (Child(c, s).Some? || Child(p, s).Some?)
    requires DiffSlot(root, steps, c, p, s).Some? && r in DiffSlot(root, steps, c, p, s).value
    requires Exists(c, p, q) && PathText(root, steps + q) == r.path
    ensures r.steps == steps + q
    decreases c, 0
  {
    hide PathText, IsContextSensitive, Same, Diff, Through, SlashFree;
    var base := PathText(root, steps);
    SlotLeads(root, steps, c, p, s);
    PathGoesThrough(root, steps, s, r.steps);
    if q == [] {
      assert r.steps == steps + r.steps[|steps|..] && steps + q == steps;
      PathGrows(root, steps, r.steps[|steps|..]);
    } else {
      var t, rest := q[0], q[1..];
      assert q == [t] + rest && steps + q == steps + [t] + rest;
      PathGoesThrough(root, steps, t, steps + q);
      ChildSteps(c, p, s);
      ChildSteps(c, p, t);
      if s != t { DifferentStepsDifferentPaths(base, s, t, r.path, PathText(root, steps + q)); }
      if Child(c, s).Some? && Child(p, s).Some? {
        assert Child(c, s).value < c;
        ChildrenAreSlashFree(c, s);
        ChildrenAreSlashFree(p, s);
        WrittenPathIsThePlace(root, steps + [s], Child(c, s).value, Child(p, s).value, r, rest);
      } else if rest != [] {
        PathGrows(root, steps + [s], rest);
      } else {
        assert steps + q == steps + [s];
      }
    }
  }

  lemma ChildSteps(c: Value, p: Value, s: Step)
    requires SlashFree(c) && SlashFree(p) && Descends(c, p) && (Child(c, s).Some? || Child(p, s).Some?)
    ensures SlashFreeStep(s) && s.KeyStep? == c.Dict?
  {
  }

  lemma ChildrenAreSlashFree(v: Value, s: Step)
    requires SlashFree(v) && Child(v, s).Some?
    ensures SlashFree(Child(v, s).value)
  {
  }

  // ---- slashes in keys ----

  function Inner(key: string, n: int): Value {
    Dict(map[Text(key) := Int(n)])
  }

  function Outer(outer: string, inner: string, n: int, m: int): Value {
    Dict(map[Text(outer) := Inner(inner, n), Text(outer + "/" + inner) := Int(m)])
  }

  function ChangedLeaf(steps: seq<Step>, n: int, m: int): Record {
    Record(steps, PathText("", steps), ClassifyLeaf(PathText("", steps), Int(n), Int(m)), Int(n), Int(m))
  }

  /** With a slash in a key two records of one comparison bear the same path: {a: {b: 1}, a/b: 2}
      against {a: {b: 3}, a/b: 4} reports /a/b twice, for all keys a and b. (A status that is a dict
      makes the comparison raise.) */
  lemma SlashesMakePathsCollide(a: string, b: string) returns (i: nat, j: nat)
    requires a != "status"
    ensures var diff := Diff("", [], Outer(a, b, 1, 2), Outer(a, b, 3, 4));
            && diff.Some? && i < |diff.value| && j < |diff.value| && i != j
            && diff.value[i].path == diff.value[j].path
            && diff.value[i].control == Int(1) && diff.value[i].production == Int(3)
            && diff.value[j].control == Int(2) && diff.value[j].production == Int(4)
  {
    hide Diff, PathText, ClassifyLeaf;
    var r, q := ChangedLeaf([KeyStep(a), KeyStep(b)], 1, 3), ChangedLeaf([KeyStep(a + "/" + b)], 2, 4);
    BothAreReported(a, b, r, q);
    var diff := Diff("", [], Outer(a, b, 1, 2), Outer(a, b, 3, 4));
    i :| 0 <= i < |diff.value| && diff.value[i] == r;
    j :| 0 <= j < |diff.value| && diff.value[j] == q;
    SlashedStepsAreWrittenAlike("", a, b);
  }

  lemma BothAreReported(a: string, b: string, r: Record, q: Record)
    requires a != "status"
    requires r == ChangedLeaf([KeyStep(a), KeyStep(b)], 1, 3) && q == ChangedLeaf([KeyStep(a + "/" + b)], 2, 4)
    ensures var diff := Diff("", [], Outer(a, b, 1, 2), Outer(a, b, 3, 4));
            diff.Some? && r in diff.value && q in diff.value
  {
    hide Diff, DiffSlots, DiffSlot, Slots, ChangedLeaf, Inner;
    var c, p := Outer(a, b, 1, 2), Outer(a, b, 3, 4);
    var long := a + "/" + b;
    OuterDescends(a, b);
    OuterChildren(a, b, 1, 2);
    OuterChildren(a, b, 3, 4);
    OuterSlots(c, p, a, long);
    SlotBySlot("", [], c, p, Slots(c, p));
    InnerSlot(a, b, c, p);
    LongSlot(a, b, c, p);
    DiffOfContainers("", [], c, p);
    assert KeyStep(a) in Slots(c, p) && r in DiffSlot("", [], c, p, KeyStep(a)).value;
    assert KeyStep(long) in Slots(c, p) && q in DiffSlot("", [], c, p, KeyStep(long)).value;
  }

  lemma SlashedIsNoStatus(a: string, b: string)
    ensures a + "/" + b != "status" && a + "/" + b != a
  {
    var long := a + "/" + b;
    assert long[|a|] == '/' && |long| > |a|;
    assert forall k | 0 <= k < |"status"| :: "status"[k] != '/';
  }

  lemma OuterChildren(a: string, b: string, n: int, m: int)
    ensures Outer(a, b, n, m).entries.Keys == {Text(a), Text(a + "/" + b)}
    ensures Child(Outer(a, b, n, m), KeyStep(a)) == Some(Inner(b, n))
    ensures Child(Outer(a, b, n, m), KeyStep(a + "/" + b)) == Some(Int(m))
  {
    hide Inner;
    SlashedIsNoStatus(a, b);
  }

  lemma OuterDescends(a: string, b: string)
    requires a != "status"
    ensures Descends(Outer(a, b, 1, 2), Outer(a, b, 3, 4))
  {
    SlashedIsNoStatus(a, b);
  }

  lemma DiffOfContainers(root: string, steps: seq<Step>, c: Value, p: Value)
    requires Descends(c, p)
    ensures Diff(root, steps, c, p) == DiffSlots(root, steps, c, p, Slots(c, p))
  {
    hide DiffSlots, Slots;
  }

  lemma OuterSlots(c: Value, p: Value, a: string, long: string)
    requires Descends(c, p) && c.Dict? && p.Dict? && c.entries.Keys == p.entries.Keys == {Text(a), Text(long)}
    ensures forall s :: s in Slots(c, p) <==> s == KeyStep(a) || s == KeyStep(long)
  {
    hide Slots;
    forall s ensures s in Slots(c, p) <==> s == KeyStep(a) || s == KeyStep(long) { SlotsHold(c, p, s); }
  }

  /** The nested entry: one record, two steps down. */
  lemma InnerSlot(a: string, b: string, c: Value, p: Value)
    requires Child(c, KeyStep(a)) == Some(Inner(b, 1)) && Child(p, KeyStep(a)) == Some(Inner(b, 3))
    ensures var diff := DiffSlot("", [], c, p, KeyStep(a));
            diff.Some? && ChangedLeaf([KeyStep(a), KeyStep(b)], 1, 3) in diff.value
  {
    hide DiffSlots, Slots, ChangedLeaf;
    var at, x, y := [KeyStep(a)], Inner(b, 1), Inner(b, 3);
    assert [] + at == at;
    SlotBySlot("", at, x, y, Slots(x, y));
    SlotsHold(x, y, KeyStep(b));
    forall s | s in Slots(x, y) ensures s == KeyStep(b) { SlotsHold(x, y, s); }
    InnerLeaf(a, b, x, y);
    var r := ChangedLeaf([KeyStep(a), KeyStep(b)], 1, 3);
    assert KeyStep(b) in Slots(x, y) && r in DiffSlot("", at, x, y, KeyStep(b)).value;
  }

  lemma InnerLeaf(a: string, b: string, x: Value, y: Value)
    requires Child(x, KeyStep(b)) == Some(Int(1)) && Child(y, KeyStep(b)) == Some(Int(3))
    ensures DiffSlot("", [KeyStep(a)], x, y, KeyStep(b)) == Some([ChangedLeaf([KeyStep(a), KeyStep(b)], 1, 3)])
  {
    hide PathText, ClassifyLeaf;
    assert [KeyStep(a)] + [KeyStep(b)] == [KeyStep(a), KeyStep(b)];
  }

  lemma LongSlot(a: string, b: string, c: Value, p: Value)
    requires Child(c, KeyStep(a + "/" + b)) == Some(Int(2)) && Child(p, KeyStep(a + "/" + b)) == Some(Int(4))
    ensures DiffSlot("", [], c, p, KeyStep(a + "/" + b)) == Some([ChangedLeaf([KeyStep(a + "/" + b)], 2, 4)])
  {
    hide PathText, ClassifyLeaf;
    assert [] + [KeyStep(a + "/" + b)] == [KeyStep(a + "/" + b)];
  }

  lemma SlashedStepsAreWrittenAlike(root: string, outer: string, inner: string)
    ensures PathText(root, [KeyStep(outer), KeyStep(inner)]) == PathText(root, [KeyStep(outer + "/" + inner)])
  {
    hide PathText;
    LastStepPath(root, [], KeyStep(outer));
    LastStepPath(root, [KeyStep(outer)], KeyStep(inner));
    LastStepPath(root, [], KeyStep(outer + "/" + inner));
    assert [KeyStep(outer)] + [KeyStep(inner)] == [KeyStep(outer), KeyStep(inner)];
    assert [] + [KeyStep(outer)] == [KeyStep(outer)];
    assert [] + [KeyStep(outer + "/" + inner)] == [KeyStep(outer + "/" + inner)];
    JoinedTexts(PathText(root, []), outer, inner);
  }

  lemma LastStepPath(root: string, steps: seq<Step>, s: Step)
    ensures PathText(root, steps + [s]) == PathText(root, steps) + StepText(s)
  {
    assert (steps + [s])[..|steps|] == steps;
  }

  lemma JoinedTexts(base: string, outer: string, inner: string)
    ensures base + ("/" + outer) + ("/" + inner) == base + ("/" + (outer + "/" + inner))
  {
    var mid := "/" + outer;
    assert "/" + (outer + "/" + inner) == mid + ("/" + inner);
  }
}
