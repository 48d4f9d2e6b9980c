/** Where a structural comparison puts its records, and when it raises, told from the two documents alone. */
module StructuralDiffPlaces {
  import opened PythonValues
  import opened SortedNames
  import opened StructuralDiff
  import opened StructuralDiffClasses
  import opened StructuralDiffProperties
  import T = Text

  /** The steps q lead to a place that has a record of its own. */
  predicate IsPlace(c: Value, p: Value, q: seq<Step>)
    decreases |q|
  {
    if !Inside(c, p) then q == []
    else
      && q != []
      && (if Child(c, q[0]).Some? && Child(p, q[0]).Some? then IsPlace(Child(c, q[0]).value, Child(p, q[0]).value, q[1..])
          else (Child(c, q[0]).Some? || Child(p, q[0]).Some?) && |q| == 1)
  }

  ghost predicate RecordedAt(rs: seq<Record>, steps: seq<Step>) {
    exists r :: r in rs && r.steps == steps
  }

  /** At some place the comparison meets a status it cannot look up. */
  ghost predicate MeetsRaisingStatus(c: Value, p: Value) {
    exists q :: RaisesAt(c, p, q)
  }

  predicate RaisesAt(c: Value, p: Value, q: seq<Step>) {
    IsPlace(c, p, q) && At(c, q).Some? && At(p, q).Some? && (StatusRaises(At(c, q).value) || StatusRaises(At(p, q).value))
  }

  /** The records of a comparison stand at its places and nowhere else. */
  lemma {:induction false} PlacesAreRecorded(root: string, steps: seq<Step>, c: Value, p: Value, q: seq<Step>)
    requires Diff(root, steps, c, p).Some?
    ensures RecordedAt(Diff(root, steps, c, p).value, steps + q) <==> IsPlace(c, p, q)
    decreases c, 1
  {
    InsideRead(c, p);
    if Inside(c, p) {
      InnerPlacesAreRecorded(root, steps, c, p, q);
    } else {
      assert Diff(root, steps, c, p).value[0] in Diff(root, steps, c, p).value;
      assert |steps + q| == |steps| <==> q == [];
    }
  }

  lemma {:induction false} InnerPlacesAreRecorded(root: string, steps: seq<Step>, c: Value, p: Value, q: seq<Step>)
    requires Diff(root, steps, c, p).Some? && Descends(c, p) && Inside(c, p)
    ensures RecordedAt(Diff(root, steps, c, p).value, steps + q) <==> IsPlace(c, p, q)
    decreases c, 0, 1
  {
    hide DiffSlot, Slots, Inside, PathText, Same, IsContextSensitive, Descends, At, LeadsFrom;
    var rs := Diff(root, steps, c, p).value;
    SlotBySlot(root, steps, c, p, Slots(c, p));
    forall s, r | s in Slots(c, p) && r in DiffSlot(root, steps, c, p, s).value ensures steps + [s] <= r.steps {
      SlotsHold(c, p, s);
      SlotLeads(root, steps, c, p, s);
    }
    if q == [] {
      assert steps + q == steps;
    } else {
      SlotsHold(c, p, q[0]);
      forall s, r | s in Slots(c, p) && r in DiffSlot(root, steps, c, p, s).value && r.steps == steps + q ensures s == q[0] {
        assert r.steps[|steps|] == s;
      }
      if q[0] in Slots(c, p) { SlotPlacesAreRecorded(root, steps, c, p, q); }
    }
  }

  lemma {:induction false} SlotPlacesAreRecorded(root: string, steps: seq<Step>, c: Value, p: Value, q: seq<Step>)
    requires q != [] && (Child(c, q[0]).Some? || Child(p, q[0]).Some?) && DiffSlot(root, steps, c, p, q[0]).Some?
    requires Inside(c, p)
    ensures RecordedAt(DiffSlot(root, steps, c, p, q[0]).value, steps + q) <==> IsPlace(c, p, q)
    decreases c, 0, 0
  {
    hide PathText, Same, IsContextSensitive, Diff, Inside;
    var s, rest := q[0], q[1..];
    assert q == [s] + rest && steps + q == steps + [s] + rest;
    if Child(c, s).Some? && Child(p, s).Some? {
      assert Child(c, s).value < c;
      PlacesAreRecorded(root, steps + [s], Child(c, s).value, Child(p, s).value, rest);
    } else {
      assert DiffSlot(root, steps, c, p, s).value[0] in DiffSlot(root, steps, c, p, s).value;
      assert |steps + q| == |steps + [s]| <==> |q| == 1;
    }
  }

  // ---- when it raises ----

  lemma {:induction false} RaisesIff(root: string, steps: seq<Step>, c: Value, p: Value)
    ensures Diff(root, steps, c, p).None? <==> MeetsRaisingStatus(c, p)
    decreases c, 2
  {
    hide Inside, StatusRaises, Says, MeetsRaisingStatus, DiffSlots, Slots, PathText, Same, IsContextSensitive;
    InsideRead(c, p);
    StatusRead(c);
    StatusRead(p);
    if Inside(c, p) {
      RaisesInsideIff(root, steps, c, p);
    } else {
      LeafRaisesIff(c, p);
    }
  }

  lemma LeafRaisesIff(c: Value, p: Value)
    requires !Inside(c, p)
    ensures MeetsRaisingStatus(c, p) <==> StatusRaises(c) || StatusRaises(p)
  {
    hide Inside, StatusRaises;
    assert RaisesAt(c, p, []) <==> StatusRaises(c) || StatusRaises(p);
    forall q | RaisesAt(c, p, q) ensures q == [] {}
  }

  lemma {:induction false} RaisesInsideIff(root: string, steps: seq<Step>, c: Value, p: Value)
    requires Inside(c, p) && Descends(c, p)
    ensures Diff(root, steps, c, p).None? <==> MeetsRaisingStatus(c, p)
    decreases c, 1
  {
    hide DiffSlot, Slots, Inside, Descends, MeetsRaisingStatus, RaisesBelow, ObservationStatus;
    SlotBySlot(root, steps, c, p, Slots(c, p));
    forall s | s in Slots(c, p) ensures DiffSlot(root, steps, c, p, s).None? <==> RaisesBelow(c, p, s) {
      SlotRaisesIff(root, steps, c, p, s);
    }
    forall s | RaisesBelow(c, p, s) ensures s in Slots(c, p) {
      BelowHasBoth(c, p, s);
      SlotsHold(c, p, s);
    }
    BelowIsWithin(c, p);
  }

  lemma BelowHasBoth(c: Value, p: Value, s: Step)
    requires RaisesBelow(c, p, s)
    ensures Child(c, s).Some? && Child(p, s).Some?
  {
  }

  ghost predicate RaisesBelow(c: Value, p: Value, s: Step) {
    Child(c, s).Some? && Child(p, s).Some? && MeetsRaisingStatus(Child(c, s).value, Child(p, s).value)
  }

  lemma {:induction false} SlotRaisesIff(root: string, steps: seq<Step>, c: Value, p: Value, s: Step)
    ensures DiffSlot(root, steps, c, p, s).None? <==> RaisesBelow(c, p, s)
    decreases c, 0
  {
    hide Diff, PathText, IsContextSensitive, RaisesAt;
    if Child(c, s).Some? && Child(p, s).Some? {
      assert Child(c, s).value < c;
      RaisesIff(root, steps + [s], Child(c, s).value, Child(p, s).value);
    }
  }

  lemma BelowIsWithin(c: Value, p: Value)
    requires Inside(c, p)
    ensures MeetsRaisingStatus(c, p) <==> exists s :: RaisesBelow(c, p, s)
  {
    hide Inside, StatusRaises;
    if MeetsRaisingStatus(c, p) {
      var q :| RaisesAt(c, p, q);
      AtStep(c, q);
      AtStep(p, q);
      assert RaisesAt(Child(c, q[0]).value, Child(p, q[0]).value, q[1..]);
      assert RaisesBelow(c, p, q[0]);
    }
    if s :| RaisesBelow(c, p, s) {
      var rest :| RaisesAt(Child(c, s).value, Child(p, s).value, rest);
      var q := [s] + rest;
      assert q[0] == s && q[1..] == rest;
      AtStep(c, q);
      AtStep(p, q);
      assert RaisesAt(c, p, q);
    }
  }

  // ---- in what order ----

  predicate StepBefore(s: Step, t: Step) {
    (s.KeyStep? && t.KeyStep? && T.Before(s.key, t.key)) || (s.IndexStep? && t.IndexStep? && s.index < t.index)
  }

  /** a and b part at some step, where a takes the earlier key or index. */
  ghost predicate StepsBefore(a: seq<Step>, b: seq<Step>) {
    exists n :: 0 <= n < |a| && n < |b| && a[..n] == b[..n] && StepBefore(a[n], b[n])
  }

  lemma SlotsInOrder(c: Value, p: Value)
    requires Descends(c, p)
    ensures forall i, j | 0 <= i < j < |Slots(c, p)| :: StepBefore(Slots(c, p)[i], Slots(c, p)[j])
  {
    if c.Dict? { SortedHolds(TextKeys(c) + TextKeys(p)); }
  }

  /** Records come by index and by sorted key, outer steps first; so there is one at each place. */
  lemma {:induction false} RecordsInOrder(root: string, steps: seq<Step>, c: Value, p: Value, i: nat, j: nat)
    requires Diff(root, steps, c, p).Some? && i < j < |Diff(root, steps, c, p).value|
    ensures StepsBefore(Diff(root, steps, c, p).value[i].steps, Diff(root, steps, c, p).value[j].steps)
    decreases c, 1, 0
  {
    hide PathText, Same, IsContextSensitive, StepsBefore, DiffSlots, Slots, ObservationStatus;
    SlotsInOrder(c, p);
    forall s | s in Slots(c, p) ensures Child(c, s).Some? || Child(p, s).Some? { SlotsHold(c, p, s); }
    SlotRecordsInOrder(root, steps, c, p, Slots(c, p), i, j);
  }

  lemma {:induction false} SlotRecordsInOrder(
    root: string, steps: seq<Step>, c: Value, p: Value, slots: seq<Step>, i: nat, j: nat)
    requires DiffSlots(root, steps, c, p, slots).Some? && i < j < |DiffSlots(root, steps, c, p, slots).value|
    requires forall k, l | 0 <= k < l < |slots| :: StepBefore(slots[k], slots[l])
    requires forall s | s in slots :: Child(c, s).Some? || Child(p, s).Some?
    ensures StepsBefore(DiffSlots(root, steps, c, p, slots).value[i].steps, DiffSlots(root, steps, c, p, slots).value[j].steps)
    decreases c, 0, |slots|
  {
    hide PathText, Same, IsContextSensitive, StepsBefore, StepBefore, DiffSlot;
    var front, last := slots[..|slots| - 1], slots[|slots| - 1];
    assert slots == front + [last];
    var rs, qs := DiffSlots(root, steps, c, p, front).value, DiffSlot(root, steps, c, p, last).value;
    if j < |rs| {
      SlotRecordsInOrder(root, steps, c, p, front, i, j);
    } else if i >= |rs| {
      if Child(c, last).None? || Child(p, last).None? { OneSidedIsOne(root, steps, c, p, last); }
      OneSlotInOrder(root, steps, c, p, last, i - |rs|, j - |rs|);
    } else {
      SlotBySlot(root, steps, c, p, front);
      assert rs[i] in rs;
      var s :| s in front && rs[i] in DiffSlot(root, steps, c, p, s).value;
      SlotLeads(root, steps, c, p, s);
      SlotLeads(root, steps, c, p, last);
      assert StepBefore(s, last);
      PartHere(steps, s, last, rs[i].steps, qs[j - |rs|].steps);
    }
  }

  lemma {:induction false} OneSlotInOrder(root: string, steps: seq<Step>, c: Value, p: Value, s: Step, i: nat, j: nat)
    requires Child(c, s).Some? && Child(p, s).Some?
    requires DiffSlot(root, steps, c, p, s).Some? && i < j < |DiffSlot(root, steps, c, p, s).value|
    ensures StepsBefore(DiffSlot(root, steps, c, p, s).value[i].steps, DiffSlot(root, steps, c, p, s).value[j].steps)
    decreases c, 0, 0
  {
    hide PathText, Diff, StepsBefore;
    assert Child(c, s).value < c;
    RecordsInOrder(root, steps + [s], Child(c, s).value, Child(p, s).value, i, j);
  }

  lemma OneSidedIsOne(root: string, steps: seq<Step>, c: Value, p: Value, s: Step)
    requires Child(c, s).None? || Child(p, s).None?
    ensures DiffSlot(root, steps, c, p, s).Some? && |DiffSlot(root, steps, c, p, s).value| <= 1
  {
    hide PathText, IsContextSensitive;
  }

  lemma PartHere(steps: seq<Step>, s: Step, t: Step, a: seq<Step>, b: seq<Step>)
    requires steps + [s] <= a && steps + [t] <= b && StepBefore(s, t)
    ensures StepsBefore(a, b)
  {
    var n := |steps|;
    assert a[n] == s && b[n] == t && a[..n] == steps == b[..n];
  }
}
