/** What the records of a structural comparison say about the two documents. */
module StructuralDiffProperties {
  import opened PythonValues
  import opened SortedNames
  import opened StructuralDiff
  import opened StructuralDiffClasses
  import T = Text

  // ---- the slots of two containers ----

  lemma SlotsHold(c: Value, p: Value, s: Step)
    requires Descends(c, p)
    ensures s in Slots(c, p) <==> Child(c, s).Some? || Child(p, s).Some?
  {
    hide Sorted;
    if c.Dict? {
      var keys := Sorted(TextKeys(c) + TextKeys(p));
      SortedHolds(TextKeys(c) + TextKeys(p));
      assert s in Slots(c, p) <==> s.KeyStep? && s.key in keys by {
        forall i | 0 <= i < |keys| ensures Slots(c, p)[i] == KeyStep(keys[i]) {}
      }
    } else {
      var n := Longer(c.items, p.items);
      forall i | 0 <= i < n ensures Slots(c, p)[i] == IndexStep(i) {}
      assert s in Slots(c, p) <==> s.IndexStep? && s.index < n;
    }
  }

  predicate Distinct(slots: seq<Step>) {
    forall i, j | 0 <= i < j < |slots| :: slots[i] != slots[j]
  }

  lemma SlotsAreDistinct(c: Value, p: Value)
    requires Descends(c, p)
    ensures Distinct(Slots(c, p))
  {
    if c.Dict? {
      var keys := Sorted(TextKeys(c) + TextKeys(p));
      SortedHolds(TextKeys(c) + TextKeys(p));
      forall i, j | 0 <= i < j < |keys| ensures keys[i] != keys[j] { T.BeforeIsTotal(keys[i], keys[j]); }
    }
  }

  /** A run over the slots succeeds when it does at each, and then holds just the records of each. */
  lemma {:induction false} SlotBySlot(root: string, steps: seq<Step>, c: Value, p: Value, slots: seq<Step>)
    ensures DiffSlots(root, steps, c, p, slots).Some? <==> forall s | s in slots :: DiffSlot(root, steps, c, p, s).Some?
    ensures DiffSlots(root, steps, c, p, slots).Some? ==>
              forall r :: r in DiffSlots(root, steps, c, p, slots).value <==>
                          exists s :: s in slots && r in DiffSlot(root, steps, c, p, s).value
  {
    hide DiffSlot;
    if slots != [] {
      var front, last := slots[..|slots| - 1], slots[|slots| - 1];
      SlotBySlot(root, steps, c, p, front);
      assert forall s :: s in slots <==> s in front || s == last by { assert slots == front + [last]; }
      assert DiffSlots(root, steps, c, p, slots).Some? <==>
             DiffSlots(root, steps, c, p, front).Some? && DiffSlot(root, steps, c, p, last).Some?;
      if forall s | s in slots :: DiffSlot(root, steps, c, p, s).Some? {
        assert DiffSlot(root, steps, c, p, last).Some?;
      }
      if DiffSlots(root, steps, c, p, slots).Some? {
        forall r ensures r in DiffSlots(root, steps, c, p, slots).value <==>
                         exists s :: s in slots && r in DiffSlot(root, steps, c, p, s).value {
          assert r in DiffSlots(root, steps, c, p, slots).value <==>
                 r in DiffSlots(root, steps, c, p, front).value || r in DiffSlot(root, steps, c, p, last).value;
        }
      }
    }
  }

  // ---- all records equal ----

  /** Nothing the comparison would look at is an unavailable or failed observation, or raises. */
  predicate Gapless(v: Value) {
    match ObservationStatus(v)
    case Observed => true
    case NotAnObservation =>
      (match v
       case List(items) => forall i | 0 <= i < |items| :: Gapless(items[i])
       case Dict(entries) => forall k | k in entries :: Gapless(entries[k])
       case _ => true)
    case _ => false
  }

  predicate AllEqual(rs: Option<seq<Record>>) {
    rs.Some? && forall r | r in rs.value :: r.classification == Equal
  }

  lemma SameStatus(c: Value, p: Value)
    requires Same(c, p)
    ensures ObservationStatus(c) == ObservationStatus(p)
  {
    if c.Dict? && p.Dict? && Text("status") in c.entries {
      assert Same(c.entries[Text("status")], p.entries[Text("status")]);
    }
  }

  predicate SameAt(c: Value, p: Value, s: Step) {
    Child(c, s).Some? && Child(p, s).Some? && Same(Child(c, s).value, Child(p, s).value)
  }

  lemma SameItems(c: Value, p: Value)
    requires c.List? && p.List?
    ensures Same(c, p) <==> forall s | s in Slots(c, p) :: SameAt(c, p, s)
  {
    var slots := Slots(c, p);
    forall s ensures s in slots <==> Child(c, s).Some? || Child(p, s).Some? { SlotsHold(c, p, s); }
    if forall s | s in slots :: SameAt(c, p, s) {
      if Longer(c.items, p.items) > 0 {
        assert IndexStep(Longer(c.items, p.items) - 1) in slots;
      }
      forall i | 0 <= i < |c.items| ensures Same(c.items[i], p.items[i]) {
        assert SameAt(c, p, IndexStep(i));
      }
    }
  }

  lemma SameEntries(c: Value, p: Value)
    requires IsJson(c) && IsJson(p) && c.Dict? && p.Dict? && Descends(c, p)
    ensures Same(c, p) <==> forall s | s in Slots(c, p) :: SameAt(c, p, s)
  {
    hide Slots;
    var slots := Slots(c, p);
    forall s ensures s in slots <==> Child(c, s).Some? || Child(p, s).Some? { SlotsHold(c, p, s); }
    if forall s | s in slots :: SameAt(c, p, s) {
      forall k | k in c.entries || k in p.entries
        ensures k in c.entries && k in p.entries && Same(c.entries[k], p.entries[k])
      {
        assert KeyStep(k.text) in slots;
      }
    }
  }

  lemma SameChildren(c: Value, p: Value)
    requires IsJson(c) && IsJson(p) && Descends(c, p)
    ensures Same(c, p) <==> forall s | s in Slots(c, p) :: SameAt(c, p, s)
  {
    hide Same, Slots;
    if c.List? { SameItems(c, p); } else { SameEntries(c, p); }
  }

  lemma GaplessChildren(c: Value, p: Value)
    requires IsJson(c) && IsJson(p) && Descends(c, p) && Same(c, p)
    ensures Gapless(c) <==> forall s | s in Slots(c, p) :: Child(c, s).Some? && Gapless(Child(c, s).value)
  {
    var slots := Slots(c, p);
    SameChildren(c, p);
    forall s ensures s in slots <==> Child(c, s).Some? || Child(p, s).Some? { SlotsHold(c, p, s); }
    if c.List? {
      forall i | 0 <= i < |c.items| ensures Child(c, IndexStep(i)) == Some(c.items[i]) {}
    } else {
      forall k | k in c.entries ensures KeyStep(k.text) in slots && Child(c, KeyStep(k.text)) == Some(c.entries[k]) {}
    }
  }

  /** Every record is `equal` exactly when the documents are equal, in Python's sense, and nothing in
      them is an unavailable or failed observation. */
  lemma {:induction false} AllEqualIff(root: string, steps: seq<Step>, c: Value, p: Value)
    requires IsJson(c) && IsJson(p)
    ensures AllEqual(Diff(root, steps, c, p)) <==> Same(c, p) && Gapless(c)
    decreases c
  {
    if Descends(c, p) {
      AllEqualInside(root, steps, c, p);
    } else {
      AllEqualLeaf(root, steps, c, p);
    }
  }

  lemma AllEqualLeaf(root: string, steps: seq<Step>, c: Value, p: Value)
    requires IsJson(c) && IsJson(p) && !Descends(c, p)
    ensures AllEqual(Diff(root, steps, c, p)) <==> Same(c, p) && Gapless(c)
  {
    hide IsContextSensitive, PathText;
    if Same(c, p) { SameStatus(c, p); }
  }

  ghost predicate EqualAt(c: Value, p: Value, s: Step) {
    && Child(c, s).Some? && Child(p, s).Some?
    && Same(Child(c, s).value, Child(p, s).value) && Gapless(Child(c, s).value)
  }

  lemma {:induction false} AllEqualInside(root: string, steps: seq<Step>, c: Value, p: Value)
    requires IsJson(c) && IsJson(p) && Descends(c, p)
    ensures AllEqual(DiffSlots(root, steps, c, p, Slots(c, p))) <==> Same(c, p) && Gapless(c)
    decreases c, 0
  {
    hide DiffSlot, Slots, Gapless, Same;
    var slots := Slots(c, p);
    SlotBySlot(root, steps, c, p, slots);
    SameChildren(c, p);
    if Same(c, p) { GaplessChildren(c, p); }
    forall s | s in slots ensures AllEqual(DiffSlot(root, steps, c, p, s)) <==> EqualAt(c, p, s) {
      SlotsHold(c, p, s);
      AllEqualSlot(root, steps, c, p, s);
    }
  }

  lemma {:induction false} AllEqualSlot(root: string, steps: seq<Step>, c: Value, p: Value, s: Step)
    requires IsJson(c) && IsJson(p) && (Child(c, s).Some? || Child(p, s).Some?)
    ensures AllEqual(DiffSlot(root, steps, c, p, s)) <==> EqualAt(c, p, s)
    decreases c, 0, 0
  {
    hide PathText, Diff, Gapless, Same;
    if Child(c, s).Some? && Child(p, s).Some? {
      assert Child(c, s).value < c;
      AllEqualIff(root, steps + [s], Child(c, s).value, Child(p, s).value);
    } else {
      var r := DiffSlot(root, steps, c, p, s).value[0];
      assert r in DiffSlot(root, steps, c, p, s).value;
    }
  }

  // ---- equal documents ----

  predicate SaysNoDifference(r: Record) {
    r.classification in {Equal, StructurallyInvalid, UnavailableOnBoth}
  }

  /** Equal documents yield no record that is different, context sensitive or one-sided. */
  lemma {:induction false} EqualDocumentsShowNoDifference(root: string, steps: seq<Step>, c: Value, p: Value)
    requires IsJson(c) && IsJson(p) && Same(c, p) && Diff(root, steps, c, p).Some?
    ensures forall r | r in Diff(root, steps, c, p).value :: SaysNoDifference(r)
    decreases c
  {
    SameStatus(c, p);
    if Descends(c, p) {
      hide DiffSlot, Slots, Same;
      var slots := Slots(c, p);
      SlotBySlot(root, steps, c, p, slots);
      SameChildren(c, p);
      forall s, r | s in slots && r in DiffSlot(root, steps, c, p, s).value ensures SaysNoDifference(r) {
        SlotShowsNoDifference(root, steps, c, p, s);
      }
    }
  }

  lemma {:induction false} SlotShowsNoDifference(root: string, steps: seq<Step>, c: Value, p: Value, s: Step)
    requires IsJson(c) && IsJson(p) && Child(c, s).Some? && Child(p, s).Some?
    requires Same(Child(c, s).value, Child(p, s).value) && DiffSlot(root, steps, c, p, s).Some?
    ensures forall r | r in DiffSlot(root, steps, c, p, s).value :: SaysNoDifference(r)
    decreases c, 0
  {
    hide Same, Diff;
    assert Child(c, s).value < c;
    EqualDocumentsShowNoDifference(root, steps + [s], Child(c, s).value, Child(p, s).value);
  }

  // ---- swapping the documents ----

  function SwapClass(k: Class): Class {
    match k
    case UnavailableOnControl => UnavailableOnProduction
    case UnavailableOnProduction => UnavailableOnControl
    case _ => k
  }

  function Swap(r: Record): Record {
    Record(r.steps, r.path, SwapClass(r.classification), r.production, r.control)
  }

  function Swapped(rs: Option<seq<Record>>): Option<seq<Record>> {
    if rs.None? then None else Some(seq(|rs.value|, i requires 0 <= i < |rs.value| => Swap(rs.value[i])))
  }

  lemma SwappedJoins(front: seq<Record>, last: seq<Record>)
    ensures Swapped(Some(front + last)).value == Swapped(Some(front)).value + Swapped(Some(last)).value
  {
  }

  lemma SwappedSlots(c: Value, p: Value)
    requires Descends(c, p)
    ensures Descends(p, c) && Slots(p, c) == Slots(c, p)
  {
    hide Sorted;
    if c.Dict? { assert TextKeys(p) + TextKeys(c) == TextKeys(c) + TextKeys(p); }
  }

  /** Swapping the documents gives the same paths in the same order with sides and labels swapped. */
  lemma {:induction false} SwappingSwapsRecords(root: string, steps: seq<Step>, c: Value, p: Value)
    ensures Diff(root, steps, p, c) == Swapped(Diff(root, steps, c, p))
    decreases c, 1, 0
  {
    if Descends(c, p) {
      hide Slots;
      SwappedSlots(c, p);
      SlotsSwap(root, steps, c, p, Slots(c, p));
    } else {
      LeafSwaps(root, steps, c, p);
    }
  }

  lemma LeafSwaps(root: string, steps: seq<Step>, c: Value, p: Value)
    requires !Descends(c, p)
    ensures Diff(root, steps, p, c) == Swapped(Diff(root, steps, c, p))
  {
    hide PathText, IsContextSensitive;
    if Same(c, p) { SameIsSymmetric(c, p); }
    if Same(p, c) { SameIsSymmetric(p, c); }
    if Diff(root, steps, c, p).Some? { SwappedSingle(Diff(root, steps, c, p).value[0]); }
  }

  lemma SwappedSingle(r: Record)
    ensures Swapped(Some([r])) == Some([Swap(r)])
  {
    assert Swapped(Some([r])).value == [Swap(r)];
  }

  lemma {:induction false} SlotsSwap(root: string, steps: seq<Step>, c: Value, p: Value, slots: seq<Step>)
    ensures DiffSlots(root, steps, p, c, slots) == Swapped(DiffSlots(root, steps, c, p, slots))
    decreases c, 0, |slots|
  {
    hide DiffSlot, Swapped;
    if slots == [] {
      SwappedNothing();
    } else {
      var front, last := slots[..|slots| - 1], slots[|slots| - 1];
      SlotsSwap(root, steps, c, p, front);
      SlotSwaps(root, steps, c, p, last);
      SwappedOptions(DiffSlots(root, steps, c, p, front), DiffSlot(root, steps, c, p, last));
    }
  }

  lemma SwappedNothing()
    ensures Swapped(Some([])) == Some([])
  {
    assert Swapped(Some([])).value == [];
  }

  lemma SwappedOptions(front: Option<seq<Record>>, last: Option<seq<Record>>)
    ensures Swapped(front).Some? == front.Some? && Swapped(last).Some? == last.Some?
    ensures front.Some? && last.Some? ==>
              Swapped(Some(front.value + last.value)) == Some(Swapped(front).value + Swapped(last).value)
    ensures Swapped(None) == None
  {
    if front.Some? && last.Some? { SwappedJoins(front.value, last.value); }
  }

  lemma {:induction false} SlotSwaps(root: string, steps: seq<Step>, c: Value, p: Value, s: Step)
    ensures DiffSlot(root, steps, p, c, s) == Swapped(DiffSlot(root, steps, c, p, s))
    decreases c, 0, 0
  {
    hide Diff, PathText, IsContextSensitive;
    if Child(c, s).Some? && Child(p, s).Some? {
      assert Child(c, s).value < c;
      SwappingSwapsRecords(root, steps + [s], Child(c, s).value, Child(p, s).value);
    } else if Child(c, s).Some? || Child(p, s).Some? {
      SwappedSingle(DiffSlot(root, steps, c, p, s).value[0]);
    } else {
      SwappedNothing();
    }
  }

  // ---- where the records lead ----

  function At(v: Value, q: seq<Step>): Option<Value>
    decreases |q|
  {
    if q == [] then Some(v)
    else
      match Child(v, q[0])
      case None => None
      case Some(child) => At(child, q[1..])
  }

  lemma AtStep(v: Value, q: seq<Step>)
    requires q != []
    ensures Child(v, q[0]).None? ==> At(v, q).None?
    ensures Child(v, q[0]).Some? ==> At(v, q) == At(Child(v, q[0]).value, q[1..])
    ensures Child(v, q[0]).Some? && q[1..] == [] ==> At(v, q) == Child(v, q[0])
  {
  }

  function OrMissing(v: Option<Value>): Value {
    if v.None? then MISSING else v.value
  }

  /** r holds what the two documents have at q, and bears the class that fits it. */
  predicate Leads(root: string, c: Value, p: Value, q: seq<Step>, r: Record) {
    && r.path == PathText(root, r.steps)
    && (At(c, q).Some? || At(p, q).Some?)
    && r.control == OrMissing(At(c, q)) && r.production == OrMissing(At(p, q))
    && ClassFits(r.path, At(c, q), At(p, q), r.classification)
  }

  predicate LeadsFrom(root: string, steps: seq<Step>, c: Value, p: Value, r: Record) {
    steps <= r.steps && Leads(root, c, p, r.steps[|steps|..], r)
  }

  /** Every record's path leads, in each document, to the value recorded for it. */
  lemma {:induction false} RecordsLead(root: string, steps: seq<Step>, c: Value, p: Value)
    requires Diff(root, steps, c, p).Some?
    ensures forall r | r in Diff(root, steps, c, p).value :: LeadsFrom(root, steps, c, p, r)
    decreases c, 1
  {
    hide PathText, IsContextSensitive, Same, ClassFits, ClassifyLeaf;
    if Descends(c, p) {
      hide DiffSlot, Slots, LeadsFrom;
      var slots := Slots(c, p);
      SlotBySlot(root, steps, c, p, slots);
      forall s, r | s in slots && r in DiffSlot(root, steps, c, p, s).value ensures LeadsFrom(root, steps, c, p, r) {
        SlotsHold(c, p, s);
        SlotLeads(root, steps, c, p, s);
      }
    } else {
      LeafClassFits(PathText(root, steps), c, p);
    }
  }

  lemma {:induction false} SlotLeads(root: string, steps: seq<Step>, c: Value, p: Value, s: Step)
    requires (Child(c, s).Some? || Child(p, s).Some?) && DiffSlot(root, steps, c, p, s).Some?
    ensures forall r | r in DiffSlot(root, steps, c, p, s).value ::
              steps + [s] <= r.steps && LeadsFrom(root, steps, c, p, r)
    decreases c, 0
  {
    hide PathText, IsContextSensitive, Same, Diff, ClassFits, Difference;
    var at := steps + [s];
    forall r | r in DiffSlot(root, steps, c, p, s).value ensures at <= r.steps && LeadsFrom(root, steps, c, p, r) {
      if Child(c, s).Some? && Child(p, s).Some? {
        assert Child(c, s).value < c;
        RecordsLead(root, at, Child(c, s).value, Child(p, s).value);
      } else {
        assert r.steps == at;
        OneSidedClassFits(r.path, if Child(c, s).Some? then r.control else r.production);
      }
      var q := r.steps[|steps|..];
      assert q[0] == s && q[1..] == r.steps[|at|..];
      AtStep(c, q);
      AtStep(p, q);
    }
  }

  // ---- every leaf lies under exactly one record ----

  predicate Apart(r: Record, q: Record) {
    !(r.steps <= q.steps) && !(q.steps <= r.steps)
  }

  predicate AllApart(rs: seq<Record>) {
    forall i, j | 0 <= i < j < |rs| :: Apart(rs[i], rs[j])
  }

  /** No record's path runs through another's. */
  lemma {:induction false} RecordsAreApart(root: string, steps: seq<Step>, c: Value, p: Value)
    requires Diff(root, steps, c, p).Some?
    ensures AllApart(Diff(root, steps, c, p).value)
    decreases c, 1, 0
  {
    if Descends(c, p) {
      hide Slots;
      SlotsAreDistinct(c, p);
      SlotsAreApart(root, steps, c, p, Slots(c, p));
    }
  }

  predicate StartInside(rs: seq<Record>, steps: seq<Step>, slots: seq<Step>) {
    forall r | r in rs :: |r.steps| > |steps| && steps <= r.steps && r.steps[|steps|] in slots
  }

  lemma {:induction false} SlotsAreApart(root: string, steps: seq<Step>, c: Value, p: Value, slots: seq<Step>)
    requires DiffSlots(root, steps, c, p, slots).Some? && Distinct(slots)
    ensures AllApart(DiffSlots(root, steps, c, p, slots).value)
    ensures StartInside(DiffSlots(root, steps, c, p, slots).value, steps, slots)
    decreases c, 0, |slots|
  {
    hide DiffSlot;
    if slots != [] {
      var front, last := slots[..|slots| - 1], slots[|slots| - 1];
      assert last !in front;
      SlotsAreApart(root, steps, c, p, front);
      SlotIsApart(root, steps, c, p, last);
      JoinApart(DiffSlots(root, steps, c, p, front).value, DiffSlot(root, steps, c, p, last).value, steps, front, last);
      assert slots == front + [last];
    }
  }

  lemma JoinApart(front: seq<Record>, last: seq<Record>, steps: seq<Step>, slots: seq<Step>, s: Step)
    requires AllApart(front) && AllApart(last) && StartInside(front, steps, slots) && s !in slots
    requires forall r | r in last :: steps + [s] <= r.steps
    ensures AllApart(front + last) && StartInside(front + last, steps, slots + [s])
  {
  }

  lemma {:induction false} SlotIsApart(root: string, steps: seq<Step>, c: Value, p: Value, s: Step)
    requires DiffSlot(root, steps, c, p, s).Some?
    ensures AllApart(DiffSlot(root, steps, c, p, s).value)
    ensures forall r | r in DiffSlot(root, steps, c, p, s).value :: steps + [s] <= r.steps
    decreases c, 0, 0
  {
    hide PathText, IsContextSensitive, Diff, Apart;
    if Child(c, s).Some? && Child(p, s).Some? {
      assert Child(c, s).value < c;
      RecordsAreApart(root, steps + [s], Child(c, s).value, Child(p, s).value);
      SlotLeads(root, steps, c, p, s);
    }
  }

  predicate IsLeaf(v: Option<Value>) {
    v.Some? && !v.value.List? && !v.value.Dict?
  }

  lemma {:induction false} LeafIsCovered(root: string, steps: seq<Step>, c: Value, p: Value, q: seq<Step>) returns (r: Record)
    requires Diff(root, steps, c, p).Some? && (IsLeaf(At(c, q)) || IsLeaf(At(p, q)))
    ensures r in Diff(root, steps, c, p).value && r.steps <= steps + q
    decreases c
  {
    if Descends(c, p) {
      hide DiffSlot, Slots;
      var s := q[0];
      SlotsHold(c, p, s);
      SlotBySlot(root, steps, c, p, Slots(c, p));
      r := LeafInSlot(root, steps, c, p, q);
    } else {
      r := Diff(root, steps, c, p).value[0];
    }
  }

  lemma {:induction false} LeafInSlot(root: string, steps: seq<Step>, c: Value, p: Value, q: seq<Step>) returns (r: Record)
    requires q != [] && DiffSlot(root, steps, c, p, q[0]).Some? && (IsLeaf(At(c, q)) || IsLeaf(At(p, q)))
    ensures r in DiffSlot(root, steps, c, p, q[0]).value && r.steps <= steps + q
    decreases c, 0
  {
    hide PathText, IsContextSensitive, Diff;
    var s := q[0];
    assert steps + q == steps + [s] + q[1..];
    if Child(c, s).Some? && Child(p, s).Some? {
      assert Child(c, s).value < c;
      r := LeafIsCovered(root, steps + [s], Child(c, s).value, Child(p, s).value, q[1..]);
    } else {
      r := DiffSlot(root, steps, c, p, s).value[0];
    }
  }

  lemma PrefixesAreComparable(a: seq<Step>, b: seq<Step>, q: seq<Step>)
    requires a <= q && b <= q
    ensures a <= b || b <= a
  {
    if |a| <= |b| { assert a == b[..|a|]; } else { assert b == a[..|b|]; }
  }

  /** Each scalar leaf of either document lies under exactly one record. */
  lemma LeavesAreCoveredOnce(root: string, c: Value, p: Value, q: seq<Step>) returns (i: nat)
    requires Diff(root, [], c, p).Some? && (IsLeaf(At(c, q)) || IsLeaf(At(p, q)))
    ensures i < |Diff(root, [], c, p).value| && Diff(root, [], c, p).value[i].steps <= q
    ensures forall j | 0 <= j < |Diff(root, [], c, p).value| && Diff(root, [], c, p).value[j].steps <= q :: j == i
  {
    hide Diff;
    var rs := Diff(root, [], c, p).value;
    var r := LeafIsCovered(root, [], c, p, q);
    assert [] + q == q;
    i :| 0 <= i < |rs| && rs[i] == r;
    RecordsAreApart(root, [], c, p);
    forall j | 0 <= j < |rs| && rs[j].steps <= q ensures j == i {
      PrefixesAreComparable(rs[i].steps, rs[j].steps, q);
    }
  }
}
