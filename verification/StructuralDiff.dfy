/** `_compare_recursive`: the structural comparison of two JSON documents. */
module StructuralDiff {
  import opened PythonValues
  import opened SortedNames
  import T = Text

  // ---- records ----

  datatype Step = KeyStep(key: string) | IndexStep(index: nat)

  datatype Class =
    | Equal | Different | ContextSensitive | StructurallyInvalid
    | UnavailableOnBoth | UnavailableOnControl | UnavailableOnProduction

  /** steps are the keys and indices that path is written from. */
  datatype Record = Record(steps: seq<Step>, path: string, classification: Class, control: Value, production: Value)

  const MISSING := Dict(map[Text("missing") := Bool(true)])

  datatype Observation = NotAnObservation | Observed | Unavailable | Error | Unhashable

  /** `_observation_status`: asking whether a list or dict is among the three statuses raises. */
  function ObservationStatus(v: Value): Observation {
    if !v.Dict? || Text("status") !in v.entries then NotAnObservation
    else
      match v.entries[Text("status")]
      case Str(s) =>
        if s == "observed" then Observed
        else if s == "unavailable" then Unavailable
        else if s == "error" then Error
        else NotAnObservation
      case List(_) => Unhashable
      case Dict(_) => Unhashable
      case _ => NotAnObservation
  }

  const CONTEXT_SENSITIVE_PREFIXES := ["/project/current_render_context", "/project/render_presets", "/project/render_queue"]

  predicate IsContextSensitive(path: string) {
    exists i | 0 <= i < |CONTEXT_SENSITIVE_PREFIXES| :: T.StartsWith(path, CONTEXT_SENSITIVE_PREFIXES[i])
  }

  function Difference(path: string): Class {
    if IsContextSensitive(path) then ContextSensitive else Different
  }

  function ClassifyLeaf(path: string, control: Value, production: Value): Class {
    var c, p := ObservationStatus(control), ObservationStatus(production);
    if c == Error || p == Error then StructurallyInvalid
    else if c == Unavailable && p == Unavailable then UnavailableOnBoth
    else if c == Unavailable then UnavailableOnControl
    else if p == Unavailable then UnavailableOnProduction
    else if Same(control, production) then Equal
    else Difference(path)
  }

  function StepText(s: Step): string {
    match s
    case KeyStep(key) => "/" + key
    case IndexStep(index) => "/" + T.NatText(index)
  }

  function PathText(root: string, steps: seq<Step>): string {
    if steps == [] then root else PathText(root, steps[..|steps| - 1]) + StepText(steps[|steps| - 1])
  }

  // ---- the comparison ----

  function Child(v: Value, s: Step): Option<Value> {
    match (v, s)
    case (Dict(entries), KeyStep(key)) => if Text(key) in entries then Some(entries[Text(key)]) else None
    case (List(items), IndexStep(index)) => if index < |items| then Some(items[index]) else None
    case _ => None
  }

  function TextKeys(v: Value): set<string>
    requires v.Dict?
  {
    set k | k in v.entries && k.Text? :: k.text
  }

  /** Both values are containers of one kind and neither is an observation. */
  predicate Descends(c: Value, p: Value) {
    || (c.List? && p.List?)
    || (c.Dict? && p.Dict? && ObservationStatus(c) == NotAnObservation && ObservationStatus(p) == NotAnObservation)
  }

  function Longer(xs: seq<Value>, ys: seq<Value>): nat {
    if |xs| > |ys| then |xs| else |ys|
  }

  function Slots(c: Value, p: Value): seq<Step>
    requires Descends(c, p)
  {
    if c.Dict? then
      var keys := Sorted(TextKeys(c) + TextKeys(p));
      seq(|keys|, i requires 0 <= i < |keys| => KeyStep(keys[i]))
    else
      seq(Longer(c.items, p.items), i requires 0 <= i => IndexStep(i))
  }

  /** The records `_compare_recursive` appends, or None when it raises. */
  function Diff(root: string, steps: seq<Step>, c: Value, p: Value): Option<seq<Record>>
    decreases c, 1, 0
  {
    if Descends(c, p) then DiffSlots(root, steps, c, p, Slots(c, p))
    else if ObservationStatus(c) == Unhashable || ObservationStatus(p) == Unhashable then None
    else
      var path := PathText(root, steps);
      Some([Record(steps, path, ClassifyLeaf(path, c, p), c, p)])
  }

  function DiffSlots(root: string, steps: seq<Step>, c: Value, p: Value, slots: seq<Step>): Option<seq<Record>>
    decreases c, 0, |slots|
  {
    if slots == [] then Some([])
    else
      match DiffSlots(root, steps, c, p, slots[..|slots| - 1])
      case None => None
      case Some(front) =>
        match DiffSlot(root, steps, c, p, slots[|slots| - 1])
        case None => None
        case Some(last) => Some(front + last)
  }

  function DiffSlot(root: string, steps: seq<Step>, c: Value, p: Value, s: Step): Option<seq<Record>>
    decreases c, 0, 0
  {
    var at := steps + [s];
    var path := PathText(root, at);
    match (Child(c, s), Child(p, s))
    case (None, None) => Some([])
    case (None, Some(q)) => Some([Record(at, path, Difference(path), MISSING, q)])
    case (Some(d), None) => Some([Record(at, path, Difference(path), d, MISSING)])
    case (Some(d), Some(q)) =>
      assert d < c;
      Diff(root, at, d, q)
  }

  // ---- the comparison as it runs, appending to one list ----

  lemma {:induction false} RaisedIsFinal(root: string, steps: seq<Step>, c: Value, p: Value, slots: seq<Step>, n: nat)
    requires n < |slots|
    requires DiffSlots(root, steps, c, p, slots[..n]).None? || DiffSlot(root, steps, c, p, slots[n]).None?
    ensures DiffSlots(root, steps, c, p, slots).None?
    decreases |slots|
  {
    hide DiffSlot;
    var front := slots[..|slots| - 1];
    if n < |front| {
      assert front[..n] == slots[..n];
      RaisedIsFinal(root, steps, c, p, front, n);
    }
  }

  lemma NoSlots(root: string, steps: seq<Step>, c: Value, p: Value)
    requires Descends(c, p)
    ensures DiffSlots(root, steps, c, p, Slots(c, p)[..0]) == Some([])
  {
  }

  lemma NextSlot(root: string, steps: seq<Step>, c: Value, p: Value, slots: seq<Step>, n: nat)
    requires n < |slots| && DiffSlots(root, steps, c, p, slots[..n]).Some?
    requires DiffSlot(root, steps, c, p, slots[n]).Some?
    ensures DiffSlots(root, steps, c, p, slots[..n + 1])
         == Some(DiffSlots(root, steps, c, p, slots[..n]).value + DiffSlot(root, steps, c, p, slots[n]).value)
  {
    hide DiffSlot;
    assert slots[..n + 1][..n] == slots[..n];
  }

  class Comparison {
    var records: seq<Record>

    constructor ()
      ensures records == []
    {
      records := [];
    }

    /** ok is false when the run raised; otherwise exactly the records of Diff are appended. */
    method CompareRecursive(root: string, steps: seq<Step>, control: Value, production: Value) returns (ok: bool)
      modifies this
      ensures ok == Diff(root, steps, control, production).Some?
      ensures ok ==> records == old(records) + Diff(root, steps, control, production).value
      decreases control, 1, 0
    {
      if control.Dict? && production.Dict? {
        if ObservationStatus(control) == Unhashable || ObservationStatus(production) == Unhashable { return false; }
        if ObservationStatus(control) != NotAnObservation || ObservationStatus(production) != NotAnObservation {
          ok := AppendLeaf(root, steps, control, production);
          return;
        }
        ok := CompareKeys(root, steps, control, production);
      } else if control.List? && production.List? {
        ok := CompareItems(root, steps, control, production);
      } else {
        ok := AppendLeaf(root, steps, control, production);
      }
    }

    method AppendLeaf(root: string, steps: seq<Step>, control: Value, production: Value) returns (ok: bool)
      requires !Descends(control, production)
      modifies this
      ensures ok == Diff(root, steps, control, production).Some?
      ensures ok ==> records == old(records) + Diff(root, steps, control, production).value
    {
      if ObservationStatus(control) == Unhashable || ObservationStatus(production) == Unhashable { return false; }
      var path := PathText(root, steps);
      records := records + [Record(steps, path, ClassifyLeaf(path, control, production), control, production)];
      return true;
    }

    method CompareKeys(root: string, steps: seq<Step>, control: Value, production: Value) returns (ok: bool)
      requires control.Dict? && production.Dict? && Descends(control, production)
      modifies this
      ensures ok == DiffSlots(root, steps, control, production, Slots(control, production)).Some?
      ensures ok ==> records == old(records) + DiffSlots(root, steps, control, production, Slots(control, production)).value
      decreases control, 0, 1
    {
      hide DiffSlot, DiffSlots, Sorted;
      var keys := Sorted(TextKeys(control) + TextKeys(production));
      ghost var slots := Slots(control, production);
      NoSlots(root, steps, control, production);
      for n := 0 to |keys|
        invariant DiffSlots(root, steps, control, production, slots[..n]).Some?
        invariant records == old(records) + DiffSlots(root, steps, control, production, slots[..n]).value
      {
        SortedHolds(TextKeys(control) + TextKeys(production));
        var done := CompareKey(root, steps, control, production, keys[n]);
        if !done {
          RaisedIsFinal(root, steps, control, production, slots, n);
          return false;
        }
        NextSlot(root, steps, control, production, slots, n);
      }
      assert slots[..|keys|] == slots;
      return true;
    }

    method CompareKey(root: string, steps: seq<Step>, control: Value, production: Value, key: string) returns (ok: bool)
      requires control.Dict? && production.Dict?
      requires key in TextKeys(control) + TextKeys(production)
      modifies this
      ensures ok == DiffSlot(root, steps, control, production, KeyStep(key)).Some?
      ensures ok ==> records == old(records) + DiffSlot(root, steps, control, production, KeyStep(key)).value
      decreases control, 0, 0
    {
      hide Diff;
      var at := steps + [KeyStep(key)];
      var path := PathText(root, at);
      if Text(key) !in control.entries {
        records := records + [Record(at, path, Difference(path), MISSING, production.entries[Text(key)])];
      } else if Text(key) !in production.entries {
        records := records + [Record(at, path, Difference(path), control.entries[Text(key)], MISSING)];
      } else {
        assert control.entries[Text(key)] < control;
        ok := CompareRecursive(root, at, control.entries[Text(key)], production.entries[Text(key)]);
        return;
      }
      return true;
    }

    method CompareItems(root: string, steps: seq<Step>, control: Value, production: Value) returns (ok: bool)
      requires control.List? && production.List?
      modifies this
      ensures ok == DiffSlots(root, steps, control, production, Slots(control, production)).Some?
      ensures ok ==> records == old(records) + DiffSlots(root, steps, control, production, Slots(control, production)).value
      decreases control, 0, 1
    {
      hide DiffSlot, DiffSlots;
      ghost var slots := Slots(control, production);
      NoSlots(root, steps, control, production);
      for index := 0 to Longer(control.items, production.items)
        invariant DiffSlots(root, steps, control, production, slots[..index]).Some?
        invariant records == old(records) + DiffSlots(root, steps, control, production, slots[..index]).value
      {
        var done := CompareItem(root, steps, control, production, index);
        if !done {
          RaisedIsFinal(root, steps, control, production, slots, index);
          return false;
        }
        NextSlot(root, steps, control, production, slots, index);
      }
      assert slots[..Longer(control.items, production.items)] == slots;
      return true;
    }

    method CompareItem(root: string, steps: seq<Step>, control: Value, production: Value, index: nat) returns (ok: bool)
      requires control.List? && production.List? && index < Longer(control.items, production.items)
      modifies this
      ensures ok == DiffSlot(root, steps, control, production, IndexStep(index)).Some?
      ensures ok ==> records == old(records) + DiffSlot(root, steps, control, production, IndexStep(index)).value
      decreases control, 0, 0
    {
      hide Diff;
      var at := steps + [IndexStep(index)];
      var path := PathText(root, at);
      if index >= |control.items| {
        records := records + [Record(at, path, Difference(path), MISSING, production.items[index])];
      } else if index >= |production.items| {
        records := records + [Record(at, path, Difference(path), control.items[index], MISSING)];
      } else {
        ok := CompareRecursive(root, at, control.items[index], production.items[index]);
        return;
      }
      return true;
    }
  }
}
