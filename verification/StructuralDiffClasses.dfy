/** How a structural comparison classes what it finds, and where it goes on inside, told from the two values
    alone. */
module StructuralDiffClasses {
  import opened PythonValues
  import opened StructuralDiff

  /** An observation with this status. */
  predicate Says(v: Value, status: string) {
    v.Dict? && Text("status") in v.entries && v.entries[Text("status")] == Str(status)
  }

  /** A status that cannot be looked up among the known ones. */
  predicate StatusRaises(v: Value) {
    v.Dict? && Text("status") in v.entries && (v.entries[Text("status")].List? || v.entries[Text("status")].Dict?)
  }

  predicate IsRecordOfItsOwn(v: Value) {
    Says(v, "observed") || Says(v, "unavailable") || Says(v, "error") || StatusRaises(v)
  }

  /** The comparison goes on inside: two lists, or two dicts that are no observations. */
  predicate Inside(c: Value, p: Value) {
    (c.List? && p.List?) || (c.Dict? && p.Dict? && !IsRecordOfItsOwn(c) && !IsRecordOfItsOwn(p))
  }

  predicate Volatile(path: string) {
    || "/project/current_render_context" <= path || "/project/render_presets" <= path || "/project/render_queue" <= path
  }

  /** The class of what is found at one place, on one side or on both. */
  predicate ClassFits(path: string, control: Option<Value>, production: Option<Value>, class_: Class) {
    if control.None? || production.None? then class_ == if Volatile(path) then ContextSensitive else Different
    else
      var c, p := control.value, production.value;
      match class_
      case StructurallyInvalid => Says(c, "error") || Says(p, "error")
      case UnavailableOnBoth => Says(c, "unavailable") && Says(p, "unavailable")
      case UnavailableOnControl => Says(c, "unavailable") && !Says(p, "unavailable") && !Says(p, "error")
      case UnavailableOnProduction => Says(p, "unavailable") && !Says(c, "unavailable") && !Says(c, "error")
      case Equal => Settled(c) && Settled(p) && Same(c, p)
      case ContextSensitive => Settled(c) && Settled(p) && !Same(c, p) && Volatile(path)
      case Different => Settled(c) && Settled(p) && !Same(c, p) && !Volatile(path)
  }

  predicate Settled(v: Value) {
    !Says(v, "unavailable") && !Says(v, "error")
  }

  lemma StatusRead(v: Value)
    ensures ObservationStatus(v) == Error <==> Says(v, "error")
    ensures ObservationStatus(v) == Unavailable <==> Says(v, "unavailable")
    ensures ObservationStatus(v) == Observed <==> Says(v, "observed")
    ensures ObservationStatus(v) == Unhashable <==> StatusRaises(v)
  {
  }

  lemma VolatileRead(path: string)
    ensures IsContextSensitive(path) <==> Volatile(path)
  {
    if "/project/current_render_context" <= path { assert CONTEXT_SENSITIVE_PREFIXES[0] <= path; }
    if "/project/render_presets" <= path { assert CONTEXT_SENSITIVE_PREFIXES[1] <= path; }
    if "/project/render_queue" <= path { assert CONTEXT_SENSITIVE_PREFIXES[2] <= path; }
  }

  lemma OneClassFits(path: string, c: Option<Value>, p: Option<Value>, x: Class, y: Class)
    requires ClassFits(path, c, p, x) && ClassFits(path, c, p, y)
    ensures x == y
  {
  }

  lemma LeafClassFits(path: string, c: Value, p: Value)
    ensures ClassFits(path, Some(c), Some(p), ClassifyLeaf(path, c, p))
  {
    hide Same, ObservationStatus, IsContextSensitive, Says, Volatile;
    StatusRead(c);
    StatusRead(p);
    VolatileRead(path);
  }

  lemma OneSidedClassFits(path: string, v: Value)
    ensures ClassFits(path, Some(v), None, Difference(path)) && ClassFits(path, None, Some(v), Difference(path))
  {
    hide IsContextSensitive, Volatile;
    VolatileRead(path);
  }

  lemma InsideRead(c: Value, p: Value)
    ensures Descends(c, p) <==> Inside(c, p)
  {
    StatusRead(c);
    StatusRead(p);
  }
}
