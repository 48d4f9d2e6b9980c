/** The values that cross the Resolve bridge and the JSON evidence made from them.

    A value here is a finite tree. Sharing and cycles between containers, which the evidence
    normaliser also has to deal with, are the subject of module ObjectGraph. */
module PythonValues {

  datatype Option<+T> = None | Some(value: T)

  /** Python floats; rounding plays no part in what is proved. */
  datatype Float = Finite(value: real) | NaN | Infinite(negative: bool)

  /** A mapping key is a string or any other hashable object. */
  datatype Key = Text(text: string) | OtherKey(id: nat)

  datatype Value =
    | Null
    | Bool(b: bool)
    | Int(i: int)
    | Real(f: Float)
    | Str(s: string)
    | List(items: seq<Value>)
    | Tuple(items: seq<Value>)
    | Dict(entries: map<Key, Value>)
    | Handle(truthy: bool)  // a live bridge object

  /** `bool(v)`. */
  predicate Truthy(v: Value) {
    && v != Null && v != Bool(false) && v != Int(0) && v != Real(Finite(0.0)) && v != Str("")
    && v != List([]) && v != Tuple([]) && v != Dict(map[]) && v != Handle(false)
  }

  /** What `json.loads` can produce: no tuples, no handles and no key that is not a string. */
  predicate IsJson(v: Value) {
    match v
    case List(items) => forall i | 0 <= i < |items| :: IsJson(items[i])
    case Dict(entries) => forall k | k in entries :: k.Text? && IsJson(entries[k])
    case Tuple(_) => false
    case Handle(_) => false
    case _ => true
  }

  /** `require_finite_json_value` passes: no NaN and no infinity in any list or dict. */
  predicate AllFinite(v: Value) {
    match v
    case Real(f) => f.Finite?
    case List(items) => forall i | 0 <= i < |items| :: AllFinite(items[i])
    case Dict(entries) => forall k | k in entries :: AllFinite(entries[k])
    case _ => true
  }

  // ---- normalize_json_value on a tree ----

  function Normalize(v: Value): Option<Value> {
    match v
    case List(items) => NormalizeItems(v, items)
    case Tuple(items) => NormalizeItems(v, items)
    case Dict(entries) =>
      if forall k | k in entries :: k.Text? && Normalize(entries[k]).Some?
      then Some(Dict(map k | k in entries :: Normalize(entries[k]).value))
      else None
    case Handle(_) => None
    case _ => Some(v)
  }

  function NormalizeItems(parent: Value, items: seq<Value>): Option<Value>
    requires parent == List(items) || parent == Tuple(items)
    decreases parent, 0
  {
    if forall i | 0 <= i < |items| :: Normalize(items[i]).Some?
    then Some(List(seq(|items|, i requires 0 <= i < |items| => Normalize(items[i]).value)))
    else None
  }

  lemma {:induction false} NormalizeYieldsJson(v: Value)
    requires Normalize(v).Some?
    ensures IsJson(Normalize(v).value)
  {
    match v
    case List(items) =>
      forall i | 0 <= i < |items| { NormalizeYieldsJson(items[i]); }
    case Tuple(items) =>
      forall i | 0 <= i < |items| { NormalizeYieldsJson(items[i]); }
    case Dict(entries) =>
      forall k | k in entries { NormalizeYieldsJson(entries[k]); }
    case _ =>
  }

  /** Normalising changes nothing in a value that is JSON already. */
  lemma {:induction false} NormalizeOfJson(v: Value)
    requires IsJson(v)
    ensures Normalize(v) == Some(v)
  {
    match v
    case List(items) =>
      forall i | 0 <= i < |items| ensures Normalize(items[i]) == Some(items[i]) { NormalizeOfJson(items[i]); }
      assert NormalizeItems(v, items).Some?;
      assert NormalizeItems(v, items).value.items == items;
    case Dict(entries) =>
      forall k | k in entries ensures Normalize(entries[k]) == Some(entries[k]) { NormalizeOfJson(entries[k]); }
      assert Normalize(v).value.entries == entries;
    case _ =>
  }

  // ---- Python's == ----

  /** The number a bool, an int or a float compares as. */
  function Numeric(v: Value): Option<Float> {
    match v
    case Bool(b) => Some(Finite(if b then 1.0 else 0.0))
    case Int(i) => Some(Finite(i as real))
    case Real(f) => Some(f)
    case _ => None
  }

  /** `a == b` for JSON values: True equals 1, NaN equals nothing, a list never equals a dict. */
  predicate Same(a: Value, b: Value) {
    if Numeric(a).Some? && Numeric(b).Some? then
      !Numeric(a).value.NaN? && Numeric(a) == Numeric(b)
    else
      match (a, b)
      case (Null, Null) => true
      case (Str(s), Str(t)) => s == t
      case (List(xs), List(ys)) => |xs| == |ys| && forall i | 0 <= i < |xs| :: Same(xs[i], ys[i])
      case (Dict(m), Dict(n)) => m.Keys == n.Keys && forall k | k in m :: Same(m[k], n[k])
      case _ => false
  }

  /** Bools, ints and floats compare by value across their types; None, texts and containers only with
      their own kind. */
  lemma EqualityAcrossTypes(b: bool, i: int, j: int, r: real, s: string, v: Value)
    ensures Same(Bool(b), Int(i)) <==> i == (if b then 1 else 0)
    ensures Same(Int(i), Int(j)) <==> i == j
    ensures Same(Int(i), Real(Finite(r))) <==> r == i as real
    ensures Same(Bool(b), Real(Finite(r))) <==> r == (if b then 1.0 else 0.0)
    ensures !Same(Real(NaN), v) && !Same(v, Real(NaN))
    ensures Same(Str(s), v) <==> v == Str(s)
    ensures Same(Null, v) <==> v == Null
    ensures v.List? ==> (forall w | Same(v, w) :: w.List?)
    ensures v.Dict? ==> (forall w | Same(v, w) :: w.Dict?)
  {
  }

  lemma {:induction false} SameIsReflexive(v: Value)
    requires IsJson(v) && AllFinite(v)
    ensures Same(v, v)
  {
    match v
    case List(items) =>
      forall i | 0 <= i < |items| ensures Same(items[i], items[i]) { SameIsReflexive(items[i]); }
    case Dict(entries) =>
      forall k | k in entries ensures Same(entries[k], entries[k]) { SameIsReflexive(entries[k]); }
    case _ =>
  }

  lemma {:induction false} SameIsSymmetric(a: Value, b: Value)
    requires Same(a, b)
    ensures Same(b, a)
  {
    match (a, b)
    case (List(xs), List(ys)) =>
      forall i | 0 <= i < |xs| ensures Same(ys[i], xs[i]) { SameIsSymmetric(xs[i], ys[i]); }
    case (Dict(m), Dict(n)) =>
      forall k | k in n ensures Same(n[k], m[k]) { SameIsSymmetric(m[k], n[k]); }
    case _ =>
  }

  lemma {:induction false} SameIsTransitive(a: Value, b: Value, c: Value)
    requires Same(a, b) && Same(b, c)
    ensures Same(a, c)
  {
    match (a, b, c)
    case (List(xs), List(ys), List(zs)) =>
      forall i | 0 <= i < |xs| ensures Same(xs[i], zs[i]) { SameIsTransitive(xs[i], ys[i], zs[i]); }
    case (Dict(m), Dict(n), Dict(o)) =>
      forall k | k in m ensures Same(m[k], o[k]) { SameIsTransitive(m[k], n[k], o[k]); }
    case _ =>
  }
}
