/** The normaliser on trees and the normaliser on object graphs say the same: a tree that lies in memory,
    however its parts are shared there, normalises as a graph to what it normalises to as a tree. */
module NormalizedTrees {
  import opened ObjectGraphUnfolding
  import C = ObjectGraphCycles
  import G = ObjectGraph
  import N = SortedNames
  import T = Text
  import V = PythonValues

  predicate SameKey(k: V.Key, g: G.Key) {
    if k.Text? then g == G.StrKey(k.text) else g.OtherKey?
  }

  /** The object in slot s of the heap is the tree v; a tuple is stored as a list is. */
  ghost predicate LaysOut(h: G.Heap, s: G.Slot, v: V.Value)
    decreases v, 1
  {
    match v
    case Null => s == G.Scalar(G.NullLeaf)
    case Bool(b) => s == G.Scalar(G.BoolLeaf(b))
    case Int(i) => s == G.Scalar(G.IntLeaf(i))
    case Real(f) => s == G.Scalar(G.FloatLeaf(f))
    case Str(t) => s == G.Scalar(G.StrLeaf(t))
    case Handle(_) => s == G.Unsupported
    case List(items) => LaysOutItems(h, s, v, items)
    case Tuple(items) => LaysOutItems(h, s, v, items)
    case Dict(entries) =>
      && s.Ref? && s.id in h && h[s.id].DictNode? && |h[s.id].entries| == |entries|
      && (forall k | k in entries :: HasEntry(h, h[s.id].entries, k, entries[k]))
      && (forall e | e in h[s.id].entries :: exists k :: k in entries && SameKey(k, e.key))
  }

  ghost predicate HasEntry(h: G.Heap, es: seq<G.Pair>, k: V.Key, v: V.Value)
    decreases v, 2
  {
    exists e :: e in es && SameKey(k, e.key) && LaysOut(h, e.value, v)
  }

  ghost predicate LaysOutItems(h: G.Heap, s: G.Slot, parent: V.Value, items: seq<V.Value>)
    requires parent == V.List(items) || parent == V.Tuple(items)
    decreases parent, 0
  {
    && s.Ref? && s.id in h && h[s.id].ListNode? && |h[s.id].items| == |items|
    && forall i | 0 <= i < |items| :: LaysOut(h, h[s.id].items[i], items[i])
  }

  function KeyTexts(entries: map<V.Key, V.Value>): set<string> {
    set k | k in entries && k.Text? :: k.text
  }

  function SortedKeys(entries: map<V.Key, V.Value>): (names: seq<string>)
    ensures forall n | n in names :: V.Text(n) in entries
  {
    N.SortedHolds(KeyTexts(entries));
    N.Sorted(KeyTexts(entries))
  }

  /** A JSON value written out with the keys of every dict in order. */
  function TreeOf(x: V.Value): G.Tree
    requires V.IsJson(x)
  {
    match x
    case Null => G.Atom(G.NullLeaf)
    case Bool(b) => G.Atom(G.BoolLeaf(b))
    case Int(i) => G.Atom(G.IntLeaf(i))
    case Real(f) => G.Atom(G.FloatLeaf(f))
    case Str(t) => G.Atom(G.StrLeaf(t))
    case List(items) => G.Array(seq(|items|, i requires 0 <= i < |items| => TreeOf(items[i])))
    case Dict(entries) =>
      var names := SortedKeys(entries);
      G.Object(seq(|names|, i requires 0 <= i < |names| =>
        assert names[i] in names; G.Member(names[i], TreeOf(entries[V.Text(names[i])]))))
  }

  // ---- what normalises as a tree is found in the graph ----

  lemma {:induction false} LaidOutUnfolds(h: G.Heap, s: G.Slot, v: V.Value)
    requires G.WellFormedHeap(h) && LaysOut(h, s, v) && V.Normalize(v).Some?
    ensures V.IsJson(V.Normalize(v).value) && Unfolds(h, s, TreeOf(V.Normalize(v).value))
    decreases v, 2
  {
    V.NormalizeYieldsJson(v);
    match v
    case List(items) => ItemsUnfold(h, s, v, items);
    case Tuple(items) => ItemsUnfold(h, s, v, items);
    case Dict(entries) => EntriesUnfold(h, s, v, entries);
    case _ =>
  }

  lemma {:induction false} ItemsUnfold(h: G.Heap, s: G.Slot, v: V.Value, items: seq<V.Value>)
    requires v == V.List(items) || v == V.Tuple(items)
    requires G.WellFormedHeap(h) && LaysOut(h, s, v) && V.Normalize(v).Some?
    ensures V.IsJson(V.Normalize(v).value) && Unfolds(h, s, TreeOf(V.Normalize(v).value))
    decreases v, 1
  {
    var x := V.Normalize(v).value;
    V.NormalizeYieldsJson(v);
    forall i | 0 <= i < |items| ensures Unfolds(h, h[s.id].items[i], TreeOf(x).items[i]) {
      LaidOutUnfolds(h, h[s.id].items[i], items[i]);
      assert TreeOf(x).items[i] == TreeOf(x.items[i]);
    }
  }

  lemma {:induction false} EntriesUnfold(h: G.Heap, s: G.Slot, v: V.Value, entries: map<V.Key, V.Value>)
    requires v == V.Dict(entries) && G.WellFormedHeap(h) && LaysOut(h, s, v) && V.Normalize(v).Some?
    ensures V.IsJson(V.Normalize(v).value) && Unfolds(h, s, TreeOf(V.Normalize(v).value))
    decreases v, 1
  {
    hide HasEntry, HasMember, SameKey, SortedKeys;
    var x := V.Normalize(v).value;
    V.NormalizeYieldsJson(v);
    var es, ms, names := h[s.id].entries, TreeOf(x).members, SortedKeys(x.entries);
    forall j | 0 <= j < |ms| ensures HasMember(h, es, ms[j]) {
      var k := V.Text(names[j]);
      assert names[j] in names;
      EntryUnfolds(h, es, k, entries[k]);
    }
    KeysAreSorted(x.entries, ms);
    KeysAreCounted(x.entries);
    assert x.entries.Keys == entries.Keys;
    assert |x.entries| == |x.entries.Keys| == |entries.Keys| == |entries|;
  }

  lemma KeysAreSorted(entries: map<V.Key, V.Value>, ms: seq<G.Member>)
    requires |ms| == |SortedKeys(entries)| && forall j | 0 <= j < |ms| :: ms[j].name == SortedKeys(entries)[j]
    ensures StrictlySorted(ms)
  {
    N.SortedHolds(KeyTexts(entries));
  }

  lemma {:induction false} EntryUnfolds(h: G.Heap, es: seq<G.Pair>, k: V.Key, v: V.Value)
    requires G.WellFormedHeap(h) && HasEntry(h, es, k, v) && V.Normalize(v).Some? && k.Text?
    ensures V.IsJson(V.Normalize(v).value) && HasMember(h, es, G.Member(k.text, TreeOf(V.Normalize(v).value)))
    decreases v, 3
  {
    hide Unfolds, TreeOf, G.WellFormedHeap, V.Normalize, LaysOut;
    var e :| e in es && SameKey(k, e.key) && LaysOut(h, e.value, v);
    LaidOutUnfolds(h, e.value, v);
    var i :| 0 <= i < |es| && es[i] == e;
  }

  /** Each text key once: as many names as entries. */
  lemma KeysAreCounted(entries: map<V.Key, V.Value>)
    requires forall k | k in entries :: k.Text?
    ensures |SortedKeys(entries)| == |entries|
  {
    var texts := KeyTexts(entries);
    SortedCount(texts);
    TextsCount(entries.Keys, texts);
  }

  lemma {:induction false} SortedCount(s: set<string>)
    ensures |N.Sorted(s)| == |s|
  {
    if s != {} {
      N.LeastExists(s);
      var m :| N.IsLeast(m, s);
      SortedCount(s - {m});
    }
  }

  lemma {:induction false} TextsCount(keys: set<V.Key>, texts: set<string>)
    requires forall k | k in keys :: k.Text? && k.text in texts
    requires forall t | t in texts :: V.Text(t) in keys
    ensures |texts| == |keys|
  {
    if keys != {} {
      var k :| k in keys;
      TextsCount(keys - {k}, texts - {k.text});
    } else {
      assert texts == {};
    }
  }

  // ---- and the other way round ----

  lemma {:induction false} UnfoldedNormalizes(h: G.Heap, s: G.Slot, v: V.Value, t: G.Tree)
    requires G.WellFormedHeap(h) && LaysOut(h, s, v) && Unfolds(h, s, t)
    ensures V.Normalize(v).Some?
    decreases v, 1
  {
    match v
    case List(items) => UnfoldedItemsNormalize(h, s, v, items, t);
    case Tuple(items) => UnfoldedItemsNormalize(h, s, v, items, t);
    case Dict(entries) => UnfoldedEntriesNormalize(h, s, v, entries, t);
    case _ =>
  }

  lemma {:induction false} UnfoldedEntriesNormalize(
    h: G.Heap, s: G.Slot, v: V.Value, entries: map<V.Key, V.Value>, t: G.Tree)
    requires v == V.Dict(entries) && G.WellFormedHeap(h) && LaysOut(h, s, v) && Unfolds(h, s, t)
    ensures V.Normalize(v).Some?
    decreases v, 0
  {
    hide Unfolds, HasEntry;
    EveryEntryIsSupported(h, s, t);
    forall k | k in entries ensures k.Text? && V.Normalize(entries[k]).Some? {
      UnfoldedEntryNormalizes(h, s, t, k, entries[k]);
    }
  }

  lemma {:induction false} UnfoldedItemsNormalize(h: G.Heap, s: G.Slot, v: V.Value, items: seq<V.Value>, t: G.Tree)
    requires v == V.List(items) || v == V.Tuple(items)
    requires G.WellFormedHeap(h) && LaysOut(h, s, v) && Unfolds(h, s, t)
    ensures V.NormalizeItems(v, items).Some?
    decreases v, 0
  {
    forall i | 0 <= i < |items| ensures V.Normalize(items[i]).Some? {
      UnfoldedNormalizes(h, h[s.id].items[i], items[i], t.items[i]);
    }
  }

  lemma {:induction false} UnfoldedEntryNormalizes(h: G.Heap, s: G.Slot, t: G.Tree, k: V.Key, v: V.Value)
    requires G.WellFormedHeap(h) && Unfolds(h, s, t) && s.Ref? && s.id in h && h[s.id].DictNode?
    requires HasEntry(h, h[s.id].entries, k, v) && forall e | e in h[s.id].entries :: e.key.StrKey?
    ensures k.Text? && V.Normalize(v).Some?
    decreases v, 2
  {
    hide Unfolds, G.WellFormedHeap, V.Normalize, LaysOut;
    var e :| e in h[s.id].entries && SameKey(k, e.key) && LaysOut(h, e.value, v);
    C.ChildUnfolds(h, s.id, t, e.value);
    var u :| Unfolds(h, e.value, u);
    UnfoldedNormalizes(h, e.value, v, u);
  }

  lemma EveryEntryIsSupported(h: G.Heap, s: G.Slot, t: G.Tree)
    requires G.WellFormedHeap(h) && Unfolds(h, s, t) && s.Ref? && h[s.id].DictNode?
    ensures forall e | e in h[s.id].entries :: e.key.StrKey?
  {
    assert G.WellFormedNode(h, h[s.id]);
    EveryKeyIsAName(h, h[s.id].entries, t.members);
  }

  /** No two JSON values have the same key-sorted tree. */
  lemma {:induction false} TreeOfIsInjective(x: V.Value, y: V.Value)
    requires V.IsJson(x) && V.IsJson(y) && TreeOf(x) == TreeOf(y)
    ensures x == y
  {
    match x
    case List(items) =>
      forall i | 0 <= i < |items| ensures items[i] == y.items[i] {
        assert TreeOf(x).items[i] == TreeOf(y).items[i];
        TreeOfIsInjective(items[i], y.items[i]);
      }
      assert |TreeOf(x).items| == |items| && |TreeOf(y).items| == |y.items|;
    case Dict(entries) =>
      SameTreeSameKeys(x, y);
      forall k | k in entries ensures k in y.entries && entries[k] == y.entries[k] {
        assert k in entries.Keys;
        MemberOfKey(x, y, k);
        TreeOfIsInjective(entries[k], y.entries[k]);
      }
      assert entries == y.entries;
    case _ =>
  }

  lemma SameTreeSameKeys(x: V.Value, y: V.Value)
    requires V.IsJson(x) && V.IsJson(y) && x.Dict? && TreeOf(x) == TreeOf(y)
    ensures y.Dict? && x.entries.Keys == y.entries.Keys && SortedKeys(x.entries) == SortedKeys(y.entries)
  {
    var names, others := SortedKeys(x.entries), SortedKeys(y.entries);
    var ms := TreeOf(x).members;
    assert |names| == |ms| == |others|;
    forall j | 0 <= j < |ms| ensures names[j] == ms[j].name == others[j] {}
    assert names == others;
    N.SortedHolds(KeyTexts(x.entries));
    N.SortedHolds(KeyTexts(y.entries));
    forall k ensures k in x.entries <==> k in y.entries {
      assert k in x.entries ==> k.Text? && k.text in KeyTexts(x.entries) && k.text in names;
      assert k in y.entries ==> k.Text? && k.text in KeyTexts(y.entries) && k.text in others;
    }
  }

  lemma MemberOfKey(x: V.Value, y: V.Value, k: V.Key)
    requires V.IsJson(x) && V.IsJson(y) && x.Dict? && y.Dict? && TreeOf(x) == TreeOf(y)
    requires k in x.entries && k in y.entries && SortedKeys(x.entries) == SortedKeys(y.entries)
    ensures TreeOf(x.entries[k]) == TreeOf(y.entries[k])
  {
    var names := SortedKeys(x.entries);
    N.SortedHolds(KeyTexts(x.entries));
    assert k.text in KeyTexts(x.entries);
    var j :| 0 <= j < |names| && names[j] == k.text;
    assert TreeOf(x).members[j].value == TreeOf(x.entries[k]);
    assert TreeOf(y).members[j].value == TreeOf(y.entries[k]);
  }

  /** Both normalisers succeed on the same objects, and the graph's result is the tree's result with its
      keys in order. */
  lemma TreeInMemoryNormalizesAlike(h: G.Heap, s: G.Slot, v: V.Value)
    requires G.WellFormedHeap(h) && G.InHeap(h, s) && LaysOut(h, s, v)
    ensures G.Normalize(h, s, {}).Ok? <==> V.Normalize(v).Some?
    ensures V.Normalize(v).Some? ==>
              V.IsJson(V.Normalize(v).value) && G.Normalize(h, s, {}) == G.Ok(TreeOf(V.Normalize(v).value))
  {
    hide V.Normalize, G.Normalize;
    if V.Normalize(v).Some? {
      LaidOutUnfolds(h, s, v);
      NormalizeIffUnfolds(h, s, TreeOf(V.Normalize(v).value));
    }
    if G.Normalize(h, s, {}).Ok? {
      NormalizeIffUnfolds(h, s, G.Normalize(h, s, {}).value);
      UnfoldedNormalizes(h, s, v, G.Normalize(h, s, {}).value);
    }
  }
}
