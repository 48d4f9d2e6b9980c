/** Which object graphs can be normalised: those with no cycle, only supported values and only string
    keys within reach. Sharing is no obstacle. And normalising the result again changes nothing. */
module ObjectGraphCycles {
  import opened ObjectGraph
  import opened ObjectGraphUnfolding
  import T = Text

  predicate Holds(n: Node, v: Slot) {
    match n
    case ListNode(items) => v in items
    case DictNode(entries) => exists e | e in entries :: e.value == v
  }

  predicate Chain(h: Heap, p: seq<nat>) {
    && (forall i | 0 <= i < |p| :: p[i] in h)
    && forall i | 0 < i < |p| :: Holds(h[p[i - 1]], Ref(p[i]))
  }

  /** p walks from the object v along references. */
  predicate WalkFrom(h: Heap, v: Slot, p: seq<nat>) {
    p != [] && v == Ref(p[0]) && Chain(h, p)
  }

  predicate Repeats(p: seq<nat>) {
    exists i, j :: 0 <= i < j < |p| && p[i] == p[j]
  }

  ghost predicate CycleInReach(h: Heap, v: Slot) {
    exists p :: WalkFrom(h, v, p) && Repeats(p)
  }

  predicate SupportedNode(n: Node) {
    && !Holds(n, Unsupported)
    && (n.DictNode? ==> forall e | e in n.entries :: e.key.StrKey?)
  }

  ghost predicate AllSupported(h: Heap, v: Slot) {
    && v != Unsupported
    && forall p | WalkFrom(h, v, p) :: SupportedNode(h[p[|p| - 1]])
  }

  // ---- an unfolding rules out cycles and unsupported values ----

  lemma ChildUnfolds(h: Heap, id: nat, t: Tree, c: Slot)
    requires WellFormedHeap(h) && id in h && Unfolds(h, Ref(id), t) && Holds(h[id], c)
    ensures exists u :: Unfolds(h, c, u) && Size(u) < Size(t)
  {
    assert WellFormedNode(h, h[id]);
    match t
    case Array(ts) =>
      var i: nat :| i < |h[id].items| && h[id].items[i] == c;
      PartIsSmaller(ts, i);
    case Object(ms) =>
      var entries := h[id].entries;
      var e :| e in entries && e.value == c;
      EveryKeyIsAName(h, entries, ms);
      NamesFillEntries(h, entries, ms);
      assert e.key.text in EntryNames(entries);
      var j: nat :| j < |ms| && ms[j].name == e.key.text;
      assert HasMember(h, entries, ms[j]);
      EntryUnfolds(h, entries, e, ms[j]);
      MemberIsSmaller(ms, j);
  }

  lemma EntryUnfolds(h: Heap, entries: seq<Pair>, e: Pair, m: Member)
    requires DistinctKeys(entries) && e in entries && e.key == StrKey(m.name) && HasMember(h, entries, m)
    ensures Unfolds(h, e.value, m.value)
  {
  }

  lemma {:induction false} WalkUnfolds(h: Heap, p: seq<nat>, t: Tree) returns (u: Tree)
    requires WellFormedHeap(h) && p != [] && Chain(h, p) && Unfolds(h, Ref(p[0]), t)
    ensures Unfolds(h, Ref(p[|p| - 1]), u)
    ensures if |p| == 1 then u == t else Size(u) < Size(t)
  {
    if |p| == 1 {
      u := t;
    } else {
      ChildUnfolds(h, p[0], t, Ref(p[1]));
      var s :| Unfolds(h, Ref(p[1]), s) && Size(s) < Size(t);
      u := WalkUnfolds(h, p[1..], s);
    }
  }

  lemma UnfoldingHasNoCycle(h: Heap, v: Slot, t: Tree)
    requires WellFormedHeap(h) && Unfolds(h, v, t)
    ensures !CycleInReach(h, v)
  {
    forall p | WalkFrom(h, v, p) ensures !Repeats(p) {
      forall i, j | 0 <= i < j < |p| ensures p[i] != p[j] {
        assert Chain(h, p[..i + 1]);
        var u := WalkUnfolds(h, p[..i + 1], t);
        assert Chain(h, p[i..j + 1]);
        var w := WalkUnfolds(h, p[i..j + 1], u);
        if p[i] == p[j] { UnfoldingIsUnique(h, Ref(p[i]), u, w); }
      }
    }
  }

  lemma UnfoldingIsSupported(h: Heap, v: Slot, t: Tree)
    requires WellFormedHeap(h) && Unfolds(h, v, t)
    ensures AllSupported(h, v)
  {
    forall p | WalkFrom(h, v, p) ensures SupportedNode(h[p[|p| - 1]]) {
      var id := p[|p| - 1];
      var u := WalkUnfolds(h, p, t);
      assert WellFormedNode(h, h[id]);
      if Holds(h[id], Unsupported) {
        ChildUnfolds(h, id, u, Unsupported);
        assert false;
      }
      if h[id].DictNode? { EveryKeyIsAName(h, h[id].entries, u.members); }
    }
  }

  // ---- with neither in reach the recursion succeeds ----

  function Elements(p: seq<nat>): set<nat> {
    set id | id in p
  }

  /** The recursion stands at object c below root, having come along p. */
  predicate StandsAt(h: Heap, root: Slot, p: seq<nat>, c: Slot) {
    if p == [] then c == root else WalkFrom(h, root, p) && Holds(h[p[|p| - 1]], c)
  }

  lemma StepDown(h: Heap, root: Slot, p: seq<nat>, c: Slot)
    requires WellFormedHeap(h) && InHeap(h, c) && StandsAt(h, root, p, c) && c.Ref?
    requires AllSupported(h, root) && !CycleInReach(h, root)
    ensures c.id !in Elements(p) && Elements(p + [c.id]) == Elements(p) + {c.id}
    ensures SupportedNode(h[c.id]) && WellFormedNode(h, h[c.id])
    ensures forall d | Holds(h[c.id], d) :: StandsAt(h, root, p + [c.id], d)
  {
    var q := p + [c.id];
    assert WalkFrom(h, root, q);
    assert !Repeats(q);
    assert q[|p|] == c.id;
    forall i | 0 <= i < |p| ensures p[i] != c.id { assert q[i] == p[i]; }
  }

  lemma {:induction false} NormalizeSucceeds(h: Heap, root: Slot, p: seq<nat>, c: Slot)
    requires WellFormedHeap(h) && InHeap(h, c) && StandsAt(h, root, p, c)
    requires AllSupported(h, root) && !CycleInReach(h, root)
    ensures Normalize(h, c, Elements(p)).Ok?
    decreases h.Keys - Elements(p)
  {
    if c.Ref? {
      var q := p + [c.id];
      StepDown(h, root, p, c);
      match h[c.id]
      case ListNode(items) =>
        forall i | 0 <= i < |items| ensures Normalize(h, items[i], Elements(q)).Ok? {
          NormalizeSucceeds(h, root, q, items[i]);
        }
        ItemsNormalizeEachOnItsOwn(h, items, Elements(q));
      case DictNode(entries) =>
        SortKeepsMembers(entries);
        var sorted := SortByText(entries);
        forall i | 0 <= i < |sorted| ensures
          && sorted[i].key.StrKey? && InHeap(h, sorted[i].value) && Normalize(h, sorted[i].value, Elements(q)).Ok? {
          assert sorted[i] in entries;
          NormalizeSucceeds(h, root, q, sorted[i].value);
        }
        MembersNormalizeEachOnItsOwn(h, sorted, Elements(q));
    } else if p != [] {
      assert SupportedNode(h[p[|p| - 1]]);
    }
  }

  /** Normalisation succeeds exactly on graphs with no cycle, unsupported value or non-string key
      within reach. An object met twice along different walks is no obstacle. */
  lemma NormalizeSucceedsIff(h: Heap, v: Slot)
    requires WellFormedHeap(h) && InHeap(h, v)
    ensures Normalize(h, v, {}).Ok? <==> AllSupported(h, v) && !CycleInReach(h, v)
  {
    if Normalize(h, v, {}).Ok? {
      var t := Normalize(h, v, {}).value;
      NormalizeIffUnfolds(h, v, t);
      UnfoldingHasNoCycle(h, v, t);
      UnfoldingIsSupported(h, v, t);
    }
    if AllSupported(h, v) && !CycleInReach(h, v) {
      assert Elements([]) == {};
      NormalizeSucceeds(h, v, [], v);
    }
  }

  // ---- normalising again ----

  /** v is a Python object holding just the data of t, dicts in the order of t's members. */
  ghost predicate Stores(h: Heap, v: Slot, t: Tree)
    decreases t
  {
    match t
    case Atom(leaf) => v == Scalar(leaf)
    case Array(ts) =>
      && v.Ref? && v.id in h && h[v.id].ListNode? && |h[v.id].items| == |ts|
      && forall i | 0 <= i < |ts| :: Stores(h, h[v.id].items[i], ts[i])
    case Object(ms) =>
      && v.Ref? && v.id in h && h[v.id].DictNode? && |h[v.id].entries| == |ms|
      && forall i | 0 <= i < |ms| ::
           h[v.id].entries[i].key == StrKey(ms[i].name) && Stores(h, h[v.id].entries[i].value, ms[i].value)
  }

  lemma {:induction false} StoredUnfoldingUnfolds(h: Heap, v: Slot, t: Tree, h': Heap, v': Slot)
    requires Unfolds(h, v, t) && Stores(h', v', t)
    ensures Unfolds(h', v', t)
    decreases t
  {
    match t
    case Atom(_) =>
    case Array(ts) =>
      forall i | 0 <= i < |ts| {
        StoredUnfoldingUnfolds(h, h[v.id].items[i], ts[i], h', h'[v'.id].items[i]);
      }
    case Object(ms) =>
      var entries := h'[v'.id].entries;
      forall j | 0 <= j < |ms| ensures HasMember(h', entries, ms[j]) {
        assert HasMember(h, h[v.id].entries, ms[j]);
        var i: nat :| i < |h[v.id].entries| && Unfolds(h, h[v.id].entries[i].value, ms[j].value);
        StoredUnfoldingUnfolds(h, h[v.id].entries[i].value, ms[j].value, h', entries[j].value);
      }
  }

  /** However the result is laid out in memory, normalising it again gives it back. */
  lemma NormalizingAgainChangesNothing(h: Heap, v: Slot, h': Heap, v': Slot)
    requires WellFormedHeap(h) && InHeap(h, v) && WellFormedHeap(h') && InHeap(h', v')
    requires Normalize(h, v, {}).Ok? && Stores(h', v', Normalize(h, v, {}).value)
    ensures Normalize(h', v', {}) == Normalize(h, v, {})
  {
    var t := Normalize(h, v, {}).value;
    NormalizeIffUnfolds(h, v, t);
    StoredUnfoldingUnfolds(h, v, t, h', v');
    NormalizeIffUnfolds(h', v', t);
  }
}
