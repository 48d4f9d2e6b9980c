/** What the JSON normaliser says when it fails is true of the object it was given. */
module ObjectGraphFailures {
  import opened ObjectGraph
  import opened ObjectGraphCycles

  /** Somewhere within reach there is what the failure reports. */
  ghost predicate IsThere(h: Heap, root: Slot, f: Failure) {
    match f
    case CyclicContainer => CycleInReach(h, root)
    case UnsupportedType => exists p :: StandsAt(h, root, p, Unsupported)
    case NonStringKey => exists p :: WalkFrom(h, root, p) && HasOtherKey(h[p[|p| - 1]])
  }

  predicate HasOtherKey(n: Node) {
    n.DictNode? && exists i :: 0 <= i < |n.entries| && n.entries[i].key.OtherKey?
  }

  lemma {:induction false} ItemFails(h: Heap, items: seq<Slot>, seen: set<nat>) returns (i: nat)
    requires WellFormedHeap(h) && (forall i | 0 <= i < |items| :: InHeap(h, items[i])) && NormalizeItems(h, items, seen).Err?
    ensures i < |items| && Normalize(h, items[i], seen) == Err(NormalizeItems(h, items, seen).failure)
  {
    var n := |items| - 1;
    if NormalizeItems(h, items[..n], seen).Err? { i := ItemFails(h, items[..n], seen); } else { i := n; }
  }

  lemma {:induction false} MemberFails(h: Heap, entries: seq<Pair>, seen: set<nat>) returns (i: nat)
    requires WellFormedHeap(h) && (forall e | e in entries :: InHeap(h, e.value)) && NormalizeMembers(h, entries, seen).Err?
    ensures i < |entries|
    ensures var f := NormalizeMembers(h, entries, seen).failure;
            if entries[i].key.OtherKey? then f == NonStringKey else Normalize(h, entries[i].value, seen) == Err(f)
  {
    var n := |entries| - 1;
    if NormalizeMembers(h, entries[..n], seen).Err? { i := MemberFails(h, entries[..n], seen); } else { i := n; }
  }

  lemma {:induction false} FailureIsThereBelow(h: Heap, root: Slot, p: seq<nat>, c: Slot)
    requires WellFormedHeap(h) && InHeap(h, c) && StandsAt(h, root, p, c) && Normalize(h, c, Elements(p)).Err?
    ensures IsThere(h, root, Normalize(h, c, Elements(p)).failure)
    decreases h.Keys - Elements(p)
  {
    if c.Ref? {
      var q := p + [c.id];
      WalkGoesOn(h, root, p, c);
      if c.id in Elements(p) {
        ComesBack(p, c.id);
        assert Repeats(q);
      } else {
        match h[c.id]
        case ListNode(items) =>
          var i := ItemFails(h, items, Elements(q));
          FailureIsThereBelow(h, root, q, items[i]);
        case DictNode(entries) =>
          SortKeepsMembers(entries);
          var sorted := SortByText(entries);
          var i := MemberFails(h, sorted, Elements(q));
          assert sorted[i] in entries;
          var k :| 0 <= k < |entries| && entries[k] == sorted[i];
          if sorted[i].key.StrKey? { FailureIsThereBelow(h, root, q, sorted[i].value); } else { assert HasOtherKey(h[q[|q| - 1]]); }
      }
    }
  }

  lemma WalkGoesOn(h: Heap, root: Slot, p: seq<nat>, c: Slot)
    requires WellFormedHeap(h) && InHeap(h, c) && StandsAt(h, root, p, c) && c.Ref?
    ensures var q := p + [c.id];
            && WalkFrom(h, root, q) && q[|q| - 1] == c.id && Elements(q) == Elements(p) + {c.id}
            && WellFormedNode(h, h[c.id]) && forall d | Holds(h[c.id], d) :: StandsAt(h, root, q, d)
  {
    var q := p + [c.id];
    assert WalkFrom(h, root, q);
    assert q[|p|] == c.id;
  }

  lemma ComesBack(p: seq<nat>, id: nat)
    requires id in Elements(p)
    ensures Repeats(p + [id])
  {
    var q := p + [id];
    var i :| 0 <= i < |p| && p[i] == id;
    assert q[i] == q[|p|];
  }

  /** A failure of the whole normalisation names something that is within reach: a cycle, a value of no
      supported type, or a key that is not a string. */
  lemma FailureIsTrue(h: Heap, v: Slot)
    requires WellFormedHeap(h) && InHeap(h, v) && Normalize(h, v, {}).Err?
    ensures IsThere(h, v, Normalize(h, v, {}).failure)
  {
    assert Elements([]) == {};
    FailureIsThereBelow(h, v, [], v);
  }
}
