/** `normalize_json_value` on a graph of Python containers: sharing is allowed, cycles are refused. */
module ObjectGraph {
  import T = Text
  import V = PythonValues

  datatype Leaf = NullLeaf | BoolLeaf(b: bool) | IntLeaf(i: int) | FloatLeaf(f: V.Float) | StrLeaf(s: string)

  /** A mapping key: a string, or something else whose `str()` is the given text. */
  datatype Key = StrKey(text: string) | OtherKey(text: string)

  /** What a slot holds: a scalar, a reference to a container, or an object of no supported type. */
  datatype Slot = Scalar(leaf: Leaf) | Ref(id: nat) | Unsupported

  datatype Pair = Pair(key: Key, value: Slot)

  /** A list or tuple, or a dict in insertion order. */
  datatype Node = ListNode(items: seq<Slot>) | DictNode(entries: seq<Pair>)

  type Heap = map<nat, Node>

  datatype Member = Member(name: string, value: Tree)
  datatype Tree = Atom(leaf: Leaf) | Array(items: seq<Tree>) | Object(members: seq<Member>)

  datatype Failure = CyclicContainer | NonStringKey | UnsupportedType
  datatype Result<+R> = Ok(value: R) | Err(failure: Failure) {
    predicate IsFailure() { Err? }
    function PropagateFailure<U>(): Result<U>
      requires Err?
    {
      Err(failure)
    }
    function Extract(): R
      requires Ok?
    {
      value
    }
  }

  predicate InHeap(h: Heap, v: Slot) {
    v.Ref? ==> v.id in h
  }

  predicate DistinctKeys(entries: seq<Pair>) {
    forall i, j | 0 <= i < j < |entries| :: entries[i].key != entries[j].key
  }

  /** Every reference leads to a container and no dict has a key twice. */
  predicate WellFormedHeap(h: Heap) {
    forall id | id in h :: WellFormedNode(h, h[id])
  }

  predicate WellFormedNode(h: Heap, n: Node) {
    match n
    case ListNode(items) => forall i | 0 <= i < |items| :: InHeap(h, items[i])
    case DictNode(entries) =>
      DistinctKeys(entries) && forall i | 0 <= i < |entries| :: InHeap(h, entries[i].value)
  }

  // ---- sorted(value.keys(), key=str) ----

  function Insert(e: Pair, sorted: seq<Pair>): seq<Pair> {
    if sorted == [] || !T.Before(sorted[0].key.text, e.key.text) then [e] + sorted
    else [sorted[0]] + Insert(e, sorted[1..])
  }

  function SortByText(entries: seq<Pair>): seq<Pair> {
    if entries == [] then [] else Insert(entries[0], SortByText(entries[1..]))
  }

  predicate SortedByText(entries: seq<Pair>) {
    forall i, j | 0 <= i < j < |entries| :: !T.Before(entries[j].key.text, entries[i].key.text)
  }

  lemma {:induction false} InsertKeepsSorted(e: Pair, sorted: seq<Pair>)
    requires SortedByText(sorted)
    ensures SortedByText(Insert(e, sorted))
    ensures multiset(Insert(e, sorted)) == multiset{e} + multiset(sorted)
  {
    var r := Insert(e, sorted);
    if sorted == [] {
    } else if !T.Before(sorted[0].key.text, e.key.text) {
      forall j | 0 <= j < |sorted| ensures !T.Before(sorted[j].key.text, e.key.text) {
        if T.Before(sorted[j].key.text, e.key.text) {
          T.BeforeIsTotal(sorted[0].key.text, sorted[j].key.text);
          if T.Before(sorted[0].key.text, sorted[j].key.text) {
            T.BeforeIsTransitive(sorted[0].key.text, sorted[j].key.text, e.key.text);
          }
        }
      }
    } else {
      var rest := Insert(e, sorted[1..]);
      InsertKeepsSorted(e, sorted[1..]);
      assert sorted == [sorted[0]] + sorted[1..];
      forall j | 0 <= j < |rest| ensures !T.Before(rest[j].key.text, sorted[0].key.text) {
        assert rest[j] in multiset(rest);
        if rest[j] == e {
          T.BeforeIsTotal(sorted[0].key.text, e.key.text);
        } else {
          assert rest[j] in multiset(sorted[1..]);
          var k :| 0 <= k < |sorted[1..]| && sorted[1..][k] == rest[j];
          assert sorted[k + 1] == rest[j];
        }
      }
    }
  }

  lemma {:induction false} SortSorts(entries: seq<Pair>)
    ensures SortedByText(SortByText(entries))
    ensures multiset(SortByText(entries)) == multiset(entries)
    ensures |SortByText(entries)| == |entries|
  {
    if entries != [] {
      SortSorts(entries[1..]);
      InsertKeepsSorted(entries[0], SortByText(entries[1..]));
      assert entries == [entries[0]] + entries[1..];
      SameMultisetSameLength(SortByText(entries), entries);
    }
  }

  lemma SameMultisetSameLength(a: seq<Pair>, b: seq<Pair>)
    requires multiset(a) == multiset(b)
    ensures |a| == |b|
  {
    assert |multiset(a)| == |a| && |multiset(b)| == |b|;
  }

  lemma SortKeepsMembers(entries: seq<Pair>)
    ensures forall e :: e in SortByText(entries) <==> e in entries
  {
    SortSorts(entries);
    forall e ensures e in SortByText(entries) <==> e in entries {
      assert e in SortByText(entries) <==> e in multiset(SortByText(entries));
      assert e in entries <==> e in multiset(entries);
    }
  }

  // ---- the normaliser ----

  function Normalize(h: Heap, v: Slot, seen: set<nat>): Result<Tree>
    requires WellFormedHeap(h) && InHeap(h, v)
    decreases h.Keys - seen, 2, 0
  {
    match v
    case Scalar(leaf) => Ok(Atom(leaf))
    case Unsupported => Err(UnsupportedType)
    case Ref(id) =>
      if id in seen then Err(CyclicContainer)
      else
        assert WellFormedNode(h, h[id]);
        match h[id]
        case ListNode(items) =>
          var ts :- NormalizeItems(h, items, seen + {id});
          Ok(Array(ts))
        case DictNode(entries) =>
          SortKeepsMembers(entries);
          var ms :- NormalizeMembers(h, SortByText(entries), seen + {id});
          Ok(Object(ms))
  }

  function NormalizeItems(h: Heap, items: seq<Slot>, seen: set<nat>): Result<seq<Tree>>
    requires WellFormedHeap(h) && forall i | 0 <= i < |items| :: InHeap(h, items[i])
    decreases h.Keys - seen, 3, |items|
  {
    if items == [] then Ok([])
    else
      var front :- NormalizeItems(h, items[..|items| - 1], seen);
      var last :- Normalize(h, items[|items| - 1], seen);
      Ok(front + [last])
  }

  function NormalizeMembers(h: Heap, entries: seq<Pair>, seen: set<nat>): Result<seq<Member>>
    requires WellFormedHeap(h) && forall e | e in entries :: InHeap(h, e.value)
    decreases h.Keys - seen, 3, |entries|
  {
    if entries == [] then Ok([])
    else
      var front :- NormalizeMembers(h, entries[..|entries| - 1], seen);
      var e := entries[|entries| - 1];
      if e.key.OtherKey? then Err(NonStringKey)
      else
        var last :- Normalize(h, e.value, seen);
        Ok(front + [Member(e.key.text, last)])
  }

  lemma {:induction false} ItemsNormalizeEachOnItsOwn(h: Heap, items: seq<Slot>, seen: set<nat>)
    requires WellFormedHeap(h) && forall i | 0 <= i < |items| :: InHeap(h, items[i])
    ensures NormalizeItems(h, items, seen).Ok? <==> forall i | 0 <= i < |items| :: Normalize(h, items[i], seen).Ok?
    ensures NormalizeItems(h, items, seen).Ok? ==>
              && |NormalizeItems(h, items, seen).value| == |items|
              && forall i | 0 <= i < |items| :: Normalize(h, items[i], seen) == Ok(NormalizeItems(h, items, seen).value[i])
  {
    if items != [] {
      ItemsNormalizeEachOnItsOwn(h, items[..|items| - 1], seen);
    }
  }

  lemma {:induction false} MembersNormalizeEachOnItsOwn(h: Heap, entries: seq<Pair>, seen: set<nat>)
    requires WellFormedHeap(h) && forall e | e in entries :: InHeap(h, e.value)
    ensures NormalizeMembers(h, entries, seen).Ok? <==>
              forall i | 0 <= i < |entries| :: entries[i].key.StrKey? && Normalize(h, entries[i].value, seen).Ok?
    ensures NormalizeMembers(h, entries, seen).Ok? ==>
              && |NormalizeMembers(h, entries, seen).value| == |entries|
              && forall i | 0 <= i < |entries| ::
                   && NormalizeMembers(h, entries, seen).value[i].name == entries[i].key.text
                   && Normalize(h, entries[i].value, seen) == Ok(NormalizeMembers(h, entries, seen).value[i].value)
  {
    if entries != [] {
      MembersNormalizeEachOnItsOwn(h, entries[..|entries| - 1], seen);
    }
  }

  /** The ids of the containers on the path from the root, as the recursion shares them. */
  class PathSet {
    var ids: set<nat>

    constructor ()
      ensures ids == {}
    {
      ids := {};
    }

    /** Whatever the outcome, the path set is the same on exit as on entry. */
    method NormalizeJsonValue(h: Heap, v: Slot) returns (r: Result<Tree>)
      requires WellFormedHeap(h) && InHeap(h, v)
      modifies this
      ensures r == Normalize(h, v, old(ids))
      ensures ids == old(ids)
      decreases h.Keys - ids, 0
    {
      match v
      case Scalar(leaf) => r := Ok(Atom(leaf));
      case Unsupported => r := Err(UnsupportedType);
      case Ref(id) =>
        if id in ids {
          return Err(CyclicContainer);
        }
        assert WellFormedNode(h, h[id]);
        ids := ids + {id};
        match h[id] {
          case ListNode(items) =>
            var ts := NormalizeListItems(h, items);
            r := if ts.Ok? then Ok(Array(ts.value)) else Err(ts.failure);
          case DictNode(entries) =>
            SortKeepsMembers(entries);
            var ms := NormalizeDictMembers(h, SortByText(entries));
            r := if ms.Ok? then Ok(Object(ms.value)) else Err(ms.failure);
        }
        ids := ids - {id};
    }

    method NormalizeListItems(h: Heap, items: seq<Slot>) returns (r: Result<seq<Tree>>)
      requires WellFormedHeap(h) && forall i | 0 <= i < |items| :: InHeap(h, items[i])
      modifies this
      ensures r == NormalizeItems(h, items, old(ids))
      ensures ids == old(ids)
      decreases h.Keys - ids, 1
    {
      var ts: seq<Tree> := [];
      for i := 0 to |items|
        invariant ids == old(ids)
        invariant NormalizeItems(h, items[..i], ids) == Ok(ts)
      {
        assert items[..i + 1][..i] == items[..i];
        var t := NormalizeJsonValue(h, items[i]);
        if t.Err? {
          ItemsErrorIsFinal(h, items, ids, i + 1);
          return Err(t.failure);
        }
        ts := ts + [t.value];
      }
      assert items[..|items|] == items;
      return Ok(ts);
    }

    method NormalizeDictMembers(h: Heap, entries: seq<Pair>) returns (r: Result<seq<Member>>)
      requires WellFormedHeap(h) && forall e | e in entries :: InHeap(h, e.value)
      modifies this
      ensures r == NormalizeMembers(h, entries, old(ids))
      ensures ids == old(ids)
      decreases h.Keys - ids, 1
    {
      var ms: seq<Member> := [];
      for i := 0 to |entries|
        invariant ids == old(ids)
        invariant NormalizeMembers(h, entries[..i], ids) == Ok(ms)
      {
        assert entries[..i + 1][..i] == entries[..i];
        if entries[i].key.OtherKey? {
          MembersErrorIsFinal(h, entries, ids, i + 1);
          return Err(NonStringKey);
        }
        var t := NormalizeJsonValue(h, entries[i].value);
        if t.Err? {
          MembersErrorIsFinal(h, entries, ids, i + 1);
          return Err(t.failure);
        }
        ms := ms + [Member(entries[i].key.text, t.value)];
      }
      assert entries[..|entries|] == entries;
      return Ok(ms);
    }
  }

  lemma {:induction false} ItemsErrorIsFinal(h: Heap, items: seq<Slot>, seen: set<nat>, n: nat)
    requires WellFormedHeap(h) && forall i | 0 <= i < |items| :: InHeap(h, items[i])
    requires n <= |items| && NormalizeItems(h, items[..n], seen).Err?
    ensures NormalizeItems(h, items, seen) == NormalizeItems(h, items[..n], seen)
    decreases |items|
  {
    hide Normalize;
    if n == |items| {
      assert items[..n] == items;
    } else {
      assert items[..|items| - 1][..n] == items[..n];
      ItemsErrorIsFinal(h, items[..|items| - 1], seen, n);
    }
  }

  lemma {:induction false} MembersErrorIsFinal(h: Heap, entries: seq<Pair>, seen: set<nat>, n: nat)
    requires WellFormedHeap(h) && forall e | e in entries :: InHeap(h, e.value)
    requires n <= |entries| && NormalizeMembers(h, entries[..n], seen).Err?
    ensures NormalizeMembers(h, entries, seen) == NormalizeMembers(h, entries[..n], seen)
    decreases |entries|
  {
    hide Normalize;
    if n == |entries| {
      assert entries[..n] == entries;
    } else {
      assert entries[..|entries| - 1][..n] == entries[..n];
      MembersErrorIsFinal(h, entries[..|entries| - 1], seen, n);
    }
  }
}
