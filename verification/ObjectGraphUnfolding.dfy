/** When normalisation succeeds, and what it then returns: the key-sorted unfolding of the graph. */
module ObjectGraphUnfolding {
  import opened ObjectGraph
  import T = Text

  predicate StrictlySorted(members: seq<Member>) {
    forall i, j | 0 <= i < j < |members| :: T.Before(members[i].name, members[j].name)
  }

  /** The tree t is what object v unfolds to: lists item by item in order, dicts with every entry
      once and the keys in strictly increasing order. Defined without the recursion's path set. */
  ghost predicate Unfolds(h: Heap, v: Slot, t: Tree)
    decreases t
  {
    match t
    case Atom(leaf) => v == Scalar(leaf)
    case Array(ts) =>
      && v.Ref? && v.id in h && h[v.id].ListNode?
      && |h[v.id].items| == |ts|
      && forall i | 0 <= i < |ts| :: Unfolds(h, h[v.id].items[i], ts[i])
    case Object(ms) =>
      && v.Ref? && v.id in h && h[v.id].DictNode?
      && |h[v.id].entries| == |ms|
      && StrictlySorted(ms)
      && forall j | 0 <= j < |ms| :: HasMember(h, h[v.id].entries, ms[j])
  }

  ghost predicate HasMember(h: Heap, entries: seq<Pair>, m: Member)
    decreases m
  {
    exists i :: 0 <= i < |entries| && entries[i].key == StrKey(m.name) && Unfolds(h, entries[i].value, m.value)
  }

  function Size(t: Tree): nat {
    match t
    case Atom(_) => 1
    case Array(ts) => 1 + SizeOfAll(ts)
    case Object(ms) => 1 + SizeOfMembers(ms)
  }

  function SizeOfAll(ts: seq<Tree>): nat {
    if ts == [] then 0 else Size(ts[0]) + SizeOfAll(ts[1..])
  }

  function SizeOfMembers(ms: seq<Member>): nat {
    if ms == [] then 0 else Size(ms[0].value) + SizeOfMembers(ms[1..])
  }

  lemma {:induction false} PartIsSmaller(ts: seq<Tree>, i: nat)
    requires i < |ts|
    ensures Size(ts[i]) <= SizeOfAll(ts)
  {
    if i > 0 { PartIsSmaller(ts[1..], i - 1); }
  }

  lemma {:induction false} MemberIsSmaller(ms: seq<Member>, i: nat)
    requires i < |ms|
    ensures Size(ms[i].value) <= SizeOfMembers(ms)
  {
    if i > 0 { MemberIsSmaller(ms[1..], i - 1); }
  }

  // ---- a successful run returns the unfolding ----

  lemma {:induction false} NormalizeUnfolds(h: Heap, v: Slot, seen: set<nat>)
    requires WellFormedHeap(h) && InHeap(h, v)
    requires Normalize(h, v, seen).Ok?
    ensures Unfolds(h, v, Normalize(h, v, seen).value)
    decreases h.Keys - seen
  {
    if v.Ref? {
      assert WellFormedNode(h, h[v.id]);
      match h[v.id]
      case ListNode(items) =>
        ItemsNormalizeEachOnItsOwn(h, items, seen + {v.id});
        forall i | 0 <= i < |items| { NormalizeUnfolds(h, items[i], seen + {v.id}); }
      case DictNode(entries) =>
        var sorted := SortByText(entries);
        SortKeepsMembers(entries);
        SortSorts(entries);
        MembersNormalizeEachOnItsOwn(h, sorted, seen + {v.id});
        var ms := NormalizeMembers(h, sorted, seen + {v.id}).value;
        forall j | 0 <= j < |ms| ensures HasMember(h, entries, ms[j]) {
          assert sorted[j] in entries;
          var i :| 0 <= i < |entries| && entries[i] == sorted[j];
          NormalizeUnfolds(h, sorted[j].value, seen + {v.id});
        }
        SortedDistinctIsStrict(entries, sorted, ms);
    }
  }

  lemma SortedDistinctIsStrict(entries: seq<Pair>, sorted: seq<Pair>, ms: seq<Member>)
    requires DistinctKeys(entries) && multiset(sorted) == multiset(entries) && SortedByText(sorted)
    requires |ms| == |sorted|
    requires forall i | 0 <= i < |ms| :: sorted[i].key == StrKey(ms[i].name)
    ensures StrictlySorted(ms)
  {
    forall i, j | 0 <= i < j < |ms| ensures T.Before(ms[i].name, ms[j].name) {
      T.BeforeIsTotal(ms[i].name, ms[j].name);
      if ms[i].name == ms[j].name {
        EqualKeysClash(entries, sorted, i, j);
      }
    }
  }

  lemma EqualKeysClash(entries: seq<Pair>, sorted: seq<Pair>, i: nat, j: nat)
    requires DistinctKeys(entries) && multiset(sorted) == multiset(entries)
    requires i < j < |sorted|
    ensures sorted[i].key != sorted[j].key
  {
    assert sorted[i] in multiset(entries) && sorted[j] in multiset(entries);
    var k: nat :| k < |entries| && entries[k] == sorted[i];
    var l: nat :| l < |entries| && entries[l] == sorted[j];
    if k == l {
      TwiceInMultiset(sorted, i, j);
      OnceInMultiset(entries, k);
      assert false;
    }
  }

  lemma TwiceInMultiset(s: seq<Pair>, i: nat, j: nat)
    requires i < j < |s| && s[i] == s[j]
    ensures multiset(s)[s[i]] >= 2
  {
    assert s == s[..i] + [s[i]] + s[i + 1..j] + [s[j]] + s[j + 1..];
  }

  lemma {:induction false} OnceInMultiset(s: seq<Pair>, k: nat)
    requires DistinctKeys(s) && k < |s|
    ensures multiset(s)[s[k]] == 1
  {
    assert s == s[..k] + [s[k]] + s[k + 1..];
    assert s[k] !in s[..k] && s[k] !in s[k + 1..];
    assert s[k] !in multiset(s[..k]) && s[k] !in multiset(s[k + 1..]);
  }

  // ---- unfoldings are unique, so they can be found ----

  lemma {:induction false} UnfoldingIsUnique(h: Heap, v: Slot, t: Tree, u: Tree)
    requires WellFormedHeap(h)
    requires Unfolds(h, v, t) && Unfolds(h, v, u)
    ensures t == u
    decreases t
  {
    if v.Ref? { assert WellFormedNode(h, h[v.id]); }
    match t
    case Atom(_) =>
    case Array(ts) =>
      forall i | 0 <= i < |ts| ensures ts[i] == u.items[i] {
        UnfoldingIsUnique(h, h[v.id].items[i], ts[i], u.items[i]);
      }
    case Object(ms) =>
      var entries := h[v.id].entries;
      SameNames(h, entries, ms, u.members);
      forall j | 0 <= j < |ms| ensures ms[j] == u.members[j] {
        assert HasMember(h, entries, ms[j]) && HasMember(h, entries, u.members[j]);
        var i: nat :| i < |entries| && entries[i].key == StrKey(ms[j].name) && Unfolds(h, entries[i].value, ms[j].value);
        var k: nat :| k < |entries| && entries[k].key == StrKey(u.members[j].name) && Unfolds(h, entries[k].value, u.members[j].value);
        UnfoldingIsUnique(h, entries[i].value, ms[j].value, u.members[j].value);
      }
  }

  function Names(ms: seq<Member>): set<string> {
    set m | m in ms :: m.name
  }

  function EntryNames(entries: seq<Pair>): set<string> {
    set e | e in entries && e.key.StrKey? :: e.key.text
  }

  /** Strictly sorted members that cover a dict's entries bear the same names in the same places. */
  lemma SameNames(h: Heap, entries: seq<Pair>, ms: seq<Member>, ns: seq<Member>)
    requires DistinctKeys(entries)
    requires |ms| == |entries| == |ns| && StrictlySorted(ms) && StrictlySorted(ns)
    requires forall j | 0 <= j < |ms| :: HasMember(h, entries, ms[j])
    requires forall j | 0 <= j < |ns| :: HasMember(h, entries, ns[j])
    ensures forall j | 0 <= j < |ms| :: ms[j].name == ns[j].name
  {
    NamesFillEntries(h, entries, ms);
    NamesFillEntries(h, entries, ns);
    SortedNamesAgree(ms, ns);
  }

  lemma NamesFillEntries(h: Heap, entries: seq<Pair>, ms: seq<Member>)
    requires DistinctKeys(entries) && |ms| == |entries| && StrictlySorted(ms)
    requires forall j | 0 <= j < |ms| :: HasMember(h, entries, ms[j])
    ensures Names(ms) == EntryNames(entries)
  {
    forall n | n in Names(ms) ensures n in EntryNames(entries) {
      var j: nat :| j < |ms| && ms[j].name == n;
      assert HasMember(h, entries, ms[j]);
    }
    StrictNamesCount(ms);
    EntryNamesCount(entries);
    SubsetOfSameSize(Names(ms), EntryNames(entries));
  }

  lemma {:induction false} StrictNamesCount(ms: seq<Member>)
    requires StrictlySorted(ms)
    ensures |Names(ms)| == |ms|
  {
    if ms != [] {
      var n := |ms| - 1;
      StrictNamesCount(ms[..n]);
      LastNameIsGreatest(ms);
      DropLastName(ms);
    }
  }

  lemma {:induction false} EntryNamesCount(entries: seq<Pair>)
    ensures |EntryNames(entries)| <= |entries|
  {
    if entries != [] {
      var n := |entries| - 1;
      EntryNamesCount(entries[..n]);
      assert entries == entries[..n] + [entries[n]];
      assert EntryNames(entries) == EntryNames(entries[..n]) + (if entries[n].key.StrKey? then {entries[n].key.text} else {});
    }
  }

  lemma {:induction false} SubsetOfSameSize(a: set<string>, b: set<string>)
    requires a <= b && |b| <= |a|
    ensures a == b
  {
    if a != {} {
      var x :| x in a;
      SubsetOfSameSize(a - {x}, b - {x});
    }
  }

  lemma {:induction false} SortedNamesAgree(ms: seq<Member>, ns: seq<Member>)
    requires |ms| == |ns| && StrictlySorted(ms) && StrictlySorted(ns) && Names(ms) == Names(ns)
    ensures forall j | 0 <= j < |ms| :: ms[j].name == ns[j].name
  {
    if ms != [] {
      var n := |ms| - 1;
      LastNameIsGreatest(ms);
      LastNameIsGreatest(ns);
      T.BeforeIsTotal(ms[n].name, ns[n].name);
      assert ms[n].name in Names(ns) && ns[n].name in Names(ms);
      assert ms[n].name == ns[n].name;
      DropLastName(ms);
      DropLastName(ns);
      SortedNamesAgree(ms[..n], ns[..n]);
      forall j | 0 <= j < |ms| ensures ms[j].name == ns[j].name {
        if j < n { assert ms[..n][j].name == ns[..n][j].name; }
      }
    }
  }

  lemma LastNameIsGreatest(ms: seq<Member>)
    requires ms != [] && StrictlySorted(ms)
    ensures forall n | n in Names(ms) :: n == ms[|ms| - 1].name || T.Before(n, ms[|ms| - 1].name)
  {
  }

  lemma DropLastName(ms: seq<Member>)
    requires ms != [] && StrictlySorted(ms)
    ensures Names(ms[..|ms| - 1]) == Names(ms) - {ms[|ms| - 1].name}
  {
    var n := |ms| - 1;
    assert ms == ms[..n] + [ms[n]];
    forall x | x in Names(ms[..n]) ensures x != ms[n].name {
      var j: nat :| j < n && ms[..n][j].name == x;
      assert T.Before(ms[j].name, ms[n].name);
      T.BeforeIsTotal(ms[j].name, ms[n].name);
    }
  }

  /** Nothing on the path can be met again below it: its unfolding would have to be smaller than
      itself. */
  ghost predicate AllLarger(h: Heap, seen: set<nat>, size: nat) {
    forall id, u | id in seen && Unfolds(h, Ref(id), u) :: Size(u) > size
  }

  lemma {:induction false} UnfoldingIsFound(h: Heap, v: Slot, t: Tree, seen: set<nat>)
    requires WellFormedHeap(h) && InHeap(h, v)
    requires Unfolds(h, v, t) && AllLarger(h, seen, Size(t))
    ensures Normalize(h, v, seen) == Ok(t)
    decreases t
  {
    if v.Ref? {
      assert WellFormedNode(h, h[v.id]);
      forall u | Unfolds(h, v, u) ensures u == t { UnfoldingIsUnique(h, v, u, t); }
      assert v.id !in seen;
      var seen' := seen + {v.id};
      match t
      case Array(ts) =>
        var items := h[v.id].items;
        forall i | 0 <= i < |items| ensures Normalize(h, items[i], seen') == Ok(ts[i]) {
          PartIsSmaller(ts, i);
          UnfoldingIsFound(h, items[i], ts[i], seen');
        }
        ItemsNormalizeEachOnItsOwn(h, items, seen');
        assert NormalizeItems(h, items, seen').value == ts;
      case Object(ms) =>
        FoundMembers(h, v, ms, seen');
    }
  }

  lemma {:induction false} FoundMembers(h: Heap, v: Slot, ms: seq<Member>, seen: set<nat>)
    requires WellFormedHeap(h) && InHeap(h, v) && Unfolds(h, v, Object(ms))
    requires AllLarger(h, seen, SizeOfMembers(ms))
    ensures forall e | e in SortByText(h[v.id].entries) :: InHeap(h, e.value)
    ensures NormalizeMembers(h, SortByText(h[v.id].entries), seen) == Ok(ms)
    decreases ms
  {
    assert WellFormedNode(h, h[v.id]);
    var entries := h[v.id].entries;
    var sorted := SortByText(entries);
    SortSorts(entries);
    SortKeepsMembers(entries);
    SortedEntriesLineUp(h, entries, sorted, ms);
    forall i | 0 <= i < |sorted| ensures Normalize(h, sorted[i].value, seen) == Ok(ms[i].value) {
      MemberIsSmaller(ms, i);
      UnfoldingIsFound(h, sorted[i].value, ms[i].value, seen);
    }
    MembersNormalizeEachOnItsOwn(h, sorted, seen);
    assert NormalizeMembers(h, sorted, seen).value == ms;
  }

  function SortedNames(sorted: seq<Pair>): seq<Member> {
    seq(|sorted|, i requires 0 <= i < |sorted| => Member(sorted[i].key.text, Atom(NullLeaf)))
  }

  lemma SortedNamesAreEntryNames(entries: seq<Pair>, sorted: seq<Pair>)
    requires multiset(sorted) == multiset(entries)
    requires forall e | e in entries :: e.key.StrKey?
    ensures Names(SortedNames(sorted)) == EntryNames(entries)
  {
    var ns := SortedNames(sorted);
    forall n | n in Names(ns) ensures n in EntryNames(entries) {
      var i: nat :| i < |ns| && ns[i].name == n;
      assert sorted[i] in multiset(entries);
    }
    forall n | n in EntryNames(entries) ensures n in Names(ns) {
      var e :| e in entries && e.key == StrKey(n);
      assert e in multiset(sorted);
      var i: nat :| i < |sorted| && sorted[i] == e;
      assert ns[i].name == n;
    }
  }

  /** The entries sorted by `str(key)` stand in the order of the unfolding's members. */
  lemma SortedEntriesLineUp(h: Heap, entries: seq<Pair>, sorted: seq<Pair>, ms: seq<Member>)
    requires DistinctKeys(entries) && multiset(sorted) == multiset(entries) && SortedByText(sorted)
    requires |sorted| == |entries| == |ms| && StrictlySorted(ms)
    requires forall j | 0 <= j < |ms| :: HasMember(h, entries, ms[j])
    ensures forall j | 0 <= j < |ms| :: sorted[j].key == StrKey(ms[j].name) && Unfolds(h, sorted[j].value, ms[j].value)
  {
    hide Unfolds;
    EveryKeyIsAName(h, entries, ms);
    forall i | 0 <= i < |sorted| ensures sorted[i].key.StrKey? {
      assert sorted[i] in multiset(entries);
    }
    var ns := SortedNames(sorted);
    SortedDistinctIsStrict(entries, sorted, ns);
    NamesFillEntries(h, entries, ms);
    SortedNamesAreEntryNames(entries, sorted);
    SortedNamesAgree(ns, ms);
    forall j | 0 <= j < |ms| ensures sorted[j].key == StrKey(ms[j].name) && Unfolds(h, sorted[j].value, ms[j].value) {
      assert ns[j].name == ms[j].name;
      EntryOfName(h, entries, sorted, j, ms[j]);
    }
  }

  lemma EntryOfName(h: Heap, entries: seq<Pair>, sorted: seq<Pair>, j: nat, m: Member)
    requires DistinctKeys(entries) && multiset(sorted) == multiset(entries)
    requires j < |sorted| && sorted[j].key == StrKey(m.name) && HasMember(h, entries, m)
    ensures Unfolds(h, sorted[j].value, m.value)
  {
    hide Unfolds;
    var i: nat :| i < |entries| && entries[i].key == StrKey(m.name) && Unfolds(h, entries[i].value, m.value);
    assert sorted[j] in multiset(entries);
    var k: nat :| k < |entries| && entries[k] == sorted[j];
    assert entries[i].key == entries[k].key;
    assert i == k;
  }

  lemma EveryKeyIsAName(h: Heap, entries: seq<Pair>, ms: seq<Member>)
    requires DistinctKeys(entries) && |ms| == |entries| && StrictlySorted(ms)
    requires forall j | 0 <= j < |ms| :: HasMember(h, entries, ms[j])
    ensures forall e | e in entries :: e.key.StrKey?
  {
    NamesFillEntries(h, entries, ms);
    StrictNamesCount(ms);
    StrayKeyLowersCount(entries);
  }

  lemma {:induction false} StrayKeyLowersCount(entries: seq<Pair>)
    ensures |EntryNames(entries)| == |entries| ==> forall e | e in entries :: e.key.StrKey?
  {
    if entries != [] {
      var n := |entries| - 1;
      StrayKeyLowersCount(entries[..n]);
      EntryNamesCount(entries[..n]);
      assert entries == entries[..n] + [entries[n]];
      assert EntryNames(entries) == EntryNames(entries[..n]) + (if entries[n].key.StrKey? then {entries[n].key.text} else {});
    }
  }

  /** Normalising succeeds exactly when the object has an unfolding, and returns it. */
  lemma NormalizeIffUnfolds(h: Heap, v: Slot, t: Tree)
    requires WellFormedHeap(h) && InHeap(h, v)
    ensures Normalize(h, v, {}) == Ok(t) <==> Unfolds(h, v, t)
  {
    if Normalize(h, v, {}) == Ok(t) { NormalizeUnfolds(h, v, {}); }
    if Unfolds(h, v, t) { UnfoldingIsFound(h, v, t, {}); }
  }
}
