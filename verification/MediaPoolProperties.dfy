/** The media-pool walks succeed exactly when the folders in reach form a tree, and then report each
    folder and each clip once, under the names along its only path. */
module MediaPoolProperties {
  import opened PythonValues
  import opened Splitting
  import opened MediaPool

  function Subfolders(pool: Pool, id: nat): seq<Slot>
    requires id in pool
  {
    var listed := Listed(pool[id].subfolders);
    if listed.None? then [] else listed.value
  }

  predicate AllInPool(pool: Pool, slots: seq<Slot>) {
    forall i | 0 <= i < |slots| :: InPool(pool, slots[i])
  }

  lemma SubfoldersAreInPool(pool: Pool, id: nat)
    requires Closed(pool) && id in pool
    ensures AllInPool(pool, Subfolders(pool, id))
  {
  }

  /** The folder met by going down from folder id along the subfolder positions p. */
  function FolderAt(pool: Pool, id: nat, p: seq<nat>): (f: Option<nat>)
    requires Closed(pool) && id in pool
    ensures f.Some? ==> f.value in pool
    decreases |p|, 1
  {
    SubfoldersAreInPool(pool, id);
    if p == [] then Some(id) else FolderBelow(pool, Subfolders(pool, id), p)
  }

  function FolderBelow(pool: Pool, slots: seq<Slot>, p: seq<nat>): (f: Option<nat>)
    requires Closed(pool) && AllInPool(pool, slots)
    ensures f.Some? ==> f.value in pool
    decreases |p|, 0
  {
    if p == [] || p[0] >= |slots| || slots[p[0]].UnusableSlot? then None
    else
      assert InPool(pool, slots[p[0]]);
      FolderAt(pool, slots[p[0]].id, p[1..])
  }

  /** No folder is met along two ways down. */
  ghost predicate MetOnce(pool: Pool, id: nat)
    requires Closed(pool) && id in pool
  {
    forall p, q | FolderAt(pool, id, p).Some? && FolderAt(pool, id, p) == FolderAt(pool, id, q) :: p == q
  }

  ghost predicate MetOnceBelow(pool: Pool, slots: seq<Slot>)
    requires Closed(pool) && AllInPool(pool, slots)
  {
    forall p, q | FolderBelow(pool, slots, p).Some? && FolderBelow(pool, slots, p) == FolderBelow(pool, slots, q) :: p == q
  }

  /** All the accessors of the folder answer with what the walk needs. */
  predicate FolderUsable(policy: Policy, pool: Pool, id: nat)
    requires Closed(pool) && id in pool
  {
    && ReadClips(policy, pool[id].clips).Some? && Listed(pool[id].subfolders).Some?
    && AllInPool(pool, Subfolders(pool, id))
    && forall i | 0 <= i < |Subfolders(pool, id)| :: SlotUsable(policy, pool, Subfolders(pool, id)[i])
  }

  ghost predicate AllUsable(policy: Policy, pool: Pool, id: nat)
    requires Closed(pool) && id in pool
  {
    forall p | FolderAt(pool, id, p).Some? :: FolderUsable(policy, pool, FolderAt(pool, id, p).value)
  }

  ghost predicate AllUsableBelow(policy: Policy, pool: Pool, slots: seq<Slot>)
    requires Closed(pool) && AllInPool(pool, slots)
  {
    && (forall i | 0 <= i < |slots| :: SlotUsable(policy, pool, slots[i]))
    && forall p | FolderBelow(pool, slots, p).Some? :: FolderUsable(policy, pool, FolderBelow(pool, slots, p).value)
  }

  /** Going from before to after marks the folders met from id on, all of them new. */
  ghost predicate Marks(pool: Pool, id: nat, before: set<nat>, after: set<nat>)
    requires Closed(pool) && id in pool
  {
    && (forall p | FolderAt(pool, id, p).Some? :: FolderAt(pool, id, p).value in after - before)
    && (forall f | f in after - before :: exists p :: FolderAt(pool, id, p) == Some(f))
  }

  ghost predicate MarksBelow(pool: Pool, slots: seq<Slot>, before: set<nat>, after: set<nat>)
    requires Closed(pool) && AllInPool(pool, slots)
  {
    && (forall p | FolderBelow(pool, slots, p).Some? :: FolderBelow(pool, slots, p).value in after - before)
    && (forall f | f in after - before :: exists p :: FolderBelow(pool, slots, p) == Some(f))
  }

  lemma BelowOneMore(pool: Pool, slots: seq<Slot>, p: seq<nat>)
    requires Closed(pool) && AllInPool(pool, slots) && slots != []
    ensures AllInPool(pool, slots[..|slots| - 1])
    ensures FolderBelow(pool, slots, p) ==
              if p == [] then None
              else if p[0] < |slots| - 1 then FolderBelow(pool, slots[..|slots| - 1], p)
              else if p[0] == |slots| - 1 && slots[p[0]].Folder? then FolderAt(pool, slots[p[0]].id, p[1..])
              else None
  {
  }

  // ---- a successful walk ----

  lemma {:induction false} WalkMarks(policy: Policy, pool: Pool, id: nat, path: seq<string>, visited: Visited)
    requires Closed(pool) && id in pool && Walk(policy, pool, id, path, visited).Done?
    ensures Marks(pool, id, visited.Keys, Walk(policy, pool, id, path, visited).visited.Keys)
    ensures MetOnce(pool, id) && AllUsable(policy, pool, id)
    decreases pool.Keys - visited.Keys, 1, 0
  {
    SubfoldersAreInPool(pool, id);
    var here := path + [NameIn(policy, pool[id])];
    var slots := Subfolders(pool, id);
    var inside := visited[id := here];
    assert id in pool.Keys - visited.Keys && id !in pool.Keys - inside.Keys;
    assert inside.Keys == visited.Keys + {id};
    WalkAllMarks(policy, pool, slots, here, inside);
    FromBelow(policy, pool, id, visited.Keys, WalkAll(policy, pool, slots, here, inside).visited.Keys);
  }

  lemma FromBelow(policy: Policy, pool: Pool, id: nat, before: set<nat>, after: set<nat>)
    requires Closed(pool) && id in pool && AllInPool(pool, Subfolders(pool, id))
    requires id !in before && before + {id} <= after
    requires MarksBelow(pool, Subfolders(pool, id), before + {id}, after)
    requires MetOnceBelow(pool, Subfolders(pool, id)) && AllUsableBelow(policy, pool, Subfolders(pool, id))
    requires ReadClips(policy, pool[id].clips).Some? && Listed(pool[id].subfolders).Some?
    ensures Marks(pool, id, before, after) && MetOnce(pool, id) && AllUsable(policy, pool, id)
  {
    var slots := Subfolders(pool, id);
    forall p ensures FolderAt(pool, id, p) == if p == [] then Some(id) else FolderBelow(pool, slots, p) {}
    assert FolderBelow(pool, slots, []) == None;
    assert FolderAt(pool, id, []) == Some(id);
    forall f | f in after - before ensures exists p :: FolderAt(pool, id, p) == Some(f) {
      if f != id {
        var p :| FolderBelow(pool, slots, p) == Some(f);
        assert FolderAt(pool, id, p) == Some(f);
      }
    }
  }

  lemma {:induction false} WalkAllMarks(policy: Policy, pool: Pool, slots: seq<Slot>, path: seq<string>, visited: Visited)
    requires Closed(pool) && AllInPool(pool, slots) && WalkAll(policy, pool, slots, path, visited).Done?
    ensures MarksBelow(pool, slots, visited.Keys, WalkAll(policy, pool, slots, path, visited).visited.Keys)
    ensures MetOnceBelow(pool, slots) && AllUsableBelow(policy, pool, slots)
    decreases pool.Keys - visited.Keys, 3, |slots|
  {
    hide Walk;
    if slots == [] {
      assert forall p :: FolderBelow(pool, slots, p) == None;
    } else {
      var front, last := slots[..|slots| - 1], slots[|slots| - 1];
      assert AllInPool(pool, front);
      var middle := WalkAll(policy, pool, front, path, visited).visited;
      WalkAllMarks(policy, pool, front, path, visited);
      assert pool.Keys - middle.Keys <= pool.Keys - visited.Keys;
      assert InPool(pool, last);
      WalkMarks(policy, pool, last.id, path, middle);
      var after := Walk(policy, pool, last.id, path, middle).visited;
      JoinMarks(pool, slots, visited.Keys, middle.Keys, after.Keys);
      JoinUsable(policy, pool, slots);
    }
  }

  lemma JoinMarks(pool: Pool, slots: seq<Slot>, before: set<nat>, middle: set<nat>, after: set<nat>)
    requires Closed(pool) && AllInPool(pool, slots) && slots != [] && AllInPool(pool, slots[..|slots| - 1])
    requires before <= middle <= after
    requires MarksBelow(pool, slots[..|slots| - 1], before, middle) && MetOnceBelow(pool, slots[..|slots| - 1])
    requires slots[|slots| - 1].Folder? && slots[|slots| - 1].id in pool
    requires Marks(pool, slots[|slots| - 1].id, middle, after) && MetOnce(pool, slots[|slots| - 1].id)
    ensures MarksBelow(pool, slots, before, after) && MetOnceBelow(pool, slots)
  {
    hide FolderAt, FolderBelow;
    var front, last := slots[..|slots| - 1], slots[|slots| - 1];
    forall p | FolderBelow(pool, slots, p).Some? ensures FolderBelow(pool, slots, p).value in after - before {
      BelowOneMore(pool, slots, p);
    }
    forall p, q | FolderBelow(pool, slots, p).Some? && FolderBelow(pool, slots, p) == FolderBelow(pool, slots, q)
      ensures p == q
    {
      BelowOneMore(pool, slots, p);
      BelowOneMore(pool, slots, q);
      if p[0] == q[0] == |front| {
        assert p == [p[0]] + p[1..] && q == [q[0]] + q[1..];
      }
    }
    forall f | f in after - before ensures exists p :: FolderBelow(pool, slots, p) == Some(f) {
      if f in middle {
        var p :| FolderBelow(pool, front, p) == Some(f);
        BelowFront(pool, slots, p);
      } else {
        var p :| FolderAt(pool, last.id, p) == Some(f);
        BelowOneMore(pool, slots, [|front|] + p);
        assert ([|front|] + p)[1..] == p;
        assert FolderBelow(pool, slots, [|front|] + p) == Some(f);
      }
    }
  }

  lemma BelowFront(pool: Pool, slots: seq<Slot>, p: seq<nat>)
    requires Closed(pool) && AllInPool(pool, slots) && slots != [] && AllInPool(pool, slots[..|slots| - 1])
    requires FolderBelow(pool, slots[..|slots| - 1], p).Some?
    ensures FolderBelow(pool, slots, p) == FolderBelow(pool, slots[..|slots| - 1], p)
  {
  }

  lemma JoinUsable(policy: Policy, pool: Pool, slots: seq<Slot>)
    requires Closed(pool) && AllInPool(pool, slots) && slots != [] && AllInPool(pool, slots[..|slots| - 1])
    requires SlotUsable(policy, pool, slots[|slots| - 1]) && slots[|slots| - 1].id in pool
    requires AllUsableBelow(policy, pool, slots[..|slots| - 1]) && AllUsable(policy, pool, slots[|slots| - 1].id)
    ensures AllUsableBelow(policy, pool, slots)
  {
    hide FolderAt, FolderBelow, FolderUsable;
    var front := slots[..|slots| - 1];
    forall i | 0 <= i < |slots| ensures SlotUsable(policy, pool, slots[i]) {
      if i < |front| { assert front[i] == slots[i]; }
    }
    forall p | FolderBelow(pool, slots, p).Some? ensures FolderUsable(policy, pool, FolderBelow(pool, slots, p).value) {
      BelowOneMore(pool, slots, p);
    }
  }

  // ---- a walk that must succeed ----

  ghost predicate NoneIn(pool: Pool, id: nat, marked: set<nat>)
    requires Closed(pool) && id in pool
  {
    forall p | FolderAt(pool, id, p).Some? :: FolderAt(pool, id, p).value !in marked
  }

  ghost predicate NoneBelowIn(pool: Pool, slots: seq<Slot>, marked: set<nat>)
    requires Closed(pool) && AllInPool(pool, slots)
  {
    forall p | FolderBelow(pool, slots, p).Some? :: FolderBelow(pool, slots, p).value !in marked
  }

  lemma {:induction false} WalkSucceeds(policy: Policy, pool: Pool, id: nat, path: seq<string>, visited: Visited)
    requires Closed(pool) && id in pool
    requires AllUsable(policy, pool, id) && MetOnce(pool, id) && NoneIn(pool, id, visited.Keys)
    ensures Walk(policy, pool, id, path, visited).Done?
    decreases pool.Keys - visited.Keys, 1, 0
  {
    assert FolderAt(pool, id, []) == Some(id);
    SubfoldersAreInPool(pool, id);
    var here := path + [NameIn(policy, pool[id])];
    var slots := Subfolders(pool, id);
    var inside := visited[id := here];
    assert id in pool.Keys - visited.Keys && id !in pool.Keys - inside.Keys;
    ToBelow(policy, pool, id, visited.Keys);
    assert inside.Keys == visited.Keys + {id};
    WalkAllSucceeds(policy, pool, slots, here, inside);
  }

  lemma ToBelow(policy: Policy, pool: Pool, id: nat, marked: set<nat>)
    requires Closed(pool) && id in pool && AllInPool(pool, Subfolders(pool, id))
    requires AllUsable(policy, pool, id) && MetOnce(pool, id) && NoneIn(pool, id, marked)
    ensures AllUsableBelow(policy, pool, Subfolders(pool, id)) && MetOnceBelow(pool, Subfolders(pool, id))
    ensures NoneBelowIn(pool, Subfolders(pool, id), marked + {id})
  {
    var slots := Subfolders(pool, id);
    forall p ensures FolderAt(pool, id, p) == if p == [] then Some(id) else FolderBelow(pool, slots, p) {}
    assert FolderBelow(pool, slots, []) == None;
    assert FolderAt(pool, id, []) == Some(id) && FolderUsable(policy, pool, id);
    forall p | FolderBelow(pool, slots, p).Some?
      ensures FolderUsable(policy, pool, FolderBelow(pool, slots, p).value) && FolderBelow(pool, slots, p).value !in marked + {id}
    {
      assert FolderAt(pool, id, p) == FolderBelow(pool, slots, p);
    }
  }

  lemma {:induction false} WalkAllSucceeds(policy: Policy, pool: Pool, slots: seq<Slot>, path: seq<string>, visited: Visited)
    requires Closed(pool) && AllInPool(pool, slots)
    requires AllUsableBelow(policy, pool, slots) && MetOnceBelow(pool, slots) && NoneBelowIn(pool, slots, visited.Keys)
    ensures WalkAll(policy, pool, slots, path, visited).Done?
    decreases pool.Keys - visited.Keys, 3, |slots|
  {
    hide Walk;
    if slots != [] {
      var front, last := slots[..|slots| - 1], slots[|slots| - 1];
      assert AllInPool(pool, front) && InPool(pool, last) && SlotUsable(policy, pool, last);
      SplitBelow(policy, pool, slots, visited.Keys);
      WalkAllSucceeds(policy, pool, front, path, visited);
      WalkAllMarks(policy, pool, front, path, visited);
      var middle := WalkAll(policy, pool, front, path, visited).visited;
      LastIsUnmarked(pool, slots, visited.Keys, middle.Keys);
      assert pool.Keys - middle.Keys <= pool.Keys - visited.Keys;
      WalkSucceeds(policy, pool, last.id, path, middle);
    }
  }

  lemma SplitBelow(policy: Policy, pool: Pool, slots: seq<Slot>, marked: set<nat>)
    requires Closed(pool) && AllInPool(pool, slots) && slots != [] && AllInPool(pool, slots[..|slots| - 1])
    requires AllUsableBelow(policy, pool, slots) && MetOnceBelow(pool, slots) && NoneBelowIn(pool, slots, marked)
    requires slots[|slots| - 1].Folder? && slots[|slots| - 1].id in pool
    ensures var front := slots[..|slots| - 1];
            AllUsableBelow(policy, pool, front) && MetOnceBelow(pool, front) && NoneBelowIn(pool, front, marked)
    ensures AllUsable(policy, pool, slots[|slots| - 1].id) && MetOnce(pool, slots[|slots| - 1].id)
  {
    hide FolderAt, FolderBelow, FolderUsable;
    var front, last := slots[..|slots| - 1], slots[|slots| - 1];
    forall p | FolderBelow(pool, front, p).Some? ensures FolderBelow(pool, slots, p) == FolderBelow(pool, front, p) {
      BelowFront(pool, slots, p);
    }
    forall p ensures FolderAt(pool, last.id, p) == FolderBelow(pool, slots, [|front|] + p) {
      BelowLast(pool, slots, p);
    }
    forall p, q | FolderAt(pool, last.id, p).Some? && FolderAt(pool, last.id, p) == FolderAt(pool, last.id, q) ensures p == q {
      assert [|front|] + p == [|front|] + q;
      assert p == ([|front|] + p)[1..] && q == ([|front|] + q)[1..];
    }
  }

  lemma BelowLast(pool: Pool, slots: seq<Slot>, p: seq<nat>)
    requires Closed(pool) && AllInPool(pool, slots) && slots != []
    requires slots[|slots| - 1].Folder? && slots[|slots| - 1].id in pool
    ensures FolderBelow(pool, slots, [|slots| - 1] + p) == FolderAt(pool, slots[|slots| - 1].id, p)
  {
    assert ([|slots| - 1] + p)[1..] == p;
  }

  lemma LastIsUnmarked(pool: Pool, slots: seq<Slot>, before: set<nat>, middle: set<nat>)
    requires Closed(pool) && AllInPool(pool, slots) && slots != [] && AllInPool(pool, slots[..|slots| - 1])
    requires MetOnceBelow(pool, slots) && NoneBelowIn(pool, slots, before)
    requires slots[|slots| - 1].Folder? && slots[|slots| - 1].id in pool
    requires MarksBelow(pool, slots[..|slots| - 1], before, middle)
    ensures NoneIn(pool, slots[|slots| - 1].id, middle)
  {
    hide FolderAt, FolderBelow;
    var front, last := slots[..|slots| - 1], slots[|slots| - 1];
    forall p | FolderAt(pool, last.id, p).Some? ensures FolderAt(pool, last.id, p).value !in middle {
      var f := FolderAt(pool, last.id, p).value;
      BelowLast(pool, slots, p);
      assert ([|front|] + p)[0] == |front|;
      if f in middle {
        var q :| FolderBelow(pool, front, q) == Some(f);
        BelowFront(pool, slots, q);
        FrontPathStaysInFront(pool, front, q);
        assert false;
      }
    }
  }

  lemma FrontPathStaysInFront(pool: Pool, slots: seq<Slot>, q: seq<nat>)
    requires Closed(pool) && AllInPool(pool, slots) && FolderBelow(pool, slots, q).Some?
    ensures q != [] && q[0] < |slots|
  {
  }

  /** A walk succeeds exactly when every folder in reach answers as it should and none is met along
      two ways down; a folder that contains itself is met along infinitely many. */
  lemma WalkSucceedsIff(policy: Policy, pool: Pool, id: nat, path: seq<string>)
    requires Closed(pool) && id in pool
    ensures Walk(policy, pool, id, path, map[]).Done? <==> AllUsable(policy, pool, id) && MetOnce(pool, id)
  {
    if Walk(policy, pool, id, path, map[]).Done? { WalkMarks(policy, pool, id, path, map[]); }
    if AllUsable(policy, pool, id) && MetOnce(pool, id) { WalkSucceeds(policy, pool, id, path, map[]); }
  }

  // ---- the tree that is returned ----

  function TreeAt(tree: Tree, p: seq<nat>): Option<Tree>
    decreases |p|
  {
    if p == [] then Some(tree)
    else if p[0] >= |tree.subfolders| then None
    else TreeAt(tree.subfolders[p[0]], p[1..])
  }

  /** The names of the folders met from folder id down along p, both ends included. */
  function NamesAlong(policy: Policy, pool: Pool, id: nat, p: seq<nat>): seq<string>
    requires Closed(pool) && id in pool && FolderAt(pool, id, p).Some?
    decreases |p|
  {
    if p == [] then [NameIn(policy, pool[id])]
    else
      SubfoldersAreInPool(pool, id);
      assert FolderBelow(pool, Subfolders(pool, id), p).Some?;
      [NameIn(policy, pool[id])] + NamesAlong(policy, pool, Subfolders(pool, id)[p[0]].id, p[1..])
  }

  /** tree has a node just where the pool has a folder, with that folder's name, path and clips. */
  ghost predicate Mirrors(policy: Policy, pool: Pool, id: nat, path: seq<string>, tree: Tree)
    requires Closed(pool) && id in pool
  {
    forall p :: MirrorsAt(policy, pool, id, path, tree, p)
  }

  predicate MirrorsAt(policy: Policy, pool: Pool, id: nat, path: seq<string>, tree: Tree, p: seq<nat>)
    requires Closed(pool) && id in pool
  {
    match FolderAt(pool, id, p)
    case None => TreeAt(tree, p).None?
    case Some(f) =>
      && TreeAt(tree, p).Some?
      && TreeAt(tree, p).value.name == NameIn(policy, pool[f])
      && TreeAt(tree, p).value.path == path + NamesAlong(policy, pool, id, p)
      && Some(TreeAt(tree, p).value.clips) == ReadClips(policy, pool[f].clips)
      && |TreeAt(tree, p).value.subfolders| == |Subfolders(pool, f)|
  }

  lemma {:induction false} WalkAllWalksEach(policy: Policy, pool: Pool, slots: seq<Slot>, path: seq<string>, visited: Visited, i: nat)
    returns (seen: Visited)
    requires Closed(pool) && AllInPool(pool, slots) && WalkAll(policy, pool, slots, path, visited).Done?
    requires i < |slots|
    ensures |WalkAll(policy, pool, slots, path, visited).result| == |slots|
    ensures slots[i].Folder? && InPool(pool, slots[i])
    ensures Walk(policy, pool, slots[i].id, path, seen).Done?
    ensures Walk(policy, pool, slots[i].id, path, seen).result == WalkAll(policy, pool, slots, path, visited).result[i]
    decreases |slots|
  {
    hide Walk;
    var front := slots[..|slots| - 1];
    var middle := WalkAll(policy, pool, front, path, visited);
    if front != [] { var _ := WalkAllWalksEach(policy, pool, front, path, visited, 0); }
    if i == |front| {
      seen := middle.visited;
    } else {
      seen := WalkAllWalksEach(policy, pool, front, path, visited, i);
    }
  }

  lemma {:induction false} WalkMirrorsAt(policy: Policy, pool: Pool, id: nat, path: seq<string>, visited: Visited, p: seq<nat>)
    requires Closed(pool) && id in pool && Walk(policy, pool, id, path, visited).Done?
    ensures MirrorsAt(policy, pool, id, path, Walk(policy, pool, id, path, visited).result, p)
    decreases |p|
  {
    SubfoldersAreInPool(pool, id);
    var slots := Subfolders(pool, id);
    var here := path + [NameIn(policy, pool[id])];
    var inside := visited[id := here];
    if slots != [] { var _ := WalkAllWalksEach(policy, pool, slots, here, inside, 0); }
    if p != [] && p[0] < |slots| {
      var seen := WalkAllWalksEach(policy, pool, slots, here, inside, p[0]);
      WalkMirrorsAt(policy, pool, slots[p[0]].id, here, seen, p[1..]);
      var tree := Walk(policy, pool, id, path, visited).result;
      assert FolderAt(pool, id, p) == FolderBelow(pool, slots, p) == FolderAt(pool, slots[p[0]].id, p[1..]);
      assert TreeAt(tree, p) == TreeAt(tree.subfolders[p[0]], p[1..]);
      if FolderAt(pool, id, p).Some? {
        NamesGoOn(policy, pool, id, path, p, slots[p[0]].id);
      }
    } else if p != [] {
      assert FolderAt(pool, id, p) == FolderBelow(pool, slots, p);
    }
  }

  lemma NamesGoOn(policy: Policy, pool: Pool, id: nat, path: seq<string>, p: seq<nat>, sub: nat)
    requires Closed(pool) && id in pool && p != [] && FolderAt(pool, id, p).Some?
    requires p[0] < |Subfolders(pool, id)| && Subfolders(pool, id)[p[0]] == Folder(sub) && sub in pool
    requires FolderAt(pool, sub, p[1..]).Some?
    ensures path + NamesAlong(policy, pool, id, p)
         == path + [NameIn(policy, pool[id])] + NamesAlong(policy, pool, sub, p[1..])
  {
    assert path + ([NameIn(policy, pool[id])] + NamesAlong(policy, pool, sub, p[1..]))
        == path + [NameIn(policy, pool[id])] + NamesAlong(policy, pool, sub, p[1..]);
  }

  /** A successful walk returns the pool's tree: one node for each folder in reach, under the names
      along the only way down to it. */
  lemma WalkReturnsTheTree(policy: Policy, pool: Pool, id: nat, path: seq<string>)
    requires Closed(pool) && id in pool && Walk(policy, pool, id, path, map[]).Done?
    ensures MetOnce(pool, id) && Mirrors(policy, pool, id, path, Walk(policy, pool, id, path, map[]).result)
  {
    WalkMarks(policy, pool, id, path, map[]);
    forall p ensures MirrorsAt(policy, pool, id, path, Walk(policy, pool, id, path, map[]).result, p) {
      WalkMirrorsAt(policy, pool, id, path, map[], p);
    }
  }
}
