/** The flat inventory holds one row for each clip of each folder in reach, and nothing else. */
module MediaPoolInventory {
  import opened PythonValues
  import opened MediaPool
  import opened MediaPoolProperties
  import opened Splitting

  /** The clip-th clip of the folder the positions in path lead to. */
  datatype Place = Place(path: seq<nat>, clip: nat)

  predicate Within(tree: Tree, place: Place) {
    TreeAt(tree, place.path).Some? && place.clip < |TreeAt(tree, place.path).value.clips|
  }

  function RowAt(tree: Tree, place: Place): Row
    requires Within(tree, place)
  {
    var t := TreeAt(tree, place.path).value;
    ClipRow(t.path, t.clips[place.clip])
  }

  /** Where the rows of a tree come from, in order. */
  function Places(tree: Tree): seq<Place> {
    seq(|tree.clips|, k requires 0 <= k => Place([], k)) + PlacesBelow(tree.subfolders)
  }

  function PlacesBelow(trees: seq<Tree>): seq<Place> {
    if trees == [] then []
    else
      var n := |trees| - 1;
      PlacesBelow(trees[..n]) + Down(n, Places(trees[n]))
  }

  function Down(i: nat, places: seq<Place>): seq<Place> {
    seq(|places|, k requires 0 <= k < |places| => Place([i] + places[k].path, places[k].clip))
  }

  predicate Distinct(places: seq<Place>) {
    forall i, j | 0 <= i < j < |places| :: places[i] != places[j]
  }

  predicate WithinBelow(trees: seq<Tree>, place: Place) {
    place.path != [] && place.path[0] < |trees| && Within(trees[place.path[0]], Place(place.path[1..], place.clip))
  }

  lemma DownHolds(i: nat, places: seq<Place>)
    requires Distinct(places)
    ensures Distinct(Down(i, places))
    ensures forall q :: q in Down(i, places) <==> q.path != [] && q.path[0] == i && Place(q.path[1..], q.clip) in places
  {
    var down := Down(i, places);
    forall k | 0 <= k < |places| ensures Place(down[k].path[1..], down[k].clip) == places[k] {}
    forall q ensures q in down <==> q.path != [] && q.path[0] == i && Place(q.path[1..], q.clip) in places {
      if q.path != [] && q.path[0] == i && Place(q.path[1..], q.clip) in places {
        var k :| 0 <= k < |places| && places[k] == Place(q.path[1..], q.clip);
        assert q.path == [i] + q.path[1..];
        assert down[k] == q;
      }
    }
  }

  /** The places are just the clips in the tree, each once. */
  lemma {:induction false} PlacesHold(tree: Tree)
    ensures Distinct(Places(tree))
    ensures forall q :: q in Places(tree) <==> Within(tree, q)
    decreases tree, 0
  {
    PlacesBelowHold(tree.subfolders);
    var own := seq(|tree.clips|, k requires 0 <= k => Place([], k));
    assert Places(tree) == own + PlacesBelow(tree.subfolders);
    forall q ensures q in Places(tree) <==> Within(tree, q) {
      assert q in own <==> q.path == [] && q.clip < |tree.clips| by {
        if q.path == [] && q.clip < |tree.clips| { assert own[q.clip] == q; }
      }
      assert q in PlacesBelow(tree.subfolders) <==> WithinBelow(tree.subfolders, q);
    }
    forall q | q in PlacesBelow(tree.subfolders) ensures q.path != [] { assert WithinBelow(tree.subfolders, q); }
  }

  lemma {:induction false} PlacesBelowHold(trees: seq<Tree>)
    ensures Distinct(PlacesBelow(trees))
    ensures forall q :: q in PlacesBelow(trees) <==> WithinBelow(trees, q)
    decreases trees, 1
  {
    if trees != [] {
      var n := |trees| - 1;
      PlacesBelowHold(trees[..n]);
      PlacesHold(trees[n]);
      DownHolds(n, Places(trees[n]));
      forall q ensures q in PlacesBelow(trees) <==> WithinBelow(trees, q) {
        assert WithinBelow(trees[..n], q) ==> q.path[0] < n;
      }
      forall q | q in PlacesBelow(trees[..n]) ensures q !in Down(n, Places(trees[n])) {
        assert WithinBelow(trees[..n], q);
      }
    }
  }

  // ---- rows and places go together ----

  predicate RowsMatch(tree: Tree) {
    && |Rows(tree)| == |Places(tree)|
    && forall i | 0 <= i < |Rows(tree)| :: Within(tree, Places(tree)[i]) && Rows(tree)[i] == RowAt(tree, Places(tree)[i])
  }

  predicate RowsMatchBelow(trees: seq<Tree>) {
    && |RowsOfAll(trees)| == |PlacesBelow(trees)|
    && forall i | 0 <= i < |RowsOfAll(trees)| :: RowMatchesBelow(trees, PlacesBelow(trees)[i], RowsOfAll(trees)[i])
  }

  predicate RowMatchesBelow(trees: seq<Tree>, place: Place, row: Row) {
    WithinBelow(trees, place) && row == RowAt(trees[place.path[0]], Place(place.path[1..], place.clip))
  }

  lemma {:induction false} RowsMatchPlaces(tree: Tree)
    ensures RowsMatch(tree)
    decreases tree, 0
  {
    RowsBelowMatchPlaces(tree.subfolders);
    var own := ClipRows(tree.path, tree.clips);
    forall i | 0 <= i < |Rows(tree)| ensures
      Within(tree, Places(tree)[i]) && Rows(tree)[i] == RowAt(tree, Places(tree)[i]) {
      if i >= |own| {
        assert RowMatchesBelow(tree.subfolders, PlacesBelow(tree.subfolders)[i - |own|], RowsOfAll(tree.subfolders)[i - |own|]);
      }
    }
  }

  lemma {:induction false} RowsBelowMatchPlaces(trees: seq<Tree>)
    ensures RowsMatchBelow(trees)
    decreases trees, 1
  {
    if trees != [] {
      var n := |trees| - 1;
      RowsBelowMatchPlaces(trees[..n]);
      RowsMatchPlaces(trees[n]);
      var front := RowsOfAll(trees[..n]);
      forall i | 0 <= i < |RowsOfAll(trees)| ensures RowMatchesBelow(trees, PlacesBelow(trees)[i], RowsOfAll(trees)[i]) {
        if i < |front| {
          assert RowMatchesBelow(trees[..n], PlacesBelow(trees[..n])[i], front[i]);
        } else {
          var place := Places(trees[n])[i - |front|];
          assert PlacesBelow(trees)[i] == Place([n] + place.path, place.clip);
          assert ([n] + place.path)[1..] == place.path;
        }
      }
    }
  }

  /** Each clip of each folder in reach has one row of its own, carrying the folder names along the
      only way down to it and the clip's name and id; there are no further rows. */
  lemma EachClipHasItsRow(pool: Pool, id: nat, path: seq<string>, tree: Tree)
    requires Closed(pool) && id in pool && Walk(Inventory, pool, id, path, map[]).Done?
    requires tree == Walk(Inventory, pool, id, path, map[]).result
    ensures |Rows(tree)| == |Places(tree)| && Distinct(Places(tree))
    ensures forall i | 0 <= i < |Rows(tree)| :: IsRowOf(pool, id, path, Places(tree)[i], Rows(tree)[i])
    ensures forall place | InReach(pool, id, place) :: place in Places(tree)
  {
    RowsMatchPlaces(tree);
    PlacesHold(tree);
    WalkReturnsTheTree(Inventory, pool, id, path);
    forall i | 0 <= i < |Rows(tree)| ensures IsRowOf(pool, id, path, Places(tree)[i], Rows(tree)[i]) {
      assert MirrorsAt(Inventory, pool, id, path, tree, Places(tree)[i].path);
    }
    forall place | InReach(pool, id, place) ensures place in Places(tree) {
      assert MirrorsAt(Inventory, pool, id, path, tree, place.path);
    }
  }

  /** The pool has a folder at the place's path, and that folder has so many clips. */
  predicate InReach(pool: Pool, id: nat, place: Place)
    requires Closed(pool) && id in pool
  {
    && FolderAt(pool, id, place.path).Some?
    && var clips := ReadClips(Inventory, pool[FolderAt(pool, id, place.path).value].clips);
       clips.Some? && place.clip < |clips.value|
  }

  predicate IsRowOf(pool: Pool, id: nat, path: seq<string>, place: Place, row: Row)
    requires Closed(pool) && id in pool
  {
    && InReach(pool, id, place)
    && var clips := ReadClips(Inventory, pool[FolderAt(pool, id, place.path).value].clips);
       && row.path == Join(path + NamesAlong(Inventory, pool, id, place.path), '/')
       && clips.value[place.clip] == Clip(Some(row.name), Some(row.uniqueId))
  }
}
