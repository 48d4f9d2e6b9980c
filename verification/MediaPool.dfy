/** The two walks over Resolve's media-pool folders: the snapshot's, which returns a tree, and the
    Test D gate's, which returns a flat inventory. Both refuse to meet a folder handle twice. */
module MediaPool {
  import opened PythonValues
  import opened Splitting
  import T = Text

  /** What a list accessor of a folder answers. */
  datatype Listing<+T> = Raised | NotACollection | Nothing | Items(items: seq<T>)

  /** A clip as its accessors answer, or a handle that cannot be used. */
  datatype Clip = UnusableClip | Clip(name: Option<string>, uniqueId: Option<string>)

  datatype Slot = UnusableSlot | Folder(id: nat)

  /** name is what GetName answers when that is a string. */
  datatype FolderInfo = FolderInfo(name: Option<string>, clips: Listing<Clip>, subfolders: Listing<Slot>)

  type Pool = map<nat, FolderInfo>

  datatype Policy = Snapshot | Inventory

  datatype Tree = Tree(name: string, path: seq<string>, clips: seq<Clip>, subfolders: seq<Tree>)

  datatype Failure =
    | RepeatedFolder(first: seq<string>, again: seq<string>)
    | UnusableClips(at: seq<string>)
    | UnusableSubfolders(at: seq<string>)
    | UnusableFolder(under: seq<string>)

  type Visited = map<nat, seq<string>>

  datatype Outcome<+R> = Done(result: R, visited: Visited) | Failed(failure: Failure)

  const UNAVAILABLE_FOLDER_NAME := "<folder-name-unavailable>"

  function Listed<T>(listing: Listing<T>): Option<seq<T>> {
    match listing
    case Nothing => Some([])
    case Items(items) => Some(items)
    case _ => None
  }

  /** None is what Resolve answers for no name at all; the gate wants more than white space. */
  predicate NonBlank(s: Option<string>) {
    s.Some? && !T.Blank(s.value)
  }

  function NameIn(policy: Policy, folder: FolderInfo): string {
    if folder.name.Some? && (policy == Inventory || folder.name.value != "") then folder.name.value
    else UNAVAILABLE_FOLDER_NAME
  }

  predicate ClipUsable(policy: Policy, clip: Clip) {
    match policy
    case Snapshot => clip.Clip?
    case Inventory => clip.Clip? && NonBlank(clip.name) && NonBlank(clip.uniqueId)
  }

  function ReadClips(policy: Policy, clips: Listing<Clip>): Option<seq<Clip>> {
    match Listed(clips)
    case None => None
    case Some(items) => if forall i | 0 <= i < |items| :: ClipUsable(policy, items[i]) then Some(items) else None
  }

  /** A handle the walk goes on to; the gate also checks the folder's name before it does. */
  predicate SlotUsable(policy: Policy, pool: Pool, slot: Slot)
    requires InPool(pool, slot)
  {
    slot.Folder? && (policy == Inventory ==> NonBlank(pool[slot.id].name))
  }

  predicate InPool(pool: Pool, slot: Slot) {
    slot.Folder? ==> slot.id in pool
  }

  predicate Closed(pool: Pool) {
    forall id | id in pool && pool[id].subfolders.Items? ::
      forall i | 0 <= i < |pool[id].subfolders.items| :: InPool(pool, pool[id].subfolders.items[i])
  }

  // ---- the walk ----

  function Walk(policy: Policy, pool: Pool, id: nat, path: seq<string>, visited: Visited): (r: Outcome<Tree>)
    requires Closed(pool) && id in pool
    ensures r.Done? ==> id !in visited && visited.Keys + {id} <= r.visited.Keys
    decreases pool.Keys - visited.Keys, 1, 0
  {
    var here := path + [NameIn(policy, pool[id])];
    if id in visited then Failed(RepeatedFolder(visited[id], here))
    else
      match ReadClips(policy, pool[id].clips)
      case None => Failed(UnusableClips(here))
      case Some(clips) =>
        match Listed(pool[id].subfolders)
        case None => Failed(UnusableSubfolders(here))
        case Some(slots) =>
          assert id in pool.Keys - visited.Keys && id !in pool.Keys - visited[id := here].Keys;
          match WalkAll(policy, pool, slots, here, visited[id := here])
          case Failed(f) => Failed(f)
          case Done(trees, seen) => Done(Tree(NameIn(policy, pool[id]), here, clips, trees), seen)
  }

  function WalkAll(policy: Policy, pool: Pool, slots: seq<Slot>, path: seq<string>, visited: Visited): (r: Outcome<seq<Tree>>)
    requires Closed(pool) && forall i | 0 <= i < |slots| :: InPool(pool, slots[i])
    ensures r.Done? ==> visited.Keys <= r.visited.Keys
    decreases pool.Keys - visited.Keys, 3, |slots|
  {
    if slots == [] then Done([], visited)
    else
      match WalkAll(policy, pool, slots[..|slots| - 1], path, visited)
      case Failed(f) => Failed(f)
      case Done(front, middle) =>
        assert pool.Keys - middle.Keys <= pool.Keys - visited.Keys;
        match WalkSlot(policy, pool, slots[|slots| - 1], path, middle)
        case Failed(f) => Failed(f)
        case Done(last, seen) => Done(front + [last], seen)
  }

  function WalkSlot(policy: Policy, pool: Pool, slot: Slot, path: seq<string>, visited: Visited): (r: Outcome<Tree>)
    requires Closed(pool) && InPool(pool, slot)
    ensures r.Done? ==> slot.Folder? && slot.id !in visited && visited.Keys + {slot.id} <= r.visited.Keys
    decreases pool.Keys - visited.Keys, 2, 0
  {
    if !SlotUsable(policy, pool, slot) then Failed(UnusableFolder(path))
    else Walk(policy, pool, slot.id, path, visited)
  }

  // ---- the walks as they run ----

  lemma {:induction false} FailureIsFinal(
    policy: Policy, pool: Pool, slots: seq<Slot>, path: seq<string>, visited: Visited, n: nat)
    requires Closed(pool) && forall i | 0 <= i < |slots| :: InPool(pool, slots[i])
    requires n <= |slots| && WalkAll(policy, pool, slots[..n], path, visited).Failed?
    ensures WalkAll(policy, pool, slots, path, visited) == WalkAll(policy, pool, slots[..n], path, visited)
    decreases |slots|
  {
    hide WalkSlot;
    if n == |slots| {
      assert slots[..n] == slots;
    } else {
      assert slots[..|slots| - 1][..n] == slots[..n];
      FailureIsFinal(policy, pool, slots[..|slots| - 1], path, visited, n);
    }
  }

  class Walker {
    var visited: Visited

    constructor ()
      ensures visited == map[]
    {
      visited := map[];
    }

    /** `walk_media_pool_folder`. */
    method WalkMediaPoolFolder(pool: Pool, id: nat, path: seq<string>) returns (r: Result)
      requires Closed(pool) && id in pool
      modifies this
      ensures Agrees(r, Walk(Snapshot, pool, id, path, old(visited)))
      decreases pool.Keys - visited.Keys, 0
    {
      var name := NameIn(Snapshot, pool[id]);
      var currentPath := path + [name];
      if id in visited {
        return Fail(RepeatedFolder(visited[id], currentPath));
      }
      visited := visited[id := currentPath];
      var clips := ReadClips(Snapshot, pool[id].clips);
      if clips.None? {
        return Fail(UnusableClips(currentPath));
      }
      var slots := Listed(pool[id].subfolders);
      if slots.None? {
        return Fail(UnusableSubfolders(currentPath));
      }
      var trees := [];
      ghost var entered := visited;
      for i := 0 to |slots.value|
        invariant WalkAll(Snapshot, pool, slots.value[..i], currentPath, entered) == Done(trees, visited)
      {
        assert slots.value[..i + 1][..i] == slots.value[..i];
        if slots.value[i].UnusableSlot? {
          FailureIsFinal(Snapshot, pool, slots.value, currentPath, entered, i + 1);
          return Fail(UnusableFolder(currentPath));
        }
        assert id in entered && id in visited && id in pool.Keys - old(visited).Keys;
        assert pool.Keys - visited.Keys < pool.Keys - old(visited).Keys;
        var t := WalkMediaPoolFolder(pool, slots.value[i].id, currentPath);
        if t.Fail? {
          FailureIsFinal(Snapshot, pool, slots.value, currentPath, entered, i + 1);
          return t;
        }
        trees := trees + [t.tree];
      }
      assert slots.value[..|slots.value|] == slots.value;
      return Success(Tree(name, currentPath, clips.value, trees));
    }

    /** A run agrees with the function when it succeeds with the same tree and has marked the same
        folders, or fails with the same failure. */
    ghost predicate Agrees(r: Result, o: Outcome<Tree>)
      reads this
    {
      match r
      case Success(tree) => o == Done(tree, visited)
      case Fail(f) => o == Failed(f)
    }
  }

  datatype Result = Success(tree: Tree) | Fail(failure: Failure)

  // ---- the flat inventory ----

  datatype Row = Row(path: string, name: string, uniqueId: string)

  function ClipRow(path: seq<string>, clip: Clip): Row {
    if clip.Clip? && clip.name.Some? && clip.uniqueId.Some?
    then Row(Join(path, '/'), clip.name.value, clip.uniqueId.value)
    else Row(Join(path, '/'), "", "")
  }

  function ClipRows(path: seq<string>, clips: seq<Clip>): seq<Row> {
    seq(|clips|, k requires 0 <= k < |clips| => ClipRow(path, clips[k]))
  }

  /** The rows of a walked tree: a folder's own clips, then its subfolders in turn. */
  function Rows(tree: Tree): seq<Row> {
    ClipRows(tree.path, tree.clips) + RowsOfAll(tree.subfolders)
  }

  function RowsOfAll(trees: seq<Tree>): seq<Row> {
    if trees == [] then [] else RowsOfAll(trees[..|trees| - 1]) + Rows(trees[|trees| - 1])
  }

  lemma NextRows(trees: seq<Tree>, tree: Tree)
    ensures RowsOfAll(trees + [tree]) == RowsOfAll(trees) + Rows(tree)
  {
    assert (trees + [tree])[..|trees|] == trees;
  }

  lemma NoSlots(pool: Pool, slots: seq<Slot>, path: seq<string>, visited: Visited)
    requires Closed(pool)
    ensures WalkAll(Inventory, pool, slots[..0], path, visited) == Done([], visited)
    ensures RowsOfAll([]) == []
  {
  }

  lemma NextSlot(policy: Policy, pool: Pool, slots: seq<Slot>, n: nat, path: seq<string>, visited: Visited)
    requires Closed(pool) && forall i | 0 <= i < |slots| :: InPool(pool, slots[i])
    requires n < |slots| && WalkAll(policy, pool, slots[..n], path, visited).Done?
    ensures var middle := WalkAll(policy, pool, slots[..n], path, visited);
            WalkAll(policy, pool, slots[..n + 1], path, visited) ==
              match WalkSlot(policy, pool, slots[n], path, middle.visited)
              case Failed(f) => Failed(f)
              case Done(tree, seen) => Done(middle.result + [tree], seen)
  {
    hide WalkSlot;
    assert slots[..n + 1][..n] == slots[..n];
  }

  class Collector {
    var visited: Visited
    var out: seq<Row>

    constructor ()
      ensures visited == map[] && out == []
    {
      visited := map[];
      out := [];
    }

    /** Test D's `_walk_media_pool_folder`; path ends in this folder's name, which the caller has
        asked for and checked. */
    method WalkMediaPoolFolder(pool: Pool, id: nat, path: seq<string>, ghost under: seq<string>) returns (failure: Option<Failure>)
      requires Closed(pool) && id in pool && path == under + [NameIn(Inventory, pool[id])]
      modifies this
      ensures var o := Walk(Inventory, pool, id, under, old(visited));
              match failure
              case Some(f) => o == Failed(f)
              case None => o.Done? && visited == o.visited && out == old(out) + Rows(o.result)
      decreases pool.Keys - visited.Keys, 0
    {
      if id in visited {
        return Some(RepeatedFolder(visited[id], path));
      }
      visited := visited[id := path];
      var unusable := AppendClips(path, pool[id].clips);
      if unusable {
        return Some(UnusableClips(path));
      }
      var slots := Listed(pool[id].subfolders);
      if slots.None? {
        return Some(UnusableSubfolders(path));
      }
      assert id in pool.Keys - old(visited).Keys;
      assert pool.Keys - visited.Keys < pool.Keys - old(visited).Keys;
      failure := WalkSubfolders(pool, slots.value, path);
    }

    method WalkSubfolders(pool: Pool, slots: seq<Slot>, path: seq<string>) returns (failure: Option<Failure>)
      requires Closed(pool) && forall i | 0 <= i < |slots| :: InPool(pool, slots[i])
      modifies this
      ensures var o := WalkAll(Inventory, pool, slots, path, old(visited));
              match failure
              case Some(f) => o == Failed(f)
              case None => o.Done? && visited == o.visited && out == old(out) + RowsOfAll(o.result)
      decreases pool.Keys - visited.Keys, 1
    {
      hide Walk, WalkAll, Rows, RowsOfAll, NameIn;
      ghost var trees := [];
      NoSlots(pool, slots, path, visited);
      for i := 0 to |slots|
        invariant old(visited).Keys <= visited.Keys
        invariant WalkAll(Inventory, pool, slots[..i], path, old(visited)) == Done(trees, visited)
        invariant out == old(out) + RowsOfAll(trees)
      {
        NextSlot(Inventory, pool, slots, i, path, old(visited));
        if !SlotUsable(Inventory, pool, slots[i]) {
          FailureIsFinal(Inventory, pool, slots, path, old(visited), i + 1);
          return Some(UnusableFolder(path));
        }
        ghost var o := WalkSlot(Inventory, pool, slots[i], path, visited);
        var child := slots[i].id;
        assert pool.Keys - visited.Keys <= pool.Keys - old(visited).Keys;
        failure := WalkMediaPoolFolder(pool, child, path + [NameIn(Inventory, pool[child])], path);
        if failure.Some? {
          FailureIsFinal(Inventory, pool, slots, path, old(visited), i + 1);
          return;
        }
        NextRows(trees, o.result);
        trees := trees + [o.result];
      }
      assert slots[..|slots|] == slots;
      return None;
    }

    method AppendClips(path: seq<string>, listing: Listing<Clip>) returns (unusable: bool)
      modifies this`out
      ensures unusable == ReadClips(Inventory, listing).None?
      ensures !unusable ==> out == old(out) + ClipRows(path, ReadClips(Inventory, listing).value)
    {
      var clips := Listed(listing);
      if clips.None? { return true; }
      for k := 0 to |clips.value|
        invariant forall j | 0 <= j < k :: ClipUsable(Inventory, clips.value[j])
        invariant out == old(out) + ClipRows(path, clips.value[..k])
      {
        var clip := clips.value[k];
        if !ClipUsable(Inventory, clip) { return true; }
        out := out + [ClipRow(path, clip)];
        assert ClipRows(path, clips.value[..k + 1]) == ClipRows(path, clips.value[..k]) + [ClipRow(path, clip)];
      }
      assert clips.value[..|clips.value|] == clips.value;
      return false;
    }
  }
}
