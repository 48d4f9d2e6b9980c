/** When the media-pool walks succeed and what they report, told from what each folder's accessors answer. */
module MediaPoolAnswers {
  import opened PythonValues
  import opened MediaPool
  import opened MediaPoolProperties
  import T = Text

  predicate IsGivenText(s: Option<string>) {
    s.Some? && T.Strip(s.value) != ""
  }

  /** No clips, or clips whose handles can be used; the gate wants a name and an id of each. */
  predicate ListsGoodClips(policy: Policy, clips: Listing<Clip>) {
    match clips
    case Nothing => true
    case Items(items) =>
      forall i | 0 <= i < |items| ::
        items[i].Clip? && (policy == Inventory ==> IsGivenText(items[i].name) && IsGivenText(items[i].uniqueId))
    case _ => false
  }

  /** No subfolders, or subfolders whose handles can be used; the gate wants a name of each. */
  predicate ListsGoodFolders(policy: Policy, pool: Pool, slots: Listing<Slot>)
    requires slots.Items? ==> AllInPool(pool, slots.items)
  {
    match slots
    case Nothing => true
    case Items(items) =>
      forall i | 0 <= i < |items| :: items[i].Folder? && (policy == Inventory ==> IsGivenText(pool[items[i].id].name))
    case _ => false
  }

  predicate AnswersWell(policy: Policy, pool: Pool, id: nat)
    requires Closed(pool) && id in pool
  {
    ListsGoodClips(policy, pool[id].clips) && ListsGoodFolders(policy, pool, pool[id].subfolders)
  }

  /** So does every folder in reach. */
  ghost predicate EachAnswersWell(policy: Policy, pool: Pool, id: nat)
    requires Closed(pool) && id in pool
  {
    forall p | FolderAt(pool, id, p).Some? :: AnswersWell(policy, pool, FolderAt(pool, id, p).value)
  }

  lemma TextGiven(s: Option<string>)
    ensures NonBlank(s) <==> IsGivenText(s)
  {
    if s.Some? { T.BlankMeansStripsToNothing(s.value); }
  }

  lemma ClipsRead(policy: Policy, clips: Listing<Clip>)
    ensures ReadClips(policy, clips).Some? <==> ListsGoodClips(policy, clips)
    ensures ListsGoodClips(policy, clips) ==> ReadClips(policy, clips) == Some(if clips.Items? then clips.items else [])
  {
    hide NonBlank, IsGivenText;
    forall s ensures NonBlank(s) <==> IsGivenText(s) { TextGiven(s); }
  }

  lemma FolderRead(policy: Policy, pool: Pool, id: nat)
    requires Closed(pool) && id in pool
    ensures FolderUsable(policy, pool, id) <==> AnswersWell(policy, pool, id)
  {
    hide NonBlank, IsGivenText, ReadClips, ListsGoodClips;
    ClipsRead(policy, pool[id].clips);
    SubfoldersAreInPool(pool, id);
    forall s ensures NonBlank(s) <==> IsGivenText(s) { TextGiven(s); }
  }

  /** A walk succeeds exactly when every folder in reach answers well and none is met twice. */
  lemma WalkSucceedsOnAnswers(policy: Policy, pool: Pool, id: nat, path: seq<string>)
    requires Closed(pool) && id in pool
    ensures Walk(policy, pool, id, path, map[]).Done? <==>
            MetOnce(pool, id) && EachAnswersWell(policy, pool, id)
  {
    hide Walk, MetOnce, AllUsable;
    WalkSucceedsIff(policy, pool, id, path);
    AllAnswerWell(policy, pool, id);
  }

  lemma AllAnswerWell(policy: Policy, pool: Pool, id: nat)
    requires Closed(pool) && id in pool
    ensures AllUsable(policy, pool, id) <==> EachAnswersWell(policy, pool, id)
  {
    hide AnswersWell, FolderUsable;
    if AllUsable(policy, pool, id) {
      forall p | FolderAt(pool, id, p).Some? ensures AnswersWell(policy, pool, FolderAt(pool, id, p).value) {
        FolderRead(policy, pool, FolderAt(pool, id, p).value);
      }
    }
    if EachAnswersWell(policy, pool, id) {
      forall p | FolderAt(pool, id, p).Some? ensures FolderUsable(policy, pool, FolderAt(pool, id, p).value) {
        FolderRead(policy, pool, FolderAt(pool, id, p).value);
      }
    }
  }

  /** What the snapshot calls a folder: its name, or a stand-in where there is none. */
  function Called(folder: FolderInfo): string {
    if folder.name.Some? && folder.name.value != "" then folder.name.value else "<folder-name-unavailable>"
  }

  /** Each folder in reach has its node, with its own name and the clips it listed. */
  lemma NodesHoldAnswers(pool: Pool, id: nat, path: seq<string>, p: seq<nat>)
    requires Closed(pool) && id in pool && Walk(Snapshot, pool, id, path, map[]).Done?
    requires FolderAt(pool, id, p).Some?
    ensures var tree, folder := TreeAt(Walk(Snapshot, pool, id, path, map[]).result, p), pool[FolderAt(pool, id, p).value];
            && tree.Some? && tree.value.name == Called(folder)
            && tree.value.clips == (if folder.clips.Items? then folder.clips.items else [])
            && |tree.value.subfolders| == (if folder.subfolders.Items? then |folder.subfolders.items| else 0)
  {
    hide Walk, TreeAt;
    WalkReturnsTheTree(Snapshot, pool, id, path);
    var tree := Walk(Snapshot, pool, id, path, map[]).result;
    assert MirrorsAt(Snapshot, pool, id, path, tree, p);
    var f := FolderAt(pool, id, p).value;
    ClipsRead(Snapshot, pool[f].clips);
  }

  /** The names along a path are those the folders on it are called. */
  lemma {:induction false} NamesAreCalled(pool: Pool, id: nat, p: seq<nat>, n: nat)
    requires Closed(pool) && id in pool && FolderAt(pool, id, p).Some? && n <= |p|
    ensures FolderAt(pool, id, p[..n]).Some? && |NamesAlong(Snapshot, pool, id, p)| == |p| + 1
    ensures NamesAlong(Snapshot, pool, id, p)[n] == Called(pool[FolderAt(pool, id, p[..n]).value])
    decreases |p|
  {
    if p != [] {
      SubfoldersAreInPool(pool, id);
      assert FolderBelow(pool, Subfolders(pool, id), p).Some?;
      var child := Subfolders(pool, id)[p[0]].id;
      if n > 0 {
        NamesAreCalled(pool, child, p[1..], n - 1);
        assert p[..n][1..] == p[1..][..n - 1];
      } else {
        NamesAreCalled(pool, child, p[1..], 0);
        assert p[..0] == [];
      }
    }
  }
}
