/** The evidence directory and `_write_sha256_manifest`, the walk that seals it. */
module EvidenceManifest {
  import opened SortedNames
  import T = Text

  datatype Node = File(content: string) | Folder

  /** Everything below the directory, by relative path, at every depth: what `rglob("*")` lists. */
  type Directory = map<string, Node>

  const MANIFEST := "sha256_manifest.json"

  predicate IsCovered(directory: Directory, path: string) {
    path in directory && directory[path].File? && path != MANIFEST
  }

  /** entries has every file of the directory but the manifest, with the digest of what it holds. */
  ghost predicate Covers(entries: map<string, string>, directory: Directory, sha256: string -> string) {
    && (forall path :: path in entries <==> IsCovered(directory, path))
    && forall path | path in entries :: entries[path] == sha256(directory[path].content)
  }

  function ManifestOf(directory: Directory, sha256: string -> string): (entries: map<string, string>)
    ensures Covers(entries, directory, sha256)
  {
    map path | path in directory && IsCovered(directory, path) :: sha256(directory[path].content)
  }

  /** The walk over the sorted paths; folders and an earlier manifest are passed over. */
  method ManifestEntries(directory: Directory, sha256: string -> string) returns (entries: map<string, string>)
    ensures entries == ManifestOf(directory, sha256)
  {
    entries := map[];
    var paths := Sorted(directory.Keys);
    SortedHolds(directory.Keys);
    for n := 0 to |paths|
      invariant forall path :: path in entries <==> path in paths[..n] && IsCovered(directory, path)
      invariant forall path | path in entries :: entries[path] == sha256(directory[path].content)
    {
      assert paths[n] in directory.Keys;
      assert paths[..n + 1] == paths[..n] + [paths[n]];
      if directory[paths[n]].File? && paths[n] != MANIFEST {
        entries := entries[paths[n] := sha256(directory[paths[n]].content)];
      }
    }
    assert paths[..|paths|] == paths;
    ManifestIsUnique(entries, directory, sha256);
  }

  lemma ManifestIsUnique(entries: map<string, string>, directory: Directory, sha256: string -> string)
    requires Covers(entries, directory, sha256)
    ensures entries == ManifestOf(directory, sha256)
  {
    var other := ManifestOf(directory, sha256);
    assert forall path :: path in entries <==> path in other;
  }
}
