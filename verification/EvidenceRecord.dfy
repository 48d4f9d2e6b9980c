/** `EvidencePackage.write_json`: temporary file, write, fsync, replace, and a directory fsync that may
    fail without a word.

    Power may be lost between any two system calls. What then comes back is every file whose content
    had been forced to disk and, for each name in the directory, some state it had since the directory
    itself was last forced to disk. A call that fails has no effect, and inodes are never reused. */
module EvidenceRecord {
  import opened PythonValues
  import P = EvidencePublication

  datatype Name = Final(name: string) | Temp(id: nat)

  type Directory = map<Name, nat>

  /** The package directory, what it was at and since its last fsync, and the files behind the names. */
  datatype Disk = Disk(entries: Directory, earlier: seq<Directory>, files: map<nat, P.File>)

  const EMPTY := Disk(map[], [], map[])

  /** How the calls of one `write_json` and of the hashing that follows it go: `temp` and `inode` are
      what uuid4 and the file system hand out, and at each place in the text `takes` says how far the
      next write gets, if it does not fail. */
  datatype Calls = Calls(
    temp: nat, inode: nat, created: bool, takes: nat -> Option<nat>, fileSynced: bool, fileCloses: bool,
    replaced: bool, directoryOpens: bool, directorySyncs: bool, directoryCloses: bool,
    looks: bool, unlinks: bool, hashed: bool)

  /** A failure may come before or after the record took its name. */
  datatype Ending = Persisted | FailedBefore | FailedAfter

  /** The disk after each call that changed it. */
  datatype Writing = Writing(trail: seq<Disk>, ending: Ending)

  function End(d: Disk, trail: seq<Disk>): Disk {
    if trail == [] then d else trail[|trail| - 1]
  }

  // ---- the system calls ----

  function Renamed(d: Disk, entries: Directory): Disk {
    d.(entries := entries, earlier := d.earlier + [d.entries])
  }

  /** Exclusive creation; a name that is taken makes it fail. */
  predicate CanCreate(d: Disk, c: Calls) {
    c.created && Temp(c.temp) !in d.entries && c.inode !in d.files
  }

  function Create(d: Disk, c: Calls): Disk {
    Renamed(d, d.entries[Temp(c.temp) := c.inode]).(files := d.files[c.inode := P.File("", false)])
  }

  function Append(d: Disk, inode: nat, piece: string): Disk
    requires inode in d.files
  {
    d.(files := d.files[inode := P.File(d.files[inode].text + piece, false)])
  }

  function Fsync(d: Disk, inode: nat): Disk
    requires inode in d.files
  {
    d.(files := d.files[inode := d.files[inode].(durable := true)])
  }

  function Replace(d: Disk, c: Calls, name: string): Disk
    requires Temp(c.temp) in d.entries
  {
    Renamed(d, (d.entries - {Temp(c.temp)})[Final(name) := d.entries[Temp(c.temp)]])
  }

  function SyncDirectory(d: Disk): Disk {
    d.(earlier := [])
  }

  function Unlink(d: Disk, c: Calls): Disk {
    Renamed(d, d.entries - {Temp(c.temp)})
  }

  // ---- write_json and sha256_file ----

  /** From d to e only the content of one file changed. */
  predicate OnlyFile(d: Disk, e: Disk, inode: nat) {
    && e.entries == d.entries && e.earlier == d.earlier && e.files.Keys == d.files.Keys && inode in e.files
    && forall i | i in d.files && i != inode :: e.files[i] == d.files[i]
  }

  function Reach(taken: nat, from: nat, all: nat): (upTo: nat)
    requires from < all
    ensures from < upTo <= all
  {
    if taken == 0 then from + 1 else if from + taken <= all then from + taken else all
  }

  datatype Pieces = Pieces(trail: seq<Disk>, complete: bool)

  function WritePieces(d: Disk, inode: nat, text: string, from: nat, takes: nat -> Option<nat>): (p: Pieces)
    requires inode in d.files && from <= |text|
    ensures OnlyFile(d, End(d, p.trail), inode) && forall e | e in p.trail :: OnlyFile(d, e, inode)
    decreases |text| - from
  {
    if from == |text| then Pieces([], true)
    else if takes(from).None? then Pieces([], false)
    else
      var upTo := Reach(takes(from).value, from, |text|);
      var next := Append(d, inode, text[from..upTo]);
      var rest := WritePieces(next, inode, text, upTo, takes);
      Pieces([next] + rest.trail, rest.complete)
  }

  /** The body of the `try`. */
  function Tried(d: Disk, name: string, text: string, c: Calls): Writing {
    if !CanCreate(d, c) then Writing([], FailedBefore)
    else
      var made := Create(d, c);
      var body := WritePieces(made, c.inode, text, 0, c.takes);
      var trail := [made] + body.trail;
      if !body.complete || !c.fileSynced then Writing(trail, FailedBefore)
      else
        var synced := Fsync(End(made, body.trail), c.inode);
        if !c.fileCloses || !c.replaced then Writing(trail + [synced], FailedBefore)
        else
          var placed := Replace(synced, c, name);
          Writing(trail + [synced, placed] + (if SyncsDirectory(c) then [SyncDirectory(placed)] else []),
                  if c.directoryOpens && !c.directoryCloses then FailedAfter else Persisted)
  }

  predicate SyncsDirectory(c: Calls) {
    c.directoryOpens && c.directorySyncs
  }

  /** The `finally` removes a temporary file that is still there; the caller then hashes the record. */
  function Persist(d: Disk, name: string, text: string, c: Calls): Writing {
    var tried := Tried(d, name, text, c);
    var e := End(d, tried.trail);
    Writing(tried.trail + (if Leftover(e, c) then [Unlink(e, c)] else []),
            if tried.ending == Persisted && !(c.looks && c.hashed) then FailedAfter else tried.ending)
  }

  predicate Leftover(d: Disk, c: Calls) {
    c.looks && Temp(c.temp) in d.entries && c.unlinks
  }

  /** What is left to write, after what was written, makes up the whole. */
  predicate Continues(
    d: Disk, inode: nat, text: string, from: nat, takes: nat -> Option<nat>,
    start: Disk, before: seq<Disk>, whole: Pieces, trail: seq<Disk>)
    requires inode in d.files && from <= |text|
  {
    var rest := WritePieces(d, inode, text, from, takes);
    && whole.complete == rest.complete && before + whole.trail == trail + rest.trail
    && End(start, whole.trail) == End(d, rest.trail)
  }

  lemma NextPiece(
    d: Disk, inode: nat, text: string, from: nat, takes: nat -> Option<nat>,
    start: Disk, before: seq<Disk>, whole: Pieces, trail: seq<Disk>)
    requires inode in d.files && from < |text| && takes(from).Some?
    requires Continues(d, inode, text, from, takes, start, before, whole, trail)
    ensures var upTo := Reach(takes(from).value, from, |text|);
            var next := Append(d, inode, text[from..upTo]);
            Continues(next, inode, text, upTo, takes, start, before, whole, trail + [next])
  {
    hide Reach, OnlyFile;
    var upTo := Reach(takes(from).value, from, |text|);
    var next := Append(d, inode, text[from..upTo]);
    var rest := WritePieces(next, inode, text, upTo, takes);
    assert trail + ([next] + rest.trail) == trail + [next] + rest.trail;
    assert End(d, [next] + rest.trail) == End(next, rest.trail);
  }

  // ---- the package as it is written to ----

  class Package {
    var disk: Disk
    ghost var trail: seq<Disk>

    constructor ()
      ensures disk == EMPTY && trail == []
    {
      disk := EMPTY;
      trail := [];
    }

    method Become(next: Disk)
      modifies this
      ensures disk == next && trail == old(trail) + [next]
    {
      disk := next;
      trail := trail + [next];
    }

    method Write(inode: nat, text: string, takes: nat -> Option<nat>) returns (complete: bool)
      requires inode in disk.files
      modifies this
      ensures var p := WritePieces(old(disk), inode, text, 0, takes);
              trail == old(trail) + p.trail && disk == End(old(disk), p.trail) && complete == p.complete
    {
      var from: nat := 0;
      ghost var whole, before, start := WritePieces(disk, inode, text, 0, takes), trail, disk;
      while from < |text| && takes(from).Some?
        invariant from <= |text| && inode in disk.files
        invariant Continues(disk, inode, text, from, takes, start, before, whole, trail)
        decreases |text| - from
      {
        var upTo := Reach(takes(from).value, from, |text|);
        NextPiece(disk, inode, text, from, takes, start, before, whole, trail);
        Become(Append(disk, inode, text[from..upTo]));
        from := upTo;
      }
      complete := from == |text|;
    }

    method Try(name: string, text: string, c: Calls) returns (ending: Ending)
      modifies this
      ensures var t := Tried(old(disk), name, text, c);
              trail == old(trail) + t.trail && disk == End(old(disk), t.trail) && ending == t.ending
    {
      hide WritePieces;
      if !CanCreate(disk, c) { return FailedBefore; }
      Become(Create(disk, c));
      var complete := Write(c.inode, text, c.takes);
      if !complete || !c.fileSynced { return FailedBefore; }
      Become(Fsync(disk, c.inode));
      if !c.fileCloses || !c.replaced { return FailedBefore; }
      Become(Replace(disk, c, name));
      if c.directoryOpens {
        if c.directorySyncs { Become(SyncDirectory(disk)); }
        if !c.directoryCloses { return FailedAfter; }
      }
      return Persisted;
    }

    method WriteAndHash(name: string, text: string, c: Calls) returns (ending: Ending)
      modifies this
      ensures var w := Persist(old(disk), name, text, c);
              trail == old(trail) + w.trail && disk == End(old(disk), w.trail) && ending == w.ending
    {
      hide Tried;
      ending := Try(name, text, c);
      if c.looks && Temp(c.temp) in disk.entries && c.unlinks { Become(Unlink(disk, c)); }
      if ending == Persisted && !(c.looks && c.hashed) { ending := FailedAfter; }
    }
  }

  // ---- how it ends ----

  /** The record takes its name when everything up to the replacement goes through. */
  predicate TakesItsName(d: Disk, text: string, c: Calls) {
    && CanCreate(d, c) && WritePieces(Create(d, c), c.inode, text, 0, c.takes).complete
    && c.fileSynced && c.fileCloses && c.replaced
  }

  /** From here on every write gets somewhere, up to the end of the text. */
  predicate EachWriteWorks(takes: nat -> Option<nat>, from: nat, all: nat)
    decreases all - from
  {
    from >= all || (takes(from).Some? && EachWriteWorks(takes, from + Clip(takes(from).value, all - from), all))
  }

  /** A write takes one character at least and no more than there are. */
  function Clip(taken: nat, left: nat): (n: nat)
    requires left > 0
    ensures 0 < n <= left
  {
    if taken == 0 then 1 else if taken > left then left else taken
  }

  lemma {:induction false} CompleteIff(d: Disk, inode: nat, text: string, from: nat, takes: nat -> Option<nat>)
    requires inode in d.files && from <= |text|
    ensures WritePieces(d, inode, text, from, takes).complete <==> EachWriteWorks(takes, from, |text|)
    decreases |text| - from
  {
    if from < |text| && takes(from).Some? {
      var upTo := Reach(takes(from).value, from, |text|);
      CompleteIff(Append(d, inode, text[from..upTo]), inode, text, upTo, takes);
    }
  }

  /** Exactly which calls decide how a write ends. */
  lemma EndingIs(d: Disk, name: string, text: string, c: Calls)
    ensures TakesItsName(d, text, c) <==>
            && c.created && Temp(c.temp) !in d.entries && c.inode !in d.files
            && EachWriteWorks(c.takes, 0, |text|) && c.fileSynced && c.fileCloses && c.replaced
    ensures var ending := Persist(d, name, text, c).ending;
            && (ending != FailedBefore <==> TakesItsName(d, text, c))
            && (ending == Persisted <==>
                  TakesItsName(d, text, c) && (c.directoryOpens ==> c.directoryCloses) && c.looks && c.hashed)
  {
    hide WritePieces, EachWriteWorks;
    if CanCreate(d, c) { CompleteIff(Create(d, c), c.inode, text, 0, c.takes); }
  }

  lemma {:induction false} EverythingIsTaken(d: Disk, inode: nat, text: string, from: nat, takes: nat -> Option<nat>)
    requires inode in d.files && from <= |text| && forall i: nat | i < |text| :: takes(i).Some?
    ensures WritePieces(d, inode, text, from, takes).complete
    decreases |text| - from
  {
    if from < |text| {
      var upTo := Reach(takes(from).value, from, |text|);
      EverythingIsTaken(Append(d, inode, text[from..upTo]), inode, text, upTo, takes);
    }
  }

  /** A write leaves no other names and no other files behind than its own. */
  lemma OwnNamesOnly(d: Disk, name: string, text: string, c: Calls)
    ensures var e := End(d, Persist(d, name, text, c).trail);
            && e.entries.Keys <= d.entries.Keys + {Temp(c.temp), Final(name)} && e.files.Keys <= d.files.Keys + {c.inode}
  {
    hide WritePieces;
  }

  // ---- all writes of a package, one after the other ----

  datatype Request = Request(name: string, text: string, calls: Calls)

  function Writes(rs: seq<Request>): seq<Disk>
    decreases rs, 0
  {
    if rs == [] then []
    else
      var r := rs[|rs| - 1];
      Writes(rs[..|rs| - 1]) + Persist(DiskAfter(rs[..|rs| - 1]), r.name, r.text, r.calls).trail
  }

  function DiskAfter(rs: seq<Request>): Disk
    decreases rs, 1
  {
    End(EMPTY, Writes(rs))
  }

  lemma LastWrite(rs: seq<Request>, r: Request)
    ensures var w := Persist(DiskAfter(rs), r.name, r.text, r.calls);
            Writes(rs + [r]) == Writes(rs) + w.trail && DiskAfter(rs + [r]) == End(DiskAfter(rs), w.trail)
  {
    hide Persist;
    assert (rs + [r])[..|rs|] == rs;
  }

  lemma {:induction false} UsedIdsOnly(rs: seq<Request>, n: nat)
    requires forall r | r in rs :: r.calls.temp < n && r.calls.inode < n
    ensures forall i | i in DiskAfter(rs).files :: i < n
    ensures forall id: nat | Temp(id) in DiskAfter(rs).entries :: id < n
  {
    hide Persist;
    if rs != [] {
      var front, r := rs[..|rs| - 1], rs[|rs| - 1];
      assert rs == front + [r];
      UsedIdsOnly(front, n);
      LastWrite(front, r);
      OwnNamesOnly(DiskAfter(front), r.name, r.text, r.calls);
      var d, e := DiskAfter(front), DiskAfter(rs);
      forall i | i in e.files ensures i < n { assert i in e.files.Keys; }
      forall id: nat | Temp(id) in e.entries ensures id < n { assert Temp(id) in e.entries.Keys; }
    }
  }
}
