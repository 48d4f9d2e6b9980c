/** What a power loss leaves of the records that `write_json` wrote: whole texts, and for sure exactly those
    whose names were in the directory at one of its fsyncs. */
module EvidenceDurability {
  import opened PythonValues
  import opened EvidenceRecord
  import P = EvidencePublication

  // ---- power loss ----

  function Versions(d: Disk): seq<Directory> {
    d.earlier + [d.entries]
  }

  function Entry(v: Directory, n: Name): Option<nat> {
    if n in v then Some(v[n]) else None
  }

  /** In the restarted directory the name is as it was in some version. */
  ghost predicate ComesBack(d: Disk, after: Directory, n: Name) {
    exists v :: v in Versions(d) && Entry(v, n) == Entry(after, n)
  }

  ghost predicate MayRestartAs(d: Disk, after: Disk) {
    && after.earlier == []
    && (forall n: Name :: ComesBack(d, after.entries, n))
    && (forall i | i in d.files && d.files[i].durable :: i in after.files && after.files[i] == d.files[i])
  }

  /** After any restart the name is there. */
  ghost predicate SurvivesPowerLoss(d: Disk, name: string) {
    forall after | MayRestartAs(d, after) :: Final(name) in after.entries
  }

  predicate InEveryVersion(d: Disk, n: Name) {
    forall v | v in Versions(d) :: n in v
  }

  lemma SurvivesIff(d: Disk, name: string)
    ensures SurvivesPowerLoss(d, name) <==> InEveryVersion(d, Final(name))
  {
    if InEveryVersion(d, Final(name)) {
      forall after | MayRestartAs(d, after) ensures Final(name) in after.entries {
        assert ComesBack(d, after.entries, Final(name));
        var v :| v in Versions(d) && Entry(v, Final(name)) == Entry(after.entries, Final(name));
      }
    } else {
      var v :| v in Versions(d) && Final(name) !in v;
      LosingRestart(d, v);
    }
  }

  /** Power loss may bring back any state of the directory since its last fsync. */
  lemma LosingRestart(d: Disk, v: Directory)
    requires v in Versions(d)
    ensures MayRestartAs(d, Disk(v, [], d.files))
  {
    var after := Disk(v, [], d.files);
    forall n: Name ensures ComesBack(d, v, n) {
      assert v in Versions(d) && Entry(v, n) == Entry(v, n);
    }
  }

  /** What was given to `write_json`: names with their texts. */
  type Told = set<(string, string)>

  /** Every record name, in every state the directory may come back in, leads to a complete text that
      was given for it, forced to disk. */
  ghost predicate Sound(d: Disk, told: Told) {
    forall v, n | v in Versions(d) && Final(n) in v :: Whole(d, v[Final(n)], n, told)
  }

  predicate Whole(d: Disk, inode: nat, n: string, told: Told) {
    inode in d.files && d.files[inode].durable && (n, d.files[inode].text) in told
  }

  /** The temporary file is open, and no record name leads to it. */
  ghost predicate Open(d: Disk, c: Calls) {
    && Temp(c.temp) in d.entries && d.entries[Temp(c.temp)] == c.inode && c.inode in d.files
    && forall v, n | v in Versions(d) && Final(n) in v :: v[Final(n)] != c.inode
  }

  lemma RestartFindsWholeRecords(d: Disk, told: Told, after: Disk, n: string)
    requires Sound(d, told) && MayRestartAs(d, after) && Final(n) in after.entries
    ensures after.entries[Final(n)] in after.files
    ensures var f := after.files[after.entries[Final(n)]]; f.durable && (n, f.text) in told
  {
    assert ComesBack(d, after.entries, Final(n));
    var v :| v in Versions(d) && Entry(v, Final(n)) == Entry(after.entries, Final(n));
    assert Whole(d, v[Final(n)], n, told);
  }

  // ---- each call keeps it so ----

  lemma CreateIsSound(d: Disk, c: Calls, told: Told)
    requires Sound(d, told) && CanCreate(d, c)
    ensures Sound(Create(d, c), told) && Open(Create(d, c), c)
  {
    var e := Create(d, c);
    forall v, n | v in Versions(e) && Final(n) in v ensures Whole(e, v[Final(n)], n, told) && v[Final(n)] != c.inode {
      if v in Versions(d) {
        assert Whole(d, v[Final(n)], n, told);
      } else {
        assert v == e.entries && d.entries in Versions(d) && Final(n) in d.entries;
        assert Whole(d, d.entries[Final(n)], n, told);
      }
    }
  }

  lemma FileIsSound(d: Disk, e: Disk, c: Calls, told: Told)
    requires Sound(d, told) && Open(d, c) && OnlyFile(d, e, c.inode)
    ensures Sound(e, told) && Open(e, c)
  {
    forall v, n | v in Versions(e) && Final(n) in v ensures Whole(e, v[Final(n)], n, told) && v[Final(n)] != c.inode {
      assert v in Versions(d) && Whole(d, v[Final(n)], n, told);
    }
  }

  lemma RemovalIsSound(d: Disk, c: Calls, told: Told)
    requires Sound(d, told)
    ensures Sound(Unlink(d, c), told)
  {
    var e := Unlink(d, c);
    forall v, n | v in Versions(e) && Final(n) in v ensures Whole(e, v[Final(n)], n, told) {
      if v !in Versions(d) { assert v == e.entries && d.entries in Versions(d) && Final(n) in d.entries; }
      var u := if v in Versions(d) then v else d.entries;
      assert Whole(d, u[Final(n)], n, told);
    }
  }

  lemma ReplaceIsSound(d: Disk, c: Calls, name: string, told: Told)
    requires Sound(d, told) && Open(d, c) && Whole(d, c.inode, name, told)
    ensures Sound(Replace(d, c, name), told)
  {
    var e := Replace(d, c, name);
    forall v, n | v in Versions(e) && Final(n) in v ensures Whole(e, v[Final(n)], n, told) {
      if v in Versions(d) {
        assert Whole(d, v[Final(n)], n, told);
      } else if n != name {
        assert v == e.entries && d.entries in Versions(d) && Final(n) in d.entries;
        assert Whole(d, d.entries[Final(n)], n, told);
      }
    }
  }

  lemma SyncIsSound(d: Disk, told: Told)
    requires Sound(d, told)
    ensures Sound(SyncDirectory(d), told)
  {
    forall v, n | v in Versions(SyncDirectory(d)) && Final(n) in v ensures Whole(d, v[Final(n)], n, told) {
      assert v in Versions(d);
    }
  }

  lemma {:induction false} PiecesMakeTheText(d: Disk, inode: nat, text: string, from: nat, takes: nat -> Option<nat>)
    requires inode in d.files && from <= |text| && d.files[inode].text == text[..from]
    ensures var p := WritePieces(d, inode, text, from, takes);
            p.complete ==> End(d, p.trail).files[inode].text == text
    decreases |text| - from
  {
    if from == |text| {
      assert text[..from] == text;
    } else if takes(from).Some? {
      var upTo := Reach(takes(from).value, from, |text|);
      var next := Append(d, inode, text[from..upTo]);
      assert text[..upTo] == text[..from] + text[from..upTo];
      PiecesMakeTheText(next, inode, text, upTo, takes);
    }
  }

  /** Before the replacement: the state of the temporary file when everything is written. */
  function Full(d: Disk, text: string, c: Calls): Disk
    requires CanCreate(d, c)
  {
    End(Create(d, c), WritePieces(Create(d, c), c.inode, text, 0, c.takes).trail)
  }

  lemma WrittenIsSound(d: Disk, text: string, c: Calls, told: Told)
    requires Sound(d, told) && CanCreate(d, c)
    ensures var body := WritePieces(Create(d, c), c.inode, text, 0, c.takes);
            && (forall e | e in [Create(d, c)] + body.trail :: Sound(e, told))
            && Sound(Full(d, text, c), told) && Open(Full(d, text, c), c)
            && (body.complete ==> Full(d, text, c).files[c.inode].text == text)
  {
    hide Sound, Open, OnlyFile;
    var made := Create(d, c);
    CreateIsSound(d, c, told);
    var body := WritePieces(made, c.inode, text, 0, c.takes);
    PiecesMakeTheText(made, c.inode, text, 0, c.takes);
    FileIsSound(made, End(made, body.trail), c, told);
    forall e | e in body.trail ensures Sound(e, told) { FileIsSound(made, e, c, told); }
  }

  lemma PlacedIsSound(d: Disk, name: string, text: string, c: Calls, told: Told)
    requires Sound(d, told) && Open(d, c) && d.files[c.inode].text == text && (name, text) in told
    ensures var synced := Fsync(d, c.inode);
            && Sound(synced, told) && Temp(c.temp) in synced.entries && Sound(Replace(synced, c, name), told)
            && Sound(SyncDirectory(Replace(synced, c, name)), told)
  {
    hide Sound, SyncDirectory, Replace;
    var synced := Fsync(d, c.inode);
    FileIsSound(d, synced, c, told);
    ReplaceIsSound(synced, c, name, told);
    SyncIsSound(Replace(synced, c, name), told);
  }

  /** Whatever calls fail and wherever power is lost during one write, every record is whole. */
  lemma PersistIsSound(d: Disk, name: string, text: string, c: Calls, told: Told)
    requires Sound(d, told) && (name, text) in told
    ensures forall e | e in Persist(d, name, text, c).trail :: Sound(e, told)
    ensures Sound(End(d, Persist(d, name, text, c).trail), told)
  {
    hide Sound, Open, Replace, SyncDirectory, Unlink, Create, WritePieces;
    if CanCreate(d, c) {
      WrittenIsSound(d, text, c, told);
      var body := WritePieces(Create(d, c), c.inode, text, 0, c.takes);
      if body.complete { PlacedIsSound(Full(d, text, c), name, text, c, told); }
      else { FileIsSound(Full(d, text, c), Full(d, text, c), c, told); }
    }
    var tried := Tried(d, name, text, c);
    RemovalIsSound(End(d, tried.trail), c, told);
  }

  // ---- which names are sure to come back ----

  /** The record names stand as they did, and come back as surely as they did. */
  ghost predicate SameRecords(d: Disk, e: Disk) {
    forall m: string ::
      && Entry(e.entries, Final(m)) == Entry(d.entries, Final(m))
      && (InEveryVersion(e, Final(m)) <==> InEveryVersion(d, Final(m)))
  }

  lemma RenamedTemp(d: Disk, entries: Directory)
    requires forall m: string :: Entry(entries, Final(m)) == Entry(d.entries, Final(m))
    ensures SameRecords(d, Renamed(d, entries))
  {
    var e := Renamed(d, entries);
    forall m: string ensures InEveryVersion(e, Final(m)) <==> InEveryVersion(d, Final(m)) {
      assert Entry(entries, Final(m)) == Entry(d.entries, Final(m));
      assert d.entries in Versions(d) && forall v | v in Versions(d) :: v in Versions(e);
      if InEveryVersion(d, Final(m)) {
        forall v | v in Versions(e) ensures Final(m) in v { assert v in Versions(d) || v == entries; }
      }
    }
  }

  lemma WrittenKeepsRecords(d: Disk, text: string, c: Calls)
    requires CanCreate(d, c)
    ensures var body := WritePieces(Create(d, c), c.inode, text, 0, c.takes);
            && (forall e | e in [Create(d, c)] + body.trail :: SameRecords(d, e))
            && SameRecords(d, Full(d, text, c))
            && c.inode in Full(d, text, c).files && Temp(c.temp) in Fsync(Full(d, text, c), c.inode).entries
            && SameRecords(d, Fsync(Full(d, text, c), c.inode))
  {
    hide InEveryVersion;
    var made := Create(d, c);
    RenamedTemp(d, made.entries);
    SameDirectory(Renamed(d, made.entries), made);
    var body := WritePieces(made, c.inode, text, 0, c.takes);
    forall e | e in [made] + body.trail || OnlyFile(made, e, c.inode) ensures SameRecords(made, e) {
      SameDirectory(made, e);
    }
    SameDirectory(made, Fsync(Full(d, text, c), c.inode));
  }

  lemma SameDirectory(d: Disk, e: Disk)
    requires e.entries == d.entries && e.earlier == d.earlier
    ensures SameRecords(d, e)
  {
    assert Versions(e) == Versions(d);
  }

  lemma RemovalKeepsRecords(d: Disk, c: Calls)
    ensures SameRecords(d, Unlink(d, c))
  {
    RenamedTemp(d, d.entries - {Temp(c.temp)});
  }

  lemma ReplaceAddsRecord(d: Disk, c: Calls, name: string)
    requires Temp(c.temp) in d.entries
    ensures var e := Replace(d, c, name);
            && (forall m: string :: Final(m) in e.entries <==> m == name || Final(m) in d.entries)
            && (forall m: string :: InEveryVersion(e, Final(m)) <==> InEveryVersion(d, Final(m)))
            && (forall m: string :: InEveryVersion(SyncDirectory(e), Final(m)) <==> m == name || Final(m) in d.entries)
  {
    var e := Replace(d, c, name);
    forall m: string ensures InEveryVersion(e, Final(m)) <==> InEveryVersion(d, Final(m)) {
      assert d.entries in Versions(d) && forall v | v in Versions(d) :: v in Versions(e);
      if InEveryVersion(d, Final(m)) {
        forall v | v in Versions(e) ensures Final(m) in v { assert v in Versions(d) || v == e.entries; }
      }
    }
    forall m: string ensures InEveryVersion(SyncDirectory(e), Final(m)) <==> Final(m) in e.entries {
      assert Versions(SyncDirectory(e)) == [e.entries];
      assert e.entries in Versions(SyncDirectory(e));
    }
  }

  /** Name m comes back for sure exactly when it did before, or when this write got as far as forcing the
      directory to disk with the name in it. */
  ghost predicate SureAfter(d: Disk, name: string, text: string, c: Calls, m: string, e: Disk) {
    && (InEveryVersion(e, Final(m)) <==>
          || InEveryVersion(d, Final(m))
          || (TakesItsName(d, text, c) && SyncsDirectory(c) && (m == name || Final(m) in d.entries)))
    && (Final(m) in e.entries <==> Final(m) in d.entries || (m == name && TakesItsName(d, text, c)))
  }

  lemma SameRecordsAt(d: Disk, e: Disk, m: string)
    requires SameRecords(d, e)
    ensures Final(m) in e.entries <==> Final(m) in d.entries
    ensures InEveryVersion(e, Final(m)) <==> InEveryVersion(d, Final(m))
  {
    hide InEveryVersion;
    assert Entry(e.entries, Final(m)) == Entry(d.entries, Final(m));
  }

  lemma SureAfterTried(d: Disk, name: string, text: string, c: Calls, m: string)
    ensures SureAfter(d, name, text, c, m, End(d, Tried(d, name, text, c).trail))
  {
    hide InEveryVersion, Replace, SyncDirectory, Unlink, Create, Fsync, WritePieces, SameRecords;
    if CanCreate(d, c) {
      WrittenKeepsRecords(d, text, c);
      var full := Full(d, text, c);
      var synced := Fsync(full, c.inode);
      SameRecordsAt(d, full, m);
      SameRecordsAt(d, synced, m);
      if Tried(d, name, text, c).ending != FailedBefore {
        ReplaceAddsRecord(synced, c, name);
        var placed := Replace(synced, c, name);
        assert End(d, Tried(d, name, text, c).trail) == if SyncsDirectory(c) then SyncDirectory(placed) else placed;
        SyncedEntries(placed);
        if InEveryVersion(d, Final(m)) { NowIsAVersion(d, Final(m)); }
      } else {
        assert End(d, Tried(d, name, text, c).trail) in [full, synced];
      }
    }
  }

  lemma NowIsAVersion(d: Disk, n: Name)
    requires InEveryVersion(d, n)
    ensures n in d.entries
  {
    assert d.entries in Versions(d);
  }

  lemma SyncedEntries(d: Disk)
    ensures SyncDirectory(d).entries == d.entries
  {
  }

  lemma SureAfterWriteIff(d: Disk, name: string, text: string, c: Calls, m: string)
    ensures SureAfter(d, name, text, c, m, End(d, Persist(d, name, text, c).trail))
  {
    hide InEveryVersion, Unlink, SameRecords, Tried;
    SureAfterTried(d, name, text, c, m);
    var e := End(d, Tried(d, name, text, c).trail);
    RemovalKeepsRecords(e, c);
    SameRecordsAt(e, Unlink(e, c), m);
  }

  ghost predicate KeepsSure(d: Disk, e: Disk) {
    forall m: string | InEveryVersion(d, Final(m)) :: InEveryVersion(e, Final(m))
  }

  lemma SameRecordsKeepSure(d: Disk, e: Disk)
    requires SameRecords(d, e)
    ensures KeepsSure(d, e)
  {
    hide InEveryVersion;
    forall m: string | InEveryVersion(d, Final(m)) ensures InEveryVersion(e, Final(m)) { SameRecordsAt(d, e, m); }
  }

  lemma ReplaceKeepsSure(d: Disk, e: Disk, c: Calls, name: string)
    requires Temp(c.temp) in e.entries && SameRecords(d, e)
    ensures KeepsSure(d, Replace(e, c, name)) && KeepsSure(d, SyncDirectory(Replace(e, c, name)))
  {
    hide InEveryVersion, Replace, SyncDirectory, SameRecords;
    ReplaceAddsRecord(e, c, name);
    forall m: string | InEveryVersion(d, Final(m))
      ensures InEveryVersion(Replace(e, c, name), Final(m)) && InEveryVersion(SyncDirectory(Replace(e, c, name)), Final(m))
    {
      SameRecordsAt(d, e, m);
      NowIsAVersion(e, Final(m));
    }
  }

  /** What is sure to come back stays so through every later write, at each of its calls. */
  lemma PersistKeepsSure(d: Disk, name: string, text: string, c: Calls)
    ensures forall e | e in Persist(d, name, text, c).trail :: KeepsSure(d, e)
  {
    hide KeepsSure, SameRecords, Replace, SyncDirectory, Unlink, Create, Fsync, WritePieces;
    if CanCreate(d, c) {
      WrittenKeepsRecords(d, text, c);
      var full := Full(d, text, c);
      var synced := Fsync(full, c.inode);
      forall e | SameRecords(d, e) ensures KeepsSure(d, e) { SameRecordsKeepSure(d, e); }
      ReplaceKeepsSure(d, synced, c, name);
    }
    var tried := Tried(d, name, text, c);
    var e := End(d, tried.trail);
    forall x | x in tried.trail ensures KeepsSure(d, x) {}
    RemovalKeepsRecords(e, c);
    SameRecordsKeepSure(e, Unlink(e, c));
    SameRecordsKeepSure(d, d) by { SameDirectory(d, d); }
    KeepsSureTwice(d, e, Unlink(e, c));
  }

  lemma KeepsSureTwice(d: Disk, e: Disk, f: Disk)
    requires KeepsSure(d, e) && KeepsSure(e, f)
    ensures KeepsSure(d, f)
  {
    hide InEveryVersion;
  }

  // ---- all writes of a package ----

  ghost function ToldBy(rs: seq<Request>): Told {
    set r | r in rs :: (r.name, r.text)
  }

  lemma {:induction false} WritesAreSound(rs: seq<Request>)
    ensures Sound(DiskAfter(rs), ToldBy(rs)) && forall e | e in Writes(rs) :: Sound(e, ToldBy(rs))
  {
    hide Persist;
    if rs != [] {
      var front, r := rs[..|rs| - 1], rs[|rs| - 1];
      assert rs == front + [r];
      WritesAreSound(front);
      assert (r.name, r.text) in ToldBy(rs) by { assert r in rs; }
      assert ToldBy(front) <= ToldBy(rs);
      LastWrite(front, r);
      ToldMore(DiskAfter(front), ToldBy(front), ToldBy(rs));
      forall e | e in Writes(front) ensures Sound(e, ToldBy(rs)) { ToldMore(e, ToldBy(front), ToldBy(rs)); }
      PersistIsSound(DiskAfter(front), r.name, r.text, r.calls, ToldBy(rs));
    }
  }

  lemma ToldMore(d: Disk, told: Told, more: Told)
    requires Sound(d, told) && told <= more
    ensures Sound(d, more)
  {
    forall v, n | v in Versions(d) && Final(n) in v ensures Whole(d, v[Final(n)], n, more) {
      assert Whole(d, v[Final(n)], n, told);
    }
  }

  /** A record that is sure to come back stays so in every later state of the directory. */
  lemma {:induction false} StaysSure(rs: seq<Request>, more: seq<Request>)
    ensures Writes(rs) <= Writes(rs + more) && KeepsSure(DiskAfter(rs), DiskAfter(rs + more))
    ensures forall k | |Writes(rs)| <= k < |Writes(rs + more)| :: KeepsSure(DiskAfter(rs), Writes(rs + more)[k])
    decreases more
  {
    hide Persist, InEveryVersion;
    if more == [] {
      assert rs + more == rs;
    } else {
      var front, r := more[..|more| - 1], more[|more| - 1];
      assert rs + more == rs + front + [r];
      StaysSure(rs, front);
      hide KeepsSure;
      LastWrite(rs + front, r);
      var d := DiskAfter(rs + front);
      PersistKeepsSure(d, r.name, r.text, r.calls);
      forall e | KeepsSure(d, e) ensures KeepsSure(DiskAfter(rs), e) { KeepsSureTwice(DiskAfter(rs), d, e); }
    }
  }

  /** Wherever power is lost in whatever sequence of writes, a record that comes back holds, complete and
      forced to disk, one of the texts written under its name. */
  lemma EveryRecordIsWhole(rs: seq<Request>, d: Disk, after: Disk, n: string)
    requires (d == EMPTY || d in Writes(rs)) && MayRestartAs(d, after) && Final(n) in after.entries
    ensures after.entries[Final(n)] in after.files
    ensures exists r :: r in rs && r.name == n && after.files[after.entries[Final(n)]] == P.File(r.text, true)
  {
    WritesAreSound(rs);
    RestartFindsWholeRecords(d, ToldBy(rs), after, n);
    var f := after.files[after.entries[Final(n)]];
    var r :| r in rs && (r.name, r.text) == (n, f.text);
    assert f == P.File(r.text, true);
  }

  /** Write k got as far as forcing the directory to disk, and name n was in it. */
  predicate Secures(rs: seq<Request>, k: nat, n: string)
    requires k < |rs|
  {
    && TakesItsName(DiskAfter(rs[..k]), rs[k].text, rs[k].calls) && SyncsDirectory(rs[k].calls)
    && Final(n) in DiskAfter(rs[..k + 1]).entries
  }

  ghost predicate Secured(rs: seq<Request>, n: string) {
    exists k :: 0 <= k < |rs| && Secures(rs, k, n)
  }

  /** At the end a record is sure to come back exactly when some write forced the directory to disk while
      the record was in it. */
  lemma {:induction false} SureIffSecured(rs: seq<Request>, n: string)
    ensures SurvivesPowerLoss(DiskAfter(rs), n) <==> Secured(rs, n)
  {
    hide InEveryVersion, SurvivesPowerLoss, Secured, Secures, Persist, TakesItsName;
    SurvivesIff(DiskAfter(rs), n);
    if rs == [] {
      NothingInEmpty(n);
      NothingSecured(n);
    } else {
      var front, r := rs[..|rs| - 1], rs[|rs| - 1];
      assert rs == front + [r];
      SureIffSecured(front, n);
      SurvivesIff(DiskAfter(front), n);
      LastWrite(front, r);
      SureAfterWriteIff(DiskAfter(front), r.name, r.text, r.calls, n);
      SecuredByOneMore(front, r, n);
    }
  }

  lemma SecuredByOneMore(rs: seq<Request>, r: Request, n: string)
    ensures Secured(rs + [r], n) <==>
            || Secured(rs, n)
            || (TakesItsName(DiskAfter(rs), r.text, r.calls) && SyncsDirectory(r.calls)
                && Final(n) in DiskAfter(rs + [r]).entries)
  {
    hide TakesItsName, DiskAfter;
    var all := rs + [r];
    assert all[..|rs|] == rs && all[..|rs| + 1] == all;
    assert Secures(all, |rs|, n) <==> TakesItsName(DiskAfter(rs), r.text, r.calls) && SyncsDirectory(r.calls)
                                      && Final(n) in DiskAfter(all).entries;
    forall k: nat | k < |rs| ensures Secures(all, k, n) <==> Secures(rs, k, n) {
      assert all[..k] == rs[..k] && all[..k + 1] == rs[..k + 1] && all[k] == rs[k];
    }
    if Secured(rs, n) {
      var k: nat :| k < |rs| && Secures(rs, k, n);
      assert Secures(all, k, n);
    }
  }

  lemma NothingSecured(n: string)
    ensures !Secured([], n)
  {
  }

  lemma NothingInEmpty(n: string)
    ensures !InEveryVersion(EMPTY, Final(n))
  {
    assert EMPTY.entries in Versions(EMPTY);
  }
}
