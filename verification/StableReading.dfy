/** `open_stable_source` and `hash_stable_file`: a file is streamed between four checkpoints while
    anybody may replace or rewrite it. Time passes with every call: the world may be any other one
    at the next instant. */
module StableReading {
  import opened PythonValues

  type Byte = x: int | 0 <= x < 256
  type ObjectId = nat

  datatype Mode = RegularFile | SymbolicLink | OtherMode

  /** A file-system object; ino and dev are 0 where the platform has none to report. */
  datatype Object = Object(mode: Mode, reparsePoint: bool, content: seq<Byte>, mtime: int, ino: nat, dev: nat)

  /** The world when a call is made: the object the path itself names, the object opening the path
      reaches, whether the call fails, and how many bytes a read hands over at most. */
  datatype Instant = Instant(
    objects: map<ObjectId, Object>, entry: Option<ObjectId>, target: Option<ObjectId>, fails: bool, most: nat)

  type History = nat -> Instant

  datatype Stat = Stat(mode: Mode, reparsePoint: bool, size: nat, mtime: int, ino: nat, dev: nat)

  datatype Fingerprint = Fingerprint(size: nat, mtime: int, ino: Option<nat>, dev: Option<nat>)

  datatype Outcome = Hashed(digest: string, size: nat) | PathError | UnsafeObject | SourceChanged

  function StatOf(o: Object): Stat {
    Stat(o.mode, o.reparsePoint, |o.content|, o.mtime, o.ino, o.dev)
  }

  /** `value or None`. */
  function NonZero(n: nat): Option<nat> {
    if n == 0 then None else Some(n)
  }

  function FingerprintOf(st: Stat): Fingerprint {
    Fingerprint(st.size, st.mtime, NonZero(st.ino), NonZero(st.dev))
  }

  predicate IsUnsafeLink(st: Stat) {
    st.mode == SymbolicLink || st.reparsePoint
  }

  predicate IsSafeRegular(st: Stat) {
    !IsUnsafeLink(st) && st.mode == RegularFile
  }

  // ---- the calls ----

  function Fstat(i: Instant, o: ObjectId): Option<Stat> {
    if i.fails || o !in i.objects then None else Some(StatOf(i.objects[o]))
  }

  function Lstat(i: Instant): Option<Stat> {
    if i.entry.None? then None else Fstat(i, i.entry.value)
  }

  function Open(i: Instant): Option<ObjectId> {
    if i.fails || i.target.None? || i.target.value !in i.objects then None else i.target
  }

  function Least(a: nat, b: nat): nat {
    if a < b then a else b
  }

  /** `fh.read(chunk)`: something of what is left, or nothing at the end of the file. */
  function Read(i: Instant, o: ObjectId, offset: nat, chunk: nat): Option<seq<Byte>>
    requires chunk > 0
  {
    if i.fails || o !in i.objects then None
    else
      var content := i.objects[o].content;
      if offset >= |content| then Some([])
      else
        var n := Least(Least(chunk, if i.most == 0 then 1 else i.most), |content| - offset);
        Some(content[offset..offset + n])
  }

  /** No file ever grows beyond the storage there is. */
  ghost predicate Bounded(h: History, capacity: nat) {
    forall t, o | o in h(t).objects :: |h(t).objects[o].content| <= capacity
  }

  // ---- the run ----

  datatype Streamed = Streamed(data: Option<seq<Byte>>, end: nat)

  ghost function Stream(h: History, capacity: nat, o: ObjectId, chunk: nat, offset: nat, t: nat): Streamed
    requires Bounded(h, capacity) && chunk > 0
    decreases if offset <= capacity then capacity - offset + 1 else 0
  {
    match Read(h(t), o, offset, chunk)
    case None => Streamed(None, t)
    case Some(bytes) =>
      if bytes == [] then Streamed(Some([]), t + 1)
      else After(bytes, Stream(h, capacity, o, chunk, offset + |bytes|, t + 1))
  }

  datatype Opened = Opened(o: ObjectId, before: Stat, first: Stat) | NotOpened(why: Outcome)

  /** The first two checkpoints, at instants start to start + 2. */
  function OpenChecked(h: History, start: nat): (r: Opened)
    ensures r.NotOpened? ==> !r.why.Hashed?
  {
    match Lstat(h(start))
    case None => NotOpened(PathError)
    case Some(before) =>
      if !IsSafeRegular(before) then NotOpened(UnsafeObject)
      else
        match Open(h(start + 1))
        case None => NotOpened(PathError)
        case Some(o) =>
          match Fstat(h(start + 2), o)
          case None => NotOpened(SourceChanged)
          case Some(first) =>
            if !IsSafeRegular(first) then NotOpened(UnsafeObject)
            else if FingerprintOf(before) != FingerprintOf(first) then NotOpened(SourceChanged)
            else Opened(o, before, first)
  }

  /** The last two checkpoints, at instants t and t + 1; None when both pass. */
  function CloseChecked(h: History, s: Opened, t: nat): (failed: Option<Outcome>)
    requires s.Opened?
    ensures failed.Some? ==> !failed.value.Hashed?
  {
    match Fstat(h(t), s.o)
    case None => Some(SourceChanged)
    case Some(streamed) =>
      if FingerprintOf(s.first) != FingerprintOf(streamed) then Some(SourceChanged)
      else
        match Lstat(h(t + 1))
        case None => Some(SourceChanged)
        case Some(after) =>
          if !IsSafeRegular(after) then Some(UnsafeObject)
          else if FingerprintOf(s.before) != FingerprintOf(after) then Some(SourceChanged)
          else None
  }

  ghost function Hash(h: History, capacity: nat, sha256: seq<Byte> -> string, chunk: nat, start: nat): Outcome
    requires Bounded(h, capacity) && chunk > 0
  {
    var s := OpenChecked(h, start);
    if s.NotOpened? then s.why
    else
      var streamed := Stream(h, capacity, s.o, chunk, 0, start + 3);
      if streamed.data.None? then PathError
      else
        var failed := CloseChecked(h, s, streamed.end);
        if failed.Some? then failed.value else Hashed(sha256(streamed.data.value), s.before.size)
  }

  method HashStableFile(h: History, ghost capacity: nat, sha256: seq<Byte> -> string, chunk: nat, start: nat) returns (r: Outcome)
    requires Bounded(h, capacity) && chunk > 0
    ensures r == Hash(h, capacity, sha256, chunk, start)
  {
    hide OpenChecked, CloseChecked, Stream;
    var s := OpenChecked(h, start);
    if s.NotOpened? { return s.why; }
    var streamed := StreamFile(h, capacity, s.o, chunk, start + 3);
    if streamed.data.None? { return PathError; }
    var failed := CloseChecked(h, s, streamed.end);
    return if failed.Some? then failed.value else Hashed(sha256(streamed.data.value), s.before.size);
  }

  /** The chunk loop as it runs; `digest.update` extends what has been hashed. */
  method StreamFile(h: History, ghost capacity: nat, o: ObjectId, chunk: nat, start: nat) returns (r: Streamed)
    requires Bounded(h, capacity) && chunk > 0
    ensures r == Stream(h, capacity, o, chunk, 0, start)
  {
    hide Read, Bounded;
    var digest: seq<Byte> := [];
    var t := start;
    AfterNothing(Stream(h, capacity, o, chunk, 0, start));
    while true
      invariant After(digest, Stream(h, capacity, o, chunk, |digest|, t)) == Stream(h, capacity, o, chunk, 0, start)
      decreases if |digest| <= capacity then capacity - |digest| + 1 else 0
    {
      var bytes := Read(h(t), o, |digest|, chunk);
      if bytes.None? { return Streamed(None, t); }
      if bytes.value == [] {
        assert digest + [] == digest;
        return Streamed(Some(digest), t + 1);
      }
      ReadMovesOn(h, capacity, o, |digest|, chunk, t);
      t := t + 1;
      AfterTwice(digest, bytes.value, Stream(h, capacity, o, chunk, |digest| + |bytes.value|, t));
      digest := digest + bytes.value;
    }
  }

  lemma ReadMovesOn(h: History, capacity: nat, o: ObjectId, offset: nat, chunk: nat, t: nat)
    requires Bounded(h, capacity) && chunk > 0
    ensures var bytes := Read(h(t), o, offset, chunk);
            bytes.Some? && bytes.value != [] ==> offset < capacity
  {
  }

  lemma AfterNothing(rest: Streamed)
    ensures After([], rest) == rest
  {
    if rest.data.Some? { assert [] + rest.data.value == rest.data.value; }
  }

  lemma AfterTwice(digest: seq<Byte>, bytes: seq<Byte>, rest: Streamed)
    ensures After(digest, After(bytes, rest)) == After(digest + bytes, rest)
  {
    if rest.data.Some? { assert digest + (bytes + rest.data.value) == digest + bytes + rest.data.value; }
  }

  function After(digest: seq<Byte>, rest: Streamed): Streamed {
    Streamed(if rest.data.None? then None else Some(digest + rest.data.value), rest.end)
  }

  // ---- what a digest means ----

  ghost predicate HasObject(h: History, t: nat, o: ObjectId) {
    o in h(t).objects
  }

  ghost function At(h: History, t: nat, o: ObjectId): Object
    requires HasObject(h, t, o)
  {
    h(t).objects[o]
  }

  /** What the checkpoints rely on: objects with one fingerprint at two instants are one object, which
      held the same content all the time from the one to the other. */
  ghost predicate FingerprintsIdentify(h: History, start: nat, end: nat) {
    forall s, t, o, q | start <= s <= t <= end && HasObject(h, s, o) && HasObject(h, t, q)
                     && FingerprintOf(StatOf(At(h, s, o))) == FingerprintOf(StatOf(At(h, t, q))) ::
      o == q && KeepsContent(h, s, t, o)
  }

  ghost predicate KeepsContent(h: History, s: nat, t: nat, o: ObjectId)
    requires HasObject(h, s, o)
  {
    forall r | s <= r <= t && HasObject(h, r, o) :: At(h, r, o).content == At(h, s, o).content
  }

  /** Streaming an object whose content does not change yields the rest of it, once. */
  lemma {:induction false} StreamsTheRest(
    h: History, capacity: nat, o: ObjectId, chunk: nat, offset: nat, t: nat, content: seq<Byte>)
    requires Bounded(h, capacity) && chunk > 0 && offset <= |content|
    requires Stream(h, capacity, o, chunk, offset, t).data.Some?
    requires forall r | t <= r <= Stream(h, capacity, o, chunk, offset, t).end && HasObject(h, r, o) ::
               At(h, r, o).content == content
    ensures Stream(h, capacity, o, chunk, offset, t).data == Some(content[offset..])
    ensures Stream(h, capacity, o, chunk, offset, t).end > t
    decreases |content| - offset
  {
    hide Read, Bounded, Stream;
    StreamStep(h, capacity, o, chunk, offset, t);
    var bytes := Read(h(t), o, offset, chunk).value;
    StreamEndsLater(h, capacity, o, chunk, offset, t);
    ReadSlices(h, o, chunk, offset, t, content);
    if bytes == [] {
      assert content[offset..] == [];
    } else {
      StreamEndsLater(h, capacity, o, chunk, offset + |bytes|, t + 1);
      StreamsTheRest(h, capacity, o, chunk, offset + |bytes|, t + 1, content);
      assert content[offset..] == bytes + content[offset + |bytes|..];
    }
  }

  lemma StreamStep(h: History, capacity: nat, o: ObjectId, chunk: nat, offset: nat, t: nat)
    requires Bounded(h, capacity) && chunk > 0
    ensures var bytes := Read(h(t), o, offset, chunk);
            Stream(h, capacity, o, chunk, offset, t) ==
              if bytes.None? then Streamed(None, t)
              else if bytes.value == [] then Streamed(Some([]), t + 1)
              else After(bytes.value, Stream(h, capacity, o, chunk, offset + |bytes.value|, t + 1))
  {
    hide Read;
  }

  lemma ReadSlices(h: History, o: ObjectId, chunk: nat, offset: nat, t: nat, content: seq<Byte>)
    requires chunk > 0 && offset <= |content| && Read(h(t), o, offset, chunk).Some?
    requires HasObject(h, t, o) ==> At(h, t, o).content == content
    ensures var bytes := Read(h(t), o, offset, chunk).value;
            && offset + |bytes| <= |content| && bytes == content[offset..offset + |bytes|]
            && (bytes == [] ==> offset == |content|)
  {
  }

  lemma {:induction false} StreamEndsLater(h: History, capacity: nat, o: ObjectId, chunk: nat, offset: nat, t: nat)
    requires Bounded(h, capacity) && chunk > 0
    ensures Stream(h, capacity, o, chunk, offset, t).end >= t
    ensures Stream(h, capacity, o, chunk, offset, t).data.Some? ==> Stream(h, capacity, o, chunk, offset, t).end > t
    decreases if offset <= capacity then capacity - offset + 1 else 0
  {
    var bytes := Read(h(t), o, offset, chunk);
    if bytes.Some? && bytes.value != [] {
      StreamEndsLater(h, capacity, o, chunk, offset + |bytes.value|, t + 1);
    }
  }

  /** The instant of the last checkpoint of a run. */
  ghost function LastCheckpoint(h: History, capacity: nat, chunk: nat, start: nat): nat
    requires Bounded(h, capacity) && chunk > 0 && OpenChecked(h, start).Opened?
  {
    Stream(h, capacity, OpenChecked(h, start).o, chunk, 0, start + 3).end + 1
  }

  /** At instant t the path itself names a plain regular file with that content. */
  ghost predicate PathHolds(h: History, t: nat, o: ObjectId, content: seq<Byte>) {
    && h(t).entry == Some(o) && HasObject(h, t, o) && At(h, t, o).content == content
    && IsSafeRegular(StatOf(At(h, t, o)))
  }

  /** A digest is that of one content, hashed whole and once: the path held it at the first and at the
      last checkpoint, in one and the same object, and the size that is returned is its length. */
  lemma DigestIsOfOneContent(
    h: History, capacity: nat, sha256: seq<Byte> -> string, chunk: nat, start: nat, digest: string, size: nat)
    returns (o: ObjectId, content: seq<Byte>)
    requires Bounded(h, capacity) && chunk > 0
    requires Hash(h, capacity, sha256, chunk, start) == Hashed(digest, size)
    requires FingerprintsIdentify(h, start, LastCheckpoint(h, capacity, chunk, start))
    ensures digest == sha256(content) && size == |content|
    ensures PathHolds(h, start, o, content)
    ensures PathHolds(h, LastCheckpoint(h, capacity, chunk, start), o, content)
    ensures KeepsContent(h, start, LastCheckpoint(h, capacity, chunk, start), o)
  {
    hide Stream, FingerprintsIdentify, KeepsContent, FingerprintOf, OpenChecked;
    var s := OpenChecked(h, start);
    o := s.o;
    var streamed := Stream(h, capacity, o, chunk, 0, start + 3);
    var end := streamed.end + 1;
    StreamEndsLater(h, capacity, o, chunk, 0, start + 3);
    OpenedMeans(h, start);
    SameAtCheckpoints(h, start, start, h(start).entry.value, start + 2, o, end);
    content := At(h, start, o).content;
    SameAtCheckpoints(h, start, start, o, end, h(end).entry.value, end);
    StreamedWhileKept(h, capacity, o, chunk, start, content);
  }

  lemma OpenedMeans(h: History, start: nat)
    requires OpenChecked(h, start).Opened?
    ensures var s := OpenChecked(h, start);
            && h(start).entry.Some? && HasObject(h, start, h(start).entry.value) && HasObject(h, start + 2, s.o)
            && s.before == StatOf(At(h, start, h(start).entry.value)) && IsSafeRegular(s.before)
            && s.first == StatOf(At(h, start + 2, s.o)) && FingerprintOf(s.before) == FingerprintOf(s.first)
  {
  }

  lemma StreamedWhileKept(h: History, capacity: nat, o: ObjectId, chunk: nat, start: nat, content: seq<Byte>)
    requires Bounded(h, capacity) && chunk > 0 && Stream(h, capacity, o, chunk, 0, start + 3).data.Some?
    requires HasObject(h, start, o) && At(h, start, o).content == content
    requires KeepsContent(h, start, Stream(h, capacity, o, chunk, 0, start + 3).end + 1, o)
    ensures Stream(h, capacity, o, chunk, 0, start + 3).data == Some(content)
  {
    hide Stream;
    StreamsTheRest(h, capacity, o, chunk, 0, start + 3, content);
    assert content[0..] == content;
  }

  lemma SameAtCheckpoints(h: History, start: nat, s: nat, o: ObjectId, t: nat, q: ObjectId, end: nat)
    requires FingerprintsIdentify(h, start, end) && start <= s <= t <= end
    requires HasObject(h, s, o) && HasObject(h, t, q)
    requires FingerprintOf(StatOf(At(h, s, o))) == FingerprintOf(StatOf(At(h, t, q)))
    ensures o == q && KeepsContent(h, s, t, o)
  {
  }

  // ---- when fingerprints identify ----

  /** The platform reports inode numbers, and never one pair of device and inode for two objects. */
  ghost predicate UniqueIdentity(h: History, start: nat, end: nat) {
    forall s, t, o, q | start <= s <= t <= end && HasObject(h, s, o) && HasObject(h, t, q)
                     && At(h, s, o).ino == At(h, t, q).ino && At(h, s, o).dev == At(h, t, q).dev :: o == q
  }

  ghost predicate InodesReported(h: History, start: nat, end: nat) {
    forall t, o | start <= t <= end && HasObject(h, t, o) :: At(h, t, o).ino != 0 && At(h, t, o).dev != 0
  }

  /** Modification times never go back, and a file that holds something else has a later one. */
  ghost predicate TimesTellChanges(h: History, start: nat, end: nat) {
    forall s, t, o | start <= s <= t <= end && HasObject(h, s, o) && HasObject(h, t, o) ::
      && At(h, s, o).mtime <= At(h, t, o).mtime
      && (At(h, s, o).content != At(h, t, o).content ==> At(h, s, o).mtime < At(h, t, o).mtime)
  }

  /** What the checkpoints rely on follows from how file systems keep identities and times. */
  lemma FingerprintsIdentifyFiles(h: History, start: nat, end: nat)
    requires UniqueIdentity(h, start, end) && InodesReported(h, start, end) && TimesTellChanges(h, start, end)
    ensures FingerprintsIdentify(h, start, end)
  {
    forall s, t, o, q | start <= s <= t <= end && HasObject(h, s, o) && HasObject(h, t, q)
                     && FingerprintOf(StatOf(At(h, s, o))) == FingerprintOf(StatOf(At(h, t, q)))
      ensures o == q && KeepsContent(h, s, t, o)
    {
      assert At(h, s, o).ino == At(h, t, q).ino && At(h, s, o).dev == At(h, t, q).dev;
      forall r | s <= r <= t && HasObject(h, r, o) ensures At(h, r, o).content == At(h, s, o).content {
        assert At(h, s, o).mtime <= At(h, r, o).mtime <= At(h, t, o).mtime;
      }
    }
  }

  /** The same for a digest: under those two laws it is of one content the path held all along. */
  lemma DigestUnderFileSystemLaws(
    h: History, capacity: nat, sha256: seq<Byte> -> string, chunk: nat, start: nat, digest: string, size: nat)
    returns (o: ObjectId, content: seq<Byte>)
    requires Bounded(h, capacity) && chunk > 0
    requires Hash(h, capacity, sha256, chunk, start) == Hashed(digest, size)
    requires var end := LastCheckpoint(h, capacity, chunk, start);
             UniqueIdentity(h, start, end) && InodesReported(h, start, end) && TimesTellChanges(h, start, end)
    ensures digest == sha256(content) && size == |content|
    ensures PathHolds(h, start, o, content)
    ensures PathHolds(h, LastCheckpoint(h, capacity, chunk, start), o, content)
  {
    FingerprintsIdentifyFiles(h, start, LastCheckpoint(h, capacity, chunk, start));
    o, content := DigestIsOfOneContent(h, capacity, sha256, chunk, start, digest, size);
  }

  // ---- a world that stands still ----

  /** The path names one plain file with that content throughout and no call fails. */
  ghost predicate Still(h: History, start: nat, o: ObjectId, file: Object) {
    && IsSafeRegular(StatOf(file))
    && forall t | t >= start ::
         h(t).entry == Some(o) && h(t).target == Some(o) && !h(t).fails && HasObject(h, t, o) && At(h, t, o) == file
  }

  lemma {:induction false} StillStreams(
    h: History, capacity: nat, o: ObjectId, file: Object, chunk: nat, offset: nat, start: nat, t: nat)
    requires Bounded(h, capacity) && chunk > 0 && Still(h, start, o, file) && t >= start && offset <= |file.content|
    ensures Stream(h, capacity, o, chunk, offset, t).data.Some?
    decreases |file.content| - offset
  {
    hide Bounded, Stream;
    assert HasObject(h, t, o) && At(h, t, o) == file;
    var bytes := Read(h(t), o, offset, chunk).value;
    StreamStep(h, capacity, o, chunk, offset, t);
    if bytes != [] { StillStreams(h, capacity, o, file, chunk, offset + |bytes|, start, t + 1); }
  }

  /** A file nobody touches is hashed. */
  lemma StillFileIsHashed(
    h: History, capacity: nat, sha256: seq<Byte> -> string, chunk: nat, start: nat, o: ObjectId, file: Object)
    requires Bounded(h, capacity) && chunk > 0 && Still(h, start, o, file)
    ensures Hash(h, capacity, sha256, chunk, start) == Hashed(sha256(file.content), |file.content|)
  {
    hide Bounded, Stream;
    forall t | t >= start ensures Lstat(h(t)) == Some(StatOf(file)) && Fstat(h(t), o) == Some(StatOf(file)) && Open(h(t)) == Some(o) {
      assert HasObject(h, t, o) && At(h, t, o) == file;
    }
    StillStreams(h, capacity, o, file, chunk, 0, start, start + 3);
    StreamEndsLater(h, capacity, o, chunk, 0, start + 3);
    assert HasObject(h, start, o) && At(h, start, o) == file;
    StreamedWhileKept(h, capacity, o, chunk, start, file.content);
  }

  // ---- why the content has to be constant in between ----

  /** Equal fingerprints mean the same object and, at those two instants only, the same content. */
  ghost predicate FingerprintsIdentifyInstants(h: History, start: nat, end: nat) {
    forall s, t, o, q | start <= s <= t <= end && HasObject(h, s, o) && HasObject(h, t, q)
                     && FingerprintOf(StatOf(At(h, s, o))) == FingerprintOf(StatOf(At(h, t, q))) ::
      o == q && At(h, s, o).content == At(h, t, q).content
  }

  function File(content: seq<Byte>, mtime: int): Object {
    Object(RegularFile, false, content, mtime, 7, 1)
  }

  /** A file rewritten between two reads and put back, time stamp and all, before the next checkpoint. */
  function PutBack(t: nat): Instant {
    Instant(map[0 := if t == 4 then File([2, 2], 1) else File([1, 1], 0)], Some(0), Some(0), false, 1)
  }

  /** If a fingerprint only vouched for the instants it was taken at, a digest could be that of a
      mixture the path never held. */
  lemma PutBackIsMissed(sha256: seq<Byte> -> string)
    ensures Bounded(PutBack, 2) && FingerprintsIdentifyInstants(PutBack, 0, 7)
    ensures Hash(PutBack, 2, sha256, 1, 0) == Hashed(sha256([1, 2]), 2)
    ensures LastCheckpoint(PutBack, 2, 1, 0) == 7
    ensures forall t | HasObject(PutBack, t, 0) :: At(PutBack, t, 0).content != [1, 2]
  {
    hide Stream, Read;
    PutBackStreams();
  }

  lemma PutBackStreams()
    ensures Bounded(PutBack, 2)
    ensures Stream(PutBack, 2, 0, 1, 0, 3) == Streamed(Some([1, 2]), 6)
  {
    hide Stream;
    var original: seq<Byte>, rewritten: seq<Byte> := [1, 1], [2, 2];
    assert original[0..1] == [1] && rewritten[1..2] == [2];
    assert Read(PutBack(3), 0, 0, 1) == Some([1]);
    assert Read(PutBack(4), 0, 1, 1) == Some([2]);
    assert Read(PutBack(5), 0, 2, 1) == Some([]);
    hide Read;
    StreamStep(PutBack, 2, 0, 1, 0, 3);
    StreamStep(PutBack, 2, 0, 1, 1, 4);
    StreamStep(PutBack, 2, 0, 1, 2, 5);
    assert [1] + ([2] + []) == [1, 2];
  }
}
