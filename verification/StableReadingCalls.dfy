/** How hashing a stable file ends, told call by call from what the world shows. */
module StableReadingCalls {
  import opened PythonValues
  import opened StableReading

  /** Asking for the path itself, and asking for an open file, works. */
  predicate PathAnswers(i: Instant) {
    !i.fails && i.entry.Some? && i.entry.value in i.objects
  }

  predicate Answers(i: Instant, o: ObjectId) {
    !i.fails && o in i.objects
  }

  predicate Opens(i: Instant) {
    !i.fails && i.target.Some? && i.target.value in i.objects
  }

  predicate IsPlain(x: Object) {
    x.mode == RegularFile && !x.reparsePoint
  }

  /** Size, time of modification and identity agree. */
  predicate Alike(x: Object, y: Object) {
    |x.content| == |y.content| && x.mtime == y.mtime && x.ino == y.ino && x.dev == y.dev
  }

  lemma AlikeRead(x: Object, y: Object)
    ensures FingerprintOf(StatOf(x)) == FingerprintOf(StatOf(y)) <==> Alike(x, y)
  {
  }

  /** How the first three calls end: the first that goes wrong decides. */
  lemma OpeningEnds(h: History, start: nat)
    ensures var r := OpenChecked(h, start);
            if !PathAnswers(h(start)) then r == NotOpened(PathError)
            else
              var x := h(start).objects[h(start).entry.value];
              if !IsPlain(x) then r == NotOpened(UnsafeObject)
              else if !Opens(h(start + 1)) then r == NotOpened(PathError)
              else
                var o := h(start + 1).target.value;
                if !Answers(h(start + 2), o) then r == NotOpened(SourceChanged)
                else
                  var y := h(start + 2).objects[o];
                  if !IsPlain(y) then r == NotOpened(UnsafeObject)
                  else if !Alike(x, y) then r == NotOpened(SourceChanged)
                  else r == Opened(o, StatOf(x), StatOf(y))
  {
    hide FingerprintOf;
    forall x, y ensures FingerprintOf(StatOf(x)) == FingerprintOf(StatOf(y)) <==> Alike(x, y) { AlikeRead(x, y); }
  }

  /** How the last two calls end, once the file has been read to its end. */
  lemma ClosingEnds(h: History, x: Object, y: Object, o: ObjectId, t: nat)
    ensures var r := CloseChecked(h, Opened(o, StatOf(x), StatOf(y)), t);
            if !Answers(h(t), o) || !Alike(y, h(t).objects[o]) || !PathAnswers(h(t + 1)) then r == Some(SourceChanged)
            else
              var z := h(t + 1).objects[h(t + 1).entry.value];
              if !IsPlain(z) then r == Some(UnsafeObject)
              else if !Alike(x, z) then r == Some(SourceChanged)
              else r == None
  {
    hide FingerprintOf;
    forall x, y ensures FingerprintOf(StatOf(x)) == FingerprintOf(StatOf(y)) <==> Alike(x, y) { AlikeRead(x, y); }
  }

  /** The bytes of a file read to its end from offset on, instant by instant from t; no call fails, and the
      first read that gets nothing is at instant end. */
  ghost predicate ReadsTo(h: History, o: ObjectId, offset: nat, t: nat, data: seq<Byte>, end: nat)
    decreases |data|
  {
    && Answers(h(t), o)
    && var content := h(t).objects[o].content;
       if offset >= |content| then data == [] && end == t
       else
         exists n :: 0 < n <= |content| - offset && n <= |data| && data[..n] == content[offset..offset + n]
                     && ReadsTo(h, o, offset + n, t + 1, data[n..], end)
  }

  lemma OneRead(i: Instant, o: ObjectId, offset: nat, chunk: nat)
    requires chunk > 0
    ensures Read(i, o, offset, chunk).Some? <==> Answers(i, o)
    ensures Read(i, o, offset, chunk).Some? ==>
              var bytes, content := Read(i, o, offset, chunk).value, i.objects[o].content;
              && (bytes == [] <==> offset >= |content|)
              && (bytes != [] ==> |bytes| <= |content| - offset && bytes == content[offset..offset + |bytes|])
  {
  }

  lemma {:induction false} StreamReads(h: History, capacity: nat, o: ObjectId, chunk: nat, offset: nat, t: nat)
    requires Bounded(h, capacity) && chunk > 0 && Stream(h, capacity, o, chunk, offset, t).data.Some?
    ensures var s := Stream(h, capacity, o, chunk, offset, t);
            s.end > t && ReadsTo(h, o, offset, t, s.data.value, s.end - 1)
    decreases if offset <= capacity then capacity - offset + 1 else 0
  {
    hide Bounded, Read, Answers;
    OneRead(h(t), o, offset, chunk);
    var bytes := Read(h(t), o, offset, chunk).value;
    if bytes != [] {
      ReadMovesOn(h, capacity, o, offset, chunk, t);
      StreamReads(h, capacity, o, chunk, offset + |bytes|, t + 1);
      var rest := Stream(h, capacity, o, chunk, offset + |bytes|, t + 1);
      var data := bytes + rest.data.value;
      assert data[..|bytes|] == bytes && data[|bytes|..] == rest.data.value;
    }
  }

  /** A digest means all of this: four looks that all find one and the same plain file, as far as size, time
      and identity tell, and in between its bytes read through to the end; it is the digest of those bytes,
      with the size seen first. */
  lemma HashedMeans(h: History, capacity: nat, sha256: seq<Byte> -> string, chunk: nat, start: nat, digest: string, size: nat)
    returns (o: ObjectId, data: seq<Byte>, end: nat)
    requires Bounded(h, capacity) && chunk > 0
    requires Hash(h, capacity, sha256, chunk, start) == Hashed(digest, size)
    ensures digest == sha256(data) && ReadsTo(h, o, 0, start + 3, data, end)
    ensures PathAnswers(h(start)) && Opens(h(start + 1)) && h(start + 1).target == Some(o) && Answers(h(start + 2), o)
    ensures Answers(h(end + 1), o) && PathAnswers(h(end + 2))
    ensures var x, y := h(start).objects[h(start).entry.value], h(start + 2).objects[o];
            var z, w := h(end + 1).objects[o], h(end + 2).objects[h(end + 2).entry.value];
            && IsPlain(x) && IsPlain(y) && IsPlain(w) && Alike(x, y) && Alike(y, z) && Alike(x, w) && size == |x.content|
  {
    hide OpenChecked, CloseChecked, Stream, Bounded, FingerprintOf, ReadsTo, Alike, IsPlain;
    OpeningEnds(h, start);
    var s := OpenChecked(h, start);
    o := s.o;
    var streamed := Stream(h, capacity, o, chunk, 0, start + 3);
    StreamReads(h, capacity, o, chunk, 0, start + 3);
    data, end := streamed.data.value, streamed.end - 1;
    var x, y := h(start).objects[h(start).entry.value], h(start + 2).objects[o];
    ClosingEnds(h, x, y, o, streamed.end);
  }
}
