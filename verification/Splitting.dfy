/** `str.split(sep)`, `str.split(sep, maxsplit)` and `sep.join(parts)` for a one-character separator. */
module Splitting {

  predicate Without(s: string, sep: char) {
    forall i | 0 <= i < |s| :: s[i] != sep
  }

  function FirstAt(s: string, sep: char): (i: nat)
    ensures i <= |s| && Without(s[..i], sep)
    ensures i < |s| ==> s[i] == sep
  {
    if s == [] || s[0] == sep then 0
    else
      var i := FirstAt(s[1..], sep);
      assert s[..i + 1] == [s[0]] + s[1..][..i];
      i + 1
  }

  /** `s.split(sep, most)`. */
  function SplitAtMost(s: string, sep: char, most: nat): (parts: seq<string>)
    ensures 1 <= |parts| <= most + 1
  {
    var i := FirstAt(s, sep);
    if most == 0 || i == |s| then [s] else [s[..i]] + SplitAtMost(s[i + 1..], sep, most - 1)
  }

  /** `s.split(sep)`. */
  function Split(s: string, sep: char): (parts: seq<string>)
    ensures |parts| >= 1
    decreases |s|
  {
    var i := FirstAt(s, sep);
    if i == |s| then [s] else [s[..i]] + Split(s[i + 1..], sep)
  }

  /** `sep.join(parts)`. */
  function Join(parts: seq<string>, sep: char): string {
    if parts == [] then ""
    else if |parts| == 1 then parts[0]
    else parts[0] + [sep] + Join(parts[1..], sep)
  }

  predicate AllWithout(parts: seq<string>, sep: char) {
    forall i | 0 <= i < |parts| :: Without(parts[i], sep)
  }

  predicate AllButLastWithout(parts: seq<string>, sep: char) {
    forall i | 0 <= i < |parts| - 1 :: Without(parts[i], sep)
  }

  lemma FirstAtEndOfPart(part: string, sep: char, rest: string)
    requires Without(part, sep)
    ensures FirstAt(part, sep) == |part|
    ensures FirstAt(part + [sep] + rest, sep) == |part|
  {
    var s := part + [sep] + rest;
    var i := FirstAt(s, sep);
    assert s[|part|] == sep;
    assert i <= |part| by {
      assert forall k | 0 <= k < i :: s[k] == s[..i][k];
    }
  }

  lemma JoinCons(part: string, parts: seq<string>, sep: char)
    requires parts != []
    ensures Join([part] + parts, sep) == part + [sep] + Join(parts, sep)
  {
    assert ([part] + parts)[1..] == parts;
  }

  lemma WithoutCons(part: string, parts: seq<string>, sep: char)
    requires parts != [] && Without(part, sep)
    ensures AllWithout([part] + parts, sep) == AllWithout(parts, sep)
    ensures AllButLastWithout([part] + parts, sep) == AllButLastWithout(parts, sep)
  {
    hide Without;
    var all := [part] + parts;
    assert forall i | 0 <= i < |parts| :: all[i + 1] == parts[i];
    assert forall i | 0 < i < |all| :: all[i] == parts[i - 1];
  }

  lemma CutAtFirst(s: string, sep: char, i: nat)
    requires i == FirstAt(s, sep) && i < |s|
    ensures Without(s[..i], sep) && s == s[..i] + [sep] + s[i + 1..]
  {
  }

  lemma {:induction false} JoinOfSplitAtMost(s: string, sep: char, most: nat)
    ensures Join(SplitAtMost(s, sep, most), sep) == s
    ensures AllButLastWithout(SplitAtMost(s, sep, most), sep)
    ensures |SplitAtMost(s, sep, most)| <= most ==> AllWithout(SplitAtMost(s, sep, most), sep)
  {
    hide Without, FirstAt, Join;
    var i := FirstAt(s, sep);
    if most == 0 || i == |s| {
      assert s[..i] == s || most == 0;
      JoinSingle(s, sep);
    } else {
      CutAtFirst(s, sep, i);
      var rest := SplitAtMost(s[i + 1..], sep, most - 1);
      assert SplitAtMost(s, sep, most) == [s[..i]] + rest;
      JoinOfSplitAtMost(s[i + 1..], sep, most - 1);
      JoinCons(s[..i], rest, sep);
      WithoutCons(s[..i], rest, sep);
    }
  }

  lemma JoinSingle(s: string, sep: char)
    ensures Join([s], sep) == s
  {
  }

  lemma SplitAtMostCons(part: string, rest: string, sep: char, most: nat)
    requires Without(part, sep)
    ensures SplitAtMost(part + [sep] + rest, sep, most + 1) == [part] + SplitAtMost(rest, sep, most)
  {
    hide Without;
    var s := part + [sep] + rest;
    FirstAtEndOfPart(part, sep, rest);
    assert s[..|part|] == part && s[|part| + 1..] == rest;
  }

  lemma {:induction false} SplitAtMostOfJoin(parts: seq<string>, sep: char)
    requires parts != [] && AllButLastWithout(parts, sep)
    ensures SplitAtMost(Join(parts, sep), sep, |parts| - 1) == parts
  {
    hide Without, SplitAtMost, Join;
    if |parts| == 1 {
      SplitSinglePart(parts[0], sep);
      assert parts == [parts[0]];
    } else {
      assert parts == [parts[0]] + parts[1..];
      assert Without(parts[0], sep);
      WithoutCons(parts[0], parts[1..], sep);
      JoinCons(parts[0], parts[1..], sep);
      SplitAtMostCons(parts[0], Join(parts[1..], sep), sep, |parts| - 2);
      SplitAtMostOfJoin(parts[1..], sep);
    }
  }

  lemma SplitSinglePart(part: string, sep: char)
    ensures SplitAtMost(Join([part], sep), sep, 0) == [part]
  {
  }

  lemma {:induction false} JoinOfSplit(s: string, sep: char)
    ensures Join(Split(s, sep), sep) == s && AllWithout(Split(s, sep), sep)
    decreases |s|
  {
    hide Without;
    var i := FirstAt(s, sep);
    if i == |s| {
      assert s[..i] == s;
    } else {
      var rest := Split(s[i + 1..], sep);
      JoinOfSplit(s[i + 1..], sep);
      JoinCons(s[..i], rest, sep);
      WithoutCons(s[..i], rest, sep);
      assert s == s[..i] + [sep] + s[i + 1..];
    }
  }

  lemma {:induction false} SplitOfJoin(parts: seq<string>, sep: char)
    requires parts != [] && AllWithout(parts, sep)
    ensures Split(Join(parts, sep), sep) == parts
  {
    hide Without;
    assert Without(parts[0], sep);
    FirstAtEndOfPart(parts[0], sep, "");
    if |parts| > 1 {
      assert parts == [parts[0]] + parts[1..];
      WithoutCons(parts[0], parts[1..], sep);
      var rest := Join(parts[1..], sep);
      FirstAtEndOfPart(parts[0], sep, rest);
      SplitOfJoin(parts[1..], sep);
      var s := Join(parts, sep);
      assert s[..|parts[0]|] == parts[0] && s[|parts[0]| + 1..] == rest;
    }
  }
}
