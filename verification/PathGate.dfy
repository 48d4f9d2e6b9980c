/** `_validate_canonical_closure_path`: which closure-document paths may be handed to git. */
module PathGate {
  import opened Splitting
  import T = Text

  datatype Refusal =
    | EmptyPath | NulCharacter | Backslash | LeadingColon | LeadingDash | AbsolutePath | DriveQualified
    | TrailingSlash | DoubleSlash | EmptySegment | DotSegment | DotDotSegment | NeedsNormalization

  datatype Answer = Accepted | Refused(why: Refusal)

  predicate IsLetter(c: char) {
    'a' <= c <= 'z' || 'A' <= c <= 'Z'
  }

  predicate HasDoubleSlash(path: string) {
    exists i :: 0 < i < |path| && path[i - 1] == '/' && path[i] == '/'
  }

  // ---- posixpath.normpath ----

  /** The component list normpath has built from the parts so far. */
  function Kept(parts: seq<string>, absolute: bool): seq<string> {
    if parts == [] then []
    else
      var kept, part := Kept(parts[..|parts| - 1], absolute), parts[|parts| - 1];
      if part == "" || part == "." then kept
      else if part != ".." || (!absolute && kept == []) || (kept != [] && kept[|kept| - 1] == "..") then kept + [part]
      else if kept != [] then kept[..|kept| - 1]
      else kept
  }

  /** The number of slashes normpath puts in front: exactly two leading slashes are kept. */
  function LeadingSlashes(path: string): nat {
    if !T.StartsWith(path, "/") then 0
    else if T.StartsWith(path, "//") && !T.StartsWith(path, "///") then 2
    else 1
  }

  function NormPath(path: string): string {
    if path == "" then "."
    else
      var slashes := LeadingSlashes(path);
      var body := Join(Kept(Split(path, '/'), slashes > 0), '/');
      var whole := (if slashes == 2 then "//" else if slashes == 1 then "/" else "") + body;
      if whole == "" then "." else whole
  }

  // ---- the gate ----

  function Validate(path: string): Answer {
    if path == "" then Refused(EmptyPath)
    else if !Without(path, '\0') then Refused(NulCharacter)
    else if !Without(path, '\\') then Refused(Backslash)
    else if T.StartsWith(path, ":") then Refused(LeadingColon)
    else if T.StartsWith(path, "-") then Refused(LeadingDash)
    else if T.StartsWith(path, "/") then Refused(AbsolutePath)
    else if |path| >= 2 && path[1] == ':' && IsLetter(path[0]) then Refused(DriveQualified)
    else if path[|path| - 1] == '/' then Refused(TrailingSlash)
    else if HasDoubleSlash(path) then Refused(DoubleSlash)
    else
      var segments := Split(path, '/');
      if "" in segments then Refused(EmptySegment)
      else if "." in segments then Refused(DotSegment)
      else if ".." in segments then Refused(DotDotSegment)
      else if NormPath(path) != path then Refused(NeedsNormalization)
      else Accepted
  }

  /** The characters and prefixes the gate excludes, whatever the segments. */
  predicate HasNoSpecials(path: string) {
    && Without(path, '\0') && Without(path, '\\')
    && !T.StartsWith(path, ":") && !T.StartsWith(path, "-")
    && !(|path| >= 2 && path[1] == ':' && ('a' <= path[0] <= 'z' || 'A' <= path[0] <= 'Z'))
  }

  predicate IsSegment(s: string) {
    s != "" && s != "." && s != ".." && Without(s, '/')
  }

  predicate AreSegments(segments: seq<string>) {
    segments != [] && forall i | 0 <= i < |segments| :: IsSegment(segments[i])
  }

  // ---- what is accepted ----

  lemma {:induction false} SegmentsAreKept(segments: seq<string>, absolute: bool)
    requires forall i | 0 <= i < |segments| :: IsSegment(segments[i])
    ensures Kept(segments, absolute) == segments
  {
    if segments != [] {
      SegmentsAreKept(segments[..|segments| - 1], absolute);
      assert segments == segments[..|segments| - 1] + [segments[|segments| - 1]];
    }
  }

  lemma JoinStartsLikeFirst(segments: seq<string>)
    requires AreSegments(segments)
    ensures Join(segments, '/') != "" && Join(segments, '/')[0] == segments[0][0] != '/'
  {
    assert IsSegment(segments[0]);
  }

  lemma {:induction false} JoinEndsLikeLast(segments: seq<string>)
    requires AreSegments(segments)
    ensures Join(segments, '/') != "" && Join(segments, '/')[|Join(segments, '/')| - 1] != '/'
    ensures !HasDoubleSlash(Join(segments, '/'))
  {
    var first := segments[0];
    assert IsSegment(first);
    if |segments| > 1 {
      assert AreSegments(segments[1..]);
      JoinEndsLikeLast(segments[1..]);
      JoinStartsLikeFirst(segments[1..]);
      var rest := Join(segments[1..], '/');
      var path := Join(segments, '/');
      assert path == first + ['/'] + rest;
      forall i | 0 < i < |path| ensures !(path[i - 1] == '/' && path[i] == '/') {
        if i > |first| + 1 {
          assert path[i - 1] == rest[i - |first| - 2] && path[i] == rest[i - |first| - 1];
        }
      }
    }
  }

  /** Once the segments are what they should be, normpath changes nothing: the gate's last check
      never refuses a path on its own. */
  lemma NormPathKeepsSegments(segments: seq<string>)
    requires AreSegments(segments)
    ensures NormPath(Join(segments, '/')) == Join(segments, '/')
  {
    hide Join, Split, Kept;
    var path := Join(segments, '/');
    JoinStartsLikeFirst(segments);
    assert AllWithout(segments, '/') by {
      forall i | 0 <= i < |segments| ensures Without(segments[i], '/') { assert IsSegment(segments[i]); }
    }
    SplitOfJoin(segments, '/');
    SegmentsAreKept(segments, false);
    assert LeadingSlashes(path) == 0;
    assert "" + path == path;
  }

  lemma NormalizationIsNeverNeeded(path: string)
    ensures Validate(path) != Refused(NeedsNormalization)
  {
    var segments := Split(path, '/');
    JoinOfSplit(path, '/');
    if "" !in segments && "." !in segments && ".." !in segments {
      forall i | 0 <= i < |segments| ensures IsSegment(segments[i]) {
        assert segments[i] in segments && Without(segments[i], '/');
      }
      NormPathKeepsSegments(segments);
    }
  }

  lemma SegmentsAreAccepted(segments: seq<string>)
    requires AreSegments(segments) && HasNoSpecials(Join(segments, '/'))
    ensures Validate(Join(segments, '/')) == Accepted
  {
    hide NormPath, HasDoubleSlash;
    var path := Join(segments, '/');
    JoinStartsLikeFirst(segments);
    JoinEndsLikeLast(segments);
    assert AllWithout(segments, '/') by {
      forall i | 0 <= i < |segments| ensures Without(segments[i], '/') { assert IsSegment(segments[i]); }
    }
    SplitOfJoin(segments, '/');
    NormPathKeepsSegments(segments);
    forall s | s in segments ensures IsSegment(s) {
      var i :| 0 <= i < |segments| && segments[i] == s;
    }
  }

  /** A path passes exactly when it joins segments none of which is empty, `.` or `..`, and holds none
      of the excluded characters and prefixes. */
  lemma AcceptedIff(path: string)
    ensures Validate(path) == Accepted <==>
            HasNoSpecials(path) && exists segments :: AreSegments(segments) && path == Join(segments, '/')
  {
    hide NormPath, HasDoubleSlash, Join, Split, Without;
    if Validate(path) == Accepted {
      var segments := Split(path, '/');
      JoinOfSplit(path, '/');
      forall i | 0 <= i < |segments| ensures IsSegment(segments[i]) {
        assert segments[i] in segments && Without(segments[i], '/');
      }
      assert AreSegments(segments) && path == Join(segments, '/');
    }
    forall segments | AreSegments(segments) && path == Join(segments, '/') && HasNoSpecials(path)
      ensures Validate(path) == Accepted
    {
      SegmentsAreAccepted(segments);
    }
  }

  // ---- where an accepted path leads ----

  /** The components that base/path names, with `.` dropped and `..` resolved. */
  function Resolve(base: seq<string>, path: string): seq<string> {
    Descend(base, Split(path, '/'))
  }

  function Descend(base: seq<string>, parts: seq<string>): seq<string> {
    if parts == [] then base
    else
      var here, part := Descend(base, parts[..|parts| - 1]), parts[|parts| - 1];
      if part == "" || part == "." then here
      else if part == ".." then (if here == [] then [] else here[..|here| - 1])
      else here + [part]
  }

  lemma {:induction false} SegmentsDescend(base: seq<string>, segments: seq<string>)
    requires forall i | 0 <= i < |segments| :: IsSegment(segments[i])
    ensures Descend(base, segments) == base + segments
  {
    if segments != [] {
      SegmentsDescend(base, segments[..|segments| - 1]);
      assert segments == segments[..|segments| - 1] + [segments[|segments| - 1]];
    }
  }

  lemma AcceptedResolves(base: seq<string>, path: string)
    requires Validate(path) == Accepted
    ensures Resolve(base, path) == base + Split(path, '/') && Split(path, '/') != []
    ensures Join(Split(path, '/'), '/') == path
  {
    hide NormPath, HasDoubleSlash, Join, Split, Without;
    var segments := Split(path, '/');
    JoinOfSplit(path, '/');
    forall i | 0 <= i < |segments| ensures IsSegment(segments[i]) {
      assert segments[i] in segments && Without(segments[i], '/');
    }
    SegmentsDescend(base, segments);
  }

  /** An accepted path leads to a place strictly below the repository, and no two lead to the same. */
  lemma AcceptedPathsStayInside(base: seq<string>, path: string, other: string)
    requires Validate(path) == Accepted
    ensures base < Resolve(base, path)
    ensures Validate(other) == Accepted && Resolve(base, other) == Resolve(base, path) ==> other == path
  {
    AcceptedResolves(base, path);
    if Validate(other) == Accepted && Resolve(base, other) == Resolve(base, path) {
      AcceptedResolves(base, other);
      assert Split(path, '/') == (base + Split(path, '/'))[|base|..];
      assert Split(other, '/') == (base + Split(other, '/'))[|base|..];
    }
  }

  /** What each refusal says of the path is true of it. */
  lemma RefusalsAreTrue(path: string)
    requires Validate(path).Refused?
    ensures match Validate(path).why
            case EmptyPath => path == ""
            case NulCharacter => exists i :: 0 <= i < |path| && path[i] == '\0'
            case Backslash => exists i :: 0 <= i < |path| && path[i] == '\\'
            case LeadingColon => path != "" && path[0] == ':'
            case LeadingDash => path != "" && path[0] == '-'
            case AbsolutePath => path != "" && path[0] == '/'
            case DriveQualified => |path| >= 2 && ('a' <= path[0] <= 'z' || 'A' <= path[0] <= 'Z') && path[1] == ':'
            case TrailingSlash => path != "" && path[|path| - 1] == '/'
            case DoubleSlash => exists i :: 0 <= i < |path| - 1 && path[i] == '/' && path[i + 1] == '/'
            case EmptySegment => "" in Split(path, '/')
            case DotSegment => "." in Split(path, '/')
            case DotDotSegment => ".." in Split(path, '/')
            case NeedsNormalization => false
  {
    hide NormPath, Split, Kept;
    NormalizationIsNeverNeeded(path);
    if HasDoubleSlash(path) {
      var i :| 0 < i < |path| && path[i - 1] == '/' && path[i] == '/';
      assert path[i - 1] == '/' && path[i - 1 + 1] == '/';
    }
  }
}
