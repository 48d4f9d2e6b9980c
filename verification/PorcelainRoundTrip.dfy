/** The porcelain decoder undoes the porcelain printer, and accepts nothing else. */
module PorcelainRoundTrip {
  import opened GitCommand
  import opened PythonValues
  import opened Splitting
  import opened PorcelainStatus
  import T = Text

  /** One record as git writes it ("Porcelain Format Version 2" in git-status(1)): the change and the
      metadata fields (submodule state, modes and object names) the decoder does not keep. */
  datatype Record =
    | OrdinaryRecord(xy: string, meta: seq<string>, path: string)
    | RenameRecord(xy: string, meta: seq<string>, score: string, path: string, originalPath: string)
    | UnmergedRecord(xy: string, meta: seq<string>, path: string)
    | UntrackedRecord(path: string)

  /** The space-separated fields of a record's first line. */
  function Fields(r: Record): (fields: seq<string>)
    ensures |fields| >= 2
  {
    match r
    case OrdinaryRecord(xy, meta, path) => ["1", xy] + meta + [path]
    case RenameRecord(xy, meta, score, path, _) => ["2", xy] + meta + [score, path]
    case UnmergedRecord(xy, meta, path) => ["u", xy] + meta + [path]
    case UntrackedRecord(path) => ["?", path]
  }

  function RecordTokens(r: Record): (tokens: seq<string>)
    ensures tokens != []
  {
    [Join(Fields(r), ' ')] + (if r.RenameRecord? then [r.originalPath] else [])
  }

  predicate IsField(s: string) {
    Without(s, ' ') && Without(s, NUL)
  }

  predicate IsPath(s: string) {
    s != "" && Without(s, NUL)
  }

  const ORDINARY: set<char> := {'.', 'M', 'T', 'A', 'D'}
  const RENAMING: set<char> := {'R', 'C'}
  const UNMERGED: set<char> := {'.', 'M', 'T', 'A', 'D', 'R', 'C', 'U'}

  /** R or C, digits, and a line feed if there is one more character. */
  predicate IsScoreField(s: string) {
    && |s| >= 2 && (s[0] == 'R' || s[0] == 'C') && '0' <= s[1] <= '9'
    && (forall i | 2 <= i < |s| - 1 :: '0' <= s[i] <= '9')
    && (s[|s| - 1] == '\n' || '0' <= s[|s| - 1] <= '9')
  }

  lemma ScoreRead(s: string)
    ensures IsScore(s) <==> IsScoreField(s)
  {
    var core := if s != "" && s[|s| - 1] == '\n' then s[..|s| - 1] else s;
    if |core| >= 2 {
      assert forall i | 1 <= i < |core| :: core[1..][i - 1] == core[i] == s[i];
      assert T.AllDigits(core[1..]) <==> forall i | 1 <= i < |core| :: '0' <= s[i] <= '9' by {
        if T.AllDigits(core[1..]) {
          forall i | 1 <= i < |core| ensures '0' <= s[i] <= '9' { assert T.IsDigit(core[1..][i - 1]); }
        }
      }
    }
  }

  /** A letter of the XY field, `.` standing for none. */
  function Shown(c: char): Option<char> {
    if c == '.' then None else Some(c)
  }

  predicate IsXy(xy: string, indexLetters: set<char>, worktreeLetters: set<char>) {
    |xy| == 2 && xy[0] in indexLetters && xy[1] in worktreeLetters
  }

  predicate IsMeta(meta: seq<string>, n: nat) {
    |meta| == n && forall i | 0 <= i < n :: IsField(meta[i])
  }

  predicate WellFormed(r: Record) {
    match r
    case OrdinaryRecord(xy, meta, path) => IsXy(xy, ORDINARY, ORDINARY) && IsMeta(meta, 6) && IsPath(path)
    case RenameRecord(xy, meta, score, path, originalPath) =>
      && IsXy(xy, RENAMING, ORDINARY) && IsMeta(meta, 6) && IsScoreField(score)
      && IsPath(path) && IsPath(originalPath)
    case UnmergedRecord(xy, meta, path) => IsXy(xy, UNMERGED, UNMERGED) && IsMeta(meta, 8) && IsPath(path)
    case UntrackedRecord(path) => IsPath(path)
  }

  function ChangeOf(r: Record): Change
    requires WellFormed(r)
  {
    match r
    case OrdinaryRecord(xy, _, path) => Change(path, Tracked, Shown(xy[0]), Shown(xy[1]), None)
    case RenameRecord(xy, _, score, path, originalPath) =>
      Change(path, if score[0] == 'R' then Renamed else Copied, Shown(xy[0]), Shown(xy[1]), Some(originalPath))
    case UnmergedRecord(xy, _, path) => Change(path, Conflicted, Shown(xy[0]), Shown(xy[1]), None)
    case UntrackedRecord(path) => Change(path, Untracked, None, None, None)
  }

  predicate AllWellFormed(rs: seq<Record>) {
    forall i | 0 <= i < |rs| :: WellFormed(rs[i])
  }

  function Changes(rs: seq<Record>): seq<Change>
    requires AllWellFormed(rs)
  {
    seq(|rs|, i requires 0 <= i < |rs| => ChangeOf(rs[i]))
  }

  function AllTokens(rs: seq<Record>): seq<string> {
    if rs == [] then [] else RecordTokens(rs[0]) + AllTokens(rs[1..])
  }

  /** The records as `-z` output: every token ended by a NUL. */
  function Print(rs: seq<Record>): string {
    Join(AllTokens(rs) + [""], NUL)
  }

  /** raw is the printed records; the decoder does not insist on the last terminator. */
  predicate PrintsTo(rs: seq<Record>, raw: string) {
    raw == Print(rs) || (rs != [] && raw + [NUL] == Print(rs))
  }

  // ---- one record ----

  lemma ScoreIsField(score: string)
    requires IsScoreField(score)
    ensures IsField(score)
  {
  }

  lemma FieldsAreFields(r: Record)
    requires WellFormed(r)
    ensures forall i | 0 <= i < |Fields(r)| - 1 :: IsField(Fields(r)[i])
    ensures IsPath(Fields(r)[|Fields(r)| - 1])
  {
    if r.RenameRecord? { ScoreIsField(r.score); }
  }

  function FieldCount(r: Record): nat {
    match r
    case OrdinaryRecord(_, _, _) => 9
    case RenameRecord(_, _, _, _, _) => 10
    case UnmergedRecord(_, _, _) => 11
    case UntrackedRecord(_) => 2
  }

  /** Splitting a record's line at most so often gives its fields back, whatever the path holds. */
  lemma LineSplits(r: Record)
    requires WellFormed(r)
    ensures |Fields(r)| == FieldCount(r)
    ensures SplitAtMost(Join(Fields(r), ' '), ' ', FieldCount(r) - 1) == Fields(r)
  {
    FieldsAreFields(r);
    SplitAtMostOfJoin(Fields(r), ' ');
  }

  function Tag(r: Record): string {
    match r
    case OrdinaryRecord(_, _, _) => "1"
    case RenameRecord(_, _, _, _, _) => "2"
    case UnmergedRecord(_, _, _) => "u"
    case UntrackedRecord(_) => "?"
  }

  lemma LineStarts(r: Record)
    ensures Tag(r) + " " <= Join(Fields(r), ' ')
    ensures |Join(Fields(r), ' ')| >= 2 && Join(Fields(r), ' ')[0] == Tag(r)[0]
    ensures r.UntrackedRecord? ==> Join(Fields(r), ' ')[2..] == r.path
  {
    assert Fields(r)[0] == Tag(r);
  }

  lemma RecordIsParsed(r: Record, rest: seq<string>)
    requires WellFormed(r)
    ensures ParseHead(RecordTokens(r) + rest) == Some(Head(ChangeOf(r), |RecordTokens(r)|))
  {
    hide SplitAtMost, Join;
    LineSplits(r);
    LineStarts(r);
    var line := Join(Fields(r), ' ');
    var tokens := RecordTokens(r) + rest;
    assert tokens[0] == line;
    if r.RenameRecord? { assert tokens[1] == r.originalPath; }
  }

  /** Two well-formed records with the same tokens are the same record, metadata included. */
  lemma TokensDetermineRecord(r: Record, q: Record)
    requires WellFormed(r) && WellFormed(q)
    requires Join(Fields(r), ' ') == Join(Fields(q), ' ')
    requires r.RenameRecord? && q.RenameRecord? ==> r.originalPath == q.originalPath
    ensures r == q
  {
    hide SplitAtMost, Join;
    LineStarts(r);
    LineStarts(q);
    LineSplits(r);
    LineSplits(q);
    SameFieldsSameRecord(r, q);
  }

  lemma SameFieldsSameRecord(r: Record, q: Record)
    requires WellFormed(r) && WellFormed(q) && Tag(r)[0] == Tag(q)[0] && Fields(r) == Fields(q)
    requires r.RenameRecord? && q.RenameRecord? ==> r.originalPath == q.originalPath
    ensures r == q
  {
    var f := Fields(r);
    if r.RenameRecord? {
      assert f[2..8] == r.meta && f[2..8] == q.meta;
      assert f[8] == r.score == q.score && f[9] == r.path == q.path;
    } else if r.UnmergedRecord? {
      assert f[2..10] == r.meta && f[2..10] == q.meta;
      assert f[10] == r.path == q.path;
    } else if r.OrdinaryRecord? {
      assert f[2..8] == r.meta && f[2..8] == q.meta;
      assert f[8] == r.path == q.path;
    } else {
      assert f[1] == r.path == q.path;
    }
  }

  lemma OrdinaryIsRecord(token: string) returns (r: Record)
    requires Without(token, NUL) && T.StartsWith(token, "1 ") && ParseOrdinary(token).Some?
    ensures WellFormed(r) && r.OrdinaryRecord? && Join(Fields(r), ' ') == token
    ensures ParseOrdinary(token) == Some(ChangeOf(r))
  {
    hide SplitAtMost, Join;
    var f := SplitAtMost(token, ' ', 8);
    SplitFieldsAreClean(token, 8, "1");
    r := OrdinaryRecord(f[1], f[2..8], f[8]);
    assert Fields(r) == f;
  }

  lemma RenameIsRecord(token: string, originalPath: string) returns (r: Record)
    requires Without(token, NUL) && Without(originalPath, NUL)
    requires T.StartsWith(token, "2 ") && ParseRename(token, originalPath).Some?
    ensures WellFormed(r) && r.RenameRecord? && Join(Fields(r), ' ') == token && r.originalPath == originalPath
    ensures ParseRename(token, originalPath) == Some(ChangeOf(r))
  {
    hide SplitAtMost, Join, IsScore;
    var f := SplitAtMost(token, ' ', 9);
    SplitFieldsAreClean(token, 9, "2");
    ScoreRead(f[8]);
    r := RenameRecord(f[1], f[2..8], f[8], f[9], originalPath);
    assert Fields(r) == f;
  }

  lemma UnmergedIsRecord(token: string) returns (r: Record)
    requires Without(token, NUL) && T.StartsWith(token, "u ") && ParseUnmerged(token).Some?
    ensures WellFormed(r) && r.UnmergedRecord? && Join(Fields(r), ' ') == token
    ensures ParseUnmerged(token) == Some(ChangeOf(r))
  {
    hide SplitAtMost, Join;
    var f := SplitAtMost(token, ' ', 10);
    SplitFieldsAreClean(token, 10, "u");
    r := UnmergedRecord(f[1], f[2..10], f[10]);
    assert Fields(r) == f;
  }

  /** Whatever the decoder reads at the front of the tokens is a well-formed record, all of it. */
  lemma ParsedIsRecord(tokens: seq<string>) returns (r: Record)
    requires tokens != [] && AllWithout(tokens, NUL) && ParseHead(tokens).Some?
    ensures WellFormed(r) && ParseHead(tokens) == Some(Head(ChangeOf(r), |RecordTokens(r)|))
    ensures RecordTokens(r) == tokens[..|RecordTokens(r)|]
  {
    hide SplitAtMost, Join, Fields, ParseOrdinary, ParseRename, ParseUnmerged, IsScore;
    var token := tokens[0];
    assert Without(token, NUL);
    if T.StartsWith(token, "1 ") {
      r := OrdinaryIsRecord(token);
    } else if T.StartsWith(token, "2 ") {
      assert Without(tokens[1], NUL);
      r := RenameIsRecord(token, tokens[1]);
    } else if T.StartsWith(token, "u ") {
      r := UnmergedIsRecord(token);
    } else {
      r := UntrackedRecord(token[2..]);
      assert token == "? " + token[2..];
      LineOfUntracked(token[2..]);
    }
  }

  lemma LineOfUntracked(path: string)
    ensures Join(Fields(UntrackedRecord(path)), ' ') == "? " + path
  {
    assert Join([path], ' ') == path;
    assert ["?", path] == ["?"] + [path];
    JoinCons("?", [path], ' ');
  }

  lemma SplitFieldsAreClean(token: string, most: nat, tag: string)
    requires Without(token, NUL) && |SplitAtMost(token, ' ', most)| == most + 1 && most >= 2
    requires |tag| == 1 && tag[0] != ' ' && tag + " " <= token
    ensures var f := SplitAtMost(token, ' ', most);
            && f[0] == tag && Join(f, ' ') == token && Without(f[most], NUL)
            && forall i | 0 <= i < most :: IsField(f[i])
  {
    hide Join, Without;
    var f := SplitAtMost(token, ' ', most);
    FirstFieldIsTag(token, most, tag);
    JoinOfSplitAtMost(token, ' ', most);
    PartsKeepOut(f, ' ', NUL);
  }

  lemma FirstFieldIsTag(token: string, most: nat, tag: string)
    requires |tag| == 1 && tag[0] != ' ' && tag + " " <= token && most >= 1
    ensures SplitAtMost(token, ' ', most)[0] == tag
  {
    assert token == tag + [' '] + token[2..];
    SplitAtMostCons(tag, token[2..], ' ', most - 1);
  }

  lemma {:induction false} PartsKeepOut(parts: seq<string>, sep: char, c: char)
    requires Without(Join(parts, sep), c) && c != sep
    ensures AllWithout(parts, c)
  {
    if |parts| > 1 {
      var s := Join(parts, sep);
      var n := |parts[0]|;
      assert s == parts[0] + [sep] + Join(parts[1..], sep);
      assert s[..n] == parts[0] && s[n + 1..] == Join(parts[1..], sep);
      assert Without(s[..n], c) && Without(s[n + 1..], c);
      PartsKeepOut(parts[1..], sep, c);
      forall i | 0 <= i < |parts| ensures Without(parts[i], c) {
        if i > 0 { assert parts[1..][i - 1] == parts[i]; }
      }
    }
  }

  // ---- the token list ----

  lemma ChangesOfFirst(rs: seq<Record>)
    requires rs != [] && AllWellFormed(rs)
    ensures Changes(rs) == [ChangeOf(rs[0])] + Changes(rs[1..])
  {
  }

  lemma {:induction false} PrintedTokensParse(rs: seq<Record>)
    requires AllWellFormed(rs)
    ensures ParseTokens(AllTokens(rs)) == Some(Changes(rs))
  {
    hide ParseHead, ChangeOf, RecordTokens, WellFormed;
    if rs == [] {
      assert Changes(rs) == [];
    } else {
      var r := rs[0];
      RecordIsParsed(r, AllTokens(rs[1..]));
      PrintedTokensParse(rs[1..]);
      assert AllTokens(rs)[|RecordTokens(r)|..] == AllTokens(rs[1..]);
      ChangesOfFirst(rs);
    }
  }

  lemma {:induction false} ParsedTokensArePrinted(tokens: seq<string>) returns (rs: seq<Record>)
    requires AllWithout(tokens, NUL) && ParseTokens(tokens).Some?
    ensures AllWellFormed(rs) && AllTokens(rs) == tokens
    decreases |tokens|
  {
    hide ParseHead, ChangeOf, RecordTokens, WellFormed;
    if tokens == [] {
      rs := [];
    } else {
      var r := ParsedIsRecord(tokens);
      var n := |RecordTokens(r)|;
      var rest := ParsedTokensArePrinted(tokens[n..]);
      rs := [r] + rest;
      assert rs[1..] == rest;
      assert tokens == tokens[..n] + tokens[n..];
    }
  }

  lemma {:induction false} TokensDetermineRecords(rs: seq<Record>, qs: seq<Record>)
    requires AllWellFormed(rs) && AllWellFormed(qs) && AllTokens(rs) == AllTokens(qs)
    ensures rs == qs
  {
    hide Join;
    if rs != [] && qs != [] {
      var tokens := AllTokens(rs);
      assert tokens[0] == Join(Fields(rs[0]), ' ') == Join(Fields(qs[0]), ' ');
      if rs[0].RenameRecord? && qs[0].RenameRecord? {
        assert tokens[1] == rs[0].originalPath == qs[0].originalPath;
      }
      TokensDetermineRecord(rs[0], qs[0]);
      var n := |RecordTokens(rs[0])|;
      assert AllTokens(rs[1..]) == tokens[n..] == AllTokens(qs[1..]);
      TokensDetermineRecords(rs[1..], qs[1..]);
      assert rs == [rs[0]] + rs[1..] && qs == [qs[0]] + qs[1..];
    }
  }

  // ---- the text ----

  lemma {:induction false} PrintedTokensAreClean(rs: seq<Record>)
    requires AllWellFormed(rs)
    ensures AllWithout(AllTokens(rs), NUL)
    ensures rs != [] ==> AllTokens(rs) != [] && AllTokens(rs)[|AllTokens(rs)| - 1] != ""
    ensures rs == [] ==> AllTokens(rs) == []
  {
    hide WellFormed, RecordTokens;
    if rs != [] {
      RecordTokensAreClean(rs[0]);
      PrintedTokensAreClean(rs[1..]);
    }
  }

  lemma RecordTokensAreClean(r: Record)
    requires WellFormed(r)
    ensures AllWithout(RecordTokens(r), NUL)
    ensures RecordTokens(r)[|RecordTokens(r)| - 1] != ""
  {
    hide Join;
    FieldsAreFields(r);
    LineStarts(r);
    JoinKeepsOut(Fields(r), ' ', NUL);
  }

  lemma {:induction false} JoinKeepsOut(parts: seq<string>, sep: char, c: char)
    requires AllWithout(parts, c) && c != sep
    ensures Without(Join(parts, sep), c)
  {
    if |parts| > 1 {
      assert AllWithout(parts[1..], c);
      JoinKeepsOut(parts[1..], sep, c);
    }
  }

  lemma EmptyIsWithout(c: char)
    ensures Without("", c)
  {
  }

  /** The terminated tokens, with or without the last terminator, split back into the tokens. */
  lemma TokensOfTerminated(tokens: seq<string>)
    requires AllWithout(tokens, NUL)
    ensures Tokens(Join(tokens + [""], NUL)) == tokens
    ensures tokens != [] && tokens[|tokens| - 1] != "" ==> Tokens(Join(tokens, NUL)) == tokens
  {
    hide Without, Split, Join;
    assert Without("", NUL) by { EmptyIsWithout(NUL); }
    SplitOfJoin(tokens + [""], NUL);
    if tokens != [] { SplitOfJoin(tokens, NUL); }
  }

  lemma {:induction false} LastTerminator(tokens: seq<string>)
    requires tokens != []
    ensures Join(tokens + [""], NUL) == Join(tokens, NUL) + [NUL]
  {
    if |tokens| > 1 {
      LastTerminator(tokens[1..]);
      assert (tokens + [""])[1..] == tokens[1..] + [""];
    }
  }

  lemma TerminatedOfTokens(raw: string)
    ensures AllWithout(Tokens(raw), NUL)
    ensures raw == Join(Tokens(raw) + [""], NUL) || (Tokens(raw) != [] && raw + [NUL] == Join(Tokens(raw) + [""], NUL))
  {
    hide Without, Split, Join;
    var pieces := Split(raw, NUL);
    JoinOfSplit(raw, NUL);
    if pieces[|pieces| - 1] == "" {
      assert pieces == Tokens(raw) + [""];
    } else {
      LastTerminator(pieces);
    }
  }

  lemma PrintedSplits(rs: seq<Record>, raw: string)
    requires AllWellFormed(rs) && PrintsTo(rs, raw)
    ensures Tokens(raw) == AllTokens(rs)
  {
    hide AllTokens, WellFormed, Join, Split;
    PrintedTokensAreClean(rs);
    TokensOfTerminated(AllTokens(rs));
    if raw + [NUL] == Print(rs) && rs != [] {
      LastTerminator(AllTokens(rs));
      var joined := Join(AllTokens(rs), NUL);
      assert raw == (raw + [NUL])[..|raw|];
      assert joined == (joined + [NUL])[..|joined|];
      assert raw == joined;
    }
  }

  /** Decoding gives back every printed list of changes: paths may hold spaces, and a rename's
      original path may itself look like a record. */
  lemma ParseUndoesPrint(rs: seq<Record>, raw: string)
    requires AllWellFormed(rs) && PrintsTo(rs, raw)
    ensures Parse(raw) == Some(Changes(rs))
  {
    PrintedSplits(rs, raw);
    PrintedTokensParse(rs);
  }

  /** Output decodes to cs exactly when it is the print of well-formed records of those changes. */
  lemma ParsesIffPrinted(raw: string, cs: seq<Change>)
    ensures Parse(raw) == Some(cs) <==>
            exists rs :: AllWellFormed(rs) && PrintsTo(rs, raw) && cs == Changes(rs)
  {
    hide AllTokens, WellFormed, Join, Split, Tokens, ParseTokens, ChangeOf;
    if Parse(raw) == Some(cs) {
      TerminatedOfTokens(raw);
      var rs := ParsedTokensArePrinted(Tokens(raw));
      if rs == [] { PrintedTokensAreClean(rs); }
      assert PrintsTo(rs, raw);
      ParseUndoesPrint(rs, raw);
    }
    forall rs | AllWellFormed(rs) && PrintsTo(rs, raw) ensures Parse(raw) == Some(Changes(rs)) {
      ParseUndoesPrint(rs, raw);
    }
  }

  /** No output can be read as two different lists of records: no token is dropped or merged. */
  lemma OutputHasOneReading(raw: string, rs: seq<Record>, qs: seq<Record>)
    requires AllWellFormed(rs) && PrintsTo(rs, raw)
    requires AllWellFormed(qs) && PrintsTo(qs, raw)
    ensures rs == qs
  {
    PrintedSplits(rs, raw);
    PrintedSplits(qs, raw);
    TokensDetermineRecords(rs, qs);
  }

  /** What a reading of the working tree tells a caller. The status is ERROR exactly when the command
      failed, and then there are no changes. Changes are given exactly when the command's output is the
      print of well-formed records, and they are those records' changes, none left out. And an empty
      change list goes with CLEAN and with nothing else. */
  lemma WorkingTreeReading(git: Command, r: TreeReading)
    requires r == TreeOf(git)
    ensures r.status == Error <==> git.NotRun? || git.code != 0
    ensures r.status == Error ==> r.changes.None?
    ensures forall cs :: r.changes == Some(cs) <==>
              git.Exited? && git.code == 0
              && exists rs :: AllWellFormed(rs) && PrintsTo(rs, git.stdout) && cs == Changes(rs)
    ensures r.status == Clean ==> r.changes == Some([])
    ensures r.changes.Some? ==> (r.changes.value == [] <==> r.status == Clean)
  {
    hide AllTokens, WellFormed, Join, Split, ChangeOf;
    if git.Exited? && git.code == 0 {
      forall cs ensures Parse(git.stdout) == Some(cs) <==>
                        exists rs :: AllWellFormed(rs) && PrintsTo(rs, git.stdout) && cs == Changes(rs) {
        ParsesIffPrinted(git.stdout, cs);
      }
      EmptyOutputIsNoRecords(git.stdout);
    }
  }

  lemma EmptyOutputIsNoRecords(raw: string)
    ensures raw == "" <==> Parse(raw) == Some([])
  {
    TerminatedOfTokens(raw);
  }

  // ---- the changes ----

  predicate IsStatus(status: Option<char>, letters: set<char>) {
    if status.None? then '.' in letters else status.value != '.' && status.value in letters
  }

  /** What a change can say, seen from outside. */
  predicate IsChange(c: Change) {
    && IsPath(c.path)
    && (c.kind in {Renamed, Copied} <==> c.originalPath.Some?)
    && (c.originalPath.Some? ==> IsPath(c.originalPath.value))
    && match c.kind
       case Tracked => IsStatus(c.indexStatus, ORDINARY) && IsStatus(c.worktreeStatus, ORDINARY)
       case Renamed => IsStatus(c.indexStatus, RENAMING) && IsStatus(c.worktreeStatus, ORDINARY)
       case Copied => IsStatus(c.indexStatus, RENAMING) && IsStatus(c.worktreeStatus, ORDINARY)
       case Conflicted => IsStatus(c.indexStatus, UNMERGED) && IsStatus(c.worktreeStatus, UNMERGED)
       case Untracked => c.indexStatus.None? && c.worktreeStatus.None?
  }

  function LetterOf(status: Option<char>): char {
    if status.None? then '.' else status.value
  }

  /** A record of change c carrying the given metadata. */
  function RecordOf(c: Change, meta: seq<string>): Record {
    var xy := [LetterOf(c.indexStatus), LetterOf(c.worktreeStatus)];
    match c.kind
    case Tracked => OrdinaryRecord(xy, meta, c.path)
    case Renamed => RenameRecord(xy, meta, "R100", c.path, if c.originalPath.Some? then c.originalPath.value else "")
    case Copied => RenameRecord(xy, meta, "C100", c.path, if c.originalPath.Some? then c.originalPath.value else "")
    case Conflicted => UnmergedRecord(xy, meta, c.path)
    case Untracked => UntrackedRecord(c.path)
  }

  /** The well-formed changes are exactly those some record carries. In particular a rename may be
      marked copied in its X column and the other way round: the score alone decides the kind. */
  lemma ChangesAreTheRecordsChanges(c: Change)
    ensures IsChange(c) <==> exists r :: WellFormed(r) && ChangeOf(r) == c
  {
    hide WellFormed, ChangeOf;
    if IsChange(c) {
      var meta := seq(if c.kind == Conflicted then 8 else 6, i => "");
      ChangeHasRecord(c, meta);
      assert WellFormed(RecordOf(c, meta)) && ChangeOf(RecordOf(c, meta)) == c;
    }
    forall r | WellFormed(r) ensures IsChange(ChangeOf(r)) { RecordsChangeIsChange(r); }
  }

  lemma ChangeHasRecord(c: Change, meta: seq<string>)
    requires IsChange(c) && IsMeta(meta, if c.kind == Conflicted then 8 else 6)
    ensures WellFormed(RecordOf(c, meta)) && ChangeOf(RecordOf(c, meta)) == c
  {
    assert "R100"[1..] == "100" && "C100"[1..] == "100";
  }

  lemma RecordsChangeIsChange(r: Record)
    requires WellFormed(r)
    ensures IsChange(ChangeOf(r))
  {
  }
}
