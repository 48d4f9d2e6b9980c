/** The decoder of `git status --porcelain=v2 -z` output. */
module PorcelainStatus {
  import opened GitCommand
  import opened PythonValues
  import opened Splitting
  import T = Text

  const NUL: char := '\0'

  datatype Kind = Tracked | Renamed | Copied | Untracked | Conflicted

  datatype Change = Change(
    path: string, kind: Kind, indexStatus: Option<char>, worktreeStatus: Option<char>, originalPath: Option<string>)

  datatype WorkingTree = Clean | Dirty | Error

  const ORDINARY_LETTERS: set<char> := {'.', 'M', 'T', 'A', 'D'}
  const RENAME_LETTERS: set<char> := {'R', 'C'}
  const UNMERGED_LETTERS: set<char> := {'.', 'M', 'T', 'A', 'D', 'R', 'C', 'U'}

  datatype Statuses = Statuses(index: Option<char>, worktree: Option<char>)

  function Letter(c: char): Option<char> {
    if c == '.' then None else Some(c)
  }

  function ParseXy(xy: string, indexLetters: set<char>, worktreeLetters: set<char>): Option<Statuses> {
    if |xy| != 2 || xy[0] !in indexLetters || xy[1] !in worktreeLetters then None
    else Some(Statuses(Letter(xy[0]), Letter(xy[1])))
  }

  /** `^[RC][0-9]+$`, where `$` also matches before one final line feed. */
  predicate IsScore(s: string) {
    var core := if s != "" && s[|s| - 1] == '\n' then s[..|s| - 1] else s;
    |core| >= 2 && core[0] in RENAME_LETTERS && T.AllDigits(core[1..])
  }

  function ParseOrdinary(token: string): Option<Change> {
    var fields := SplitAtMost(token, ' ', 8);
    if |fields| != 9 then None
    else
      match ParseXy(fields[1], ORDINARY_LETTERS, ORDINARY_LETTERS)
      case None => None
      case Some(xy) =>
        if fields[8] == "" then None
        else Some(Change(fields[8], Tracked, xy.index, xy.worktree, None))
  }

  function ParseRename(token: string, originalPath: string): Option<Change> {
    var fields := SplitAtMost(token, ' ', 9);
    if |fields| != 10 then None
    else
      match ParseXy(fields[1], RENAME_LETTERS, ORDINARY_LETTERS)
      case None => None
      case Some(xy) =>
        if !IsScore(fields[8]) || fields[9] == "" || originalPath == "" then None
        else Some(Change(fields[9], KindOfScore(fields[8]), xy.index, xy.worktree, Some(originalPath)))
  }

  function KindOfScore(score: string): Kind {
    if score != "" && score[0] == 'R' then Renamed else Copied
  }

  function ParseUnmerged(token: string): Option<Change> {
    var fields := SplitAtMost(token, ' ', 10);
    if |fields| != 11 then None
    else
      match ParseXy(fields[1], UNMERGED_LETTERS, UNMERGED_LETTERS)
      case None => None
      case Some(xy) =>
        if fields[10] == "" then None
        else Some(Change(fields[10], Conflicted, xy.index, xy.worktree, None))
  }

  function ParseUntracked(token: string): Option<Change>
    requires |token| >= 2
  {
    if token[2..] == "" then None else Some(Change(token[2..], Untracked, None, None, None))
  }

  /** The change read at the front of the tokens, and how many tokens it takes. */
  datatype Head = Head(change: Change, taken: nat)

  function TakeOne(change: Option<Change>): Option<Head> {
    if change.None? then None else Some(Head(change.value, 1))
  }

  function ParseHead(tokens: seq<string>): (r: Option<Head>)
    requires tokens != []
    ensures r.Some? ==> 1 <= r.value.taken <= |tokens|
  {
    var token := tokens[0];
    if T.StartsWith(token, "1 ") then TakeOne(ParseOrdinary(token))
    else if T.StartsWith(token, "2 ") then
      if |tokens| == 1 then None
      else
        match ParseRename(token, tokens[1])
        case None => None
        case Some(change) => Some(Head(change, 2))
    else if T.StartsWith(token, "u ") then TakeOne(ParseUnmerged(token))
    else if T.StartsWith(token, "? ") then TakeOne(ParseUntracked(token))
    else None
  }

  function ParseTokens(tokens: seq<string>): Option<seq<Change>> {
    if tokens == [] then Some([])
    else
      match ParseHead(tokens)
      case None => None
      case Some(head) => After([head.change], ParseTokens(tokens[head.taken..]))
  }

  function After(done: seq<Change>, rest: Option<seq<Change>>): Option<seq<Change>> {
    if rest.None? then None else Some(done + rest.value)
  }

  /** `raw.split("\0")` without the empty piece after the last terminator. */
  function Tokens(raw: string): seq<string> {
    var pieces := Split(raw, NUL);
    if pieces[|pieces| - 1] == "" then pieces[..|pieces| - 1] else pieces
  }

  function Parse(raw: string): Option<seq<Change>> {
    ParseTokens(Tokens(raw))
  }

  method ParsePorcelainV2(raw: string) returns (r: Option<seq<Change>>)
    ensures r == Parse(raw)
  {
    hide ParseOrdinary, ParseRename, ParseUnmerged, ParseUntracked, Tokens;
    var tokens := Tokens(raw);
    var changes: seq<Change> := [];
    var index := 0;
    assert tokens[0..] == tokens;
    AfterNothing(ParseTokens(tokens));
    while index < |tokens|
      invariant 0 <= index <= |tokens|
      invariant Parse(raw) == After(changes, ParseTokens(tokens[index..]))
    {
      var rest := tokens[index..];
      var token := tokens[index];
      var change: Option<Change>;
      var taken := 1;
      if T.StartsWith(token, "1 ") {
        change := ParseOrdinary(token);
      } else if T.StartsWith(token, "2 ") {
        if index + 1 >= |tokens| { return None; }
        change := ParseRename(token, tokens[index + 1]);
        taken := 2;
      } else if T.StartsWith(token, "u ") {
        change := ParseUnmerged(token);
      } else if T.StartsWith(token, "? ") {
        change := ParseUntracked(token);
      } else {
        return None;
      }
      if change.None? { return None; }
      assert rest[taken..] == tokens[index + taken..];
      assert ParseHead(rest) == Some(Head(change.value, taken));
      AfterTwice(changes, [change.value], ParseTokens(rest[taken..]));
      changes := changes + [change.value];
      index := index + taken;
    }
    assert changes + [] == changes;
    return Some(changes);
  }

  lemma AfterNothing(rest: Option<seq<Change>>)
    ensures After([], rest) == rest
  {
    if rest.Some? { assert [] + rest.value == rest.value; }
  }

  lemma AfterTwice(done: seq<Change>, more: seq<Change>, rest: Option<seq<Change>>)
    ensures After(done, After(more, rest)) == After(done + more, rest)
  {
    if rest.Some? { assert done + (more + rest.value) == done + more + rest.value; }
  }

  /** The working-tree status and the changes, as far as they could be read. */
  datatype TreeReading = TreeReading(status: WorkingTree, changes: Option<seq<Change>>)

  /** What is made of the one `git status` command: one that fails gives no status, one whose output
      does not parse gives a status without changes. */
  function TreeOf(git: Command): TreeReading {
    if git.NotRun? || git.code != 0 then TreeReading(Error, None)
    else TreeReading(if git.stdout != "" then Dirty else Clean, Parse(git.stdout))
  }

  method ReadWorkingTree(git: Command) returns (r: TreeReading)
    ensures r == TreeOf(git)
  {
    if git.NotRun? { return TreeReading(Error, None); }
    if git.code != 0 { return TreeReading(Error, None); }
    var status := if git.stdout != "" then Dirty else Clean;
    var changes := ParsePorcelainV2(git.stdout);
    return TreeReading(status, changes);
  }
}
