/** What the Control Room concludes about branches and the closed state from git's answers. */
module GitHistory {
  import opened PythonValues
  import opened CommitGraph
  import opened GitCommand
  import G = PathGate
  import S = Splitting
  import T = Text

  // ---- stdout.split() and int() ----

  function WordLength(s: string): (n: nat)
    ensures n <= |s| && forall i | 0 <= i < n :: !T.IsSpace(s[i])
    ensures n < |s| ==> T.IsSpace(s[n])
  {
    if s == "" || T.IsSpace(s[0]) then 0 else 1 + WordLength(s[1..])
  }

  /** `s.split()`. */
  function Words(s: string): seq<string>
    decreases |s|
  {
    var t := T.StripLeft(s);
    if t == "" then []
    else
      assert WordLength(t) > 0;
      [t[..WordLength(t)]] + Words(t[WordLength(t)..])
  }

  /** `int(s)` of ASCII decimal digits. */
  function NatValue(s: string): nat
    requires T.AllDigits(s)
  {
    if s == "" then 0 else 10 * NatValue(s[..|s| - 1]) + (s[|s| - 1] as int - '0' as int)
  }

  predicate IsCount(word: string) {
    word != "" && T.AllDigits(word)
  }

  lemma {:induction false} NatValueOfText(n: nat)
    ensures NatValue(T.NatText(n)) == n
  {
    var s := T.NatText(n);
    if n < 10 {
      assert s[..0] == "";
    } else {
      assert s[..|s| - 1] == T.NatText(n / 10);
      NatValueOfText(n / 10);
    }
  }

  lemma WordThenSpace(word: string, c: char, rest: string)
    requires word != "" && (forall i | 0 <= i < |word| :: !T.IsSpace(word[i])) && T.IsSpace(c)
    ensures Words(word + [c] + rest) == [word] + Words([c] + rest)
  {
    var s := word + [c] + rest;
    assert s[0] == word[0];
    assert T.LeadingSpaces(s) == 0;
    assert s[0..] == s;
    var n := WordLength(s);
    assert s[|word|] == c;
    assert n == |word| by {
      assert forall i | 0 <= i < |word| :: s[i] == word[i];
    }
    assert s[..|word|] == word && s[|word|..] == [c] + rest;
  }

  lemma SpaceIsSkipped(c: char, rest: string)
    requires T.IsSpace(c)
    ensures Words([c] + rest) == Words(rest)
  {
    assert ([c] + rest)[1..] == rest;
    assert T.LeadingSpaces([c] + rest) == 1 + T.LeadingSpaces(rest);
    assert T.StripLeft([c] + rest) == T.StripLeft(rest);
  }

  lemma OneWord(word: string)
    requires word != "" && forall i | 0 <= i < |word| :: !T.IsSpace(word[i])
    ensures Words(word + "\n") == [word]
  {
    assert word + "\n" == word + ['\n'] + "";
    WordThenSpace(word, '\n', "");
    SpaceIsSkipped('\n', "");
  }

  lemma TwoWords(a: string, b: string)
    requires a != "" && forall i | 0 <= i < |a| :: !T.IsSpace(a[i])
    requires b != "" && forall i | 0 <= i < |b| :: !T.IsSpace(b[i])
    ensures Words(a + "\t" + b + "\n") == [a, b]
  {
    hide Words;
    var rest := b + "\n";
    assert a + "\t" + b + "\n" == a + ['\t'] + rest;
    WordThenSpace(a, '\t', rest);
    SpaceIsSkipped('\t', rest);
    OneWord(b);
  }

  // ---- tracking ----

  datatype Tracking = DetachedHead | NoUpstream | TrackingError | Synchronized | Ahead | Behind | Diverged

  datatype TrackingReading = TrackingReading(
    status: Tracking, upstream: Option<string>, ahead: Option<nat>, behind: Option<nat>)

  /** `int()` is not guarded: the source raises on two words that are not both counts. */
  predicate CountsAreNumbers(counts: Command) {
    counts.Exited? && counts.code == 0 && |Words(counts.stdout)| == 2 ==>
      IsCount(Words(counts.stdout)[0]) && IsCount(Words(counts.stdout)[1])
  }

  function ReadTracking(detachedHead: bool, upstream: Command, counts: Command): TrackingReading
    requires CountsAreNumbers(counts)
  {
    if detachedHead then TrackingReading(DetachedHead, None, None, None)
    else if upstream.NotRun? then TrackingReading(TrackingError, None, None, None)
    else if upstream.code != 0 then TrackingReading(NoUpstream, None, None, None)
    else
      var name := Some(T.Strip(upstream.stdout));
      if counts.NotRun? || counts.code != 0 then TrackingReading(TrackingError, name, None, None)
      else
        var parts := Words(counts.stdout);
        if |parts| != 2 then TrackingReading(TrackingError, name, None, None)
        else
          var ahead, behind := NatValue(parts[0]), NatValue(parts[1]);
          TrackingReading(StatusOfCounts(ahead, behind), name, Some(ahead), Some(behind))
  }

  function StatusOfCounts(ahead: nat, behind: nat): Tracking {
    if ahead == 0 && behind == 0 then Synchronized
    else if ahead > 0 && behind == 0 then Ahead
    else if ahead == 0 && behind > 0 then Behind
    else Diverged
  }

  /** What `git rev-list --left-right --count HEAD...@{u}` prints. */
  ghost predicate PrintsCounts(g: Graph, head: Commit, upstream: Commit, counts: Command) {
    counts == Exited(0, T.NatText(CountBetween(g, upstream, head)) + "\t" + T.NatText(CountBetween(g, head, upstream)) + "\n")
  }

  lemma PrintedCountsAreRead(g: Graph, head: Commit, upstream: Commit, name: Command, counts: Command)
    requires name.Exited? && name.code == 0 && PrintsCounts(g, head, upstream, counts)
    ensures CountsAreNumbers(counts)
    ensures ReadTracking(false, name, counts)
         == TrackingReading(StatusOfCounts(CountBetween(g, upstream, head), CountBetween(g, head, upstream)), Some(T.Strip(name.stdout)),
                            Some(CountBetween(g, upstream, head)), Some(CountBetween(g, head, upstream)))
  {
    hide Words, NatValue, CountBetween, T.Strip;
    var a, b := CountBetween(g, upstream, head), CountBetween(g, head, upstream);
    DigitsAreNoSpace(T.NatText(a));
    DigitsAreNoSpace(T.NatText(b));
    TwoWords(T.NatText(a), T.NatText(b));
    NatValueOfText(a);
    NatValueOfText(b);
  }

  lemma DigitsAreNoSpace(s: string)
    requires T.AllDigits(s)
    ensures forall i | 0 <= i < |s| :: !T.IsSpace(s[i])
  {
    forall i | 0 <= i < |s| ensures !T.IsSpace(s[i]) { assert T.IsDigit(s[i]); }
  }

  /** The tracking status says how HEAD and its upstream are related by ancestry, and the two numbers how many
      commits each has that the other does not. */
  lemma TrackingIsAncestry(g: Graph, head: Commit, upstream: Commit, name: Command, counts: Command)
    requires head in g && upstream in g && Acyclic(g)
    requires name.Exited? && name.code == 0 && PrintsCounts(g, head, upstream, counts)
    ensures CountsAreNumbers(counts)
    ensures var status := ReadTracking(false, name, counts).status;
            && (status == Synchronized <==> head == upstream)
            && (status == Ahead <==> head != upstream && Reaches(g, head, upstream))
            && (status == Behind <==> head != upstream && Reaches(g, upstream, head))
            && (status == Diverged <==> !Reaches(g, head, upstream) && !Reaches(g, upstream, head))
    ensures var r := ReadTracking(false, name, counts);
            && r.upstream == Some(T.Strip(name.stdout))
            && r.ahead == Some(CountBetween(g, upstream, head)) && r.behind == Some(CountBetween(g, head, upstream))
  {
    hide CountBetween, ReadTracking, PrintsCounts;
    PrintedCountsAreRead(g, head, upstream, name, counts);
    NothingBetweenIff(g, upstream, head);
    NothingBetweenIff(g, head, upstream);
    EachReachesOther(g, head, upstream);
  }

  /** Without two counts there is no more to say than how far git's answers went. */
  lemma TrackingWithoutCounts(detachedHead: bool, upstream: Command, counts: Command)
    requires CountsAreNumbers(counts)
    ensures var r := ReadTracking(detachedHead, upstream, counts);
            && (r.status == DetachedHead <==> detachedHead)
            && (r.status == NoUpstream <==> !detachedHead && upstream.Exited? && upstream.code != 0)
            && (r.status == TrackingError <==>
                  && !detachedHead
                  && (upstream.NotRun?
                      || (upstream.code == 0 && (counts.NotRun? || counts.code != 0 || |Words(counts.stdout)| != 2))))
            && (r.upstream == if !detachedHead && upstream.Exited? && upstream.code == 0 then Some(T.Strip(upstream.stdout)) else None)
            && (r.ahead.Some? <==> r.behind.Some?) && (r.ahead.None? <==> r.status in {DetachedHead, NoUpstream, TrackingError})
  {
    hide Words, NatValue, T.Strip;
  }

  lemma EachReachesOther(g: Graph, a: Commit, b: Commit)
    requires a in g && b in g && Acyclic(g)
    ensures Reaches(g, a, b) && Reaches(g, b, a) <==> a == b
  {
    if Reaches(g, a, b) && Reaches(g, b, a) { HistoriesOrder(g, a, b); }
    InOwnHistory(g, a);
  }

  // ---- the closed state ----

  predicate IsHexDigit(c: char) {
    T.IsDigit(c) || 'a' <= c <= 'f'
  }

  /** `^[0-9a-f]{40}$`, where `$` also matches before one final line feed. */
  predicate IsFullSha(s: string) {
    var core := if s != "" && s[|s| - 1] == '\n' then s[..|s| - 1] else s;
    |core| == 40 && forall i | 0 <= i < 40 :: IsHexDigit(core[i])
  }

  /** Ancestry and distance of the closed state, as far as they could be read. */
  datatype CurrencyReading = CurrencyReading(isAncestor: Option<bool>, commitsSince: Option<nat>)

  function ReadClosedStateCurrency(closed: string, head: string, ancestor: Command, counted: Command): CurrencyReading {
    if !IsFullSha(closed) || !IsFullSha(head) then CurrencyReading(None, None)
    else if ancestor.NotRun? then CurrencyReading(None, None)
    else if ancestor.code == 1 then CurrencyReading(Some(false), None)
    else if ancestor.code != 0 then CurrencyReading(None, None)
    else if counted.NotRun? || counted.code != 0 then CurrencyReading(Some(true), None)
    else
      var words := Words(counted.stdout);
      if |words| != 1 || !IsCount(words[0]) then CurrencyReading(Some(true), None)
      else CurrencyReading(Some(true), Some(NatValue(words[0])))
  }

  predicate KeepNonEmpty(line: string) { line != "" }

  function NonEmpty(lines: seq<string>): seq<string> {
    if lines == [] then []
    else if KeepNonEmpty(lines[0]) then [lines[0]] + NonEmpty(lines[1..])
    else NonEmpty(lines[1..])
  }

  /** The single commit that added the closure document, or None. */
  function ReadPathIntroductionCommit(log: Command): Option<string> {
    if log.NotRun? || log.code != 0 then None
    else
      var lines := NonEmpty(S.Split(log.stdout, '\n'));
      if |lines| != 1 || !IsFullSha(lines[0]) then None else Some(lines[0])
  }

  datatype Currency = Current | AheadOfClosed | NotAncestor | Unavailable

  datatype ClosedStateCurrency = ClosedStateCurrency(
    status: Currency, closedStateCommit: Option<string>, commitsSince: Option<nat>)

  /** What `_compute_closed_state_currency` goes by: the project state's closure document, whether it
      was found independently, and git's answers. */
  datatype Evidence = Evidence(
    document: Option<string>, repositoryValid: bool, head: Option<string>,
    pathProven: bool, log: Command, ancestor: Command, counted: Command)

  function ComputeClosedStateCurrency(e: Evidence): ClosedStateCurrency {
    if e.document.None? then ClosedStateCurrency(Unavailable, None, None)
    else if !e.repositoryValid || e.head.None? || e.head.value == "" then ClosedStateCurrency(Unavailable, None, None)
    else if G.Validate(e.document.value) != G.Accepted then ClosedStateCurrency(Unavailable, None, None)
    else if !e.pathProven then ClosedStateCurrency(Unavailable, None, None)
    else
      var closed := ReadPathIntroductionCommit(e.log);
      if closed.None? then ClosedStateCurrency(Unavailable, None, None)
      else
        var reading := ReadClosedStateCurrency(closed.value, e.head.value, e.ancestor, e.counted);
        if reading.isAncestor.None? then ClosedStateCurrency(Unavailable, closed, None)
        else if !reading.isAncestor.value then ClosedStateCurrency(NotAncestor, closed, None)
        else if reading.commitsSince.None? then ClosedStateCurrency(Unavailable, closed, None)
        else if reading.commitsSince.value == 0 then ClosedStateCurrency(Current, closed, Some(0))
        else ClosedStateCurrency(AheadOfClosed, closed, reading.commitsSince)
  }

  // ---- git's answers ----

  /** `git log --diff-filter=A --format=%H` lists the commits that added the document, one a line. */
  predicate ListsAdditions(added: seq<Commit>, log: Command) {
    log == Exited(0, S.Join(added + [""], '\n')) && forall i | 0 <= i < |added| :: IsCommitName(added[i])
  }

  predicate IsCommitName(s: string) {
    |s| == 40 && forall i | 0 <= i < 40 :: IsHexDigit(s[i])
  }

  ghost predicate AnswersAncestry(g: Graph, closed: Commit, head: Commit, ancestor: Command) {
    ancestor.Exited? && ancestor.code == if Reaches(g, head, closed) then 0 else 1
  }

  ghost predicate PrintsDistance(g: Graph, closed: Commit, head: Commit, counted: Command) {
    counted == Exited(0, T.NatText(CountBetween(g, closed, head)) + "\n")
  }

  lemma CommitNamesAreShas(s: string)
    requires IsCommitName(s)
    ensures IsFullSha(s) && s != "" && S.Without(s, '\n')
  {
  }

  /** Only an output of exactly one commit is taken. */
  lemma OnlyOneAdditionIsTaken(added: seq<Commit>, log: Command)
    requires ListsAdditions(added, log)
    ensures ReadPathIntroductionCommit(log) == if |added| == 1 then Some(added[0]) else None
  {
    hide IsFullSha, IsCommitName;
    forall i | 0 <= i < |added| ensures IsFullSha(added[i]) && added[i] != "" && S.Without(added[i], '\n') {
      CommitNamesAreShas(added[i]);
    }
    S.SplitOfJoin(added + [""], '\n');
    NonEmptyLines(added);
  }

  lemma {:induction false} NonEmptyLines(lines: seq<string>)
    requires forall i | 0 <= i < |lines| :: lines[i] != ""
    ensures NonEmpty(lines + [""]) == lines
  {
    if lines == [] {
      assert ([""])[1..] == [];
    } else {
      NonEmptyLines(lines[1..]);
      assert (lines + [""])[1..] == lines[1..] + [""];
    }
  }

  /** A failed command leaves the answer open; any other answer is git's true one. */
  ghost predicate TrueOrFailed(g: Graph, closed: Commit, head: Commit, ancestor: Command, counted: Command) {
    && (ancestor.NotRun? || ancestor.code !in {0, 1} || AnswersAncestry(g, closed, head, ancestor))
    && (counted.NotRun? || counted.code != 0 || PrintsDistance(g, closed, head, counted))
  }

  lemma PrintedDistanceIsRead(g: Graph, closed: Commit, head: Commit, counted: Command)
    requires PrintsDistance(g, closed, head, counted)
    ensures |Words(counted.stdout)| == 1 && IsCount(Words(counted.stdout)[0])
    ensures NatValue(Words(counted.stdout)[0]) == CountBetween(g, closed, head)
  {
    var t := T.NatText(CountBetween(g, closed, head));
    DigitsAreNoSpace(t);
    OneWord(t);
    NatValueOfText(CountBetween(g, closed, head));
  }

  /** However commands fail, the status is never wrong: CURRENT is only ever said of HEAD itself, AHEAD
      of a proper ancestor with its exact distance, NOT_ANCESTOR of a commit that is none. And unless
      a command fails or a gate stops the read, one of the three is said. */
  lemma CurrencyIsNeverWrong(e: Evidence, g: Graph, closed: Commit, head: Commit)
    requires Acyclic(g) && closed in g && head in g && IsCommitName(head)
    requires e.head == Some(head) && ListsAdditions([closed], e.log)
    requires TrueOrFailed(g, closed, head, e.ancestor, e.counted)
    ensures var c := ComputeClosedStateCurrency(e);
            && (c.status == Current ==> closed == head && c.commitsSince == Some(0))
            && (c.status == AheadOfClosed ==> closed != head && Reaches(g, head, closed)
                                              && c.commitsSince == Some(CountBetween(g, closed, head)))
            && (c.status == NotAncestor ==> !Reaches(g, head, closed))
            && (c.status != Unavailable ==> c.closedStateCommit == Some(closed))
  {
    hide IsFullSha, G.Validate;
    OnlyOneAdditionIsTaken([closed], e.log);
    ClosedReadingIsTrue(g, closed, head, e.ancestor, e.counted);
    NothingBetweenIff(g, closed, head);
    if Reaches(g, head, closed) && Reaches(g, closed, head) { HistoriesOrder(g, head, closed); }
    InOwnHistory(g, head);
  }

  /** Some status other than UNAVAILABLE is said exactly when nothing stands in the way: a document at an
      accepted path, a sound repository with a HEAD, exactly one commit that added the document, and git
      answering the ancestry question and, of an ancestor, the count. */
  lemma AvailableIff(e: Evidence, added: seq<Commit>)
    requires ListsAdditions(added, e.log)
    ensures ComputeClosedStateCurrency(e).status != Unavailable <==>
            && e.document.Some? && G.Validate(e.document.value) == G.Accepted && e.pathProven
            && e.repositoryValid && e.head.Some? && e.head.value != "" && IsFullSha(e.head.value)
            && |added| == 1
            && e.ancestor.Exited?
            && (e.ancestor.code == 1
                || (e.ancestor.code == 0 && e.counted.Exited? && e.counted.code == 0
                    && |Words(e.counted.stdout)| == 1 && IsCount(Words(e.counted.stdout)[0])))
    ensures ComputeClosedStateCurrency(e).closedStateCommit.Some? ==> ComputeClosedStateCurrency(e).closedStateCommit == Some(added[0])
  {
    hide IsFullSha, G.Validate, Words, NatValue, ReadPathIntroductionCommit, IsCommitName;
    OnlyOneAdditionIsTaken(added, e.log);
    if |added| == 1 { CommitNamesAreShas(added[0]); }
  }

  /** The log is read from HEAD, so whatever it lists is in HEAD's history: as long as HEAD stands still
      between the two reads, NOT_ANCESTOR never comes up. */
  lemma NotAncestorNeedsAMovingHead(e: Evidence, g: Graph, added: seq<Commit>, head: Commit)
    requires e.head == Some(head) && ListsAdditions(added, e.log)
    requires forall i | 0 <= i < |added| :: Reaches(g, head, added[i])
    requires |added| == 1 ==> TrueOrFailed(g, added[0], head, e.ancestor, e.counted)
    ensures ComputeClosedStateCurrency(e).status != NotAncestor
  {
    hide IsFullSha, G.Validate;
    OnlyOneAdditionIsTaken(added, e.log);
    if |added| == 1 { ClosedReadingIsTrue(g, added[0], head, e.ancestor, e.counted); }
  }

  lemma ClosedReadingIsTrue(g: Graph, closed: Commit, head: Commit, ancestor: Command, counted: Command)
    requires TrueOrFailed(g, closed, head, ancestor, counted)
    ensures var r := ReadClosedStateCurrency(closed, head, ancestor, counted);
            && (r.isAncestor.Some? ==> r.isAncestor.value == Reaches(g, head, closed))
            && (r.commitsSince.Some? ==> r.isAncestor == Some(true) && r.commitsSince.value == CountBetween(g, closed, head))
  {
    if PrintsDistance(g, closed, head, counted) { PrintedDistanceIsRead(g, closed, head, counted); }
  }

  /** When every gate passes and git answers, CURRENT holds exactly when the closed commit is HEAD. */
  lemma CurrentIffClosedIsHead(e: Evidence, g: Graph, closed: Commit, head: Commit)
    requires Acyclic(g) && closed in g && head in g && IsCommitName(head)
    requires e.document.Some? && e.repositoryValid && e.head == Some(head) && e.pathProven
    requires G.Validate(e.document.value) == G.Accepted
    requires ListsAdditions([closed], e.log)
    requires AnswersAncestry(g, closed, head, e.ancestor) && PrintsDistance(g, closed, head, e.counted)
    ensures var status := ComputeClosedStateCurrency(e).status;
            && (status == Current <==> closed == head)
            && (status == AheadOfClosed <==> closed != head && Reaches(g, head, closed))
            && (status == NotAncestor <==> !Reaches(g, head, closed))
  {
    hide IsFullSha, Words, G.Validate;
    CurrencyIsNeverWrong(e, g, closed, head);
    OnlyOneAdditionIsTaken([closed], e.log);
    assert IsCommitName([closed][0]);
    AnsweredReading(g, closed, head, e.ancestor, e.counted);
    InOwnHistory(g, head);
    assert head != "";
  }

  lemma AnsweredReading(g: Graph, closed: Commit, head: Commit, ancestor: Command, counted: Command)
    requires IsCommitName(closed) && IsCommitName(head)
    requires AnswersAncestry(g, closed, head, ancestor) && PrintsDistance(g, closed, head, counted)
    ensures ReadClosedStateCurrency(closed, head, ancestor, counted) ==
              if Reaches(g, head, closed) then CurrencyReading(Some(true), Some(CountBetween(g, closed, head)))
              else CurrencyReading(Some(false), None)
  {
    hide Words;
    CommitNamesAreShas(closed);
    CommitNamesAreShas(head);
    PrintedDistanceIsRead(g, closed, head, counted);
  }
}
