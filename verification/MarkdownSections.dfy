/** `_extract_section_body`: the body of the first level-2 section with a given heading, where code
    fences hide heading lines. A line is one element of `text.splitlines(keepends=True)`, so it has a
    line feed at most as its last character. */
module MarkdownSections {
  import opened PythonValues
  import T = Text

  datatype Fence = Fence(mark: char, length: nat)

  predicate IsBlankChar(c: char) { c == ' ' || c == '\t' }

  function RunLength(s: string, c: char): (n: nat)
    ensures n <= |s| && (forall i | 0 <= i < n :: s[i] == c) && (n < |s| ==> s[n] != c)
  {
    if s == "" || s[0] != c then 0 else 1 + RunLength(s[1..], c)
  }

  function Indent(line: string): (n: nat)
    ensures n <= |line|
  {
    if line == "" || !IsBlankChar(line[0]) then 0 else 1 + Indent(line[1..])
  }

  /** What `_FENCE_PATTERN` matches: at most three blanks, at least three backquotes or tildes, and
      the rest of the line. */
  datatype FenceMatch = FenceMatch(fence: Fence, rest: string)

  function MatchFence(line: string): Option<FenceMatch> {
    var text := line[Indent(line)..];
    if Indent(line) > 3 || text == "" || text[0] !in {'`', '~'} || RunLength(text, text[0]) < 3 then None
    else Some(FenceMatch(Fence(text[0], RunLength(text, text[0])), text[RunLength(text, text[0])..]))
  }

  function OpeningFence(line: string): Option<Fence> {
    var m := MatchFence(line);
    if m.None? then None else Some(m.value.fence)
  }

  predicate IsClosingFence(line: string, fence: Fence) {
    var m := MatchFence(line);
    m.Some? && m.value.fence.mark == fence.mark && m.value.fence.length >= fence.length && T.Blank(m.value.rest)
  }

  /** The stripped heading of a line that `_SECTION_HEADING_PATTERN` matches. */
  function HeadingOf(line: string): Option<string> {
    if |line| >= 3 && line[..2] == "##" && IsBlankChar(line[2]) then Some(T.Strip(line[2..])) else None
  }

  // ---- what makes a fence ----

  /** After k blanks, three at most, stand n marks, three at least, and then something else or nothing. */
  predicate IsFence(line: string, k: int, mark: char, n: nat) {
    && 0 <= k <= 3 && 3 <= n && k + n <= |line| && (mark == '`' || mark == '~')
    && (forall i | 0 <= i < k :: line[i] == ' ' || line[i] == '\t')
    && (forall i | k <= i < k + n :: line[i] == mark) && (k + n < |line| ==> line[k + n] != mark)
  }

  lemma {:induction false} IndentIs(line: string)
    ensures forall i | 0 <= i < Indent(line) :: line[i] == ' ' || line[i] == '\t'
    ensures Indent(line) < |line| ==> line[Indent(line)] != ' ' && line[Indent(line)] != '\t'
  {
    if line != "" && IsBlankChar(line[0]) { IndentIs(line[1..]); }
  }

  /** A run of n marks from position k on that does not go on. */
  lemma RunFrom(line: string, k: nat, mark: char, n: nat)
    requires k + n <= |line| && (forall i | k <= i < k + n :: line[i] == mark) && (k + n < |line| ==> line[k + n] != mark)
    ensures RunLength(line[k..], mark) == n
  {
    var text := line[k..];
    assert forall i | 0 <= i < |text| :: text[i] == line[k + i];
  }

  lemma FenceIsMatched(line: string, k: int, mark: char, n: nat)
    requires IsFence(line, k, mark, n)
    ensures k == Indent(line) && MatchFence(line) == Some(FenceMatch(Fence(mark, n), line[k + n..]))
  {
    hide RunLength, Indent;
    IndentIs(line);
    assert line[k] == mark;
    RunFrom(line, k, mark, n);
    assert line[k..][n..] == line[k + n..];
  }

  lemma MatchIsFence(line: string)
    requires MatchFence(line).Some?
    ensures var fence := MatchFence(line).value.fence;
            IsFence(line, Indent(line), fence.mark, fence.length)
  {
    hide RunLength, Indent;
    IndentIs(line);
    var text := line[Indent(line)..];
    assert forall i | 0 <= i < |text| :: text[i] == line[Indent(line) + i];
    var n := RunLength(text, text[0]);
    forall i | Indent(line) <= i < Indent(line) + n ensures line[i] == text[0] { assert text[i - Indent(line)] == text[0]; }
  }

  lemma FenceAt(line: string, k: int, mark: char, n: nat)
    ensures IsFence(line, k, mark, n) <==>
            k == Indent(line) && MatchFence(line).Some? && MatchFence(line).value.fence == Fence(mark, n)
    ensures IsFence(line, k, mark, n) ==> MatchFence(line).value.rest == line[k + n..]
  {
    hide MatchFence, IsFence;
    if IsFence(line, k, mark, n) { FenceIsMatched(line, k, mark, n); }
    if MatchFence(line).Some? { MatchIsFence(line); }
  }

  lemma OpeningFenceIs(line: string, mark: char, n: nat)
    ensures OpeningFence(line) == Some(Fence(mark, n)) <==> exists k :: IsFence(line, k, mark, n)
  {
    hide MatchFence, IsFence;
    forall k { FenceAt(line, k, mark, n); }
    if OpeningFence(line) == Some(Fence(mark, n)) { assert IsFence(line, Indent(line), mark, n); }
  }

  /** A fence is closed by one of its own marks, no shorter, with white space at most behind. */
  lemma ClosingFenceIs(line: string, fence: Fence)
    ensures IsClosingFence(line, fence) <==>
            exists k, n :: IsFence(line, k, fence.mark, n) && fence.length <= n && T.AllSpace(line[k + n..])
  {
    hide MatchFence, IsFence;
    forall k, n { FenceAt(line, k, fence.mark, n); }
    if IsClosingFence(line, fence) {
      var n := MatchFence(line).value.fence.length;
      assert IsFence(line, Indent(line), fence.mark, n);
    }
  }

  // ---- fences and headings by position ----

  function NextFence(open: Option<Fence>, line: string): Option<Fence> {
    match open
    case Some(fence) => if IsClosingFence(line, fence) then None else open
    case None => OpeningFence(line)
  }

  /** The fence that is open just before line i. */
  function FenceBefore(lines: seq<string>, i: nat): Option<Fence>
    requires i <= |lines|
  {
    if i == 0 then None else NextFence(FenceBefore(lines, i - 1), lines[i - 1])
  }

  /** The heading line i stands for, unless a fence hides it. */
  function HeadingAt(lines: seq<string>, i: nat): Option<string>
    requires i < |lines|
  {
    if FenceBefore(lines, i).Some? || OpeningFence(lines[i]).Some? then None else HeadingOf(lines[i])
  }

  /** The headings by line. */
  function Headings(lines: seq<string>): (headings: seq<Option<string>>)
    ensures |headings| == |lines|
  {
    seq(|lines|, i requires 0 <= i < |lines| => HeadingAt(lines, i))
  }

  function FirstWith(headings: seq<Option<string>>, heading: string, from: nat): (i: nat)
    requires from <= |headings|
    ensures from <= i <= |headings|
    ensures i < |headings| ==> headings[i] == Some(heading)
    ensures forall j | from <= j < i :: headings[j] != Some(heading)
    decreases |headings| - from
  {
    if from == |headings| || headings[from] == Some(heading) then from else FirstWith(headings, heading, from + 1)
  }

  function FirstHeading(headings: seq<Option<string>>, from: nat): (i: nat)
    requires from <= |headings|
    ensures from <= i <= |headings|
    ensures i < |headings| ==> headings[i].Some?
    ensures forall j | from <= j < i :: headings[j].None?
    decreases |headings| - from
  {
    if from == |headings| || headings[from].Some? then from else FirstHeading(headings, from + 1)
  }

  function Concat(lines: seq<string>): string {
    if lines == [] then "" else Concat(lines[..|lines| - 1]) + lines[|lines| - 1]
  }

  function TrimLeft(s: string): string {
    if s != "" && s[0] == '\n' then TrimLeft(s[1..]) else s
  }

  function TrimRight(s: string): string {
    if s != "" && s[|s| - 1] == '\n' then TrimRight(s[..|s| - 1]) else s
  }

  /** The text of a section's lines without line feeds at either end; None when nothing is left. */
  function BodyText(lines: seq<string>): Option<string> {
    var body := TrimRight(TrimLeft(Concat(lines)));
    if T.Strip(body) == "" then None else Some(body)
  }

  /** The lines from after the first line with that heading up to the next heading line of any kind. */
  function Extract(lines: seq<string>, heading: string): Option<string> {
    ExtractBy(lines, Headings(lines), heading)
  }

  function ExtractBy(lines: seq<string>, headings: seq<Option<string>>, heading: string): Option<string>
    requires |headings| == |lines|
  {
    var start := FirstWith(headings, heading, 0);
    if start == |lines| then None else BodyText(lines[start + 1..FirstHeading(headings, start + 1)])
  }

  method ExtractSectionBody(lines: seq<string>, heading: string) returns (r: Option<string>)
    ensures r == Extract(lines, heading)
  {
    hide IsClosingFence, OpeningFence, HeadingOf, FirstWith, FirstHeading, Headings, BodyText;
    var inFence: Option<Fence> := None;
    var bodyStart: Option<nat> := None;
    var bodyEnd := |lines|;
    var index := 0;
    while index < |lines|
      invariant index <= |lines| == bodyEnd
      invariant inFence == FenceBefore(lines, index)
      invariant bodyStart.None? ==> NoneBefore(lines, heading, index)
      invariant bodyStart.Some? ==>
                  0 < bodyStart.value <= index && bodyStart.value == FirstWith(Headings(lines), heading, 0) + 1
      invariant bodyStart.Some? ==> NoneBetween(lines, bodyStart.value, index)
    {
      var line := lines[index];
      if inFence.Some? {
        if IsClosingFence(line, inFence.value) { inFence := None; }
      } else if OpeningFence(line).Some? {
        inFence := OpeningFence(line);
      } else if HeadingOf(line).Some? {
        if bodyStart.None? {
          if HeadingOf(line).value == heading {
            FirstIsUnique(lines, heading, index);
            bodyStart := Some(index + 1);
          }
        } else {
          bodyEnd := index;
          break;
        }
      }
      index := index + 1;
    }
    if bodyStart.None? {
      NeverFound(lines, heading);
      return None;
    }
    NextIsUnique(lines, bodyStart.value, bodyEnd);
    return BodyText(lines[bodyStart.value..bodyEnd]);
  }

  predicate NoneBefore(lines: seq<string>, heading: string, i: nat)
    requires i <= |lines|
  {
    forall j | 0 <= j < i :: HeadingAt(lines, j) != Some(heading)
  }

  predicate NoneBetween(lines: seq<string>, from: nat, i: nat)
    requires i <= |lines|
  {
    forall j | from <= j < i :: HeadingAt(lines, j).None?
  }

  lemma FirstIsUnique(lines: seq<string>, heading: string, i: nat)
    requires i < |lines| && HeadingAt(lines, i) == Some(heading) && NoneBefore(lines, heading, i)
    ensures FirstWith(Headings(lines), heading, 0) == i
  {
    hide HeadingAt;
    assert Headings(lines)[i] == Some(heading);
    assert forall j | 0 <= j < i :: Headings(lines)[j] == HeadingAt(lines, j);
  }

  lemma NeverFound(lines: seq<string>, heading: string)
    requires NoneBefore(lines, heading, |lines|)
    ensures FirstWith(Headings(lines), heading, 0) == |lines|
  {
    hide HeadingAt;
    assert forall j | 0 <= j < |lines| :: Headings(lines)[j] == HeadingAt(lines, j);
  }

  lemma NextIsUnique(lines: seq<string>, from: nat, i: nat)
    requires from <= i <= |lines| && (i < |lines| ==> HeadingAt(lines, i).Some?) && NoneBetween(lines, from, i)
    ensures FirstHeading(Headings(lines), from) == i
  {
    hide HeadingAt;
    assert i < |lines| ==> Headings(lines)[i] == HeadingAt(lines, i);
    assert forall j | from <= j < i :: Headings(lines)[j] == HeadingAt(lines, j);
  }

  // ---- rendered documents ----

  /** Every fence opened in these lines is closed in them. */
  predicate Balanced(lines: seq<string>) {
    FenceBefore(lines, |lines|).None?
  }

  predicate NoHeading(lines: seq<string>) {
    forall i | 0 <= i < |lines| :: HeadingAt(lines, i).None?
  }

  datatype Section = Section(headingLine: string, body: seq<string>)
  datatype Document = Document(preamble: seq<string>, sections: seq<Section>)

  predicate WellFormedSection(s: Section) {
    HeadingOf(s.headingLine).Some? && NoHeading(s.body)
  }

  /** A fence may be left open in the last section, but in no other. */
  predicate WellFormedSections(sections: seq<Section>) {
    forall i | 0 <= i < |sections| ::
      WellFormedSection(sections[i]) && (i < |sections| - 1 ==> Balanced(sections[i].body))
  }

  predicate WellFormed(d: Document) {
    && NoHeading(d.preamble) && (d.sections != [] ==> Balanced(d.preamble)) && WellFormedSections(d.sections)
  }

  function RenderSections(sections: seq<Section>): seq<string> {
    if sections == [] then [] else [sections[0].headingLine] + sections[0].body + RenderSections(sections[1..])
  }

  function Render(d: Document): seq<string> {
    d.preamble + RenderSections(d.sections)
  }

  /** The body text of the first section with that heading. */
  function Lookup(sections: seq<Section>, heading: string): Option<string> {
    if sections == [] then None
    else if HeadingOf(sections[0].headingLine) == Some(heading) then BodyText(sections[0].body)
    else Lookup(sections[1..], heading)
  }

  lemma {:induction false} FenceInPrefix(a: seq<string>, b: seq<string>, i: nat)
    requires i <= |a|
    ensures FenceBefore(a + b, i) == FenceBefore(a, i)
  {
    if i > 0 { FenceInPrefix(a, b, i - 1); }
  }

  lemma {:induction false} FenceAfterBalanced(a: seq<string>, b: seq<string>, i: nat)
    requires Balanced(a) && i <= |b|
    ensures FenceBefore(a + b, |a| + i) == FenceBefore(b, i)
  {
    if i == 0 { FenceInPrefix(a, b, |a|); } else { FenceAfterBalanced(a, b, i - 1); }
  }

  lemma HeadingsOfJoin(a: seq<string>, b: seq<string>)
    requires Balanced(a)
    ensures forall i | 0 <= i < |a| :: HeadingAt(a + b, i) == HeadingAt(a, i)
    ensures forall i | 0 <= i < |b| :: HeadingAt(a + b, |a| + i) == HeadingAt(b, i)
  {
    forall i | 0 <= i < |a| ensures HeadingAt(a + b, i) == HeadingAt(a, i) { FenceInPrefix(a, b, i); }
    forall i | 0 <= i < |b| ensures HeadingAt(a + b, |a| + i) == HeadingAt(b, i) { FenceAfterBalanced(a, b, i); }
  }

  lemma HeadingLineIsNoFence(line: string)
    requires HeadingOf(line).Some?
    ensures OpeningFence(line).None?
  {
    assert line[0] == '#' by { assert line[..2][0] == '#'; }
  }

  lemma FirstWithInJoin(a: seq<Option<string>>, b: seq<Option<string>>, heading: string)
    requires forall i | 0 <= i < |a| :: a[i] != Some(heading)
    ensures FirstWith(a + b, heading, 0) == |a| + FirstWith(b, heading, 0)
  {
    var i, j := FirstWith(a + b, heading, 0), FirstWith(b, heading, 0);
    assert i >= |a|;
    assert j < |b| ==> (a + b)[|a| + j] == Some(heading);
    assert forall k | |a| <= k < i :: b[k - |a|] == (a + b)[k];
  }

  lemma FirstHeadingInJoin(a: seq<Option<string>>, b: seq<Option<string>>, from: nat)
    requires from <= |b|
    ensures FirstHeading(a + b, |a| + from) == |a| + FirstHeading(b, from)
  {
    var i, j := FirstHeading(a + b, |a| + from), FirstHeading(b, from);
    assert j < |b| ==> (a + b)[|a| + j].Some?;
    assert forall k | |a| <= k < i :: b[k - |a|] == (a + b)[k];
  }

  lemma HeadingListsJoin(a: seq<string>, b: seq<string>)
    requires Balanced(a)
    ensures Headings(a + b) == Headings(a) + Headings(b)
  {
    hide HeadingAt;
    HeadingsOfJoin(a, b);
    forall i | 0 <= i < |a + b| ensures Headings(a + b)[i] == (Headings(a) + Headings(b))[i] {
      if i >= |a| { assert HeadingAt(a + b, |a| + (i - |a|)) == HeadingAt(b, i - |a|); }
    }
  }

  /** Lines that are balanced and do not carry the heading change nothing for what follows. */
  lemma PassOver(a: seq<string>, b: seq<string>, heading: string)
    requires Balanced(a) && forall i | 0 <= i < |a| :: HeadingAt(a, i) != Some(heading)
    ensures Extract(a + b, heading) == Extract(b, heading)
  {
    HeadingListsJoin(a, b);
    assert forall i | 0 <= i < |a| :: Headings(a)[i] == HeadingAt(a, i);
    hide HeadingAt, Headings, ExtractBy, Balanced;
    ExtractInJoin(a, b, Headings(a), Headings(b), heading);
  }

  lemma ExtractInJoin(a: seq<string>, b: seq<string>, ha: seq<Option<string>>, hb: seq<Option<string>>, heading: string)
    requires |ha| == |a| && |hb| == |b| && forall i | 0 <= i < |a| :: ha[i] != Some(heading)
    ensures ExtractBy(a + b, ha + hb, heading) == ExtractBy(b, hb, heading)
  {
    hide BodyText, FirstWith, FirstHeading;
    FirstWithInJoin(ha, hb, heading);
    var start := FirstWith(hb, heading, 0);
    if start < |b| {
      var end := FirstHeading(hb, start + 1);
      FirstHeadingInJoin(ha, hb, start + 1);
      SliceOfJoin(a, b, start + 1, end);
    }
  }

  lemma SliceOfJoin(a: seq<string>, b: seq<string>, from: nat, to: nat)
    requires from <= to <= |b|
    ensures (a + b)[|a| + from..|a| + to] == b[from..to]
  {
  }

  lemma SectionHeadings(s: Section)
    requires WellFormedSection(s)
    ensures var lines := [s.headingLine] + s.body;
            && HeadingAt(lines, 0) == HeadingOf(s.headingLine)
            && (forall i | 0 < i < |lines| :: HeadingAt(lines, i).None?)
            && (Balanced(s.body) ==> Balanced(lines))
  {
    var a, b := [s.headingLine], s.body;
    HeadingLineIsNoFence(s.headingLine);
    assert FenceBefore(a, 1) == NextFence(FenceBefore(a, 0), a[0]);
    HeadingsOfJoin(a, b);
    FenceAfterBalanced(a, b, |b|);
    forall i | 0 < i < |a + b| ensures HeadingAt(a + b, i).None? {
      assert HeadingAt(a + b, 1 + (i - 1)) == HeadingAt(b, i - 1);
    }
    assert HeadingAt(a + b, 0) == HeadingAt(a, 0);
  }

  /** A section's own lines end where the next section's heading line stands, or with the document. */
  lemma FoundSection(s: Section, more: seq<string>, heading: string)
    requires WellFormedSection(s) && HeadingOf(s.headingLine) == Some(heading)
    requires more == [] || (Balanced(s.body) && HeadingAt(more, 0).Some?)
    ensures Extract([s.headingLine] + s.body + more, heading) == BodyText(s.body)
  {
    hide HeadingAt, BodyText, Balanced;
    var own := [s.headingLine] + s.body;
    var lines := own + more;
    SectionHeadings(s);
    if more == [] { assert lines == own; } else { HeadingsOfJoin(own, more); }
    FirstIsUnique(lines, heading, 0);
    assert more != [] ==> HeadingAt(lines, |own| + 0) == HeadingAt(more, 0);
    NextIsUnique(lines, 1, |own|);
    assert lines[1..|own|] == s.body;
  }

  /** A last section with another heading holds nothing to extract, its fences closed or not. */
  lemma OtherLastSection(s: Section, heading: string)
    requires WellFormedSection(s) && HeadingOf(s.headingLine) != Some(heading)
    ensures Extract([s.headingLine] + s.body, heading) == None
  {
    hide HeadingAt, BodyText;
    SectionHeadings(s);
    NeverFound([s.headingLine] + s.body, heading);
  }

  lemma {:induction false} ExtractFromSections(sections: seq<Section>, heading: string)
    requires WellFormedSections(sections)
    ensures Extract(RenderSections(sections), heading) == Lookup(sections, heading)
  {
    hide HeadingAt, BodyText, Extract, Balanced;
    if sections == [] {
      NothingToExtract(heading);
    } else {
      var s, rest := sections[0], sections[1..];
      var own, more := [s.headingLine] + s.body, RenderSections(rest);
      SectionHeadings(s);
      assert WellFormedSections(rest);
      if HeadingOf(s.headingLine) == Some(heading) {
        if rest != [] { StartsWithHeading(rest); }
        FoundSection(s, more, heading);
      } else if rest == [] {
        assert own + more == own;
        OtherLastSection(s, heading);
      } else {
        PassOver(own, more, heading);
        ExtractFromSections(rest, heading);
      }
    }
  }

  lemma NothingToExtract(heading: string)
    ensures Extract([], heading) == None
  {
  }

  lemma StartsWithHeading(sections: seq<Section>)
    requires sections != [] && WellFormedSection(sections[0])
    ensures RenderSections(sections) != [] && HeadingAt(RenderSections(sections), 0).Some?
  {
    HeadingLineIsNoFence(sections[0].headingLine);
  }

  /** Extraction undoes rendering: it finds the first section with the heading, text and all. */
  lemma ExtractUndoesRender(d: Document, heading: string)
    requires WellFormed(d)
    ensures Extract(Render(d), heading) == Lookup(d.sections, heading)
  {
    if d.sections == [] {
      assert Render(d) == d.preamble;
      NeverFound(d.preamble, heading);
    } else {
      PassOver(d.preamble, RenderSections(d.sections), heading);
      ExtractFromSections(d.sections, heading);
    }
  }

  /** A trimmed heading can be written as a heading line. */
  lemma HeadingLineCarriesHeading(heading: string)
    requires T.Trimmed(heading) && heading != ""
    ensures HeadingOf("## " + heading + "\n") == Some(heading)
  {
    var line := "## " + heading + "\n";
    assert line[2..] == " " + heading + "\n";
    StripPadding(heading);
  }

  lemma StripPadding(s: string)
    requires T.Trimmed(s) && s != ""
    ensures T.Strip(" " + s + "\n") == s
  {
    var padded := " " + s + "\n";
    assert padded[1..] == s + "\n" && (s + "\n")[0] == s[0];
    assert T.LeadingSpaces(padded) == 1;
    assert T.StripLeft(padded) == s + "\n";
    assert (s + "\n")[..|s|] == s;
  }

  // ---- fences hide headings ----

  /** A line inside a fence can be replaced by any other line that does not close the fence, a heading
      line among them, without starting, ending or moving any section. */
  lemma FencedLinesAreOpaque(lines: seq<string>, i: nat, line: string)
    requires i < |lines| && FenceBefore(lines, i).Some?
    requires !IsClosingFence(lines[i], FenceBefore(lines, i).value) && !IsClosingFence(line, FenceBefore(lines, i).value)
    ensures forall j | 0 <= j < |lines| :: HeadingAt(lines[i := line], j) == HeadingAt(lines, j)
    ensures HeadingAt(lines[i := line], i).None?
  {
    var other := lines[i := line];
    forall j | 0 <= j < |lines| ensures HeadingAt(other, j) == HeadingAt(lines, j) {
      SameFences(lines, i, line, j);
      SameFences(lines, i, line, i);
    }
  }

  lemma {:induction false} SameFences(lines: seq<string>, i: nat, line: string, j: nat)
    requires i < |lines| && FenceBefore(lines, i).Some? && j <= |lines|
    requires !IsClosingFence(lines[i], FenceBefore(lines, i).value) && !IsClosingFence(line, FenceBefore(lines, i).value)
    ensures FenceBefore(lines[i := line], j) == FenceBefore(lines, j)
  {
    if j > 0 { SameFences(lines, i, line, j - 1); }
  }
}
