/** `str.splitlines()` and the text that `print` calls produce. */
module LineSplitting {
  import T = Text

  predicate IsLineBreak(c: char) {
    var n := c as int;
    10 <= n <= 13 || 28 <= n <= 30 || n == 0x85 || n == 0x2028 || n == 0x2029
  }

  predicate OneLine(s: string) {
    forall i | 0 <= i < |s| :: !IsLineBreak(s[i])
  }

  function FirstBreak(s: string): (i: nat)
    ensures i <= |s| && OneLine(s[..i])
    ensures i < |s| ==> IsLineBreak(s[i])
  {
    if s == "" || IsLineBreak(s[0]) then 0
    else
      var i := FirstBreak(s[1..]);
      assert s[..i + 1] == [s[0]] + s[1..][..i];
      i + 1
  }

  /** A carriage return and the line feed after it are one break. */
  function BreakLength(s: string): (n: nat)
    requires s != ""
    ensures 1 <= n <= |s|
  {
    if |s| >= 2 && s[0] == '\r' && s[1] == '\n' then 2 else 1
  }

  function SplitLines(s: string): seq<string>
    decreases |s|
  {
    var i := FirstBreak(s);
    if s == "" then []
    else if i == |s| then [s]
    else [s[..i]] + SplitLines(s[i + BreakLength(s[i..])..])
  }

  /** The text of lines printed one after another; text streams write a line feed as newline. */
  function Printed(lines: seq<string>, newline: string): string {
    if lines == [] then "" else lines[0] + newline + Printed(lines[1..], newline)
  }

  predicate IsNewline(newline: string) {
    newline == "\n" || newline == "\r\n"
  }

  lemma {:induction false} SplitLinesOfPrinted(lines: seq<string>, newline: string)
    requires IsNewline(newline) && forall i | 0 <= i < |lines| :: OneLine(lines[i])
    ensures SplitLines(Printed(lines, newline)) == lines
  {
    if lines != [] {
      SplitLinesOfPrinted(lines[1..], newline);
      FirstLine(lines[0], newline, Printed(lines[1..], newline));
    }
  }

  lemma FirstLine(line: string, newline: string, rest: string)
    requires IsNewline(newline) && OneLine(line)
    ensures SplitLines(line + newline + rest) == [line] + SplitLines(rest)
  {
    var s := line + newline + rest;
    var i := FirstBreak(s);
    assert s[|line|] == newline[0];
    assert i <= |line| by {
      assert forall k | 0 <= k < i :: s[k] == s[..i][k];
    }
    assert forall k | 0 <= k < |line| :: s[k] == line[k];
    assert i == |line|;
    assert s[..i] == line;
    assert BreakLength(s[i..]) == |newline|;
    assert s[i + |newline|..] == rest;
  }

  lemma {:induction false} PrintedJoins(a: seq<string>, b: seq<string>, newline: string)
    ensures Printed(a + b, newline) == Printed(a, newline) + Printed(b, newline)
  {
    if a == [] {
      assert a + b == b;
    } else {
      PrintedJoins(a[1..], b, newline);
      assert (a + b)[1..] == a[1..] + b;
      Associates(a[0] + newline, Printed(a[1..], newline), Printed(b, newline));
    }
  }

  lemma Associates(a: string, b: string, c: string)
    ensures a + (b + c) == a + b + c
  {
  }
}
