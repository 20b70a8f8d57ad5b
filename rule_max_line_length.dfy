/** `max-line-length`: a line whose display width exceeds the configured
    maximum is too long. The rule reads the source text, not the tree. */
module MaxLineLengthRule {
  import opened Common
  import opened Text
  import opened Diagnostics

  const RuleId := "max-line-length"

  const TabWidth := 4

  /** A line without its `\r` when that was the character before `\n`. */
  function StripCarriageReturn(l: string): string {
    if l != [] && l[|l| - 1] == '\r' then l[..|l| - 1] else l
  }

  /** `str::lines`: the text split at each `\n`, a `\r` right before a `\n`
      dropped with it, and no empty last line after a final `\n`. */
  function Lines(s: string): (r: seq<string>)
    ensures forall k :: 0 <= k < |r| ==> '\n' !in r[k]
    ensures s == [] <==> r == []
    decreases |s|
  {
    if s == [] then []
    else match IndexOf(s, '\n')
      case None => [s]
      case Some(i) =>
        var line := StripCarriageReturn(s[..i]);
        assert forall c :: c in line ==> c in s[..i];
        [line] + Lines(s[i + 1..])
  }

  /** Lines written out, each followed by `\n`. */
  function Unlines(ls: seq<string>): string {
    if ls == [] then [] else ls[0] + "\n" + Unlines(ls[1..])
  }

  /** Splitting recovers the lines that were joined, as long as none holds a
      `\n` or ends with `\r`. */
  lemma {:induction false} LinesOfUnlines(ls: seq<string>)
    requires forall k :: 0 <= k < |ls| ==> '\n' !in ls[k] && (ls[k] == [] || ls[k][|ls[k]| - 1] != '\r')
    ensures Lines(Unlines(ls)) == ls
  {
    if ls != [] {
      var s := Unlines(ls);
      var l := ls[0];
      assert s == l + "\n" + Unlines(ls[1..]);
      assert s[|l|] == '\n' && s[..|l|] == l && s[|l| + 1..] == Unlines(ls[1..]);
      assert '\n' !in s[..|l|];
      assert IndexOf(s, '\n') == Some(|l|);
      LinesOfUnlines(ls[1..]);
    }
  }

  /** Lines written out with Windows line endings, each followed by `\r\n`. */
  function UnlinesCrlf(ls: seq<string>): string {
    if ls == [] then [] else ls[0] + "\r\n" + UnlinesCrlf(ls[1..])
  }

  /** A `\r\n` ending is dropped whole: splitting lines written with `\r\n`
      gives them back, even one that itself ends with `\r`, since only the
      `\r` right before the `\n` goes. */
  lemma {:induction false} LinesOfUnlinesCrlf(ls: seq<string>)
    requires forall k :: 0 <= k < |ls| ==> '\n' !in ls[k]
    ensures Lines(UnlinesCrlf(ls)) == ls
  {
    if ls != [] {
      var s := UnlinesCrlf(ls);
      var l := ls[0];
      var n := |l| + 1;
      assert s == (l + "\r") + "\n" + UnlinesCrlf(ls[1..]);
      assert s[n] == '\n' && s[..n] == l + "\r" && s[n + 1..] == UnlinesCrlf(ls[1..]);
      assert '\n' !in s[..n];
      assert IndexOf(s, '\n') == Some(n);
      assert StripCarriageReturn(l + "\r") == l;
      LinesOfUnlinesCrlf(ls[1..]);
    }
  }

  /** The width `fold` computes: a tab counts four columns, any other
      character one. */
  function DisplayWidth(l: string): (w: nat)
    ensures |l| <= w <= TabWidth * |l|
    ensures '\t' !in l ==> w == |l|
  {
    if l == [] then 0
    else
      assert forall c :: c in l[..|l| - 1] ==> c in l;
      DisplayWidth(l[..|l| - 1]) + (if l[|l| - 1] == '\t' then TabWidth else 1)
  }

  /** The exact width: the character count plus three more columns for
      each tab. */
  lemma {:induction false} DisplayWidthCount(l: string)
    ensures DisplayWidth(l) == |l| + (TabWidth - 1) * multiset(l)['\t']
  {
    if l != [] {
      var init := l[..|l| - 1];
      DisplayWidthCount(init);
      assert l == init + [l[|l| - 1]];
    }
  }

  function Message(width: nat, maxLength: nat): string {
    "Line is too long. Found " + NatToString(width) + " characters, maximum allowed is " + NatToString(maxLength)
  }

  /** The Warning for the line with 1-based number `line`: the column is one
      past the maximum. */
  function LongLineIssue(line: nat, width: nat, maxLength: nat): LintIssue {
    LintIssue(line, maxLength + 1, RuleId, Warning, Message(width, maxLength))
  }

  /** The issues for a list of lines: one per line wider than the maximum,
      numbered from 1, in line order. */
  function LongLineIssues(lines: seq<string>, maxLength: nat): (r: seq<LintIssue>)
    ensures forall i :: 0 <= i < |r| ==> 1 <= r[i].line <= |lines| && r[i].rule == RuleId
    ensures forall i, j :: 0 <= i < j < |r| ==> r[i].line < r[j].line
  {
    if lines == [] then []
    else
      var n := |lines|;
      var w := DisplayWidth(lines[n - 1]);
      LongLineIssues(lines[..n - 1], maxLength) + (if w > maxLength then [LongLineIssue(n, w, maxLength)] else [])
  }

  /** `x` is the issue for line `k` (0-based), which is wider than the maximum. */
  predicate ReportedAt(lines: seq<string>, maxLength: nat, x: LintIssue, k: int) {
    0 <= k < |lines| && DisplayWidth(lines[k]) > maxLength
    && x == LongLineIssue(k + 1, DisplayWidth(lines[k]), maxLength)
  }

  /** Exactly the lines wider than the maximum are reported, each with its
      1-based number and its width. */
  lemma {:induction false} LongLineIssuesMember(lines: seq<string>, maxLength: nat, x: LintIssue)
    ensures x in LongLineIssues(lines, maxLength) <==> exists k :: ReportedAt(lines, maxLength, x, k)
  {
    if lines != [] {
      var n := |lines|;
      var init := lines[..n - 1];
      var w := DisplayWidth(lines[n - 1]);
      LongLineIssuesMember(init, maxLength, x);
      assert LongLineIssues(lines, maxLength)
          == LongLineIssues(init, maxLength) + (if w > maxLength then [LongLineIssue(n, w, maxLength)] else []);
      if x in LongLineIssues(init, maxLength) {
        var k :| ReportedAt(init, maxLength, x, k);
        assert init[k] == lines[k];
        assert ReportedAt(lines, maxLength, x, k);
      } else if x in LongLineIssues(lines, maxLength) {
        assert ReportedAt(lines, maxLength, x, n - 1);
      }
      if exists k :: ReportedAt(lines, maxLength, x, k) {
        var k :| ReportedAt(lines, maxLength, x, k);
        if k < n - 1 {
          assert init[k] == lines[k];
          assert ReportedAt(init, maxLength, x, k);
        }
      }
    }
  }

  /** `check_max_line_length`: the loop over the enumerated lines. */
  method CheckMaxLineLength(source: string, maxLength: nat) returns (issues: seq<LintIssue>)
    ensures issues == LongLineIssues(Lines(source), maxLength)
  {
    var lines := Lines(source);
    issues := [];
    var lineNumber := 0;
    while lineNumber < |lines|
      invariant lineNumber <= |lines|
      invariant issues == LongLineIssues(lines[..lineNumber], maxLength)
    {
      assert lines[..lineNumber + 1][..lineNumber] == lines[..lineNumber];
      var width := DisplayWidth(lines[lineNumber]);
      if width > maxLength {
        issues := issues + [LongLineIssue(lineNumber + 1, width, maxLength)];
      }
      lineNumber := lineNumber + 1;
    }
    assert lines[..lineNumber] == lines;
  }

  /** The message's first number is the width found and its second the
      maximum, each written in decimal. */
  lemma MessageNumbers(width: nat, maxLength: nat)
    ensures var m := Message(width, maxLength);
            var a := |"Line is too long. Found "|;
            var b := a + |NatToString(width)|;
            var c := b + |" characters, maximum allowed is "|;
            ParseDigits(m[a..b]) == width && ParseDigits(m[c..]) == maxLength
  {
    Fields("Line is too long. Found ", NatToString(width), " characters, maximum allowed is ", NatToString(maxLength));
    ParseNatToString(width);
    ParseNatToString(maxLength);
  }

  lemma Fields(p: string, u: string, q: string, v: string)
    ensures (p + u + q + v)[|p|..|p| + |u|] == u
    ensures (p + u + q + v)[|p| + |u| + |q|..] == v
  {
    var m := p + u + q + v;
    assert forall i :: 0 <= i < |u| ==> m[|p| + i] == u[i];
    assert forall i :: 0 <= i < |v| ==> m[|p| + |u| + |q| + i] == v[i];
  }
}
