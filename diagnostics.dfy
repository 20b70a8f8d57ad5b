/** The diagnostic record every rule produces (`LintIssue`), its one-line
    rendering, and the linter's configuration (`LinterConfig`). */
module Diagnostics {
  import opened Common
  import opened Text

  datatype Severity = Error | Warning

  datatype LintIssue = LintIssue(line: nat, column: nat, rule: string,
                                 severity: Severity, message: string)

  /** `LintIssue::new`: keeps its five arguments as they are. */
  function NewIssue(line: nat, column: nat, rule: string, severity: Severity, message: string): (r: LintIssue)
    ensures r.line == line && r.column == column && r.rule == rule
    ensures r.severity == severity && r.message == message
  {
    LintIssue(line, column, rule, severity, message)
  }

  function SeverityWord(s: Severity): string {
    match s
    case Error => "error"
    case Warning => "warning"
  }

  /** `LintIssue::format`: `<path>:<line>:<rule>:<severity>: <message>`; the
      column is not part of the line. */
  function Format(issue: LintIssue, path: string): string {
    path + ":" + NatToString(issue.line) + ":" + issue.rule + ":"
    + SeverityWord(issue.severity) + ": " + issue.message
  }

  /** The fields a formatted line carries. */
  datatype Formatted = Formatted(path: string, line: nat, rule: string,
                                 severity: Severity, message: string)

  function SplitAtColon(s: string): Option<(string, string)> {
    match IndexOf(s, ':')
    case None => None
    case Some(i) => Some((s[..i], s[i + 1..]))
  }

  predicate AllDigits(s: string) {
    forall i :: 0 <= i < |s| ==> IsDigit(s[i])
  }

  /** Reads a formatted diagnostic line back into its fields; the reference
      that `Format` is checked against. */
  function ParseFormatted(s: string): Option<Formatted> {
    match SplitAtColon(s)
    case None => None
    case Some((path, rest)) => ParseLineField(path, rest)
  }

  function ParseLineField(path: string, s: string): Option<Formatted> {
    match SplitAtColon(s)
    case None => None
    case Some((digits, rest)) =>
      if digits == [] || !AllDigits(digits) then None
      else ParseRuleField(path, ParseDigits(digits), rest)
  }

  function ParseRuleField(path: string, line: nat, s: string): Option<Formatted> {
    match SplitAtColon(s)
    case None => None
    case Some((rule, rest)) => ParseSeverityField(path, line, rule, rest)
  }

  function ParseSeverityField(path: string, line: nat, rule: string, s: string): Option<Formatted> {
    match SplitAtColon(s)
    case None => None
    case Some((word, rest)) =>
      if rest == [] || rest[0] != ' ' then None
      else if word == "error" then Some(Formatted(path, line, rule, Error, rest[1..]))
      else if word == "warning" then Some(Formatted(path, line, rule, Warning, rest[1..]))
      else None
  }

  lemma SplitAtColonOf(a: string, b: string)
    requires ':' !in a
    ensures SplitAtColon(a + ":" + b) == Some((a, b))
  {
    var s := a + ":" + b;
    assert s[|a|] == ':' && s[..|a|] == a && s[|a| + 1..] == b;
  }

  lemma SeverityFieldOf(path: string, line: nat, rule: string, severity: Severity, message: string)
    ensures ParseSeverityField(path, line, rule, SeverityWord(severity) + ":" + (" " + message))
            == Some(Formatted(path, line, rule, severity, message))
  {
    var rest := " " + message;
    assert rest[0] == ' ' && rest[1..] == message;
    var word := SeverityWord(severity);
    assert ':' !in word;
    SplitAtColonOf(word, rest);
    assert severity == Warning ==> word != "error" by {
      if severity == Warning { assert word[0] != "error"[0]; }
    }
  }

  lemma RuleFieldOf(path: string, line: nat, rule: string, rest: string)
    requires ':' !in rule
    ensures ParseRuleField(path, line, rule + ":" + rest) == ParseSeverityField(path, line, rule, rest)
  {
    SplitAtColonOf(rule, rest);
  }

  lemma LineFieldOf(path: string, line: nat, rest: string)
    ensures ParseLineField(path, NatToString(line) + ":" + rest) == ParseRuleField(path, line, rest)
  {
    var digits := NatToString(line);
    assert ':' !in digits by {
      forall i | 0 <= i < |digits| ensures digits[i] != ':' { assert IsDigit(digits[i]); }
    }
    SplitAtColonOf(digits, rest);
    ParseNatToString(line);
  }

  /** Formatting loses nothing but the column: when neither the path nor the
      rule id holds a ':', the line reads back as path, line, rule, severity
      and message. */
  lemma FormatRoundTrip(issue: LintIssue, path: string)
    requires ':' !in path && ':' !in issue.rule
    ensures ParseFormatted(Format(issue, path))
            == Some(Formatted(path, issue.line, issue.rule, issue.severity, issue.message))
  {
    var rest3 := SeverityWord(issue.severity) + ":" + (" " + issue.message);
    var rest2 := issue.rule + ":" + rest3;
    var rest1 := NatToString(issue.line) + ":" + rest2;
    assert Format(issue, path) == path + ":" + rest1;
    SeverityFieldOf(path, issue.line, issue.rule, issue.severity, issue.message);
    RuleFieldOf(path, issue.line, issue.rule, rest3);
    LineFieldOf(path, issue.line, rest2);
    SplitAtColonOf(path, rest1);
  }

  datatype LinterConfig = LinterConfig(disabledRules: set<string>, maxLineLength: nat)

  /** `LinterConfig::default`: no rule disabled, lines up to 100 wide. */
  function DefaultConfig(): (c: LinterConfig)
    ensures c.disabledRules == {} && c.maxLineLength == 100
  {
    LinterConfig({}, 100)
  }

  /** The one issue of a list that holds at most one. */
  lemma OnlyIssue(r: seq<LintIssue>, x: LintIssue)
    requires |r| <= 1 && x in r
    ensures |r| == 1 && x == r[0]
  {
    assert r == [r[0]];
  }
}
