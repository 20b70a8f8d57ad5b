/** `class-name`: the name in a `class_name` statement matches
    `^[A-Z][a-zA-Z0-9]*$`. The rule is pattern-based: its pattern captures
    each `name` child of a `class_name_statement` that fails the expression,
    and every match becomes one Error. */
module ClassNameRule {
  import opened Common
  import opened Syntax
  import opened Diagnostics
  import opened QueryRule

  const RuleId := "class-name"

  const Pattern := "(class_name_statement (name) @class_name\n          (#not-match? @class_name \"^[A-Z][a-zA-Z0-9]*$\"))"

  predicate IsAsciiUpper(c: char) { 'A' <= c <= 'Z' }

  predicate IsAsciiAlphanumeric(c: char) {
    'A' <= c <= 'Z' || 'a' <= c <= 'z' || '0' <= c <= '9'
  }

  /** The pattern's expression `^[A-Z][a-zA-Z0-9]*$`: an ASCII capital,
      then ASCII letters and digits only. */
  predicate IsPascalName(s: string) {
    |s| > 0 && IsAsciiUpper(s[0]) && forall k :: 1 <= k < |s| ==> IsAsciiAlphanumeric(s[k])
  }

  function Message(name: string): string {
    "Class name '" + name + "' should be in PascalCase format"
  }

  /** The issue for one offending name node. */
  function NameIssue(c: Node): LintIssue {
    LintIssue(c.row + 1, c.column + 1, RuleId, Error, Message(c.text))
  }

  /** A child of a `class_name_statement` the pattern captures: a `name`
      whose text fails the expression. */
  predicate IsOffending(c: Node) {
    c.kind == "name" && !IsPascalName(c.text)
  }

  function CaptureAt(c: Node): seq<QueryMatch> {
    if IsOffending(c) then [QueryMatch([Capture(0, c)])] else []
  }

  /** The matches the query cursor yields at one node: one per offending
      child of a `class_name_statement`. */
  function MatchesAt(s: Node): (r: seq<QueryMatch>)
    ensures forall m :: m in r ==> |m.captures| == 1 && m.captures[0].index == 0
  {
    if s.kind == "class_name_statement" then
      assert forall m :: m in FlatMap(s.children, CaptureAt) ==> |m.captures| == 1 && m.captures[0].index == 0 by {
        forall m { FlatMapMember(s.children, CaptureAt, m); }
      }
      FlatMap(s.children, CaptureAt)
    else []
  }

  /** Every match of the pattern over the tree, in the order of the nodes. */
  function Matches(root: Node): seq<QueryMatch> {
    FlatMap(Nodes(root), MatchesAt)
  }

  /** `process_match`: one Error at the node captured with index 0, if any. */
  function ProcessMatch(m: QueryMatch): (r: seq<LintIssue>)
    ensures |r| <= 1
    ensures |r| == 1 <==> NodeFromMatch(m).Some?
    ensures |r| == 1 ==> r[0] == NameIssue(NodeFromMatch(m).value)
  {
    match NodeFromMatch(m)
    case Some(nameNode) =>
      var line, column := nameNode.row + 1, nameNode.column + 1;
      [NewIssue(line, column, RuleId, Error, Message(nameNode.text))]
    case None => []
  }

  function ChildIssues(c: Node): seq<LintIssue> {
    if IsOffending(c) then [NameIssue(c)] else []
  }

  /** The issues one statement gives rise to, read off the tree directly. */
  function StatementIssues(s: Node): (r: seq<LintIssue>)
    ensures forall x :: x in r <==> (s.kind == "class_name_statement"
              && exists j :: 0 <= j < |s.children| && s.children[j].kind == "name"
                   && !IsPascalName(s.children[j].text) && x == NameIssue(s.children[j]))
  {
    if s.kind == "class_name_statement" then
      assert forall x :: x in FlatMap(s.children, ChildIssues)
               <==> exists j :: 0 <= j < |s.children| && x in ChildIssues(s.children[j]) by {
        forall x { FlatMapMember(s.children, ChildIssues, x); }
      }
      FlatMap(s.children, ChildIssues)
    else []
  }

  lemma {:induction false} ProcessCapture(c: Node)
    ensures ProcessMatch(QueryMatch([Capture(0, c)])) == [NameIssue(c)]
  {
    var m := QueryMatch([Capture(0, c)]);
    assert NodeFromMatch(m) == Some(c);
  }

  lemma {:induction false} CaptureIssues(c: Node)
    ensures FlatMap(CaptureAt(c), ProcessMatch) == ChildIssues(c)
  {
    if IsOffending(c) {
      ProcessCapture(c);
      FlatMapSingle(QueryMatch([Capture(0, c)]), ProcessMatch);
    }
  }

  lemma {:induction false} StatementMatchIssues(s: Node)
    ensures FlatMap(MatchesAt(s), ProcessMatch) == StatementIssues(s)
  {
    if s.kind == "class_name_statement" {
      forall c ensures FlatMap(CaptureAt(c), ProcessMatch) == ChildIssues(c) {
        CaptureIssues(c);
      }
      FlatMapFuse(s.children, CaptureAt, ProcessMatch, ChildIssues);
    }
  }

  /** Running the pattern and processing its matches reports exactly what a
      pre-order walk reporting each statement's offending names would: an
      Error for every `name` child of a `class_name_statement` that is not
      an ASCII capital followed by ASCII letters and digits, in tree order. */
  lemma {:induction false} IssuesAreWalk(root: Node)
    ensures FlatMap(Matches(root), ProcessMatch) == PreOrder(root, StatementIssues)
  {
    forall s ensures FlatMap(MatchesAt(s), ProcessMatch) == StatementIssues(s) {
      StatementMatchIssues(s);
    }
    FlatMapFuse(Nodes(root), MatchesAt, ProcessMatch, StatementIssues);
    PreOrderIsFlatMap(root, StatementIssues);
  }

  /** Every issue the rule reports carries its id. */
  lemma IssueIds(ms: seq<QueryMatch>, x: LintIssue)
    requires x in FlatMap(ms, ProcessMatch)
    ensures x.rule == RuleId
  {
    FlatMapMember(ms, ProcessMatch, x);
    var k :| 0 <= k < |ms| && x in ProcessMatch(ms[k]);
    OnlyIssue(ProcessMatch(ms[k]), x);
  }
}
