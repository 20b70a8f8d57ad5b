/** `constant-name`: constants are CONSTANT_CASE or _PRIVATE_CONSTANT_CASE; a
    constant whose value is a `preload(...)` call may also be PascalCase. The
    rule is pattern-based: its pattern captures every `const_statement`. */
module ConstantNameRule {
  import opened Common
  import opened Syntax
  import opened Text
  import opened Diagnostics
  import opened Naming
  import opened QueryRule

  const RuleId := "constant-name"

  const Pattern := "(const_statement) @const_stmt"

  /** Every name valid for a plain constant is valid for a preload constant. */
  predicate IsValidConstantName(conv: Conventions, name: string)
    ensures IsValidConstantName(conv, name) ==> IsValidLoadConstantName(conv, name)
  {
    conv.constantCase(name) || conv.privateConstantCase(name)
  }

  predicate IsValidLoadConstantName(conv: Conventions, name: string) {
    conv.pascalCase(name) || conv.constantCase(name) || conv.privateConstantCase(name)
  }

  /** The value's text, leading whitespace dropped, starts with `preload(`. */
  predicate IsPreloadValue(text: string) {
    StartsWith(TrimStart(text), "preload(")
  }

  /** A value counts as a preload exactly when it is some whitespace followed
      by `preload(`. */
  lemma PreloadValueShape(text: string)
    ensures IsPreloadValue(text) <==>
              exists k :: 0 <= k <= |text| && (forall i :: 0 <= i < k ==> IsWhitespace(text[i]))
                          && StartsWith(text[k..], "preload(")
  {
    var r := TrimStart(text);
    var j := |text| - |r|;
    if IsPreloadValue(text) {
      assert r == text[j..];
    }
    if exists k :: 0 <= k <= |text| && (forall i :: 0 <= i < k ==> IsWhitespace(text[i]))
                   && StartsWith(text[k..], "preload(") {
      var k :| 0 <= k <= |text| && (forall i :: 0 <= i < k ==> IsWhitespace(text[i]))
               && StartsWith(text[k..], "preload(");
      assert text[k] == 'p' by { assert text[k..][0] == text[k]; }
      assert !IsWhitespace('p');
      assert !IsWhitespace(text[k]);
      assert j <= k;
      assert r[0] == text[j];
      assert !IsWhitespace(text[j]);
      assert r == text[k..];
    }
  }

  function PreloadMessage(name: string): string {
    "Preload constant name '" + name + "' should be in PascalCase or CONSTANT_CASE format"
  }

  function Message(name: string): string {
    "Constant name '" + name + "' should be in CONSTANT_CASE format"
  }

  /** The issues of one captured `const_statement`: when it has both a name and
      a value, one Error at the name if the name fails the convention for its
      kind of constant (preload or plain); otherwise nothing. */
  function StatementIssues(conv: Conventions, n: Node): (r: seq<LintIssue>)
    ensures |r| <= 1
    ensures |r| == 1 <==> (FieldChild(n, "name").Some? && FieldChild(n, "value").Some?
              && var name := FieldChild(n, "name").value.text;
                 if IsPreloadValue(FieldChild(n, "value").value.text)
                 then !conv.pascalCase(name) && !conv.constantCase(name) && !conv.privateConstantCase(name)
                 else !conv.constantCase(name) && !conv.privateConstantCase(name))
    ensures |r| == 1 ==> var name := FieldChild(n, "name").value;
              r[0] == if IsPreloadValue(FieldChild(n, "value").value.text)
                      then LintIssue(name.row + 1, name.column + 1, RuleId, Error, PreloadMessage(name.text))
                      else LintIssue(name.row + 1, name.column + 1, RuleId, Error, Message(name.text))
  {
    if FieldChild(n, "name").Some? && FieldChild(n, "value").Some? then
      var nameNode := FieldChild(n, "name").value;
      var name := nameNode.text;
      var line, column := nameNode.row + 1, nameNode.column + 1;
      if IsPreloadValue(FieldChild(n, "value").value.text) then
        if !IsValidLoadConstantName(conv, name) then [NewIssue(line, column, RuleId, Error, PreloadMessage(name))]
        else []
      else
        if !IsValidConstantName(conv, name) then [NewIssue(line, column, RuleId, Error, Message(name))]
        else []
    else []
  }

  /** The match the query cursor yields at one node. */
  function MatchAt(n: Node): seq<QueryMatch> {
    if n.kind == "const_statement" then [QueryMatch([Capture(0, n)])] else []
  }

  /** Every match of the pattern over the tree, in the order of the nodes. */
  function Matches(root: Node): seq<QueryMatch> {
    FlatMap(Nodes(root), MatchAt)
  }

  /** `process_match`: the issues of the statement captured with index 0. */
  function ProcessMatch(conv: Conventions, m: QueryMatch): (r: seq<LintIssue>)
    ensures NodeFromMatch(m).None? ==> r == []
    ensures NodeFromMatch(m).Some? ==> r == StatementIssues(conv, NodeFromMatch(m).value)
  {
    match NodeFromMatch(m)
    case Some(constNode) => StatementIssues(conv, constNode)
    case None => []
  }

  /** `process_match` with its conventions fixed, as the executor calls it. */
  function Processor(conv: Conventions): QueryMatch -> seq<LintIssue> {
    m => ProcessMatch(conv, m)
  }

  /** What a walk would report at one node: the statement's issues at a
      `const_statement`, nothing elsewhere. */
  function ConstantIssues(conv: Conventions, n: Node): seq<LintIssue> {
    if n.kind == "const_statement" then StatementIssues(conv, n) else []
  }

  function Visitor(conv: Conventions): Node -> seq<LintIssue> {
    n => ConstantIssues(conv, n)
  }

  lemma {:induction false} MatchIssues(conv: Conventions, n: Node)
    ensures FlatMap(MatchAt(n), Processor(conv)) == ConstantIssues(conv, n)
  {
    if n.kind == "const_statement" {
      var m := QueryMatch([Capture(0, n)]);
      assert NodeFromMatch(m) == Some(n);
      FlatMapSingle(m, Processor(conv));
    }
  }

  /** Running the pattern and processing its matches reports exactly what a
      pre-order walk checking every `const_statement` would, in tree order. */
  lemma {:induction false} IssuesAreWalk(conv: Conventions, root: Node)
    ensures FlatMap(Matches(root), Processor(conv)) == PreOrder(root, Visitor(conv))
  {
    forall n ensures FlatMap(MatchAt(n), Processor(conv)) == Visitor(conv)(n) {
      MatchIssues(conv, n);
    }
    FlatMapFuse(Nodes(root), MatchAt, Processor(conv), Visitor(conv));
    PreOrderIsFlatMap(root, Visitor(conv));
  }

  /** Every issue the rule reports carries its id. */
  lemma IssueIds(conv: Conventions, ms: seq<QueryMatch>, x: LintIssue)
    requires x in FlatMap(ms, Processor(conv))
    ensures x.rule == RuleId
  {
    FlatMapMember(ms, Processor(conv), x);
    var k :| 0 <= k < |ms| && x in Processor(conv)(ms[k]);
    assert x in ProcessMatch(conv, ms[k]);
    StatementIds(conv, NodeFromMatch(ms[k]).value, x);
  }

  lemma StatementIds(conv: Conventions, n: Node, x: LintIssue)
    requires x in StatementIssues(conv, n)
    ensures x.rule == RuleId
  {
    OnlyIssue(StatementIssues(conv, n), x);
  }
}
