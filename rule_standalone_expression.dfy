/** `standalone-expression`: an expression statement that only computes a
    value (an operator or a literal) has no effect. */
module StandaloneExpressionRule {
  import opened Common
  import opened Syntax
  import opened Diagnostics

  const RuleId := "standalone-expression"

  /** Statement kinds with side effects, which are never reported. */
  predicate HasSideEffects(kind: string) {
    kind == "call" || kind == "assignment" || kind == "augmented_assignment"
  }

  /** The expression kinds the rule reports: a binary operation or a literal. */
  predicate IsPureExpression(kind: string)
    ensures IsPureExpression(kind) ==> !HasSideEffects(kind)
  {
    kind == "binary_operator" || kind == "integer" || kind == "float" || kind == "string"
    || kind == "true" || kind == "false" || kind == "null"
  }

  function Message(text: string): string {
    "Standalone expression '" + text + "' is not assigned or used, the line may have no effect"
  }

  /** What the walk reports at one node: one Warning at the first child of an
      `expression_statement` when that child is a binary operation or a
      literal, nothing anywhere else. */
  function StandaloneExpressionIssues(n: Node): (r: seq<LintIssue>)
    ensures |r| <= 1
    ensures |r| == 1 <==> n.kind == "expression_statement" && n.children != []
                          && IsPureExpression(n.children[0].kind)
    ensures |r| == 1 ==> var e := n.children[0];
              r[0] == LintIssue(e.row + 1, e.column + 1, RuleId, Warning, Message(e.text))
  {
    if n.kind == "expression_statement" then
      match FirstChild(n)
      case Some(e) =>
        if !HasSideEffects(e.kind) && IsPureExpression(e.kind) then
          var line, column := e.row + 1, e.column + 1;
          [NewIssue(line, column, RuleId, Warning, Message(e.text))]
        else []
      case None => []
    else []
  }

  /** Every issue the rule reports carries its id. */
  lemma IssueIds(n: Node, x: LintIssue)
    requires x in StandaloneExpressionIssues(n)
    ensures x.rule == RuleId
  {
    OnlyIssue(StandaloneExpressionIssues(n), x);
  }
}
