/** `comparison-with-itself`: a comparison whose two operands have the same
    text is redundant. */
module ComparisonWithItselfRule {
  import opened Common
  import opened Syntax
  import opened Diagnostics

  const RuleId := "comparison-with-itself"

  predicate IsComparison(op: string) {
    op == "==" || op == "!=" || op == "<" || op == ">" || op == "<=" || op == ">="
  }

  function Message(text: string): string {
    "Redundant comparison '" + text + "' - comparing expression with itself"
  }

  /** What the walk reports at one node: one Warning at a `binary_operator`
      with `left`, `op` and `right` fields whose operator is a comparison and
      whose operands' texts are equal, nothing anywhere else. */
  function ComparisonIssues(n: Node): (r: seq<LintIssue>)
    ensures |r| <= 1
    ensures |r| == 1 <==> (n.kind == "binary_operator"
              && FieldChild(n, "left").Some? && FieldChild(n, "op").Some? && FieldChild(n, "right").Some?
              && IsComparison(FieldChild(n, "op").value.text)
              && FieldChild(n, "left").value.text == FieldChild(n, "right").value.text)
    ensures |r| == 1 ==> r[0] == LintIssue(n.row + 1, n.column + 1, RuleId, Warning, Message(n.text))
  {
    if n.kind == "binary_operator" then
      match (FieldChild(n, "left"), FieldChild(n, "op"), FieldChild(n, "right"))
      case (Some(left), Some(op), Some(right)) =>
        if IsComparison(op.text) && left.text == right.text then
          var line, column := n.row + 1, n.column + 1;
          [NewIssue(line, column, RuleId, Warning, Message(n.text))]
        else []
      case _ => []
    else []
  }

  /** Every issue the rule reports carries its id. */
  lemma IssueIds(n: Node, x: LintIssue)
    requires x in ComparisonIssues(n)
    ensures x.rule == RuleId
  {
    OnlyIssue(ComparisonIssues(n), x);
  }
}
