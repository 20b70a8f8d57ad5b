/** `loop-variable-name`: a `for` loop's variable is snake_case; the private
    form is not accepted. */
module LoopVariableNameRule {
  import opened Common
  import opened Syntax
  import opened Diagnostics
  import opened Naming

  const RuleId := "loop-variable-name"

  predicate IsValidLoopVariableName(conv: Conventions, name: string) {
    conv.snakeCase(name)
  }

  /** The identifier's text, the first child's text of a typed variable, and
      "" for any other shape. */
  function LoopVariableName(left: Node): (name: string)
    ensures left.kind == "identifier" ==> name == left.text
    ensures left.kind == "typed_parameter" && left.children != [] ==> name == left.children[0].text
    ensures left.kind != "identifier" && (left.kind != "typed_parameter" || left.children == []) ==> name == ""
  {
    if left.kind == "identifier" then left.text
    else if left.kind == "typed_parameter" then
      match FirstChild(left)
      case Some(c) => c.text
      case None => ""
    else ""
  }

  function Message(name: string): string {
    "Loop variable '" + name + "' should be in snake_case format"
  }

  /** At a `for_statement` with a `left` field, one Error at that variable
      when its name is non-empty and not snake_case; nothing anywhere else. */
  function LoopVariableNameIssues(conv: Conventions, n: Node): (r: seq<LintIssue>)
    ensures |r| <= 1
    ensures |r| == 1 <==> n.kind == "for_statement" && FieldChild(n, "left").Some?
                          && LoopVariableName(FieldChild(n, "left").value) != ""
                          && !conv.snakeCase(LoopVariableName(FieldChild(n, "left").value))
    ensures |r| == 1 ==> var left := FieldChild(n, "left").value;
              r[0] == LintIssue(left.row + 1, left.column + 1, RuleId, Error, Message(LoopVariableName(left)))
  {
    if n.kind == "for_statement" then
      match FieldChild(n, "left")
      case Some(left) =>
        var name := LoopVariableName(left);
        if name != [] && !IsValidLoopVariableName(conv, name) then
          var line, column := left.row + 1, left.column + 1;
          [NewIssue(line, column, RuleId, Error, Message(name))]
        else []
      case None => []
    else []
  }

  /** Every issue the rule reports carries its id. */
  lemma IssueIds(conv: Conventions, n: Node, x: LintIssue)
    requires x in LoopVariableNameIssues(conv, n)
    ensures x.rule == RuleId
  {
    OnlyIssue(LoopVariableNameIssues(conv, n), x);
  }
}
