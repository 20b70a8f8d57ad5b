/** `function-name`: a function's name is snake_case or _private_snake_case. */
module FunctionNameRule {
  import opened Common
  import opened Syntax
  import opened Diagnostics
  import opened Naming

  const RuleId := "function-name"

  predicate IsValidFunctionName(conv: Conventions, name: string) {
    conv.snakeCase(name) || conv.privateSnakeCase(name)
  }

  function Message(name: string): string {
    "Function name '" + name + "' should be in snake_case, _private_snake_case format"
  }

  /** What the walk reports at one node: one Error at the name of a
      `function_definition` whose name is invalid, nothing anywhere else. */
  function FunctionNameIssues(conv: Conventions, n: Node): (r: seq<LintIssue>)
    ensures |r| <= 1
    ensures |r| == 1 <==> n.kind == "function_definition" && FieldChild(n, "name").Some?
                          && !IsValidFunctionName(conv, FieldChild(n, "name").value.text)
    ensures |r| == 1 ==> var name := FieldChild(n, "name").value;
              r[0] == LintIssue(name.row + 1, name.column + 1, RuleId, Error, Message(name.text))
  {
    if n.kind == "function_definition" then
      match FieldChild(n, "name")
      case Some(name) =>
        if !IsValidFunctionName(conv, name.text) then
          var line, column := name.row + 1, name.column + 1;
          [NewIssue(line, column, RuleId, Error, Message(name.text))]
        else []
      case None => []
    else []
  }

  /** Every issue the rule reports carries its id. */
  lemma IssueIds(conv: Conventions, n: Node, x: LintIssue)
    requires x in FunctionNameIssues(conv, n)
    ensures x.rule == RuleId
  {
    OnlyIssue(FunctionNameIssues(conv, n), x);
  }
}
