/** `signal-name`: a signal's name is snake_case; the private form is not accepted. */
module SignalNameRule {
  import opened Common
  import opened Syntax
  import opened Diagnostics
  import opened Naming

  const RuleId := "signal-name"

  predicate IsValidSignalName(conv: Conventions, name: string) {
    conv.snakeCase(name)
  }

  function Message(name: string): string {
    "Signal name '" + name + "' should be in snake_case format"
  }

  /** One Error at the name of a `signal_statement` whose name is not
      snake_case, nothing anywhere else. */
  function SignalNameIssues(conv: Conventions, n: Node): (r: seq<LintIssue>)
    ensures |r| <= 1
    ensures |r| == 1 <==> n.kind == "signal_statement" && FieldChild(n, "name").Some?
                          && !conv.snakeCase(FieldChild(n, "name").value.text)
    ensures |r| == 1 ==> var name := FieldChild(n, "name").value;
              r[0] == LintIssue(name.row + 1, name.column + 1, RuleId, Error, Message(name.text))
  {
    if n.kind == "signal_statement" then
      match FieldChild(n, "name")
      case Some(name) =>
        if !IsValidSignalName(conv, name.text) then
          var line, column := name.row + 1, name.column + 1;
          [NewIssue(line, column, RuleId, Error, Message(name.text))]
        else []
      case None => []
    else []
  }

  /** Every issue the rule reports carries its id. */
  lemma IssueIds(conv: Conventions, n: Node, x: LintIssue)
    requires x in SignalNameIssues(conv, n)
    ensures x.rule == RuleId
  {
    OnlyIssue(SignalNameIssues(conv, n), x);
  }
}
