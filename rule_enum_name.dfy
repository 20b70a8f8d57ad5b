/** `enum-name`: a named enum's name is PascalCase; anonymous enums are not checked. */
module EnumNameRule {
  import opened Common
  import opened Syntax
  import opened Diagnostics
  import opened Naming

  const RuleId := "enum-name"

  predicate IsValidEnumName(conv: Conventions, name: string) {
    conv.pascalCase(name)
  }

  function Message(name: string): string {
    "Enum name '" + name + "' should be in PascalCase format"
  }

  /** One Error at the name of an `enum_definition` whose name is not
      PascalCase, nothing anywhere else. */
  function EnumNameIssues(conv: Conventions, n: Node): (r: seq<LintIssue>)
    ensures |r| <= 1
    ensures |r| == 1 <==> n.kind == "enum_definition" && FieldChild(n, "name").Some?
                          && !conv.pascalCase(FieldChild(n, "name").value.text)
    ensures |r| == 1 ==> var name := FieldChild(n, "name").value;
              r[0] == LintIssue(name.row + 1, name.column + 1, RuleId, Error, Message(name.text))
  {
    if n.kind == "enum_definition" then
      match FieldChild(n, "name")
      case Some(name) =>
        if !IsValidEnumName(conv, name.text) then
          var line, column := name.row + 1, name.column + 1;
          [NewIssue(line, column, RuleId, Error, Message(name.text))]
        else []
      case None => []
    else []
  }

  /** Every issue the rule reports carries its id. */
  lemma IssueIds(conv: Conventions, n: Node, x: LintIssue)
    requires x in EnumNameIssues(conv, n)
    ensures x.rule == RuleId
  {
    OnlyIssue(EnumNameIssues(conv, n), x);
  }
}
