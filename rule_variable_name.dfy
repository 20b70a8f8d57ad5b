/** `variable-name`: variable names are snake_case or _private_snake_case;
    a variable initialised by `load`/`preload` may also be PascalCase, and
    its violations carry the id "load-variable-name". */
module VariableNameRule {
  import opened Common
  import opened Syntax
  import opened Diagnostics
  import opened Naming

  const RuleId := "variable-name"
  const LoadRuleId := "load-variable-name"

  /** Every name valid for a plain variable is valid for a load variable. */
  predicate IsValidVariableName(conv: Conventions, name: string)
    ensures IsValidVariableName(conv, name) ==> IsValidLoadVariableName(conv, name)
  {
    conv.snakeCase(name) || conv.privateSnakeCase(name)
  }

  predicate IsValidLoadVariableName(conv: Conventions, name: string) {
    conv.pascalCase(name) || conv.snakeCase(name) || conv.privateSnakeCase(name)
  }

  /** `is_load_call`: a `call` whose first child's text is `load` or `preload`. */
  predicate IsLoadCall(v: Node)
    ensures IsLoadCall(v) <==> v.kind == "call" && v.children != []
                               && (v.children[0].text == "load" || v.children[0].text == "preload")
  {
    if v.kind == "call" then
      match FirstChild(v)
      case Some(f) => f.text == "load" || f.text == "preload"
      case None => false
    else false
  }

  predicate IsVariableStatement(kind: string) {
    kind == "variable_statement" || kind == "export_variable_statement"
    || kind == "onready_variable_statement"
  }

  predicate IsLoadInitialised(n: Node) {
    match FieldChild(n, "value")
    case Some(v) => IsLoadCall(v)
    case None => false
  }

  function LoadMessage(name: string): string {
    "Variable name '" + name + "' should be in PascalCase, snake_case or _private_snake_case format"
  }

  function Message(name: string): string {
    "Variable name '" + name + "' should be in snake_case or _private_snake_case format"
  }

  /** At a variable declaration with a name: a load-initialised variable is
      reported (as "load-variable-name") iff its name is neither PascalCase,
      snake_case nor _private_snake_case, any other (as "variable-name") iff
      it is neither snake_case nor _private_snake_case. At most one Error, at
      the name node. */
  function VariableNameIssues(conv: Conventions, n: Node): (r: seq<LintIssue>)
    ensures |r| <= 1
    ensures |r| == 1 <==> (IsVariableStatement(n.kind) && FieldChild(n, "name").Some?
              && var name := FieldChild(n, "name").value.text;
                 if IsLoadInitialised(n) then !conv.pascalCase(name) && !conv.snakeCase(name) && !conv.privateSnakeCase(name)
                 else !conv.snakeCase(name) && !conv.privateSnakeCase(name))
    ensures |r| == 1 ==> var name := FieldChild(n, "name").value;
              r[0] == if IsLoadInitialised(n)
                      then LintIssue(name.row + 1, name.column + 1, LoadRuleId, Error, LoadMessage(name.text))
                      else LintIssue(name.row + 1, name.column + 1, RuleId, Error, Message(name.text))
  {
    if IsVariableStatement(n.kind) && FieldChild(n, "name").Some? then
      var nameNode := FieldChild(n, "name").value;
      var name := nameNode.text;
      var line, column := nameNode.row + 1, nameNode.column + 1;
      if IsLoadInitialised(n) then
        if !IsValidLoadVariableName(conv, name) then [NewIssue(line, column, LoadRuleId, Error, LoadMessage(name))]
        else []
      else
        if !IsValidVariableName(conv, name) then [NewIssue(line, column, RuleId, Error, Message(name))]
        else []
    else []
  }

  /** Every issue the rule reports carries its id. */
  lemma IssueIds(conv: Conventions, n: Node, x: LintIssue)
    requires x in VariableNameIssues(conv, n)
    ensures x.rule == RuleId || x.rule == LoadRuleId
  {
    OnlyIssue(VariableNameIssues(conv, n), x);
  }
}
