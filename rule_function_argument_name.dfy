/** `function-argument-name`: every parameter name is snake_case or
    _private_snake_case. */
module FunctionArgumentNameRule {
  import opened Common
  import opened Syntax
  import opened Diagnostics
  import opened Naming
  import opened Parameters

  const RuleId := "function-argument-name"

  predicate IsValidArgumentName(conv: Conventions, name: string) {
    conv.snakeCase(name) || conv.privateSnakeCase(name)
  }

  function Message(name: string): string {
    "Function argument '" + name + "' should be in snake_case or _private_snake_case format"
  }

  /** What the sibling loop reports for one child of a parameter list: an
      Error at the parameter node itself (not its name child) when it is one
      of the four parameter shapes and its name is non-empty and invalid. */
  function ParameterIssues(conv: Conventions, p: Node): (r: seq<LintIssue>)
    ensures |r| <= 1
    ensures |r| == 1 <==> IsParameter(p) && ParameterName(p) != ""
                          && !IsValidArgumentName(conv, ParameterName(p))
    ensures |r| == 1 ==> r[0] == LintIssue(p.row + 1, p.column + 1, RuleId, Error, Message(ParameterName(p)))
  {
    if IsParameter(p) then
      var name := ParameterName(p);
      if name != [] && !IsValidArgumentName(conv, name) then
        var line, column := p.row + 1, p.column + 1;
        [NewIssue(line, column, RuleId, Error, Message(name))]
      else []
    else []
  }

  /** `ParameterIssues` with its conventions fixed. */
  function Checker(conv: Conventions): Node -> seq<LintIssue> {
    p => ParameterIssues(conv, p)
  }

  /** At a `function_definition` with a `parameters` field, the issues of its
      parameters in order; nothing anywhere else. Nested definitions are met
      by the walk in their turn. */
  function FunctionArgumentNameIssues(conv: Conventions, n: Node): (r: seq<LintIssue>)
    ensures n.kind != "function_definition" || FieldChild(n, "parameters").None? ==> r == []
  {
    if n.kind == "function_definition" then
      match FieldChild(n, "parameters")
      case Some(params) => FlatMap(params.children, Checker(conv))
      case None => []
    else []
  }

  /** The `params_cursor` loop over the children of a parameter list: check
      each child of a parameter shape and skip the rest. */
  method CheckParameters(conv: Conventions, params: seq<Node>) returns (issues: seq<LintIssue>)
    ensures issues == FlatMap(params, Checker(conv))
  {
    issues := [];
    var i := 0;
    while i < |params|
      invariant i <= |params|
      invariant issues == FlatMap(params[..i], Checker(conv))
    {
      FlatMapPrefix(params, i, Checker(conv));
      var param := params[i];
      if IsParameter(param) {
        var name := if param.kind == "identifier" then param.text
                    else if param.children != [] then param.children[0].text
                    else "";
        if name != [] && !IsValidArgumentName(conv, name) {
          var line, column := param.row + 1, param.column + 1;
          issues := issues + [NewIssue(line, column, RuleId, Error, Message(name))];
        }
      }
      i := i + 1;
    }
    assert params[..i] == params;
  }

  /** An issue is reported at a definition exactly when one of its
      parameters reports it. */
  lemma FunctionArgumentNameMember(conv: Conventions, n: Node, x: LintIssue)
    ensures x in FunctionArgumentNameIssues(conv, n) <==>
              (n.kind == "function_definition" && FieldChild(n, "parameters").Some?
               && exists k :: 0 <= k < |FieldChild(n, "parameters").value.children|
                    && x in ParameterIssues(conv, FieldChild(n, "parameters").value.children[k]))
  {
    if n.kind == "function_definition" && FieldChild(n, "parameters").Some? {
      FlatMapMember(FieldChild(n, "parameters").value.children, Checker(conv), x);
    }
  }

  /** Every issue the rule reports carries its id. */
  lemma IssueIds(conv: Conventions, n: Node, x: LintIssue)
    requires x in FunctionArgumentNameIssues(conv, n)
    ensures x.rule == RuleId
  {
    FunctionArgumentNameMember(conv, n, x);
    var ps := FieldChild(n, "parameters").value.children;
    var k :| 0 <= k < |ps| && x in ParameterIssues(conv, ps[k]);
    OnlyIssue(ParameterIssues(conv, ps[k]), x);
  }
}
