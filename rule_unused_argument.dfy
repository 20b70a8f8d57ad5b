/** `unused-argument`: a parameter whose name never occurs as an identifier
    in the function's body is unused, unless its name starts with `_`. */
module UnusedArgumentRule {
  import opened Common
  import opened Syntax
  import opened Text
  import opened Diagnostics
  import opened Parameters

  const RuleId := "unused-argument"

  function Message(name: string): string {
    "Function argument '" + name + "' is unused. Consider removing it or prefixing with '_'"
  }

  predicate IsUse(m: Node, id: string) {
    m.kind == "identifier" && m.text == id
  }

  /** Some `identifier` node of the subtree, the root included, has the
      identifier's text. */
  predicate IsUsed(body: Node, id: string) {
    exists m :: m in Nodes(body) && IsUse(m, id)
  }

  lemma NodesUnfold(n: Node, rest: seq<Node>)
    ensures Forest([n] + rest, Single) == [n] + Forest(n.children + rest, Single)
    ensures ForestSize(n.children + rest) == ForestSize(n.children) + ForestSize(rest)
  {
    ForestAppend(n.children, rest, Single);
    assert ([n] + rest)[0] == n && ([n] + rest)[1..] == rest;
  }

  /** `is_identifier_used_in_node`: a depth-first search that stops at the
      first matching identifier, with an explicit stack of subtrees still to
      visit whose top is its first element. */
  method IsIdentifierUsed(body: Node, id: string) returns (used: bool)
    ensures used <==> IsUsed(body, id)
  {
    var stack := [body];
    assert Forest(stack, Single) == Nodes(body) + Forest([], Single);
    while stack != []
      invariant IsUsed(body, id) <==> exists m :: m in Forest(stack, Single) && IsUse(m, id)
      decreases ForestSize(stack)
    {
      var n := stack[0];
      assert ForestSize(stack) == 1 + ForestSize(n.children) + ForestSize(stack[1..]);
      assert stack == [n] + stack[1..];
      NodesUnfold(n, stack[1..]);
      if IsUse(n, id) {
        return true;
      }
      stack := n.children + stack[1..];
    }
    return false;
  }

  /** A parameter the rule checks: one of the parameter shapes with a
      non-empty name that does not start with `_`. */
  predicate IsChecked(p: Node) {
    IsParameter(p) && ParameterName(p) != "" && !StartsWith(ParameterName(p), "_")
  }

  function UnusedIssue(p: Node): LintIssue {
    LintIssue(p.row + 1, p.column + 1, RuleId, Warning, Message(ParameterName(p)))
  }

  /** The checked parameters among `ps`, in order. */
  function CheckedParameters(ps: seq<Node>): (r: seq<Node>)
    ensures forall p :: p in r <==> p in ps && IsChecked(p)
  {
    if ps == [] then []
    else
      var init := CheckedParameters(ps[..|ps| - 1]);
      assert ps == ps[..|ps| - 1] + [ps[|ps| - 1]];
      if IsChecked(ps[|ps| - 1]) then init + [ps[|ps| - 1]] else init
  }

  /** The issues for the checked parameters among `ps` that `body` does not
      use, in parameter order. */
  function UnusedIssues(ps: seq<Node>, body: Node): (r: seq<LintIssue>)
    ensures forall x :: x in r <==>
              exists p :: p in ps && IsChecked(p) && !IsUsed(body, ParameterName(p)) && x == UnusedIssue(p)
  {
    if ps == [] then []
    else
      var last := ps[|ps| - 1];
      assert ps == ps[..|ps| - 1] + [last];
      UnusedIssues(ps[..|ps| - 1], body)
      + (if IsChecked(last) && !IsUsed(body, ParameterName(last)) then [UnusedIssue(last)] else [])
  }

  /** Dropping the unchecked parameters first changes nothing. */
  lemma {:induction false} CheckedFirst(ps: seq<Node>, body: Node)
    ensures UnusedIssues(CheckedParameters(ps), body) == UnusedIssues(ps, body)
  {
    if ps != [] {
      var init := ps[..|ps| - 1];
      var last := ps[|ps| - 1];
      CheckedFirst(init, body);
      if IsChecked(last) {
        var c := CheckedParameters(init) + [last];
        assert c[..|c| - 1] == CheckedParameters(init);
      }
    }
  }

  /** What the walk reports at one node: at a `function_definition` with a
      body, one Warning at each checked parameter the body does not use, in
      order; nothing anywhere else (a definition without a body reports
      nothing). */
  function UnusedArgumentIssues(n: Node): (r: seq<LintIssue>)
    ensures forall x :: x in r ==> x.rule == RuleId
    ensures forall x :: x in r <==>
              (n.kind == "function_definition" && FieldChild(n, "body").Some? && FieldChild(n, "parameters").Some?
               && exists p :: p in FieldChild(n, "parameters").value.children && IsChecked(p)
                              && !IsUsed(FieldChild(n, "body").value, ParameterName(p)) && x == UnusedIssue(p))
  {
    if n.kind == "function_definition" then
      match (FieldChild(n, "parameters"), FieldChild(n, "body"))
      case (Some(params), Some(body)) => UnusedIssues(params.children, body)
      case _ => []
    else []
  }

  /** The first loop of the `function_definition` branch: keep the
      parameters the rule checks. */
  method CollectChecked(ps: seq<Node>) returns (checked: seq<Node>)
    ensures checked == CheckedParameters(ps)
  {
    checked := [];
    var i := 0;
    while i < |ps|
      invariant i <= |ps|
      invariant checked == CheckedParameters(ps[..i])
    {
      assert ps[..i + 1][..i] == ps[..i];
      if IsChecked(ps[i]) {
        checked := checked + [ps[i]];
      }
      i := i + 1;
    }
    assert ps[..i] == ps;
  }

  /** The second loop: search the body for each checked parameter and
      report the ones it never uses. */
  method ReportUnused(checked: seq<Node>, body: Node) returns (issues: seq<LintIssue>)
    requires forall p :: p in checked ==> IsChecked(p)
    ensures issues == UnusedIssues(checked, body)
  {
    issues := [];
    var j := 0;
    while j < |checked|
      invariant j <= |checked|
      invariant issues == UnusedIssues(checked[..j], body)
    {
      assert checked[..j + 1][..j] == checked[..j];
      assert checked[j] in checked;
      var used := IsIdentifierUsed(body, ParameterName(checked[j]));
      if !used {
        issues := issues + [UnusedIssue(checked[j])];
      }
      j := j + 1;
    }
    assert checked[..j] == checked;
  }

  /** The `function_definition` branch of `traverse`: collect the checked
      parameters, then search the body for each. */
  method CheckFunction(n: Node) returns (issues: seq<LintIssue>)
    requires n.kind == "function_definition"
    ensures issues == UnusedArgumentIssues(n)
  {
    var checked: seq<Node> := [];
    var params := FieldChild(n, "parameters");
    if params.Some? {
      checked := CollectChecked(params.value.children);
    }
    issues := [];
    var body := FieldChild(n, "body");
    if body.Some? {
      issues := ReportUnused(checked, body.value);
      if params.Some? {
        CheckedFirst(params.value.children, body.value);
      }
    }
  }
}
