/** `no-else-return`: after an `if` block that ends with `return`, an `elif`
    is unnecessary, and so is an `else` when every block before it ends with
    `return`. */
module NoElseReturnRule {
  import opened Common
  import opened Syntax
  import opened Diagnostics

  const RuleId := "no-else-return"

  const ElifMessage := "Unnecessary 'elif' after 'if' block that ends with 'return'. Use 'if' instead"

  const ElseMessage := "Unnecessary 'else' after 'if'/'elif' blocks that end with 'return'"

  /** The last child of a block that is not layout or a comment, if any. */
  function LastStatement(cs: seq<Node>): (r: Option<Node>)
    ensures r.None? <==> forall k :: 0 <= k < |cs| ==> IsTrivia(cs[k].kind)
    ensures r.Some? ==> exists k :: 0 <= k < |cs| && cs[k] == r.value && !IsTrivia(cs[k].kind)
                          && forall j :: k < j < |cs| ==> IsTrivia(cs[j].kind)
  {
    if cs == [] then None
    else if !IsTrivia(cs[|cs| - 1].kind) then Some(cs[|cs| - 1])
    else
      var r := LastStatement(cs[..|cs| - 1]);
      assert forall k :: 0 <= k < |cs| - 1 ==> cs[..|cs| - 1][k] == cs[k];
      r
  }

  /** A block ends with `return` when its last statement is a `return_statement`;
      a block with no statement does not. */
  predicate EndsWithReturn(body: Node) {
    match LastStatement(body.children)
    case Some(s) => s.kind == "return_statement"
    case None => false
  }

  /** `body_ends_with_return`: remembers the last non-layout child met. */
  method BodyEndsWithReturn(body: Node) returns (b: bool)
    ensures b == EndsWithReturn(body)
  {
    var cs := body.children;
    var last: Option<Node> := None;
    var i := 0;
    while i < |cs|
      invariant i <= |cs|
      invariant last == LastStatement(cs[..i])
    {
      assert cs[..i + 1][..i] == cs[..i];
      if !IsTrivia(cs[i].kind) {
        last := Some(cs[i]);
      }
      i := i + 1;
    }
    assert cs[..i] == cs;
    if last.Some? {
      return last.value.kind == "return_statement";
    }
    return false;
  }

  /** An `elif` that has a body not ending with `return`. */
  predicate IsOpenElif(c: Node) {
    c.kind == "elif_clause" && FieldChild(c, "body").Some? && !EndsWithReturn(FieldChild(c, "body").value)
  }

  /** Whether every branch met among `cs` so far ends with `return`: the
      `if` block does, and no `elif` among them has a body that does not. */
  function AllBranchesReturn(cs: seq<Node>, ifReturns: bool): (b: bool)
    ensures b <==> ifReturns && forall k :: 0 <= k < |cs| ==> !IsOpenElif(cs[k])
  {
    if cs == [] then ifReturns
    else
      assert forall k :: 0 <= k < |cs| - 1 ==> cs[..|cs| - 1][k] == cs[k];
      AllBranchesReturn(cs[..|cs| - 1], ifReturns) && !IsOpenElif(cs[|cs| - 1])
  }

  function ElifIssue(c: Node): LintIssue {
    LintIssue(c.row + 1, c.column + 1, RuleId, Warning, ElifMessage)
  }

  function ElseIssue(c: Node): LintIssue {
    LintIssue(c.row + 1, c.column + 1, RuleId, Warning, ElseMessage)
  }

  /** The issues of the clauses among an `if_statement`'s children, in order. */
  function ClauseIssues(cs: seq<Node>, ifReturns: bool): (r: seq<LintIssue>)
    ensures forall x :: x in r ==> x.rule == RuleId
  {
    if cs == [] then []
    else
      var c := cs[|cs| - 1];
      ClauseIssues(cs[..|cs| - 1], ifReturns)
      + (if c.kind == "elif_clause" && ifReturns then [ElifIssue(c)]
         else if c.kind == "else_clause" && AllBranchesReturn(cs[..|cs| - 1], ifReturns) then [ElseIssue(c)]
         else [])
  }

  /** `x` is the issue of clause `k`: an `elif` when the `if` block ends with
      `return`, an `else` when the `if` block and every `elif` before it do. */
  predicate ReportedAt(cs: seq<Node>, ifReturns: bool, x: LintIssue, k: int) {
    0 <= k < |cs|
    && ((cs[k].kind == "elif_clause" && ifReturns && x == ElifIssue(cs[k]))
        || (cs[k].kind == "else_clause" && AllBranchesReturn(cs[..k], ifReturns) && x == ElseIssue(cs[k])))
  }

  /** Exactly the clauses described by `ReportedAt` are reported. */
  lemma {:induction false} ClauseIssuesMember(cs: seq<Node>, ifReturns: bool, x: LintIssue)
    ensures x in ClauseIssues(cs, ifReturns) <==> exists k :: ReportedAt(cs, ifReturns, x, k)
  {
    if cs != [] {
      var n := |cs|;
      var init := cs[..n - 1];
      ClauseIssuesMember(init, ifReturns, x);
      if x in ClauseIssues(init, ifReturns) {
        var k :| ReportedAt(init, ifReturns, x, k);
        assert init[k] == cs[k] && init[..k] == cs[..k];
        assert ReportedAt(cs, ifReturns, x, k);
      } else if x in ClauseIssues(cs, ifReturns) {
        assert ReportedAt(cs, ifReturns, x, n - 1);
      }
      if exists k :: ReportedAt(cs, ifReturns, x, k) {
        var k :| ReportedAt(cs, ifReturns, x, k);
        if k < n - 1 {
          assert init[k] == cs[k] && init[..k] == cs[..k];
          assert ReportedAt(init, ifReturns, x, k);
        }
      }
    }
  }

  /** The sibling loop of `traverse` at an `if_statement`, with the flag
      that records whether every branch so far ends with `return`. */
  method ScanClauses(cs: seq<Node>, ifReturns: bool) returns (issues: seq<LintIssue>)
    ensures issues == ClauseIssues(cs, ifReturns)
  {
    issues := [];
    var allBranchesReturn := ifReturns;
    var i := 0;
    while i < |cs|
      invariant i <= |cs|
      invariant allBranchesReturn == AllBranchesReturn(cs[..i], ifReturns)
      invariant issues == ClauseIssues(cs[..i], ifReturns)
    {
      var c := cs[i];
      assert cs[..i + 1][..i] == cs[..i] && cs[..i + 1][i] == c;
      if c.kind == "elif_clause" {
        if ifReturns {
          issues := issues + [ElifIssue(c)];
        }
        var body := FieldChild(c, "body");
        if body.Some? {
          var bodyReturns := BodyEndsWithReturn(body.value);
          if !bodyReturns {
            allBranchesReturn := false;
          }
        }
      } else if c.kind == "else_clause" {
        if allBranchesReturn {
          issues := issues + [ElseIssue(c)];
        }
      }
      i := i + 1;
    }
    assert cs[..i] == cs;
  }

  /** What the walk reports at one node: the clause issues of an
      `if_statement`, nothing anywhere else. */
  function NoElseReturnIssues(n: Node): (r: seq<LintIssue>)
    ensures forall x :: x in r ==> x.rule == RuleId
  {
    if n.kind == "if_statement" then
      var ifReturns := match FieldChild(n, "body")
        case Some(body) => EndsWithReturn(body)
        case None => false;
      ClauseIssues(n.children, ifReturns)
    else []
  }

  /** The `if_statement` branch of `traverse`. */
  method CheckIfStatement(n: Node) returns (issues: seq<LintIssue>)
    requires n.kind == "if_statement"
    ensures issues == NoElseReturnIssues(n)
  {
    var ifReturns := false;
    var body := FieldChild(n, "body");
    if body.Some? {
      ifReturns := BodyEndsWithReturn(body.value);
    }
    issues := ScanClauses(n.children, ifReturns);
  }

  /** When the `if` block does not end with `return`, no clause is reported. */
  lemma {:induction false} NothingWithoutIfReturn(cs: seq<Node>)
    ensures ClauseIssues(cs, false) == []
  {
    if cs != [] {
      NothingWithoutIfReturn(cs[..|cs| - 1]);
    }
  }

  /** An `else` that follows an `elif` whose body does not end with `return`
      is never reported. */
  lemma ElseAfterOpenElifNotReported(cs: seq<Node>, ifReturns: bool, j: nat, k: nat)
    requires j < k < |cs| && IsOpenElif(cs[j]) && cs[k].kind == "else_clause"
    ensures !AllBranchesReturn(cs[..k], ifReturns)
  {
    assert cs[..k][j] == cs[j];
  }
}
