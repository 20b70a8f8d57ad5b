/** `unnecessary-pass`: a `pass` statement in a block that holds any other
    statement does nothing. */
module UnnecessaryPassRule {
  import opened Common
  import opened Syntax
  import opened Diagnostics

  const RuleId := "unnecessary-pass"

  const Message := "Unnecessary 'pass' statement when other statements are present"

  predicate IsBlock(kind: string) {
    kind == "body" || kind == "class_body"
  }

  /** A child of a block that is neither `pass` nor layout or a comment. */
  predicate IsOtherStatement(c: Node) {
    c.kind != "pass_statement" && !IsTrivia(c.kind)
  }

  predicate HasOtherStatement(cs: seq<Node>) {
    exists k :: 0 <= k < |cs| && IsOtherStatement(cs[k])
  }

  /** The `pass` statements among a block's children, in order. */
  function PassStatements(cs: seq<Node>): (r: seq<Node>)
    ensures forall p :: p in r <==> p in cs && p.kind == "pass_statement"
    ensures |r| <= |cs|
  {
    if cs == [] then []
    else
      var init := PassStatements(cs[..|cs| - 1]);
      assert cs == cs[..|cs| - 1] + [cs[|cs| - 1]];
      if cs[|cs| - 1].kind == "pass_statement" then init + [cs[|cs| - 1]] else init
  }

  lemma HasOtherStep(cs: seq<Node>, i: nat)
    requires i < |cs|
    ensures HasOtherStatement(cs[..i + 1]) <==> HasOtherStatement(cs[..i]) || IsOtherStatement(cs[i])
  {
    var p := cs[..i + 1];
    assert p[i] == cs[i];
    assert forall k :: 0 <= k < i ==> p[k] == cs[..i][k];
  }

  /** The sibling loop of `traverse`: one pass over a block's children that
      collects its `pass` statements and notes whether anything else is there. */
  method ScanBlock(cs: seq<Node>) returns (hasOther: bool, passNodes: seq<Node>)
    ensures hasOther <==> HasOtherStatement(cs)
    ensures passNodes == PassStatements(cs)
  {
    hasOther := false;
    passNodes := [];
    var i := 0;
    while i < |cs|
      invariant i <= |cs|
      invariant hasOther <==> HasOtherStatement(cs[..i])
      invariant passNodes == PassStatements(cs[..i])
    {
      assert cs[..i + 1][..i] == cs[..i];
      HasOtherStep(cs, i);
      if cs[i].kind == "pass_statement" {
        passNodes := passNodes + [cs[i]];
      } else if !IsTrivia(cs[i].kind) {
        hasOther := true;
      }
      i := i + 1;
    }
    assert cs[..i] == cs;
  }

  function PassIssue(p: Node): LintIssue {
    LintIssue(p.row + 1, p.column + 1, RuleId, Warning, Message)
  }

  function PassIssues(ps: seq<Node>): (r: seq<LintIssue>)
    ensures |r| == |ps| && forall k :: 0 <= k < |ps| ==> r[k] == PassIssue(ps[k])
  {
    if ps == [] then [] else [PassIssue(ps[0])] + PassIssues(ps[1..])
  }

  /** What the walk reports at one node: at a block holding some statement
      other than `pass`, one Warning per `pass` child in order; nothing
      anywhere else, so a block holding only `pass` (and layout) is fine. */
  function UnnecessaryPassIssues(n: Node): (r: seq<LintIssue>)
    ensures forall x :: x in r ==> x.rule == RuleId
    ensures !IsBlock(n.kind) || !HasOtherStatement(n.children) ==> r == []
    ensures IsBlock(n.kind) && HasOtherStatement(n.children) ==>
              |r| == |PassStatements(n.children)|
              && forall k :: 0 <= k < |r| ==> r[k] == PassIssue(PassStatements(n.children)[k])
  {
    if IsBlock(n.kind) && HasOtherStatement(n.children) then PassIssues(PassStatements(n.children))
    else []
  }

  /** Every reported `pass` is a child of the block with the same position, and
      every `pass` child of a block with another statement is reported. */
  lemma ReportedPasses(n: Node, x: LintIssue)
    requires IsBlock(n.kind) && HasOtherStatement(n.children)
    ensures x in UnnecessaryPassIssues(n) <==>
              exists p :: p in n.children && p.kind == "pass_statement" && x == PassIssue(p)
  {
    var ps := PassStatements(n.children);
    var r := UnnecessaryPassIssues(n);
    if x in r {
      var k :| 0 <= k < |r| && r[k] == x;
      assert ps[k] in ps;
    }
    if exists p :: p in n.children && p.kind == "pass_statement" && x == PassIssue(p) {
      var p :| p in n.children && p.kind == "pass_statement" && x == PassIssue(p);
      var k :| 0 <= k < |ps| && ps[k] == p;
      assert r[k] == x;
    }
  }
}
