/** `private-access`: members whose names start with `_` are private to
    their class; reaching them through any object other than `self` or
    `super` is an error. */
module PrivateAccessRule {
  import opened Common
  import opened Syntax
  import opened Text
  import opened Diagnostics

  const RuleId := "private-access"

  predicate IsPrivateName(name: string) {
    StartsWith(name, "_")
  }

  /** Objects through which private members may be used. */
  predicate IsOwnObject(text: string) {
    text == "super" || text == "self"
  }

  function MethodMessage(name: string): string {
    "Private method '" + name + "' should not be called from outside its class"
  }

  function VariableMessage(name: string): string {
    "Private variable '" + name + "' should not be accessed from outside its class"
  }

  /** What the walk reports at one node. Only an `attribute` with at least
      three children is inspected: its first child is the object and its
      third the member. A member that is an `attribute_call` is reported at
      its first child when that child's text is private; a member that is an
      `identifier` is reported at itself when its text is private; neither
      is reported when the object is `self` or `super`. */
  function PrivateAccessIssues(n: Node): (r: seq<LintIssue>)
    ensures |r| <= 1
    ensures |r| == 1 <==> (n.kind == "attribute" && |n.children| >= 3 && !IsOwnObject(n.children[0].text)
              && var member := n.children[2];
                 (member.kind == "attribute_call" && member.children != [] && IsPrivateName(member.children[0].text))
                 || (member.kind == "identifier" && IsPrivateName(member.text)))
    ensures |r| == 1 ==> var member := n.children[2];
              r[0] == if member.kind == "attribute_call"
                      then var m := member.children[0];
                           LintIssue(m.row + 1, m.column + 1, RuleId, Error, MethodMessage(m.text))
                      else LintIssue(member.row + 1, member.column + 1, RuleId, Error, VariableMessage(member.text))
  {
    if n.kind == "attribute" && n.children != [] then
      var objectName := n.children[0].text;
      if |n.children| >= 3 then
        var member := n.children[2];
        if member.kind == "attribute_call" then
          match FirstChild(member)
          case Some(nameNode) =>
            if IsPrivateName(nameNode.text) && !IsOwnObject(objectName) then
              var line, column := nameNode.row + 1, nameNode.column + 1;
              [NewIssue(line, column, RuleId, Error, MethodMessage(nameNode.text))]
            else []
          case None => []
        else if member.kind == "identifier" then
          if IsPrivateName(member.text) && !IsOwnObject(objectName) then
            var line, column := member.row + 1, member.column + 1;
            [NewIssue(line, column, RuleId, Error, VariableMessage(member.text))]
          else []
        else []
      else []
    else []
  }

  /** Every issue the rule reports carries its id. */
  lemma IssueIds(n: Node, x: LintIssue)
    requires x in PrivateAccessIssues(n)
    ensures x.rule == RuleId
  {
    OnlyIssue(PrivateAccessIssues(n), x);
  }
}
