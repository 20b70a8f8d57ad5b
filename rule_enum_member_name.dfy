/** `enum-member-name`: every member of an enum is CONSTANT_CASE. */
module EnumMemberNameRule {
  import opened Common
  import opened Syntax
  import opened Diagnostics
  import opened Naming

  const RuleId := "enum-member-name"

  predicate IsValidEnumMemberName(conv: Conventions, name: string) {
    conv.constantCase(name)
  }

  function Message(name: string): string {
    "Enum element name '" + name + "' should be in CONSTANT_CASE format"
  }

  /** What the sibling loop reports for one child of an enum body: an Error
      at the `left` name of an `enumerator` whose name is non-empty and not
      CONSTANT_CASE; any other child is skipped. */
  function EnumeratorIssues(conv: Conventions, c: Node): (r: seq<LintIssue>)
    ensures |r| <= 1
    ensures |r| == 1 <==> c.kind == "enumerator" && FieldChild(c, "left").Some?
                          && FieldChild(c, "left").value.text != ""
                          && !conv.constantCase(FieldChild(c, "left").value.text)
    ensures |r| == 1 ==> var left := FieldChild(c, "left").value;
              r[0] == LintIssue(left.row + 1, left.column + 1, RuleId, Error, Message(left.text))
  {
    if c.kind == "enumerator" then
      match FieldChild(c, "left")
      case Some(left) =>
        if left.text != [] && !IsValidEnumMemberName(conv, left.text) then
          var line, column := left.row + 1, left.column + 1;
          [NewIssue(line, column, RuleId, Error, Message(left.text))]
        else []
      case None => []
    else []
  }

  /** `EnumeratorIssues` with its conventions fixed. */
  function Checker(conv: Conventions): Node -> seq<LintIssue> {
    c => EnumeratorIssues(conv, c)
  }

  /** At an `enum_definition` with a body, the issues of its members in
      order; nothing anywhere else. */
  function EnumMemberNameIssues(conv: Conventions, n: Node): (r: seq<LintIssue>)
    ensures n.kind != "enum_definition" || FieldChild(n, "body").None? ==> r == []
  {
    if n.kind == "enum_definition" then
      match FieldChild(n, "body")
      case Some(body) => FlatMap(body.children, Checker(conv))
      case None => []
    else []
  }

  /** The `enum_cursor` loop over the children of an enum body: check each
      `enumerator`'s `left` name and skip every other child. */
  method CheckMembers(conv: Conventions, members: seq<Node>) returns (issues: seq<LintIssue>)
    ensures issues == FlatMap(members, Checker(conv))
  {
    issues := [];
    var i := 0;
    while i < |members|
      invariant i <= |members|
      invariant issues == FlatMap(members[..i], Checker(conv))
    {
      FlatMapPrefix(members, i, Checker(conv));
      var member := members[i];
      if member.kind == "enumerator" {
        var left := FieldChild(member, "left");
        if left.Some? {
          var name := left.value.text;
          if name != [] && !IsValidEnumMemberName(conv, name) {
            var line, column := left.value.row + 1, left.value.column + 1;
            issues := issues + [NewIssue(line, column, RuleId, Error, Message(name))];
          }
        }
      }
      i := i + 1;
    }
    assert members[..i] == members;
  }

  /** An issue is reported at an enum exactly when one of its members
      reports it. */
  lemma EnumMemberNameMember(conv: Conventions, n: Node, x: LintIssue)
    ensures x in EnumMemberNameIssues(conv, n) <==>
              (n.kind == "enum_definition" && FieldChild(n, "body").Some?
               && exists k :: 0 <= k < |FieldChild(n, "body").value.children|
                    && x in EnumeratorIssues(conv, FieldChild(n, "body").value.children[k]))
  {
    if n.kind == "enum_definition" && FieldChild(n, "body").Some? {
      FlatMapMember(FieldChild(n, "body").value.children, Checker(conv), x);
    }
  }

  /** Every issue the rule reports carries its id. */
  lemma IssueIds(conv: Conventions, n: Node, x: LintIssue)
    requires x in EnumMemberNameIssues(conv, n)
    ensures x.rule == RuleId
  {
    EnumMemberNameMember(conv, n, x);
    var cs := FieldChild(n, "body").value.children;
    var k :| 0 <= k < |cs| && x in EnumeratorIssues(conv, cs[k]);
    OnlyIssue(EnumeratorIssues(conv, cs[k]), x);
  }
}
