/** The linter's entry point: parse, build the enabled rules in registry
    order, run each over the tree, drop the suppressed issues and sort the
    rest by position. */
module Linter {
  import opened Common
  import opened Syntax
  import opened Text
  import opened Diagnostics
  import opened Naming
  import opened Ordering
  import opened QueryRule
  import opened Registry
  import DuplicatedLoadRule
  import StandaloneExpressionRule
  import UnnecessaryPassRule
  import UnusedArgumentRule
  import ComparisonWithItselfRule
  import PrivateAccessRule
  import MaxLineLengthRule
  import NoElseReturnRule
  import FunctionNameRule
  import ClassNameRule
  import SignalNameRule
  import VariableNameRule
  import FunctionArgumentNameRule
  import LoopVariableNameRule
  import EnumNameRule
  import EnumMemberNameRule
  import ConstantNameRule

  /** What the linter obtains from code outside this model, for one source
      text: the tree the parser builds (None when parsing fails), whether an
      ignore comment suppresses a rule on a line, and the error the query
      engine reports when it rejects a pattern. */
  datatype Foreign = Foreign(
    parsed: Option<Node>,
    ignores: (nat, string) -> bool,
    queryError: string -> Option<string>)

  const ParseError := "Failed to parse GDScript code"

  /** What a rule that walks the tree reports at one node. */
  function Visit(rule: RuleInstance, conv: Conventions, n: Node): seq<LintIssue> {
    match rule
    case StandaloneExpression => StandaloneExpressionRule.StandaloneExpressionIssues(n)
    case UnnecessaryPass => UnnecessaryPassRule.UnnecessaryPassIssues(n)
    case UnusedArgument => UnusedArgumentRule.UnusedArgumentIssues(n)
    case ComparisonWithItself => ComparisonWithItselfRule.ComparisonIssues(n)
    case PrivateAccess => PrivateAccessRule.PrivateAccessIssues(n)
    case NoElseReturn => NoElseReturnRule.NoElseReturnIssues(n)
    case FunctionName => FunctionNameRule.FunctionNameIssues(conv, n)
    case SignalName => SignalNameRule.SignalNameIssues(conv, n)
    case VariableName => VariableNameRule.VariableNameIssues(conv, n)
    case FunctionArgumentName => FunctionArgumentNameRule.FunctionArgumentNameIssues(conv, n)
    case LoopVariableName => LoopVariableNameRule.LoopVariableNameIssues(conv, n)
    case EnumName => EnumNameRule.EnumNameIssues(conv, n)
    case EnumMemberName => EnumMemberNameRule.EnumMemberNameIssues(conv, n)
    case _ => []
  }

  /** The per-node check of a rule that walks the tree, as the walk takes it. */
  function VisitOf(rule: RuleInstance, conv: Conventions): Node -> seq<LintIssue> {
    n => Visit(rule, conv, n)
  }

  /** The results a rule's `check` may return on a parsed source. Every rule
      but the pattern-based ones always succeeds; the duplicated-load rule
      may order its paths in any way its hash map iterates. */
  ghost predicate Produces(rule: RuleInstance, conv: Conventions, foreign: Foreign, source: string,
                           root: Node, out: Result<seq<LintIssue>>) {
    match rule
    case DuplicatedLoad =>
      var m := DuplicatedLoadRule.LoadPaths(DuplicatedLoadRule.Sites(root));
      out.Ok? && exists order :: DuplicatedLoadRule.IsKeyOrder(order, m)
                                  && out.value == DuplicatedLoadRule.Emission(m, order)
    case MaxLineLength(config) =>
      out == Ok(MaxLineLengthRule.LongLineIssues(MaxLineLengthRule.Lines(source), config.maxLineLength))
    case ClassName =>
      out == CheckResult(foreign.queryError(ClassNameRule.Pattern), ClassNameRule.Matches(root),
                         ClassNameRule.ProcessMatch)
    case ConstantName =>
      out == CheckResult(foreign.queryError(ConstantNameRule.Pattern), ConstantNameRule.Matches(root),
                         ConstantNameRule.Processor(conv))
    case _ => out == Ok(PreOrder(root, VisitOf(rule, conv)))
  }

  /** `checker.check(source_code, &root_node)`. */
  method RunRule(rule: RuleInstance, conv: Conventions, foreign: Foreign, source: string, root: Node)
    returns (out: Result<seq<LintIssue>>)
    ensures Produces(rule, conv, foreign, source, root, out)
  {
    match rule {
      case DuplicatedLoad =>
        var issues;
        ghost var order;
        issues, order := DuplicatedLoadRule.CheckDuplicatedLoad(root);
        out := Ok(issues);
      case MaxLineLength(config) =>
        var issues := MaxLineLengthRule.CheckMaxLineLength(source, config.maxLineLength);
        out := Ok(issues);
      case ClassName =>
        out := Check(foreign.queryError(ClassNameRule.Pattern), ClassNameRule.Matches(root),
                     ClassNameRule.ProcessMatch);
      case ConstantName =>
        out := Check(foreign.queryError(ConstantNameRule.Pattern), ConstantNameRule.Matches(root),
                     ConstantNameRule.Processor(conv));
      case _ =>
        var issues := Walk(root, VisitOf(rule, conv));
        out := Ok(issues);
    }
  }

  /** The rules built from the definitions whose names are not disabled, in
      order. */
  function Enabled(defs: seq<RuleDefinition>, config: LinterConfig): (r: seq<RuleInstance>)
    ensures forall rule :: rule in r <==>
              exists k :: 0 <= k < |defs| && defs[k].name !in config.disabledRules
                          && rule == defs[k].Create(config)
  {
    if defs == [] then []
    else
      var init := defs[..|defs| - 1];
      var d := defs[|defs| - 1];
      assert forall k :: 0 <= k < |init| ==> init[k] == defs[k];
      Enabled(init, config) + (if d.name !in config.disabledRules then [d.Create(config)] else [])
  }

  function EnabledRules(config: LinterConfig): seq<RuleInstance> {
    Enabled(AllRules(), config)
  }

  /** An enabled rule's id is never disabled. */
  lemma EnabledIdsNotDisabled(config: LinterConfig, rule: RuleInstance)
    requires rule in EnabledRules(config)
    ensures RuleId(rule) !in config.disabledRules
  {
    DefinitionIds(config);
  }

  /** The issues of the successful results, in order. */
  function Collected(outs: seq<Result<seq<LintIssue>>>): seq<LintIssue> {
    if outs == [] then []
    else
      var last := outs[|outs| - 1];
      Collected(outs[..|outs| - 1]) + (if last.Ok? then last.value else [])
  }

  /** The issues no ignore comment suppresses, in order. */
  function Unsuppressed(xs: seq<LintIssue>, ignores: (nat, string) -> bool): (r: seq<LintIssue>)
    ensures forall x :: x in r <==> x in xs && !ignores(x.line, x.rule)
  {
    if xs == [] then []
    else
      var last := xs[|xs| - 1];
      assert xs == xs[..|xs| - 1] + [last];
      Unsuppressed(xs[..|xs| - 1], ignores) + (if !ignores(last.line, last.rule) then [last] else [])
  }

  lemma {:induction false} UnsuppressedAppend(a: seq<LintIssue>, b: seq<LintIssue>, ignores: (nat, string) -> bool)
    ensures Unsuppressed(a + b, ignores) == Unsuppressed(a, ignores) + Unsuppressed(b, ignores)
    decreases |b|
  {
    if b == [] {
      assert a + b == a;
    } else {
      assert (a + b)[..|a + b| - 1] == a + b[..|b| - 1];
      UnsuppressedAppend(a, b[..|b| - 1], ignores);
    }
  }

  /** The loop over `ALL_RULES` that builds the checkers not disabled. */
  method SelectCheckers(config: LinterConfig) returns (checkers: seq<RuleInstance>)
    ensures checkers == EnabledRules(config)
  {
    checkers := [];
    var defs := AllRules();
    var i := 0;
    while i < |defs|
      invariant i <= |defs|
      invariant checkers == Enabled(defs[..i], config)
    {
      assert defs[..i + 1][..i] == defs[..i];
      if defs[i].name !in config.disabledRules {
        checkers := checkers + [defs[i].Create(config)];
      }
      i := i + 1;
    }
    assert defs[..i] == defs;
  }

  /** The loop that keeps a rule's issues no ignore comment suppresses. */
  method KeepUnsuppressed(ruleIssues: seq<LintIssue>, ignores: (nat, string) -> bool)
    returns (kept: seq<LintIssue>)
    ensures kept == Unsuppressed(ruleIssues, ignores)
  {
    kept := [];
    var j := 0;
    while j < |ruleIssues|
      invariant j <= |ruleIssues|
      invariant kept == Unsuppressed(ruleIssues[..j], ignores)
    {
      assert ruleIssues[..j + 1][..j] == ruleIssues[..j];
      if !ignores(ruleIssues[j].line, ruleIssues[j].rule) {
        kept := kept + [ruleIssues[j]];
      }
      j := j + 1;
    }
    assert ruleIssues[..j] == ruleIssues;
  }

  /** What `lint` may return, given the enabled rules and the results of
      the ones it ran: a parse failure is reported alone; otherwise the rules
      run in order, the first failing one ends the run with its error, and when
      none fails the unsuppressed issues of all of them, sorted by position
      with ties kept in the order found, are the result. */
  ghost predicate Outcome(rules: seq<RuleInstance>, conv: Conventions, foreign: Foreign, source: string,
                          outputs: seq<Result<seq<LintIssue>>>, r: Result<seq<LintIssue>>) {
    match foreign.parsed
    case None => r == Err(ParseError) && outputs == []
    case Some(root) =>
      RanInOrder(rules, conv, foreign, source, root, outputs)
      && (if r.Err? then outputs != [] && outputs[|outputs| - 1] == r
          else |outputs| == |rules| && (forall k :: 0 <= k < |outputs| ==> outputs[k].Ok?)
               && r.value == SortByPosition(Unsuppressed(Collected(outputs), foreign.ignores)))
  }

  /** `outputs` are the results of running the first rules in order, all
      successful but perhaps the last. */
  ghost predicate RanInOrder(rules: seq<RuleInstance>, conv: Conventions, foreign: Foreign, source: string,
                             root: Node, outputs: seq<Result<seq<LintIssue>>>) {
    |outputs| <= |rules|
    && (forall k {:trigger Produces(rules[k], conv, foreign, source, root, outputs[k])} ::
          0 <= k < |outputs| ==> Produces(rules[k], conv, foreign, source, root, outputs[k]))
    && (forall k :: 0 <= k < |outputs| - 1 ==> outputs[k].Ok?)
  }

  /** Running the next rule extends a run whose rules all succeeded. */
  lemma RanStep(rules: seq<RuleInstance>, conv: Conventions, foreign: Foreign, source: string,
                root: Node, outputs: seq<Result<seq<LintIssue>>>, out: Result<seq<LintIssue>>)
    requires RanInOrder(rules, conv, foreign, source, root, outputs)
    requires |outputs| < |rules| && forall j :: 0 <= j < |outputs| ==> outputs[j].Ok?
    requires Produces(rules[|outputs|], conv, foreign, source, root, out)
    ensures RanInOrder(rules, conv, foreign, source, root, outputs + [out])
  {
    var next := outputs + [out];
    assert forall j :: 0 <= j < |outputs| ==> next[j] == outputs[j];
  }

  /** `GDScriptLinter`: the configuration it was built with. */
  class GDScriptLinter {
    const config: LinterConfig

    constructor(config: LinterConfig)
      ensures this.config == config
    {
      this.config := config;
    }

    /** `lint`: `outputs` records what each rule run returned. */
    method Lint(conv: Conventions, foreign: Foreign, source: string)
      returns (r: Result<seq<LintIssue>>, ghost outputs: seq<Result<seq<LintIssue>>>)
      ensures Outcome(EnabledRules(config), conv, foreign, source, outputs, r)
      ensures foreign.parsed.None? ==> r == Err(ParseError)
      ensures r.Ok? ==> Sorted(r.value)
    {
      outputs := [];
      if foreign.parsed.None? {
        return Err(ParseError), [];
      }
      var root := foreign.parsed.value;

      var checkers := SelectCheckers(config);

      var issues: seq<LintIssue> := [];
      var k := 0;
      while k < |checkers|
        invariant k <= |checkers| && |outputs| == k
        invariant RanInOrder(checkers, conv, foreign, source, root, outputs)
        invariant forall j :: 0 <= j < k ==> outputs[j].Ok?
        invariant issues == Unsuppressed(Collected(outputs), foreign.ignores)
      {
        var out := RunRule(checkers[k], conv, foreign, source, root);
        ghost var previous := outputs;
        RanStep(checkers, conv, foreign, source, root, outputs, out);
        outputs := outputs + [out];
        if out.Err? {
          return out, outputs;
        }
        var kept := KeepUnsuppressed(out.value, foreign.ignores);
        issues := issues + kept;
        assert Collected(outputs) == Collected(previous) + out.value;
        UnsuppressedAppend(Collected(previous), out.value, foreign.ignores);
        k := k + 1;
      }
      SortFacts(issues);
      r := Ok(SortByPosition(issues));
    }
  }

  /** The ids a rule's issues may carry: its own, and for the variable rule
      also "load-variable-name". */
  predicate HasRuleId(rule: RuleInstance, x: LintIssue) {
    x.rule == RuleId(rule) || (rule.VariableName? && x.rule == VariableNameRule.LoadRuleId)
  }

  lemma VisitIds(rule: RuleInstance, conv: Conventions, n: Node, x: LintIssue)
    requires x in Visit(rule, conv, n)
    ensures HasRuleId(rule, x)
  {
    if rule.FunctionName? || rule.SignalName? || rule.VariableName? || rule.FunctionArgumentName?
       || rule.LoopVariableName? || rule.EnumName? || rule.EnumMemberName? {
      NamingVisitIds(rule, conv, n, x);
    } else {
      match rule
      case UnnecessaryPass =>
      case UnusedArgument =>
      case NoElseReturn =>
      case StandaloneExpression => StandaloneExpressionRule.IssueIds(n, x);
      case ComparisonWithItself => ComparisonWithItselfRule.IssueIds(n, x);
      case PrivateAccess => PrivateAccessRule.IssueIds(n, x);
      case _ => assert false;
    }
  }

  lemma NamingVisitIds(rule: RuleInstance, conv: Conventions, n: Node, x: LintIssue)
    requires rule.FunctionName? || rule.SignalName? || rule.VariableName? || rule.FunctionArgumentName?
             || rule.LoopVariableName? || rule.EnumName? || rule.EnumMemberName?
    requires x in Visit(rule, conv, n)
    ensures HasRuleId(rule, x)
  {
    match rule
    case EnumMemberName => EnumMemberNameRule.IssueIds(conv, n, x);
    case FunctionArgumentName => FunctionArgumentNameRule.IssueIds(conv, n, x);
    case FunctionName => FunctionNameRule.IssueIds(conv, n, x);
    case SignalName => SignalNameRule.IssueIds(conv, n, x);
    case VariableName => VariableNameRule.IssueIds(conv, n, x);
    case LoopVariableName => LoopVariableNameRule.IssueIds(conv, n, x);
    case EnumName => EnumNameRule.IssueIds(conv, n, x);
  }

  lemma WalkIds(rule: RuleInstance, conv: Conventions, root: Node, x: LintIssue)
    requires x in PreOrder(root, VisitOf(rule, conv))
    ensures HasRuleId(rule, x)
  {
    PreOrderMember(root, VisitOf(rule, conv), x);
    var k :| 0 <= k < |Nodes(root)| && x in VisitOf(rule, conv)(Nodes(root)[k]);
    assert x in Visit(rule, conv, Nodes(root)[k]);
    VisitIds(rule, conv, Nodes(root)[k], x);
  }

  lemma {:induction false} EmissionIds(m: map<string, seq<(nat, nat)>>, order: seq<string>, x: LintIssue)
    requires forall p :: p in order ==> p in m
    requires x in DuplicatedLoadRule.Emission(m, order)
    ensures x.rule == DuplicatedLoadRule.RuleId
  {
    var init := order[..|order| - 1];
    var last := order[|order| - 1];
    assert forall p :: p in init ==> p in order;
    var tail := DuplicatedLoadRule.PathIssues(last, m[last]);
    if x in tail {
      var k :| 0 <= k < |tail| && tail[k] == x;
    } else {
      EmissionIds(m, init, x);
    }
  }

  lemma DuplicatedLoadIds(root: Node, order: seq<string>, x: LintIssue)
    requires DuplicatedLoadRule.IsKeyOrder(order, DuplicatedLoadRule.LoadPaths(DuplicatedLoadRule.Sites(root)))
    requires x in DuplicatedLoadRule.Emission(DuplicatedLoadRule.LoadPaths(DuplicatedLoadRule.Sites(root)), order)
    ensures x.rule == DuplicatedLoadRule.RuleId
  {
    EmissionIds(DuplicatedLoadRule.LoadPaths(DuplicatedLoadRule.Sites(root)), order, x);
  }

  /** Every issue a rule returns carries that rule's id (or, for the
      variable rule, "load-variable-name"). */
  lemma RuleIds(rule: RuleInstance, conv: Conventions, foreign: Foreign, source: string, root: Node,
                out: Result<seq<LintIssue>>, x: LintIssue)
    requires Produces(rule, conv, foreign, source, root, out)
    requires out.Ok? && x in out.value
    ensures HasRuleId(rule, x)
  {
    match rule
    case DuplicatedLoad =>
      var m := DuplicatedLoadRule.LoadPaths(DuplicatedLoadRule.Sites(root));
      var order :| DuplicatedLoadRule.IsKeyOrder(order, m) && out.value == DuplicatedLoadRule.Emission(m, order);
      DuplicatedLoadIds(root, order, x);
    case MaxLineLength(config) =>
    case ClassName =>
      ClassNameRule.IssueIds(ClassNameRule.Matches(root), x);
    case ConstantName =>
      ConstantNameRule.IssueIds(conv, ConstantNameRule.Matches(root), x);
    case _ =>
      WalkIds(rule, conv, root, x);
  }

  /** A rule's run fails exactly when it is pattern-based and the query
      engine rejects its pattern. */
  predicate PatternRejected(rule: RuleInstance, foreign: Foreign) {
    (rule.ClassName? && foreign.queryError(ClassNameRule.Pattern).Some?)
    || (rule.ConstantName? && foreign.queryError(ConstantNameRule.Pattern).Some?)
  }

  lemma ProducesFailure(rule: RuleInstance, conv: Conventions, foreign: Foreign, source: string, root: Node,
                        out: Result<seq<LintIssue>>)
    requires Produces(rule, conv, foreign, source, root, out)
    ensures out.Err? <==> PatternRejected(rule, foreign)
    ensures out.Err? ==> StartsWith(out.error, QueryErrorPrefix)
  {
    match rule
    case ClassName =>
      CheckResultError(foreign.queryError(ClassNameRule.Pattern), ClassNameRule.Matches(root), ClassNameRule.ProcessMatch);
    case ConstantName =>
      CheckResultError(foreign.queryError(ConstantNameRule.Pattern), ConstantNameRule.Matches(root), ConstantNameRule.Processor(conv));
    case _ =>
  }

  /** `lint` fails exactly when the source does not parse or some enabled
      pattern-based rule's pattern is rejected; the error is then the parse
      error, or the rejection of the first such rule in registry order. */
  lemma OutcomeFailure(rules: seq<RuleInstance>, conv: Conventions, foreign: Foreign, source: string,
                       outputs: seq<Result<seq<LintIssue>>>, r: Result<seq<LintIssue>>)
    requires Outcome(rules, conv, foreign, source, outputs, r)
    ensures r.Err? <==> foreign.parsed.None?
                        || exists k :: 0 <= k < |rules| && PatternRejected(rules[k], foreign)
    ensures r.Err? && foreign.parsed.Some? ==>
              var k := |outputs| - 1;
              0 <= k < |rules| && PatternRejected(rules[k], foreign)
              && (forall j :: 0 <= j < k ==> !PatternRejected(rules[j], foreign))
              && StartsWith(r.error, QueryErrorPrefix)
    ensures r.Err? && foreign.parsed.None? ==> r.error == ParseError
  {
    if foreign.parsed.Some? {
      var root := foreign.parsed.value;
      forall j | 0 <= j < |outputs|
        ensures outputs[j].Err? <==> PatternRejected(rules[j], foreign)
        ensures outputs[j].Err? ==> StartsWith(outputs[j].error, QueryErrorPrefix)
      {
        ProducesFailure(rules[j], conv, foreign, source, root, outputs[j]);
      }
      if r.Ok? {
        forall k | 0 <= k < |rules| ensures !PatternRejected(rules[k], foreign) {
          assert outputs[k].Ok?;
        }
      }
    }
  }

  lemma {:induction false} CollectedMember(outs: seq<Result<seq<LintIssue>>>, x: LintIssue)
    ensures x in Collected(outs) <==> exists k :: 0 <= k < |outs| && outs[k].Ok? && x in outs[k].value
  {
    if outs != [] {
      var init := outs[..|outs| - 1];
      CollectedMember(init, x);
      assert forall k :: 0 <= k < |init| ==> init[k] == outs[k];
    }
  }

  lemma SameMembers(a: seq<LintIssue>, b: seq<LintIssue>, x: LintIssue)
    requires multiset(a) == multiset(b)
    ensures x in a <==> x in b
  {
    assert x in a <==> x in multiset(a);
    assert x in b <==> x in multiset(b);
  }

  lemma OutcomeOk(rules: seq<RuleInstance>, conv: Conventions, foreign: Foreign, source: string,
                  outputs: seq<Result<seq<LintIssue>>>, r: Result<seq<LintIssue>>)
    requires Outcome(rules, conv, foreign, source, outputs, r)
    requires r.Ok?
    ensures foreign.parsed.Some?
    ensures forall k :: 0 <= k < |outputs| ==> outputs[k].Ok?
  {
  }

  lemma OutcomeValue(rules: seq<RuleInstance>, conv: Conventions, foreign: Foreign, source: string,
                     outputs: seq<Result<seq<LintIssue>>>, r: Result<seq<LintIssue>>)
    requires Outcome(rules, conv, foreign, source, outputs, r)
    requires r.Ok?
    ensures r.value == SortByPosition(Unsuppressed(Collected(outputs), foreign.ignores))
  {
  }

  /** The issues of a successful run are those found, sorted by line then
      column, each exactly as often as the rules reported it, and, among
      issues at one position, in the order the rules reported them. */
  lemma OutcomeSorted(rules: seq<RuleInstance>, conv: Conventions, foreign: Foreign, source: string,
                      outputs: seq<Result<seq<LintIssue>>>, r: Result<seq<LintIssue>>)
    requires Outcome(rules, conv, foreign, source, outputs, r)
    requires r.Ok?
    ensures var found := Unsuppressed(Collected(outputs), foreign.ignores);
            Sorted(r.value) && multiset(r.value) == multiset(found)
            && forall line, column :: AtPosition(r.value, line, column) == AtPosition(found, line, column)
  {
    OutcomeValue(rules, conv, foreign, source, outputs, r);
    SortFacts(Unsuppressed(Collected(outputs), foreign.ignores));
  }

  /** Issues with the same elements as the unsuppressed issues of successful
      checkers are exactly the reported issues that are not ignored. */
  lemma KeptMember(outputs: seq<Result<seq<LintIssue>>>, ignores: (nat, string) -> bool,
                   xs: seq<LintIssue>, x: LintIssue)
    requires forall k :: 0 <= k < |outputs| ==> outputs[k].Ok?
    requires multiset(xs) == multiset(Unsuppressed(Collected(outputs), ignores))
    ensures x in xs <==> (exists k :: 0 <= k < |outputs| && x in outputs[k].value) && !ignores(x.line, x.rule)
  {
    SameMembers(xs, Unsuppressed(Collected(outputs), ignores), x);
    CollectedMember(outputs, x);
  }

  /** A successful `lint` returns exactly the issues some enabled rule
      reported and no ignore comment suppresses. */
  lemma OutcomeIssues(rules: seq<RuleInstance>, conv: Conventions, foreign: Foreign, source: string,
                      outputs: seq<Result<seq<LintIssue>>>, r: Result<seq<LintIssue>>)
    requires Outcome(rules, conv, foreign, source, outputs, r)
    requires r.Ok?
    ensures forall x :: x in r.value <==>
              (exists k :: 0 <= k < |outputs| && x in outputs[k].value) && !foreign.ignores(x.line, x.rule)
  {
    OutcomeOk(rules, conv, foreign, source, outputs, r);
    OutcomeSorted(rules, conv, foreign, source, outputs, r);
    forall x ensures x in r.value <==>
                     (exists k :: 0 <= k < |outputs| && x in outputs[k].value) && !foreign.ignores(x.line, x.rule)
    {
      KeptMember(outputs, foreign.ignores, r.value, x);
    }
  }

  /** Disabling a rule's id removes all its issues, except that the
      variable rule's "load-variable-name" issues are not silenced by
      disabling "load-variable-name", which names no registered rule. */
  lemma DisabledRulesSilent(config: LinterConfig, conv: Conventions, foreign: Foreign, source: string,
                            outputs: seq<Result<seq<LintIssue>>>, r: Result<seq<LintIssue>>, x: LintIssue)
    requires Outcome(EnabledRules(config), conv, foreign, source, outputs, r)
    requires r.Ok? && x in r.value
    ensures x.rule !in config.disabledRules || x.rule == VariableNameRule.LoadRuleId
  {
    var rules := EnabledRules(config);
    OutcomeIssues(rules, conv, foreign, source, outputs, r);
    var k :| 0 <= k < |outputs| && x in outputs[k].value;
    RuleIds(rules[k], conv, foreign, source, foreign.parsed.value, outputs[k], x);
    EnabledIdsNotDisabled(config, rules[k]);
  }

  lemma {:induction false} UnsuppressedAtPosition(xs: seq<LintIssue>, ignores: (nat, string) -> bool,
                                                  line: nat, column: nat)
    ensures AtPosition(Unsuppressed(xs, ignores), line, column) == Unsuppressed(AtPosition(xs, line, column), ignores)
    decreases |xs|
  {
    if xs != [] {
      var init := xs[..|xs| - 1];
      var last := [xs[|xs| - 1]];
      assert xs == init + last;
      UnsuppressedAtPosition(init, ignores, line, column);
      UnsuppressedAppend(init, last, ignores);
      AtPositionAppend(Unsuppressed(init, ignores), Unsuppressed(last, ignores), line, column);
      AtPositionAppend(init, last, line, column);
      UnsuppressedAppend(AtPosition(init, line, column), AtPosition(last, line, column), ignores);
      SingleUnsuppressedAtPosition(xs[|xs| - 1], ignores, line, column);
    }
  }

  lemma SingleUnsuppressedAtPosition(x: LintIssue, ignores: (nat, string) -> bool, line: nat, column: nat)
    ensures AtPosition(Unsuppressed([x], ignores), line, column) == Unsuppressed(AtPosition([x], line, column), ignores)
  {
    assert [x][..0] == [] && [x][1..] == [];
    if !ignores(x.line, x.rule) {
      assert Unsuppressed([x], ignores) == [x];
    } else {
      assert Unsuppressed([x], ignores) == [];
    }
    if At(x, line, column) {
      assert AtPosition([x], line, column) == [x];
    } else {
      assert AtPosition([x], line, column) == [];
    }
  }

  lemma UnsuppressedSamePositions(a: seq<LintIssue>, b: seq<LintIssue>, ignores: (nat, string) -> bool)
    requires SamePositions(a, b)
    ensures SamePositions(Unsuppressed(a, ignores), Unsuppressed(b, ignores))
  {
    forall line: nat, column: nat
      ensures AtPosition(Unsuppressed(a, ignores), line, column) == AtPosition(Unsuppressed(b, ignores), line, column)
    {
      UnsuppressedAtPosition(a, ignores, line, column);
      UnsuppressedAtPosition(b, ignores, line, column);
    }
  }

  lemma {:induction false} CollectedSamePositions(outs1: seq<Result<seq<LintIssue>>>, outs2: seq<Result<seq<LintIssue>>>)
    requires |outs1| == |outs2|
    requires forall k :: 0 <= k < |outs1| ==> outs1[k].Ok? && outs2[k].Ok?
    requires forall k :: 0 <= k < |outs1| ==> SamePositions(outs1[k].value, outs2[k].value)
    ensures SamePositions(Collected(outs1), Collected(outs2))
  {
    if outs1 != [] {
      var n := |outs1| - 1;
      CollectedSamePositions(outs1[..n], outs2[..n]);
      SamePositionsAppend(Collected(outs1[..n]), outs1[n].value, Collected(outs2[..n]), outs2[n].value);
    }
  }

  /** Two runs of one rule on the same inputs agree, except that the
      duplicated-load rule may order its issues differently; they still hold
      the same issues at every position when no two load sites at one
      position differ in path. */
  lemma ProducesSamePositions(rule: RuleInstance, conv: Conventions, foreign: Foreign, source: string, root: Node,
                              out1: Result<seq<LintIssue>>, out2: Result<seq<LintIssue>>)
    requires Produces(rule, conv, foreign, source, root, out1)
    requires Produces(rule, conv, foreign, source, root, out2)
    requires DuplicatedLoadRule.PositionsDeterminePaths(DuplicatedLoadRule.Sites(root))
    ensures !rule.DuplicatedLoad? ==> out1 == out2
    ensures out1.Ok? <==> out2.Ok?
    ensures out1.Ok? ==> SamePositions(out1.value, out2.value)
  {
    if rule.DuplicatedLoad? {
      var m := DuplicatedLoadRule.LoadPaths(DuplicatedLoadRule.Sites(root));
      var order1 :| DuplicatedLoadRule.IsKeyOrder(order1, m) && out1.value == DuplicatedLoadRule.Emission(m, order1);
      var order2 :| DuplicatedLoadRule.IsKeyOrder(order2, m) && out2.value == DuplicatedLoadRule.Emission(m, order2);
      DuplicatedLoadRule.DuplicatedLoadSamePositions(root, order1, order2);
    }
  }

  /** Determinism: two runs of `lint` on the same source, tree, ignore
      comments and configuration return the same result, in the same order.
      The hash map inside the duplicated-load rule is the one source of
      freedom, and the sort by position erases it whenever no two load
      sites at one position carry different paths. */
  lemma OutcomeDeterministic(rules: seq<RuleInstance>, conv: Conventions, foreign: Foreign, source: string,
                             outputs1: seq<Result<seq<LintIssue>>>, r1: Result<seq<LintIssue>>,
                             outputs2: seq<Result<seq<LintIssue>>>, r2: Result<seq<LintIssue>>)
    requires Outcome(rules, conv, foreign, source, outputs1, r1)
    requires Outcome(rules, conv, foreign, source, outputs2, r2)
    requires foreign.parsed.Some? ==>
               DuplicatedLoadRule.PositionsDeterminePaths(DuplicatedLoadRule.Sites(foreign.parsed.value))
    ensures r1 == r2
  {
    if foreign.parsed.Some? {
      var root := foreign.parsed.value;
      OutcomeFailure(rules, conv, foreign, source, outputs1, r1);
      OutcomeFailure(rules, conv, foreign, source, outputs2, r2);
      if r1.Err? {
        var k := |outputs1| - 1;
        assert k == |outputs2| - 1;
        ProducesSamePositions(rules[k], conv, foreign, source, root, outputs1[k], outputs2[k]);
      } else {
        OutcomeOk(rules, conv, foreign, source, outputs1, r1);
        OutcomeOk(rules, conv, foreign, source, outputs2, r2);
        assert |outputs1| == |rules| == |outputs2|;
        forall k | 0 <= k < |outputs1|
          ensures SamePositions(outputs1[k].value, outputs2[k].value)
        {
          ProducesSamePositions(rules[k], conv, foreign, source, root, outputs1[k], outputs2[k]);
        }
        CollectedSamePositions(outputs1, outputs2);
        UnsuppressedSamePositions(Collected(outputs1), Collected(outputs2), foreign.ignores);
        SamePositionsSort(Unsuppressed(Collected(outputs1), foreign.ignores),
                          Unsuppressed(Collected(outputs2), foreign.ignores));
        OutcomeValue(rules, conv, foreign, source, outputs1, r1);
        OutcomeValue(rules, conv, foreign, source, outputs2, r2);
      }
    }
  }
}
