# GDScript linter rule engine in Dafny

This project models the linter of GDQuest's GDScript formatter, together with every one of its rules.

The linter works in four steps:
1. It parses a GDScript source into a syntax tree.
2. It builds each rule of a fixed registry whose name the configuration does not disable.
3. It runs those rules in registry order. Each rule either walks the tree, reads the source text, or runs a tree-sitter query.
4. It drops every diagnostic that an ignore comment suppresses, then stably sorts the rest by line and column.

The model has the following parts:

- **Tree (`Syntax`).** A tree-sitter node is a `Node` value: kind, source text, 0-based row and column, field name, and children (anonymous tokens included).
  - `child_by_field_name` is `FieldChild`; `child(0)` is `FirstChild`.
  - The recursive cursor walk every rule uses is `PreOrder`. The imperative `Walk` method, with an explicit work stack, is proved equal to it.
- **Diagnostics (`Diagnostics`).** `LintIssue`, `LintSeverity` and `LinterConfig`.
  - `format` is proved to lose nothing but the column: a parser reads the formatted line back.
- **Registry (`Registry`).** The 17 `(name, factory)` entries in order.
  - Each factory is data: it either ignores the configuration and builds a fixed rule, or (for `max-line-length`) builds from the configuration.
- **Query executor (`QueryRule`).** `check` and the capture helpers.
  - Compiling a pattern and enumerating its matches belong to tree-sitter. The executor receives the compile error, if any, and the matches.
  - For the two query rules, the matches are defined from the tree. The model proves that running the query reports the same issues as a pre-order walk.
- **One module per rule.** Each gives a specification function for what the rule reports at one node (or per line, or per load path), plus imperative methods for the loops the Rust code runs: the cursor walk (the shared `Syntax.Walk`) and each sibling loop inside a node's check. Each method is proved equal to its function.
- **Entry point (`Linter`).**
  - `GDScriptLinter.Lint` is the imperative `lint`. It is specified by `Outcome`, which admits exactly the results `lint` can return.
  - Lemmas about `Outcome` state what callers rely on: when `lint` fails and with which error; that the result is sorted; that it is a permutation of the unsuppressed issues; that ties keep the order they were found in; which issues appear; and that two runs on the same inputs agree.

The naming regular expressions (`regex_patterns.rs`) are not part of this model. The five conventions are given predicates (`Naming.Conventions`), so every naming property holds whatever they are. The class-name rule's expression is written in its pattern, so `ClassNameRule.IsPascalName` spells it out.

Points of the code's behaviour worth noting:
- A pattern that fails to compile makes the whole `lint` fail (`?` at `src/linter.rs:115`), not just that rule.
- A constant whose value is a `preload(...)` call may also be named in PRIVATE_CONSTANT_CASE.
- The variable rule reports load-initialised variables under the id `load-variable-name`. No registry entry has that name, so disabling it silences nothing (`Linter.DisabledRulesSilent`).
- Suppression is applied inside the loop, to each rule's output. `Linter.UnsuppressedAppend` shows this gives the same result as filtering the merged list.

## Model

| member | source | states |
|---|---|---|
| Diagnostics.NewIssue | src/linter.rs:34-48 | the issue holds the five given values unchanged |
| Diagnostics.FormatRoundTrip | src/linter.rs:50-59 | the line `path:line:rule:severity: message` reads back as the path, line, rule, severity ("error" for Error, "warning" for Warning) and message whenever path and rule hold no ':'; the column is not rendered |
| Diagnostics.DefaultConfig | src/linter.rs:68-75 | the default configuration disables no rule and allows lines of 100 columns |
| Text.NatToString | src/linter.rs:55-58 | a line number renders as a non-empty string of digits with no leading zero except for 0 itself |
| Text.ParseNatToString | src/linter.rs:55-58 | the decimal rendering of a line number reads back as that number |
| Text.TrimStart | src/linter/rules/constant_name.rs:51 | `trim_start` keeps a suffix of the text, drops only whitespace, and leaves no whitespace at the front |
| Syntax.Walk | src/linter/rules/comparison_with_itself.rs:13-60 | the cursor walk collects what `visit` reports at each node in pre-order: the node, then each child's subtree from left to right |
| Syntax.PreOrderMember | src/linter/rules/enum_name.rs:43-51 | an item is reported by a walk iff `visit` reports it at some node of the tree, nested ones included |
| Syntax.PreOrderIsFlatMap | src/linter/rules/function_name.rs:42-50 | a walk's output is `visit` applied to the pre-order list of nodes, concatenated |
| Parameters.ParameterName | src/linter/rules/unused_argument.rs:37-43 | a parameter's name is the identifier's own text, or the text of `child(0)`, or "" when there is no child |
| Ordering.SortFacts | src/linter.rs:126 | the sort yields a sequence ordered by (line, column) that is a permutation of its input and keeps, at each position, the input's order |
| Ordering.SamePositionsSort | src/linter.rs:126 | two sequences holding the same issues, in the same order, at every (line, column) sort to the same result |
| Ordering.StableSortUnique | src/linter.rs:126 | any ordered sequence that keeps the input's order at every position is the modelled sort's result, so the model fixes the library's stable sort |
| QueryRule.FindCapture | src/linter/query_rule.rs:40-43 | `find` gives None iff no capture has the index, and otherwise the first capture that has it |
| QueryRule.GetCaptureNode | src/linter/query_rule.rs:63-72 | None iff no capture has the index; otherwise the node of the first capture with it |
| QueryRule.NodeFromMatch | src/linter/lib.rs:8-14 | None iff no capture has index 0; otherwise the node of the first capture with index 0 |
| QueryRule.GetCaptureText | src/linter/query_rule.rs:35-45 | None iff no capture has the index; otherwise the text of the first capture with it |
| QueryRule.GetCapturePosition | src/linter/query_rule.rs:48-60 | None iff no capture has the index; otherwise (row + 1, column + 1) of the first capture with it |
| QueryRule.Check | src/linter/query_rule.rs:18-31 | the loop returns the compile error, or the in-order concatenation of `process_match` over all matches |
| QueryRule.CheckResultError | src/linter/query_rule.rs:19-20 | `check` fails iff the pattern does not compile, and its error then starts with "Failed to create query: " |
| QueryRule.CheckResultFacts | src/linter/query_rule.rs:25-30 | with zero matches `check` returns Ok of no issues, and the issues of two runs of matches are concatenated in order |
| Registry.NamesDistinct | src/linter/rules.rs:50-119 | no two registry entries share a name |
| Registry.DefinitionIds | src/linter/rules.rs:50-119 | each of the 17 entries builds the rule whose id is the entry's name, and every kind of rule has an entry carrying its id; with `Registry.NamesDistinct`, each rule module has exactly one entry |
| Registry.Registered | src/linter/rules.rs:50-119 | every kind of rule is built by the entry named after its id; the line-length entry builds it from the configuration passed in |
| Registry.ConfigurationUse | src/linter/rules.rs:50-119 | every factory but the seventh ("max-line-length") builds the same rule for any configuration; that one keeps the whole configuration |
| Linter.RunRule | src/linter.rs:115 | running a built rule gives a result its `check` can produce; see `Linter.Produces` |
| Linter.Enabled | src/linter.rs:108-112 | a rule is built iff some registry entry that is not disabled builds it |
| Linter.SelectCheckers | src/linter.rs:105-112 | the loop builds the not-disabled entries' rules in registry order |
| Linter.EnabledIdsNotDisabled | src/linter.rs:108-112 | the id of a built rule is never among the disabled names |
| Linter.Unsuppressed | src/linter.rs:117-122 | an issue is kept iff it was reported and no ignore comment suppresses its rule on its line |
| Linter.UnsuppressedAppend | src/linter.rs:114-123 | filtering each rule's output and concatenating equals filtering the concatenation |
| Linter.KeepUnsuppressed | src/linter.rs:118-122 | the inner loop keeps exactly the unsuppressed issues, in order |
| Linter.GDScriptLinter.constructor | src/linter.rs:83-90 | the linter keeps the configuration it was built with |
| Linter.GDScriptLinter.Lint | src/linter.rs:92-129 | the result is a parse failure, or the error of the first failing rule, or the sorted unsuppressed issues of all enabled rules run in registry order; an unparsable source always gives the parse failure, and a successful result is ordered by (line, column) |
| Linter.CollectedMember | src/linter.rs:114-123 | an issue is collected iff some successful rule run reported it |
| Linter.RuleIds | src/linter.rs:114-121 | every issue a rule returns carries that rule's id, or "load-variable-name" for the variable rule |
| Linter.ProducesFailure | src/linter/query_rule.rs:18-20 | a rule fails iff it is query-based and its pattern does not compile, and the error then starts with "Failed to create query: " |
| Linter.OutcomeFailure | src/linter.rs:93-115 | `lint` fails iff the source does not parse or some enabled rule's pattern does not compile; the error is then the parse error, or that of the first such rule in registry order |
| Linter.OutcomeSorted | src/linter.rs:126 | a successful result is ordered by (line, column), is a permutation of the unsuppressed issues found, and keeps their order at each position |
| Linter.ProducesSamePositions | src/linter.rs:115 | two runs of one rule on the same inputs return the same result, except the duplicated-load rule, whose two results still hold the same issues in the same order at every position when no two load sites at one position differ in path |
| Linter.OutcomeDeterministic | src/linter.rs:92-129 | two runs of `lint` on the same inputs return the same result, in the same order, when no two load sites at one position differ in path |
| Linter.OutcomeIssues | src/linter.rs:114-128 | a successful result holds exactly the issues some rule reported that no ignore comment suppresses |
| Linter.DisabledRulesSilent | src/linter.rs:108-112 | no issue of a successful result carries a disabled id, except "load-variable-name" |
| ClassNameRule.MatchesAt | src/linter/rules/class_name.rs:11-12 | each match of the pattern has exactly one capture, with index 0 |
| ClassNameRule.ProcessMatch | src/linter/rules/class_name.rs:15-40 | at most one issue, exactly when the match has a capture of index 0: an Error "class-name" at (row + 1, column + 1) of that node, naming its text |
| ClassNameRule.StatementIssues | src/linter/rules/class_name.rs:11-12 | a statement gives an issue iff it is a `class_name_statement` and the issue is the one for a `name` child that fails `^[A-Z][a-zA-Z0-9]*$` |
| ClassNameRule.IssuesAreWalk | src/linter/rules/class_name.rs:43-51 | running the pattern and processing each match reports the same issues, in the same order, as a pre-order walk over the statements |
| ClassNameRule.IssueIds | src/linter/rules/class_name.rs:33 | every issue carries "class-name" |
| ConstantNameRule.IsValidConstantName | src/linter/rules/constant_name.rs:11-20 | a name valid for a plain constant is valid for a preload constant |
| ConstantNameRule.PreloadValueShape | src/linter/rules/constant_name.rs:51 | a value counts as a preload iff it is whitespace followed by "preload(" |
| ConstantNameRule.StatementIssues | src/linter/rules/constant_name.rs:39-77 | with a name and a value, one Error "constant-name" at the name iff the name fails the preload or the plain convention, as the value is or is not a preload; nothing otherwise |
| ConstantNameRule.ProcessMatch | src/linter/rules/constant_name.rs:28-83 | no capture of index 0 gives nothing; otherwise the issues of the captured statement |
| ConstantNameRule.IssuesAreWalk | src/linter/rules/constant_name.rs:25 | running the pattern reports the same issues, in the same order, as a pre-order walk checking each `const_statement` |
| ConstantNameRule.IssueIds | src/linter/rules/constant_name.rs:59 | every issue carries "constant-name" |
| DuplicatedLoadRule.MessageInjective | src/linter/rules/duplicated_load.rs:73-76 | different paths give different messages |
| DuplicatedLoadRule.LoadSites | src/linter/rules/duplicated_load.rs:23-49 | a site is recorded at a node iff the node is a `call` whose first child is `load` or `preload` with an `arguments` field, and the site is a `string` argument with its text and 1-based position |
| DuplicatedLoadRule.LoadPathsEntry | src/linter/rules/duplicated_load.rs:36-39 | a path is a key of the map iff some site has it, and its entry lists that path's positions in walk order |
| DuplicatedLoadRule.RecordSites | src/linter/rules/duplicated_load.rs:36-39 | recording the sites one by one with `entry().or_insert_with().push()` gives the map `LoadPaths` |
| DuplicatedLoadRule.PathIssues | src/linter/rules/duplicated_load.rs:66-78 | a path met at most once gives nothing; otherwise there is one Warning per location, in order, naming the path |
| DuplicatedLoadRule.EmitDuplicates | src/linter/rules/duplicated_load.rs:65-80 | the loop visits every key exactly once, in some order, and emits each path's issues in that order |
| DuplicatedLoadRule.CheckDuplicatedLoad | src/linter/rules/duplicated_load.rs:9-83 | the rule's output is the emission of the tree's load map for some key order |
| DuplicatedLoadRule.EmissionPerPath | src/linter/rules/duplicated_load.rs:65-80 | whatever the key order, the issues naming a path are exactly that path's issues |
| DuplicatedLoadRule.DuplicatedLoadPerPath | src/linter/rules/duplicated_load.rs:9-83 | for each path loaded more than once, the issues naming it are one per load site, in walk order; a path loaded once gets none |
| DuplicatedLoadRule.EmissionMember | src/linter/rules/duplicated_load.rs:65-80 | every emitted issue is the Warning for one location of a key whose entry lists two or more locations |
| DuplicatedLoadRule.DuplicatedLoadIssue | src/linter/rules/duplicated_load.rs:9-83 | whatever the key order, every issue sits at a load site of a path that is loaded two or more times, and names that path |
| DuplicatedLoadRule.EmissionAtPosition | src/linter/rules/duplicated_load.rs:65-80 | at a position that belongs to at most one path, the issues emitted there are that path's, whatever order the other keys come in |
| DuplicatedLoadRule.DuplicatedLoadSamePositions | src/linter/rules/duplicated_load.rs:36-80 | two key orders give the same issues in the same order at every position, when no two load sites at one position differ in path |
| EnumMemberNameRule.EnumeratorIssues | src/linter/rules/enum_member_name.rs:33-52 | an enum body child gives one Error "enum-member-name" at its `left` node iff it is an `enumerator` with a non-empty name that is not CONSTANT_CASE |
| EnumMemberNameRule.EnumMemberNameIssues | src/linter/rules/enum_member_name.rs:26-28 | a node that is not an `enum_definition` with a body gives nothing |
| EnumMemberNameRule.CheckMembers | src/linter/rules/enum_member_name.rs:29-57 | the `enum_cursor` loop over an enum body's children reports what `EnumeratorIssues` gives for each child, in order |
| EnumMemberNameRule.EnumMemberNameMember | src/linter/rules/enum_member_name.rs:26-60 | an issue is reported at an enum iff one of its body's children reports it |
| EnumMemberNameRule.IssueIds | src/linter/rules/enum_member_name.rs:47 | every issue carries "enum-member-name" |
| EnumNameRule.EnumNameIssues | src/linter/rules/enum_name.rs:26-38 | one Error "enum-name" at the name iff the node is an `enum_definition` with a name that is not PascalCase; anonymous enums give nothing |
| EnumNameRule.IssueIds | src/linter/rules/enum_name.rs:35 | every issue carries "enum-name" |
| FunctionArgumentNameRule.ParameterIssues | src/linter/rules/function_argument_name.rs:34-60 | a parameter gives one Error at the parameter node iff it has one of the four parameter kinds and a non-empty name that is neither snake_case nor _private_snake_case |
| FunctionArgumentNameRule.FunctionArgumentNameIssues | src/linter/rules/function_argument_name.rs:27-29 | a node that is not a `function_definition` with parameters gives nothing |
| FunctionArgumentNameRule.CheckParameters | src/linter/rules/function_argument_name.rs:30-64 | the `params_cursor` loop over a parameter list's children reports what `ParameterIssues` gives for each child, in order |
| FunctionArgumentNameRule.FunctionArgumentNameMember | src/linter/rules/function_argument_name.rs:27-68 | an issue is reported at a definition iff one of its parameter-list children reports it |
| FunctionArgumentNameRule.IssueIds | src/linter/rules/function_argument_name.rs:56 | every issue carries "function-argument-name" |
| FunctionNameRule.FunctionNameIssues | src/linter/rules/function_name.rs:26-37 | one Error "function-name" at the name iff the node is a `function_definition` whose name is neither snake_case nor _private_snake_case |
| FunctionNameRule.IssueIds | src/linter/rules/function_name.rs:34 | every issue carries "function-name" |
| LoopVariableNameRule.LoopVariableName | src/linter/rules/loop_variable_name.rs:32-43 | the identifier's text, the first child's text of a `typed_parameter`, and "" for anything else |
| LoopVariableNameRule.LoopVariableNameIssues | src/linter/rules/loop_variable_name.rs:27-60 | one Error "loop-variable-name" at the `left` node iff the `for_statement` has one with a non-empty name that is not snake_case (the private form is refused) |
| LoopVariableNameRule.IssueIds | src/linter/rules/loop_variable_name.rs:52 | every issue carries "loop-variable-name" |
| MaxLineLengthRule.Lines | src/linter/rules/max_line_length.rs:19 | `lines` yields no line holding a newline, and no line at all only for the empty text |
| MaxLineLengthRule.LinesOfUnlinesCrlf | src/linter/rules/max_line_length.rs:19 | splitting lines that were each written with `\r\n` gives them back, even a line that ends in `\r`: the `\r` right before a `\n` is dropped with it, and only that one |
| MaxLineLengthRule.LinesOfUnlines | src/linter/rules/max_line_length.rs:19 | splitting lines that were each written with a trailing newline gives them back, provided none of them ends in a carriage return |
| MaxLineLengthRule.DisplayWidth | src/linter/rules/max_line_length.rs:21-27 | the width lies between the character count and four times it, and is the character count when there is no tab |
| MaxLineLengthRule.DisplayWidthCount | src/linter/rules/max_line_length.rs:21-27 | the width is exactly the character count plus three for each tab: a tab counts four columns and any other character one |
| MaxLineLengthRule.LongLineIssues | src/linter/rules/max_line_length.rs:19-41 | issues name lines within the text, carry "max-line-length", and come in strictly increasing line order, so there is at most one per line |
| MaxLineLengthRule.LongLineIssuesMember | src/linter/rules/max_line_length.rs:19-41 | an issue is reported iff it is the Warning for a line wider than the maximum, at line index + 1 and column maximum + 1 |
| MaxLineLengthRule.CheckMaxLineLength | src/linter/rules/max_line_length.rs:16-44 | the loop over the enumerated lines reports `LongLineIssues` of the text's lines; the tree is not read |
| MaxLineLengthRule.MessageNumbers | src/linter/rules/max_line_length.rs:35-38 | the message carries the width found and then the maximum, as decimal numbers that read back |
| NoElseReturnRule.LastStatement | src/linter/rules/no_else_return.rs:90-108 | the last child that is not layout or a comment, or None when every child is |
| NoElseReturnRule.BodyEndsWithReturn | src/linter/rules/no_else_return.rs:90-115 | true iff the last non-layout, non-comment child is a `return_statement`; an empty or layout-only body gives false |
| NoElseReturnRule.AllBranchesReturn | src/linter/rules/no_else_return.rs:30-55 | the flag holds iff the `if` body ends with return and no `elif` met so far has a body that does not |
| NoElseReturnRule.ClauseIssues | src/linter/rules/no_else_return.rs:33-72 | every clause issue carries "no-else-return" |
| NoElseReturnRule.ClauseIssuesMember | src/linter/rules/no_else_return.rs:33-72 | an `elif` is reported iff the `if` body ends with return; an `else` iff the flag still holds when it is met; each issue is the Warning at that clause's position |
| NoElseReturnRule.ScanClauses | src/linter/rules/no_else_return.rs:33-72 | the sibling loop with its mutable flag reports `ClauseIssues` |
| NoElseReturnRule.NoElseReturnIssues | src/linter/rules/no_else_return.rs:22-73 | every issue reported at a node carries "no-else-return" |
| NoElseReturnRule.CheckIfStatement | src/linter/rules/no_else_return.rs:22-73 | the `if_statement` branch reports `NoElseReturnIssues`; an `if` without a body flags nothing |
| NoElseReturnRule.NothingWithoutIfReturn | src/linter/rules/no_else_return.rs:39 | when the `if` body does not end with return, no clause is reported |
| NoElseReturnRule.ElseAfterOpenElifNotReported | src/linter/rules/no_else_return.rs:50-58 | an `else` after an `elif` whose body does not end with return is not reported |
| PrivateAccessRule.PrivateAccessIssues | src/linter/rules/private_access.rs:21-67 | at an `attribute` with three or more children whose object is not `self` or `super`, one Error at the `attribute_call`'s first child or at the `identifier` member when its name starts with '_'; nothing otherwise |
| PrivateAccessRule.IssueIds | src/linter/rules/private_access.rs:43 | every issue carries "private-access" |
| SignalNameRule.SignalNameIssues | src/linter/rules/signal_name.rs:26-37 | one Error "signal-name" at the name iff the node is a `signal_statement` whose name is not snake_case (the private form is refused) |
| SignalNameRule.IssueIds | src/linter/rules/signal_name.rs:34 | every issue carries "signal-name" |
| StandaloneExpressionRule.IsPureExpression | src/linter/rules/standalone_expression.rs:27-41 | no reported kind is a call or an assignment |
| StandaloneExpressionRule.StandaloneExpressionIssues | src/linter/rules/standalone_expression.rs:22-57 | one Warning at `child(0)` of an `expression_statement` iff that child is a binary operation or a literal, with the child's text in the message |
| StandaloneExpressionRule.IssueIds | src/linter/rules/standalone_expression.rs:47 | every issue carries "standalone-expression" |
| ComparisonWithItselfRule.ComparisonIssues | src/linter/rules/comparison_with_itself.rs:21-47 | one Warning at a `binary_operator` with left, op and right fields iff the operator is a comparison and both sides have the same text, quoting the whole expression |
| ComparisonWithItselfRule.IssueIds | src/linter/rules/comparison_with_itself.rs:37 | every issue carries "comparison-with-itself" |
| UnnecessaryPassRule.PassStatements | src/linter/rules/unnecessary_pass.rs:24-39 | the `pass_statement` children of a block, in order |
| UnnecessaryPassRule.ScanBlock | src/linter/rules/unnecessary_pass.rs:20-39 | the sibling loop finds whether some child is neither `pass` nor layout or comment, and collects the `pass` children |
| UnnecessaryPassRule.PassIssues | src/linter/rules/unnecessary_pass.rs:43-53 | one Warning per `pass`, at its position, in order |
| UnnecessaryPassRule.UnnecessaryPassIssues | src/linter/rules/unnecessary_pass.rs:19-55 | only `body` and `class_body` blocks holding another statement report, and then one issue per `pass` child in order |
| UnnecessaryPassRule.ReportedPasses | src/linter/rules/unnecessary_pass.rs:42-53 | in a block that holds another statement, an issue is reported iff it is the one for some `pass` child |
| UnusedArgumentRule.IsIdentifierUsed | src/linter/rules/unused_argument.rs:88-123 | the early-exit search answers true iff some `identifier` node in the body's subtree, the body included, has the name as its text |
| UnusedArgumentRule.CheckedParameters | src/linter/rules/unused_argument.rs:25-54 | a parameter is kept iff it has a parameter kind and a non-empty name that does not start with '_' |
| UnusedArgumentRule.UnusedIssues | src/linter/rules/unused_argument.rs:57-70 | an issue is reported iff it is the Warning for a kept parameter whose name the body never uses |
| UnusedArgumentRule.CheckedFirst | src/linter/rules/unused_argument.rs:45-59 | filtering the parameters first does not change the issues |
| UnusedArgumentRule.UnusedArgumentIssues | src/linter/rules/unused_argument.rs:21-71 | issues at a `function_definition` with parameters and a body are exactly those of its unused kept parameters; every issue carries "unused-argument" |
| UnusedArgumentRule.CollectChecked | src/linter/rules/unused_argument.rs:25-54 | the parameter loop keeps exactly `CheckedParameters` |
| UnusedArgumentRule.ReportUnused | src/linter/rules/unused_argument.rs:57-70 | the body-search loop reports exactly `UnusedIssues` of the kept parameters |
| UnusedArgumentRule.CheckFunction | src/linter/rules/unused_argument.rs:21-71 | the `function_definition` branch reports `UnusedArgumentIssues` |
| VariableNameRule.IsValidVariableName | src/linter/rules/variable_name.rs:9-15 | a name valid for a plain variable is valid for a load variable |
| VariableNameRule.IsLoadCall | src/linter/rules/variable_name.rs:17-25 | true iff the value is a `call` whose first child's text is `load` or `preload` |
| VariableNameRule.VariableNameIssues | src/linter/rules/variable_name.rs:40-91 | one Error at the name of a variable declaration iff the name fails its convention: PascalCase, snake_case or _private_snake_case under "load-variable-name" for a load value; snake_case or _private_snake_case under "variable-name" otherwise |
| VariableNameRule.IssueIds | src/linter/rules/variable_name.rs:62 | every issue carries "variable-name" or "load-variable-name" |

## Left out

- Parsing and the query engine are tree-sitter code, which is not part of this model. The tree, the parse failure and each pattern's compile error are inputs (`Linter.Foreign`). The matches of the two patterns are defined from the tree, in pre-order.
- `ignore_patterns.rs` (`parse_ignore_patterns`, `should_ignore_rule`) is not part of this model. Whether a comment suppresses a rule on a line is a given predicate.
- `regex_patterns.rs` is not part of this model. The five conventions are given predicates.
- `GDScriptLinter::new`'s failure to set the language is a tree-sitter failure and is not modelled. The constructor always succeeds.
- `lint_files`, `lint_files_pretty` and `lint_files_standard` (`src/linter.rs:131-254`) are left out. They do file reading, terminal detection, printing and `process::exit`.
- `src/bin/make_release.rs` is left out. It drives git, cargo, the clipboard and stdin prompts.
- DuplicatedLoadRule.CheckDuplicatedLoad: the order of a Rust `HashMap` is unspecified, so the model picks the key order nondeterministically (a ghost `order`). It proves only what holds for every order: the output per path.
- Ordering.SortByPosition: the library's `sort_by` is stood in for by a functional stable insertion sort. `Ordering.StableSortUnique` shows that no other stable sort could give a different result.
- Positions and lengths are unbounded naturals. `usize` overflow cannot happen for real source texts and is not modelled.
- `get_line_column` is imported from `src/linter/lib.rs` but not defined in it (that file defines only `get_node_text` and `get_node_from_match`). The model assumes it returns (row + 1, column + 1), as `get_capture_position` does at `src/linter/query_rule.rs:47-59`. Every position reported by a rule that walks the tree rests on this assumption.
- Linter.OutcomeDeterministic: determinism is proved for trees in which no two load sites at one position have different path texts. A parser's tree meets this, since two distinct `string` nodes never start at the same place. Without it, the hash map's order could show in the output.
- Byte offsets, UTF-8 slicing and `utf8_text` failure are folded into each node's text.
- Recursion depth and the cursor's internal state are left out. Each walk is the value it computes.
- Registry.RuleDefinition.Create: the factories are closures in the Rust code. Here they are data (`Registry.Factory`), which keeps the one distinction that matters: whether the configuration is read.
