/** The generic executor of pattern-based rules (`QueryRule::check`) and the
    capture helpers. Compiling a pattern and running it over the tree are
    tree-sitter's work: the executor receives the compile error, if any, and
    the matches, in the order the query cursor yields them. */
module QueryRule {
  import opened Common
  import opened Syntax
  import opened Text
  import opened Diagnostics

  datatype Capture = Capture(index: nat, node: Node)

  datatype QueryMatch = QueryMatch(captures: seq<Capture>)

  /** `k` is the first capture of `m` with the given index. */
  predicate FirstWithIndex(m: QueryMatch, index: nat, k: int) {
    0 <= k < |m.captures| && m.captures[k].index == index
    && forall j :: 0 <= j < k ==> m.captures[j].index != index
  }

  predicate HasIndex(m: QueryMatch, index: nat) {
    exists k :: 0 <= k < |m.captures| && m.captures[k].index == index
  }

  /** `captures.iter().find(|c| c.index == index)`. */
  function FindCapture(cs: seq<Capture>, index: nat): (r: Option<Capture>)
    ensures r.None? <==> forall k :: 0 <= k < |cs| ==> cs[k].index != index
    ensures r.Some? ==> FirstWithIndex(QueryMatch(cs), index, |cs| - |FindTail(cs, index)|)
                        && r.value == cs[|cs| - |FindTail(cs, index)|]
  {
    var tail := FindTail(cs, index);
    if tail == [] then None else Some(tail[0])
  }

  /** The captures from the first one with the index on. */
  function FindTail(cs: seq<Capture>, index: nat): (t: seq<Capture>)
    ensures |t| <= |cs| && t == cs[|cs| - |t|..]
    ensures forall j :: 0 <= j < |cs| - |t| ==> cs[j].index != index
    ensures t != [] ==> t[0].index == index
  {
    if cs == [] || cs[0].index == index then cs else FindTail(cs[1..], index)
  }

  /** `get_capture_node`. */
  function GetCaptureNode(m: QueryMatch, index: nat): (r: Option<Node>)
    ensures r.None? <==> !HasIndex(m, index)
    ensures r.Some? ==> exists k :: FirstWithIndex(m, index, k) && r.value == m.captures[k].node
  {
    match FindCapture(m.captures, index)
    case None =>
      assert !HasIndex(m, index);
      None
    case Some(c) =>
      var k := |m.captures| - |FindTail(m.captures, index)|;
      assert FirstWithIndex(m, index, k) && c == m.captures[k];
      Some(c.node)
  }

  /** `get_node_from_match`: the node of the first capture with index 0. */
  function NodeFromMatch(m: QueryMatch): (r: Option<Node>)
    ensures r.None? <==> forall k :: 0 <= k < |m.captures| ==> m.captures[k].index != 0
    ensures r.Some? ==> exists k :: FirstWithIndex(m, 0, k) && r.value == m.captures[k].node
    ensures m.captures != [] && m.captures[0].index == 0 ==> r == Some(m.captures[0].node)
  {
    match FindCapture(m.captures, 0)
    case None =>
      assert !HasIndex(m, 0);
      None
    case Some(c) =>
      var k := |m.captures| - |FindTail(m.captures, 0)|;
      assert FirstWithIndex(m, 0, k) && c == m.captures[k];
      Some(c.node)
  }

  /** `get_capture_text`: the source text of the first capture with the index. */
  function GetCaptureText(m: QueryMatch, index: nat): (r: Option<string>)
    ensures r.None? <==> !HasIndex(m, index)
    ensures r.Some? ==> exists k :: FirstWithIndex(m, index, k) && r.value == m.captures[k].node.text
  {
    match FindCapture(m.captures, index)
    case None =>
      assert !HasIndex(m, index);
      None
    case Some(c) =>
      var k := |m.captures| - |FindTail(m.captures, index)|;
      assert FirstWithIndex(m, index, k) && c == m.captures[k];
      Some(c.node.text)
  }

  /** `get_capture_position`: the 1-based start of the first capture with the index. */
  function GetCapturePosition(m: QueryMatch, index: nat): (r: Option<(nat, nat)>)
    ensures r.None? <==> !HasIndex(m, index)
    ensures r.Some? ==> exists k :: FirstWithIndex(m, index, k)
                           && r.value.0 == m.captures[k].node.row + 1 && r.value.1 == m.captures[k].node.column + 1
  {
    match FindCapture(m.captures, index)
    case None =>
      assert !HasIndex(m, index);
      None
    case Some(c) =>
      var k := |m.captures| - |FindTail(m.captures, index)|;
      assert FirstWithIndex(m, index, k) && c == m.captures[k];
      Some(Position(c.node))
  }

  const QueryErrorPrefix := "Failed to create query: "

  /** What `QueryRule::check` returns: the compile failure, or the issues of
      every match in order. */
  function CheckResult(compileError: Option<string>, matches: seq<QueryMatch>,
                       process: QueryMatch -> seq<LintIssue>): Result<seq<LintIssue>> {
    match compileError
    case Some(e) => Err(QueryErrorPrefix + e)
    case None => Ok(FlatMap(matches, process))
  }

  /** `QueryRule::check`: extends `issues` with `process_match` of each match
      the cursor yields. `compileError` is the debug text of the error
      `Query::new` reports for the rule's pattern, if it rejects it. */
  method Check(compileError: Option<string>, matches: seq<QueryMatch>,
               process: QueryMatch -> seq<LintIssue>) returns (r: Result<seq<LintIssue>>)
    ensures r == CheckResult(compileError, matches, process)
  {
    if compileError.Some? {
      return Err(QueryErrorPrefix + compileError.value);
    }
    var issues := [];
    var i := 0;
    while i < |matches|
      invariant i <= |matches|
      invariant issues == FlatMap(matches[..i], process)
    {
      FlatMapAppend(matches[..i], [matches[i]], process);
      assert matches[..i + 1] == matches[..i] + [matches[i]];
      issues := issues + process(matches[i]);
      i := i + 1;
    }
    assert matches[..i] == matches;
    return Ok(issues);
  }

  /** The executor fails exactly when the pattern does not compile, and
      its error then starts with the fixed prefix. */
  lemma CheckResultError(compileError: Option<string>, ms: seq<QueryMatch>, process: QueryMatch -> seq<LintIssue>)
    ensures CheckResult(compileError, ms, process).Err? <==> compileError.Some?
    ensures compileError.Some? ==> StartsWith(CheckResult(compileError, ms, process).error, QueryErrorPrefix)
  {
    if compileError.Some? {
      var e := QueryErrorPrefix + compileError.value;
      assert e[..|QueryErrorPrefix|] == QueryErrorPrefix;
    }
  }

  /** A pattern that does not compile yields an error naming the failure and
      no issues; one that compiles yields each match's issues, in match order,
      so running over a split list of matches gives the two halves' issues
      one after the other, and no match gives no issue. */
  lemma CheckResultFacts(compileError: Option<string>, ms1: seq<QueryMatch>, ms2: seq<QueryMatch>,
                         process: QueryMatch -> seq<LintIssue>)
    ensures CheckResult(compileError, ms1, process).Err?
            <==> compileError.Some?
    ensures compileError.Some? ==>
              StartsWith(CheckResult(compileError, ms1, process).error, "Failed to create query")
    ensures compileError.None? ==> CheckResult(compileError, [], process) == Ok([])
    ensures compileError.None? ==>
              CheckResult(compileError, ms1 + ms2, process).value
              == CheckResult(compileError, ms1, process).value + CheckResult(compileError, ms2, process).value
  {
    if compileError.Some? {
      var e := QueryErrorPrefix + compileError.value;
      assert e[..|"Failed to create query"|] == "Failed to create query";
    } else {
      FlatMapAppend(ms1, ms2, process);
    }
  }
}
