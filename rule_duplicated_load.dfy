/** `duplicated-load`: a resource path passed as a string to `load` or
    `preload` more than once should be loaded once into a constant. The rule
    groups the load sites by path text in a hash map and, after the walk,
    reports every site of every path loaded more than once. */
module DuplicatedLoadRule {
  import opened Common
  import opened Syntax
  import opened Diagnostics
  import opened Ordering

  const RuleId := "duplicated-load"

  /** One string argument of a load call: its text (quotes included) and its
      1-based position. */
  datatype Site = Site(path: string, line: nat, column: nat)

  const MessagePrefix := "Duplicated load of '"
  const MessageSuffix := "'. Consider extracting to a constant."

  function Message(path: string): string {
    MessagePrefix + path + MessageSuffix
  }

  /** Different paths give different messages. */
  lemma MessageInjective(p: string, q: string)
    requires Message(p) == Message(q)
    ensures p == q
  {
    var n := |MessagePrefix|;
    assert |p| == |q|;
    assert p == Message(p)[n..n + |p|];
    assert q == Message(q)[n..n + |q|];
  }

  predicate IsLoadCallee(text: string) {
    text == "load" || text == "preload"
  }

  function StringSite(a: Node): seq<Site> {
    if a.kind == "string" then [Site(a.text, a.row + 1, a.column + 1)] else []
  }

  /** What the walk records at one node: at a `call` whose first child is
      `load` or `preload` and which has an `arguments` field, a site for each
      `string` child of the arguments, in order. */
  function LoadSites(n: Node): (r: seq<Site>)
    ensures forall s :: s in r <==>
              (n.kind == "call" && n.children != [] && IsLoadCallee(n.children[0].text)
               && FieldChild(n, "arguments").Some?
               && exists a :: a in FieldChild(n, "arguments").value.children && a.kind == "string"
                              && s == Site(a.text, a.row + 1, a.column + 1))
  {
    if n.kind == "call" then
      match (FirstChild(n), FieldChild(n, "arguments"))
      case (Some(f), Some(args)) =>
        if IsLoadCallee(f.text) then
          assert forall s :: s in FlatMap(args.children, StringSite)
                   <==> exists k :: 0 <= k < |args.children| && s in StringSite(args.children[k]) by {
            forall s { FlatMapMember(args.children, StringSite, s); }
          }
          FlatMap(args.children, StringSite)
        else []
      case _ => []
    else []
  }

  /** Every load site of the tree, in walk order. */
  function Sites(root: Node): seq<Site> {
    PreOrder(root, LoadSites)
  }

  /** The positions of the sites with a given path, in order. */
  function Locations(sites: seq<Site>, path: string): (r: seq<(nat, nat)>)
    ensures |r| <= |sites|
  {
    if sites == [] then []
    else
      var last := sites[|sites| - 1];
      Locations(sites[..|sites| - 1], path) + (if last.path == path then [(last.line, last.column)] else [])
  }

  /** The `load_paths` map after recording `sites` one by one. */
  function LoadPaths(sites: seq<Site>): (m: map<string, seq<(nat, nat)>>)
  {
    if sites == [] then map[]
    else
      var s := sites[|sites| - 1];
      var m := LoadPaths(sites[..|sites| - 1]);
      m[s.path := (if s.path in m then m[s.path] else []) + [(s.line, s.column)]]
  }

  /** Each path met is a key of the map, and its entry lists the positions
      of that path's sites in order; a path never met has no site. */
  lemma {:induction false} LoadPathsEntry(sites: seq<Site>, p: string)
    ensures p in LoadPaths(sites) <==> exists k :: 0 <= k < |sites| && sites[k].path == p
    ensures p in LoadPaths(sites) ==> LoadPaths(sites)[p] == Locations(sites, p) != []
    ensures p !in LoadPaths(sites) ==> Locations(sites, p) == []
  {
    if sites != [] {
      var init := sites[..|sites| - 1];
      LoadPathsEntry(init, p);
      assert forall k :: 0 <= k < |init| ==> init[k] == sites[k];
      assert sites == init + [sites[|sites| - 1]];
    }
  }

  /** The traversal's bookkeeping: `entry(path).or_insert_with(Vec::new).push(..)`
      for each site in turn. */
  method RecordSites(sites: seq<Site>) returns (loadPaths: map<string, seq<(nat, nat)>>)
    ensures loadPaths == LoadPaths(sites)
  {
    loadPaths := map[];
    var i := 0;
    while i < |sites|
      invariant i <= |sites|
      invariant loadPaths == LoadPaths(sites[..i])
    {
      assert sites[..i + 1][..i] == sites[..i];
      var s := sites[i];
      var locations := if s.path in loadPaths then loadPaths[s.path] else [];
      loadPaths := loadPaths[s.path := locations + [(s.line, s.column)]];
      i := i + 1;
    }
    assert sites[..i] == sites;
  }

  function SiteIssue(path: string, location: (nat, nat)): LintIssue {
    LintIssue(location.0, location.1, RuleId, Warning, Message(path))
  }

  /** The issues of one path: a Warning at each location when there is more
      than one, none otherwise. */
  function PathIssues(path: string, locations: seq<(nat, nat)>): (r: seq<LintIssue>)
    ensures |locations| <= 1 ==> r == []
    ensures |locations| > 1 ==>
              |r| == |locations| && forall k :: 0 <= k < |r| ==> r[k] == SiteIssue(path, locations[k])
  {
    if |locations| > 1 then seq(|locations|, k requires 0 <= k < |locations| => SiteIssue(path, locations[k]))
    else []
  }

  /** An order in which a hash map may yield its keys: each key exactly once. */
  predicate IsKeyOrder(order: seq<string>, m: map<string, seq<(nat, nat)>>) {
    (forall p :: p in order ==> p in m) && (forall p :: p in m ==> p in order)
    && forall i, j :: 0 <= i < j < |order| ==> order[i] != order[j]
  }

  /** The emission loop's output when the map yields its keys in `order`. */
  function Emission(m: map<string, seq<(nat, nat)>>, order: seq<string>): seq<LintIssue>
    requires forall p :: p in order ==> p in m
  {
    if order == [] then []
    else
      var last := order[|order| - 1];
      assert forall p :: p in order[..|order| - 1] ==> p in order;
      Emission(m, order[..|order| - 1]) + PathIssues(last, m[last])
  }

  /** Partway through the loop over the map: every key is either still to
      visit or already visited, never both, and visited at most once. */
  ghost predicate Visiting(m: map<string, seq<(nat, nat)>>, remaining: set<string>, order: seq<string>) {
    (forall p :: p in m <==> p in remaining || p in order)
    && (forall p :: p in order ==> p !in remaining)
    && forall i, j :: 0 <= i < j < |order| ==> order[i] != order[j]
  }

  lemma VisitStep(m: map<string, seq<(nat, nat)>>, remaining: set<string>, order: seq<string>, path: string)
    requires Visiting(m, remaining, order) && path in remaining
    ensures Visiting(m, remaining - {path}, order + [path])
    ensures Emission(m, order + [path]) == Emission(m, order) + PathIssues(path, m[path])
  {
    var next := order + [path];
    assert forall i :: 0 <= i < |order| ==> next[i] == order[i];
    assert next[..|order|] == order;
  }

  /** The loop over `load_paths`: the map's iteration order is not
      specified, so each step takes any key not yet visited; `order` records
      the order taken. */
  method EmitDuplicates(loadPaths: map<string, seq<(nat, nat)>>)
    returns (issues: seq<LintIssue>, ghost order: seq<string>)
    ensures IsKeyOrder(order, loadPaths)
    ensures issues == Emission(loadPaths, order)
  {
    issues := [];
    order := [];
    var remaining := loadPaths.Keys;
    while remaining != {}
      invariant Visiting(loadPaths, remaining, order)
      invariant issues == Emission(loadPaths, order)
      decreases |remaining|
    {
      var path :| path in remaining;
      VisitStep(loadPaths, remaining, order, path);
      issues := issues + PathIssues(path, loadPaths[path]);
      order := order + [path];
      remaining := remaining - {path};
    }
  }

  /** `check_duplicated_load`: walk the tree recording load sites, then emit
      the duplicates in the map's iteration order. */
  method CheckDuplicatedLoad(root: Node) returns (issues: seq<LintIssue>, ghost order: seq<string>)
    ensures IsKeyOrder(order, LoadPaths(Sites(root)))
    ensures issues == Emission(LoadPaths(Sites(root)), order)
  {
    var sites := Walk(root, LoadSites);
    var loadPaths := RecordSites(sites);
    issues, order := EmitDuplicates(loadPaths);
  }

  /** The issues carrying a given message, in order. */
  function WithMessage(xs: seq<LintIssue>, message: string): seq<LintIssue> {
    if xs == [] then []
    else
      var last := xs[|xs| - 1];
      WithMessage(xs[..|xs| - 1], message) + (if last.message == message then [last] else [])
  }

  lemma {:induction false} WithMessageAppend(a: seq<LintIssue>, b: seq<LintIssue>, message: string)
    ensures WithMessage(a + b, message) == WithMessage(a, message) + WithMessage(b, message)
    decreases |b|
  {
    if b == [] {
      assert a + b == a;
    } else {
      assert (a + b)[..|a + b| - 1] == a + b[..|b| - 1];
      WithMessageAppend(a, b[..|b| - 1], message);
    }
  }

  /** Of one path's issues, those with path `p`'s message are all of them
      when the path is `p`, and none otherwise. */
  lemma PathIssuesWithMessage(q: string, locations: seq<(nat, nat)>, p: string)
    ensures WithMessage(PathIssues(q, locations), Message(p)) == if q == p then PathIssues(q, locations) else []
  {
    WithMessageUniform(PathIssues(q, locations), q, p);
  }

  /** Issues that all carry path `q`'s message keep all of them under `q`'s
      message and none under another path's. */
  lemma {:induction false} WithMessageUniform(r: seq<LintIssue>, q: string, p: string)
    requires forall i :: 0 <= i < |r| ==> r[i].message == Message(q)
    ensures WithMessage(r, Message(p)) == if q == p then r else []
    decreases |r|
  {
    if r != [] {
      var init := r[..|r| - 1];
      assert forall i :: 0 <= i < |init| ==> init[i] == r[i];
      WithMessageUniform(init, q, p);
      assert r == init + [r[|r| - 1]];
      if q != p && Message(q) == Message(p) {
        MessageInjective(q, p);
      }
    }
  }

  /** Whatever order the map yields its keys in, the issues for each path
      are one Warning per site of that path, in walk order, when the path is
      loaded more than once, and none otherwise. */
  lemma {:induction false} EmissionPerPath(m: map<string, seq<(nat, nat)>>, order: seq<string>, p: string)
    requires forall q :: q in order ==> q in m
    requires forall i, j :: 0 <= i < j < |order| ==> order[i] != order[j]
    ensures WithMessage(Emission(m, order), Message(p)) == if p in order then PathIssues(p, m[p]) else []
  {
    if order != [] {
      var init := order[..|order| - 1];
      var last := order[|order| - 1];
      assert order == init + [last];
      assert forall q :: q in init ==> q in order;
      assert p in order <==> p in init || p == last;
      EmissionPerPath(m, init, p);
      assert Emission(m, order) == Emission(m, init) + PathIssues(last, m[last]);
      WithMessageAppend(Emission(m, init), PathIssues(last, m[last]), Message(p));
      PathIssuesWithMessage(last, m[last], p);
      if last == p {
        assert p !in init;
      }
    }
  }

  /** The rule's output for a tree, whatever the iteration order: for every
      path, the issues naming it are one Warning per string argument of
      `load`/`preload` with that text, in walk order, when there are two or
      more such arguments, and none otherwise. */
  lemma DuplicatedLoadPerPath(root: Node, order: seq<string>, p: string)
    requires IsKeyOrder(order, LoadPaths(Sites(root)))
    ensures var issues := WithMessage(Emission(LoadPaths(Sites(root)), order), Message(p));
            var locations := Locations(Sites(root), p);
            |issues| == (if |locations| > 1 then |locations| else 0)
            && forall k :: 0 <= k < |issues| ==> issues[k] == SiteIssue(p, locations[k])
  {
    var m := LoadPaths(Sites(root));
    EmissionPerPath(m, order, p);
    LoadPathsEntry(Sites(root), p);
  }

  /** Every issue the rule emits is the Warning for one site of a path
      loaded at least twice. */
  lemma {:induction false} EmissionMember(m: map<string, seq<(nat, nat)>>, order: seq<string>, x: LintIssue)
    requires forall p :: p in order ==> p in m
    requires x in Emission(m, order)
    ensures exists p, k :: p in order && |m[p]| > 1 && 0 <= k < |m[p]| && x == SiteIssue(p, m[p][k])
  {
    var init := order[..|order| - 1];
    var last := order[|order| - 1];
    assert forall p :: p in init ==> p in order;
    var tail := PathIssues(last, m[last]);
    if x in tail {
      var k :| 0 <= k < |tail| && tail[k] == x;
      assert last in order;
    } else {
      EmissionMember(m, init, x);
    }
  }

  /** The positions listed for a path are those of its sites. */
  lemma {:induction false} LocationsMember(sites: seq<Site>, p: string, loc: (nat, nat))
    ensures loc in Locations(sites, p) <==>
              exists k :: 0 <= k < |sites| && sites[k].path == p && (sites[k].line, sites[k].column) == loc
  {
    if sites != [] {
      var init := sites[..|sites| - 1];
      LocationsMember(init, p, loc);
      assert forall k :: 0 <= k < |init| ==> init[k] == sites[k];
    }
  }

  /** Whatever the key order, every issue of the rule names a path that is
      the text of two or more load arguments, and sits at one of them. */
  lemma DuplicatedLoadIssue(root: Node, order: seq<string>, x: LintIssue)
    requires IsKeyOrder(order, LoadPaths(Sites(root)))
    requires x in Emission(LoadPaths(Sites(root)), order)
    ensures exists p :: |Locations(Sites(root), p)| > 1 && (x.line, x.column) in Locations(Sites(root), p)
                        && x == SiteIssue(p, (x.line, x.column))
  {
    var m := LoadPaths(Sites(root));
    EmissionMember(m, order, x);
    var p, k :| p in order && |m[p]| > 1 && 0 <= k < |m[p]| && x == SiteIssue(p, m[p][k]);
    LoadPathsEntry(Sites(root), p);
  }

  /** Two load sites at one position have the same path text. A parser's
      tree gives this: two distinct `string` nodes never start at the same
      place. */
  predicate PositionsDeterminePaths(sites: seq<Site>) {
    forall i, j :: 0 <= i < |sites| && 0 <= j < |sites|
                   && sites[i].line == sites[j].line && sites[i].column == sites[j].column
                   ==> sites[i].path == sites[j].path
  }

  /** No position is listed under two paths of the map. */
  ghost predicate LocationsDisjoint(m: map<string, seq<(nat, nat)>>) {
    forall p, q, loc :: p in m && q in m && loc in m[p] && loc in m[q] ==> p == q
  }

  lemma LoadPathsDisjoint(sites: seq<Site>)
    requires PositionsDeterminePaths(sites)
    ensures LocationsDisjoint(LoadPaths(sites))
  {
    var m := LoadPaths(sites);
    forall p, q, loc | p in m && q in m && loc in m[p] && loc in m[q] ensures p == q {
      LoadPathsEntry(sites, p);
      LoadPathsEntry(sites, q);
      LocationsMember(sites, p, loc);
      LocationsMember(sites, q, loc);
    }
  }

  /** A path's issues sit only at its own locations. */
  lemma PathIssuesAtPosition(p: string, locations: seq<(nat, nat)>, line: nat, column: nat)
    requires (line, column) !in locations
    ensures AtPosition(PathIssues(p, locations), line, column) == []
  {
    var r := PathIssues(p, locations);
    if AtPosition(r, line, column) != [] {
      var y := AtPosition(r, line, column)[0];
      AtPositionElements(r, line, column, y);
      assert false;
    }
  }

  /** At a position owned by at most the path `q`, the emission holds that
      path's issues there, whichever order the other paths come in. */
  lemma {:induction false} EmissionAtPosition(m: map<string, seq<(nat, nat)>>, order: seq<string>, q: string,
                                              line: nat, column: nat)
    requires forall p :: p in order ==> p in m
    requires forall i, j :: 0 <= i < j < |order| ==> order[i] != order[j]
    requires forall p :: p in m && (line, column) in m[p] ==> p == q
    ensures AtPosition(Emission(m, order), line, column)
            == if q in order then AtPosition(PathIssues(q, m[q]), line, column) else []
  {
    if order != [] {
      var init := order[..|order| - 1];
      var last := order[|order| - 1];
      assert order == init + [last];
      assert forall p :: p in init ==> p in order;
      assert q in order <==> q in init || q == last;
      EmissionAtPosition(m, init, q, line, column);
      AtPositionAppend(Emission(m, init), PathIssues(last, m[last]), line, column);
      if last == q {
        assert q !in init;
      } else {
        PathIssuesAtPosition(last, m[last], line, column);
      }
    }
  }

  /** Two key orders of a map whose locations are disjoint emit the same
      issues at every position. */
  lemma EmissionSamePositions(m: map<string, seq<(nat, nat)>>, order1: seq<string>, order2: seq<string>)
    requires IsKeyOrder(order1, m) && IsKeyOrder(order2, m)
    requires LocationsDisjoint(m)
    ensures SamePositions(Emission(m, order1), Emission(m, order2))
  {
    forall line: nat, column: nat
      ensures AtPosition(Emission(m, order1), line, column) == AtPosition(Emission(m, order2), line, column)
    {
      if exists p :: p in m && (line, column) in m[p] {
        var q :| q in m && (line, column) in m[q];
        EmissionAtPosition(m, order1, q, line, column);
        EmissionAtPosition(m, order2, q, line, column);
      } else {
        EmissionAtPosition(m, order1, "", line, column);
        EmissionAtPosition(m, order2, "", line, column);
      }
    }
  }

  /** When no two load sites at one position differ in path, the hash
      map's order shows only in the order of issues at different positions,
      which the linter's sort by position erases. */
  lemma DuplicatedLoadSamePositions(root: Node, order1: seq<string>, order2: seq<string>)
    requires IsKeyOrder(order1, LoadPaths(Sites(root))) && IsKeyOrder(order2, LoadPaths(Sites(root)))
    requires PositionsDeterminePaths(Sites(root))
    ensures SamePositions(Emission(LoadPaths(Sites(root)), order1), Emission(LoadPaths(Sites(root)), order2))
  {
    LoadPathsDisjoint(Sites(root));
    EmissionSamePositions(LoadPaths(Sites(root)), order1, order2);
  }
}
