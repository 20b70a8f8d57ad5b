/** The parsed tree the rules read. A tree-sitter node is folded into a value:
    its kind, its source text (what `utf8_text` returns), its 0-based start
    row and column, the field name it has under its parent, and all of its
    children in order, anonymous tokens included (the cursor walks visit
    those too). */
module Syntax {
  import opened Common

  datatype Node = Node(kind: string, text: string, row: nat, column: nat,
                       field: Option<string>, children: seq<Node>)

  /** `child_by_field_name`: the first child carrying the field. */
  function FieldChild(n: Node, name: string): (r: Option<Node>)
    ensures r.None? <==> forall i :: 0 <= i < |n.children| ==> n.children[i].field != Some(name)
    ensures r.Some? ==> exists i :: 0 <= i < |n.children| && n.children[i] == r.value
                          && (forall j :: 0 <= j < i ==> n.children[j].field != Some(name))
    ensures r.Some? ==> r.value.field == Some(name)
  {
    FirstWithField(n.children, name)
  }

  function FirstWithField(cs: seq<Node>, name: string): (r: Option<Node>)
    ensures r.None? <==> forall i :: 0 <= i < |cs| ==> cs[i].field != Some(name)
    ensures r.Some? ==> exists i :: 0 <= i < |cs| && cs[i] == r.value
                          && (forall j :: 0 <= j < i ==> cs[j].field != Some(name))
    ensures r.Some? ==> r.value.field == Some(name)
  {
    if cs == [] then None
    else if cs[0].field == Some(name) then Some(cs[0])
    else
      var r := FirstWithField(cs[1..], name);
      assert r.Some? ==> exists i :: 0 <= i < |cs| && cs[i] == r.value
                          && (forall j :: 0 <= j < i ==> cs[j].field != Some(name)) by {
        if r.Some? {
          var i :| 0 <= i < |cs[1..]| && cs[1..][i] == r.value
                   && (forall j :: 0 <= j < i ==> cs[1..][j].field != Some(name));
          assert cs[i + 1] == r.value;
          assert forall j :: 0 <= j < i + 1 ==> cs[j].field != Some(name) by {
            forall j | 0 <= j < i + 1 ensures cs[j].field != Some(name) {
              if j > 0 { assert cs[j] == cs[1..][j - 1]; }
            }
          }
        }
      }
      r
  }

  /** `child(0)`: the first child, if there is one. */
  function FirstChild(n: Node): (r: Option<Node>)
    ensures r.None? <==> n.children == []
    ensures r.Some? ==> r.value == n.children[0]
  {
    if n.children == [] then None else Some(n.children[0])
  }

  /** The 1-based (line, column) a diagnostic reports for a node: the start
      row and column, each plus one. */
  function Position(n: Node): (nat, nat) {
    (n.row + 1, n.column + 1)
  }

  /** Layout and comment nodes, which never count as statements. */
  predicate IsTrivia(kind: string) {
    kind == "_newline" || kind == "_indent" || kind == "_dedent" || kind == "comment"
  }

  /** What a recursive cursor walk collects: `visit` at the node itself, then
      everything below each child in order (pre-order). */
  function PreOrder<T>(n: Node, visit: Node -> seq<T>): seq<T>
    decreases n, 1
  {
    visit(n) + Forest(n.children, visit)
  }

  function Forest<T>(ns: seq<Node>, visit: Node -> seq<T>): seq<T>
    decreases ns, 0
  {
    if ns == [] then [] else PreOrder(ns[0], visit) + Forest(ns[1..], visit)
  }

  function Single(n: Node): seq<Node> {
    [n]
  }

  /** Every node of the tree, in pre-order. */
  function Nodes(n: Node): seq<Node> {
    PreOrder(n, Single)
  }

  function FlatMap<A, T>(xs: seq<A>, f: A -> seq<T>): seq<T> {
    if xs == [] then [] else f(xs[0]) + FlatMap(xs[1..], f)
  }

  function Size(n: Node): nat
    decreases n, 1
  {
    1 + ForestSize(n.children)
  }

  function ForestSize(ns: seq<Node>): nat
    decreases ns, 0
  {
    if ns == [] then 0 else Size(ns[0]) + ForestSize(ns[1..])
  }

  lemma {:induction false} ForestAppend<T>(a: seq<Node>, b: seq<Node>, visit: Node -> seq<T>)
    ensures Forest(a + b, visit) == Forest(a, visit) + Forest(b, visit)
    ensures ForestSize(a + b) == ForestSize(a) + ForestSize(b)
  {
    if a != [] {
      assert (a + b)[0] == a[0];
      assert (a + b)[1..] == a[1..] + b;
      ForestAppend(a[1..], b, visit);
    } else {
      assert a + b == b;
    }
  }

  lemma {:induction false} FlatMapAppend<A, T>(a: seq<A>, b: seq<A>, f: A -> seq<T>)
    ensures FlatMap(a + b, f) == FlatMap(a, f) + FlatMap(b, f)
  {
    if a != [] {
      assert (a + b)[0] == a[0];
      assert (a + b)[1..] == a[1..] + b;
      FlatMapAppend(a[1..], b, f);
    } else {
      assert a + b == b;
    }
  }

  /** Membership in a flat map: an element was produced by some input. */
  lemma {:induction false} FlatMapMember<A, T>(xs: seq<A>, f: A -> seq<T>, y: T)
    ensures y in FlatMap(xs, f) <==> exists k :: 0 <= k < |xs| && y in f(xs[k])
  {
    if xs != [] {
      FlatMapMember(xs[1..], f, y);
      if y in FlatMap(xs[1..], f) {
        var k :| 0 <= k < |xs[1..]| && y in f(xs[1..][k]);
        assert xs[k + 1] == xs[1..][k];
      }
      if exists k :: 0 <= k < |xs| && y in f(xs[k]) {
        var k :| 0 <= k < |xs| && y in f(xs[k]);
        if k > 0 { assert xs[1..][k - 1] == xs[k]; }
      }
    }
  }

  lemma FlatMapSingle<A, T>(x: A, f: A -> seq<T>)
    ensures FlatMap([x], f) == f(x)
  {
    assert [x][1..] == [];
  }

  /** A loop over `xs` that appends `f` of each element extends the flat map
      of the prefix it has seen. */
  lemma FlatMapPrefix<A, T>(xs: seq<A>, i: nat, f: A -> seq<T>)
    requires i < |xs|
    ensures FlatMap(xs[..i + 1], f) == FlatMap(xs[..i], f) + f(xs[i])
  {
    assert xs[..i + 1] == xs[..i] + [xs[i]];
    FlatMapAppend(xs[..i], [xs[i]], f);
    FlatMapSingle(xs[i], f);
  }

  /** Flat-mapping in two stages is flat-mapping once with the composed stage. */
  lemma {:induction false} FlatMapFuse<A, B, T>(xs: seq<A>, f: A -> seq<B>, g: B -> seq<T>, h: A -> seq<T>)
    requires forall x :: FlatMap(f(x), g) == h(x)
    ensures FlatMap(FlatMap(xs, f), g) == FlatMap(xs, h)
  {
    if xs != [] {
      FlatMapAppend(f(xs[0]), FlatMap(xs[1..], f), g);
      FlatMapFuse(xs[1..], f, g, h);
    }
  }

  /** A pre-order walk is `visit` mapped over the pre-order list of nodes:
      the walk's output comes node by node, in the order the nodes are met. */
  lemma {:induction false} PreOrderIsFlatMap<T>(n: Node, visit: Node -> seq<T>)
    ensures PreOrder(n, visit) == FlatMap(Nodes(n), visit)
    decreases n, 1
  {
    ForestIsFlatMap(n.children, visit);
    calc {
      FlatMap(Nodes(n), visit);
      { assert Nodes(n) == [n] + Forest(n.children, Single);
        FlatMapAppend([n], Forest(n.children, Single), visit); }
      FlatMap([n], visit) + FlatMap(Forest(n.children, Single), visit);
      { assert FlatMap([n], visit) == visit(n) + FlatMap([n][1..], visit); }
      visit(n) + Forest(n.children, visit);
    }
  }

  lemma {:induction false} ForestIsFlatMap<T>(ns: seq<Node>, visit: Node -> seq<T>)
    ensures Forest(ns, visit) == FlatMap(Forest(ns, Single), visit)
    decreases ns, 0
  {
    if ns != [] {
      PreOrderIsFlatMap(ns[0], visit);
      ForestIsFlatMap(ns[1..], visit);
      FlatMapAppend(Nodes(ns[0]), Forest(ns[1..], Single), visit);
    }
  }

  /** What a walk reports is exactly what `visit` reports at some node of the tree. */
  lemma PreOrderMember<T>(n: Node, visit: Node -> seq<T>, y: T)
    ensures y in PreOrder(n, visit) <==> exists k :: 0 <= k < |Nodes(n)| && y in visit(Nodes(n)[k])
  {
    PreOrderIsFlatMap(n, visit);
    FlatMapMember(Nodes(n), visit, y);
  }

  /** The walk every traversal rule performs (`traverse` with
      `goto_first_child`/`goto_next_sibling`/`goto_parent`), written with an
      explicit work stack whose top is its first element. */
  method Walk<T>(root: Node, visit: Node -> seq<T>) returns (out: seq<T>)
    ensures out == PreOrder(root, visit)
  {
    out := [];
    var stack := [root];
    assert Forest(stack, visit) == PreOrder(root, visit) + Forest([], visit);
    while stack != []
      invariant out + Forest(stack, visit) == PreOrder(root, visit)
      decreases ForestSize(stack)
    {
      var n := stack[0];
      ForestAppend(n.children, stack[1..], visit);
      assert ForestSize(stack) == 1 + ForestSize(n.children) + ForestSize(stack[1..]);
      out := out + visit(n);
      stack := n.children + stack[1..];
    }
  }
}
