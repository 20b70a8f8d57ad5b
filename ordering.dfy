/** The order `lint` returns diagnostics in: `sort_by` on (line, column).
    Rust's slice sort is stable, so diagnostics at one position keep the
    order they were produced in. */
module Ordering {
  import opened Diagnostics

  predicate PosLe(a: LintIssue, b: LintIssue) {
    a.line < b.line || (a.line == b.line && a.column <= b.column)
  }

  predicate Sorted(s: seq<LintIssue>) {
    forall i, j :: 0 <= i < j < |s| ==> PosLe(s[i], s[j])
  }

  predicate At(x: LintIssue, line: nat, column: nat) {
    x.line == line && x.column == column
  }

  /** The diagnostics of `s` at one position, in their order in `s`. */
  function AtPosition(s: seq<LintIssue>, line: nat, column: nat): seq<LintIssue> {
    if s == [] then []
    else (if At(s[0], line, column) then [s[0]] else []) + AtPosition(s[1..], line, column)
  }

  /** Puts `x` before the first element that is not ahead of it. */
  function Insert(x: LintIssue, t: seq<LintIssue>): seq<LintIssue> {
    if t == [] then [x]
    else if PosLe(x, t[0]) then [x] + t
    else [t[0]] + Insert(x, t[1..])
  }

  /** A stable sort by (line, column). */
  function SortByPosition(s: seq<LintIssue>): seq<LintIssue> {
    if s == [] then [] else Insert(s[0], SortByPosition(s[1..]))
  }

  lemma {:induction false} InsertMultiset(x: LintIssue, t: seq<LintIssue>)
    ensures multiset(Insert(x, t)) == multiset(t) + multiset{x}
  {
    if t != [] && !PosLe(x, t[0]) {
      InsertMultiset(x, t[1..]);
      assert t == [t[0]] + t[1..];
    }
  }

  lemma {:induction false} InsertSorted(x: LintIssue, t: seq<LintIssue>)
    requires Sorted(t)
    ensures Sorted(Insert(x, t))
  {
    if t != [] && !PosLe(x, t[0]) {
      InsertSorted(x, t[1..]);
      InsertMultiset(x, t[1..]);
      var r := Insert(x, t[1..]);
      forall i, j | 0 <= i < j < |[t[0]] + r| ensures PosLe(([t[0]] + r)[i], ([t[0]] + r)[j]) {
        if i == 0 {
          var y := ([t[0]] + r)[j];
          assert y == r[j - 1];
          assert y in multiset(r);
          assert y == x || y in multiset(t[1..]);
          if y != x {
            var k :| 0 <= k < |t[1..]| && t[1..][k] == y;
            assert y == t[k + 1];
          }
        }
      }
    } else if t != [] {
      forall i, j | 0 <= i < j < |[x] + t| ensures PosLe(([x] + t)[i], ([x] + t)[j]) {
        if i == 0 && j > 1 { assert PosLe(t[0], t[j - 1]); }
      }
    }
  }

  lemma {:induction false} InsertAtPosition(x: LintIssue, t: seq<LintIssue>, line: nat, column: nat)
    requires Sorted(t)
    ensures AtPosition(Insert(x, t), line, column)
            == (if At(x, line, column) then [x] else []) + AtPosition(t, line, column)
  {
    if t != [] && !PosLe(x, t[0]) {
      InsertAtPosition(x, t[1..], line, column);
      assert [t[0]] + Insert(x, t[1..]) == Insert(x, t);
      assert ([t[0]] + Insert(x, t[1..]))[1..] == Insert(x, t[1..]);
    } else if t != [] {
      assert ([x] + t)[1..] == t;
    }
  }

  /** Sorting yields an ordered permutation of its input in which the
      diagnostics at each position keep their input order. */
  lemma {:induction false} SortFacts(s: seq<LintIssue>)
    ensures Sorted(SortByPosition(s))
    ensures multiset(SortByPosition(s)) == multiset(s)
    ensures forall line, column :: AtPosition(SortByPosition(s), line, column) == AtPosition(s, line, column)
  {
    if s != [] {
      SortFacts(s[1..]);
      InsertMultiset(s[0], SortByPosition(s[1..]));
      InsertSorted(s[0], SortByPosition(s[1..]));
      forall line, column
        ensures AtPosition(SortByPosition(s), line, column) == AtPosition(s, line, column)
      {
        InsertAtPosition(s[0], SortByPosition(s[1..]), line, column);
      }
      assert s == [s[0]] + s[1..];
    }
  }

  lemma {:induction false} AtPositionMember(s: seq<LintIssue>, x: LintIssue)
    ensures x in s <==> x in AtPosition(s, x.line, x.column)
    ensures forall y :: y in AtPosition(s, x.line, x.column) ==> At(y, x.line, x.column)
  {
    if s != [] { AtPositionMember(s[1..], x); }
  }

  lemma {:induction false} AtPositionElements(s: seq<LintIssue>, line: nat, column: nat, y: LintIssue)
    requires y in AtPosition(s, line, column)
    ensures y in s && At(y, line, column)
  {
    if s != [] && !(At(s[0], line, column) && y == s[0]) {
      AtPositionElements(s[1..], line, column, y);
    }
  }

  lemma {:induction false} AtPositionHead(s: seq<LintIssue>)
    requires s != []
    ensures AtPosition(s, s[0].line, s[0].column) == [s[0]] + AtPosition(s[1..], s[0].line, s[0].column)
  {
  }

  /** In an ordered sequence, the elements at another position than the
      first one's are all further on. */
  lemma {:induction false} SortedMinimum(s: seq<LintIssue>, x: LintIssue)
    requires Sorted(s) && s != [] && x in s
    ensures PosLe(s[0], x)
  {
  }

  /** An ordered sequence is fixed by what it holds at each position: so any
      stable sort by (line, column), whatever its algorithm, agrees with
      `SortByPosition`. */
  lemma {:induction false} StableSortUnique(r: seq<LintIssue>, s: seq<LintIssue>)
    requires Sorted(r)
    requires forall line, column :: AtPosition(r, line, column) == AtPosition(s, line, column)
    ensures r == SortByPosition(s)
  {
    SortFacts(s);
    SortedDeterminedByPositions(r, SortByPosition(s));
  }

  /** Two sequences holding the same diagnostics, in the same order, at
      every position. */
  ghost predicate SamePositions(a: seq<LintIssue>, b: seq<LintIssue>) {
    forall line, column :: AtPosition(a, line, column) == AtPosition(b, line, column)
  }

  lemma {:induction false} AtPositionAppend(a: seq<LintIssue>, b: seq<LintIssue>, line: nat, column: nat)
    ensures AtPosition(a + b, line, column) == AtPosition(a, line, column) + AtPosition(b, line, column)
  {
    if a == [] {
      assert a + b == b;
    } else {
      assert (a + b)[0] == a[0];
      assert (a + b)[1..] == a[1..] + b;
      AtPositionAppend(a[1..], b, line, column);
    }
  }

  lemma SamePositionsAppend(a: seq<LintIssue>, b: seq<LintIssue>, c: seq<LintIssue>, d: seq<LintIssue>)
    requires SamePositions(a, c) && SamePositions(b, d)
    ensures SamePositions(a + b, c + d)
  {
    forall line, column ensures AtPosition(a + b, line, column) == AtPosition(c + d, line, column) {
      AtPositionAppend(a, b, line, column);
      AtPositionAppend(c, d, line, column);
    }
  }

  /** Sequences that agree at every position sort to the same sequence: the
      sort's result depends only on what each position holds. */
  lemma SamePositionsSort(a: seq<LintIssue>, b: seq<LintIssue>)
    requires SamePositions(a, b)
    ensures SortByPosition(a) == SortByPosition(b)
  {
    SortFacts(a);
    SortFacts(b);
    SortedDeterminedByPositions(SortByPosition(a), SortByPosition(b));
  }

  lemma {:induction false} SortedDeterminedByPositions(a: seq<LintIssue>, b: seq<LintIssue>)
    requires Sorted(a) && Sorted(b)
    requires forall line, column :: AtPosition(a, line, column) == AtPosition(b, line, column)
    ensures a == b
    decreases |a|
  {
    if a == [] {
      if b != [] {
        AtPositionHead(b);
        assert false;
      }
    } else if b == [] {
      AtPositionHead(a);
      assert false;
    } else {
      AtPositionHead(a);
      AtPositionHead(b);
      // a[0] occurs in b, so b[0] is not after it, and symmetrically.
      AtPositionMember(b, a[0]);
      AtPositionMember(a, b[0]);
      assert a[0] in AtPosition(b, a[0].line, a[0].column);
      assert b[0] in AtPosition(a, b[0].line, b[0].column);
      SortedMinimum(b, a[0]);
      SortedMinimum(a, b[0]);
      assert At(a[0], b[0].line, b[0].column);
      assert a[0] == AtPosition(a, a[0].line, a[0].column)[0];
      assert a[0] == b[0];
      forall line, column
        ensures AtPosition(a[1..], line, column) == AtPosition(b[1..], line, column)
      {
        var p := if At(a[0], line, column) then [a[0]] else [];
        assert AtPosition(a, line, column) == p + AtPosition(a[1..], line, column);
        assert AtPosition(b, line, column) == p + AtPosition(b[1..], line, column);
        assert (p + AtPosition(a[1..], line, column))[|p|..] == AtPosition(a[1..], line, column);
        assert (p + AtPosition(b[1..], line, column))[|p|..] == AtPosition(b[1..], line, column);
      }
      SortedDeterminedByPositions(a[1..], b[1..]);
      assert a == [a[0]] + a[1..] && b == [b[0]] + b[1..];
    }
  }
}
