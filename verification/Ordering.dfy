/** Comparison functions in the JavaScript convention (negative, zero, positive) and stable sorting by one. */
module Ordering {
  import opened Common

  type Comparison<!T> = (T, T) -> int

  function Sign(n: int): int { if n < 0 then -1 else if n > 0 then 1 else 0 }

  /** A comparison that `Array.prototype.sort` may be given: antisymmetric in sign, and transitive. */
  ghost predicate Consistent<T(!new)>(cmp: Comparison<T>) {
    && (forall x, y :: Sign(cmp(x, y)) == -Sign(cmp(y, x)))
    && (forall x, y, z :: cmp(x, y) <= 0 && cmp(y, z) <= 0 ==> cmp(x, z) <= 0)
  }

  ghost predicate Sorted<T>(cmp: Comparison<T>, s: seq<T>) {
    forall i, j :: 0 <= i < j < |s| ==> cmp(s[i], s[j]) <= 0
  }

  ghost predicate StrictlySorted<T>(cmp: Comparison<T>, s: seq<T>) {
    forall i, j :: 0 <= i < j < |s| ==> cmp(s[i], s[j]) < 0
  }

  function Insert<T>(cmp: Comparison<T>, x: T, s: seq<T>): seq<T> {
    if s == [] || cmp(x, s[0]) <= 0 then [x] + s else [s[0]] + Insert(cmp, x, s[1..])
  }

  /** Stable sorting: equal elements keep their order, because an element enters before its equals. */
  function SortBy<T>(cmp: Comparison<T>, s: seq<T>): seq<T> {
    if s == [] then [] else Insert(cmp, s[0], SortBy(cmp, s[1..]))
  }

  lemma {:induction false} InsertPermutes<T>(cmp: Comparison<T>, x: T, s: seq<T>)
    ensures multiset(Insert(cmp, x, s)) == multiset(s) + multiset{x}
  {
    if s == [] || cmp(x, s[0]) <= 0 {
    } else {
      InsertPermutes(cmp, x, s[1..]);
      assert s == [s[0]] + s[1..];
    }
  }

  lemma SameElements<T>(a: seq<T>, b: seq<T>)
    requires multiset(a) == multiset(b)
    ensures |a| == |b| && Elements(a) == Elements(b)
    ensures forall x :: x in a <==> x in b
  {
    assert |multiset(a)| == |multiset(b)|;
    forall x ensures x in a <==> x in b {
      assert x in multiset(a) <==> x in multiset(b);
    }
  }

  lemma {:induction false} SortPermutes<T>(cmp: Comparison<T>, s: seq<T>)
    ensures multiset(SortBy(cmp, s)) == multiset(s)
  {
    if s != [] {
      SortPermutes(cmp, s[1..]);
      InsertPermutes(cmp, s[0], SortBy(cmp, s[1..]));
      assert s == [s[0]] + s[1..];
    }
  }

  lemma SortMembers<T>(cmp: Comparison<T>, s: seq<T>)
    ensures |SortBy(cmp, s)| == |s|
    ensures forall x :: x in SortBy(cmp, s) <==> x in s
  {
    SortPermutes(cmp, s);
    SameElements(SortBy(cmp, s), s);
  }

  lemma {:induction false} InsertSorted<T(!new)>(cmp: Comparison<T>, x: T, s: seq<T>)
    requires Consistent(cmp) && Sorted(cmp, s)
    ensures Sorted(cmp, Insert(cmp, x, s))
  {
    hide Consistent;
    if s != [] && cmp(x, s[0]) <= 0 {
      BeforeAll(cmp, x, s);
      SortedFront(cmp, x, s);
    } else if s != [] {
      InsertSorted(cmp, x, s[1..]);
      InsertMembers(cmp, x, s[1..]);
      Reverse(cmp, x, s[0]);
      forall y | y in s[1..] ensures cmp(s[0], y) <= 0 {
        var k :| 1 <= k < |s| && s[k] == y;
      }
      SortedFront(cmp, s[0], Insert(cmp, x, s[1..]));
    }
  }

  lemma Reverse<T(!new)>(cmp: Comparison<T>, x: T, y: T)
    requires Consistent(cmp)
    ensures cmp(x, y) > 0 ==> cmp(y, x) <= 0
  {
    assert Sign(cmp(x, y)) == -Sign(cmp(y, x));
  }

  lemma BeforeAll<T(!new)>(cmp: Comparison<T>, x: T, s: seq<T>)
    requires Consistent(cmp) && Sorted(cmp, s) && s != [] && cmp(x, s[0]) <= 0
    ensures forall y :: y in s ==> cmp(x, y) <= 0
  {
    forall i | 0 <= i < |s| ensures cmp(x, s[i]) <= 0 {
      if i > 0 { assert cmp(s[0], s[i]) <= 0; }
    }
  }

  lemma InsertMembers<T>(cmp: Comparison<T>, x: T, s: seq<T>)
    ensures forall y :: y in Insert(cmp, x, s) <==> y in s || y == x
  {
    InsertPermutes(cmp, x, s);
    assert forall y :: y in Insert(cmp, x, s) <==> y in multiset(Insert(cmp, x, s));
    assert forall y :: y in s <==> y in multiset(s);
  }

  lemma SortedFront<T>(cmp: Comparison<T>, x: T, s: seq<T>)
    requires Sorted(cmp, s) && forall y :: y in s ==> cmp(x, y) <= 0
    ensures Sorted(cmp, [x] + s)
  {
    assert forall i :: 0 <= i < |s| ==> s[i] in s;
  }

  lemma {:induction false} SortSorts<T(!new)>(cmp: Comparison<T>, s: seq<T>)
    requires Consistent(cmp)
    ensures Sorted(cmp, SortBy(cmp, s))
  {
    if s != [] {
      SortSorts(cmp, s[1..]);
      InsertSorted(cmp, s[0], SortBy(cmp, s[1..]));
    }
  }

  lemma SortKeepsDistinct<T>(cmp: Comparison<T>, s: seq<T>)
    requires Distinct(s)
    ensures Distinct(SortBy(cmp, s)) && Elements(SortBy(cmp, s)) == Elements(s)
  {
    SortPermutes(cmp, s);
    SameElements(SortBy(cmp, s), s);
    DistinctCardinality(s);
    CardinalityAtMostLength(SortBy(cmp, s));
  }

  lemma {:induction false} InsertIsStable<T>(cmp: Comparison<T>, keep: T -> bool, x: T, s: seq<T>)
    requires forall a, b :: keep(a) && keep(b) ==> cmp(a, b) <= 0
    ensures Filter(keep, Insert(cmp, x, s)) == (if keep(x) then [x] else []) + Filter(keep, s)
  {
    if s != [] && cmp(x, s[0]) > 0 {
      InsertIsStable(cmp, keep, x, s[1..]);
      assert Insert(cmp, x, s)[1..] == Insert(cmp, x, s[1..]);
    } else {
      assert ([x] + s)[1..] == s;
    }
  }

  /** What compares as equal keeps its order. */
  lemma {:induction false} SortIsStable<T>(cmp: Comparison<T>, keep: T -> bool, s: seq<T>)
    requires forall a, b :: keep(a) && keep(b) ==> cmp(a, b) <= 0
    ensures Filter(keep, SortBy(cmp, s)) == Filter(keep, s)
  {
    if s != [] {
      SortIsStable(cmp, keep, s[1..]);
      InsertIsStable(cmp, keep, s[0], SortBy(cmp, s[1..]));
    }
  }

  /** The order of JavaScript `<` on strings: character by character, a proper prefix first. */
  function CompareText(a: string, b: string): int {
    if a == "" && b == "" then 0
    else if a == "" then -1
    else if b == "" then 1
    else if a[0] < b[0] then -1
    else if a[0] > b[0] then 1
    else CompareText(a[1..], b[1..])
  }

  lemma {:induction false} CompareTextFacts(a: string, b: string)
    ensures -1 <= CompareText(a, b) <= 1
    ensures CompareText(a, b) == 0 <==> a == b
    ensures CompareText(a, b) == -CompareText(b, a)
  {
    if a != "" && b != "" && a[0] == b[0] {
      CompareTextFacts(a[1..], b[1..]);
      assert a == [a[0]] + a[1..] && b == [b[0]] + b[1..];
    }
  }

  lemma {:induction false} CompareTextTransitive(a: string, b: string, c: string)
    requires CompareText(a, b) <= 0 && CompareText(b, c) <= 0
    ensures CompareText(a, c) <= 0
  {
    if a != "" && b != "" && c != "" && a[0] == b[0] == c[0] {
      CompareTextTransitive(a[1..], b[1..], c[1..]);
    }
  }

  lemma CompareTextConsistent()
    ensures Consistent(CompareText)
  {
    forall x, y ensures Sign(CompareText(x, y)) == -Sign(CompareText(y, x)) {
      CompareTextFacts(x, y);
    }
    forall x, y, z | CompareText(x, y) <= 0 && CompareText(y, z) <= 0 ensures CompareText(x, z) <= 0 {
      CompareTextTransitive(x, y, z);
    }
  }
}
