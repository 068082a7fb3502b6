/** Small vocabulary shared by every component: optional values, results, and facts about sequences. */
module Common {
  datatype Option<+T> = None | Some(value: T)

  /** What an access to a property of `undefined` throws. */
  const TYPE_ERROR := "Cannot read properties of undefined"

  datatype Result<+T, +E> = Success(value: T) | Failure(error: E)

  function Min(a: int, b: int): int { if a < b then a else b }

  function Max(a: int, b: int): int { if a > b then a else b }

  ghost predicate Distinct<T>(s: seq<T>) {
    forall i, j :: 0 <= i < j < |s| ==> s[i] != s[j]
  }

  function Elements<T>(s: seq<T>): set<T> { set x | x in s }

  /** The JavaScript idiom `if (!list.some((u) => u === x)) list.push(x)`. */
  function PushNew<T(==)>(s: seq<T>, x: T): seq<T> { if x in s then s else s + [x] }

  /** The distinct elements of a sequence, in first-seen order. */
  function FirstSeen<T(==)>(s: seq<T>): seq<T> {
    if s == [] then [] else PushNew(FirstSeen(s[..|s| - 1]), s[|s| - 1])
  }

  lemma ElementsAppend<T>(s: seq<T>, x: T)
    ensures Elements(s + [x]) == Elements(s) + {x}
  {}

  lemma FirstSeenSnoc<T>(s: seq<T>, x: T)
    ensures FirstSeen(s + [x]) == PushNew(FirstSeen(s), x)
  {
    assert (s + [x])[..|s|] == s;
  }

  lemma {:induction false} FirstSeenFacts<T>(s: seq<T>)
    ensures Distinct(FirstSeen(s))
    ensures Elements(FirstSeen(s)) == Elements(s)
  {
    if s != [] {
      var init := s[..|s| - 1];
      FirstSeenFacts(init);
      ElementsAppend(init, s[|s| - 1]);
      ElementsAppend(FirstSeen(init), s[|s| - 1]);
      assert s == init + [s[|s| - 1]];
      assert s[|s| - 1] in FirstSeen(init) ==> s[|s| - 1] in Elements(FirstSeen(init));
    }
  }

  lemma {:induction false} DistinctCardinality<T>(s: seq<T>)
    requires Distinct(s)
    ensures |Elements(s)| == |s|
  {
    if s == [] {
      assert Elements(s) == {};
    } else {
      var init := s[..|s| - 1];
      DistinctCardinality(init);
      assert s == init + [s[|s| - 1]];
      ElementsAppend(init, s[|s| - 1]);
      assert s[|s| - 1] !in Elements(init);
    }
  }

  lemma {:induction false} CardinalityAtMostLength<T>(s: seq<T>)
    ensures |Elements(s)| <= |s|
    ensures |Elements(s)| == |s| ==> Distinct(s)
  {
    if s == [] {
      assert Elements(s) == {};
    } else {
      var init := s[..|s| - 1];
      CardinalityAtMostLength(init);
      assert s == init + [s[|s| - 1]];
      ElementsAppend(init, s[|s| - 1]);
    }
  }

  lemma {:induction false} DistinctCounts<T>(s: seq<T>)
    ensures Distinct(s) <==> forall x :: multiset(s)[x] <= 1
  {
    if s != [] {
      var init, last := s[..|s| - 1], s[|s| - 1];
      DistinctCounts(init);
      assert s == init + [last];
      assert multiset(s) == multiset(init) + multiset{last};
      if Distinct(s) {
        assert Distinct(init) && last !in multiset(init);
      }
      if forall x :: multiset(s)[x] <= 1 {
        assert forall x :: multiset(init)[x] <= multiset(s)[x];
        assert multiset(init)[last] == 0;
        assert last !in init;
      }
    }
  }

  function Filter<T>(keep: T -> bool, s: seq<T>): seq<T> {
    if s == [] then []
    else if keep(s[0]) then [s[0]] + Filter(keep, s[1..])
    else Filter(keep, s[1..])
  }

  lemma {:induction false} FilterMembers<T>(keep: T -> bool, s: seq<T>)
    ensures forall x :: x in Filter(keep, s) <==> x in s && keep(x)
    ensures |Filter(keep, s)| <= |s|
  {
    if s != [] {
      FilterMembers(keep, s[1..]);
      assert s == [s[0]] + s[1..];
    }
  }

  lemma {:induction false} FilterAppend<T>(keep: T -> bool, a: seq<T>, b: seq<T>)
    ensures Filter(keep, a + b) == Filter(keep, a) + Filter(keep, b)
  {
    if a == [] {
      assert a + b == b;
    } else {
      FilterAppend(keep, a[1..], b);
      assert (a + b)[1..] == a[1..] + b && (a + b)[0] == a[0];
      assert [a[0]] + (Filter(keep, a[1..]) + Filter(keep, b)) == [a[0]] + Filter(keep, a[1..]) + Filter(keep, b);
    }
  }

  lemma {:induction false} FilterKeepsDistinct<T>(keep: T -> bool, s: seq<T>)
    requires Distinct(s)
    ensures Distinct(Filter(keep, s))
  {
    if s != [] {
      FilterKeepsDistinct(keep, s[1..]);
      FilterMembers(keep, s[1..]);
    }
  }

  /** How often each element is kept. */
  lemma {:induction false} FilterCounts<T>(keep: T -> bool, s: seq<T>, x: T)
    ensures multiset(Filter(keep, s))[x] == if keep(x) then multiset(s)[x] else 0
  {
    if s != [] {
      FilterCounts(keep, s[1..], x);
      assert s == [s[0]] + s[1..];
    }
  }

  /** Whether `part` is what is left of `whole` after leaving out some elements. */
  predicate Subsequence<T(==)>(part: seq<T>, whole: seq<T>) {
    if part == [] then true
    else if whole == [] then false
    else if part[0] == whole[0] then Subsequence(part[1..], whole[1..])
    else Subsequence(part, whole[1..])
  }

  lemma {:induction false} FilterIsSubsequence<T>(keep: T -> bool, s: seq<T>)
    ensures Subsequence(Filter(keep, s), s)
  {
    if s != [] {
      FilterIsSubsequence(keep, s[1..]);
      FilterMembers(keep, s[1..]);
    }
  }

  function Map<T, U>(f: T -> U, s: seq<T>): (r: seq<U>)
    ensures |r| == |s| && forall i :: 0 <= i < |s| ==> r[i] == f(s[i])
  {
    seq(|s|, i requires 0 <= i < |s| => f(s[i]))
  }

  lemma MapAppend<T, U>(f: T -> U, a: seq<T>, b: seq<T>)
    ensures Map(f, a + b) == Map(f, a) + Map(f, b)
  {}

  /** Rearranging before mapping rearranges what is mapped to. */
  lemma {:induction false} MapPermutes<T, U>(f: T -> U, a: seq<T>, b: seq<T>)
    requires multiset(a) == multiset(b)
    ensures multiset(Map(f, a)) == multiset(Map(f, b))
  {
    hide Map;
    assert |multiset(a)| == |multiset(b)|;
    if a != [] {
      var init, last := a[..|a| - 1], a[|a| - 1];
      assert a == init + [last];
      var before, after := SplitAt(b, last);
      assert multiset(before + after) == multiset(init);
      MapPermutes(f, init, before + after);
      MapMiddle(f, before, last, after);
      MapMiddle(f, init, last, []);
      assert init + [last] + [] == a && init + [] == init;
    }
  }

  lemma SplitAt<T>(s: seq<T>, x: T) returns (before: seq<T>, after: seq<T>)
    requires x in multiset(s)
    ensures s == before + [x] + after && multiset(before + after) == multiset(s) - multiset{x}
  {
    var k :| 0 <= k < |s| && s[k] == x;
    before, after := s[..k], s[k + 1..];
    assert s == before + [x] + after;
  }

  lemma MapMiddle<T, U>(f: T -> U, before: seq<T>, x: T, after: seq<T>)
    ensures multiset(Map(f, before + [x] + after)) == multiset(Map(f, before + after)) + multiset{f(x)}
  {
    assert Map(f, before + [x] + after) == Map(f, before) + [f(x)] + Map(f, after);
    assert Map(f, before + after) == Map(f, before) + Map(f, after);
  }

  /** JavaScript `parts.join(separator)`. */
  function Join(parts: seq<string>, separator: char): string {
    if |parts| == 0 then ""
    else if |parts| == 1 then parts[0]
    else parts[0] + [separator] + Join(parts[1..], separator)
  }

  /** JavaScript `value.split(separator)` for a one-character separator. */
  function Split(value: string, separator: char): (r: seq<string>)
    ensures |r| >= 1
  {
    if value == "" then [""]
    else
      var rest := Split(value[1..], separator);
      if value[0] == separator then [""] + rest
      else [[value[0]] + rest[0]] + rest[1..]
  }

  lemma {:induction false} SplitPrefix(head: string, tail: string, separator: char)
    requires separator !in head
    ensures Split(head + [separator] + tail, separator) == [head] + Split(tail, separator)
  {
    var value := head + [separator] + tail;
    if head == "" {
      assert value[1..] == tail;
    } else {
      assert value[1..] == head[1..] + [separator] + tail && value[0] == head[0];
      assert head == [head[0]] + head[1..];
      SplitPrefix(head[1..], tail, separator);
    }
  }

  lemma {:induction false} SplitSingle(value: string, separator: char)
    requires separator !in value
    ensures Split(value, separator) == [value]
  {
    if value != "" {
      SplitSingle(value[1..], separator);
      assert value == [value[0]] + value[1..];
    }
  }

  lemma {:induction false} SplitPartsClean(value: string, separator: char)
    ensures forall p :: p in Split(value, separator) ==> separator !in p
  {
    if value != "" { SplitPartsClean(value[1..], separator); }
  }

  /** Splitting undoes joining when no part holds the separator. */
  lemma {:induction false} SplitJoin(parts: seq<string>, separator: char)
    requires |parts| >= 1
    requires forall p :: p in parts ==> separator !in p
    ensures Split(Join(parts, separator), separator) == parts
  {
    if |parts| == 1 {
      SplitSingle(parts[0], separator);
    } else {
      SplitJoin(parts[1..], separator);
      SplitPrefix(parts[0], Join(parts[1..], separator), separator);
    }
  }

  function Flatten<T>(parts: seq<seq<T>>): seq<T> {
    if parts == [] then [] else Flatten(parts[..|parts| - 1]) + parts[|parts| - 1]
  }
}
