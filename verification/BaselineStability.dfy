/** Whether a baseline file depends on the order in which the pages are scanned: packages/cli/src/baseline/baseline-generator.ts,
    which is to serialize consistently over time. */
module BaselineStability {
  import opened Common
  import opened Ordering
  import opened HashSets
  import opened AxeResults
  import opened Findings
  import opened BaselineGeneration

  // ----- one sorted list -----

  ghost predicate TellsApart<T(!new)>(cmp: Comparison<T>, s: seq<T>) {
    forall x, y :: x in s && y in s && cmp(x, y) <= 0 && cmp(y, x) <= 0 ==> x == y
  }

  lemma Tail<T(!new)>(cmp: Comparison<T>, s: seq<T>)
    requires s != [] && Sorted(cmp, s) && TellsApart(cmp, s)
    ensures Sorted(cmp, s[1..]) && TellsApart(cmp, s[1..]) && multiset(s[1..]) == multiset(s) - multiset{s[0]}
  {
    assert s == [s[0]] + s[1..];
  }

  /** Where the order tells members apart, there is one way to sort. */
  lemma {:induction false} SortedOnce<T(!new)>(cmp: Comparison<T>, a: seq<T>, b: seq<T>)
    requires Sorted(cmp, a) && Sorted(cmp, b) && multiset(a) == multiset(b)
    requires TellsApart(cmp, a) && TellsApart(cmp, b)
    ensures a == b
  {
    hide Sorted, TellsApart;
    SameElements(a, b);
    if a != [] {
      SameHead(cmp, a, b);
      Tail(cmp, a);
      Tail(cmp, b);
      SortedOnce(cmp, a[1..], b[1..]);
    }
  }

  lemma SameHead<T(!new)>(cmp: Comparison<T>, a: seq<T>, b: seq<T>)
    requires Sorted(cmp, a) && Sorted(cmp, b) && a != [] && b != [] && a[0] in b && b[0] in a
    requires TellsApart(cmp, a)
    ensures a[0] == b[0]
  {
    var i :| 0 <= i < |a| && a[i] == b[0];
    var j :| 0 <= j < |b| && b[j] == a[0];
  }

  lemma SortedTextsAlike(a: seq<string>, b: seq<string>)
    requires multiset(a) == multiset(b)
    ensures SortBy(CompareText, a) == SortBy(CompareText, b)
  {
    CompareTextConsistent();
    SortPermutes(CompareText, a);
    SortPermutes(CompareText, b);
    SortSorts(CompareText, a);
    SortSorts(CompareText, b);
    forall x, y | CompareText(x, y) <= 0 && CompareText(y, x) <= 0 ensures x == y {
      CompareTextFacts(x, y);
    }
    SortedOnce(CompareText, SortBy(CompareText, a), SortBy(CompareText, b));
  }

  lemma {:induction false} SortedRowsAlike(a: seq<BaselineResult>, b: seq<BaselineResult>)
    requires WellFormed(a) && WellFormed(b) && forall row :: row in a <==> row in b
    ensures a == b
  {
    if a != [] { assert a[0] in b; }
    if b != [] { assert b[0] in a; }
    if a != [] && b != [] {
      hide CompareRows;
      Smallest(a);
      Smallest(b);
      GeneratorOrderFacts(a[0].key, b[0].key);
      assert CompareRows(a[0], b[0]) == -CompareRows(b[0], a[0]) by { Antisymmetric(a[0], b[0]); }
      assert a[0] == b[0];
      SortedRowsAlike(a[1..], b[1..]);
    }
  }

  lemma Antisymmetric(a: BaselineResult, b: BaselineResult)
    ensures CompareRows(a, b) == -CompareRows(b, a)
  {
    GeneratorOrderFacts(a.key, b.key);
  }

  lemma Smallest(rows: seq<BaselineResult>)
    requires WellFormed(rows) && rows != []
    ensures WellFormed(rows[1..])
    ensures forall row :: row in rows <==> row == rows[0] || row in rows[1..]
    ensures forall row :: row in rows[1..] ==> row != rows[0] && CompareRows(rows[0], row) < 0
  {
    hide GeneratorOrder;
    GeneratorOrderFacts(rows[0].key, rows[0].key);
    assert rows == [rows[0]] + rows[1..];
  }

  lemma SameMembersSameCounts<T(!new)>(a: seq<T>, b: seq<T>)
    requires Distinct(a) && Distinct(b) && Elements(a) == Elements(b)
    ensures multiset(a) == multiset(b)
  {
    DistinctCounts(a);
    DistinctCounts(b);
    forall x ensures multiset(a)[x] == multiset(b)[x] {
      assert x in Elements(a) <==> x in Elements(b);
      assert x in a <==> x in multiset(a);
      assert x in b <==> x in multiset(b);
    }
  }

  // ----- the row of an entry -----

  /** The key of the row made of a node. */
  function RowKey(rule: string, node: Option<JunctionNode>): Option<ViolationKey> {
    if node.None? || FindSelector(node.value.selectors, Css).None? then None
    else
      var selectors := node.value.selectors;
      Some(ViolationKey(rule, FindSelector(selectors, Css).value, FindSelector(selectors, Xpath), node.value.html))
  }

  lemma SameRow(a: AxeResult, b: AxeResult, normalizer: Option<UrlNormalizer>)
    requires RowKey(a.id, a.junctionNode).Some? && RowKey(a.id, a.junctionNode) == RowKey(b.id, b.junctionNode)
    requires Distinct(a.urls) && Distinct(b.urls) && Elements(a.urls) == Elements(b.urls)
    ensures CombinedViolationToBaselineResult(a, normalizer) == CombinedViolationToBaselineResult(b, normalizer)
  {
    hide SortBy, CompareText, Distinct;
    SameMembersSameCounts(a.urls, b.urls);
    if normalizer.Some? { MapPermutes(normalizer.value, a.urls, b.urls); }
    SortedTextsAlike(NormalizedUrls(a.urls, normalizer), NormalizedUrls(b.urls, normalizer));
  }

  lemma RowHasKey(entry: AxeResult, normalizer: Option<UrlNormalizer>)
    ensures var row := CombinedViolationToBaselineResult(entry, normalizer);
      row.Success? ==> RowKey(entry.id, entry.junctionNode) == Some(row.value.key)
  {}

  // ----- which sighting comes first -----

  function FirstOf(sightings: seq<Sighting>, key: string): Option<Sighting> {
    if sightings == [] then None
    else
      var before := FirstOf(sightings[..|sightings| - 1], key);
      if before.Some? then before
      else if sightings[|sightings| - 1].fingerprint == key then Some(sightings[|sightings| - 1])
      else None
  }

  lemma {:induction false} FirstOfAppend(a: seq<Sighting>, b: seq<Sighting>, key: string)
    ensures FirstOf(a + b, key) == if FirstOf(a, key).Some? then FirstOf(a, key) else FirstOf(b, key)
  {
    if b == [] {
      assert a + b == a;
    } else {
      FirstOfAppend(a, b[..|b| - 1], key);
      assert (a + b)[..|a + b| - 1] == a + b[..|b| - 1];
    }
  }

  lemma {:induction false} FirstOfIs(sightings: seq<Sighting>, i: nat, key: string)
    requires i < |sightings| && IsFirst(sightings, i, key)
    ensures FirstOf(sightings, key) == Some(sightings[i])
  {
    var init := sightings[..|sightings| - 1];
    if i < |init| {
      FirstOfIs(init, i, key);
    } else {
      NotSeen(init, key);
    }
  }

  lemma {:induction false} NotSeen(sightings: seq<Sighting>, key: string)
    requires forall s :: s in sightings ==> s.fingerprint != key
    ensures FirstOf(sightings, key).None?
  {
    if sightings != [] { NotSeen(sightings[..|sightings| - 1], key); }
  }

  /** The first sighting of a fingerprint on a page. */
  function FirstOn(hash: Hash, p: PageResults, key: string): Option<Sighting> {
    FirstOf(Sightings(hash, Listed(p.violations)), key)
  }

  lemma {:induction false} FirstOfHistory(hash: Hash, pages: seq<PageResults>, key: string)
    ensures var first := FirstOf(AllSightings(ViolationVisits(hash, pages)), key);
      && (first.Some? ==> exists p :: p in pages && FirstOn(hash, p, key) == first)
      && (pages != [] && FirstOn(hash, pages[0], key).Some? ==> first == FirstOn(hash, pages[0], key))
  {
    if pages != [] {
      hide FirstOn, FirstOf, AllSightings, ViolationVisits;
      var init, last := pages[..|pages| - 1], pages[|pages| - 1];
      assert pages == init + [last];
      FirstOfHistory(hash, init, key);
      OneMorePage(hash, init, last, key);
    } else {
      assert AllSightings(ViolationVisits(hash, pages)) == [];
    }
  }

  lemma OneMorePage(hash: Hash, init: seq<PageResults>, last: PageResults, key: string)
    ensures FirstOf(AllSightings(ViolationVisits(hash, init + [last])), key)
         == var first := FirstOf(AllSightings(ViolationVisits(hash, init)), key);
            if first.Some? then first else FirstOn(hash, last, key)
    ensures FirstOf(AllSightings(ViolationVisits(hash, [])), key) == None
  {
    hide FirstOf, Sightings;
    var visits := ViolationVisits(hash, init + [last]);
    assert visits[..|visits| - 1] == ViolationVisits(hash, init);
    FirstOfAppend(AllSightings(ViolationVisits(hash, init)), Sightings(hash, Listed(last.violations)), key);
    NotSeen([], key);
  }

  // ----- the order of the pages -----

  /** The key a page first gives to the finding of a fingerprint. */
  function KeyOn(hash: Hash, p: PageResults, fingerprint: string): Option<ViolationKey> {
    var first := FirstOn(hash, p, fingerprint);
    if first.Some? then RowKey(first.value.id, first.value.junctionNode) else None
  }

  /** Wherever a fingerprint is seen, the page first gives it the same key. */
  ghost predicate SameKeysFirst(hash: Hash, pages: seq<PageResults>) {
    forall p, q, f :: p in pages && q in pages && KeyOn(hash, p, f).Some? && KeyOn(hash, q, f).Some? ==>
      KeyOn(hash, p, f) == KeyOn(hash, q, f)
  }

  ghost function TableOf(hash: Hash, pages: seq<PageResults>): (t: Table<AxeResult>)
    ensures t.Valid()
  {
    AccumulateRefines(ViolationVisits(hash, pages), "");
    Accumulate(ViolationVisits(hash, pages))
  }

  /** The baseline file generated after scanning some pages. */
  ghost function BaselineAfter(hash: Hash, pages: seq<PageResults>, normalizer: Option<UrlNormalizer>)
    : Result<BaselineFileContent, string>
  {
    Baseline(TableOf(hash, pages).Values(), normalizer)
  }

  ghost predicate EntryHasKey(t: Table<AxeResult>, fingerprint: string, key: ViolationKey) {
    fingerprint in t.dict && RowKey(t.dict[fingerprint].id, t.dict[fingerprint].junctionNode) == Some(key)
  }

  /** An entry keeps the key of the first page that reports it. */
  lemma EntryHasFirstKey(hash: Hash, pages: seq<PageResults>, f: string)
    requires f in TableOf(hash, pages).dict
    ensures exists p, key :: p in pages && KeyOn(hash, p, f) == Some(key) && EntryHasKey(TableOf(hash, pages), f, key)
    ensures KeyOn(hash, pages[0], f).Some? ==> EntryHasKey(TableOf(hash, pages), f, KeyOn(hash, pages[0], f).value)
  {
    hide Accumulate, ViolationVisits, FirstOf;
    var visits, t := ViolationVisits(hash, pages), TableOf(hash, pages);
    FirstSightingIsKept(visits);
    var seen := AllSightings(visits);
    var i :| 0 <= i < |seen| && IsFirst(seen, i, f) && t.dict[f] == EntryFor(seen[i], t.dict[f].urls);
    FirstOfIs(seen, i, f);
    FirstOfHistory(hash, pages, f);
    AccumulatedKeyed(hash, pages);
    var p :| p in pages && FirstOn(hash, p, f) == Some(seen[i]);
    var key := RowKey(seen[i].id, seen[i].junctionNode);
    assert KeyOn(hash, p, f) == key && EntryHasKey(t, f, key.value);
  }

  lemma BaselineSucceeds(hash: Hash, pages: seq<PageResults>, normalizer: Option<UrlNormalizer>)
    ensures BaselineAfter(hash, pages, normalizer).Success?
    ensures BaselineAfter(hash, pages, normalizer).value.fileFormatVersion == "1"
    ensures var rows := BaselineAfter(hash, pages, normalizer).value.results;
      WellFormed(rows) && OneRowPerEntry(hash, TableOf(hash, pages), normalizer, rows)
  {
    hide Accumulate, HashesTo, CombinedViolationToBaselineResult, WellFormed, OneRowPerEntry, RowsFound, SortBy;
    var t := TableOf(hash, pages);
    AccumulatedKeyed(hash, pages);
    KeyedRowsFound(hash, t);
    ToRowsPointwise(t.Values(), normalizer);
    BaselineRows(hash, t, normalizer);
  }

  /** Both tables have these entries, and make the same row of each. */
  ghost predicate SameRows(t: Table<AxeResult>, t': Table<AxeResult>, normalizer: Option<UrlNormalizer>) {
    && t.dict.Keys == t'.dict.Keys
    && forall f :: f in t.dict ==>
      CombinedViolationToBaselineResult(t.dict[f], normalizer) == CombinedViolationToBaselineResult(t'.dict[f], normalizer)
  }

  lemma MembersAlike(
    hash: Hash, t: Table<AxeResult>, t': Table<AxeResult>, normalizer: Option<UrlNormalizer>,
    rows: seq<BaselineResult>, rows': seq<BaselineResult>)
    requires OneRowPerEntry(hash, t, normalizer, rows) && OneRowPerEntry(hash, t', normalizer, rows')
    requires SameRows(t, t', normalizer)
    ensures forall row :: row in rows ==> row in rows'
  {
    hide CombinedViolationToBaselineResult, RowFingerprint;
    forall row | row in rows ensures row in rows' {
      var f := RowFingerprint(hash, row);
      var row' :| row' in rows' && RowFingerprint(hash, row') == f;
    }
  }

  lemma TablesAlike(hash: Hash, pages: seq<PageResults>, permuted: seq<PageResults>, normalizer: Option<UrlNormalizer>)
    requires SameKeysFirst(hash, pages) && multiset(permuted) == multiset(pages)
    ensures SameRows(TableOf(hash, pages), TableOf(hash, permuted), normalizer)
  {
    hide Accumulate, CombinedViolationToBaselineResult, KeyOn, RowKey;
    var t, t' := TableOf(hash, pages), TableOf(hash, permuted);
    var visits, visits' := ViolationVisits(hash, pages), ViolationVisits(hash, permuted);
    MapPermutes((p: PageResults) => Visit(p.url, Sightings(hash, Listed(p.violations))), pages, permuted);
    PageOrderIsIrrelevant(visits, visits', "");
    SameElements(pages, permuted);
    forall f | f in t.dict
      ensures CombinedViolationToBaselineResult(t.dict[f], normalizer)
           == CombinedViolationToBaselineResult(t'.dict[f], normalizer)
    {
      PageOrderIsIrrelevant(visits, visits', f);
      AccumulatedUrls(visits, f);
      AccumulatedUrls(visits', f);
      KeysAlike(hash, pages, permuted, f);
      SameRow(t.dict[f], t'.dict[f], normalizer);
    }
  }

  lemma KeysAlike(hash: Hash, pages: seq<PageResults>, permuted: seq<PageResults>, f: string)
    requires SameKeysFirst(hash, pages) && forall p :: p in pages <==> p in permuted
    requires f in TableOf(hash, pages).dict && f in TableOf(hash, permuted).dict
    ensures var a, b := TableOf(hash, pages).dict[f], TableOf(hash, permuted).dict[f];
      RowKey(a.id, a.junctionNode).Some? && RowKey(a.id, a.junctionNode) == RowKey(b.id, b.junctionNode)
  {
    hide TableOf, KeyOn, RowKey;
    EntryHasFirstKey(hash, pages, f);
    EntryHasFirstKey(hash, permuted, f);
    var p, x :| p in pages && KeyOn(hash, p, f) == Some(x) && EntryHasKey(TableOf(hash, pages), f, x);
    var q, y :| q in permuted && KeyOn(hash, q, f) == Some(y) && EntryHasKey(TableOf(hash, permuted), f, y);
    assert KeyOn(hash, p, f) == KeyOn(hash, q, f);
  }

  lemma OrderIsIrrelevant(hash: Hash, pages: seq<PageResults>, permuted: seq<PageResults>, normalizer: Option<UrlNormalizer>)
    requires SameKeysFirst(hash, pages) && multiset(permuted) == multiset(pages)
    ensures BaselineAfter(hash, permuted, normalizer) == BaselineAfter(hash, pages, normalizer)
  {
    hide TableOf, BaselineAfter, WellFormed, OneRowPerEntry, CombinedViolationToBaselineResult, SameKeysFirst;
    var t, t' := TableOf(hash, pages), TableOf(hash, permuted);
    TablesAlike(hash, pages, permuted, normalizer);
    BaselineSucceeds(hash, pages, normalizer);
    BaselineSucceeds(hash, permuted, normalizer);
    var content, content' := BaselineAfter(hash, pages, normalizer).value, BaselineAfter(hash, permuted, normalizer).value;
    MembersAlike(hash, t, t', normalizer, content.results, content'.results);
    MembersAlike(hash, t', t, normalizer, content'.results, content.results);
    SortedRowsAlike(content.results, content'.results);
  }

  lemma {:induction false} FirstOfIn(sightings: seq<Sighting>, f: string)
    requires FirstOf(sightings, f).Some?
    ensures FirstOf(sightings, f).value in sightings && FirstOf(sightings, f).value.fingerprint == f
  {
    var init := sightings[..|sightings| - 1];
    if FirstOf(init, f).Some? { FirstOfIn(init, f); }
  }

  /** The row of a fingerprint has the key that the first page gives it, if that reports it. */
  lemma FirstPageDecides(hash: Hash, pages: seq<PageResults>, f: string, normalizer: Option<UrlNormalizer>)
    returns (row: BaselineResult)
    requires pages != [] && KeyOn(hash, pages[0], f).Some?
    ensures BaselineAfter(hash, pages, normalizer).Success? && row in BaselineAfter(hash, pages, normalizer).value.results
    ensures RowFingerprint(hash, row) == f && KeyOn(hash, pages[0], f) == Some(row.key)
    ensures forall other :: other in BaselineAfter(hash, pages, normalizer).value.results ==>
      RowFingerprint(hash, other) == f ==> other == row
  {
    hide BaselineAfter, WellFormed, Accumulate, FirstOf, ViolationVisits, RowFingerprint;
    BaselineSucceeds(hash, pages, normalizer);
    var t, rows := TableOf(hash, pages), BaselineAfter(hash, pages, normalizer).value.results;
    FirstOfHistory(hash, pages, f);
    var seen := AllSightings(ViolationVisits(hash, pages));
    FirstOfIn(seen, f);
    FirstSightingIsKept(ViolationVisits(hash, pages));
    assert f in t.dict;
    EntryHasFirstKey(hash, pages, f);
    RowHasKey(t.dict[f], normalizer);
    row :| row in rows && RowFingerprint(hash, row) == f;
    assert RowOf(hash, t, normalizer, row);
  }

  lemma PutFirst(pages: seq<PageResults>, p: PageResults) returns (permuted: seq<PageResults>)
    requires p in pages
    ensures multiset(permuted) == multiset(pages) && permuted != [] && permuted[0] == p
  {
    var i :| 0 <= i < |pages| && pages[i] == p;
    assert pages == pages[..i] + [p] + pages[i + 1..];
    permuted := [p] + pages[..i] + pages[i + 1..];
  }

  lemma OrderMatters(hash: Hash, pages: seq<PageResults>, normalizer: Option<UrlNormalizer>)
    returns (one: seq<PageResults>, other: seq<PageResults>)
    requires !SameKeysFirst(hash, pages)
    ensures multiset(one) == multiset(pages) == multiset(other)
    ensures BaselineAfter(hash, one, normalizer) != BaselineAfter(hash, other, normalizer)
  {
    hide BaselineAfter, RowFingerprint, KeyOn;
    var p, q, f :| p in pages && q in pages && KeyOn(hash, p, f).Some? && KeyOn(hash, q, f).Some?
                   && KeyOn(hash, p, f) != KeyOn(hash, q, f);
    one := PutFirst(pages, p);
    other := PutFirst(pages, q);
    var row := FirstPageDecides(hash, one, f, normalizer);
    var row' := FirstPageDecides(hash, other, f, normalizer);
  }

  /** The pages give one baseline file in whatever order they are scanned if and only if no two of them first give different keys
      to one fingerprint. */
  lemma BaselineIgnoresPageOrder(hash: Hash, pages: seq<PageResults>, normalizer: Option<UrlNormalizer>)
    ensures SameKeysFirst(hash, pages) <==>
      forall permuted :: multiset(permuted) == multiset(pages) ==>
        BaselineAfter(hash, permuted, normalizer) == BaselineAfter(hash, pages, normalizer)
  {
    hide BaselineAfter, SameKeysFirst;
    if SameKeysFirst(hash, pages) {
      forall permuted | multiset(permuted) == multiset(pages)
        ensures BaselineAfter(hash, permuted, normalizer) == BaselineAfter(hash, pages, normalizer)
      {
        OrderIsIrrelevant(hash, pages, permuted, normalizer);
      }
    } else {
      var one, other := OrderMatters(hash, pages, normalizer);
    }
  }

  // ----- when keys are the same -----

  /** That is so when the hash tells the findings of the pages apart and no xpath is empty: an empty xpath gives the fingerprint
      of none, but another key. */
  lemma SeparatedKeysAreSame(hash: Hash, pages: seq<PageResults>)
    requires Separates(hash, pages)
    requires forall p, rule, node :: p in pages && Reported(Listed(p.violations), rule, node) ==> XpathOf(node) != Some("")
    ensures SameKeysFirst(hash, pages)
  {
    hide KeyOn, Reported, FoundOn, KeyOf;
    forall p, q, f | p in pages && q in pages && KeyOn(hash, p, f).Some? && KeyOn(hash, q, f).Some?
      ensures KeyOn(hash, p, f) == KeyOn(hash, q, f)
    {
      var g, x := KeyReported(hash, pages, p, f);
      var h, y := KeyReported(hash, pages, q, f);
      assert Found(pages, g) && Found(pages, h);
    }
  }

  lemma KeyReported(hash: Hash, pages: seq<PageResults>, p: PageResults, f: string) returns (g: Finding, node: AxeNode)
    requires p in pages && KeyOn(hash, p, f).Some?
    requires forall p, rule, node :: p in pages && Reported(Listed(p.violations), rule, node) ==> XpathOf(node) != Some("")
    ensures FoundOn(pages, g, p.url) && KeyOf(hash, g) == f
    ensures KeyOn(hash, p, f) == Some(ViolationKey(g.rule, g.css, g.xpath, g.html))
  {
    hide Sightings, NodeSighting, Reported, FirstOf, KeyOf;
    var sightings := Sightings(hash, Listed(p.violations));
    FirstOfIn(sightings, f);
    SightingsMembers(hash, Listed(p.violations));
    var s := FirstOf(sightings, f).value;
    var rule;
    rule, node :| Reported(Listed(p.violations), rule, node) && s == NodeSighting(hash, rule, node);
    g := FindingOf(rule, node);
    NodeKey(hash, rule, node);
    NodeSays(hash, rule, node);
  }
}
