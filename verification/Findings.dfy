/** What is told apart in accumulated results: packages/cli/src/converter/fingerprint-generator.ts and
    axe-results-reducer.ts, with packages/crawler/src/common/hash-generator.ts. */
module Findings {
  import opened Common
  import opened HashSets
  import opened AxeResults

  /** What should tell failures apart. */
  datatype Finding = Finding(rule: string, html: string, css: string, xpath: Option<string>)

  /** An empty xpath is as good as none. */
  function OrMissing(value: Option<string>): Option<string> { if value == Some("") then None else value }

  function XpathOf(node: AxeNode): Option<string> {
    if node.xpath.Some? then Some(Join(node.xpath.value, ';')) else None
  }

  function FindingOf(rule: RuleResult, node: AxeNode): Finding {
    Finding(rule.id, node.html, Join(node.target, ';'), OrMissing(XpathOf(node)))
  }

  /** The values hashed for a finding. */
  function ValuesOf(f: Finding): seq<string> { [f.rule, f.html, f.css] + if f.xpath.Some? then [f.xpath.value] else [] }

  function KeyOf(hash: Hash, f: Finding): string { hash(ValuesOf(f)) }

  ghost predicate Injective<T(!new), U>(f: T -> U) { forall a, b :: f(a) == f(b) ==> a == b }

  lemma ValuesTellApart(f: Finding, g: Finding)
    ensures ValuesOf(f) == ValuesOf(g) <==> f == g
  {
    var a, b := ValuesOf(f), ValuesOf(g);
    if a == b {
      assert a[0] == b[0] && a[1] == b[1] && a[2] == b[2];
      assert |a| == |b| && (|a| == 4 ==> a[3] == b[3]);
    }
  }

  /** With a hash free of collisions, two reported nodes share a fingerprint if and only if rule, snippet, CSS selector and xpath
      are the same. */
  lemma FingerprintsTellApart(hash: Hash, rule: RuleResult, node: AxeNode, rule': RuleResult, node': AxeNode)
    requires Injective(hash)
    ensures NodeSighting(hash, rule, node).fingerprint == NodeSighting(hash, rule', node').fingerprint <==>
      && rule.id == rule'.id && node.html == node'.html && Join(node.target, ';') == Join(node'.target, ';')
      && OrMissing(XpathOf(node)) == OrMissing(XpathOf(node'))
  {
    ValuesTellApart(FindingOf(rule, node), FindingOf(rule', node'));
    NodeKey(hash, rule, node);
    NodeKey(hash, rule', node');
  }

  lemma NodeKey(hash: Hash, rule: RuleResult, node: AxeNode)
    ensures NodeSighting(hash, rule, node).fingerprint == KeyOf(hash, FindingOf(rule, node))
  {}

  lemma {:induction false} NodeSightingsMembers(hash: Hash, rule: RuleResult, nodes: seq<Option<AxeNode>>)
    ensures forall s :: s in NodeSightings(hash, rule, nodes)
                        <==> exists node :: Some(node) in nodes && s == NodeSighting(hash, rule, node)
  {
    if nodes != [] {
      hide NodeSighting;
      var init, last := nodes[..|nodes| - 1], nodes[|nodes| - 1];
      NodeSightingsMembers(hash, rule, init);
      assert nodes == init + [last];
    }
  }

  /** The list reports this node for this rule. */
  predicate Reported(results: seq<Option<RuleResult>>, rule: RuleResult, node: AxeNode) {
    Some(rule) in results && Some(node) in rule.nodes
  }

  lemma {:induction false} SightingsMembers(hash: Hash, results: seq<Option<RuleResult>>)
    ensures forall s :: s in Sightings(hash, results)
                        <==> exists rule, node :: Reported(results, rule, node) && s == NodeSighting(hash, rule, node)
  {
    if results != [] {
      hide NodeSighting;
      var init, last := results[..|results| - 1], results[|results| - 1];
      SightingsMembers(hash, init);
      assert results == init + [last];
      if last.Some? { NodeSightingsMembers(hash, last.value, last.value.nodes); }
      forall s ensures s in Sightings(hash, results)
                       <==> exists rule, node :: Reported(results, rule, node) && s == NodeSighting(hash, rule, node)
      {
        if rule, node :| Reported(init, rule, node) && s == NodeSighting(hash, rule, node) {
          assert Reported(results, rule, node);
        }
        if last.Some? {
          if node :| Some(node) in last.value.nodes && s == NodeSighting(hash, last.value, node) {
            assert Reported(results, last.value, node);
          }
        }
      }
    }
  }

  /** A sighting says what the node and its rule say. */
  lemma SightingsSay(hash: Hash, results: seq<Option<RuleResult>>, s: Sighting)
    requires s in Sightings(hash, results)
    ensures exists rule, node :: Reported(results, rule, node) && Says(s, rule, node)
  {
    hide Sightings, NodeSighting, Says;
    SightingsMembers(hash, results);
    var rule, node :| Reported(results, rule, node) && s == NodeSighting(hash, rule, node);
    NodeSays(hash, rule, node);
  }

  predicate Says(s: Sighting, rule: RuleResult, node: AxeNode) {
    && s.id == rule.id && s.details == rule.details && s.junctionNode.Some?
    && s.junctionNode.value.html == node.html && s.junctionNode.value.checks == node.checks
    && FindSelector(s.junctionNode.value.selectors, Css) == Some(Join(node.target, ';'))
    && FindSelector(s.junctionNode.value.selectors, Xpath) == XpathOf(node)
  }

  lemma NodeSays(hash: Hash, rule: RuleResult, node: AxeNode)
    ensures Says(NodeSighting(hash, rule, node), rule, node)
  {
    var selectors := GetSelectors(node);
    assert selectors[1..] == if node.xpath.Some? then [Selector(Join(node.xpath.value, ';'), Xpath)] else [];
    assert FindSelector(selectors, Xpath) == FindSelector(selectors[1..], Xpath);
  }

  // ----- what is found, and where -----

  /** Some page under this URL reports this failure. */
  ghost predicate FoundOn(pages: seq<PageResults>, f: Finding, url: string) {
    exists p, rule, node ::
      p in pages && p.url == url && Reported(Listed(p.violations), rule, node) && FindingOf(rule, node) == f
  }

  predicate Shows(entry: AxeResult, f: Finding) {
    && entry.id == f.rule && entry.junctionNode.Some? && entry.junctionNode.value.html == f.html
    && FindSelector(entry.junctionNode.value.selectors, Css) == Some(f.css)
    && OrMissing(FindSelector(entry.junctionNode.value.selectors, Xpath)) == f.xpath
  }

  predicate Listing(t: Table<AxeResult>, key: string, f: Finding, url: string) {
    key in t.dict && Shows(t.dict[key], f) && url in t.dict[key].urls
  }

  ghost predicate Found(pages: seq<PageResults>, f: Finding) { exists url :: FoundOn(pages, f, url) }

  lemma VisitOf(hash: Hash, pages: seq<PageResults>, p: PageResults)
    requires p in pages
    ensures Visit(p.url, Sightings(hash, Listed(p.violations))) in ViolationVisits(hash, pages)
  {
    var k :| 0 <= k < |pages| && pages[k] == p;
    assert ViolationVisits(hash, pages)[k] == Visit(p.url, Sightings(hash, Listed(p.violations)));
  }

  lemma PageMentions(hash: Hash, p: PageResults, f: Finding, rule: RuleResult, node: AxeNode)
    requires Reported(Listed(p.violations), rule, node) && FindingOf(rule, node) == f
    ensures Mentions(Visit(p.url, Sightings(hash, Listed(p.violations))), KeyOf(hash, f))
  {
    hide NodeSighting, KeyOf, FindingOf, Sightings;
    var sightings := Sightings(hash, Listed(p.violations));
    SightingsMembers(hash, Listed(p.violations));
    NodeKey(hash, rule, node);
    assert NodeSighting(hash, rule, node) in sightings;
    var k :| 0 <= k < |sightings| && sightings[k] == NodeSighting(hash, rule, node);
    assert Fingerprints(sightings)[k] == KeyOf(hash, f);
  }

  lemma {:induction false} HistorySightings(hash: Hash, pages: seq<PageResults>, s: Sighting)
    requires s in AllSightings(ViolationVisits(hash, pages))
    ensures exists p :: p in pages && s in Sightings(hash, Listed(p.violations))
  {
    hide Sightings;
    var init, last := pages[..|pages| - 1], pages[|pages| - 1];
    var visits := ViolationVisits(hash, pages);
    assert visits[..|visits| - 1] == ViolationVisits(hash, init);
    if s in AllSightings(ViolationVisits(hash, init)) {
      HistorySightings(hash, init, s);
    } else {
      assert last in pages;
    }
  }

  /** Every entry shows a finding of some page, under whose fingerprint it is stored, for any hash. */
  lemma EntryFinding(hash: Hash, pages: seq<PageResults>, key: string) returns (f: Finding)
    requires key in Accumulate(ViolationVisits(hash, pages)).dict
    ensures Found(pages, f) && KeyOf(hash, f) == key && Shows(Accumulate(ViolationVisits(hash, pages)).dict[key], f)
  {
    hide Accumulate, ViolationVisits, Sightings, NodeSighting, KeyOf, FindingOf, AllSightings, Shows;
    var visits := ViolationVisits(hash, pages);
    var t, seen := Accumulate(visits), AllSightings(visits);
    FirstSightingIsKept(visits);
    var i :| 0 <= i < |seen| && IsFirst(seen, i, key) && t.dict[key] == EntryFor(seen[i], t.dict[key].urls);
    HistorySightings(hash, pages, seen[i]);
    var p :| p in pages && seen[i] in Sightings(hash, Listed(p.violations));
    SightingsMembers(hash, Listed(p.violations));
    var rule, node :| Reported(Listed(p.violations), rule, node) && seen[i] == NodeSighting(hash, rule, node);
    f := FindingOf(rule, node);
    NodeKey(hash, rule, node);
    NodeSays(hash, rule, node);
    SaysShows(seen[i], rule, node, t.dict[key].urls);
    assert FoundOn(pages, f, p.url);
  }

  lemma SaysShows(s: Sighting, rule: RuleResult, node: AxeNode, urls: seq<string>)
    requires Says(s, rule, node)
    ensures Shows(EntryFor(s, urls), FindingOf(rule, node))
  {}

  /** The hash tells the findings of these pages apart. */
  ghost predicate Separates(hash: Hash, pages: seq<PageResults>) {
    forall f, g :: Found(pages, f) && Found(pages, g) && KeyOf(hash, f) == KeyOf(hash, g) ==> f == g
  }

  lemma FoundIsMentioned(hash: Hash, pages: seq<PageResults>, f: Finding, url: string)
    requires FoundOn(pages, f, url)
    ensures exists v :: v in ViolationVisits(hash, pages) && Mentions(v, KeyOf(hash, f)) && v.url == url
  {
    hide NodeSighting, KeyOf, FindingOf, ViolationVisits;
    var p, rule, node :|
      p in pages && p.url == url && Reported(Listed(p.violations), rule, node) && FindingOf(rule, node) == f;
    PageMentions(hash, p, f, rule, node);
    VisitOf(hash, pages, p);
  }

  lemma MentionedIsFound(hash: Hash, pages: seq<PageResults>, v: Visit, key: string) returns (f: Finding)
    requires v in ViolationVisits(hash, pages) && Mentions(v, key)
    ensures FoundOn(pages, f, v.url) && KeyOf(hash, f) == key
  {
    hide NodeSighting, KeyOf, FindingOf, Sightings;
    var visits := ViolationVisits(hash, pages);
    var k :| 0 <= k < |visits| && visits[k] == v;
    var p := pages[k];
    SightingsMembers(hash, Listed(p.violations));
    var i :| 0 <= i < |v.sightings| && Fingerprints(v.sightings)[i] == key;
    assert v.sightings[i] in v.sightings;
    var rule, node :| Reported(Listed(p.violations), rule, node) && v.sightings[i] == NodeSighting(hash, rule, node);
    NodeKey(hash, rule, node);
    f := FindingOf(rule, node);
    assert p in pages;
  }

  // ----- one entry for each finding -----

  /** A finding has an entry that lists a URL if and only if a page under that URL reports it. */
  ghost predicate ListedWhereFound(t: Table<AxeResult>, pages: seq<PageResults>) {
    forall f, url :: (exists k :: Listing(t, k, f, url)) <==> FoundOn(pages, f, url)
  }

  /** For any hash, an entry that shows a finding is stored under its fingerprint, so there is no second one. */
  lemma NoSecondEntry(hash: Hash, pages: seq<PageResults>, f: Finding, key: string)
    requires var t := Accumulate(ViolationVisits(hash, pages)); key in t.dict && Shows(t.dict[key], f)
    ensures key == KeyOf(hash, f)
  {
    hide Accumulate, ViolationVisits;
    var g := EntryFinding(hash, pages, key);
  }

  /** Over every history of scanned pages: each finding has its entry, with exactly the URLs it was found on, if and only if the
      hash tells the findings of those pages apart. */
  lemma OneEntryPerFinding(hash: Hash, pages: seq<PageResults>)
    ensures Separates(hash, pages) <==> ListedWhereFound(Accumulate(ViolationVisits(hash, pages)), pages)
  {
    hide Accumulate, ViolationVisits, KeyOf, FoundOn;
    if Separates(hash, pages) {
      forall f, url
        ensures (exists k :: Listing(Accumulate(ViolationVisits(hash, pages)), k, f, url)) <==> FoundOn(pages, f, url)
      {
        ListedIfFound(hash, pages, f, url);
      }
    }
    if ListedWhereFound(Accumulate(ViolationVisits(hash, pages)), pages) {
      forall f, g | Found(pages, f) && Found(pages, g) && KeyOf(hash, f) == KeyOf(hash, g) ensures f == g {
        OwnEntries(hash, pages, f);
        OwnEntries(hash, pages, g);
      }
    }
  }

  lemma OwnEntries(hash: Hash, pages: seq<PageResults>, f: Finding)
    requires ListedWhereFound(Accumulate(ViolationVisits(hash, pages)), pages) && Found(pages, f)
    ensures var t := Accumulate(ViolationVisits(hash, pages)); KeyOf(hash, f) in t.dict && Shows(t.dict[KeyOf(hash, f)], f)
  {
    hide Accumulate, ViolationVisits, KeyOf, FoundOn, Shows;
    var t := Accumulate(ViolationVisits(hash, pages));
    var url :| FoundOn(pages, f, url);
    var k :| Listing(t, k, f, url);
    NoSecondEntry(hash, pages, f, k);
  }

  lemma ListedIfFound(hash: Hash, pages: seq<PageResults>, f: Finding, url: string)
    requires Separates(hash, pages)
    ensures (exists k :: Listing(Accumulate(ViolationVisits(hash, pages)), k, f, url)) <==> FoundOn(pages, f, url)
  {
    hide Accumulate, ViolationVisits, KeyOf, FoundOn, Mentions, Separates;
    var visits, t := ViolationVisits(hash, pages), Accumulate(ViolationVisits(hash, pages));
    if k :| Listing(t, k, f, url) {
      AccumulatedUrls(visits, k);
      var v :| v in visits && Mentions(v, k) && v.url == url;
      var g := MentionedIsFound(hash, pages, v, k);
      var h := EntryFinding(hash, pages, k);
      OneOf(hash, pages, g, h, url);
    }
    if FoundOn(pages, f, url) {
      FoundIsMentioned(hash, pages, f, url);
      AccumulatedUrls(visits, KeyOf(hash, f));
      assert url in UrlsOf(t, KeyOf(hash, f));
      var h := EntryFinding(hash, pages, KeyOf(hash, f));
      assert Found(pages, f);
      OneOf(hash, pages, f, h, url);
      assert Listing(Accumulate(ViolationVisits(hash, pages)), KeyOf(hash, f), f, url);
    }
  }

  lemma OneOf(hash: Hash, pages: seq<PageResults>, f: Finding, g: Finding, url: string)
    requires Separates(hash, pages) && FoundOn(pages, f, url) && Found(pages, g) && KeyOf(hash, f) == KeyOf(hash, g)
    ensures f == g
  {
    hide KeyOf, FoundOn;
    assert Found(pages, f);
  }

  // ----- the hash in use -----

  /** `generateBase64Hash`: a digest of the values in lower case, joined by bars. */
  function GenerateBase64Hash(digest: string -> string, lower: string -> string): Hash {
    (values: seq<string>) => digest(lower(Join(values, '|')))
  }

  function SeedOf(f: Finding): string { Join(ValuesOf(f), '|') }

  /** With a digest free of collisions, that hash tells findings apart if and only if their lower-cased texts differ. */
  lemma SeparatesExactly(digest: string -> string, lower: string -> string, pages: seq<PageResults>)
    requires Injective(digest)
    ensures Separates(GenerateBase64Hash(digest, lower), pages) <==>
      forall f, g :: Found(pages, f) && Found(pages, g) && lower(SeedOf(f)) == lower(SeedOf(g)) ==> f == g
  {
    hide Found;
    forall f, g ensures KeyOf(GenerateBase64Hash(digest, lower), f) == KeyOf(GenerateBase64Hash(digest, lower), g)
                        <==> lower(SeedOf(f)) == lower(SeedOf(g)) {
      assert KeyOf(GenerateBase64Hash(digest, lower), f) == digest(lower(SeedOf(f)));
      assert KeyOf(GenerateBase64Hash(digest, lower), g) == digest(lower(SeedOf(g)));
    }
  }

  /** Texts without bars that are in lower case already are told apart. */
  lemma PlainFindingsAreSeparated(digest: string -> string, lower: string -> string, pages: seq<PageResults>)
    requires Injective(digest)
    requires forall f :: Found(pages, f) ==> lower(SeedOf(f)) == SeedOf(f) && forall v :: v in ValuesOf(f) ==> '|' !in v
    ensures Separates(GenerateBase64Hash(digest, lower), pages)
  {
    hide Found, SeedOf, ValuesOf;
    SeparatesExactly(digest, lower, pages);
    forall f, g | Found(pages, f) && Found(pages, g) && lower(SeedOf(f)) == lower(SeedOf(g)) ensures f == g {
      SeedSplits(f);
      SeedSplits(g);
      ValuesTellApart(f, g);
    }
  }

  lemma SeedSplits(f: Finding)
    requires forall v :: v in ValuesOf(f) ==> '|' !in v
    ensures Split(SeedOf(f), '|') == ValuesOf(f)
  {
    SplitJoin(ValuesOf(f), '|');
  }

  /** Two findings in one entry, whatever the digest: the bar may be part of the snippet or of the selector. And so are two that
      differ by case alone. */
  lemma SharedEntries(digest: string -> string, lower: string -> string, html: string, HTML: string)
    ensures KeyOf(GenerateBase64Hash(digest, lower), Finding("rule", "a|b", "c", None))
         == KeyOf(GenerateBase64Hash(digest, lower), Finding("rule", "a", "b|c", None))
    ensures lower("rule" + "|" + html + "|" + "css") == lower("rule" + "|" + HTML + "|" + "css") ==>
      KeyOf(GenerateBase64Hash(digest, lower), Finding("rule", html, "css", None))
      == KeyOf(GenerateBase64Hash(digest, lower), Finding("rule", HTML, "css", None))
  {
    ThreeValues(digest, lower, "rule", "a|b", "c");
    ThreeValues(digest, lower, "rule", "a", "b|c");
    ThreeValues(digest, lower, "rule", html, "css");
    ThreeValues(digest, lower, "rule", HTML, "css");
    assert "rule" + "|" + "a|b" + "|" + "c" == "rule" + "|" + "a" + "|" + "b|c";
  }

  lemma ThreeValues(digest: string -> string, lower: string -> string, rule: string, html: string, css: string)
    ensures KeyOf(GenerateBase64Hash(digest, lower), Finding(rule, html, css, None))
         == digest(lower(rule + "|" + html + "|" + css))
  {
    var values := [rule, html, css];
    assert ValuesOf(Finding(rule, html, css, None)) == values;
    var tail, rest := values[1..], html + "|" + css;
    assert tail == [html, css] && tail[1..] == [css];
    assert Join(tail, '|') == rest;
    assert Join(values, '|') == rule + "|" + rest;
    assert rule + "|" + rest == rule + "|" + html + "|" + css;
  }
}
