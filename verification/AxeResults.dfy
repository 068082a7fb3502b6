/** Accumulation of accessibility results over many pages: packages/cli/src/converter. */
module AxeResults {
  import opened Common
  import opened HashSets

  /** `HashGenerator.generateBase64Hash`: any deterministic function. Nothing here assumes it is free of collisions. */
  type Hash = seq<string> -> string

  datatype SelectorType = Css | Xpath

  datatype Selector = Selector(selector: string, kind: SelectorType)

  datatype CheckResult = CheckResult(id: string, message: string)

  /** What a node says about fixing it; copied unread. */
  datatype NodeChecks = NodeChecks(any: seq<CheckResult>, all: seq<CheckResult>, none: seq<CheckResult>, failureSummary: string)

  /** A node as the scanner reports it; its `xpath` property may be missing. */
  datatype AxeNode = AxeNode(html: string, target: seq<string>, xpath: Option<seq<string>>, checks: NodeChecks)

  /** A rule as the scanner reports it; null nodes are skipped. `details` stands for the properties copied unread. */
  datatype RuleResult = RuleResult(id: string, details: string, nodes: seq<Option<AxeNode>>)

  type RuleResults = Option<seq<Option<RuleResult>>>

  datatype PageResults = PageResults(
    url: string, violations: RuleResults, passes: RuleResults, incomplete: RuleResults, inapplicable: RuleResults)

  datatype JunctionNode = JunctionNode(html: string, selectors: seq<Selector>, checks: NodeChecks)

  datatype BaselineStatus = NewStatus | ExistingStatus

  datatype UrlInfo = UrlInfo(url: string, baselineStatus: BaselineStatus)

  datatype AxeResult = AxeResult(
    id: string, details: string, urls: seq<string>, urlInfos: seq<UrlInfo>,
    junctionNode: Option<JunctionNode>, fingerprint: string)

  /** One sighting of a failure on a page, with the fingerprint the reducer computes for it. */
  datatype Sighting = Sighting(fingerprint: string, id: string, details: string, junctionNode: Option<JunctionNode>)

  /** All sightings of one page. */
  datatype Visit = Visit(url: string, sightings: seq<Sighting>)

  // ----- fingerprints -----

  /** An optional string the code treats as present: neither missing nor empty. */
  predicate Truthy(value: Option<string>) {
    value.Some? && value.value != ""
  }

  function GetFingerprint(hash: Hash, rule: string, snippet: string, css: string, xpath: Option<string>): string {
    hash([rule, snippet, css] + if Truthy(xpath) then [xpath.value] else [])
  }

  function GetSelectors(node: AxeNode): seq<Selector> {
    [Selector(Join(node.target, ';'), Css)]
    + if node.xpath.Some? then [Selector(Join(node.xpath.value, ';'), Xpath)] else []
  }

  /** `selectors.find((s) => s.type === kind)?.selector` */
  function FindSelector(selectors: seq<Selector>, kind: SelectorType): Option<string> {
    if selectors == [] then None
    else if selectors[0].kind == kind then Some(selectors[0].selector)
    else FindSelector(selectors[1..], kind)
  }

  function NodeSighting(hash: Hash, rule: RuleResult, node: AxeNode): Sighting {
    var css := Join(node.target, ';');
    var xpath := if node.xpath.Some? then Some(Join(node.xpath.value, ';')) else None;
    Sighting(GetFingerprint(hash, rule.id, node.html, css, xpath), rule.id, rule.details,
             Some(JunctionNode(node.html, GetSelectors(node), node.checks)))
  }

  function NodeSightings(hash: Hash, rule: RuleResult, nodes: seq<Option<AxeNode>>): seq<Sighting> {
    if nodes == [] then []
    else
      var before := NodeSightings(hash, rule, nodes[..|nodes| - 1]);
      match nodes[|nodes| - 1]
      case Some(node) => before + [NodeSighting(hash, rule, node)]
      case None => before
  }

  function Sightings(hash: Hash, results: seq<Option<RuleResult>>): seq<Sighting> {
    if results == [] then []
    else
      var before := Sightings(hash, results[..|results| - 1]);
      match results[|results| - 1]
      case Some(rule) => before + NodeSightings(hash, rule, rule.nodes)
      case None => before
  }

  function RuleSightings(hash: Hash, results: seq<Option<RuleResult>>): seq<Sighting> {
    if results == [] then []
    else
      var before := RuleSightings(hash, results[..|results| - 1]);
      match results[|results| - 1]
      case Some(rule) => before + [Sighting(hash([rule.id]), rule.id, rule.details, None)]
      case None => before
  }

  function Listed(results: RuleResults): seq<Option<RuleResult>> {
    if results.Some? then results.value else []
  }

  // ----- accumulation -----

  function Record(t: Table<AxeResult>, url: string, s: Sighting): Table<AxeResult> {
    match t.Lookup(s.fingerprint)
    case Some(entry) => if url in entry.urls then t else t.Put(s.fingerprint, entry.(urls := entry.urls + [url]))
    case None => t.Put(s.fingerprint, AxeResult(s.id, s.details, [url], [], s.junctionNode, s.fingerprint))
  }

  function RecordAll(t: Table<AxeResult>, url: string, sightings: seq<Sighting>): Table<AxeResult> {
    if sightings == [] then t
    else Record(RecordAll(t, url, sightings[..|sightings| - 1]), url, sightings[|sightings| - 1])
  }

  function Accumulate(visits: seq<Visit>): Table<AxeResult> {
    if visits == [] then Table([], map[])
    else
      var last := visits[|visits| - 1];
      RecordAll(Accumulate(visits[..|visits| - 1]), last.url, last.sightings)
  }

  lemma {:induction false} RecordAllAppend(t: Table<AxeResult>, url: string, a: seq<Sighting>, b: seq<Sighting>)
    ensures RecordAll(t, url, a + b) == RecordAll(RecordAll(t, url, a), url, b)
  {
    if b == [] {
      assert a + b == a;
    } else {
      RecordAllAppend(t, url, a, b[..|b| - 1]);
      assert (a + b)[..|a + b| - 1] == a + b[..|b| - 1];
    }
  }

  // ----- what accumulation means -----

  function Fingerprints(sightings: seq<Sighting>): seq<string> { Map((s: Sighting) => s.fingerprint, sightings) }

  function AllFingerprints(visits: seq<Visit>): seq<string> {
    if visits == [] then []
    else AllFingerprints(visits[..|visits| - 1]) + Fingerprints(visits[|visits| - 1].sightings)
  }

  predicate Mentions(v: Visit, fingerprint: string) { fingerprint in Fingerprints(v.sightings) }

  /** The URLs of the pages that show a fingerprint, one per visit, in visiting order. */
  function UrlsMentioning(visits: seq<Visit>, fingerprint: string): seq<string> {
    if visits == [] then []
    else
      var last := visits[|visits| - 1];
      UrlsMentioning(visits[..|visits| - 1], fingerprint) + if Mentions(last, fingerprint) then [last.url] else []
  }

  function UrlsOf(t: Table<AxeResult>, fingerprint: string): seq<string> {
    if fingerprint in t.dict then t.dict[fingerprint].urls else []
  }

  lemma RecordEffect(t: Table<AxeResult>, url: string, s: Sighting, base: seq<string>)
    requires t.Valid() && t.order == FirstSeen(base)
    ensures Record(t, url, s).Valid() && Record(t, url, s).order == FirstSeen(base + [s.fingerprint])
  {
    assert (base + [s.fingerprint])[..|base|] == base;
    assert s.fingerprint in t.order <==> s.fingerprint in Elements(t.order);
  }

  lemma FingerprintsSnoc(sightings: seq<Sighting>, last: Sighting, fingerprint: string)
    ensures Fingerprints(sightings + [last]) == Fingerprints(sightings) + [last.fingerprint]
    ensures fingerprint in Fingerprints(sightings + [last])
            <==> fingerprint in Fingerprints(sightings) || fingerprint == last.fingerprint
  {}

  lemma {:induction false} RecordAllOrder(t: Table<AxeResult>, url: string, sightings: seq<Sighting>, base: seq<string>)
    requires t.Valid() && t.order == FirstSeen(base)
    ensures RecordAll(t, url, sightings).Valid()
    ensures RecordAll(t, url, sightings).order == FirstSeen(base + Fingerprints(sightings))
  {
    hide Record, FirstSeen;
    if sightings == [] {
      assert base + Fingerprints(sightings) == base;
    } else {
      var init, last := sightings[..|sightings| - 1], sightings[|sightings| - 1];
      RecordAllOrder(t, url, init, base);
      RecordEffect(RecordAll(t, url, init), url, last, base + Fingerprints(init));
      assert base + Fingerprints(sightings) == (base + Fingerprints(init)) + [last.fingerprint];
    }
  }

  lemma NoFingerprints()
    ensures Fingerprints([]) == []
  {}

  lemma RecordUrls(t: Table<AxeResult>, url: string, s: Sighting, fingerprint: string)
    ensures fingerprint in Record(t, url, s).dict <==> fingerprint in t.dict || fingerprint == s.fingerprint
    ensures UrlsOf(Record(t, url, s), fingerprint)
            == if fingerprint == s.fingerprint then PushNew(UrlsOf(t, fingerprint), url) else UrlsOf(t, fingerprint)
  {}

  lemma {:induction false} RecordAllUrls(t: Table<AxeResult>, url: string, sightings: seq<Sighting>, fingerprint: string)
    ensures fingerprint in RecordAll(t, url, sightings).dict
            <==> fingerprint in t.dict || fingerprint in Fingerprints(sightings)
    ensures UrlsOf(RecordAll(t, url, sightings), fingerprint)
            == if fingerprint in Fingerprints(sightings) then PushNew(UrlsOf(t, fingerprint), url) else UrlsOf(t, fingerprint)
  {
    hide Record, UrlsOf, Fingerprints;
    if sightings == [] {
      NoFingerprints();
    } else {
      var init, last := sightings[..|sightings| - 1], sightings[|sightings| - 1];
      RecordAllUrls(t, url, init, fingerprint);
      RecordUrls(RecordAll(t, url, init), url, last, fingerprint);
      assert sightings == init + [last];
      FingerprintsSnoc(init, last, fingerprint);
    }
  }

  lemma NothingYet(fingerprint: string)
    ensures Accumulate([]).Valid() && Accumulate([]).order == FirstSeen(AllFingerprints([]))
    ensures UrlsOf(Accumulate([]), fingerprint) == FirstSeen(UrlsMentioning([], fingerprint)) == []
  {}

  lemma {:induction false} AccumulateOrder(visits: seq<Visit>)
    ensures Accumulate(visits).Valid() && Accumulate(visits).order == FirstSeen(AllFingerprints(visits))
  {
    hide RecordAll, FirstSeen, Fingerprints;
    if visits == [] {
      NothingYet("");
    } else {
      var init, last := visits[..|visits| - 1], visits[|visits| - 1];
      AccumulateOrder(init);
      RecordAllOrder(Accumulate(init), last.url, last.sightings, AllFingerprints(init));
    }
  }

  /** The table is the plain map from each fingerprint to the distinct URLs of the pages that show it, both in
      first-seen order. */
  lemma {:induction false} AccumulateRefines(visits: seq<Visit>, fingerprint: string)
    ensures Accumulate(visits).Valid()
    ensures Accumulate(visits).order == FirstSeen(AllFingerprints(visits))
    ensures fingerprint in Accumulate(visits).dict <==> exists v :: v in visits && Mentions(v, fingerprint)
    ensures UrlsOf(Accumulate(visits), fingerprint) == FirstSeen(UrlsMentioning(visits, fingerprint))
  {
    hide RecordAll, FirstSeen, Fingerprints, UrlsOf, AllFingerprints, Table<AxeResult>.Valid;
    AccumulateOrder(visits);
    if visits == [] {
      NothingYet(fingerprint);
    } else {
      var init, last := visits[..|visits| - 1], visits[|visits| - 1];
      AccumulateRefines(init, fingerprint);
      RecordAllUrls(Accumulate(init), last.url, last.sightings, fingerprint);
      assert visits == init + [last];
      MentionedSnoc(init, last, fingerprint);
      FirstSeenSnoc(UrlsMentioning(init, fingerprint), last.url);
      assert UrlsMentioning(init, fingerprint) + [] == UrlsMentioning(init, fingerprint);
    }
  }

  lemma MentionedSnoc(init: seq<Visit>, last: Visit, fingerprint: string)
    ensures (exists v :: v in init + [last] && Mentions(v, fingerprint))
            <==> (exists v :: v in init && Mentions(v, fingerprint)) || fingerprint in Fingerprints(last.sightings)
  {
    hide Fingerprints;
    assert last in init + [last];
    if fingerprint in Fingerprints(last.sightings) { assert Mentions(last, fingerprint); }
    if v :| v in init && Mentions(v, fingerprint) { assert v in init + [last]; }
  }

  lemma {:induction false} UrlsMentioningMembers(visits: seq<Visit>, fingerprint: string)
    ensures forall u :: u in UrlsMentioning(visits, fingerprint)
                        <==> exists v :: v in visits && Mentions(v, fingerprint) && v.url == u
  {
    if visits != [] {
      var init, last := visits[..|visits| - 1], visits[|visits| - 1];
      UrlsMentioningMembers(init, fingerprint);
      assert visits == init + [last];
    }
  }

  lemma AccumulatedUrls(visits: seq<Visit>, fingerprint: string)
    ensures Distinct(UrlsOf(Accumulate(visits), fingerprint))
    ensures forall u :: u in UrlsOf(Accumulate(visits), fingerprint)
                        <==> exists v :: v in visits && Mentions(v, fingerprint) && v.url == u
  {
    AccumulateRefines(visits, fingerprint);
    UrlsMentioningMembers(visits, fingerprint);
    var urls := UrlsMentioning(visits, fingerprint);
    FirstSeenFacts(urls);
    forall u ensures u in FirstSeen(urls) <==> u in urls {
      assert u in Elements(FirstSeen(urls)) <==> u in Elements(urls);
    }
  }

  /** Reducing again any page that is already part of the history changes nothing. */
  lemma ReducingAgainChangesNothing(visits: seq<Visit>, v: Visit)
    requires v in visits
    ensures RecordAll(Accumulate(visits), v.url, v.sightings) == Accumulate(visits)
  {
    forall s | s in v.sightings ensures v.url in UrlsOf(Accumulate(visits), s.fingerprint) {
      var k :| 0 <= k < |v.sightings| && v.sightings[k] == s;
      assert Fingerprints(v.sightings)[k] == s.fingerprint;
      assert Mentions(v, s.fingerprint);
      AccumulatedUrls(visits, s.fingerprint);
    }
    KnownSightingsChangeNothing(Accumulate(visits), v.url, v.sightings);
  }

  lemma {:induction false} KnownSightingsChangeNothing(t: Table<AxeResult>, url: string, sightings: seq<Sighting>)
    requires forall s :: s in sightings ==> url in UrlsOf(t, s.fingerprint)
    ensures RecordAll(t, url, sightings) == t
  {
    if sightings != [] {
      KnownSightingsChangeNothing(t, url, sightings[..|sightings| - 1]);
      assert sightings[|sightings| - 1] in sightings;
    }
  }

  /** The order of the pages does not matter for what is found, nor for where it is found. */
  lemma PageOrderIsIrrelevant(visits: seq<Visit>, permuted: seq<Visit>, fingerprint: string)
    requires multiset(visits) == multiset(permuted)
    ensures Accumulate(visits).dict.Keys == Accumulate(permuted).dict.Keys
    ensures Elements(UrlsOf(Accumulate(visits), fingerprint)) == Elements(UrlsOf(Accumulate(permuted), fingerprint))
  {
    assert forall v :: v in visits <==> v in multiset(visits);
    assert forall v :: v in permuted <==> v in multiset(permuted);
    forall f ensures f in Accumulate(visits).dict <==> f in Accumulate(permuted).dict {
      AccumulateRefines(visits, f);
      AccumulateRefines(permuted, f);
    }
    AccumulatedUrls(visits, fingerprint);
    AccumulatedUrls(permuted, fingerprint);
  }

  // ----- every entry is stored under the fingerprint its own data hashes to -----

  ghost predicate HashesTo(hash: Hash, id: string, node: JunctionNode, fingerprint: string) {
    && FindSelector(node.selectors, Css).Some?
    && fingerprint
       == GetFingerprint(hash, id, node.html, FindSelector(node.selectors, Css).value, FindSelector(node.selectors, Xpath))
  }

  /** Each entry has a junction node with a css selector, and is stored under the fingerprint computed from that node. */
  ghost predicate KeyedByFingerprint(hash: Hash, t: Table<AxeResult>) {
    forall f :: f in t.dict ==>
      t.dict[f].junctionNode.Some? && HashesTo(hash, t.dict[f].id, t.dict[f].junctionNode.value, f)
  }

  ghost predicate SightingsKeyed(hash: Hash, sightings: seq<Sighting>) {
    forall s :: s in sightings ==> s.junctionNode.Some? && HashesTo(hash, s.id, s.junctionNode.value, s.fingerprint)
  }

  lemma {:induction false} NodeSightingsKeyed(hash: Hash, rule: RuleResult, nodes: seq<Option<AxeNode>>)
    ensures SightingsKeyed(hash, NodeSightings(hash, rule, nodes))
  {
    if nodes != [] {
      NodeSightingsKeyed(hash, rule, nodes[..|nodes| - 1]);
      match nodes[|nodes| - 1]
      case None =>
      case Some(node) =>
        var selectors := GetSelectors(node);
        assert FindSelector(selectors, Css) == Some(Join(node.target, ';'));
        assert selectors[1..] == if node.xpath.Some? then [Selector(Join(node.xpath.value, ';'), Xpath)] else [];
        assert FindSelector(selectors, Xpath) == FindSelector(selectors[1..], Xpath);
    }
  }

  lemma {:induction false} ReportedSightingsKeyed(hash: Hash, results: seq<Option<RuleResult>>)
    ensures SightingsKeyed(hash, Sightings(hash, results))
  {
    if results != [] {
      ReportedSightingsKeyed(hash, results[..|results| - 1]);
      match results[|results| - 1]
      case None =>
      case Some(rule) => NodeSightingsKeyed(hash, rule, rule.nodes);
    }
  }

  lemma {:induction false} RecordAllKeyed(hash: Hash, t: Table<AxeResult>, url: string, sightings: seq<Sighting>)
    requires KeyedByFingerprint(hash, t) && SightingsKeyed(hash, sightings)
    ensures KeyedByFingerprint(hash, RecordAll(t, url, sightings))
  {
    if sightings != [] {
      RecordAllKeyed(hash, t, url, sightings[..|sightings| - 1]);
      assert sightings[|sightings| - 1] in sightings;
    }
  }

  /** The visits that the violation lists of some scanned pages amount to. */
  function ViolationVisits(hash: Hash, pages: seq<PageResults>): seq<Visit> {
    Map((p: PageResults) => Visit(p.url, Sightings(hash, Listed(p.violations))), pages)
  }

  /** Over every history of scanned pages: no entry is ever stored under a key its own data does not hash to. */
  lemma {:induction false} AccumulatedKeyed(hash: Hash, pages: seq<PageResults>)
    ensures KeyedByFingerprint(hash, Accumulate(ViolationVisits(hash, pages)))
  {
    if pages != [] {
      var init, last := pages[..|pages| - 1], pages[|pages| - 1];
      AccumulatedKeyed(hash, init);
      var visits := ViolationVisits(hash, pages);
      assert visits[..|visits| - 1] == ViolationVisits(hash, init);
      ReportedSightingsKeyed(hash, Listed(last.violations));
      RecordAllKeyed(hash, Accumulate(ViolationVisits(hash, init)), last.url, Sightings(hash, Listed(last.violations)));
    }
  }

  /** Rules listed without nodes: each is seen, with its own data, no node, and under its hashed id. */
  lemma {:induction false} RuleSightingsMembers(hash: Hash, results: seq<Option<RuleResult>>)
    ensures forall s :: s in RuleSightings(hash, results) ==> s.fingerprint == hash([s.id])
    ensures forall s :: s in RuleSightings(hash, results) ==>
      s.junctionNode.None? && exists rule :: Some(rule) in results && s.id == rule.id && s.details == rule.details
    ensures forall rule :: Some(rule) in results ==>
      exists s :: s in RuleSightings(hash, results) && s.id == rule.id && s.details == rule.details
  {
    if results != [] {
      var init, last := results[..|results| - 1], results[|results| - 1];
      RuleSightingsMembers(hash, init);
      assert results == init + [last];
      if last.Some? {
        var seen := Sighting(hash([last.value.id]), last.value.id, last.value.details, None);
        assert RuleSightings(hash, results) == RuleSightings(hash, init) + [seen];
        assert seen in RuleSightings(hash, results);
      }
    }
  }

  /** All sightings of a history, in order. */
  function AllSightings(visits: seq<Visit>): seq<Sighting> {
    if visits == [] then [] else AllSightings(visits[..|visits| - 1]) + visits[|visits| - 1].sightings
  }

  function EntryFor(s: Sighting, urls: seq<string>): AxeResult {
    AxeResult(s.id, s.details, urls, [], s.junctionNode, s.fingerprint)
  }

  /** The table holds, of each fingerprint seen, what its first sighting says. */
  ghost predicate HoldsFirst(t: Table<AxeResult>, seen: seq<Sighting>) {
    && (forall s :: s in seen ==> s.fingerprint in t.dict)
    && (forall k :: k in t.dict ==>
          exists i :: 0 <= i < |seen| && IsFirst(seen, i, k) && t.dict[k] == EntryFor(seen[i], t.dict[k].urls))
  }

  predicate IsFirst(seen: seq<Sighting>, i: nat, key: string)
    requires i < |seen|
  {
    seen[i].fingerprint == key && forall j :: 0 <= j < i ==> seen[j].fingerprint != key
  }

  lemma RecordHoldsFirst(t: Table<AxeResult>, url: string, seen: seq<Sighting>, s: Sighting)
    requires HoldsFirst(t, seen)
    ensures HoldsFirst(Record(t, url, s), seen + [s])
  {
    var after, all := Record(t, url, s), seen + [s];
    assert all[|seen|] == s;
    forall k | k in after.dict
      ensures exists i :: 0 <= i < |all| && IsFirst(all, i, k) && after.dict[k] == EntryFor(all[i], after.dict[k].urls)
    {
      if k in t.dict {
        var i :| 0 <= i < |seen| && IsFirst(seen, i, k) && t.dict[k] == EntryFor(seen[i], t.dict[k].urls);
        assert IsFirst(all, i, k);
      } else {
        assert IsFirst(all, |seen|, k);
      }
    }
  }

  lemma {:induction false} RecordAllHoldsFirst(t: Table<AxeResult>, url: string, seen: seq<Sighting>, sightings: seq<Sighting>)
    requires HoldsFirst(t, seen)
    ensures HoldsFirst(RecordAll(t, url, sightings), seen + sightings)
  {
    hide HoldsFirst, Record;
    if sightings == [] {
      assert seen + sightings == seen;
    } else {
      var init, last := sightings[..|sightings| - 1], sightings[|sightings| - 1];
      RecordAllHoldsFirst(t, url, seen, init);
      RecordHoldsFirst(RecordAll(t, url, init), url, seen + init, last);
      assert seen + sightings == (seen + init) + [last];
    }
  }

  /** Over every history an entry says what the first sighting of its fingerprint says; only its URLs grow. */
  lemma {:induction false} FirstSightingIsKept(visits: seq<Visit>)
    ensures HoldsFirst(Accumulate(visits), AllSightings(visits))
  {
    if visits != [] {
      hide HoldsFirst, RecordAll;
      var init, last := visits[..|visits| - 1], visits[|visits| - 1];
      FirstSightingIsKept(init);
      RecordAllHoldsFirst(Accumulate(init), last.url, AllSightings(init), last.sightings);
    }
  }

  lemma NothingRecorded(hash: Hash, rule: RuleResult, t: Table<AxeResult>, url: string)
    ensures RecordAll(t, url, NodeSightings(hash, rule, [])) == t
  {}

  lemma OneMoreNode(
    hash: Hash, rule: RuleResult, nodes: seq<Option<AxeNode>>, node: Option<AxeNode>, t: Table<AxeResult>, url: string)
    ensures var before := RecordAll(t, url, NodeSightings(hash, rule, nodes));
      RecordAll(t, url, NodeSightings(hash, rule, nodes + [node]))
        == if node.Some? then Record(before, url, NodeSighting(hash, rule, node.value)) else before
  {
    hide Record, NodeSighting;
    assert (nodes + [node])[..|nodes|] == nodes;
    var before := NodeSightings(hash, rule, nodes);
    if node.Some? { assert (before + [NodeSighting(hash, rule, node.value)])[..|before|] == before; }
  }

  // ----- the reducer itself -----

  class AxeCoreResults {
    var urls: Option<seq<string>>
    const violations: HashSet<AxeResult>
    const passes: HashSet<AxeResult>
    const incomplete: HashSet<AxeResult>
    const inapplicable: HashSet<AxeResult>

    ghost const Repr: set<object> := {this, violations, passes, incomplete, inapplicable}

    ghost predicate Valid()
      reads this, violations, passes, incomplete, inapplicable
    {
      && violations != passes && violations != incomplete && violations != inapplicable
      && passes != incomplete && passes != inapplicable && incomplete != inapplicable
      && violations.Valid() && passes.Valid() && incomplete.Valid() && inapplicable.Valid()
    }

    constructor ()
      ensures Valid() && fresh(Repr) && urls.None?
      ensures violations.Contents() == passes.Contents() == incomplete.Contents() == inapplicable.Contents() == Table([], map[])
      ensures violations.keysSnapshot.None?
    {
      urls := None;
      violations := new HashSet();
      passes := new HashSet();
      incomplete := new HashSet();
      inapplicable := new HashSet();
    }
  }

  class AxeResultsReducer {
    const hash: Hash

    constructor (hash: Hash)
      ensures this.hash == hash
    {
      this.hash := hash;
    }

    method Reduce(accumulated: AxeCoreResults, current: PageResults)
      requires accumulated.Valid()
      modifies accumulated.Repr
      ensures accumulated.Valid()
      ensures accumulated.urls ==
        Some(PushNew(if old(accumulated.urls).Some? then old(accumulated.urls).value else [], current.url))
      ensures accumulated.violations.Contents()
              == RecordAll(old(accumulated.violations.Contents()), current.url, Sightings(hash, Listed(current.violations)))
      ensures accumulated.passes.Contents()
              == RecordAll(old(accumulated.passes.Contents()), current.url, Sightings(hash, Listed(current.passes)))
      ensures accumulated.incomplete.Contents()
              == RecordAll(old(accumulated.incomplete.Contents()), current.url, Sightings(hash, Listed(current.incomplete)))
      ensures accumulated.inapplicable.Contents()
              == RecordAll(old(accumulated.inapplicable.Contents()), current.url,
                           RuleSightings(hash, Listed(current.inapplicable)))
      ensures accumulated.violations.keysSnapshot == old(accumulated.violations.keysSnapshot)
    {
      SetUrl(accumulated, current.url);
      ReduceResults(current.url, accumulated.violations, current.violations);
      ReduceResults(current.url, accumulated.passes, current.passes);
      ReduceResults(current.url, accumulated.incomplete, current.incomplete);
      ReduceResultsWithoutNodes(current.url, accumulated.inapplicable, current.inapplicable);
    }

    method SetUrl(accumulated: AxeCoreResults, url: string)
      modifies accumulated`urls
      ensures accumulated.urls == Some(PushNew(if old(accumulated.urls).Some? then old(accumulated.urls).value else [], url))
    {
      if accumulated.urls.Some? {
        if url !in accumulated.urls.value {
          accumulated.urls := Some(accumulated.urls.value + [url]);
        }
      } else {
        assert [] + [url] == [url];
        accumulated.urls := Some([url]);
      }
    }

    method RecordSighting(url: string, accumulated: HashSet<AxeResult>, sighting: Sighting)
      requires accumulated.Valid()
      modifies accumulated`hashDictionary, accumulated`order
      ensures accumulated.Valid()
      ensures accumulated.Contents() == Record(old(accumulated.Contents()), url, sighting)
    {
      var matching := accumulated.Get(sighting.fingerprint);
      match matching
      case Some(entry) =>
        if url !in entry.urls {
          accumulated.Add(sighting.fingerprint, entry.(urls := entry.urls + [url]));
        }
      case None =>
        accumulated.Add(sighting.fingerprint,
                        AxeResult(sighting.id, sighting.details, [url], [], sighting.junctionNode, sighting.fingerprint));
    }

    method ReduceResults(url: string, accumulated: HashSet<AxeResult>, current: RuleResults)
      requires accumulated.Valid()
      modifies accumulated`hashDictionary, accumulated`order
      ensures accumulated.Valid()
      ensures accumulated.Contents() == RecordAll(old(accumulated.Contents()), url, Sightings(hash, Listed(current)))
    {
      if current.None? { return; }
      var results := current.value;
      ghost var t0 := accumulated.Contents();
      for i := 0 to |results|
        invariant accumulated.Valid()
        invariant accumulated.Contents() == RecordAll(t0, url, Sightings(hash, results[..i]))
      {
        assert results[..i + 1][..i] == results[..i];
        ghost var before := Sightings(hash, results[..i]);
        if results[i].Some? {
          ReduceNodes(url, accumulated, results[i].value);
          RecordAllAppend(t0, url, before, NodeSightings(hash, results[i].value, results[i].value.nodes));
        }
      }
      assert results[..|results|] == results;
    }

    /** The inner loop of ReduceResults. */
    method ReduceNodes(url: string, accumulated: HashSet<AxeResult>, rule: RuleResult)
      requires accumulated.Valid()
      modifies accumulated`hashDictionary, accumulated`order
      ensures accumulated.Valid()
      ensures accumulated.Contents() == RecordAll(old(accumulated.Contents()), url, NodeSightings(hash, rule, rule.nodes))
    {
      hide Record, RecordAll, NodeSighting, NodeSightings;
      ghost var t0 := accumulated.Contents();
      NothingRecorded(hash, rule, t0, url);
      for j := 0 to |rule.nodes|
        invariant accumulated.Valid()
        invariant accumulated.Contents() == RecordAll(t0, url, NodeSightings(hash, rule, rule.nodes[..j]))
      {
        assert rule.nodes[..j + 1] == rule.nodes[..j] + [rule.nodes[j]];
        OneMoreNode(hash, rule, rule.nodes[..j], rule.nodes[j], t0, url);
        if rule.nodes[j].Some? {
          RecordSighting(url, accumulated, NodeSighting(hash, rule, rule.nodes[j].value));
        }
      }
      assert rule.nodes[..|rule.nodes|] == rule.nodes;
    }

    method ReduceResultsWithoutNodes(url: string, accumulated: HashSet<AxeResult>, current: RuleResults)
      requires accumulated.Valid()
      modifies accumulated`hashDictionary, accumulated`order
      ensures accumulated.Valid()
      ensures accumulated.Contents() == RecordAll(old(accumulated.Contents()), url, RuleSightings(hash, Listed(current)))
    {
      if current.None? { return; }
      var results := current.value;
      ghost var t0 := accumulated.Contents();
      for i := 0 to |results|
        invariant accumulated.Valid()
        invariant accumulated.Contents() == RecordAll(t0, url, RuleSightings(hash, results[..i]))
      {
        assert results[..i + 1][..i] == results[..i];
        ghost var before := RuleSightings(hash, results[..i]);
        if results[i].Some? {
          var rule := results[i].value;
          var sighting := Sighting(hash([rule.id]), rule.id, rule.details, None);
          assert (before + [sighting])[..|before|] == before;
          RecordSighting(url, accumulated, sighting);
        }
      }
      assert results[..|results|] == results;
    }
  }
}
