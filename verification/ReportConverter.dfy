/** The report of accumulated results: packages/axe-result-converter/src/combined-report-data-converter.ts. */
module ReportConversion {
  import opened Common
  import opened Ordering
  import opened HashSets

  import opened AxeResults
  import opened Findings
  import CombinedResults

  /** A URL of a failure: plain, or with its baseline status. */
  datatype UrlRef = Plain(url: string) | Labelled(info: UrlInfo)

  /** `details` stands for the tags, the description and the help URL, which are copied unread. */
  datatype RuleData = RuleData(ruleId: string, details: string)

  datatype FailureData = FailureData(
    urls: seq<UrlRef>, elementSelector: Option<string>, snippet: string, fix: NodeChecks, rule: RuleData)

  datatype FailuresGroup = FailuresGroup(key: string, failed: seq<FailureData>)

  datatype ScanResultData = ScanResultData(
    scanEngineName: string, axeCoreVersion: string, browserUserAgent: string, browserResolution: string,
    baseUrl: string, basePageTitle: string, scanStarted: int, scanEnded: int, urlCount: CombinedResults.UrlCount)

  datatype ScanDetails = ScanDetails(
    baseUrl: string, basePageTitle: string, scanStart: int, scanComplete: int, durationSeconds: real)

  datatype UrlResults = UrlResults(failedUrls: int, passedUrls: int, unscannableUrls: int)

  /** The part of a report that does not depend on the results. */
  datatype Header = Header(
    serviceName: string, axeVersion: string, userAgent: string, browserResolution: string, scanDetails: ScanDetails,
    urlResults: UrlResults)

  datatype Report = Report(header: Header, failed: seq<FailuresGroup>, passed: seq<RuleData>, notApplicable: seq<RuleData>)

  // ----- what each entry becomes -----

  function RuleDataOf(r: AxeResult): RuleData { RuleData(r.id, r.details) }

  /** The first CSS selector, or else the first XPath. */
  function ElementSelector(node: JunctionNode): Option<string> {
    var css := FindSelector(node.selectors, Css);
    if css.Some? then css else FindSelector(node.selectors, Xpath)
  }

  function FailureUrls(r: AxeResult): seq<UrlRef> {
    if r.urlInfos != [] then Map((u: UrlInfo) => Labelled(u), r.urlInfos) else Map((u: string) => Plain(u), r.urls)
  }

  /** Milliseconds become seconds; what was neither failed nor passed could not be scanned. */
  function HeaderOf(data: ScanResultData): Header {
    Header(data.scanEngineName, data.axeCoreVersion, data.browserUserAgent, data.browserResolution,
           ScanDetails(data.baseUrl, data.basePageTitle, data.scanStarted, data.scanEnded,
                       (data.scanEnded - data.scanStarted) as real / 1000.0),
           UrlResults(data.urlCount.failed, data.urlCount.passed,
                      data.urlCount.total - (data.urlCount.failed + data.urlCount.passed)))
  }

  function FailureOf(r: AxeResult): FailureData
    requires r.junctionNode.Some?
  {
    var node := r.junctionNode.value;
    FailureData(FailureUrls(r), ElementSelector(node), node.html, node.checks, RuleDataOf(r))
  }

  predicate HaveNodes(results: seq<AxeResult>) { forall r :: r in results ==> r.junctionNode.Some? }

  function Failures(results: seq<AxeResult>): (failures: seq<FailureData>)
    requires HaveNodes(results)
    ensures |failures| == |results| && forall i :: 0 <= i < |results| ==>
      results[i].junctionNode.Some? && failures[i] == FailureOf(results[i])
  {
    seq(|results|, i requires 0 <= i < |results| => assert results[i] in results; FailureOf(results[i]))
  }

  // ----- the orders -----

  function CompareRuleData(a: RuleData, b: RuleData): int { CompareText(a.ruleId, b.ruleId) }

  /** What `>` compares: an object becomes the same text whatever it holds. */
  function TextOf(u: UrlRef): string { if u.Plain? then u.url else "[object Object]" }

  function CompareFailureData(a: FailureData, b: FailureData): int {
    if |a.urls| != |b.urls| then |b.urls| - |a.urls|
    else if a.urls == [] then 0
    else CompareText(TextOf(a.urls[0]), TextOf(b.urls[0]))
  }

  datatype SortableGroup = SortableGroup(group: FailuresGroup, instancesCount: nat)

  function CompareFailureGroup(a: SortableGroup, b: SortableGroup): int {
    if a.instancesCount < b.instancesCount then 1 else if a.instancesCount > b.instancesCount then -1 else 0
  }

  lemma OrdersConsistent()
    ensures Consistent(CompareRuleData) && Consistent(CompareFailureData) && Consistent(CompareFailureGroup)
  {
    CompareTextConsistent();
    FailureOrderConsistent();
  }

  lemma FailureOrderConsistent()
    ensures Consistent(CompareFailureData)
  {
    hide CompareText;
    CompareTextConsistent();
  }

  // ----- rules that passed or do not apply -----

  function RuleTable(results: seq<AxeResult>, exclude: set<string>): (t: Table<RuleData>)
    ensures t.Valid()
  {
    if results == [] then Table([], map[])
    else
      var before, r := RuleTable(results[..|results| - 1], exclude), results[|results| - 1];
      if r.id in before.dict || r.id in exclude then before else before.Put(r.id, RuleDataOf(r))
  }

  function Rules(results: seq<AxeResult>, exclude: set<string>): seq<RuleData> {
    SortBy(CompareRuleData, RuleTable(results, exclude).Values())
  }

  function Ids(results: seq<AxeResult>): set<string> { set r | r in results :: r.id }

  function RuleIds(rules: seq<RuleData>): set<string> { set r | r in rules :: r.ruleId }

  lemma RuleTableSnoc(results: seq<AxeResult>, r: AxeResult, exclude: set<string>)
    ensures var before := RuleTable(results, exclude);
      RuleTable(results + [r], exclude)
        == if r.id in before.dict || r.id in exclude then before else before.Put(r.id, RuleDataOf(r))
  {
    assert (results + [r])[..|results|] == results;
  }

  ghost predicate IsFirst(results: seq<AxeResult>, i: int) {
    0 <= i < |results| && forall j :: 0 <= j < i ==> results[j].id != results[i].id
  }

  /** The table holds the rule data of the first result with each id that is not excluded. */
  ghost predicate HoldsFirsts(t: Table<RuleData>, results: seq<AxeResult>, exclude: set<string>) {
    forall i :: IsFirst(results, i) && results[i].id !in exclude ==>
      results[i].id in t.dict && t.dict[results[i].id] == RuleDataOf(results[i])
  }

  lemma {:induction false} RuleTableFacts(results: seq<AxeResult>, exclude: set<string>)
    ensures RuleTable(results, exclude).dict.Keys == Ids(results) - exclude
    ensures HoldsFirsts(RuleTable(results, exclude), results, exclude)
    ensures forall id :: id in RuleTable(results, exclude).dict ==> RuleTable(results, exclude).dict[id].ruleId == id
  {
    hide HoldsFirsts, RuleTable;
    if results == [] {
      NoRules();
      NoFirsts(RuleTable(results, exclude), exclude);
    } else {
      var init, last := results[..|results| - 1], results[|results| - 1];
      RuleTableFacts(init, exclude);
      assert results == init + [last];
      RuleTableSnoc(init, last, exclude);
      IdsSnoc(init, last);
      OneMoreFirst(RuleTable(init, exclude), init, last, exclude);
    }
  }

  lemma NoFirsts(t: Table<RuleData>, exclude: set<string>)
    ensures HoldsFirsts(t, [], exclude)
  {}

  lemma IdsSnoc(results: seq<AxeResult>, r: AxeResult)
    ensures Ids(results + [r]) == Ids(results) + {r.id}
  {}

  lemma OneMoreFirst(t: Table<RuleData>, init: seq<AxeResult>, last: AxeResult, exclude: set<string>)
    requires HoldsFirsts(t, init, exclude) && t.dict.Keys == Ids(init) - exclude
    ensures HoldsFirsts(
      if last.id in t.dict || last.id in exclude then t else t.Put(last.id, RuleDataOf(last)), init + [last], exclude)
  {
    hide RuleDataOf;
    var results := init + [last];
    forall i | IsFirst(results, i) && results[i].id !in exclude
      ensures i < |init| ==> IsFirst(init, i) && init[i].id in t.dict && t.dict[init[i].id] == RuleDataOf(init[i])
      ensures i == |init| ==> last.id !in Ids(init)
    {
      if i < |init| {
        forall j | 0 <= j < i ensures init[j].id != init[i].id {
          assert results[j].id != results[i].id;
        }
      } else {
        forall j | 0 <= j < |init| ensures init[j].id != last.id {
          assert results[j].id != results[i].id;
        }
      }
    }
  }

  /** The rules listed are those of the results that are not excluded, strictly ascending, so each once. */
  lemma RulesFacts(results: seq<AxeResult>, exclude: set<string>)
    ensures RuleIds(Rules(results, exclude)) == Ids(results) - exclude
    ensures var rules := Rules(results, exclude);
      StrictlySorted(CompareRuleData, rules)
      && forall i, j :: 0 <= i < j < |rules| ==> CompareText(rules[i].ruleId, rules[j].ruleId) < 0
    ensures forall i :: IsFirst(results, i) && results[i].id !in exclude ==> RuleDataOf(results[i]) in Rules(results, exclude)
  {
    hide CompareRuleData, RuleTable;
    RuleTableFacts(results, exclude);
    var t := RuleTable(results, exclude);
    var values, rules := t.Values(), Rules(results, exclude);
    SortMembers(CompareRuleData, values);
    OrdersConsistent();
    SortSorts(CompareRuleData, values);
    ValuesFacts(t);
    SortKeepsDistinct(CompareRuleData, values);
    SortedAndDistinct(rules, t);
    RulesAscend(rules);
    assert forall v :: v in rules <==> v in values;
  }

  lemma RulesAscend(rules: seq<RuleData>)
    requires StrictlySorted(CompareRuleData, rules)
    ensures forall i, j :: 0 <= i < j < |rules| ==> CompareText(rules[i].ruleId, rules[j].ruleId) < 0
  {
    hide CompareText;
    forall i, j | 0 <= i < j < |rules| ensures CompareText(rules[i].ruleId, rules[j].ruleId) < 0 {
      assert CompareRuleData(rules[i], rules[j]) < 0;
    }
  }

  lemma ValuesFacts(t: Table<RuleData>)
    requires t.Valid() && forall id :: id in t.dict ==> t.dict[id].ruleId == id
    ensures Distinct(t.Values()) && RuleIds(t.Values()) == t.dict.Keys
    ensures forall v :: v in t.Values() <==> v.ruleId in t.dict && t.dict[v.ruleId] == v
  {
    var values := t.Values();
    assert forall k :: k in t.order <==> k in Elements(t.order);
    forall v ensures v in values <==> v.ruleId in t.dict && t.dict[v.ruleId] == v {
      if v.ruleId in t.dict && t.dict[v.ruleId] == v {
        var i :| 0 <= i < |t.order| && t.order[i] == v.ruleId;
        assert values[i] == v;
      }
    }
    forall id | id in t.dict ensures id in RuleIds(values) {
      assert t.dict[id] in values;
    }
  }

  lemma SortedAndDistinct(rules: seq<RuleData>, t: Table<RuleData>)
    requires Sorted(CompareRuleData, rules) && Distinct(rules)
    requires forall v :: v in rules ==> v.ruleId in t.dict && t.dict[v.ruleId] == v
    ensures StrictlySorted(CompareRuleData, rules)
  {
    forall i, j | 0 <= i < j < |rules| ensures CompareRuleData(rules[i], rules[j]) < 0 {
      CompareTextFacts(rules[i].ruleId, rules[j].ruleId);
      assert rules[i] in rules && rules[j] in rules;
    }
  }

  // ----- failures by rule -----

  type Lower = string -> string // toLowerCase

  function HasKey(lower: Lower, key: string): FailureData -> bool { (f: FailureData) => lower(f.rule.ruleId) == key }

  function Keys(lower: Lower, failures: seq<FailureData>): seq<string> {
    Map((f: FailureData) => lower(f.rule.ruleId), failures)
  }

  /** Under each key, in first-seen order, the failures with it, ordered. */
  function Group(lower: Lower, failures: seq<FailureData>, key: string): FailuresGroup {
    FailuresGroup(key, SortBy(CompareFailureData, Filter(HasKey(lower, key), failures)))
  }

  function Groups(lower: Lower, failures: seq<FailureData>): seq<FailuresGroup> {
    Map((key: string) => Group(lower, failures, key), FirstSeen(Keys(lower, failures)))
  }

  function UrlsIn(failed: seq<FailureData>): nat {
    if failed == [] then 0 else UrlsIn(failed[..|failed| - 1]) + |failed[|failed| - 1].urls|
  }

  function WithCount(g: FailuresGroup): SortableGroup { SortableGroup(g, UrlsIn(g.failed)) }

  function Unwrapped(s: SortableGroup): FailuresGroup { s.group }

  function SortedGroups(groups: seq<FailuresGroup>): seq<FailuresGroup> {
    Map(Unwrapped, SortBy(CompareFailureGroup, Map(WithCount, groups)))
  }

  function FailedGroups(lower: Lower, failures: seq<FailureData>): seq<FailuresGroup> { SortedGroups(Groups(lower, failures)) }

  /** The groups, one after the other. */
  function Concatenated(groups: seq<FailuresGroup>): seq<FailureData> {
    if groups == [] then [] else groups[0].failed + Concatenated(groups[1..])
  }

  lemma {:induction false} FilterSplit(
    p: FailureData -> bool, q: FailureData -> bool, r: FailureData -> bool, s: seq<FailureData>)
    requires forall x :: r(x) <==> p(x) || q(x)
    requires forall x :: !(p(x) && q(x))
    ensures multiset(Filter(r, s)) == multiset(Filter(p, s)) + multiset(Filter(q, s))
  {
    if s != [] { FilterSplit(p, q, r, s[1..]); }
  }

  lemma {:induction false} FilterEverything(keep: FailureData -> bool, s: seq<FailureData>)
    ensures (forall x :: x in s ==> keep(x)) ==> Filter(keep, s) == s
    ensures (forall x :: !keep(x)) ==> Filter(keep, s) == []
  {
    if s != [] {
      FilterEverything(keep, s[1..]);
      assert s == [s[0]] + s[1..];
    }
  }

  /** The groups of some keys hold the failures with those keys. */
  lemma {:induction false} GroupsHold(lower: Lower, failures: seq<FailureData>, keys: seq<string>)
    requires Distinct(keys)
    ensures multiset(Concatenated(Map((k: string) => Group(lower, failures, k), keys)))
         == multiset(Filter((f: FailureData) => lower(f.rule.ruleId) in keys, failures))
  {
    hide Filter, SortBy;
    var groupOf := (k: string) => Group(lower, failures, k);
    var inKeys := (f: FailureData) => lower(f.rule.ruleId) in keys;
    if keys == [] {
      FilterEverything(inKeys, failures);
    } else {
      var rest := keys[1..];
      var inRest := (f: FailureData) => lower(f.rule.ruleId) in rest;
      GroupsHold(lower, failures, rest);
      assert keys == [keys[0]] + rest;
      FilterSplit(HasKey(lower, keys[0]), inRest, inKeys, failures);
      SortPermutes(CompareFailureData, Filter(HasKey(lower, keys[0]), failures));
      var groups := Map(groupOf, keys);
      assert groups[1..] == Map(groupOf, rest) && groups[0] == Group(lower, failures, keys[0]);
      assert multiset(Concatenated(groups)) == multiset(groups[0].failed) + multiset(Concatenated(groups[1..]));
    }
  }

  lemma {:induction false} InsertConcatenated(x: SortableGroup, s: seq<SortableGroup>)
    ensures multiset(Concatenated(Map(Unwrapped, Insert(CompareFailureGroup, x, s))))
         == multiset(x.group.failed) + multiset(Concatenated(Map(Unwrapped, s)))
  {
    var inserted := Insert(CompareFailureGroup, x, s);
    assert Map(Unwrapped, inserted)[1..] == Map(Unwrapped, inserted[1..]);
    if s == [] || CompareFailureGroup(x, s[0]) <= 0 {
      assert inserted[1..] == s;
    } else {
      InsertConcatenated(x, s[1..]);
      assert inserted[1..] == Insert(CompareFailureGroup, x, s[1..]);
      assert Map(Unwrapped, s)[1..] == Map(Unwrapped, s[1..]);
    }
  }

  lemma {:induction false} SortConcatenated(s: seq<SortableGroup>)
    ensures multiset(Concatenated(Map(Unwrapped, SortBy(CompareFailureGroup, s)))) == multiset(Concatenated(Map(Unwrapped, s)))
  {
    if s != [] {
      SortConcatenated(s[1..]);
      InsertConcatenated(s[0], SortBy(CompareFailureGroup, s[1..]));
      assert Map(Unwrapped, s)[1..] == Map(Unwrapped, s[1..]);
    }
  }

  /** One after the other, the groups are a rearrangement of the failures: none is lost, none is listed twice. */
  lemma GroupsPermuteFailures(lower: Lower, failures: seq<FailureData>)
    ensures multiset(Concatenated(FailedGroups(lower, failures))) == multiset(failures)
  {
    hide Filter, SortBy, Group, FirstSeen;
    var keys, groups := FirstSeen(Keys(lower, failures)), Groups(lower, failures);
    FirstSeenFacts(Keys(lower, failures));
    GroupsHold(lower, failures, keys);
    var inKeys := (f: FailureData) => lower(f.rule.ruleId) in keys;
    KeysCover(lower, failures);
    FilterEverything(inKeys, failures);
    SortConcatenated(Map(WithCount, groups));
    assert Map(Unwrapped, Map(WithCount, groups)) == groups;
  }

  lemma KeysCover(lower: Lower, failures: seq<FailureData>)
    ensures forall f :: f in failures ==> lower(f.rule.ruleId) in FirstSeen(Keys(lower, failures))
    ensures forall k :: k in FirstSeen(Keys(lower, failures)) <==> exists f :: f in failures && lower(f.rule.ruleId) == k
  {
    var keys := Keys(lower, failures);
    FirstSeenFacts(keys);
    forall f | f in failures ensures lower(f.rule.ruleId) in FirstSeen(keys) {
      var i :| 0 <= i < |failures| && failures[i] == f;
      assert keys[i] in Elements(keys);
      assert keys[i] in Elements(FirstSeen(keys));
    }
    forall k | k in FirstSeen(keys) ensures exists f :: f in failures && lower(f.rule.ruleId) == k {
      assert k in Elements(FirstSeen(keys));
      var i :| 0 <= i < |keys| && keys[i] == k;
      assert failures[i] in failures;
    }
  }

  lemma SortedGroupsMembers(groups: seq<FailuresGroup>)
    ensures forall g :: g in SortedGroups(groups) <==> g in groups
    ensures |SortedGroups(groups)| == |groups|
    ensures forall i, j :: 0 <= i < j < |groups| ==>
      UrlsIn(SortedGroups(groups)[i].failed) >= UrlsIn(SortedGroups(groups)[j].failed)
    ensures Distinct(groups) ==> Distinct(SortedGroups(groups))
  {
    hide UrlsIn, SortBy;
    var counted := Map(WithCount, groups);
    var sorted := SortBy(CompareFailureGroup, counted);
    SortMembers(CompareFailureGroup, counted);
    CountedMembers(groups, sorted);
    OrdersConsistent();
    SortSorts(CompareFailureGroup, counted);
    forall i, j | 0 <= i < j < |groups| ensures UrlsIn(SortedGroups(groups)[i].failed) >= UrlsIn(SortedGroups(groups)[j].failed) {
      assert CompareFailureGroup(sorted[i], sorted[j]) <= 0;
      assert sorted[i] in sorted && sorted[j] in sorted;
    }
    if Distinct(groups) {
      forall i, j | 0 <= i < j < |counted| ensures counted[i] != counted[j] {
        assert counted[i].group == groups[i] && counted[j].group == groups[j];
      }
      SortKeepsDistinct(CompareFailureGroup, counted);
      forall i, j | 0 <= i < j < |sorted| ensures sorted[i].group != sorted[j].group {
        assert sorted[i] in sorted && sorted[j] in sorted;
      }
    }
  }

  lemma CountedMembers(groups: seq<FailuresGroup>, sorted: seq<SortableGroup>)
    requires |sorted| == |groups| && forall x :: x in sorted <==> x in Map(WithCount, groups)
    ensures forall x :: x in sorted ==> x == WithCount(x.group) && x.group in groups
    ensures forall g :: g in Map(Unwrapped, sorted) <==> g in groups
  {
    hide UrlsIn;
    var counted, unwrapped := Map(WithCount, groups), Map(Unwrapped, sorted);
    forall x | x in sorted ensures x == WithCount(x.group) && x.group in groups {
      var i :| 0 <= i < |counted| && counted[i] == x;
      assert x.group == groups[i];
    }
    forall g | g in groups ensures g in unwrapped {
      var i :| 0 <= i < |groups| && groups[i] == g;
      assert counted[i] in counted;
      var j :| 0 <= j < |sorted| && sorted[j] == counted[i];
      assert unwrapped[j] == g;
    }
    forall g | g in unwrapped ensures g in groups {
      var j :| 0 <= j < |unwrapped| && unwrapped[j] == g;
      assert sorted[j] in sorted;
    }
  }

  /** Groups fall by their number of URLs. Each holds, in order, exactly the failures with its key; keys are not repeated, and
      every group has a failure. */
  lemma GroupsAreByKey(lower: Lower, failures: seq<FailureData>)
    ensures var groups := FailedGroups(lower, failures);
      && (forall i, j :: 0 <= i < j < |groups| ==> UrlsIn(groups[i].failed) >= UrlsIn(groups[j].failed))
      && (forall i, j :: 0 <= i < j < |groups| ==> groups[i].key != groups[j].key)
      && (forall g :: g in groups ==> Sorted(CompareFailureData, g.failed))
      && (forall g, f :: g in groups ==> (f in g.failed <==> f in failures && lower(f.rule.ruleId) == g.key))
      && (forall f :: f in failures ==> exists g :: g in groups && f in g.failed)
      && (forall g :: g in groups ==> g.failed != [])
  {
    hide UrlsIn, SortBy, SortedGroups, Groups, Group;
    var groups, sorted := Groups(lower, failures), FailedGroups(lower, failures);
    UnsortedGroups(lower, failures);
    SortedGroupsMembers(groups);
    assert forall i :: 0 <= i < |sorted| ==> sorted[i] in sorted;
    forall i, j | 0 <= i < j < |sorted| ensures sorted[i].key != sorted[j].key {
      assert sorted[i] in groups && sorted[j] in groups && sorted[i] != sorted[j];
    }
    forall f | f in failures ensures exists g :: g in sorted && f in g.failed {
      var g :| g in groups && f in g.failed;
    }
  }

  lemma UnsortedGroups(lower: Lower, failures: seq<FailureData>)
    ensures var groups := Groups(lower, failures);
      && Distinct(groups)
      && (forall g :: g in groups ==> g == Group(lower, failures, g.key))
      && (forall g :: g in groups ==> Sorted(CompareFailureData, g.failed) && g.failed != [])
      && (forall g, f :: g in groups ==> (f in g.failed <==> f in failures && lower(f.rule.ruleId) == g.key))
      && (forall f :: f in failures ==> exists g :: g in groups && f in g.failed)
  {
    hide FirstSeen, SortBy, Filter, CompareFailureData, Keys;
    var keys, groups := FirstSeen(Keys(lower, failures)), Groups(lower, failures);
    FirstSeenFacts(Keys(lower, failures));
    KeysCover(lower, failures);
    assert forall i :: 0 <= i < |groups| ==> groups[i] == Group(lower, failures, keys[i]) && keys[i] in keys;
    forall g | g in groups
      ensures g == Group(lower, failures, g.key)
      ensures Sorted(CompareFailureData, g.failed) && g.failed != []
      ensures forall f :: f in g.failed <==> f in failures && lower(f.rule.ruleId) == g.key
    {
      var i :| 0 <= i < |groups| && groups[i] == g;
      GroupFacts(lower, failures, keys[i]);
    }
    forall f | f in failures ensures exists g :: g in groups && f in g.failed {
      var i :| 0 <= i < |keys| && keys[i] == lower(f.rule.ruleId);
      assert groups[i] in groups && f in groups[i].failed;
    }
  }

  lemma GroupFacts(lower: Lower, failures: seq<FailureData>, key: string)
    ensures var g := Group(lower, failures, key);
      && g.key == key && Sorted(CompareFailureData, g.failed)
      && forall f :: f in g.failed <==> f in failures && lower(f.rule.ruleId) == key
    ensures (exists f :: f in failures && lower(f.rule.ruleId) == key) ==> Group(lower, failures, key).failed != []
  {
    hide SortBy, Filter, CompareFailureData;
    var some := Filter(HasKey(lower, key), failures);
    FilterMembers(HasKey(lower, key), failures);
    SortMembers(CompareFailureData, some);
    OrdersConsistent();
    SortSorts(CompareFailureData, some);
  }

  /** Each group is of one rule if and only if no two rules that failed have ids that differ in case alone. */
  lemma OneRulePerGroup(lower: Lower, failures: seq<FailureData>)
    ensures (forall g, a, b ::
               g in FailedGroups(lower, failures) && a in g.failed && b in g.failed ==> a.rule.ruleId == b.rule.ruleId)
       <==> (forall a, b :: a in failures && b in failures && lower(a.rule.ruleId) == lower(b.rule.ruleId) ==>
               a.rule.ruleId == b.rule.ruleId)
  {
    hide FailedGroups;
    GroupsAreByKey(lower, failures);
    var groups := FailedGroups(lower, failures);
    if forall g, a, b :: g in groups && a in g.failed && b in g.failed ==> a.rule.ruleId == b.rule.ruleId {
      forall a, b | a in failures && b in failures && lower(a.rule.ruleId) == lower(b.rule.ruleId)
        ensures a.rule.ruleId == b.rule.ruleId
      {
        var g :| g in groups && a in g.failed;
        assert b in g.failed;
      }
    }
  }

  // ----- the partition of rules -----

  function ReportOf(
    lower: Lower, violations: seq<AxeResult>, passes: seq<AxeResult>, inapplicable: seq<AxeResult>, data: ScanResultData)
    : Report
    requires HaveNodes(violations)
  {
    var passed := Rules(passes, Ids(violations));
    Report(
      HeaderOf(data),
      FailedGroups(lower, Failures(violations)), passed, Rules(inapplicable, Ids(violations) + RuleIds(passed)))
  }

  function FailedIds(groups: seq<FailuresGroup>): set<string> { set f | f in Concatenated(groups) :: f.rule.ruleId }

  /** Every rule id lands in exactly one part: failed if it is in the violations, else passed if it is in the passes, else
      not applicable. The last two parts are strictly ascending. */
  lemma RulesArePartitioned(
    lower: Lower, violations: seq<AxeResult>, passes: seq<AxeResult>, inapplicable: seq<AxeResult>, data: ScanResultData)
    requires HaveNodes(violations)
    ensures var r := ReportOf(lower, violations, passes, inapplicable, data);
      && FailedIds(r.failed) == Ids(violations)
      && RuleIds(r.passed) == Ids(passes) - Ids(violations)
      && RuleIds(r.notApplicable) == Ids(inapplicable) - Ids(passes) - Ids(violations)
      && FailedIds(r.failed) + RuleIds(r.passed) + RuleIds(r.notApplicable) == Ids(violations) + Ids(passes) + Ids(inapplicable)
      && StrictlySorted(CompareRuleData, r.passed) && StrictlySorted(CompareRuleData, r.notApplicable)
  {
    hide FailedGroups, Rules, Concatenated;
    var r := ReportOf(lower, violations, passes, inapplicable, data);
    RulesFacts(passes, Ids(violations));
    RulesFacts(inapplicable, Ids(violations) + RuleIds(r.passed));
    FailedIdsAre(lower, violations);
  }

  lemma FailedIdsAre(lower: Lower, violations: seq<AxeResult>)
    requires HaveNodes(violations)
    ensures FailedIds(FailedGroups(lower, Failures(violations))) == Ids(violations)
  {
    hide FailedGroups, Concatenated;
    var failures := Failures(violations);
    var all := Concatenated(FailedGroups(lower, failures));
    GroupsPermuteFailures(lower, failures);
    SameElements(all, failures);
    forall id | id in Ids(violations) ensures id in FailedIds(FailedGroups(lower, failures)) {
      var i :| 0 <= i < |violations| && violations[i].id == id;
      assert failures[i] in failures && failures[i] in all;
    }
  }

  /** The report of merged pages, whatever the pages: every violation has its node, so the conversion does not throw; each
      page is counted as failed or passed, and none as unscannable. */
  lemma MergedPagesConvert(hash: Hash, pages: seq<PageResults>, data: ScanResultData)
    requires data.urlCount == CombinedResults.MergeAll(hash, CombinedResults.EMPTY, pages).urlCount
    ensures var violations := CombinedResults.MergeAll(hash, CombinedResults.EMPTY, pages).violations;
      violations.Valid() && HaveNodes(violations.Values())
    ensures HeaderOf(data).urlResults.unscannableUrls == 0
    ensures HeaderOf(data).urlResults.failedUrls == |CombinedResults.PagesWithViolations(pages)|
  {
    hide CombinedResults.MergeAll, Accumulate, ViolationVisits;
    CombinedResults.MergedCounts(hash, pages);
    MergedHaveNodes(hash, pages);
  }

  lemma MergedHaveNodes(hash: Hash, pages: seq<PageResults>)
    ensures var t := Accumulate(ViolationVisits(hash, pages)); t.Valid() && HaveNodes(t.Values())
  {
    hide Accumulate, HashesTo, ViolationVisits;
    AccumulatedKeyed(hash, pages);
    AccumulateRefines(ViolationVisits(hash, pages), "");
    var t := Accumulate(ViolationVisits(hash, pages));
    forall r | r in t.Values() ensures r.junctionNode.Some? {
      var i :| 0 <= i < |t.Values()| && t.Values()[i] == r;
      assert t.order[i] in t.dict;
    }
  }

  /** The counts of the header add up to all pages, and the duration leads from the start to the end. */
  lemma HeaderAddsUp(data: ScanResultData)
    ensures var h := HeaderOf(data);
      && h.urlResults.failedUrls + h.urlResults.passedUrls + h.urlResults.unscannableUrls == data.urlCount.total
      && h.scanDetails.scanStart as real + 1000.0 * h.scanDetails.durationSeconds == h.scanDetails.scanComplete as real
  {}

  /** In a group, what is found under more URLs comes first, and then what is first found under a smaller URL. */
  lemma FailuresAreInOrder(lower: Lower, failures: seq<FailureData>, g: FailuresGroup, i: nat, j: nat)
    requires g in FailedGroups(lower, failures) && i < j < |g.failed|
    ensures var a, b := g.failed[i].urls, g.failed[j].urls;
      && |a| >= |b|
      && (|a| == |b| > 0 && a[0].Plain? && b[0].Plain? ==> CompareText(a[0].url, b[0].url) <= 0)
  {
    hide FailedGroups;
    GroupsAreByKey(lower, failures);
    assert CompareFailureData(g.failed[i], g.failed[j]) <= 0;
  }

  // ----- from pages to the report -----

  /** The failure is this finding: its rule, its snippet, and its CSS selector. */
  predicate Tells(x: FailureData, f: Finding) {
    x.rule.ruleId == f.rule && x.snippet == f.html && x.elementSelector == Some(f.css)
  }

  /** What the accumulated violations of some pages become. */
  ghost function MergedFailures(hash: Hash, pages: seq<PageResults>): seq<FailureData> {
    var t := Accumulate(ViolationVisits(hash, pages));
    MergedHaveNodes(hash, pages);
    Failures(t.Values())
  }

  /** Over every history of scanned pages, where the hash tells their findings apart: each is in the group of its rule, with every
      URL it was found on. */
  lemma ReportShowsFindings(hash: Hash, lower: Lower, pages: seq<PageResults>, f: Finding, url: string)
    returns (g: FailuresGroup, x: FailureData)
    requires Separates(hash, pages) && FoundOn(pages, f, url)
    ensures g in FailedGroups(lower, MergedFailures(hash, pages)) && x in g.failed
    ensures g.key == lower(f.rule) && Tells(x, f) && Plain(url) in x.urls
  {
    hide MergedFailures, FailedGroups, Separates, FoundOn, Tells, UrlsIn, CompareFailureData;
    x := FailureShows(hash, pages, f, url);
    GroupsAreByKey(lower, MergedFailures(hash, pages));
    g :| g in FailedGroups(lower, MergedFailures(hash, pages)) && x in g.failed;
    TellsRule(x, f);
  }

  /** Conversely, every URL of every failure in the report is one on which that finding was found. */
  lemma ReportShowsNothingElse(
    hash: Hash, lower: Lower, pages: seq<PageResults>, g: FailuresGroup, x: FailureData, u: UrlRef) returns (f: Finding)
    requires Separates(hash, pages) && g in FailedGroups(lower, MergedFailures(hash, pages)) && x in g.failed && u in x.urls
    ensures Tells(x, f) && u.Plain? && FoundOn(pages, f, u.url)
  {
    hide MergedFailures, FailedGroups, Separates, FoundOn, Tells, UrlsIn, CompareFailureData;
    GroupsAreByKey(lower, MergedFailures(hash, pages));
    f := FailureFound(hash, pages, x, u);
  }

  lemma TellsRule(x: FailureData, f: Finding)
    requires Tells(x, f)
    ensures x.rule.ruleId == f.rule
  {}

  lemma FailureShows(hash: Hash, pages: seq<PageResults>, f: Finding, url: string) returns (x: FailureData)
    requires Separates(hash, pages) && FoundOn(pages, f, url)
    ensures x in MergedFailures(hash, pages) && Tells(x, f) && Plain(url) in x.urls
  {
    hide Accumulate, ViolationVisits, Separates, FoundOn, Tells, FailureOf;
    var t := Accumulate(ViolationVisits(hash, pages));
    ListedIfFound(hash, pages, f, url);
    MergedHaveNodes(hash, pages);
    var key :| Listing(t, key, f, url);
    EntryInTable(t, key);
    var i :| 0 <= i < |t.order| && t.order[i] == key;
    x := MergedFailures(hash, pages)[i];
    EntriesHaveNoLabels(ViolationVisits(hash, pages), key);
    EntryTells(t.dict[key], f, url);
  }

  lemma EntryInTable(t: Table<AxeResult>, key: string)
    requires t.Valid() && key in t.dict
    ensures key in t.order
  {
    assert key in Elements(t.order);
  }

  lemma EntriesHaveNoLabels(visits: seq<Visit>, key: string)
    requires key in Accumulate(visits).dict
    ensures Accumulate(visits).dict[key].urlInfos == []
  {
    hide Accumulate;
    FirstSightingIsKept(visits);
  }

  lemma EntryTells(entry: AxeResult, f: Finding, url: string)
    requires Shows(entry, f) && entry.urlInfos == []
    ensures Tells(FailureOf(entry), f) && (url in entry.urls <==> Plain(url) in FailureOf(entry).urls)
    ensures forall u :: u in FailureOf(entry).urls ==> u.Plain? && u.url in entry.urls
  {
    if url in entry.urls {
      var i :| 0 <= i < |entry.urls| && entry.urls[i] == url;
      assert FailureOf(entry).urls[i] == Plain(url);
    }
  }

  lemma FailureFound(hash: Hash, pages: seq<PageResults>, x: FailureData, u: UrlRef) returns (f: Finding)
    requires Separates(hash, pages) && x in MergedFailures(hash, pages) && u in x.urls
    ensures Tells(x, f) && u.Plain? && FoundOn(pages, f, u.url)
  {
    hide Accumulate, ViolationVisits, Separates, FoundOn, Tells, FailureOf;
    var t := Accumulate(ViolationVisits(hash, pages));
    MergedHaveNodes(hash, pages);
    var failures := MergedFailures(hash, pages);
    var i :| 0 <= i < |failures| && failures[i] == x;
    var key, entry := t.order[i], t.Values()[i];
    EntriesHaveNoLabels(ViolationVisits(hash, pages), key);
    f := EntryFinding(hash, pages, key);
    EntryTells(entry, f, "");
    ListedIfFound(hash, pages, f, u.url);
    assert Listing(t, key, f, u.url);
  }

  // ----- the converter -----

  /** What an iteration over a list has still to give. */
  function Remaining(t: Table<AxeResult>, keys: seq<string>): seq<AxeResult> {
    if keys == [] then []
    else (if keys[0] in t.dict then [t.dict[keys[0]]] else []) + Remaining(t, keys[1..])
  }

  ghost predicate ValidList(list: HashSet?<AxeResult>)
    reads list
  {
    list == null || list.Valid()
  }

  function ToVisit(list: HashSet?<AxeResult>): seq<AxeResult>
    requires ValidList(list)
    reads list
  {
    if list == null then [] else Remaining(list.Contents(), list.Pending())
  }

  /** With no iteration left open, that is every entry. */
  lemma EveryEntryIsVisited(list: HashSet<AxeResult>)
    requires list.Valid() && list.keysSnapshot.None?
    ensures ToVisit(list) == list.Contents().Values()
  {
    assert forall k :: k in list.order ==> k in Elements(list.order);
    RemainingIsAll(list.Contents(), list.order);
    assert ToVisit(list) == Remaining(list.Contents(), list.order);
  }

  lemma {:induction false} RemainingIsAll(t: Table<AxeResult>, keys: seq<string>)
    requires forall k :: k in keys ==> k in t.dict
    ensures |Remaining(t, keys)| == |keys|
    ensures forall i :: 0 <= i < |keys| ==> keys[i] in t.dict && Remaining(t, keys)[i] == t.dict[keys[i]]
  {
    if keys != [] {
      RemainingIsAll(t, keys[1..]);
      assert keys[0] in keys;
    }
  }

  class CombinedReportDataConverter {
    const lower: Lower

    constructor (lower: Lower)
      ensures this.lower == lower
    {
      this.lower := lower;
    }

    /** Drains the three lists. A violation without its node makes the conversion throw. */
    method Convert(
      violations: HashSet?<AxeResult>, passes: HashSet?<AxeResult>, inapplicable: HashSet?<AxeResult>, data: ScanResultData)
      returns (r: Result<Report, string>)
      requires ValidList(violations) && ValidList(passes) && ValidList(inapplicable)
      requires violations != null && (violations == passes || violations == inapplicable) ==> violations.keysSnapshot.None?
      requires passes != null && passes == inapplicable ==> passes.keysSnapshot.None?
      modifies violations, passes, inapplicable
      ensures r.Success? <==> HaveNodes(old(ToVisit(violations)))
      ensures r.Success? ==>
        r.value == ReportOf(lower, old(ToVisit(violations)), old(ToVisit(passes)), old(ToVisit(inapplicable)), data)
    {
      hide Rules, FailedGroups, Failures, HaveNodes, Remaining;
      ghost var v, p, i := ToVisit(violations), ToVisit(passes), ToVisit(inapplicable);
      var handledRuleIds := new HashSet<string>();
      var failed := GetFailureData(violations);
      if failed.Failure? { return Failure(failed.error); }
      AddRuleIdsFromFailures(handledRuleIds, failed.value);
      FailureIds(v);
      assert handledRuleIds.Contents().dict.Keys == Ids(v);
      var passed := GetAxeRuleData(passes, handledRuleIds);
      AddRuleIdsFromRuleData(handledRuleIds, passed);
      var notApplicable := GetAxeRuleData(inapplicable, handledRuleIds);
      var failedByRule := GroupFailureDataByRule(failed.value);
      r := Success(Report(HeaderOf(data), failedByRule, passed, notApplicable));
    }

    /** One step of `for (const result of results)`. */
    method Step(results: HashSet<AxeResult>) returns (step: IteratorResult<AxeResult>)
      requires results.Valid()
      modifies results`pointer, results`keysSnapshot
      ensures results.Valid() && results.Contents() == old(results.Contents())
      ensures step.Done? ==> old(ToVisit(results)) == [] && results.keysSnapshot.None?
      ensures step.Yield? ==> old(ToVisit(results)) == (if step.value.Some? then [step.value.value] else []) + ToVisit(results)
      ensures step.Yield? ==> |results.Pending()| < |old(results.Pending())|
    {
      step := results.Next();
    }

    method GetFailureData(results: HashSet?<AxeResult>) returns (r: Result<seq<FailureData>, string>)
      requires ValidList(results)
      modifies results
      ensures r.Success? <==> HaveNodes(old(ToVisit(results)))
      ensures r.Success? ==> r.value == Failures(old(ToVisit(results)))
      ensures ValidList(results)
      ensures results != null && r.Success? ==> results.keysSnapshot.None? && results.Contents() == old(results.Contents())
    {
      hide Remaining, HaveNodes, Failures, FailureOf;
      NoFailures();
      if results == null { return Success([]); }
      r := AddFailureData(results);
    }

    /** The loop of getFailureData; an exception leaves the iteration open. */
    method AddFailureData(results: HashSet<AxeResult>) returns (r: Result<seq<FailureData>, string>)
      requires results.Valid()
      modifies results
      ensures r.Success? <==> HaveNodes(old(ToVisit(results)))
      ensures r.Success? ==> r.value == Failures(old(ToVisit(results)))
      ensures results.Valid() && (r.Success? ==> results.keysSnapshot.None?) && results.Contents() == old(results.Contents())
    {
      hide ToVisit, Remaining, HaveNodes, Failures, FailureOf, HashSet<AxeResult>.Valid, HashSet<AxeResult>.Contents,
        HashSet<AxeResult>.Pending;
      NoFailures();
      var failureData: seq<FailureData> := [];
      ghost var all, seen := ToVisit(results), [];
      while true
        invariant results.Valid() && results.Contents() == old(results.Contents())
        invariant all == seen + ToVisit(results)
        invariant HaveNodes(seen) && failureData == Failures(seen)
        decreases |results.Pending()|
      {
        var step := Step(results);
        if step.Done? { break; }
        if step.value.Some? {
          var result := step.value.value;
          assert all == (seen + [result]) + ToVisit(results);
          WithoutNode(seen, result, ToVisit(results));
          if result.junctionNode.None? {
            return Failure(TYPE_ERROR);
          }
          failureData := failureData + [FailureOf(result)];
          seen := seen + [result];
        }
      }
      assert all == seen;
      r := Success(failureData);
    }

    method AddRuleIdsFromFailures(ruleIds: HashSet<string>, failureData: seq<FailureData>)
      requires ruleIds.Valid()
      modifies ruleIds
      ensures ruleIds.Valid()
      ensures ruleIds.Contents().dict.Keys == old(ruleIds.Contents().dict.Keys) + set f | f in failureData :: f.rule.ruleId
    {
      for i := 0 to |failureData|
        invariant ruleIds.Valid()
        invariant ruleIds.Contents().dict.Keys
               == old(ruleIds.Contents().dict.Keys) + set f | f in failureData[..i] :: f.rule.ruleId
      {
        ruleIds.Add(failureData[i].rule.ruleId, failureData[i].rule.ruleId);
        assert failureData[..i + 1] == failureData[..i] + [failureData[i]];
      }
      assert failureData[..|failureData|] == failureData;
    }

    method AddRuleIdsFromRuleData(ruleIds: HashSet<string>, rules: seq<RuleData>)
      requires ruleIds.Valid()
      modifies ruleIds
      ensures ruleIds.Valid()
      ensures ruleIds.Contents().dict.Keys == old(ruleIds.Contents().dict.Keys) + RuleIds(rules)
    {
      for i := 0 to |rules|
        invariant ruleIds.Valid()
        invariant ruleIds.Contents().dict.Keys == old(ruleIds.Contents().dict.Keys) + RuleIds(rules[..i])
      {
        ruleIds.Add(rules[i].ruleId, rules[i].ruleId);
        assert rules[..i + 1] == rules[..i] + [rules[i]];
      }
      assert rules[..|rules|] == rules;
    }

    method GetAxeRuleData(results: HashSet?<AxeResult>, excludeRuleIds: HashSet<string>) returns (r: seq<RuleData>)
      requires ValidList(results) && excludeRuleIds.Valid()
      modifies results
      ensures r == Rules(old(ToVisit(results)), excludeRuleIds.Contents().dict.Keys)
      ensures ValidList(results)
      ensures results != null ==> results.keysSnapshot.None? && results.Contents() == old(results.Contents())
    {
      hide Remaining, RuleTable;
      NoRules();
      var axeRuleData := new HashSet<RuleData>();
      if results != null {
        AddRuleData(results, excludeRuleIds, axeRuleData);
      }
      var values := axeRuleData.Values();
      var list := Map((v: Option<RuleData>) => if v.Some? then v.value else RuleData("", ""), values);
      assert list == axeRuleData.Contents().Values();
      r := SortBy(CompareRuleData, list);
    }

    /** The loop of getAxeRuleData. */
    method AddRuleData(results: HashSet<AxeResult>, excludeRuleIds: HashSet<string>, axeRuleData: HashSet<RuleData>)
      requires results.Valid() && axeRuleData.Valid() && axeRuleData.Contents() == Table([], map[])
      modifies results, axeRuleData`hashDictionary, axeRuleData`order
      ensures results.Valid() && results.keysSnapshot.None? && results.Contents() == old(results.Contents())
      ensures axeRuleData.Valid()
      ensures axeRuleData.Contents() == RuleTable(old(ToVisit(results)), excludeRuleIds.Contents().dict.Keys)
    {
      hide ToVisit, Remaining, RuleTable, RuleDataOf, Table<RuleData>.Valid, Table<AxeResult>.Valid, Table<string>.Valid;
      NoRules();
      ghost var exclude := excludeRuleIds.Contents().dict.Keys;
      ghost var all, seen := ToVisit(results), [];
      while true
        invariant results.Valid() && results.Contents() == old(results.Contents()) && axeRuleData.Valid()
        invariant excludeRuleIds.Contents().dict.Keys == exclude
        invariant all == seen + ToVisit(results)
        invariant axeRuleData.Contents() == RuleTable(seen, exclude)
        decreases |results.Pending()|
      {
        var step := Step(results);
        if step.Done? { break; }
        if step.value.Some? {
          AddRule(axeRuleData, excludeRuleIds, seen, step.value.value);
          assert all == (seen + [step.value.value]) + ToVisit(results);
          seen := seen + [step.value.value];
        }
      }
      assert all == seen;
    }

    method AddRule(axeRuleData: HashSet<RuleData>, excludeRuleIds: HashSet<string>, ghost seen: seq<AxeResult>, result: AxeResult)
      requires axeRuleData.Valid() && axeRuleData.Contents() == RuleTable(seen, excludeRuleIds.Contents().dict.Keys)
      modifies axeRuleData`hashDictionary, axeRuleData`order
      ensures axeRuleData.Valid()
      ensures axeRuleData.Contents() == RuleTable(seen + [result], excludeRuleIds.Contents().dict.Keys)
    {
      hide RuleTable, RuleDataOf;
      RuleTableSnoc(seen, result, excludeRuleIds.Contents().dict.Keys);
      var listed := axeRuleData.Has(result.id);
      var excluded := excludeRuleIds.Has(result.id);
      if !listed && !excluded {
        axeRuleData.Add(result.id, RuleDataOf(result));
      }
    }

    method GroupFailureDataByRule(failureData: seq<FailureData>) returns (groups: seq<FailuresGroup>)
      ensures groups == FailedGroups(lower, failureData)
    {
      hide SortBy, Filter, FirstSeen;
      NoKeys(lower);
      var failuresByRule: map<string, seq<FailureData>> := map[];
      var order: seq<string> := [];
      for i := 0 to |failureData|
        invariant order == FirstSeen(Keys(lower, failureData[..i]))
        invariant forall k :: k in order <==> k in failuresByRule
        invariant forall k :: k in order ==> failuresByRule[k] == Filter(HasKey(lower, k), failureData[..i])
      {
        var failure := failureData[i];
        var key := lower(failure.rule.ruleId);
        OneMoreFailure(lower, failureData[..i], failure);
        assert failureData[..i + 1] == failureData[..i] + [failure];
        if key in failuresByRule {
          failuresByRule := failuresByRule[key := failuresByRule[key] + [failure]];
        } else {
          order := order + [key];
          failuresByRule := failuresByRule[key := [failure]];
        }
      }
      assert failureData[..|failureData|] == failureData;
      groups := [];
      for i := 0 to |order|
        invariant |groups| == i && forall k :: 0 <= k < i ==> groups[k] == Group(lower, failureData, order[k])
      {
        groups := groups + [FailuresGroup(order[i], SortBy(CompareFailureData, failuresByRule[order[i]]))];
      }
      assert groups == Groups(lower, failureData);
      groups := SortFailuresGroups(groups);
    }

    method SortFailuresGroups(failuresGroups: seq<FailuresGroup>) returns (groups: seq<FailuresGroup>)
      ensures groups == SortedGroups(failuresGroups)
    {
      var sortable: seq<SortableGroup> := [];
      for i := 0 to |failuresGroups|
        invariant |sortable| == i && forall k :: 0 <= k < i ==> sortable[k] == WithCount(failuresGroups[k])
      {
        var failed, instancesCount := failuresGroups[i].failed, 0;
        for j := 0 to |failed|
          invariant instancesCount == UrlsIn(failed[..j])
        {
          assert failed[..j + 1][..j] == failed[..j];
          instancesCount := instancesCount + |failed[j].urls|;
        }
        assert failed[..|failed|] == failed;
        sortable := sortable + [SortableGroup(failuresGroups[i], instancesCount)];
      }
      assert sortable == Map(WithCount, failuresGroups);
      groups := Map(Unwrapped, SortBy(CompareFailureGroup, sortable));
    }
  }

  lemma NoFailures()
    ensures HaveNodes([]) && Failures([]) == []
  {}

  lemma NoRules()
    ensures forall exclude :: RuleTable([], exclude) == Table([], map[])
  {}

  lemma NoKeys(lower: Lower)
    ensures FirstSeen(Keys(lower, [])) == []
  {}

  lemma WithoutNode(seen: seq<AxeResult>, result: AxeResult, rest: seq<AxeResult>)
    requires HaveNodes(seen)
    ensures if result.junctionNode.None? then !HaveNodes((seen + [result]) + rest)
            else HaveNodes(seen + [result]) && Failures(seen + [result]) == Failures(seen) + [FailureOf(result)]
  {
    assert result in (seen + [result]) + rest;
  }

  lemma FailureIds(violations: seq<AxeResult>)
    requires HaveNodes(violations)
    ensures (set f | f in Failures(violations) :: f.rule.ruleId) == Ids(violations)
  {
    var failures := Failures(violations);
    forall id | id in Ids(violations) ensures id in set f | f in failures :: f.rule.ruleId {
      var i :| 0 <= i < |violations| && violations[i].id == id;
      assert failures[i] in failures;
    }
  }

  lemma OneMoreFailure(lower: Lower, failures: seq<FailureData>, f: FailureData)
    ensures FirstSeen(Keys(lower, failures + [f])) == PushNew(FirstSeen(Keys(lower, failures)), lower(f.rule.ruleId))
    ensures forall k :: Filter(HasKey(lower, k), failures + [f])
                     == Filter(HasKey(lower, k), failures) + if k == lower(f.rule.ruleId) then [f] else []
    ensures lower(f.rule.ruleId) !in FirstSeen(Keys(lower, failures)) ==>
      Filter(HasKey(lower, lower(f.rule.ruleId)), failures) == []
  {
    hide Filter, FirstSeen, HasKey, Keys;
    OneMoreKey(lower, failures, f);
    forall k ensures Filter(HasKey(lower, k), failures + [f])
                  == Filter(HasKey(lower, k), failures) + if k == lower(f.rule.ruleId) then [f] else [] {
      FilterAppend(HasKey(lower, k), failures, [f]);
      OnlyFailure(lower, k, f);
    }
    NoneUnderNewKey(lower, failures, lower(f.rule.ruleId));
  }

  lemma OneMoreKey(lower: Lower, failures: seq<FailureData>, f: FailureData)
    ensures FirstSeen(Keys(lower, failures + [f])) == PushNew(FirstSeen(Keys(lower, failures)), lower(f.rule.ruleId))
  {
    MapAppend((x: FailureData) => lower(x.rule.ruleId), failures, [f]);
    FirstSeenSnoc(Keys(lower, failures), lower(f.rule.ruleId));
    assert Keys(lower, failures + [f]) == Keys(lower, failures) + [lower(f.rule.ruleId)];
  }

  lemma OnlyFailure(lower: Lower, key: string, f: FailureData)
    ensures Filter(HasKey(lower, key), [f]) == if key == lower(f.rule.ruleId) then [f] else []
  {
    assert [f][1..] == [];
  }

  lemma NoneUnderNewKey(lower: Lower, failures: seq<FailureData>, key: string)
    ensures key !in FirstSeen(Keys(lower, failures)) ==> Filter(HasKey(lower, key), failures) == []
  {
    KeysCover(lower, failures);
    var some := Filter(HasKey(lower, key), failures);
    FilterMembers(HasKey(lower, key), failures);
    if some != [] { assert some[0] in some; }
  }
}
