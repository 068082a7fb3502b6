/** When the engine is right for every baseline, what it leaves in every entry, and what a second run reports. */
module BaselineExactness {
  import opened Common
  import opened Ordering
  import opened HashSets
  import opened AxeResults
  import opened BaselineGeneration
  import opened BaselineComparison
  import opened BaselineTheorems

  const NOTHING := Evaluation(None, NO_COUNTS, NO_COUNTS, Some(0))

  // ----- one order is needed, and enough -----

  ghost predicate CountsExact(collate: Collation, before: seq<BaselineResult>, after: seq<BaselineResult>) {
    var e := Tally(collate, before, after, NOTHING);
    e.fixedViolations.total == |Pairs(before) - Pairs(after)| && e.newViolations.total == |Pairs(after) - Pairs(before)|
  }

  /** A baseline the generator could write, with keys taken from `keys`. */
  ghost predicate Admissible(rows: seq<BaselineResult>, keys: set<ViolationKey>) {
    WellFormed(rows) && DistinctUrls(rows) && forall row :: row in rows ==> row.key in keys
  }

  ghost predicate AlwaysExact(collate: Collation, keys: set<ViolationKey>) {
    forall before, after :: Admissible(before, keys) && Admissible(after, keys) ==> CountsExact(collate, before, after)
  }

  /** The engine counts right on every pair of generated baselines over some keys if and only if its comparison and the
      generator's sort order agree on every two of these keys. */
  lemma ExactIffOrdersAgree(collate: Collation, keys: set<ViolationKey>)
    ensures AlwaysExact(collate, keys) <==> forall a, b :: a in keys && b in keys ==> Agree(collate, a, b)
  {
    if forall a, b :: a in keys && b in keys ==> Agree(collate, a, b) {
      forall before, after | Admissible(before, keys) && Admissible(after, keys) ensures CountsExact(collate, before, after) {
        AgreementSuffices(collate, before, after);
      }
    }
    forall a, b | a in keys && b in keys && !Agree(collate, a, b) ensures !AlwaysExact(collate, keys) {
      var before, after := Miscounted(collate, a, b);
      assert Admissible(before, keys) && Admissible(after, keys);
    }
  }

  lemma AgreementSuffices(collate: Collation, before: seq<BaselineResult>, after: seq<BaselineResult>)
    requires WellFormed(before) && WellFormed(after) && DistinctUrls(before) && DistinctUrls(after)
    requires AgreeOn(collate, before, after)
    ensures CountsExact(collate, before, after)
  {
    hide Tally, Pairs, WellFormed, DistinctUrls, AgreeOn, LoneRepeats, SharedRepeats;
    NoRepeats(before, after, None);
    NoRepeats(after, before, None);
    TallyIsSetDifference(collate, before, after, NOTHING, None);
    AllRules(Pairs(before) - Pairs(after));
    AllRules(Pairs(after) - Pairs(before));
  }

  function SampleRow(key: ViolationKey): BaselineResult { BaselineResult(key, ["url"]) }

  lemma SamplePairs(a: ViolationKey, b: ViolationKey)
    ensures Pairs([SampleRow(a)]) == {(a, "url")}
    ensures Pairs([SampleRow(a), SampleRow(b)]) == {(a, "url"), (b, "url")}
  {
    assert RowPairs(SampleRow(a)) == {(a, "url")} && RowPairs(SampleRow(b)) == {(b, "url")};
    assert [SampleRow(a)][1..] == [] && [SampleRow(b)][1..] == [] && [SampleRow(a), SampleRow(b)][1..] == [SampleRow(b)];
  }

  lemma SamplesAdmissible(a: ViolationKey, b: ViolationKey, keys: set<ViolationKey>)
    requires a in keys && b in keys
    ensures Admissible([SampleRow(a)], keys)
    ensures GeneratorOrder(a, b) < 0 ==> Admissible([SampleRow(a), SampleRow(b)], keys)
  {}

  /** Wherever the two orders disagree on a pair of keys, two generated baselines over these keys are miscounted. */
  lemma Miscounted(collate: Collation, a: ViolationKey, b: ViolationKey)
    returns (before: seq<BaselineResult>, after: seq<BaselineResult>)
    requires !Agree(collate, a, b)
    ensures Admissible(before, {a, b}) && Admissible(after, {a, b}) && !CountsExact(collate, before, after)
  {
    hide EngineOrder, GeneratorOrder, Admissible;
    var rowA, rowB := SampleRow(a), SampleRow(b);
    GeneratorOrderFacts(a, b);
    SamplesAdmissible(a, b, {a, b});
    SamplesAdmissible(b, a, {a, b});
    SamplePairs(a, b);
    SamplePairs(b, a);
    var engine := EngineOrder(collate, a, b);
    if engine == 0 || a == b {
      before, after := [rowA], [rowB];
      OneAgainstOne(collate, rowA, rowB);
    } else if engine > 0 {
      before, after := [rowA, rowB], [rowB];
      assert before[1..] == [rowB];
      TallyNewFirst(collate, before, after);
    } else {
      before, after := [rowA], [rowB, rowA];
      TallyOldFirst(collate, before, after);
    }
  }

  lemma OneAgainstOne(collate: Collation, a: BaselineResult, b: BaselineResult)
    requires a.urls == b.urls == ["url"]
    ensures var e := Tally(collate, [a], [b], NOTHING);
      if EngineOrder(collate, a.key, b.key) == 0 then e.newViolations.total == 0 else e.newViolations.total == 1
  {
    hide EngineOrder;
    assert [a][1..] == [] && [b][1..] == [];
    var e1 := AddFixed(NOTHING, a);
    assert Tally(collate, [], [b], e1) == Tally(collate, [], [], AddNew(e1, b));
    var e2 := AddNew(NOTHING, b);
    assert Tally(collate, [a], [], e2) == Tally(collate, [], [], AddFixed(e2, a));
  }

  /** Totals never fall while rows are left on one side only. */
  lemma {:induction false} TallyNewFirst(collate: Collation, before: seq<BaselineResult>, after: seq<BaselineResult>)
    requires before != [] && |after| == 1 && |after[0].urls| == 1 && EngineOrder(collate, before[0].key, after[0].key) > 0
    ensures Tally(collate, before, after, NOTHING).newViolations.total == 1
  {
    assert after[1..] == [];
    OldRowsLeft(collate, before, AddNew(NOTHING, after[0]));
  }

  lemma {:induction false} OldRowsLeft(collate: Collation, before: seq<BaselineResult>, e: Evaluation)
    ensures Tally(collate, before, [], e).newViolations == e.newViolations
  {
    if before != [] { OldRowsLeft(collate, before[1..], AddFixed(e, before[0])); }
  }

  lemma {:induction false} TallyOldFirst(collate: Collation, before: seq<BaselineResult>, after: seq<BaselineResult>)
    requires after != [] && |before| == 1 && |before[0].urls| == 1 && EngineOrder(collate, before[0].key, after[0].key) < 0
    ensures Tally(collate, before, after, NOTHING).fixedViolations.total == 1
  {
    assert before[1..] == [];
    NewRowsLeft(collate, after, AddFixed(NOTHING, before[0]));
  }

  lemma {:induction false} NewRowsLeft(collate: Collation, after: seq<BaselineResult>, e: Evaluation)
    ensures Tally(collate, [], after, e).fixedViolations == e.fixedViolations
  {
    if after != [] { NewRowsLeft(collate, after[1..], AddNew(e, after[0])); }
  }

  // ----- the labels need it too -----

  /** Sorted rows with keys from `keys`. */
  ghost predicate Over(rows: seq<BaselineResult>, keys: set<ViolationKey>) {
    WellFormed(rows) && forall row :: row in rows ==> row.key in keys
  }

  /** For all sorted baselines over some keys, and all results that store the new rows apart, every new row ends with its true
      labels. */
  ghost predicate AlwaysLabelled(collate: Collation, hash: Hash, keys: set<ViolationKey>) {
    forall before, after, t :: Over(before, keys) && Over(after, keys)
                               && Stored(hash, t, after) && DistinctFingerprints(hash, after)
      ==> Labelled(hash, Relabel(collate, hash, before, after, t), after, Pairs(before))
  }

  function KeyFingerprint(hash: Hash, key: ViolationKey): string { RowFingerprint(hash, BaselineResult(key, [])) }

  /** The labels are right for all sorted baselines over some keys if and only if the two orders agree on every two of these
      keys; only that they are wrong otherwise needs a hash that tells the keys apart. */
  lemma LabelledIffOrdersAgree(collate: Collation, hash: Hash, keys: set<ViolationKey>)
    requires forall a, b :: a in keys && b in keys && KeyFingerprint(hash, a) == KeyFingerprint(hash, b) ==> a == b
    ensures AlwaysLabelled(collate, hash, keys) <==> forall a, b :: a in keys && b in keys ==> Agree(collate, a, b)
  {
    hide Agree, Over, Stored, DistinctFingerprints, Labelled, Relabel, Pairs, KeyFingerprint;
    if forall a, b :: a in keys && b in keys ==> Agree(collate, a, b) {
      forall before, after, t | Over(before, keys) && Over(after, keys)
                                && Stored(hash, t, after) && DistinctFingerprints(hash, after)
        ensures Labelled(hash, Relabel(collate, hash, before, after, t), after, Pairs(before))
      {
        AgreementLabels(collate, hash, keys, before, after, t);
      }
    }
    forall a, b | a in keys && b in keys && !Agree(collate, a, b) ensures !AlwaysLabelled(collate, hash, keys) {
      var t := StoringBoth(hash, a, b);
      var before, after := Mislabelled(collate, hash, a, b, t);
      OverMore(before, {a, b}, keys);
      OverMore(after, {a, b}, keys);
    }
  }

  lemma OverMore(rows: seq<BaselineResult>, some: set<ViolationKey>, keys: set<ViolationKey>)
    requires Over(rows, some) && some <= keys
    ensures Over(rows, keys)
  {}

  lemma AgreementLabels(collate: Collation, hash: Hash, keys: set<ViolationKey>, before: seq<BaselineResult>,
                        after: seq<BaselineResult>, t: Table<AxeResult>)
    requires forall a, b :: a in keys && b in keys ==> Agree(collate, a, b)
    requires Over(before, keys) && Over(after, keys) && Stored(hash, t, after) && DistinctFingerprints(hash, after)
    ensures Labelled(hash, Relabel(collate, hash, before, after, t), after, Pairs(before))
  {
    hide Agree, WellFormed, Stored, DistinctFingerprints, Labelled, Relabel, Pairs;
    RelabelWritesTrueLabels(collate, hash, before, after, t);
  }

  /** Some results that hold an entry for each of two keys. */
  lemma StoringBoth(hash: Hash, a: ViolationKey, b: ViolationKey) returns (t: Table<AxeResult>)
    ensures Stored(hash, t, [SampleRow(a), SampleRow(b)])
  {
    var entry := AxeResult("", "", [], [], None, "");
    var fa, fb := RowFingerprint(hash, SampleRow(a)), RowFingerprint(hash, SampleRow(b));
    t := Table([fa, fb], map[fa := entry, fb := entry]);
  }

  lemma SamplesOver(hash: Hash, a: ViolationKey, b: ViolationKey, t: Table<AxeResult>)
    requires Stored(hash, t, [SampleRow(a), SampleRow(b)])
    ensures Over([SampleRow(a)], {a, b}) && Over([SampleRow(b)], {a, b})
    ensures Stored(hash, t, [SampleRow(a)]) && Stored(hash, t, [SampleRow(b)]) && Stored(hash, t, [SampleRow(b), SampleRow(a)])
    ensures DistinctFingerprints(hash, [SampleRow(a)]) && DistinctFingerprints(hash, [SampleRow(b)])
    ensures GeneratorOrder(a, b) < 0 ==> Over([SampleRow(a), SampleRow(b)], {a, b})
    ensures GeneratorOrder(b, a) < 0 ==> Over([SampleRow(b), SampleRow(a)], {a, b})
    ensures KeyFingerprint(hash, a) != KeyFingerprint(hash, b) ==> DistinctFingerprints(hash, [SampleRow(b), SampleRow(a)])
  {
    hide GeneratorOrder, GetFingerprint;
    var rows := [SampleRow(a), SampleRow(b)];
    assert rows[0] in rows && rows[1] in rows;
  }

  /** Wherever the two orders disagree on a pair of keys, some new row over these keys ends with wrong labels. */
  lemma Mislabelled(collate: Collation, hash: Hash, a: ViolationKey, b: ViolationKey, t: Table<AxeResult>)
    returns (before: seq<BaselineResult>, after: seq<BaselineResult>)
    requires !Agree(collate, a, b) && Stored(hash, t, [SampleRow(a), SampleRow(b)])
    requires KeyFingerprint(hash, a) == KeyFingerprint(hash, b) ==> a == b
    ensures Over(before, {a, b}) && Over(after, {a, b}) && Stored(hash, t, after) && DistinctFingerprints(hash, after)
    ensures !Labelled(hash, Relabel(collate, hash, before, after, t), after, Pairs(before))
  {
    hide EngineOrder, GeneratorOrder, Over, Stored, DistinctFingerprints, Labelled, Relabel, Pairs, KeyFingerprint;
    var rowA, rowB := SampleRow(a), SampleRow(b);
    GeneratorOrderFacts(a, b);
    SamplesOver(hash, a, b, t);
    SamplePairs(a, b);
    var engine := EngineOrder(collate, a, b);
    if engine == 0 {
      before, after := [rowA], [rowB];
      SharedLabel(collate, hash, a, b, t);
    } else if engine > 0 {
      before, after := if a == b then [rowA] else [rowA, rowB], [rowB];
      NewFirstLabel(collate, hash, before, b, t);
    } else {
      before, after := [rowA], if a == b then [rowA] else [rowB, rowA];
      OldFirstLabels(collate, hash, a, after, t);
    }
  }

  /** Rows of different keys taken for one: the new URL is marked existing. */
  lemma SharedLabel(collate: Collation, hash: Hash, a: ViolationKey, b: ViolationKey, t: Table<AxeResult>)
    requires a != b && EngineOrder(collate, a, b) == 0 && Stored(hash, t, [SampleRow(b)])
    ensures !Labelled(hash, Relabel(collate, hash, [SampleRow(a)], [SampleRow(b)], t), [SampleRow(b)], Pairs([SampleRow(a)]))
  {
    hide EngineOrder, RowFingerprint;
    var rowA, rowB := SampleRow(a), SampleRow(b);
    assert [rowA][1..] == [] && [rowB][1..] == [] && rowB in [rowB];
    SamplePairs(a, b);
    var newUrls := CompareUrls(rowA.urls, rowB.urls).newUrls;
    assert newUrls == {};
    assert Relabel(collate, hash, [rowA], [rowB], t) == UpdateAxeResults(hash, t, rowB, Some(newUrls));
    assert BuildUrlInfos(rowB.urls, Some(newUrls))[0].baselineStatus == ExistingStatus;
    assert TrueLabels(rowB, Pairs([rowA]))[0].baselineStatus == NewStatus;
  }

  lemma {:induction false} OldRowsRelabelNothing(collate: Collation, hash: Hash, before: seq<BaselineResult>, t: Table<AxeResult>)
    ensures Relabel(collate, hash, before, [], t) == t
  {
    if before != [] { OldRowsRelabelNothing(collate, hash, before[1..], t); }
  }

  /** A known row taken for a new one: the known URL is marked new. */
  lemma NewFirstLabel(collate: Collation, hash: Hash, before: seq<BaselineResult>, b: ViolationKey, t: Table<AxeResult>)
    requires before != [] && EngineOrder(collate, before[0].key, b) > 0 && (b, "url") in Pairs(before)
    requires Stored(hash, t, [SampleRow(b)])
    ensures !Labelled(hash, Relabel(collate, hash, before, [SampleRow(b)], t), [SampleRow(b)], Pairs(before))
  {
    hide EngineOrder, RowFingerprint, Pairs;
    var rowB := SampleRow(b);
    assert [rowB][1..] == [] && rowB in [rowB];
    var r := UpdateAxeResults(hash, t, rowB, None);
    OldRowsRelabelNothing(collate, hash, before, r);
    assert Relabel(collate, hash, before, [rowB], t) == r;
    assert BuildUrlInfos(rowB.urls, None)[0].baselineStatus == NewStatus;
    assert TrueLabels(rowB, Pairs(before))[0].baselineStatus == ExistingStatus;
  }

  /** A known row left behind: when its new row comes, the known URL is marked new. */
  lemma OldFirstLabels(collate: Collation, hash: Hash, a: ViolationKey, after: seq<BaselineResult>, t: Table<AxeResult>)
    requires after != [] && EngineOrder(collate, a, after[0].key) < 0 && SampleRow(a) in after
    requires WellFormed(after) && Stored(hash, t, after) && DistinctFingerprints(hash, after)
    ensures !Labelled(hash, Relabel(collate, hash, [SampleRow(a)], after, t), after, Pairs([SampleRow(a)]))
  {
    hide EngineOrder, RowFingerprint, DistinctFingerprints, Stored;
    var rowA := SampleRow(a);
    SamplePairs(a, a);
    assert [rowA][1..] == [];
    RelabelWritesTrueLabels(collate, hash, [], after, t);
    var r := Relabel(collate, hash, [], after, t);
    assert Relabel(collate, hash, [rowA], after, t) == r;
    assert TrueLabels(rowA, Pairs([]))[0].baselineStatus == NewStatus;
    assert TrueLabels(rowA, Pairs([rowA]))[0].baselineStatus == ExistingStatus;
  }

  predicate NoEmptyStrings(key: ViolationKey) {
    key.rule != "" && key.cssSelector != "" && key.xpathSelector != Some("") && key.htmlSnippet != ""
  }

  /** A collation that orders strings as JavaScript `<` does agrees on all keys without empty strings. */
  lemma CodeUnitCollationAgrees(collate: Collation, a: ViolationKey, b: ViolationKey)
    requires forall x, y :: Sign(collate(x, y)) == CompareText(x, y)
    requires NoEmptyStrings(a) && NoEmptyStrings(b)
    ensures Agree(collate, a, b)
  {
    CompareTextFacts(a.rule, b.rule);
    CompareTextFacts(a.cssSelector, b.cssSelector);
    CompareTextFacts(a.htmlSnippet, b.htmlSnippet);
    if a.xpathSelector.Some? && b.xpathSelector.Some? {
      CompareTextFacts(a.xpathSelector.value, b.xpathSelector.value);
    }
  }

  /** A collation that puts "a" before "B", as locale collations do, miscounts some generated baselines. */
  lemma LocaleCollationMiscounts(collate: Collation, key: ViolationKey)
    requires collate("B", "a") > 0 && collate(key.rule, key.rule) == 0
    ensures !AlwaysExact(collate, {key.(cssSelector := "B"), key.(cssSelector := "a")})
  {
    var b, a := key.(cssSelector := "B"), key.(cssSelector := "a");
    assert CompareText("B", "a") == -1;
    CompareTextFacts(key.rule, key.rule);
    assert !Agree(collate, b, a);
    ExactIffOrdersAgree(collate, {b, a});
  }

  /** An empty snippet is sorted first and compared as missing, hence last: such baselines are miscounted under every
      collation. */
  lemma EmptySnippetMiscounts(collate: Collation, key: ViolationKey, snippet: string)
    requires snippet != "" && EngineOrder(collate, key.(htmlSnippet := ""), key.(htmlSnippet := "")) == 0
    ensures !AlwaysExact(collate, {key.(htmlSnippet := ""), key.(htmlSnippet := snippet)})
  {
    var a, b := key.(htmlSnippet := ""), key.(htmlSnippet := snippet);
    CompareTextFacts(key.rule, key.rule);
    CompareTextFacts(key.cssSelector, key.cssSelector);
    if key.xpathSelector.Some? { CompareTextFacts(key.xpathSelector.value, key.xpathSelector.value); }
    assert GeneratorOrder(a, b) == -1;
    assert EngineOrder(collate, a, b) == 1;
    assert !Agree(collate, a, b);
    ExactIffOrdersAgree(collate, {a, b});
  }

  // ----- what the engine leaves in every entry -----

  lemma RowFingerprintsDistinct(hash: Hash, t: Table<AxeResult>, normalizer: Option<UrlNormalizer>, rows: seq<BaselineResult>)
    requires WellFormed(rows) && OneRowPerEntry(hash, t, normalizer, rows)
    ensures Stored(hash, t, rows) && DistinctFingerprints(hash, rows)
  {
    hide RowFingerprint, CombinedViolationToBaselineResult, GeneratorOrder;
    forall i, j | 0 <= i < j < |rows| ensures RowFingerprint(hash, rows[i]) != RowFingerprint(hash, rows[j]) {
      assert RowOf(hash, t, normalizer, rows[i]) && RowOf(hash, t, normalizer, rows[j]);
      assert CompareRows(rows[i], rows[j]) < 0;
      GeneratorOrderFacts(rows[i].key, rows[j].key);
    }
  }

  lemma BaselineSucceeds(hash: Hash, t: Table<AxeResult>, normalizer: Option<UrlNormalizer>)
    requires t.Valid() && KeyedByFingerprint(hash, t)
    ensures RowsFound(hash, t) && Baseline(t.Values(), normalizer).Success?
  {
    hide HashesTo, CombinedViolationToBaselineResult;
    KeyedRowsFound(hash, t);
    ToRowsPointwise(t.Values(), normalizer);
  }

  /** On accumulated results with no iteration left open the engine never throws, whatever pages, normaliser and old baseline:
      the baseline is generated, and the entry of each of its rows is found. */
  lemma EngineNeverThrows(hash: Hash, pages: seq<PageResults>, normalizer: Option<UrlNormalizer>)
    ensures var t := Accumulate(ViolationVisits(hash, pages));
      var generated := BaselineOf(Visited(t, t.order), normalizer);
      generated.Success? && Stored(hash, t, generated.value.results)
  {
    hide Accumulate, ViolationVisits, BaselineOf, Baseline, Visited, KeyedByFingerprint, RowsFound, WellFormed, OneRowPerEntry,
      RowFingerprint, RowOf;
    var visits := ViolationVisits(hash, pages);
    var t := Accumulate(visits);
    AccumulateRefines(visits, "");
    AccumulatedKeyed(hash, pages);
    BaselineOfAll(t, normalizer);
    BaselineSucceeds(hash, t, normalizer);
    BaselineRows(hash, t, normalizer);
    RowFingerprintsDistinct(hash, t, normalizer, Baseline(t.Values(), normalizer).value.results);
  }

  /** The entry found under a fingerprint, with the labels the old pairs call for. */
  ghost predicate HasTrueLabels(
    before: AxeResult, after: AxeResult, normalizer: Option<UrlNormalizer>, oldPairs: set<Pair>)
  {
    && CombinedViolationToBaselineResult(before, normalizer).Success?
    && after == before.(urlInfos := TrueLabels(CombinedViolationToBaselineResult(before, normalizer).value, oldPairs))
  }

  /** After a run, each entry carries one label for each of its normalised URLs, in sorted order, marked existing exactly
      when the old baseline had that (violation, URL) pair; nothing else in any entry has changed. */
  lemma EngineLabelsEveryEntry(
    collate: Collation, hash: Hash, t: Table<AxeResult>, normalizer: Option<UrlNormalizer>, before: seq<BaselineResult>,
    generated: BaselineFileContent, fingerprint: string)
    requires t.Valid() && KeyedByFingerprint(hash, t) && fingerprint in t.dict
    requires Baseline(t.Values(), normalizer) == Success(generated)
    requires WellFormed(before) && AgreeOn(collate, before, generated.results)
    ensures Stored(hash, t, generated.results)
    ensures var r := Relabel(collate, hash, before, generated.results, t);
      && r.order == t.order && fingerprint in r.dict
      && HasTrueLabels(t.dict[fingerprint], r.dict[fingerprint], normalizer, Pairs(before))
  {
    hide CombinedViolationToBaselineResult, RowFingerprint, WellFormed, AgreeOn, HashesTo, TrueLabels, Relabel, Pairs;
    BaselineSucceeds(hash, t, normalizer);
    BaselineRows(hash, t, normalizer);
    RowFingerprintsDistinct(hash, t, normalizer, generated.results);
    RelabelWritesTrueLabels(collate, hash, before, generated.results, t);
    var r := Relabel(collate, hash, before, generated.results, t);
    var row :| row in generated.results && RowFingerprint(hash, row) == fingerprint;
    assert RowOf(hash, t, normalizer, row);
    SameButLabels(t.dict[fingerprint], r.dict[fingerprint], TrueLabels(row, Pairs(before)));
  }

  lemma SameButLabels(a: AxeResult, b: AxeResult, labels: seq<UrlInfo>)
    requires b.(urlInfos := []) == a.(urlInfos := []) && b.urlInfos == labels
    ensures b == a.(urlInfos := labels)
  {
    assert b.(urlInfos := []).id == b.id && b.(urlInfos := []).details == b.details && b.(urlInfos := []).urls == b.urls;
    assert b.(urlInfos := []).junctionNode == b.junctionNode && b.(urlInfos := []).fingerprint == b.fingerprint;
  }

  // ----- running again -----

  /** Labels play no part in generating a baseline. */
  lemma {:induction false} ToRowsIgnoresLabels(a: seq<AxeResult>, b: seq<AxeResult>, normalizer: Option<UrlNormalizer>)
    requires |a| == |b| && forall i :: 0 <= i < |a| ==> a[i].(urlInfos := []) == b[i].(urlInfos := [])
    ensures ToRows(a, normalizer) == ToRows(b, normalizer)
  {
    if a != [] {
      SameButLabels(a[0], b[0], b[0].urlInfos);
      ToRowsIgnoresLabels(a[1..], b[1..], normalizer);
    }
  }

  lemma RelabelKeepsBaseline(hash: Hash, t: Table<AxeResult>, r: Table<AxeResult>, rows: seq<BaselineResult>,
                             normalizer: Option<UrlNormalizer>)
    requires t.Valid() && OnlyLabelsDiffer(hash, t, r, rows)
    ensures r.Valid() && Baseline(r.Values(), normalizer) == Baseline(t.Values(), normalizer)
    ensures KeyedByFingerprint(hash, t) ==> KeyedByFingerprint(hash, r)
  {
    ToRowsIgnoresLabels(t.Values(), r.Values(), normalizer);
    forall f | f in t.dict ensures r.dict[f].junctionNode == t.dict[f].junctionNode && r.dict[f].id == t.dict[f].id {
      SameButLabels(t.dict[f], r.dict[f], r.dict[f].urlInfos);
    }
  }

  lemma {:induction false} AllKnownCounted(urls: seq<string>, known: set<string>)
    requires forall u :: u in urls ==> u in known
    ensures CountIn(urls, known) == |urls|
  {
    if urls != [] { AllKnownCounted(urls[..|urls| - 1], known); }
  }

  ghost predicate ReflexiveOn(collate: Collation, rows: seq<BaselineResult>) {
    forall row :: row in rows ==> EngineOrder(collate, row.key, row.key) == 0
  }

  lemma SelfStep(row: BaselineResult, e: Evaluation)
    ensures AddBoth(e, row, row).newViolations == e.newViolations
    ensures AddBoth(e, row, row).fixedViolations.total == e.fixedViolations.total - (|row.urls| - |Elements(row.urls)|)
    ensures Distinct(row.urls) ==> AddBoth(e, row, row).fixedViolations == e.fixedViolations
    ensures AddBoth(e, row, row).totalBaseline == AddBaseline(e.totalBaseline, |row.urls|)
  {
    AllKnownCounted(row.urls, Elements(row.urls));
    if Distinct(row.urls) { DistinctCardinality(row.urls); }
  }

  /** Comparing rows with themselves finds nothing new; it counts one fixed URL too few for each repeated URL. */
  lemma {:induction false} SelfComparison(collate: Collation, rows: seq<BaselineResult>, e: Evaluation)
    requires ReflexiveOn(collate, rows)
    ensures Tally(collate, rows, rows, e).newViolations == e.newViolations
    ensures Tally(collate, rows, rows, e).fixedViolations.total == e.fixedViolations.total - Repeats(rows)
    ensures DistinctUrls(rows) ==> Tally(collate, rows, rows, e).fixedViolations == e.fixedViolations
  {
    if rows != [] {
      hide AddBoth, EngineOrder;
      assert rows[0] in rows;
      SelfStep(rows[0], e);
      SelfComparison(collate, rows[1..], AddBoth(e, rows[0], rows[0]));
    }
  }

  lemma {:induction false} SelfRelabel(collate: Collation, hash: Hash, rows: seq<BaselineResult>, t: Table<AxeResult>)
    requires WellFormed(rows) && ReflexiveOn(collate, rows)
    requires Stored(hash, t, rows) && DistinctFingerprints(hash, rows)
    ensures var r := Relabel(collate, hash, rows, rows, t);
      OnlyLabelsDiffer(hash, t, r, rows) && Labelled(hash, r, rows, Pairs(rows))
  {
    if rows != [] {
      hide EngineOrder, GeneratorOrder, RowFingerprint, UpdateAxeResults, OnlyLabelsDiffer, Labelled, Pairs, CompareUrls;
      SortedTail(rows);
      assert rows[0] in rows;
      var newUrls := Some(CompareUrls(rows[0].urls, rows[0].urls).newUrls);
      UpdateKeepsStored(hash, t, rows[0], newUrls, rows);
      var next := UpdateAxeResults(hash, t, rows[0], newUrls);
      SelfRelabel(collate, hash, rows[1..], next);
      SharedRowStep(hash, rows, rows, t, Relabel(collate, hash, rows, rows, t));
    }
  }

  lemma {:induction false} OwnPairs(rows: seq<BaselineResult>, row: BaselineResult, url: string)
    requires row in rows && url in row.urls
    ensures (row.key, url) in Pairs(rows)
  {
    if rows[0] != row {
      assert row in rows[1..];
      OwnPairs(rows[1..], row, url);
    }
  }

  function AllExisting(urls: seq<string>): seq<UrlInfo> { Map(url => UrlInfo(url, ExistingStatus), urls) }

  lemma SelfEvaluation(collate: Collation, generated: BaselineFileContent)
    requires ReflexiveOn(collate, generated.results)
    ensures var again := Evaluate(collate, Some(generated), generated);
      && (again.suggestedBaselineUpdate.None? <==> DistinctUrls(generated.results))
      && (DistinctUrls(generated.results) ==> again.fixedViolations == again.newViolations == NO_COUNTS)
  {
    hide Tally, Repeats, DistinctUrls, ReflexiveOn;
    var start := Start(Some(generated), generated);
    SelfComparison(collate, generated.results, start);
    TallyKeepsSuggestion(collate, generated.results, generated.results, start);
    RepeatsFacts(generated.results);
  }

  /** No entry has two URLs that the normaliser makes one. */
  ghost predicate UrlsStayDistinct(t: Table<AxeResult>, normalizer: Option<UrlNormalizer>) {
    forall f :: f in t.dict ==> Distinct(NormalizedUrls(t.dict[f].urls, normalizer))
  }

  lemma RowUrls(hash: Hash, t: Table<AxeResult>, normalizer: Option<UrlNormalizer>, row: BaselineResult)
    requires RowOf(hash, t, normalizer, row)
    ensures Distinct(row.urls) <==> Distinct(NormalizedUrls(t.dict[RowFingerprint(hash, row)].urls, normalizer))
  {
    hide RowFingerprint, NormalizedUrls;
    var urls := NormalizedUrls(t.dict[RowFingerprint(hash, row)].urls, normalizer);
    SortDistinctIff(CompareText, urls);
  }

  lemma SortDistinctIff<T>(cmp: Comparison<T>, s: seq<T>)
    ensures Distinct(SortBy(cmp, s)) <==> Distinct(s)
  {
    SortPermutes(cmp, s);
    SameElements(SortBy(cmp, s), s);
    CardinalityAtMostLength(s);
    CardinalityAtMostLength(SortBy(cmp, s));
    if Distinct(s) { DistinctCardinality(s); }
    if Distinct(SortBy(cmp, s)) { DistinctCardinality(SortBy(cmp, s)); }
  }

  /** The rows of a baseline repeat no URL if and only if no entry does after normalisation. */
  lemma RowsDistinctIffEntriesAre(hash: Hash, t: Table<AxeResult>, normalizer: Option<UrlNormalizer>, rows: seq<BaselineResult>)
    requires OneRowPerEntry(hash, t, normalizer, rows)
    ensures DistinctUrls(rows) <==> UrlsStayDistinct(t, normalizer)
  {
    hide RowFingerprint, RowOf, NormalizedUrls;
    forall row | row in rows
      ensures RowFingerprint(hash, row) in t.dict
      ensures Distinct(row.urls) <==> Distinct(NormalizedUrls(t.dict[RowFingerprint(hash, row)].urls, normalizer))
    {
      RowFound(hash, t, normalizer, row);
      RowUrls(hash, t, normalizer, row);
    }
    if DistinctUrls(rows) {
      forall f | f in t.dict ensures Distinct(NormalizedUrls(t.dict[f].urls, normalizer)) {
        var row :| row in rows && RowFingerprint(hash, row) == f;
      }
    }
  }

  lemma RowFound(hash: Hash, t: Table<AxeResult>, normalizer: Option<UrlNormalizer>, row: BaselineResult)
    requires RowOf(hash, t, normalizer, row)
    ensures RowFingerprint(hash, row) in t.dict
  {}

  /** A generated baseline is a fixed point if and only if no entry has two URLs that the normaliser makes one: running the
      engine again on the results it labelled, with the baseline it suggested, generates that baseline again and suggests
      no update. Then it reports nothing fixed and nothing new for any rule. */
  lemma BaselineIsFixedPoint(
    collate: Collation, hash: Hash, t: Table<AxeResult>, normalizer: Option<UrlNormalizer>, generated: BaselineFileContent)
    requires t.Valid() && KeyedByFingerprint(hash, t) && Baseline(t.Values(), normalizer) == Success(generated)
    requires ReflexiveOn(collate, generated.results)
    ensures Stored(hash, t, generated.results)
    ensures Evaluate(collate, None, generated).suggestedBaselineUpdate == Some(generated)
    ensures var labelled := Relabel(collate, hash, [], generated.results, t);
      && labelled.Valid() && KeyedByFingerprint(hash, labelled)
      && Baseline(labelled.Values(), normalizer) == Success(generated)
    ensures var again := Evaluate(collate, Some(generated), generated);
      && (again.suggestedBaselineUpdate.None? <==> UrlsStayDistinct(t, normalizer))
      && (UrlsStayDistinct(t, normalizer) ==> again.fixedViolations == again.newViolations == NO_COUNTS)
  {
    hide UrlsStayDistinct, CombinedViolationToBaselineResult, RowFingerprint, HashesTo, Relabel, Tally, ReflexiveOn,
      DistinctUrls, Baseline,
      RowsFound, OnlyLabelsDiffer, Labelled, DistinctFingerprints, OneRowPerEntry, KeyedByFingerprint;
    BaselineSucceeds(hash, t, normalizer);
    BaselineRows(hash, t, normalizer);
    RowFingerprintsDistinct(hash, t, normalizer, generated.results);
    assert WellFormed([]) && AgreeOn(collate, [], generated.results);
    RelabelWritesTrueLabels(collate, hash, [], generated.results, t);
    RelabelKeepsBaseline(hash, t, Relabel(collate, hash, [], generated.results, t), generated.results, normalizer);
    SelfEvaluation(collate, generated);
    RowsDistinctIffEntriesAre(hash, t, normalizer, generated.results);
  }

  /** On that second run every URL of every violation is marked existing. */
  lemma SecondRunMarksAllExisting(
    collate: Collation, hash: Hash, t: Table<AxeResult>, normalizer: Option<UrlNormalizer>, generated: BaselineFileContent,
    row: BaselineResult)
    requires t.Valid() && KeyedByFingerprint(hash, t) && Baseline(t.Values(), normalizer) == Success(generated)
    requires ReflexiveOn(collate, generated.results) && row in generated.results
    ensures Stored(hash, t, generated.results) && RowFingerprint(hash, row) in t.dict
    ensures RowFingerprint(hash, row) in Relabel(collate, hash, generated.results, generated.results, t).dict
    ensures Relabel(collate, hash, generated.results, generated.results, t).dict[RowFingerprint(hash, row)].urlInfos
         == AllExisting(row.urls)
  {
    hide CombinedViolationToBaselineResult, RowFingerprint, HashesTo, Relabel, Pairs, EngineOrder;
    BaselineSucceeds(hash, t, normalizer);
    BaselineRows(hash, t, normalizer);
    RowFingerprintsDistinct(hash, t, normalizer, generated.results);
    SelfRelabel(collate, hash, generated.results, t);
    forall u | u in row.urls ensures (row.key, u) in Pairs(generated.results) {
      OwnPairs(generated.results, row, u);
    }
  }

  /** The normaliser keeps the URLs of each entry apart. */
  ghost predicate KeepsApart(t: Table<AxeResult>, normalizer: Option<UrlNormalizer>) {
    normalizer.Some? ==>
      forall f, u, v ::
        f in t.dict && u in t.dict[f].urls && v in t.dict[f].urls && normalizer.value(u) == normalizer.value(v) ==> u == v
  }

  /** Accumulated pages meet the condition if and only if the normaliser, where there is one, keeps the URLs of each entry
      apart; elsewhere it may merge what it likes. */
  lemma AccumulatedUrlsDistinct(visits: seq<Visit>, normalizer: Option<UrlNormalizer>)
    ensures UrlsStayDistinct(Accumulate(visits), normalizer) <==> KeepsApart(Accumulate(visits), normalizer)
  {
    hide Accumulate;
    var t := Accumulate(visits);
    forall f | f in t.dict
      ensures Distinct(t.dict[f].urls)
      ensures normalizer.Some? ==>
        (Distinct(NormalizedUrls(t.dict[f].urls, normalizer)) <==>
           forall u, v :: u in t.dict[f].urls && v in t.dict[f].urls && normalizer.value(u) == normalizer.value(v) ==> u == v)
    {
      AccumulatedUrls(visits, f);
      if normalizer.Some? { DistinctAfterMap(normalizer.value, t.dict[f].urls); }
    }
  }

  lemma DistinctAfterMap(g: string -> string, s: seq<string>)
    requires Distinct(s)
    ensures Distinct(Map(g, s)) <==> forall u, v :: u in s && v in s && g(u) == g(v) ==> u == v
  {
    var mapped := Map(g, s);
    if Distinct(mapped) {
      forall u, v | u in s && v in s && g(u) == g(v) ensures u == v {
        var i :| 0 <= i < |s| && s[i] == u;
        var j :| 0 <= j < |s| && s[j] == v;
        assert mapped[i] == g(u) && mapped[j] == g(v);
      }
    }
    if forall u, v :: u in s && v in s && g(u) == g(v) ==> u == v {
      forall i, j | 0 <= i < j < |mapped| ensures mapped[i] != mapped[j] {
        assert s[i] in s && s[j] in s && s[i] != s[j];
      }
    }
  }
}
