/** What the baseline comparison means: set difference on (violation, URL) pairs, and exactly when the engine meets it. */
module BaselineTheorems {
  import opened Common
  import opened Ordering
  import opened HashSets
  import opened AxeResults
  import opened BaselineGeneration
  import opened BaselineComparison

  type Pair = (ViolationKey, string)

  ghost function PairUp(key: ViolationKey, urls: set<string>): set<Pair> { set u | u in urls :: (key, u) }

  ghost function RowPairs(row: BaselineResult): set<Pair> { PairUp(row.key, Elements(row.urls)) }

  /** All (violation, URL) pairs of a baseline. */
  ghost function Pairs(rows: seq<BaselineResult>): set<Pair> {
    if rows == [] then {} else RowPairs(rows[0]) + Pairs(rows[1..])
  }

  /** The pairs of one rule, or all pairs. */
  ghost function OfRule(pairs: set<Pair>, rule: Option<string>): set<Pair> {
    set p | p in pairs && (rule.None? || p.0.rule == rule.value)
  }

  function Amount(c: Counts, rule: Option<string>): int {
    if rule.None? then c.total else CountFor(c.byRule, rule.value)
  }

  predicate Matches(key: ViolationKey, rule: Option<string>) { rule.None? || key.rule == rule.value }

  ghost predicate Apart(key: ViolationKey, rows: seq<BaselineResult>) {
    forall row :: row in rows ==> row.key != key
  }

  ghost predicate AgreeOn(collate: Collation, before: seq<BaselineResult>, after: seq<BaselineResult>) {
    forall a, b :: a in before && b in after ==> Agree(collate, a.key, b.key)
  }

  // ----- pairs -----

  lemma {:induction false} PairUpCount(key: ViolationKey, urls: set<string>)
    ensures |PairUp(key, urls)| == |urls|
  {
    if urls == {} {
      assert PairUp(key, urls) == {};
    } else {
      var u :| u in urls;
      PairUpCount(key, urls - {u});
      assert PairUp(key, urls) == PairUp(key, urls - {u}) + {(key, u)};
    }
  }

  lemma PairUpOfRule(key: ViolationKey, urls: set<string>, rule: Option<string>)
    ensures |OfRule(PairUp(key, urls), rule)| == if Matches(key, rule) then |urls| else 0
  {
    PairUpCount(key, urls);
    assert OfRule(PairUp(key, urls), rule) == if Matches(key, rule) then PairUp(key, urls) else {};
  }

  lemma OfRuleDisjointUnion(a: set<Pair>, b: set<Pair>, rule: Option<string>)
    requires a !! b
    ensures |OfRule(a + b, rule)| == |OfRule(a, rule)| + |OfRule(b, rule)|
  {
    assert OfRule(a + b, rule) == OfRule(a, rule) + OfRule(b, rule);
    assert OfRule(a, rule) !! OfRule(b, rule);
  }

  lemma {:induction false} ApartPairs(key: ViolationKey, rows: seq<BaselineResult>)
    requires Apart(key, rows)
    ensures forall p :: p in Pairs(rows) ==> p.0 != key
  {
    if rows != [] {
      assert rows[0] in rows;
      ApartPairs(key, rows[1..]);
    }
  }

  /** A row whose key is found nowhere else is gone, or new, as a whole. */
  lemma LoneRow(row: BaselineResult, rest: seq<BaselineResult>, other: seq<BaselineResult>, rule: Option<string>)
    requires Apart(row.key, rest) && Apart(row.key, other)
    ensures |OfRule(RowPairs(row) + Pairs(rest) - Pairs(other), rule)|
         == |OfRule(Pairs(rest) - Pairs(other), rule)| + if Matches(row.key, rule) then |Elements(row.urls)| else 0
    ensures Pairs(other) - (RowPairs(row) + Pairs(rest)) == Pairs(other) - Pairs(rest)
    ensures RowPairs(row) !! Pairs(rest)
  {
    ApartPairs(row.key, rest);
    ApartPairs(row.key, other);
    assert RowPairs(row) + Pairs(rest) - Pairs(other) == RowPairs(row) + (Pairs(rest) - Pairs(other));
    OfRuleDisjointUnion(RowPairs(row), Pairs(rest) - Pairs(other), rule);
    PairUpOfRule(row.key, Elements(row.urls), rule);
  }

  /** Two rows under one key differ by their URLs alone. */
  lemma SharedRow(
    a: BaselineResult, aRest: seq<BaselineResult>, b: BaselineResult, bRest: seq<BaselineResult>, rule: Option<string>)
    requires a.key == b.key && Apart(a.key, aRest) && Apart(a.key, bRest)
    ensures |OfRule(RowPairs(a) + Pairs(aRest) - (RowPairs(b) + Pairs(bRest)), rule)|
         == |OfRule(Pairs(aRest) - Pairs(bRest), rule)|
            + if Matches(a.key, rule) then |Elements(a.urls) - Elements(b.urls)| else 0
  {
    ApartPairs(a.key, aRest);
    ApartPairs(a.key, bRest);
    var own := PairUp(a.key, Elements(a.urls) - Elements(b.urls));
    assert RowPairs(a) - RowPairs(b) == own;
    assert RowPairs(a) + Pairs(aRest) - (RowPairs(b) + Pairs(bRest)) == own + (Pairs(aRest) - Pairs(bRest));
    OfRuleDisjointUnion(own, Pairs(aRest) - Pairs(bRest), rule);
    PairUpOfRule(a.key, Elements(a.urls) - Elements(b.urls), rule);
  }

  lemma PairsCount(rows: seq<BaselineResult>)
    requires rows != [] && Apart(rows[0].key, rows[1..])
    ensures |Pairs(rows)| == |Elements(rows[0].urls)| + |Pairs(rows[1..])|
  {
    ApartPairs(rows[0].key, rows[1..]);
    PairUpCount(rows[0].key, Elements(rows[0].urls));
    assert RowPairs(rows[0]) !! Pairs(rows[1..]);
  }

  // ----- order -----

  lemma SortedTail(rows: seq<BaselineResult>)
    requires WellFormed(rows) && rows != []
    ensures WellFormed(rows[1..]) && Apart(rows[0].key, rows[1..])
  {
    forall row | row in rows[1..] ensures row.key != rows[0].key {
      var i :| 1 <= i < |rows| && rows[i] == row;
      assert CompareRows(rows[0], rows[i]) < 0;
      GeneratorOrderFacts(rows[0].key, rows[i].key);
    }
  }

  lemma BelowHeadApart(key: ViolationKey, rows: seq<BaselineResult>)
    requires WellFormed(rows) && (rows == [] || GeneratorOrder(key, rows[0].key) < 0)
    ensures Apart(key, rows)
  {
    forall row | row in rows ensures row.key != key {
      var i :| 0 <= i < |rows| && rows[i] == row;
      if i > 0 {
        assert CompareRows(rows[0], rows[i]) < 0;
        GeneratorOrderTransitive(key, rows[0].key, rows[i].key);
      }
      GeneratorOrderFacts(key, rows[i].key);
    }
  }

  // ----- URL lists -----

  ghost predicate KnownOnce(urls: seq<string>, known: set<string>) {
    forall i, j :: 0 <= i < j < |urls| && urls[i] == urls[j] ==> urls[i] !in known
  }

  lemma {:induction false} CountInFacts(urls: seq<string>, known: set<string>)
    ensures CountIn(urls, known) >= |Elements(urls) * known|
    ensures CountIn(urls, known) == |Elements(urls) * known| <==> KnownOnce(urls, known)
  {
    if urls == [] {
      assert Elements(urls) * known == {};
    } else {
      hide KnownOnce;
      var init, last := urls[..|urls| - 1], urls[|urls| - 1];
      CountInFacts(init, known);
      assert urls == init + [last];
      ElementsAppend(init, last);
      OneMoreKnown(init, last, known);
      assert Elements(urls) * known == Elements(init) * known + if last in known then {last} else {};
    }
  }

  lemma OneMoreKnown(init: seq<string>, last: string, known: set<string>)
    ensures KnownOnce(init + [last], known) <==> KnownOnce(init, known) && (last in known ==> last !in Elements(init))
  {
    var urls := init + [last];
    if KnownOnce(urls, known) {
      assert forall i, j :: 0 <= i < j < |init| ==> urls[i] == init[i] && urls[j] == init[j];
      forall k | 0 <= k < |init| && init[k] == last ensures last !in known {
        assert urls[k] == urls[|init|];
      }
    }
  }

  /** How many positions of the new URLs hold an old URL that was there before. */
  function DoublyKnown(before: seq<string>, after: seq<string>): nat {
    CountInFacts(after, Elements(before));
    CountIn(after, Elements(before)) - |Elements(after) * Elements(before)|
  }

  /** The number of fixed URLs of a shared row falls short by just the old URLs that repeat in the new row. */
  lemma FixedCountOfShared(before: seq<string>, after: seq<string>)
    ensures CompareUrls(before, after).fixedCount == |Elements(before) - Elements(after)| - DoublyKnown(before, after)
    ensures DoublyKnown(before, after) == 0 <==> KnownOnce(after, Elements(before))
  {
    var known := Elements(before);
    CountInFacts(after, known);
    assert known == (known - Elements(after)) + (Elements(after) * known);
    assert |known| == |known - Elements(after)| + |Elements(after) * known|;
  }

  /** The number of fixed URLs of a shared row is right if and only if no URL of the old row occurs twice in the new one. */
  lemma FixedCountExact(before: seq<string>, after: seq<string>)
    ensures CompareUrls(before, after).fixedCount == |Elements(before) - Elements(after)| <==> KnownOnce(after, Elements(before))
    ensures CompareUrls(before, after).fixedCount <= |Elements(before) - Elements(after)|
  {
    FixedCountOfShared(before, after);
  }

  // ----- repeated URLs -----

  /** How many URLs of a list repeat an earlier one. */
  function Repeated(urls: seq<string>): nat {
    CardinalityAtMostLength(urls);
    |urls| - |Elements(urls)|
  }

  function Repeats(rows: seq<BaselineResult>): nat {
    if rows == [] then 0 else Repeated(rows[0].urls) + Repeats(rows[1..])
  }

  /** The row of a list with some key. */
  function RowWith(rows: seq<BaselineResult>, key: ViolationKey): Option<BaselineResult> {
    if rows == [] then None else if rows[0].key == key then Some(rows[0]) else RowWith(rows[1..], key)
  }

  /** The repeated URLs in rows of a rule, or in all rows, that the other list has no row for. */
  function LoneRepeats(rows: seq<BaselineResult>, other: seq<BaselineResult>, rule: Option<string>): nat {
    if rows == [] then 0
    else
      (if Matches(rows[0].key, rule) && RowWith(other, rows[0].key).None? then Repeated(rows[0].urls) else 0)
      + LoneRepeats(rows[1..], other, rule)
  }

  /** The old URLs that repeat in the new row, over the rows with a key in both lists. */
  function SharedRepeats(before: seq<BaselineResult>, after: seq<BaselineResult>, rule: Option<string>): nat {
    if before == [] then 0
    else
      var partner := RowWith(after, before[0].key);
      (if Matches(before[0].key, rule) && partner.Some? then DoublyKnown(before[0].urls, partner.value.urls) else 0)
      + SharedRepeats(before[1..], after, rule)
  }

  lemma {:induction false} RowWithFacts(rows: seq<BaselineResult>, key: ViolationKey)
    ensures RowWith(rows, key).None? <==> Apart(key, rows)
    ensures RowWith(rows, key).Some? ==> RowWith(rows, key).value in rows && RowWith(rows, key).value.key == key
  {
    if rows != [] {
      RowWithFacts(rows[1..], key);
      assert rows == [rows[0]] + rows[1..];
    }
  }

  /** A row of the other list that meets none of these rows can be left out. */
  lemma {:induction false} LeavingOutStranger(rows: seq<BaselineResult>, other: seq<BaselineResult>, rule: Option<string>)
    requires other != [] && Apart(other[0].key, rows)
    ensures LoneRepeats(rows, other, rule) == LoneRepeats(rows, other[1..], rule)
    ensures SharedRepeats(rows, other, rule) == SharedRepeats(rows, other[1..], rule)
  {
    if rows != [] {
      hide DoublyKnown, Repeated;
      assert rows[0] in rows;
      LeavingOutStranger(rows[1..], other, rule);
    }
  }

  // ----- the merge is set difference -----

  /** From `e`, the walk over these rows arrives at `r` having counted the two set differences, and besides: new, the repeats
      in new rows without an old one; fixed, the repeats in old rows without a new one, less the old URLs that repeat in a
      shared new row; in the baseline, all its repeats. */
  ghost predicate CountsDifferences(
    before: seq<BaselineResult>, after: seq<BaselineResult>, e: Evaluation, r: Evaluation, rule: Option<string>)
  {
    && Amount(r.fixedViolations, rule)
       == Amount(e.fixedViolations, rule) + |OfRule(Pairs(before) - Pairs(after), rule)|
          + LoneRepeats(before, after, rule) - SharedRepeats(before, after, rule)
    && Amount(r.newViolations, rule)
       == Amount(e.newViolations, rule) + |OfRule(Pairs(after) - Pairs(before), rule)| + LoneRepeats(after, before, rule)
    && r.totalBaseline == AddBaseline(e.totalBaseline, |Pairs(before)| + Repeats(before))
  }

  lemma OldRowOnly(
    before: seq<BaselineResult>, after: seq<BaselineResult>, e: Evaluation, r: Evaluation, rule: Option<string>)
    requires before != [] && Apart(before[0].key, before[1..]) && Apart(before[0].key, after)
    requires CountsDifferences(before[1..], after, AddFixed(e, before[0]), r, rule)
    ensures CountsDifferences(before, after, e, r, rule)
  {
    hide OfRule, RowPairs, Apart, RowWith, DoublyKnown;
    PairsCount(before);
    LoneRow(before[0], before[1..], after, rule);
    RowWithFacts(after, before[0].key);
    LeavingOutStranger(after, before, rule);
  }

  lemma NewRowOnly(
    before: seq<BaselineResult>, after: seq<BaselineResult>, e: Evaluation, r: Evaluation, rule: Option<string>)
    requires after != [] && Apart(after[0].key, after[1..]) && Apart(after[0].key, before)
    requires CountsDifferences(before, after[1..], AddNew(e, after[0]), r, rule)
    ensures CountsDifferences(before, after, e, r, rule)
  {
    hide OfRule, RowPairs, Apart, RowWith, DoublyKnown;
    LoneRow(after[0], after[1..], before, rule);
    RowWithFacts(before, after[0].key);
    LeavingOutStranger(before, after, rule);
  }

  lemma AddBothAmounts(e: Evaluation, a: BaselineResult, b: BaselineResult, rule: Option<string>)
    ensures Amount(AddBoth(e, a, b).fixedViolations, rule)
         == Amount(e.fixedViolations, rule)
            + if Matches(a.key, rule) then |Elements(a.urls) - Elements(b.urls)| - DoublyKnown(a.urls, b.urls) else 0
    ensures Amount(AddBoth(e, a, b).newViolations, rule)
         == Amount(e.newViolations, rule) + if Matches(a.key, rule) then |Elements(b.urls) - Elements(a.urls)| else 0
    ensures AddBoth(e, a, b).totalBaseline == AddBaseline(e.totalBaseline, |a.urls|)
  {
    FixedCountOfShared(a.urls, b.urls);
  }

  lemma SharedHead(before: seq<BaselineResult>, after: seq<BaselineResult>, rule: Option<string>)
    requires before != [] && after != [] && before[0].key == after[0].key
    requires Apart(before[0].key, before[1..]) && Apart(before[0].key, after[1..])
    ensures |OfRule(Pairs(before) - Pairs(after), rule)|
         == |OfRule(Pairs(before[1..]) - Pairs(after[1..]), rule)|
            + if Matches(before[0].key, rule) then |Elements(before[0].urls) - Elements(after[0].urls)| else 0
  {
    SharedRow(before[0], before[1..], after[0], after[1..], rule);
  }

  lemma SharedRowRepeats(before: seq<BaselineResult>, after: seq<BaselineResult>, rule: Option<string>)
    requires before != [] && after != [] && before[0].key == after[0].key
    requires Apart(before[0].key, before[1..]) && Apart(before[0].key, after[1..])
    ensures LoneRepeats(before, after, rule) == LoneRepeats(before[1..], after[1..], rule)
    ensures SharedRepeats(before, after, rule)
         == SharedRepeats(before[1..], after[1..], rule)
            + if Matches(before[0].key, rule) then DoublyKnown(before[0].urls, after[0].urls) else 0
  {
    hide DoublyKnown, Repeated, Apart;
    LeavingOutStranger(before[1..], after, rule);
  }

  lemma BothRows(
    before: seq<BaselineResult>, after: seq<BaselineResult>, e: Evaluation, r: Evaluation, rule: Option<string>)
    requires before != [] && after != [] && before[0].key == after[0].key
    requires Apart(before[0].key, before[1..]) && Apart(before[0].key, after[1..])
    requires CountsDifferences(before[1..], after[1..], AddBoth(e, before[0], after[0]), r, rule)
    ensures CountsDifferences(before, after, e, r, rule)
  {
    hide AddBoth, OfRule, Amount, Pairs, RowPairs, Elements, Matches, Apart, DoublyKnown, LoneRepeats, SharedRepeats;
    AddBothAmounts(e, before[0], after[0], rule);
    PairsCount(before);
    SharedHead(before, after, rule);
    SharedHead(after, before, rule);
    SharedRowRepeats(before, after, rule);
    SharedRowRepeats(after, before, rule);
  }

  /** With sorted baselines and one order, the walk reports plain set differences, in total and by rule, off by exactly the
      repeated URLs. */
  lemma {:induction false} TallyIsSetDifference(
    collate: Collation, before: seq<BaselineResult>, after: seq<BaselineResult>, e: Evaluation, rule: Option<string>)
    requires WellFormed(before) && WellFormed(after)
    requires AgreeOn(collate, before, after)
    ensures CountsDifferences(before, after, e, Tally(collate, before, after, e), rule)
    decreases |before| + |after|
  {
    if before == [] && after == [] {
      assert OfRule({}, rule) == {};
    } else {
      hide AddFixed, AddNew, AddBoth, Amount, OfRule, CountsDifferences, EngineOrder, GeneratorOrder;
      if before != [] { SortedTail(before); assert before[0] in before; }
      if after != [] { SortedTail(after); assert after[0] in after; }
      var c := CompareResultDetails(collate, Head(before), Head(after));
      assert before != [] && after != [] ==> Sign(c) == Sign(GeneratorOrder(before[0].key, after[0].key)) by {
        assert before != [] && after != [] ==> Agree(collate, before[0].key, after[0].key);
      }
      var r := Tally(collate, before, after, e);
      if before != [] && c < 0 {
        TallyIsSetDifference(collate, before[1..], after, AddFixed(e, before[0]), rule);
        BelowHeadApart(before[0].key, after);
        OldRowOnly(before, after, e, r, rule);
      } else if after != [] && c > 0 {
        TallyIsSetDifference(collate, before, after[1..], AddNew(e, after[0]), rule);
        if before != [] { GeneratorOrderFacts(before[0].key, after[0].key); }
        BelowHeadApart(after[0].key, before);
        NewRowOnly(before, after, e, r, rule);
      } else {
        TallyIsSetDifference(collate, before[1..], after[1..], AddBoth(e, before[0], after[0]), rule);
        GeneratorOrderFacts(before[0].key, after[0].key);
        BothRows(before, after, e, r, rule);
      }
    }
  }

  // ----- the whole evaluation -----

  /** The report for two baselines, overall and for every rule: fixed, new and total counts are the set differences and the
      size of the old baseline, off by exactly the repeated URLs. */
  lemma EvaluationCounts(
    collate: Collation, content: BaselineFileContent, newBaseline: BaselineFileContent, rule: Option<string>)
    requires WellFormed(content.results) && WellFormed(newBaseline.results)
    requires AgreeOn(collate, content.results, newBaseline.results)
    ensures var was, now := content.results, newBaseline.results;
      var e := Evaluate(collate, Some(content), newBaseline);
      && Amount(e.fixedViolations, rule)
         == |OfRule(Pairs(was) - Pairs(now), rule)| + LoneRepeats(was, now, rule) - SharedRepeats(was, now, rule)
      && Amount(e.newViolations, rule) == |OfRule(Pairs(now) - Pairs(was), rule)| + LoneRepeats(now, was, rule)
      && e.totalBaseline == Some(|Pairs(was)| + Repeats(was))
      && e.suggestedBaselineUpdate
         == if e.fixedViolations.total == 0 && e.newViolations.total == 0
               && content.fileFormatVersion == newBaseline.fileFormatVersion
            then None else Some(newBaseline)
  {
    hide Pairs, OfRule, WellFormed, AgreeOn, Tally, LoneRepeats, SharedRepeats, Repeats;
    var start := Start(Some(content), newBaseline);
    TallyIsSetDifference(collate, content.results, newBaseline.results, start, rule);
    TallyKeepsSuggestion(collate, content.results, newBaseline.results, start);
  }

  ghost predicate LoneRowsDistinct(rows: seq<BaselineResult>, other: seq<BaselineResult>) {
    forall row :: row in rows && RowWith(other, row.key).None? ==> Distinct(row.urls)
  }

  ghost predicate SharedRowsKnownOnce(before: seq<BaselineResult>, after: seq<BaselineResult>) {
    forall row :: row in before && RowWith(after, row.key).Some? ==>
      KnownOnce(RowWith(after, row.key).value.urls, Elements(row.urls))
  }

  lemma RepeatedFacts(urls: seq<string>)
    ensures Repeated(urls) == 0 <==> Distinct(urls)
  {
    CardinalityAtMostLength(urls);
    if Distinct(urls) { DistinctCardinality(urls); }
  }

  lemma {:induction false} RepeatsFacts(rows: seq<BaselineResult>)
    ensures Repeats(rows) == 0 <==> DistinctUrls(rows)
  {
    if rows != [] {
      hide Repeated;
      RepeatsFacts(rows[1..]);
      RepeatedFacts(rows[0].urls);
      assert rows == [rows[0]] + rows[1..];
    }
  }

  lemma {:induction false} LoneRepeatsFacts(rows: seq<BaselineResult>, other: seq<BaselineResult>)
    ensures LoneRepeats(rows, other, None) == 0 <==> LoneRowsDistinct(rows, other)
  {
    if rows != [] {
      hide Repeated;
      LoneRepeatsFacts(rows[1..], other);
      RepeatedFacts(rows[0].urls);
      assert rows == [rows[0]] + rows[1..];
    }
  }

  lemma {:induction false} SharedRepeatsFacts(before: seq<BaselineResult>, after: seq<BaselineResult>)
    ensures SharedRepeats(before, after, None) == 0 <==> SharedRowsKnownOnce(before, after)
  {
    if before != [] {
      hide DoublyKnown, KnownOnce;
      SharedRepeatsFacts(before[1..], after);
      if partner :| RowWith(after, before[0].key) == Some(partner) { FixedCountOfShared(before[0].urls, partner.urls); }
      assert before == [before[0]] + before[1..];
    }
  }

  /** When the totals of a report are right: the new one if and only if no new row without an old one repeats a URL, the old
      baseline's if and only if no old row does, and the fixed one if and only if the repeats in old rows without a new one
      make up for the old URLs that repeat in shared new rows. All three are right if and only if there are none of these. */
  lemma TotalsExactly(collate: Collation, content: BaselineFileContent, newBaseline: BaselineFileContent)
    requires WellFormed(content.results) && WellFormed(newBaseline.results)
    requires AgreeOn(collate, content.results, newBaseline.results)
    ensures var was, now := content.results, newBaseline.results;
      var e := Evaluate(collate, Some(content), newBaseline);
      var newRight := e.newViolations.total == |Pairs(now) - Pairs(was)|;
      var fixedRight := e.fixedViolations.total == |Pairs(was) - Pairs(now)|;
      var totalRight := e.totalBaseline == Some(|Pairs(was)|);
      && (newRight <==> LoneRowsDistinct(now, was))
      && (totalRight <==> DistinctUrls(was))
      && (fixedRight <==> LoneRepeats(was, now, None) == SharedRepeats(was, now, None))
      && (newRight && totalRight && fixedRight
          <==> LoneRowsDistinct(now, was) && DistinctUrls(was) && SharedRowsKnownOnce(was, now))
  {
    hide Pairs, OfRule, WellFormed, AgreeOn, Evaluate, LoneRepeats, SharedRepeats, Repeats, LoneRowsDistinct,
      SharedRowsKnownOnce, DistinctUrls;
    EvaluationCounts(collate, content, newBaseline, None);
    AllRules(Pairs(content.results) - Pairs(newBaseline.results));
    AllRules(Pairs(newBaseline.results) - Pairs(content.results));
    RepeatsFacts(content.results);
    LoneRepeatsFacts(newBaseline.results, content.results);
    LoneRepeatsFacts(content.results, newBaseline.results);
    SharedRepeatsFacts(content.results, newBaseline.results);
    LoneRowsOf(content.results, newBaseline.results);
  }

  lemma LoneRowsOf(rows: seq<BaselineResult>, other: seq<BaselineResult>)
    ensures DistinctUrls(rows) ==> LoneRowsDistinct(rows, other)
  {}

  lemma NoRepeats(rows: seq<BaselineResult>, other: seq<BaselineResult>, rule: Option<string>)
    requires DistinctUrls(rows) && DistinctUrls(other)
    ensures Repeats(rows) == LoneRepeats(rows, other, rule) == SharedRepeats(rows, other, rule) == 0
  {
    if rows != [] {
      hide DoublyKnown, Repeated;
      assert rows[0] in rows && rows == [rows[0]] + rows[1..];
      NoRepeats(rows[1..], other, rule);
      RepeatedFacts(rows[0].urls);
      RowWithFacts(other, rows[0].key);
      if partner :| RowWith(other, rows[0].key) == Some(partner) { FixedCountOfShared(rows[0].urls, partner.urls); }
    }
  }

  /** Without repeated URLs: all counts are the set differences and sizes, overall and for every rule; old − fixed + new is
      the size of the new baseline; and an update is suggested exactly when the pairs or the format version differ. */
  lemma EvaluationIsSetDifference(
    collate: Collation, content: BaselineFileContent, newBaseline: BaselineFileContent, rule: string)
    requires WellFormed(content.results) && WellFormed(newBaseline.results)
    requires DistinctUrls(content.results) && DistinctUrls(newBaseline.results)
    requires AgreeOn(collate, content.results, newBaseline.results)
    ensures var before, after := Pairs(content.results), Pairs(newBaseline.results);
      var e := Evaluate(collate, Some(content), newBaseline);
      && e.fixedViolations.total == |before - after| && e.newViolations.total == |after - before|
      && e.totalBaseline == Some(|before|)
      && |before| - e.fixedViolations.total + e.newViolations.total == |after|
      && CountFor(e.fixedViolations.byRule, rule) == |OfRule(before - after, Some(rule))|
      && CountFor(e.newViolations.byRule, rule) == |OfRule(after - before, Some(rule))|
      && e.suggestedBaselineUpdate
         == if before == after && content.fileFormatVersion == newBaseline.fileFormatVersion then None else Some(newBaseline)
  {
    hide Pairs, OfRule, WellFormed, DistinctUrls, AgreeOn, Evaluate, LoneRepeats, SharedRepeats, Repeats;
    var before, after := Pairs(content.results), Pairs(newBaseline.results);
    EvaluationCounts(collate, content, newBaseline, None);
    EvaluationCounts(collate, content, newBaseline, Some(rule));
    NoRepeats(content.results, newBaseline.results, None);
    NoRepeats(newBaseline.results, content.results, None);
    NoRepeats(content.results, newBaseline.results, Some(rule));
    NoRepeats(newBaseline.results, content.results, Some(rule));
    AllRules(before - after);
    AllRules(after - before);
    DifferenceSizes(before, after);
  }

  /** A new violation whose URL is listed twice counts twice. */
  lemma RepeatCountsTwice(collate: Collation, key: ViolationKey)
    ensures var row := BaselineResult(key, ["u", "u"]);
      var e := Evaluate(collate, Some(BaselineFileContent("1", [])), BaselineFileContent("1", [row]));
      e.newViolations.total == 2 && |Pairs([row]) - Pairs([])| == 1
  {
    var row := BaselineResult(key, ["u", "u"]);
    assert [row][1..] == [] && Elements(row.urls) == {"u"};
    assert RowPairs(row) == {(key, "u")} && Pairs([row]) - Pairs([]) == {(key, "u")};
    var start := Start(Some(BaselineFileContent("1", [])), BaselineFileContent("1", [row]));
    assert Tally(collate, [], [row], start) == Tally(collate, [], [], AddNew(start, row));
  }

  /** A URL that is gone goes unnoticed when another known URL is listed twice: nothing is reported, no update suggested. */
  lemma RepeatHidesFixedUrl(collate: Collation, key: ViolationKey)
    requires EngineOrder(collate, key, key) == 0
    ensures var a, b := BaselineResult(key, ["u", "w"]), BaselineResult(key, ["u", "u"]);
      var e := Evaluate(collate, Some(BaselineFileContent("1", [a])), BaselineFileContent("1", [b]));
      && e.fixedViolations.total == e.newViolations.total == 0 && e.suggestedBaselineUpdate.None?
      && Pairs([a]) - Pairs([b]) == {(key, "w")}
  {
    hide EngineOrder, CompareUrls, Pairs, BuildUrlInfos;
    var a, b := BaselineResult(key, ["u", "w"]), BaselineResult(key, ["u", "u"]);
    OneForAnother();
    OneForAnotherPairs(key);
    assert [a][1..] == [] && [b][1..] == [];
    var start := Start(Some(BaselineFileContent("1", [a])), BaselineFileContent("1", [b]));
    assert Tally(collate, [a], [b], start) == Tally(collate, [], [], AddBoth(start, a, b));
  }

  lemma OneForAnother()
    ensures CompareUrls(["u", "w"], ["u", "u"]).fixedCount == 0 && CompareUrls(["u", "w"], ["u", "u"]).newUrls == {}
  {
    var known := Elements(["u", "w"]);
    assert known == {"u", "w"} && Elements(["u", "u"]) == {"u"};
    assert ["u", "u"][..1] == ["u"] && ["u"][..0] == [];
    assert CountIn(["u", "u"], known) == CountIn(["u"], known) + 1;
  }

  lemma OneForAnotherPairs(key: ViolationKey)
    ensures Pairs([BaselineResult(key, ["u", "w"])]) - Pairs([BaselineResult(key, ["u", "u"])]) == {(key, "w")}
  {
    var a, b := BaselineResult(key, ["u", "w"]), BaselineResult(key, ["u", "u"]);
    assert [a][1..] == [] && [b][1..] == [];
    assert Elements(a.urls) == {"u", "w"} && Elements(b.urls) == {"u"};
    assert RowPairs(a) == {(key, "u"), (key, "w")} && RowPairs(b) == {(key, "u")};
  }

  lemma AllRules(pairs: set<Pair>)
    ensures OfRule(pairs, None) == pairs
  {}

  lemma DifferenceSizes(before: set<Pair>, after: set<Pair>)
    ensures |before| - |before - after| + |after - before| == |after|
    ensures before == after <==> |before - after| == 0 && |after - before| == 0
  {
    assert before == (before - after) + before * after;
    assert after == (after - before) + before * after;
  }

  lemma {:induction false} TallyKeepsSuggestion(
    collate: Collation, before: seq<BaselineResult>, after: seq<BaselineResult>, e: Evaluation)
    ensures Tally(collate, before, after, e).suggestedBaselineUpdate == e.suggestedBaselineUpdate
    decreases |before| + |after|
  {
    if before != [] || after != [] {
      var c := CompareResultDetails(collate, Head(before), Head(after));
      if before != [] && c < 0 {
        TallyKeepsSuggestion(collate, before[1..], after, AddFixed(e, before[0]));
      } else if after != [] && c > 0 {
        TallyKeepsSuggestion(collate, before, after[1..], AddNew(e, after[0]));
      } else if before != [] && after != [] {
        TallyKeepsSuggestion(collate, before[1..], after[1..], AddBoth(e, before[0], after[0]));
      }
    }
  }

  /** The counts of some rules, added up. */
  function SumOver(byRule: map<string, int>, rules: seq<string>): int {
    if rules == [] then 0 else CountFor(byRule, rules[0]) + SumOver(byRule, rules[1..])
  }

  ghost predicate Balanced(c: Counts, rules: seq<string>) { SumOver(c.byRule, rules) == c.total }

  lemma {:induction false} SumAfterAdding(c: Counts, rule: string, count: int, rules: seq<string>)
    requires Distinct(rules)
    ensures SumOver(AddCount(c, rule, count).byRule, rules) == SumOver(c.byRule, rules) + if rule in rules then count else 0
  {
    if rules != [] {
      SumAfterAdding(c, rule, count, rules[1..]);
      assert rules == [rules[0]] + rules[1..] && rules[0] !in rules[1..];
    }
  }

  ghost predicate RulesIn(rows: seq<BaselineResult>, rules: seq<string>) {
    forall row :: row in rows ==> row.key.rule in rules
  }

  /** The walk keeps the counts by rule adding up to the totals: for any two lists of rows, sorted or not, and any order. */
  lemma {:induction false} TallyBalanced(
    collate: Collation, before: seq<BaselineResult>, after: seq<BaselineResult>, e: Evaluation, rules: seq<string>)
    requires Distinct(rules) && RulesIn(before, rules) && RulesIn(after, rules)
    requires Balanced(e.fixedViolations, rules) && Balanced(e.newViolations, rules)
    ensures var r := Tally(collate, before, after, e); Balanced(r.fixedViolations, rules) && Balanced(r.newViolations, rules)
    decreases |before| + |after|
  {
    if before != [] || after != [] {
      hide EngineOrder, SumOver, CompareUrls;
      var c := CompareResultDetails(collate, Head(before), Head(after));
      if before != [] && c < 0 {
        SumAfterAdding(e.fixedViolations, before[0].key.rule, |before[0].urls|, rules);
        TallyBalanced(collate, before[1..], after, AddFixed(e, before[0]), rules);
      } else if after != [] && c > 0 {
        SumAfterAdding(e.newViolations, after[0].key.rule, |after[0].urls|, rules);
        TallyBalanced(collate, before, after[1..], AddNew(e, after[0]), rules);
      } else if before != [] && after != [] {
        var comparison := CompareUrls(before[0].urls, after[0].urls);
        SumAfterAdding(e.fixedViolations, before[0].key.rule, comparison.fixedCount, rules);
        SumAfterAdding(e.newViolations, before[0].key.rule, |comparison.newUrls|, rules);
        TallyBalanced(collate, before[1..], after[1..], AddBoth(e, before[0], after[0]), rules);
      }
    }
  }

  lemma {:induction false} NothingCounted(rules: seq<string>)
    ensures Balanced(NO_COUNTS, rules)
  {
    if rules != [] { NothingCounted(rules[1..]); }
  }

  /** The URLs listed in rows of a rule, or in all rows. */
  function Listings(rows: seq<BaselineResult>, rule: Option<string>): nat {
    if rows == [] then 0 else (if Matches(rows[0].key, rule) then |rows[0].urls| else 0) + Listings(rows[1..], rule)
  }

  lemma {:induction false} AllNew(collate: Collation, rows: seq<BaselineResult>, e: Evaluation, rule: Option<string>)
    ensures var r := Tally(collate, [], rows, e);
      && r.suggestedBaselineUpdate == e.suggestedBaselineUpdate && r.totalBaseline == e.totalBaseline
      && r.fixedViolations == e.fixedViolations
      && Amount(r.newViolations, rule) == Amount(e.newViolations, rule) + Listings(rows, rule)
  {
    if rows != [] { AllNew(collate, rows[1..], AddNew(e, rows[0]), rule); }
  }

  /** Without an old baseline everything listed is new, nothing is fixed, and the new baseline is suggested. */
  lemma FirstBaseline(collate: Collation, newBaseline: BaselineFileContent, rule: Option<string>)
    ensures var e := Evaluate(collate, None, newBaseline);
      && e.suggestedBaselineUpdate == Some(newBaseline) && e.totalBaseline.None?
      && Amount(e.fixedViolations, rule) == 0 && Amount(e.newViolations, rule) == Listings(newBaseline.results, rule)
  {
    AllNew(collate, newBaseline.results, Start(None, newBaseline), rule);
  }

  /** In every report the fixed and the new violations by rule add up to their totals, whatever the baselines hold. */
  lemma RulesSumToTotal(
    collate: Collation, content: Option<BaselineFileContent>, newBaseline: BaselineFileContent, rules: seq<string>)
    requires Distinct(rules) && RulesIn(OldRows(content), rules) && RulesIn(newBaseline.results, rules)
    ensures var e := Evaluate(collate, content, newBaseline);
      && SumOver(e.fixedViolations.byRule, rules) == e.fixedViolations.total
      && SumOver(e.newViolations.byRule, rules) == e.newViolations.total
  {
    hide Tally, SumOver;
    NothingCounted(rules);
    TallyBalanced(collate, OldRows(content), newBaseline.results, Start(content, newBaseline), rules);
  }

  // ----- labels -----

  /** The labels a new row should end with: a URL is existing exactly when the old baseline had the pair. */
  ghost function TrueLabels(row: BaselineResult, before: set<Pair>): seq<UrlInfo> {
    Map(url => UrlInfo(url, if (row.key, url) in before then ExistingStatus else NewStatus), row.urls)
  }

  ghost predicate DistinctFingerprints(hash: Hash, rows: seq<BaselineResult>) {
    forall i, j :: 0 <= i < j < |rows| ==> RowFingerprint(hash, rows[i]) != RowFingerprint(hash, rows[j])
  }

  /** Two tables differ at most in the labels of the entries of `rows`. */
  ghost predicate OnlyLabelsDiffer(hash: Hash, t: Table<AxeResult>, r: Table<AxeResult>, rows: seq<BaselineResult>) {
    && r.order == t.order && r.dict.Keys == t.dict.Keys
    && (forall f :: f in t.dict ==> r.dict[f].(urlInfos := []) == t.dict[f].(urlInfos := []))
    && (forall f :: f in t.dict && (forall row :: row in rows ==> RowFingerprint(hash, row) != f) ==> r.dict[f] == t.dict[f])
  }

  ghost predicate Labelled(hash: Hash, r: Table<AxeResult>, rows: seq<BaselineResult>, before: set<Pair>) {
    forall row :: row in rows ==>
      RowFingerprint(hash, row) in r.dict && r.dict[RowFingerprint(hash, row)].urlInfos == TrueLabels(row, before)
  }

  lemma UpdateOnlyLabels(
    hash: Hash, t: Table<AxeResult>, rows: seq<BaselineResult>, newUrls: Option<set<string>>, r: Table<AxeResult>)
    requires rows != [] && Stored(hash, t, rows) && DistinctFingerprints(hash, rows)
    requires OnlyLabelsDiffer(hash, UpdateAxeResults(hash, t, rows[0], newUrls), r, rows[1..])
    ensures OnlyLabelsDiffer(hash, t, r, rows)
    ensures r.dict[RowFingerprint(hash, rows[0])].urlInfos == BuildUrlInfos(rows[0].urls, newUrls)
  {
    hide RowFingerprint, BuildUrlInfos;
    var next := UpdateAxeResults(hash, t, rows[0], newUrls);
    var f0 := RowFingerprint(hash, rows[0]);
    assert rows == [rows[0]] + rows[1..];
    assert forall row :: row in rows[1..] ==> RowFingerprint(hash, row) != f0;
    assert f0 in next.dict && r.dict[f0] == next.dict[f0];
  }

  /** Labels of rows that cannot meet the dropped old row are the same without it. */
  lemma LabelsWithoutOldRow(hash: Hash, r: Table<AxeResult>, rows: seq<BaselineResult>, before: seq<BaselineResult>)
    requires before != [] && Apart(before[0].key, rows) && Labelled(hash, r, rows, Pairs(before[1..]))
    ensures Labelled(hash, r, rows, Pairs(before))
  {
    hide RowFingerprint;
    forall row | row in rows ensures TrueLabels(row, Pairs(before)) == TrueLabels(row, Pairs(before[1..])) {
      assert row.key != before[0].key;
    }
  }

  lemma LabelsOfNewRow(row: BaselineResult, before: seq<BaselineResult>)
    requires Apart(row.key, before)
    ensures BuildUrlInfos(row.urls, None) == TrueLabels(row, Pairs(before))
  {
    ApartPairs(row.key, before);
  }

  lemma LabelsOfSharedRow(row: BaselineResult, before: seq<BaselineResult>)
    requires before != [] && before[0].key == row.key && Apart(row.key, before[1..])
    ensures BuildUrlInfos(row.urls, Some(CompareUrls(before[0].urls, row.urls).newUrls)) == TrueLabels(row, Pairs(before))
  {
    ApartPairs(row.key, before[1..]);
    forall u | u in row.urls ensures u in Elements(row.urls) - Elements(before[0].urls) <==> (row.key, u) !in Pairs(before) {
      assert (row.key, u) in RowPairs(before[0]) <==> u in Elements(before[0].urls);
    }
  }

  lemma LabelledHead(hash: Hash, r: Table<AxeResult>, rows: seq<BaselineResult>, before: set<Pair>)
    requires rows != [] && RowFingerprint(hash, rows[0]) in r.dict
    requires r.dict[RowFingerprint(hash, rows[0])].urlInfos == TrueLabels(rows[0], before)
    requires Labelled(hash, r, rows[1..], before)
    ensures Labelled(hash, r, rows, before)
  {
    hide RowFingerprint, TrueLabels;
    assert rows == [rows[0]] + rows[1..];
  }

  lemma NewRowStep(
    hash: Hash, before: seq<BaselineResult>, after: seq<BaselineResult>, t: Table<AxeResult>, r: Table<AxeResult>)
    requires after != [] && Apart(after[0].key, before)
    requires Stored(hash, t, after) && DistinctFingerprints(hash, after)
    requires OnlyLabelsDiffer(hash, UpdateAxeResults(hash, t, after[0], None), r, after[1..])
    requires Labelled(hash, r, after[1..], Pairs(before))
    ensures OnlyLabelsDiffer(hash, t, r, after) && Labelled(hash, r, after, Pairs(before))
  {
    hide RowFingerprint, TrueLabels, BuildUrlInfos, Labelled, Pairs, UpdateAxeResults, DistinctFingerprints;
    UpdateOnlyLabels(hash, t, after, None, r);
    LabelsOfNewRow(after[0], before);
    LabelledHead(hash, r, after, Pairs(before));
  }

  lemma SharedRowStep(
    hash: Hash, before: seq<BaselineResult>, after: seq<BaselineResult>, t: Table<AxeResult>, r: Table<AxeResult>)
    requires before != [] && after != [] && before[0].key == after[0].key
    requires Apart(before[0].key, before[1..]) && Apart(before[0].key, after[1..])
    requires Stored(hash, t, after) && DistinctFingerprints(hash, after)
    requires OnlyLabelsDiffer(
               hash, UpdateAxeResults(hash, t, after[0], Some(CompareUrls(before[0].urls, after[0].urls).newUrls)), r, after[1..])
    requires Labelled(hash, r, after[1..], Pairs(before[1..]))
    ensures OnlyLabelsDiffer(hash, t, r, after) && Labelled(hash, r, after, Pairs(before))
  {
    hide RowFingerprint, TrueLabels, BuildUrlInfos, Labelled, Pairs, UpdateAxeResults, DistinctFingerprints, CompareUrls;
    UpdateOnlyLabels(hash, t, after, Some(CompareUrls(before[0].urls, after[0].urls).newUrls), r);
    LabelsOfSharedRow(after[0], before);
    LabelsWithoutOldRow(hash, r, after[1..], before);
    LabelledHead(hash, r, after, Pairs(before));
  }

  /** With one order, the walk touches labels only, and every row ends with its true labels. */
  lemma {:induction false} RelabelWritesTrueLabels(
    collate: Collation, hash: Hash, before: seq<BaselineResult>, after: seq<BaselineResult>, t: Table<AxeResult>)
    requires WellFormed(before) && WellFormed(after)
    requires AgreeOn(collate, before, after)
    requires Stored(hash, t, after) && DistinctFingerprints(hash, after)
    ensures var r := Relabel(collate, hash, before, after, t);
      OnlyLabelsDiffer(hash, t, r, after) && Labelled(hash, r, after, Pairs(before))
    decreases |before| + |after|
  {
    if before == [] && after == [] {
    } else {
      hide EngineOrder, GeneratorOrder, RowFingerprint, UpdateAxeResults, OnlyLabelsDiffer, Labelled, Pairs, CompareUrls;
      if before != [] { SortedTail(before); assert before[0] in before; }
      if after != [] { SortedTail(after); assert after[0] in after; }
      var c := CompareResultDetails(collate, Head(before), Head(after));
      assert before != [] && after != [] ==> Sign(c) == Sign(GeneratorOrder(before[0].key, after[0].key)) by {
        assert before != [] && after != [] ==> Agree(collate, before[0].key, after[0].key);
      }
      var r := Relabel(collate, hash, before, after, t);
      if before != [] && c < 0 {
        RelabelWritesTrueLabels(collate, hash, before[1..], after, t);
        BelowHeadApart(before[0].key, after);
        LabelsWithoutOldRow(hash, r, after, before);
      } else if after != [] && c > 0 {
        if before != [] { GeneratorOrderFacts(before[0].key, after[0].key); }
        BelowHeadApart(after[0].key, before);
        UpdateKeepsStored(hash, t, after[0], None, after);
        RelabelWritesTrueLabels(collate, hash, before, after[1..], UpdateAxeResults(hash, t, after[0], None));
        NewRowStep(hash, before, after, t, r);
      } else {
        GeneratorOrderFacts(before[0].key, after[0].key);
        BelowHeadApart(before[0].key, after[1..]);
        var newUrls := Some(CompareUrls(before[0].urls, after[0].urls).newUrls);
        UpdateKeepsStored(hash, t, after[0], newUrls, after);
        RelabelWritesTrueLabels(collate, hash, before[1..], after[1..], UpdateAxeResults(hash, t, after[0], newUrls));
        SharedRowStep(hash, before, after, t, r);
      }
    }
  }
}
