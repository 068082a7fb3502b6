/** Comparison of the current violations with an older baseline: packages/cli/src/baseline/baseline-engine.ts. */
module BaselineComparison {
  import opened Common
  import opened Ordering
  import opened HashSets
  import opened AxeResults
  import opened BaselineGeneration

  /** `localeCompare` of the host; nothing is assumed of it but what a lemma states. */
  type Collation = Comparison<string>

  // ----- how the engine compares two rows -----

  /** The engine takes an empty string for a missing one, and puts missing ones last. */
  function SafelyCompareStrings(collate: Collation, a: Option<string>, b: Option<string>): int {
    if Truthy(a) && Truthy(b) then collate(a.value, b.value)
    else if !Truthy(a) && !Truthy(b) then 0
    else if Truthy(a) then -1
    else 1
  }

  function EngineOrder(collate: Collation, a: ViolationKey, b: ViolationKey): int {
    Or(SafelyCompareStrings(collate, Some(a.rule), Some(b.rule)),
       Or(SafelyCompareStrings(collate, Some(a.cssSelector), Some(b.cssSelector)),
          Or(SafelyCompareStrings(collate, a.xpathSelector, b.xpathSelector),
             SafelyCompareStrings(collate, Some(a.htmlSnippet), Some(b.htmlSnippet)))))
  }

  function CompareResultDetails(collate: Collation, before: Option<BaselineResult>, after: Option<BaselineResult>): int {
    if before.Some? && after.Some? then EngineOrder(collate, before.value.key, after.value.key)
    else if before.Some? then -1
    else 1
  }

  /** The engine and the generator order these two keys alike. */
  predicate Agree(collate: Collation, a: ViolationKey, b: ViolationKey) {
    Sign(EngineOrder(collate, a, b)) == Sign(GeneratorOrder(a, b))
  }

  // ----- counting -----

  /** A total, and its split by rule. */
  datatype Counts = Counts(total: int, byRule: map<string, int>)

  /** `totalBaseline` is present only when there is an old baseline. */
  datatype Evaluation = Evaluation(
    suggestedBaselineUpdate: Option<BaselineFileContent>, fixedViolations: Counts, newViolations: Counts,
    totalBaseline: Option<int>)

  datatype UrlComparison = UrlComparison(fixedCount: int, intersectingCount: nat, newUrls: set<string>, urlInfos: seq<UrlInfo>)

  function CountFor(byRule: map<string, int>, rule: string): int { if rule in byRule then byRule[rule] else 0 }

  function AddCount(c: Counts, rule: string, count: int): Counts {
    Counts(c.total + count, c.byRule[rule := CountFor(c.byRule, rule) + count])
  }

  function AddBaseline(total: Option<int>, count: int): Option<int> {
    if total.Some? then Some(total.value + count) else None
  }

  /** How many positions of `urls` hold a member of `known`. */
  function CountIn(urls: seq<string>, known: set<string>): nat {
    if urls == [] then 0 else CountIn(urls[..|urls| - 1], known) + if urls[|urls| - 1] in known then 1 else 0
  }

  lemma NothingCompared(known: set<string>)
    ensures CountIn([], known) == 0 && Elements<string>([]) - known == {}
  {}

  lemma OneMoreCompared(urls: seq<string>, url: string, known: set<string>)
    ensures CountIn(urls + [url], known) == CountIn(urls, known) + if url in known then 1 else 0
    ensures Elements(urls + [url]) - known == Elements(urls) - known + if url in known then {} else {url}
  {
    assert (urls + [url])[..|urls|] == urls;
  }

  function CompareUrls(oldUrls: seq<string>, newUrls: seq<string>): UrlComparison {
    var known := Elements(oldUrls);
    UrlComparison(|known| - CountIn(newUrls, known), CountIn(newUrls, known), Elements(newUrls) - known,
                  Map(url => UrlInfo(url, if url in known then ExistingStatus else NewStatus), newUrls))
  }

  function AddFixed(e: Evaluation, row: BaselineResult): Evaluation {
    e.(fixedViolations := AddCount(e.fixedViolations, row.key.rule, |row.urls|),
       totalBaseline := AddBaseline(e.totalBaseline, |row.urls|))
  }

  function AddNew(e: Evaluation, row: BaselineResult): Evaluation {
    e.(newViolations := AddCount(e.newViolations, row.key.rule, |row.urls|))
  }

  function AddBoth(e: Evaluation, before: BaselineResult, after: BaselineResult): Evaluation {
    var comparison := CompareUrls(before.urls, after.urls);
    Evaluation(
      e.suggestedBaselineUpdate,
      if comparison.fixedCount != 0 then AddCount(e.fixedViolations, before.key.rule, comparison.fixedCount)
      else e.fixedViolations,
      if comparison.newUrls != {} then AddCount(e.newViolations, before.key.rule, |comparison.newUrls|) else e.newViolations,
      AddBaseline(e.totalBaseline, |before.urls|))
  }

  function Head(rows: seq<BaselineResult>): Option<BaselineResult> { if rows == [] then None else Some(rows[0]) }

  /** The two-pointer walk over the rows that are left, as far as it counts. */
  function Tally(collate: Collation, before: seq<BaselineResult>, after: seq<BaselineResult>, e: Evaluation): Evaluation
    decreases |before| + |after|
  {
    if before == [] && after == [] then e
    else
      var c := CompareResultDetails(collate, Head(before), Head(after));
      if before != [] && c < 0 then Tally(collate, before[1..], after, AddFixed(e, before[0]))
      else if after != [] && c > 0 then Tally(collate, before, after[1..], AddNew(e, after[0]))
      else if before != [] && after != [] then Tally(collate, before[1..], after[1..], AddBoth(e, before[0], after[0]))
      else e
  }

  // ----- writing the labels back -----

  function BuildUrlInfos(urls: seq<string>, newUrls: Option<set<string>>): seq<UrlInfo> {
    Map(url => UrlInfo(url, if newUrls.None? || url in newUrls.value then NewStatus else ExistingStatus), urls)
  }

  /** Finds the entry of a row by its fingerprint and replaces the entry's labels. */
  function UpdateAxeResults(hash: Hash, t: Table<AxeResult>, row: BaselineResult, newUrls: Option<set<string>>): Table<AxeResult>
    requires RowFingerprint(hash, row) in t.dict
  {
    var f := RowFingerprint(hash, row);
    t.Put(f, t.dict[f].(urlInfos := BuildUrlInfos(row.urls, newUrls)))
  }

  ghost predicate Stored(hash: Hash, t: Table<AxeResult>, rows: seq<BaselineResult>) {
    forall row :: row in rows ==> RowFingerprint(hash, row) in t.dict
  }

  lemma UpdateKeepsStored(
    hash: Hash, t: Table<AxeResult>, row: BaselineResult, newUrls: Option<set<string>>, rows: seq<BaselineResult>)
    requires RowFingerprint(hash, row) in t.dict && Stored(hash, t, rows)
    ensures Stored(hash, UpdateAxeResults(hash, t, row, newUrls), rows)
    ensures UpdateAxeResults(hash, t, row, newUrls).order == t.order
    ensures UpdateAxeResults(hash, t, row, newUrls).dict.Keys == t.dict.Keys
  {}

  ghost predicate SameKeys(a: Table<AxeResult>, b: Table<AxeResult>) { a.order == b.order && a.dict.Keys == b.dict.Keys }

  /** The same walk, as far as it relabels entries; it ends where the entry of a row is missing. */
  ghost function Relabel(
    collate: Collation, hash: Hash, before: seq<BaselineResult>, after: seq<BaselineResult>, t: Table<AxeResult>)
    : Table<AxeResult>
    decreases |before| + |after|
  {
    if before == [] && after == [] then t
    else
      var c := CompareResultDetails(collate, Head(before), Head(after));
      if before != [] && c < 0 then Relabel(collate, hash, before[1..], after, t)
      else if after == [] || RowFingerprint(hash, after[0]) !in t.dict then t
      else if c > 0 then Relabel(collate, hash, before, after[1..], UpdateAxeResults(hash, t, after[0], None))
      else if before != [] then
        var newUrls := Some(CompareUrls(before[0].urls, after[0].urls).newUrls);
        Relabel(collate, hash, before[1..], after[1..], UpdateAxeResults(hash, t, after[0], newUrls))
      else t
  }

  // ----- the engine -----

  datatype BaselineOptions = BaselineOptions(baselineContent: Option<BaselineFileContent>, urlNormalizer: Option<UrlNormalizer>)

  const NO_COUNTS := Counts(0, map[])

  function OldRows(content: Option<BaselineFileContent>): seq<BaselineResult> {
    if content.Some? then content.value.results else []
  }

  function Start(content: Option<BaselineFileContent>, newBaseline: BaselineFileContent): Evaluation {
    Evaluation(if content.Some? then None else Some(newBaseline), NO_COUNTS, NO_COUNTS, if content.Some? then Some(0) else None)
  }

  function Finish(content: Option<BaselineFileContent>, newBaseline: BaselineFileContent, e: Evaluation): Evaluation {
    if e.fixedViolations.total != 0 || e.newViolations.total != 0
       || content.None? || content.value.fileFormatVersion != newBaseline.fileFormatVersion
    then e.(suggestedBaselineUpdate := Some(newBaseline))
    else e
  }

  /** What the engine reports for an old and a freshly generated baseline. */
  function Evaluate(collate: Collation, content: Option<BaselineFileContent>, newBaseline: BaselineFileContent): Evaluation {
    Finish(content, newBaseline, Tally(collate, OldRows(content), newBaseline.results, Start(content, newBaseline)))
  }

  class BaselineEngine {
    const baselineGenerator: BaselineGenerator
    const hash: Hash
    const collate: Collation

    constructor (baselineGenerator: BaselineGenerator, hash: Hash, collate: Collation)
      ensures this.hash == hash && this.collate == collate
    {
      this.baselineGenerator, this.hash, this.collate := baselineGenerator, hash, collate;
    }

    /** Throws what generating the baseline throws, or when the entry of a new row is not found, after relabelling what comes
        before it; else reports and relabels. */
    method UpdateResultsInPlace(axeResults: AxeCoreResults, options: BaselineOptions) returns (r: Result<Evaluation, string>)
      requires axeResults.Valid()
      modifies axeResults.violations
      ensures axeResults.Valid() && axeResults.violations.keysSnapshot.None?
      ensures var t := old(axeResults.violations.Contents());
        match BaselineOf(Visited(t, old(axeResults.violations.Pending())), options.urlNormalizer)
        case Failure(error) => r == Failure(error) && axeResults.violations.Contents() == t
        case Success(baseline) =>
          && r == (if Stored(hash, t, baseline.results) then Success(Evaluate(collate, options.baselineContent, baseline))
                   else Failure(TYPE_ERROR))
          && axeResults.violations.Contents() == Relabel(collate, hash, OldRows(options.baselineContent), baseline.results, t)
    {
      hide BaselineOf, Visited;
      ghost var t := axeResults.violations.Contents();
      var oldRows := OldRows(options.baselineContent);
      var generated := baselineGenerator.GenerateBaseline(axeResults.violations, options.urlNormalizer);
      if generated.Failure? {
        return Failure(generated.error);
      }
      var newBaseline := generated.value;
      var evaluation := Walk(axeResults.violations, oldRows, newBaseline.results, Start(options.baselineContent, newBaseline));
      if evaluation.Failure? {
        return Failure(evaluation.error);
      }
      r := Success(Finish(options.baselineContent, newBaseline, evaluation.value));
    }

    /** The merge loop of updateResultsInPlace. It comes to every new row once, so it throws unless each is found. */
    method Walk(violations: HashSet<AxeResult>, before: seq<BaselineResult>, after: seq<BaselineResult>, start: Evaluation)
      returns (r: Result<Evaluation, string>)
      requires violations.Valid()
      modifies violations`hashDictionary, violations`order
      ensures violations.Valid()
      ensures violations.Contents() == Relabel(collate, hash, before, after, old(violations.Contents()))
      ensures r == if Stored(hash, old(violations.Contents()), after) then Success(Tally(collate, before, after, start))
                   else Failure(TYPE_ERROR)
    {
      hide RowFingerprint, EngineOrder, AddFixed, AddNew, AddBoth, BuildUrlInfos;
      ghost var t := violations.Contents();
      var oldIndex, newIndex := 0, 0;
      var evaluation := start;
      while oldIndex < |before| || newIndex < |after|
        invariant oldIndex <= |before| && newIndex <= |after|
        invariant violations.Valid() && SameKeys(violations.Contents(), t)
        invariant Stored(hash, t, after[..newIndex])
        invariant Tally(collate, before[oldIndex..], after[newIndex..], evaluation) == Tally(collate, before, after, start)
        invariant Relabel(collate, hash, before[oldIndex..], after[newIndex..], violations.Contents())
               == Relabel(collate, hash, before, after, t)
        decreases |before| - oldIndex + |after| - newIndex
      {
        var oldRow := if oldIndex < |before| then Some(before[oldIndex]) else None;
        var newRow := if newIndex < |after| then Some(after[newIndex]) else None;
        assert Head(before[oldIndex..]) == oldRow && Head(after[newIndex..]) == newRow;
        var comparison := CompareResultDetails(collate, oldRow, newRow);
        if comparison < 0 {
          assert before[oldIndex..][1..] == before[oldIndex + 1..];
          evaluation := AddFixed(evaluation, oldRow.value);
          oldIndex := oldIndex + 1;
        } else if comparison > 0 {
          assert after[newIndex..][1..] == after[newIndex + 1..];
          assert after[..newIndex + 1] == after[..newIndex] + [after[newIndex]];
          evaluation := AddNew(evaluation, newRow.value);
          var found := WriteLabels(violations, newRow.value, None);
          if !found { return Failure(TYPE_ERROR); }
          newIndex := newIndex + 1;
        } else {
          assert before[oldIndex..][1..] == before[oldIndex + 1..];
          assert after[newIndex..][1..] == after[newIndex + 1..];
          assert after[..newIndex + 1] == after[..newIndex] + [after[newIndex]];
          var urls := GetUrlComparison(oldRow.value.urls, newRow.value.urls);
          evaluation := AddBoth(evaluation, oldRow.value, newRow.value);
          var found := WriteLabels(violations, newRow.value, Some(urls.newUrls));
          if !found { return Failure(TYPE_ERROR); }
          oldIndex, newIndex := oldIndex + 1, newIndex + 1;
        }
      }
      assert after[..newIndex] == after;
      r := Success(evaluation);
    }

    /** updateAxeResults: throws when the entry of the row is not there. */
    method WriteLabels(violations: HashSet<AxeResult>, row: BaselineResult, newUrls: Option<set<string>>) returns (found: bool)
      requires violations.Valid()
      modifies violations`hashDictionary, violations`order
      ensures violations.Valid() && SameKeys(violations.Contents(), old(violations.Contents()))
      ensures found <==> RowFingerprint(hash, row) in old(violations.Contents()).dict
      ensures found ==> violations.Contents() == UpdateAxeResults(hash, old(violations.Contents()), row, newUrls)
      ensures !found ==> violations.Contents() == old(violations.Contents())
    {
      var fingerprint := RowFingerprint(hash, row);
      var result := violations.Get(fingerprint);
      if result.None? { return false; }
      violations.Add(fingerprint, result.value.(urlInfos := BuildUrlInfos(row.urls, newUrls)));
      found := true;
    }

    method GetUrlComparison(oldUrls: seq<string>, newUrls: seq<string>) returns (r: UrlComparison)
      ensures r == CompareUrls(oldUrls, newUrls)
    {
      hide CountIn, Elements;
      NothingCompared(Elements(oldUrls));
      var oldSet := Elements(oldUrls);
      var intersecting: nat := 0;
      var added: set<string> := {};
      var urlInfos: seq<UrlInfo> := [];
      for i := 0 to |newUrls|
        invariant intersecting == CountIn(newUrls[..i], oldSet)
        invariant added == Elements(newUrls[..i]) - oldSet
        invariant |urlInfos| == i
        invariant forall k :: 0 <= k < i ==>
          urlInfos[k] == UrlInfo(newUrls[k], if newUrls[k] in oldSet then ExistingStatus else NewStatus)
      {
        assert newUrls[..i + 1] == newUrls[..i] + [newUrls[i]];
        OneMoreCompared(newUrls[..i], newUrls[i], oldSet);
        if newUrls[i] in oldSet {
          intersecting := intersecting + 1;
          urlInfos := urlInfos + [UrlInfo(newUrls[i], ExistingStatus)];
        } else {
          added := added + {newUrls[i]};
          urlInfos := urlInfos + [UrlInfo(newUrls[i], NewStatus)];
        }
      }
      assert newUrls[..|newUrls|] == newUrls;
      r := UrlComparison(|oldSet| - intersecting, intersecting, added, urlInfos);
    }
  }
}
