/** Generation of a baseline from accumulated violations: packages/cli/src/baseline/baseline-generator.ts. */
module BaselineGeneration {
  import opened Common
  import opened Ordering
  import opened HashSets
  import opened AxeResults

  /** What identifies a violation in a baseline file. */
  datatype ViolationKey = ViolationKey(rule: string, cssSelector: string, xpathSelector: Option<string>, htmlSnippet: string)

  datatype BaselineResult = BaselineResult(key: ViolationKey, urls: seq<string>)

  datatype BaselineFileContent = BaselineFileContent(fileFormatVersion: string, results: seq<BaselineResult>)

  type UrlNormalizer = string -> string

  const MISSING_NODE := "Invalid input result; does not contain a junctionNode"
  const MISSING_CSS := "Invalid input result; does not contain a css selector"

  // ----- the order of a baseline file -----

  /** lodash `sortBy` compares two values with `<` and puts a missing one last. */
  function CompareOptional(a: Option<string>, b: Option<string>): int {
    match (a, b)
    case (Some(x), Some(y)) => CompareText(x, y)
    case (Some(_), None) => -1
    case (None, Some(_)) => 1
    case (None, None) => 0
  }

  /** JavaScript `first || second` on comparison results. */
  function Or(first: int, second: int): int { if first != 0 then first else second }

  function GeneratorOrder(a: ViolationKey, b: ViolationKey): int {
    Or(CompareText(a.rule, b.rule),
       Or(CompareText(a.cssSelector, b.cssSelector),
          Or(CompareOptional(a.xpathSelector, b.xpathSelector),
             CompareText(a.htmlSnippet, b.htmlSnippet))))
  }

  function CompareRows(a: BaselineResult, b: BaselineResult): int { GeneratorOrder(a.key, b.key) }

  lemma GeneratorOrderFacts(a: ViolationKey, b: ViolationKey)
    ensures GeneratorOrder(a, b) == 0 <==> a == b
    ensures GeneratorOrder(a, b) == -GeneratorOrder(b, a)
    ensures a.rule == b.rule && a.cssSelector == b.cssSelector && a.xpathSelector.Some? && b.xpathSelector.None? ==>
              GeneratorOrder(a, b) < 0
  {
    CompareTextFacts(a.rule, b.rule);
    CompareTextFacts(a.cssSelector, b.cssSelector);
    CompareTextFacts(a.htmlSnippet, b.htmlSnippet);
    if a.xpathSelector.Some? && b.xpathSelector.Some? {
      CompareTextFacts(a.xpathSelector.value, b.xpathSelector.value);
    }
  }

  lemma CompareOptionalTransitive(a: Option<string>, b: Option<string>, c: Option<string>)
    requires CompareOptional(a, b) <= 0 && CompareOptional(b, c) <= 0
    ensures CompareOptional(a, c) <= 0
    ensures CompareOptional(a, c) == 0 ==> a == b == c
  {
    if a.Some? && c.Some? && b.Some? {
      TextTransitive(a.value, b.value, c.value);
    }
  }

  lemma TextTransitive(a: string, b: string, c: string)
    requires CompareText(a, b) <= 0 && CompareText(b, c) <= 0
    ensures CompareText(a, c) <= 0
    ensures CompareText(a, c) == 0 ==> a == b == c
  {
    CompareTextTransitive(a, b, c);
    CompareTextFacts(a, b);
    CompareTextFacts(b, c);
    CompareTextFacts(a, c);
  }

  lemma GeneratorOrderTransitive(a: ViolationKey, b: ViolationKey, c: ViolationKey)
    requires GeneratorOrder(a, b) <= 0 && GeneratorOrder(b, c) <= 0
    ensures GeneratorOrder(a, c) <= 0
    ensures GeneratorOrder(a, b) < 0 || GeneratorOrder(b, c) < 0 ==> GeneratorOrder(a, c) < 0
  {
    TextTransitive(a.rule, b.rule, c.rule);
    if CompareText(a.rule, c.rule) == 0 {
      TextTransitive(a.cssSelector, b.cssSelector, c.cssSelector);
      if CompareText(a.cssSelector, c.cssSelector) == 0 {
        CompareOptionalTransitive(a.xpathSelector, b.xpathSelector, c.xpathSelector);
        if CompareOptional(a.xpathSelector, c.xpathSelector) == 0 {
          TextTransitive(a.htmlSnippet, b.htmlSnippet, c.htmlSnippet);
        }
      }
    }
  }

  lemma CompareRowsConsistent()
    ensures Consistent(CompareRows)
  {
    forall x, y ensures Sign(CompareRows(x, y)) == -Sign(CompareRows(y, x)) {
      GeneratorOrderFacts(x.key, y.key);
    }
    forall x, y, z | CompareRows(x, y) <= 0 && CompareRows(y, z) <= 0 ensures CompareRows(x, z) <= 0 {
      GeneratorOrderTransitive(x.key, y.key, z.key);
    }
  }

  // ----- rows -----

  function NormalizedUrls(urls: seq<string>, normalizer: Option<UrlNormalizer>): seq<string> {
    if normalizer.Some? then Map(normalizer.value, urls) else urls
  }

  function CombinedViolationToBaselineResult(entry: AxeResult, normalizer: Option<UrlNormalizer>)
    : Result<BaselineResult, string>
  {
    match entry.junctionNode
    case None => Failure(MISSING_NODE)
    case Some(node) =>
      match FindSelector(node.selectors, Css)
      case None => Failure(MISSING_CSS)
      case Some(css) =>
        Success(BaselineResult(ViolationKey(entry.id, css, FindSelector(node.selectors, Xpath), node.html),
                               SortBy(CompareText, NormalizedUrls(entry.urls, normalizer))))
  }

  /** `map` over the entries; the first entry that cannot be converted stops it with its error. */
  function ToRows(entries: seq<AxeResult>, normalizer: Option<UrlNormalizer>): Result<seq<BaselineResult>, string> {
    if entries == [] then Success([])
    else
      match CombinedViolationToBaselineResult(entries[0], normalizer)
      case Failure(e) => Failure(e)
      case Success(row) =>
        match ToRows(entries[1..], normalizer)
        case Failure(e) => Failure(e)
        case Success(rows) => Success([row] + rows)
  }

  function Baseline(entries: seq<AxeResult>, normalizer: Option<UrlNormalizer>): Result<BaselineFileContent, string> {
    match ToRows(entries, normalizer)
    case Failure(e) => Failure(e)
    case Success(rows) => Success(BaselineFileContent("1", SortBy(CompareRows, rows)))
  }

  /** What an iteration over some keys gives; a key that is gone gives nothing. */
  function Visited(t: Table<AxeResult>, keys: seq<string>): seq<Option<AxeResult>> { Map((k: string) => t.Lookup(k), keys) }

  /** The entries in front of the first missing one. */
  function Leading(entries: seq<Option<AxeResult>>): seq<AxeResult> {
    if entries == [] || entries[0].None? then [] else [entries[0].value] + Leading(entries[1..])
  }

  /** The baseline of what an iteration gives: reading a missing entry throws. */
  function BaselineOf(entries: seq<Option<AxeResult>>, normalizer: Option<UrlNormalizer>): Result<BaselineFileContent, string> {
    match Baseline(Leading(entries), normalizer)
    case Failure(e) => Failure(e)
    case Success(content) => if |Leading(entries)| < |entries| then Failure(TYPE_ERROR) else Success(content)
  }

  lemma {:induction false} LeadingPresent(t: Table<AxeResult>, keys: seq<string>)
    ensures var leading := Leading(Visited(t, keys));
      && |leading| <= |keys| && (|leading| == |keys| <==> forall k :: k in keys ==> k in t.dict)
      && forall i :: 0 <= i < |leading| ==> keys[i] in t.dict && leading[i] == t.dict[keys[i]]
  {
    if keys != [] {
      var rest := keys[1..];
      LeadingPresent(t, rest);
      assert keys == [keys[0]] + rest;
      assert Visited(t, keys)[1..] == Visited(t, rest) && Visited(t, keys)[0] == t.Lookup(keys[0]);
      assert Leading(Visited(t, keys)) == if keys[0] in t.dict then [t.dict[keys[0]]] + Leading(Visited(t, rest)) else [];
    }
  }

  /** With no iteration left open, that is the baseline of all entries. */
  lemma BaselineOfAll(t: Table<AxeResult>, normalizer: Option<UrlNormalizer>)
    requires t.Valid()
    ensures BaselineOf(Visited(t, t.order), normalizer) == Baseline(t.Values(), normalizer)
  {
    assert forall k :: k in t.order ==> k in Elements(t.order);
    LeadingPresent(t, t.order);
    assert Leading(Visited(t, t.order)) == t.Values();
  }

  lemma {:induction false} ToRowsPointwise(entries: seq<AxeResult>, normalizer: Option<UrlNormalizer>)
    ensures ToRows(entries, normalizer).Success?
            <==> forall i :: 0 <= i < |entries| ==> CombinedViolationToBaselineResult(entries[i], normalizer).Success?
    ensures ToRows(entries, normalizer).Success? ==>
              |ToRows(entries, normalizer).value| == |entries|
              && forall i :: 0 <= i < |entries| ==>
                   CombinedViolationToBaselineResult(entries[i], normalizer) == Success(ToRows(entries, normalizer).value[i])
  {
    if entries != [] {
      ToRowsPointwise(entries[1..], normalizer);
      assert forall i :: 1 <= i < |entries| ==> entries[i] == entries[1..][i - 1];
    }
  }

  /** The fingerprint the engine recomputes for a row. */
  function RowFingerprint(hash: Hash, row: BaselineResult): string {
    GetFingerprint(hash, row.key.rule, row.key.htmlSnippet, row.key.cssSelector, row.key.xpathSelector)
  }

  /** Every entry that converts to a row is found again under the fingerprint of that row. */
  ghost predicate RowsFound(hash: Hash, t: Table<AxeResult>) {
    forall f :: f in t.dict ==>
      var row := CombinedViolationToBaselineResult(t.dict[f], None);
      row.Success? ==> RowFingerprint(hash, row.value) == f
  }

  lemma KeyedRowsFound(hash: Hash, t: Table<AxeResult>)
    requires KeyedByFingerprint(hash, t)
    ensures RowsFound(hash, t)
    ensures forall f, normalizer :: f in t.dict ==> CombinedViolationToBaselineResult(t.dict[f], normalizer).Success?
  {}

  /** A row belongs to the entry stored under the row's fingerprint, and lists that entry's normalised URLs. */
  ghost predicate RowOf(hash: Hash, t: Table<AxeResult>, normalizer: Option<UrlNormalizer>, row: BaselineResult) {
    && RowFingerprint(hash, row) in t.dict
    && CombinedViolationToBaselineResult(t.dict[RowFingerprint(hash, row)], normalizer) == Success(row)
  }

  ghost predicate WellFormed(rows: seq<BaselineResult>) {
    StrictlySorted(CompareRows, rows)
  }

  ghost predicate DistinctUrls(rows: seq<BaselineResult>) {
    forall row :: row in rows ==> Distinct(row.urls)
  }

  lemma UnsortedRows(hash: Hash, t: Table<AxeResult>, normalizer: Option<UrlNormalizer>)
    requires t.Valid() && RowsFound(hash, t)
    requires ToRows(t.Values(), normalizer).Success?
    ensures var rows := ToRows(t.Values(), normalizer).value;
      && |rows| == |t.order|
      && forall i :: 0 <= i < |rows| ==> RowFingerprint(hash, rows[i]) == t.order[i] && RowOf(hash, t, normalizer, rows[i])
  {
    ToRowsPointwise(t.Values(), normalizer);
    var rows := ToRows(t.Values(), normalizer).value;
    forall i | 0 <= i < |rows| ensures RowFingerprint(hash, rows[i]) == t.order[i] && RowOf(hash, t, normalizer, rows[i]) {
      var entry := t.Values()[i];
      assert t.order[i] in t.dict && t.dict[t.order[i]] == entry;
      assert CombinedViolationToBaselineResult(entry, None).Success?;
      assert CombinedViolationToBaselineResult(entry, None).value.key == rows[i].key;
    }
  }

  lemma SortingDistinctKeys(rows: seq<BaselineResult>)
    requires Distinct(rows)
    requires forall a, b :: a in rows && b in rows && a.key == b.key ==> a == b
    ensures WellFormed(SortBy(CompareRows, rows))
  {
    var sorted := SortBy(CompareRows, rows);
    SortKeepsDistinct(CompareRows, rows);
    CompareRowsConsistent();
    SortSorts(CompareRows, rows);
    forall i, j | 0 <= i < j < |sorted| ensures CompareRows(sorted[i], sorted[j]) < 0 {
      assert sorted[i] in Elements(sorted) && sorted[j] in Elements(sorted);
      GeneratorOrderFacts(sorted[i].key, sorted[j].key);
    }
  }

  ghost predicate OneRowPerEntry(
    hash: Hash, t: Table<AxeResult>, normalizer: Option<UrlNormalizer>, rows: seq<BaselineResult>)
  {
    && (forall row :: row in rows ==> RowOf(hash, t, normalizer, row))
    && (forall f :: f in t.dict ==> exists row :: row in rows && RowFingerprint(hash, row) == f)
  }

  lemma RowsInEntryOrder(hash: Hash, t: Table<AxeResult>, normalizer: Option<UrlNormalizer>, rows: seq<BaselineResult>)
    requires t.Valid() && |rows| == |t.order|
    requires forall i :: 0 <= i < |rows| ==> RowFingerprint(hash, rows[i]) == t.order[i] && RowOf(hash, t, normalizer, rows[i])
    ensures OneRowPerEntry(hash, t, normalizer, rows) && Distinct(rows)
  {
    hide CombinedViolationToBaselineResult, RowFingerprint, RowOf;
    forall f | f in t.dict ensures exists row :: row in rows && RowFingerprint(hash, row) == f {
      assert f in Elements(t.order);
      var i :| 0 <= i < |t.order| && t.order[i] == f;
      assert rows[i] in rows;
    }
  }

  lemma KeysDetermineRows(
    hash: Hash, t: Table<AxeResult>, normalizer: Option<UrlNormalizer>, a: BaselineResult, b: BaselineResult)
    requires RowOf(hash, t, normalizer, a) && RowOf(hash, t, normalizer, b) && a.key == b.key
    ensures a == b
  {}

  /** A generated baseline is strictly sorted, holds one row for each entry and no other, and the fingerprint recomputed
      from a row is the key its entry is stored under. */
  lemma BaselineRows(hash: Hash, t: Table<AxeResult>, normalizer: Option<UrlNormalizer>)
    requires t.Valid() && RowsFound(hash, t)
    requires Baseline(t.Values(), normalizer).Success?
    ensures WellFormed(Baseline(t.Values(), normalizer).value.results)
    ensures OneRowPerEntry(hash, t, normalizer, Baseline(t.Values(), normalizer).value.results)
  {
    hide CombinedViolationToBaselineResult, RowFingerprint, RowOf, RowsFound, WellFormed, ToRows, CompareRows, SortBy, Distinct;
    var unsorted := ToRows(t.Values(), normalizer).value;
    UnsortedRows(hash, t, normalizer);
    RowsInEntryOrder(hash, t, normalizer, unsorted);
    forall a, b | a in unsorted && b in unsorted && a.key == b.key ensures a == b {
      KeysDetermineRows(hash, t, normalizer, a, b);
    }
    SortingDistinctKeys(unsorted);
    SortMembers(CompareRows, unsorted);
  }

  class BaselineGenerator {
    constructor () {}

    /** Drains the list; an iteration left open makes the baseline of the entries still to visit. */
    method GenerateBaseline(axeResultsList: HashSet<AxeResult>, normalizer: Option<UrlNormalizer>)
      returns (r: Result<BaselineFileContent, string>)
      requires axeResultsList.Valid()
      modifies axeResultsList`pointer, axeResultsList`keysSnapshot
      ensures axeResultsList.Valid() && axeResultsList.keysSnapshot.None?
      ensures r == BaselineOf(Visited(axeResultsList.Contents(), old(axeResultsList.Pending())), normalizer)
    {
      ghost var todo := axeResultsList.Pending();
      var values := axeResultsList.Values();
      assert values == Visited(axeResultsList.Contents(), todo);
      r := BaselineOf(values, normalizer);
    }
  }
}
