/** Compact strings for known pages: packages/storage-documents/src/known-page-type-converter.ts. */
module KnownPageCodec {
  import opened Common
  import opened HashSets

  /** Every property but `url` may be missing; a missing one and an empty one print alike. */
  datatype KnownPage = KnownPage(
    url: Option<string>, source: Option<string>, scanId: Option<string>, runState: Option<string>, scanState: Option<string>)

  const EMPTY := KnownPage(None, None, None, None, None)

  const SEPARATOR := '|'
  const FORMAT_ERROR := "String value does not match the expected format."

  function Printed(property: Option<string>): string { if property.Some? then property.value else "" }

  predicate IsEmpty(property: Option<string>) { Printed(property) == "" }

  /** The parts a page is joined from. */
  function Parts(page: KnownPage): seq<string> {
    var state := [Printed(page.scanId), Printed(page.runState), Printed(page.scanState)];
    if IsEmpty(page.source) then [Printed(page.url)] + state
    else [Printed(page.url), Printed(page.source)] + state
  }

  /** `value.replace(/(\|)+$/g, '')` */
  function StripTrailing(value: string): string {
    if value != "" && value[|value| - 1] == SEPARATOR then StripTrailing(value[..|value| - 1]) else value
  }

  /** What is stripped is all separators, and none is left at the end. */
  lemma {:induction false} StripsSeparators(value: string)
    ensures StripTrailing(value) <= value
    ensures StripTrailing(value) != "" ==> StripTrailing(value)[|StripTrailing(value)| - 1] != SEPARATOR
    ensures forall c :: c in value[|StripTrailing(value)|..] ==> c == SEPARATOR
  {
    if value != "" && value[|value| - 1] == SEPARATOR {
      var init := value[..|value| - 1];
      StripsSeparators(init);
      assert value[|StripTrailing(init)|..] == init[|StripTrailing(init)|..] + [SEPARATOR];
    }
  }

  function ConvertKnownPageToString(page: KnownPage): string {
    if page == EMPTY then "" else StripTrailing(Join(Parts(page), SEPARATOR))
  }

  predicate IsSource(property: string) { property == "request" || property == "crawler" }

  /** The effect of the i-th part on the page read so far; none when there is no such part. */
  function ReadPart(page: KnownPage, i: nat, property: string): Option<KnownPage> {
    if property == "" then Some(page)
    else if i == 0 then Some(page.(url := Some(property)))
    else if i == 1 then
      if IsSource(property) then Some(page.(source := Some(property))) else Some(page.(scanId := Some(property)))
    else if i == 2 then
      if IsEmpty(page.scanId) then Some(page.(scanId := Some(property))) else Some(page.(runState := Some(property)))
    else if i == 3 then
      if IsEmpty(page.runState) then Some(page.(runState := Some(property))) else Some(page.(scanState := Some(property)))
    else if i == 4 then Some(page.(scanState := Some(property)))
    else None
  }

  function ReadParts(parts: seq<string>): Result<KnownPage, string> {
    if parts == [] then Success(EMPTY)
    else
      match ReadParts(parts[..|parts| - 1])
      case Failure(e) => Failure(e)
      case Success(page) =>
        match ReadPart(page, |parts| - 1, parts[|parts| - 1])
        case Some(next) => Success(next)
        case None => Failure(FORMAT_ERROR)
  }

  /** Success(None) stands for `undefined`. */
  function Parse(value: string): Result<Option<KnownPage>, string> {
    if value == "" then Success(None)
    else
      match ReadParts(Split(value, SEPARATOR))
      case Failure(e) => Failure(e)
      case Success(page) => Success(Some(page))
  }

  class KnownPageTypeConverter {
    constructor () {}

    method ConvertStringToKnownPage(value: string) returns (r: Result<Option<KnownPage>, string>)
      ensures r == Parse(value)
    {
      if value == "" { return Success(None); }
      var page := EMPTY;
      var properties := Split(value, SEPARATOR);
      var i := 0;
      while i < |properties|
        invariant i <= |properties|
        invariant ReadParts(properties[..i]) == Success(page)
      {
        assert properties[..i + 1][..i] == properties[..i];
        var next := ReadPart(page, i, properties[i]);
        if next.None? {
          FailureIsFinal(properties, i + 1);
          return Failure(FORMAT_ERROR);
        }
        page := next.value;
        i := i + 1;
      }
      assert properties[..|properties|] == properties;
      r := Success(Some(page));
    }
  }

  lemma {:induction false} FailureIsFinal(parts: seq<string>, i: nat)
    requires i <= |parts| && ReadParts(parts[..i]) == Failure(FORMAT_ERROR)
    ensures ReadParts(parts) == Failure(FORMAT_ERROR)
  {
    if i < |parts| {
      FailureIsFinal(parts[..|parts| - 1], i) by {
        assert parts[..|parts| - 1][..i] == parts[..i];
      }
    } else {
      assert parts[..i] == parts;
    }
  }

  // ----- stripping loses nothing -----

  lemma ReadEmptyPart(parts: seq<string>)
    ensures ReadParts(parts + [""]) == ReadParts(parts)
  {
    assert (parts + [""])[..|parts|] == parts;
  }

  lemma {:induction false} SplitSnocSeparator(value: string)
    ensures Split(value + [SEPARATOR], SEPARATOR) == Split(value, SEPARATOR) + [""]
  {
    if value == "" {
      assert ([SEPARATOR])[1..] == "";
      assert value + [SEPARATOR] == [SEPARATOR];
    } else {
      assert (value + [SEPARATOR])[1..] == value[1..] + [SEPARATOR];
      SplitSnocSeparator(value[1..]);
    }
  }

  /** Stripping separators at the end changes nothing that parsing reads. */
  lemma {:induction false} StrippingIsHarmless(value: string)
    ensures ReadParts(Split(StripTrailing(value), SEPARATOR)) == ReadParts(Split(value, SEPARATOR))
  {
    if value != "" && value[|value| - 1] == SEPARATOR {
      var init := value[..|value| - 1];
      StrippingIsHarmless(init);
      assert value == init + [SEPARATOR];
      SplitSnocSeparator(init);
      ReadEmptyPart(Split(init, SEPARATOR));
    }
  }

  // ----- round trips -----

  ghost predicate Clean(property: Option<string>) {
    property.Some? ==> property.value != "" && SEPARATOR !in property.value
  }

  /** Every property is missing, or non-empty and without a separator; a source is one of the two words. */
  ghost predicate Legal(page: KnownPage) {
    && Clean(page.url) && Clean(page.source) && Clean(page.scanId) && Clean(page.runState) && Clean(page.scanState)
    && page.source in {None, Some("request"), Some("crawler")}
  }

  /** The set properties form a prefix of scanId, runState, scanState, and scanId does not read as a source. */
  predicate IsPrefix(page: KnownPage) {
    && (page.runState.Some? ==> page.scanId.Some?)
    && (page.scanState.Some? ==> page.runState.Some?)
    && page.scanId !in {Some("request"), Some("crawler")}
  }

  /** Whatever is read is legal. */
  lemma {:induction false} ReadIsLegal(parts: seq<string>)
    requires forall p :: p in parts ==> SEPARATOR !in p
    ensures ReadParts(parts).Success? ==> Legal(ReadParts(parts).value)
  {
    if parts != [] { ReadIsLegal(parts[..|parts| - 1]); }
  }

  lemma ReadSnoc(parts: seq<string>, last: string, page: KnownPage)
    requires ReadParts(parts) == Success(page) && |parts| <= 4
    ensures ReadParts(parts + [last]) == Success(ReadPart(page, |parts|, last).value)
  {
    PartIsRead(page, |parts|, last);
    hide ReadPart;
    assert (parts + [last])[..|parts|] == parts;
    assert |parts + [last]| - 1 == |parts| && (parts + [last])[|parts|] == last;
  }

  lemma PartIsRead(page: KnownPage, i: nat, property: string)
    requires i <= 4
    ensures ReadPart(page, i, property).Some?
  {}

  /** Reading up to five parts one after the other. */
  function ReadAll(a: string, b: string, c: string, d: string): KnownPage {
    ReadPart(ReadPart(ReadPart(ReadPart(EMPTY, 0, a).value, 1, b).value, 2, c).value, 3, d).value
  }

  lemma ReadFour(a: string, b: string, c: string, d: string, e: string)
    ensures ReadParts([a, b, c, d]) == Success(ReadAll(a, b, c, d))
    ensures ReadParts([a, b, c, d, e]) == Success(ReadPart(ReadAll(a, b, c, d), 4, e).value)
  {
    PartIsRead(EMPTY, 0, a);
    hide ReadPart;
    ReadFirst(a);
    var p1 := ReadPart(EMPTY, 0, a).value;
    ReadSnoc([a], b, p1);
    var p2 := ReadPart(p1, 1, b).value;
    assert [a] + [b] == [a, b];
    ReadSnoc([a, b], c, p2);
    assert [a, b] + [c] == [a, b, c];
    ReadSnoc([a, b, c], d, ReadPart(p2, 2, c).value);
    assert [a, b, c] + [d] == [a, b, c, d];
    ReadSnoc([a, b, c, d], e, ReadAll(a, b, c, d));
    assert [a, b, c, d] + [e] == [a, b, c, d, e];
  }

  lemma ReadFirst(a: string)
    ensures ReadParts([a]) == Success(ReadPart(EMPTY, 0, a).value)
  {
    assert [a][..0] == [];
  }

  /** What is read from the parts of a legal page. */
  lemma ReadOwnParts(page: KnownPage)
    requires Legal(page)
    ensures ReadParts(Parts(page)) == Success(page) <==> page.source.Some? || IsPrefix(page)
  {
    var u, s, r, c := Printed(page.url), Printed(page.scanId), Printed(page.runState), Printed(page.scanState);
    hide ReadParts;
    if page.source.Some? {
      assert Parts(page) == [u, page.source.value, s, r, c];
      ReadFour(u, page.source.value, s, r, c);
    } else {
      assert Parts(page) == [u, s, r, c];
      ReadFour(u, s, r, c, "");
    }
  }

  /** A page comes back from its string if and only if it holds something, each property is missing or else non-empty and
      free of separators, and it has a source or its set properties form a prefix whose scan id is no source word. */
  lemma RoundTrip(page: KnownPage)
    ensures Parse(ConvertKnownPageToString(page)) == Success(Some(page))
            <==> page != EMPTY && Legal(page) && (page.source.Some? || IsPrefix(page))
  {
    hide ReadParts, IsPrefix, Parts;
    var value := Join(Parts(page), SEPARATOR);
    SplitPartsClean(ConvertKnownPageToString(page), SEPARATOR);
    ReadIsLegal(Split(ConvertKnownPageToString(page), SEPARATOR));
    if Legal(page) && page != EMPTY {
      PartsAreClean(page);
      SplitJoin(Parts(page), SEPARATOR);
      StrippingIsHarmless(value);
      ReadOwnParts(page);
      ReadNothing();
      if StripTrailing(value) == "" { SomethingIsRead(page); }
    }
  }

  lemma PartsAreClean(page: KnownPage)
    requires Legal(page)
    ensures |Parts(page)| >= 1 && forall p :: p in Parts(page) ==> SEPARATOR !in p
  {}

  lemma ReadNothing()
    ensures Split("", SEPARATOR) == [""] && ReadParts([""]) == Success(EMPTY)
  {
    ReadFirst("");
  }

  /** A legal page that holds something does not print to separators alone. */
  lemma SomethingIsRead(page: KnownPage)
    requires Legal(page) && page != EMPTY
    ensures ReadParts(Parts(page)) != Success(EMPTY)
  {
    var u, s, r, c := Printed(page.url), Printed(page.scanId), Printed(page.runState), Printed(page.scanState);
    hide ReadParts;
    if page.source.Some? {
      assert Parts(page) == [u, page.source.value, s, r, c];
      ReadFour(u, page.source.value, s, r, c);
    } else {
      assert Parts(page) == [u, s, r, c];
      ReadFour(u, s, r, c, "");
    }
  }

  /** The page that the converter's own tests print as `url3|||pass` reads back with a run state for its scan state. */
  lemma ScanStateAloneIsMisread()
    ensures var page := KnownPage(Some("url3"), None, None, None, Some("pass"));
      Parse(ConvertKnownPageToString(page)) == Success(Some(KnownPage(Some("url3"), None, None, Some("pass"), None)))
  {
    var page := KnownPage(Some("url3"), None, None, None, Some("pass"));
    PartsAreClean(page);
    SplitJoin(Parts(page), SEPARATOR);
    StrippingIsHarmless(Join(Parts(page), SEPARATOR));
    assert Parts(page) == ["url3", "", "", "pass"];
    ReadFour("url3", "", "", "pass", "");
    ReadNothing();
  }

  // ----- lists of pages -----

  /** `generateBase64Hash128` of a URL: any deterministic function. */
  type UrlHash = string -> string

  function HashOf(hash: UrlHash, page: KnownPage): string { hash(Printed(page.url)) }

  /** The object that stores a list of pages, keyed by URL hash. A later page overwrites an earlier one in its place. */
  function ConvertKnownPagesToObject(pages: seq<KnownPage>, hash: UrlHash): Table<string> {
    if pages == [] then Table([], map[])
    else
      var last := pages[|pages| - 1];
      ConvertKnownPagesToObject(pages[..|pages| - 1], hash).Put(HashOf(hash, last), ConvertKnownPageToString(last))
  }

  ghost predicate RoundTrips(page: KnownPage) {
    Parse(ConvertKnownPageToString(page)) == Success(Some(page))
  }

  /** The last page of a list with a given URL hash. */
  function LastWith(pages: seq<KnownPage>, hash: UrlHash, key: string): Option<KnownPage> {
    if pages == [] then None
    else if HashOf(hash, pages[|pages| - 1]) == key then Some(pages[|pages| - 1])
    else LastWith(pages[..|pages| - 1], hash, key)
  }

  lemma {:induction false} LastWithFacts(pages: seq<KnownPage>, hash: UrlHash, key: string)
    ensures LastWith(pages, hash, key).None? <==> forall page :: page in pages ==> HashOf(hash, page) != key
  {
    if pages != [] {
      LastWithFacts(pages[..|pages| - 1], hash, key);
      assert pages == pages[..|pages| - 1] + [pages[|pages| - 1]];
    }
  }

  /** The object holds, for each URL hash in the list, the string of the last page with that hash, and nothing else. */
  lemma {:induction false} LastPageWins(pages: seq<KnownPage>, hash: UrlHash, key: string)
    ensures ConvertKnownPagesToObject(pages, hash).Valid()
    ensures ConvertKnownPagesToObject(pages, hash).Lookup(key)
         == var page := LastWith(pages, hash, key);
            if page.Some? then Some(ConvertKnownPageToString(page.value)) else None
  {
    hide ConvertKnownPageToString;
    if pages != [] {
      LastPageWins(pages[..|pages| - 1], hash, key);
    }
  }

  function Hashes(pages: seq<KnownPage>, hash: UrlHash): seq<string> { Map((page: KnownPage) => HashOf(hash, page), pages) }

  /** The keys of the object are the URL hashes in first-seen order. */
  lemma {:induction false} KeysInOrder(pages: seq<KnownPage>, hash: UrlHash)
    ensures ConvertKnownPagesToObject(pages, hash).Valid()
    ensures ConvertKnownPagesToObject(pages, hash).order == FirstSeen(Hashes(pages, hash))
  {
    hide ConvertKnownPageToString;
    if pages == [] {
      NothingStored();
    } else {
      var init, last := pages[..|pages| - 1], pages[|pages| - 1];
      KeysInOrder(init, hash);
      assert Hashes(pages, hash) == Hashes(init, hash) + [HashOf(hash, last)];
      FirstSeenSnoc(Hashes(init, hash), HashOf(hash, last));
      var before := ConvertKnownPagesToObject(init, hash);
      assert HashOf(hash, last) in before.order <==> HashOf(hash, last) in Elements(before.order);
    }
  }

  /** When no hash repeats, the object holds the pages' strings in their order. */
  lemma {:induction false} StoredInOrder(pages: seq<KnownPage>, hash: UrlHash)
    requires Distinct(Hashes(pages, hash))
    ensures var t := ConvertKnownPagesToObject(pages, hash);
      t.Valid() && t.Values() == Map((page: KnownPage) => ConvertKnownPageToString(page), pages)
  {
    hide ConvertKnownPageToString, Table<string>.Put, Table<string>.Values, Table<string>.Valid, Table<string>.Lookup, HashOf,
      Hashes, LastWith;
    if pages == [] {
      NothingStored();
    } else {
      var init, last := pages[..|pages| - 1], pages[|pages| - 1];
      assert pages == init + [last];
      NewHash(init, last, hash);
      StoredInOrder(init, hash);
      LastPageWins(init, hash, HashOf(hash, last));
      PutAtEnd(ConvertKnownPagesToObject(init, hash), HashOf(hash, last), ConvertKnownPageToString(last));
    }
  }

  lemma NewHash(pages: seq<KnownPage>, last: KnownPage, hash: UrlHash)
    requires Distinct(Hashes(pages + [last], hash))
    ensures Distinct(Hashes(pages, hash)) && LastWith(pages, hash, HashOf(hash, last)).None?
  {
    hide HashOf, LastWith;
    LastWithFacts(pages, hash, HashOf(hash, last));
    var hashes := Hashes(pages + [last], hash);
    assert hashes == Hashes(pages, hash) + [HashOf(hash, last)];
    forall page | page in pages ensures HashOf(hash, page) != HashOf(hash, last) {
      var k :| 0 <= k < |pages| && pages[k] == page;
      assert hashes[k] == HashOf(hash, page) && hashes[|pages|] == HashOf(hash, last);
    }
    forall i, j | 0 <= i < j < |pages| ensures Hashes(pages, hash)[i] != Hashes(pages, hash)[j] {
      assert hashes[i] == Hashes(pages, hash)[i] && hashes[j] == Hashes(pages, hash)[j];
    }
  }

  /** Expanding the object gives the pages again, in order. */
  ghost predicate ComesBack(pages: seq<KnownPage>, hash: UrlHash)
    requires ConvertKnownPagesToObject(pages, hash).Valid()
  {
    var values := ConvertKnownPagesToObject(pages, hash).Values();
    |values| == |pages| && forall i :: 0 <= i < |pages| ==> Parse(values[i]) == Success(Some(pages[i]))
  }

  /** A list of pages comes back from its object, in order, if and only if no URL hash repeats and each page round-trips. */
  lemma ListRoundTrip(pages: seq<KnownPage>, hash: UrlHash)
    ensures ConvertKnownPagesToObject(pages, hash).Valid()
    ensures ComesBack(pages, hash) <==> Distinct(Hashes(pages, hash)) && forall page :: page in pages ==> RoundTrips(page)
  {
    hide ConvertKnownPageToString, Parse, ConvertKnownPagesToObject;
    KeysInOrder(pages, hash);
    var t, hashes := ConvertKnownPagesToObject(pages, hash), Hashes(pages, hash);
    FirstSeenFacts(hashes);
    DistinctCardinality(t.order);
    CardinalityAtMostLength(hashes);
    if Distinct(hashes) {
      StoredInOrder(pages, hash);
      if ComesBack(pages, hash) {
        forall page | page in pages ensures RoundTrips(page) {
          var i :| 0 <= i < |pages| && pages[i] == page;
          assert t.Values()[i] == ConvertKnownPageToString(page);
        }
      }
      if forall page :: page in pages ==> RoundTrips(page) {
        forall i | 0 <= i < |pages| ensures Parse(t.Values()[i]) == Success(Some(pages[i])) {
          assert RoundTrips(pages[i]);
        }
        DistinctCardinality(hashes);
      }
    }
  }

  lemma NothingStored()
    ensures var t: Table<string> := Table([], map[]); t.Valid()
  {}

  lemma PutAtEnd(t: Table<string>, key: string, value: string)
    requires t.Valid() && t.Lookup(key).None?
    ensures t.Put(key, value).Valid() && t.Put(key, value).order == t.order + [key]
    ensures t.Put(key, value).Values() == t.Values() + [value]
  {
    assert forall k :: k in t.order <==> k in Elements(t.order);
  }
}
