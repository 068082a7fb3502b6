/** Merging scanned pages into the combined results of a web site, with the conditional write of the stored blob:
    packages/service-library/src/combined-report-provider/combined-axe-result-builder.ts. */
module CombinedResults {
  import opened Common
  import opened HashSets
  import opened AxeResults

  datatype UrlCount = UrlCount(failed: nat, passed: nat, total: nat)

  /** The value of combined results. */
  datatype Combined = Combined(
    urlCount: UrlCount, urls: seq<string>,
    violations: Table<AxeResult>, passes: Table<AxeResult>, incomplete: Table<AxeResult>, inapplicable: Table<AxeResult>)

  const EMPTY := Combined(UrlCount(0, 0, 0), [], Table([], map[]), Table([], map[]), Table([], map[]), Table([], map[]))

  predicate HasViolations(page: PageResults) { page.violations.Some? && page.violations.value != [] }

  function CountPage(c: UrlCount, page: PageResults): UrlCount {
    if HasViolations(page) then UrlCount(c.failed + 1, c.passed, c.total + 1) else UrlCount(c.failed, c.passed + 1, c.total + 1)
  }

  function MergePage(hash: Hash, c: Combined, page: PageResults): Combined {
    Combined(CountPage(c.urlCount, page), PushNew(c.urls, page.url),
             RecordAll(c.violations, page.url, Sightings(hash, Listed(page.violations))),
             RecordAll(c.passes, page.url, Sightings(hash, Listed(page.passes))),
             RecordAll(c.incomplete, page.url, Sightings(hash, Listed(page.incomplete))),
             RecordAll(c.inapplicable, page.url, RuleSightings(hash, Listed(page.inapplicable))))
  }

  function MergeAll(hash: Hash, first: Combined, pages: seq<PageResults>): Combined {
    if pages == [] then first else MergePage(hash, MergeAll(hash, first, pages[..|pages| - 1]), pages[|pages| - 1])
  }

  function PagesWithViolations(pages: seq<PageResults>): seq<PageResults> { Filter(HasViolations, pages) }

  /** The counts and the violations of merged pages: each page counts once, as failed exactly when it lists violations, so
      none is left over as unscannable; and the violations are the accumulation of the pages. */
  lemma {:induction false} MergedCounts(hash: Hash, pages: seq<PageResults>)
    ensures var c := MergeAll(hash, EMPTY, pages);
      && c.urlCount.total == |pages| && c.urlCount.failed == |PagesWithViolations(pages)|
      && c.urlCount.total - (c.urlCount.failed + c.urlCount.passed) == 0
      && c.violations == Accumulate(ViolationVisits(hash, pages))
      && c.urls == FirstSeen(Map((p: PageResults) => p.url, pages))
  {
    hide RecordAll, Sightings, RuleSightings;
    if pages != [] {
      var init, last := pages[..|pages| - 1], pages[|pages| - 1];
      MergedCounts(hash, init);
      assert pages == init + [last];
      FilterAppend(HasViolations, init, [last]);
      OneFiltered(last);
      VisitsSnoc(hash, init, last);
      MapAppend((p: PageResults) => p.url, init, [last]);
      FirstSeenSnoc(Map((p: PageResults) => p.url, init), last.url);
      assert Map((p: PageResults) => p.url, [last]) == [last.url];
    }
  }

  lemma OneFiltered(page: PageResults)
    ensures Filter(HasViolations, [page]) == if HasViolations(page) then [page] else []
  {}

  lemma VisitsSnoc(hash: Hash, pages: seq<PageResults>, page: PageResults)
    ensures Accumulate(ViolationVisits(hash, pages + [page]))
         == RecordAll(Accumulate(ViolationVisits(hash, pages)), page.url, Sightings(hash, Listed(page.violations)))
  {
    hide RecordAll, Sightings;
    var visits := ViolationVisits(hash, pages + [page]);
    assert visits[..|visits| - 1] == ViolationVisits(hash, pages);
  }

  // ----- concurrent builders -----

  datatype Blob = Blob(content: Combined, etag: nat)

  /** A builder that has read the blob it works on, or found none. */
  datatype Builder = Builder(blobId: string, read: Option<Blob>, page: PageResults)

  /** `made` counts the blob ids made so far; `merged` lists, by blob, the pages whose writes were taken. */
  datatype System = System(
    blobs: map<string, Blob>, writes: nat, made: nat, pending: map<int, Builder>, merged: map<string, seq<PageResults>>)

  /** A builder that was given no blob id makes one. */
  datatype Event = Read(client: int, blobId: Option<string>, page: PageResults) | Write(client: int) | Stop(client: int)

  type NewIds = nat -> string

  /** `createGuid` never makes one id twice, nor that of a stored blob. Stored blobs have the etag 0. */
  ghost predicate MakesFresh(newIds: NewIds, first: map<string, Blob>) {
    && (forall m: nat, n: nat :: newIds(m) == newIds(n) ==> m == n)
    && (forall n: nat :: newIds(n) !in first)
    && (forall id :: id in first ==> first[id].etag == 0)
  }

  predicate Enabled(s: System, e: Event) {
    if e.Read? then e.client !in s.pending else e.client in s.pending
  }

  function Lookup<T>(m: map<string, T>, key: string): Option<T> { if key in m then Some(m[key]) else None }

  /** Without an etag the write is unconditional; with one it must be that of the blob. */
  predicate Accepts(blob: Option<Blob>, etag: Option<nat>) {
    etag.None? || (blob.Some? && blob.value.etag == etag.value)
  }

  function EtagOf(blob: Option<Blob>): Option<nat> { if blob.Some? then Some(blob.value.etag) else None }

  function ContentOf(blob: Option<Blob>): Combined { if blob.Some? then blob.value.content else EMPTY }

  function PagesOf(s: System, id: string): seq<PageResults> { if id in s.merged then s.merged[id] else [] }

  function Next(hash: Hash, newIds: NewIds, s: System, e: Event): System
    requires Enabled(s, e)
  {
    match e
    case Read(c, Some(id), page) => s.(pending := s.pending[c := Builder(id, Lookup(s.blobs, id), page)])
    case Read(c, None, page) => s.(pending := s.pending[c := Builder(newIds(s.made), None, page)], made := s.made + 1)
    case Write(c) =>
      var b := s.pending[c];
      if Accepts(Lookup(s.blobs, b.blobId), EtagOf(b.read)) then
        s.(blobs := s.blobs[b.blobId := Blob(MergePage(hash, ContentOf(b.read), b.page), s.writes + 1)],
           writes := s.writes + 1, pending := s.pending - {c}, merged := s.merged[b.blobId := PagesOf(s, b.blobId) + [b.page]])
      else s.(pending := s.pending - {c})
    case Stop(c) => s.(pending := s.pending - {c})
  }

  /** What cannot happen is passed over. */
  function Do(hash: Hash, newIds: NewIds, s: System, e: Event): System { if Enabled(s, e) then Next(hash, newIds, s, e) else s }

  function Start(first: map<string, Blob>): System { System(first, 0, 0, map[], map[]) }

  /** The state some events lead to from some stored blobs. */
  function After(hash: Hash, newIds: NewIds, first: map<string, Blob>, events: seq<Event>): System {
    if events == [] then Start(first)
    else Do(hash, newIds, After(hash, newIds, first, events[..|events| - 1]), events[|events| - 1])
  }

  /** A builder that found no blob writes over one that came to be since. */
  predicate Overwrites(s: System, e: Event, id: string) {
    && e.Write? && Enabled(s, e)
    && s.pending[e.client].blobId == id && s.pending[e.client].read.None? && id in s.blobs
  }

  predicate Overwritten(hash: Hash, newIds: NewIds, first: map<string, Blob>, events: seq<Event>, id: string) {
    && events != []
    && var init := events[..|events| - 1];
       || Overwritten(hash, newIds, first, init, id)
       || Overwrites(After(hash, newIds, first, init), events[|events| - 1], id)
  }

  /** What holds of one blob in every state, overwritten or not. */
  ghost predicate Inv(hash: Hash, newIds: NewIds, first: map<string, Blob>, s: System, id: string, overwritten: bool) {
    && (id in s.blobs <==> id in first || PagesOf(s, id) != [])
    && (id in s.blobs ==> s.blobs[id].etag <= s.writes)
    && (forall c :: c in s.pending && s.pending[c].blobId == id ==> ReadEarlier(newIds, first, s, s.pending[c]))
    && (if overwritten then
          id !in first && ContentOf(Lookup(s.blobs, id)).urlCount.total < |PagesOf(s, id)|
        else
          ContentOf(Lookup(s.blobs, id)) == MergeAll(hash, ContentOf(Lookup(first, id)), PagesOf(s, id)))
  }

  ghost predicate ReadEarlier(newIds: NewIds, first: map<string, Blob>, s: System, b: Builder) {
    && (b.read.None? ==> b.blobId !in first)
    && (b.read.Some? ==>
          && b.blobId in s.blobs && b.read.value.etag <= s.writes
          && (b.read.value.etag == s.blobs[b.blobId].etag ==> b.read.value == s.blobs[b.blobId]))
  }

  lemma MergeAllSnoc(hash: Hash, first: Combined, pages: seq<PageResults>, page: PageResults)
    ensures MergeAll(hash, first, pages + [page]) == MergePage(hash, MergeAll(hash, first, pages), page)
  {
    hide MergePage;
    assert (pages + [page])[..|pages|] == pages;
  }

  lemma MergedPageCounts(hash: Hash, c: Combined, page: PageResults)
    ensures MergePage(hash, c, page).urlCount.total == c.urlCount.total + 1
  {
    hide RecordAll, Sightings, RuleSightings;
  }

  lemma WriteKeepsInv(hash: Hash, newIds: NewIds, first: map<string, Blob>, s: System, c: int, id: string, overwritten: bool)
    requires MakesFresh(newIds, first) && Inv(hash, newIds, first, s, id, overwritten)
    requires c in s.pending && s.pending[c].blobId == id
    ensures Inv(hash, newIds, first, Next(hash, newIds, s, Write(c)), id, overwritten || Overwrites(s, Write(c), id))
  {
    hide MergeAll, MergePage;
    var b, base := s.pending[c], ContentOf(Lookup(first, id));
    MergeAllSnoc(hash, base, PagesOf(s, id), b.page);
    MergeNone(hash, base);
    MergedPageCounts(hash, ContentOf(b.read), b.page);
  }

  lemma StepKeepsInv(hash: Hash, newIds: NewIds, first: map<string, Blob>, s: System, e: Event, id: string, overwritten: bool)
    requires MakesFresh(newIds, first) && Inv(hash, newIds, first, s, id, overwritten)
    ensures Inv(hash, newIds, first, Do(hash, newIds, s, e), id, overwritten || Overwrites(s, e, id))
  {
    hide MergeAll, MergePage;
    if Enabled(s, e) && e.Write? && s.pending[e.client].blobId == id {
      WriteKeepsInv(hash, newIds, first, s, e.client, id, overwritten);
    }
  }

  lemma MergeNone(hash: Hash, first: Combined)
    ensures MergeAll(hash, first, []) == first
  {}

  lemma {:induction false} InvHolds(hash: Hash, newIds: NewIds, first: map<string, Blob>, events: seq<Event>, id: string)
    requires MakesFresh(newIds, first)
    ensures Inv(hash, newIds, first, After(hash, newIds, first, events), id, Overwritten(hash, newIds, first, events, id))
  {
    hide Inv, Do, Overwrites;
    if events == [] {
      StartInv(hash, newIds, first, id);
    } else {
      var init := events[..|events| - 1];
      InvHolds(hash, newIds, first, init, id);
      StepKeepsInv(hash, newIds, first, After(hash, newIds, first, init), events[|events| - 1], id,
                   Overwritten(hash, newIds, first, init, id));
    }
  }

  lemma StartInv(hash: Hash, newIds: NewIds, first: map<string, Blob>, id: string)
    requires MakesFresh(newIds, first)
    ensures Inv(hash, newIds, first, Start(first), id, false)
  {
    MergeNone(hash, ContentOf(Lookup(first, id)));
  }

  /** In every interleaving of builders, a blob holds the merge of all the pages whose writes to it were taken, in the order
      they were taken, if and only if no builder that had found no blob wrote over one that came to be since. */
  lemma NoPageIsLostIffNotOverwritten(
    hash: Hash, newIds: NewIds, first: map<string, Blob>, events: seq<Event>, id: string)
    requires MakesFresh(newIds, first)
    ensures var s := After(hash, newIds, first, events);
      ContentOf(Lookup(s.blobs, id)) == MergeAll(hash, ContentOf(Lookup(first, id)), PagesOf(s, id))
      <==> !Overwritten(hash, newIds, first, events, id)
  {
    hide MergeAll, After, Overwritten;
    InvHolds(hash, newIds, first, events, id);
    MergedCounts(hash, PagesOf(After(hash, newIds, first, events), id));
  }

  /** Once a blob is there no write that succeeds loses a page of another. */
  lemma NoPageIsLost(hash: Hash, newIds: NewIds, first: map<string, Blob>, events: seq<Event>, id: string)
    requires MakesFresh(newIds, first) && id in first
    ensures var s := After(hash, newIds, first, events);
      id in s.blobs && s.blobs[id].content == MergeAll(hash, first[id].content, PagesOf(s, id))
  {
    hide MergeAll, After, Overwritten;
    InvHolds(hash, newIds, first, events, id);
  }

  ghost predicate OwnInv(s: System, n: nat, id: string) {
    && (forall c, d :: c in s.pending && d in s.pending && s.pending[c].blobId == s.pending[d].blobId == id ==> c == d)
    && (forall c :: c in s.pending && s.pending[c].blobId == id ==> n < s.made && id !in s.blobs && s.pending[c].read.None?)
    && (n >= s.made ==> id !in s.blobs)
    && (id in s.blobs <==> PagesOf(s, id) != []) && |PagesOf(s, id)| <= 1
  }

  /** A builder that was given no blob id works on a blob of its own: while nobody is given that id, the blob is written at
      most once, holds just that page, and no page is lost from it. */
  lemma OwnStepKeepsInv(hash: Hash, newIds: NewIds, first: map<string, Blob>, s: System, e: Event, n: nat)
    requires MakesFresh(newIds, first) && OwnInv(s, n, newIds(n)) && !(e.Read? && e.blobId == Some(newIds(n)))
    ensures OwnInv(Do(hash, newIds, s, e), n, newIds(n)) && !Overwrites(s, e, newIds(n))
  {
    hide MergePage;
  }

  lemma {:induction false} OwnBlobIsUntouched(
    hash: Hash, newIds: NewIds, first: map<string, Blob>, events: seq<Event>, n: nat)
    requires MakesFresh(newIds, first)
    requires forall e :: e in events && e.Read? ==> e.blobId != Some(newIds(n))
    ensures var s, id := After(hash, newIds, first, events), newIds(n);
      && OwnInv(s, n, id) && |PagesOf(s, id)| <= 1 && !Overwritten(hash, newIds, first, events, id)
      && ContentOf(Lookup(s.blobs, id)) == MergeAll(hash, EMPTY, PagesOf(s, id))
  {
    hide MergePage, MergeAll, Do, Overwrites;
    NoPageIsLostIffNotOverwritten(hash, newIds, first, events, newIds(n));
    if events != [] {
      var init := events[..|events| - 1];
      assert events[|events| - 1] in events && forall e :: e in init ==> e in events;
      OwnBlobIsUntouched(hash, newIds, first, init, n);
      OwnStepKeepsInv(hash, newIds, first, After(hash, newIds, first, init), events[|events| - 1], n);
    }
  }

  /** The smallest case: two builders are given one id of a blob that is not there yet. If both find none before either
      writes, the first page is lost although its write succeeded; if the second reads later, both are kept. */
  lemma FirstWritesRace(hash: Hash, newIds: NewIds, id: string, p: PageResults, q: PageResults)
    ensures var s := After(hash, newIds, map[], [Read(1, Some(id), p), Read(2, Some(id), q), Write(1), Write(2)]);
      PagesOf(s, id) == [p, q] && ContentOf(Lookup(s.blobs, id)) == MergeAll(hash, EMPTY, [q])
    ensures var s := After(hash, newIds, map[], [Read(1, Some(id), p), Write(1), Read(2, Some(id), q), Write(2)]);
      PagesOf(s, id) == [p, q] && ContentOf(Lookup(s.blobs, id)) == MergeAll(hash, EMPTY, [p, q])
  {
    hide MergePage;
    assert [q][..0] == [] && [p, q][..1] == [p] && [p][..0] == [];
    AfterFour(hash, newIds, Read(1, Some(id), p), Read(2, Some(id), q), Write(1), Write(2));
    AfterFour(hash, newIds, Read(1, Some(id), p), Write(1), Read(2, Some(id), q), Write(2));
  }

  lemma AfterFour(hash: Hash, newIds: NewIds, a: Event, b: Event, c: Event, d: Event)
    ensures After(hash, newIds, map[], [a, b, c, d])
         == Do(hash, newIds, Do(hash, newIds, Do(hash, newIds, Do(hash, newIds, Start(map[]), a), b), c), d)
  {
    hide Do;
    AfterSnoc(hash, newIds, [a, b, c], d);
    AfterSnoc(hash, newIds, [a, b], c);
    AfterSnoc(hash, newIds, [a], b);
    AfterSnoc(hash, newIds, [], a);
    assert [] + [a] == [a] && [a] + [b] == [a, b] && [a, b] + [c] == [a, b, c] && [a, b, c] + [d] == [a, b, c, d];
  }

  lemma AfterSnoc(hash: Hash, newIds: NewIds, events: seq<Event>, e: Event)
    ensures After(hash, newIds, map[], events + [e]) == Do(hash, newIds, After(hash, newIds, map[], events), e)
  {
    hide Do;
    assert (events + [e])[..|events|] == events;
  }

  // ----- the builder -----

  class CombinedScanResults {
    var urlCount: UrlCount
    const axeResults: AxeCoreResults

    ghost const Repr: set<object> := {this} + axeResults.Repr

    ghost predicate Valid()
      reads this, axeResults.Repr
    {
      axeResults.Valid() && axeResults.urls.Some? && this !in axeResults.Repr
    }

    function Value(): Combined
      requires axeResults.urls.Some?
      reads this, axeResults, axeResults.violations, axeResults.passes, axeResults.incomplete, axeResults.inapplicable
    {
      Combined(urlCount, axeResults.urls.value, axeResults.violations.Contents(), axeResults.passes.Contents(),
               axeResults.incomplete.Contents(), axeResults.inapplicable.Contents())
    }

    constructor ()
      ensures Valid() && fresh(Repr) && Value() == EMPTY
    {
      urlCount := UrlCount(0, 0, 0);
      axeResults := new AxeCoreResults();
      new;
      axeResults.urls := Some([]);
    }
  }

  /** What a write of the blob answers; any other status of the service is an error with that status. */
  datatype WriteResponse = Written(etag: nat) | EtagMismatch | HttpStatusError(statusCode: int)

  class BlobStore {
    var blobs: map<string, Blob>
    var writes: nat

    /** `fault` is the status with which the service refuses for reasons of its own. */
    method WriteCombinedResults(id: string, content: Combined, etag: Option<nat>, fault: Option<int>) returns (r: WriteResponse)
      modifies this
      ensures r.Written? <==> fault.None? && Accepts(Lookup(old(blobs), id), etag)
      ensures r.Written? ==> blobs == old(blobs)[id := Blob(content, r.etag)] && writes == r.etag == old(writes) + 1
      ensures !r.Written? ==>
        && blobs == old(blobs) && writes == old(writes)
        && r == if fault.Some? then HttpStatusError(fault.value) else EtagMismatch
    {
      if fault.Some? { return HttpStatusError(fault.value); }
      if !Accepts(Lookup(blobs, id), etag) { return EtagMismatch; }
      writes := writes + 1;
      blobs := blobs[id := Blob(content, writes)];
      r := Written(writes);
    }
  }

  const WRITE_FAILED := "Failed to write new combined axe scan results blob."

  class CombinedAxeResultBuilder {
    const axeResultsReducer: AxeResultsReducer
    const store: BlobStore

    constructor (axeResultsReducer: AxeResultsReducer, store: BlobStore)
      ensures this.axeResultsReducer == axeResultsReducer && this.store == store
    {
      this.axeResultsReducer, this.store := axeResultsReducer, store;
    }

    /** Merges a page into the results that were read, in place, and writes them back on condition of the etag read. */
    method MergeAxeResults(page: PageResults, results: CombinedScanResults, blobId: string, etag: Option<nat>, fault: Option<int>)
      returns (r: Result<CombinedScanResults, string>)
      requires results.Valid() && store !in results.Repr
      modifies results.Repr, store
      ensures results.Valid() && results.Value() == MergePage(axeResultsReducer.hash, old(results.Value()), page)
      ensures r.Success? <==> fault.None? && Accepts(Lookup(old(store.blobs), blobId), etag)
      ensures r.Success? ==> r.value == results
      ensures store.blobs == if r.Success? then old(store.blobs)[blobId := Blob(results.Value(), old(store.writes) + 1)]
                             else old(store.blobs)
    {
      hide RecordAll, Sightings, RuleSightings, Listed;
      SetScannedUrlCount(page, results);
      axeResultsReducer.Reduce(results.axeResults, page);
      var response := store.WriteCombinedResults(blobId, results.Value(), etag, fault);
      r := if response.Written? then Success(results) else Failure(WRITE_FAILED);
    }

    method SetScannedUrlCount(page: PageResults, results: CombinedScanResults)
      modifies results`urlCount
      ensures results.urlCount == CountPage(old(results.urlCount), page)
    {
      var c := results.urlCount;
      if page.violations.Some? && |page.violations.value| > 0 {
        results.urlCount := c.(failed := c.failed + 1);
      } else {
        results.urlCount := c.(passed := c.passed + 1);
      }
      results.urlCount := results.urlCount.(total := results.urlCount.total + 1);
    }
  }
}
