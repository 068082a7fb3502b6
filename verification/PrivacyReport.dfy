/** The combined privacy report of a web site: packages/privacy-scan-runner/src/combined-report/privacy-report-reducer.ts. */
module PrivacyReports {
  import opened Common
  import Guids

  datatype Cookie = Cookie(name: string, domain: string, timeStamp: Option<string>, expires: Option<string>)

  datatype CookieByDomain = CookieByDomain(domain: string, cookies: seq<Cookie>)

  datatype ConsentResult = ConsentResult(
    cookiesBeforeConsent: Option<seq<CookieByDomain>>, cookiesAfterConsent: Option<seq<CookieByDomain>>)

  datatype PageScanReport = PageScanReport(
    finishDateTime: Option<int>, navigationalUri: string, seedUri: string,
    cookieCollectionConsentResults: seq<ConsentResult>, bannerDetected: bool, bannerDetectionXpathExpression: string)

  /** What a scan fails with. A native `Error` has no enumerable fields, so `isEmpty` holds of it. */
  datatype ScanError = NativeError(message: string) | ErrorRecord(errorType: Option<string>, message: string)

  datatype ScanResult = ScanResult(pageResponseCode: Option<int>, error: Option<ScanError>, results: Option<PageScanReport>)

  datatype FailedUrl = FailedUrl(
    url: string, seedUri: string, navigationalUri: Option<string>, httpStatusCode: Option<int>, reason: ScanError,
    bannerDetected: Option<bool>, bannerDetectionXpathExpression: Option<string>)

  datatype Status = Completed | Failed

  datatype Metadata = Metadata(scanId: string, websiteScanId: string, url: string)

  /** The value of a report. */
  datatype Report = Report(
    scanId: string, status: Status, urls: seq<string>, failedUrls: seq<FailedUrl>, scanCookies: seq<Cookie>,
    cookieCollectionUrlResults: seq<PageScanReport>, startDateTime: int, finishDateTime: int)

  class CombinedReport {
    const scanId: string
    var status: Status
    var urls: seq<string>
    var failedUrls: seq<FailedUrl>
    var scanCookies: seq<Cookie>
    var cookieCollectionUrlResults: seq<PageScanReport>
    const startDateTime: int
    var finishDateTime: int

    function Value(): Report
      reads this
    {
      Report(scanId, status, urls, failedUrls, scanCookies, cookieCollectionUrlResults, startDateTime, finishDateTime)
    }

    constructor (scanId: string, startDateTime: int, now: int)
      ensures Value() == NewReport(scanId, startDateTime, now)
    {
      this.scanId, this.startDateTime, this.finishDateTime := scanId, startDateTime, now;
      status, urls, failedUrls, scanCookies, cookieCollectionUrlResults := Completed, [], [], [], [];
    }
  }

  function NewReport(scanId: string, startDateTime: int, now: int): Report {
    Report(scanId, Completed, [], [], [], [], startDateTime, now)
  }

  // ----- cookies -----

  type Key = Cookie -> string // JSON.stringify

  predicate HasKey(key: Key, cookies: seq<Cookie>, k: string) { exists c :: c in cookies && key(c) == k }

  /** lodash `uniqBy`: of the cookies with one key, the first. */
  function UniqueBy(key: Key, cookies: seq<Cookie>): seq<Cookie> {
    if cookies == [] then []
    else
      var before, last := UniqueBy(key, cookies[..|cookies| - 1]), cookies[|cookies| - 1];
      if HasKey(key, before, key(last)) then before else before + [last]
  }

  lemma UniqueBySnoc(key: Key, cookies: seq<Cookie>, c: Cookie)
    ensures UniqueBy(key, cookies + [c])
         == UniqueBy(key, cookies) + if HasKey(key, UniqueBy(key, cookies), key(c)) then [] else [c]
  {
    assert (cookies + [c])[..|cookies|] == cookies;
  }

  ghost predicate DistinctKeys(key: Key, cookies: seq<Cookie>) {
    forall i, j :: 0 <= i < j < |cookies| ==> key(cookies[i]) != key(cookies[j])
  }

  /** No two kept cookies share a key, every key is kept, and nothing else is. */
  lemma {:induction false} UniqueByFacts(key: Key, cookies: seq<Cookie>)
    ensures DistinctKeys(key, UniqueBy(key, cookies))
    ensures forall k :: HasKey(key, UniqueBy(key, cookies), k) <==> HasKey(key, cookies, k)
    ensures forall c :: c in UniqueBy(key, cookies) ==> c in cookies
  {
    if cookies != [] {
      var init, last := cookies[..|cookies| - 1], cookies[|cookies| - 1];
      UniqueByFacts(key, init);
      var before := UniqueBy(key, init);
      assert cookies == init + [last];
      forall k ensures HasKey(key, cookies, k) <==> HasKey(key, init, k) || key(last) == k {
        KeyOfAppend(key, init, [last], k);
      }
      forall k ensures HasKey(key, before + [last], k) <==> HasKey(key, before, k) || key(last) == k {
        KeyOfAppend(key, before, [last], k);
      }
      if !HasKey(key, before, key(last)) {
        assert forall i :: 0 <= i < |before| ==> before[i] in before;
      }
    }
  }

  lemma KeyOfAppend(key: Key, a: seq<Cookie>, b: seq<Cookie>, k: string)
    ensures HasKey(key, a + b, k) <==> HasKey(key, a, k) || HasKey(key, b, k)
    ensures |b| == 1 ==> (HasKey(key, b, k) <==> key(b[0]) == k)
  {
    if |b| == 1 { assert b[0] in b; }
    if HasKey(key, a, k) {
      var c :| c in a && key(c) == k;
      assert c in a + b;
    }
    if HasKey(key, b, k) {
      var c :| c in b && key(c) == k;
      assert c in a + b;
    }
  }

  /** Removing repetitions early changes nothing. */
  lemma {:induction false} UniqueByLeft(key: Key, a: seq<Cookie>, b: seq<Cookie>)
    ensures UniqueBy(key, UniqueBy(key, a) + b) == UniqueBy(key, a + b)
    ensures UniqueBy(key, a) <= UniqueBy(key, a + b)
    decreases |a| + 2 * |b|
  {
    if b == [] {
      assert a + b == a && UniqueBy(key, a) + b == UniqueBy(key, a);
      if a != [] {
        var init, last := a[..|a| - 1], a[|a| - 1];
        UniqueByLeft(key, init, []);
        assert init + [] == init && UniqueBy(key, init) + [] == UniqueBy(key, init);
        if !HasKey(key, UniqueBy(key, init), key(last)) {
          UniqueBySnoc(key, UniqueBy(key, init), last);
        }
      }
    } else {
      var init, last := b[..|b| - 1], b[|b| - 1];
      UniqueByLeft(key, a, init);
      assert a + b == (a + init) + [last] && UniqueBy(key, a) + b == (UniqueBy(key, a) + init) + [last];
      UniqueBySnoc(key, a + init, last);
      UniqueBySnoc(key, UniqueBy(key, a) + init, last);
    }
  }

  lemma {:induction false} UniqueByRight(key: Key, a: seq<Cookie>, b: seq<Cookie>)
    ensures UniqueBy(key, a + UniqueBy(key, b)) == UniqueBy(key, a + b)
  {
    if b != [] {
      var init, last := b[..|b| - 1], b[|b| - 1];
      UniqueByRight(key, a, init);
      assert a + b == (a + init) + [last];
      UniqueBySnoc(key, a + init, last);
      if HasKey(key, UniqueBy(key, init), key(last)) {
        UniqueByFacts(key, init);
        KeyOfAppend(key, a, init, key(last));
        UniqueByFacts(key, a + init);
      } else {
        assert a + UniqueBy(key, b) == (a + UniqueBy(key, init)) + [last];
        UniqueBySnoc(key, a + UniqueBy(key, init), last);
      }
    }
  }

  /** lodash `flatMap` over what `?? []` leaves. */
  function CookiesOf(byDomain: Option<seq<CookieByDomain>>): seq<Cookie> {
    match byDomain
    case None => []
    case Some(list) => Flatten(Map((d: CookieByDomain) => d.cookies, list))
  }

  function CookiesOfConsent(consent: ConsentResult): seq<Cookie> {
    CookiesOf(consent.cookiesBeforeConsent) + CookiesOf(consent.cookiesAfterConsent)
  }

  function GetCookiesFromConsentResult(key: Key, consent: ConsentResult): seq<Cookie> {
    UniqueBy(key, CookiesOfConsent(consent))
  }

  /** Every cookie of some consent results, in order. */
  function AllCookies(consents: seq<ConsentResult>): seq<Cookie> {
    if consents == [] then []
    else AllCookies(consents[..|consents| - 1]) + CookiesOfConsent(consents[|consents| - 1])
  }

  function AddCookies(key: Key, cookies: seq<Cookie>, consents: seq<ConsentResult>): seq<Cookie> {
    if consents == [] then cookies
    else
      UniqueBy(key, AddCookies(key, cookies, consents[..|consents| - 1])
                    + GetCookiesFromConsentResult(key, consents[|consents| - 1]))
  }

  /** Joining one consent result after the other is removing repetitions once. */
  lemma {:induction false} AddCookiesIsUnique(key: Key, all: seq<Cookie>, consents: seq<ConsentResult>)
    ensures AddCookies(key, UniqueBy(key, all), consents) == UniqueBy(key, all + AllCookies(consents))
  {
    hide UniqueBy, AllCookies, AddCookies, CookiesOfConsent;
    if consents == [] {
      NoMoreCookies(key, UniqueBy(key, all));
      assert all + [] == all;
    } else {
      var init, last := consents[..|consents| - 1], consents[|consents| - 1];
      assert consents == init + [last];
      OneMoreConsent(key, UniqueBy(key, all), init, last);
      AddCookiesIsUnique(key, all, init);
      var before, more := all + AllCookies(init), CookiesOfConsent(last);
      UniqueByLeft(key, before, UniqueBy(key, more));
      UniqueByRight(key, before, more);
      assert all + (AllCookies(init) + more) == before + more;
    }
  }

  lemma OneMoreConsent(key: Key, cookies: seq<Cookie>, init: seq<ConsentResult>, last: ConsentResult)
    ensures AddCookies(key, cookies, init + [last])
         == UniqueBy(key, AddCookies(key, cookies, init) + GetCookiesFromConsentResult(key, last))
    ensures AllCookies(init + [last]) == AllCookies(init) + CookiesOfConsent(last)
  {
    assert (init + [last])[..|init|] == init;
  }

  // ----- one scan -----

  /** A scan of a URL, and the clock reading when it was reduced. */
  datatype Visit = Visit(url: string, scan: ScanResult, now: int)

  /** A native error, and a missing banner, do not count. */
  predicate IsFatal(error: ScanError) {
    error.ErrorRecord? && error.errorType != Some("BannerXPathNotDetected")
  }

  function FailureOf(v: Visit): Option<FailedUrl> {
    if v.scan.error.Some? && IsFatal(v.scan.error.value) then
      var (uri, detected, xpath) := match v.scan.results
        case None => (None, None, None)
        case Some(r) => (Some(r.navigationalUri), Some(r.bannerDetected), Some(r.bannerDetectionXpathExpression));
      Some(FailedUrl(v.url, v.url, uri, v.scan.pageResponseCode, v.scan.error.value, detected, xpath))
    else None
  }

  function ResultOf(v: Visit): Option<PageScanReport> { v.scan.results }

  function ToSeq<T>(o: Option<T>): seq<T> { if o.Some? then [o.value] else [] }

  function ConsentsOf(v: Visit): seq<ConsentResult> {
    if v.scan.results.Some? then v.scan.results.value.cookieCollectionConsentResults else []
  }

  function OtherFailures(failed: seq<FailedUrl>, url: string): seq<FailedUrl> {
    Filter((f: FailedUrl) => f.seedUri != url, failed)
  }

  function OtherResults(results: seq<PageScanReport>, url: string): seq<PageScanReport> {
    Filter((r: PageScanReport) => r.seedUri != url, results)
  }

  function Reduced(key: Key, r: Report, v: Visit): Report {
    var again := v.url in r.urls;
    var failed := (if again then OtherFailures(r.failedUrls, v.url) else r.failedUrls) + ToSeq(FailureOf(v));
    var results := (if again then OtherResults(r.cookieCollectionUrlResults, v.url) else r.cookieCollectionUrlResults)
                   + ToSeq(ResultOf(v));
    var finish := if v.scan.results.Some? && v.scan.results.value.finishDateTime.Some?
                  then v.scan.results.value.finishDateTime.value else v.now;
    Report(r.scanId, if failed == [] then Completed else Failed, PushNew(r.urls, v.url), failed,
           AddCookies(key, r.scanCookies, ConsentsOf(v)), results, r.startDateTime, finish)
  }

  class PrivacyReportReducer {
    const stringify: Key

    constructor (stringify: Key)
      ensures this.stringify == stringify
    {
      this.stringify := stringify;
    }

    /** Works on the existing report in place. A first scan whose id holds no timestamp fails. */
    method ReduceResults(scan: ScanResult, existing: CombinedReport?, metadata: Metadata, now: int)
      returns (r: Result<CombinedReport, string>)
      modifies existing
      ensures r.Failure? <==> existing == null && Guids.GetGuidTimestamp(metadata.scanId).Failure?
      ensures r.Success? ==>
        && (if existing == null then fresh(r.value) else r.value == existing)
        && r.value.Value() == Reduced(stringify,
             if existing == null
             then NewReport(metadata.websiteScanId, Guids.GetGuidTimestamp(metadata.scanId).value, now)
             else old(existing.Value()),
             Visit(metadata.url, scan, now))
    {
      hide Guids.GetGuidTimestamp, Reduced;
      var report: CombinedReport;
      if existing == null {
        var start := Guids.GetGuidTimestamp(metadata.scanId);
        if start.Failure? { return Failure(start.error); }
        report := new CombinedReport(metadata.websiteScanId, start.value, now);
      } else {
        report := existing;
      }
      ReduceInto(report, scan, metadata.url, now);
      r := Success(report);
    }

    /** The rest of reduceResults. */
    method ReduceInto(report: CombinedReport, scan: ScanResult, url: string, now: int)
      modifies report
      ensures report.Value() == Reduced(stringify, old(report.Value()), Visit(url, scan, now))
    {
      hide AddCookies, FailuresWithout, ResultsWithout, OtherFailures, OtherResults, FailureOf, ToSeq;
      ghost var before, v := report.Value(), Visit(url, scan, now);
      if url in report.urls {
        RemoveUrlResultsFromReport(report, url);
      } else {
        report.urls := report.urls + [url];
      }
      ghost var failed, results := report.failedUrls, report.cookieCollectionUrlResults;
      NothingToAdd(v, failed, results);
      NoMoreCookies(stringify, report.scanCookies);
      if scan.error.Some? { AddFailedUrl(scan, report, url, v); }
      assert report.failedUrls == failed + ToSeq(FailureOf(v));
      if scan.results.Some? { AddCookieCollectionResults(scan, report); }
      assert report.scanCookies == AddCookies(stringify, before.scanCookies, ConsentsOf(v));
      report.finishDateTime :=
        if scan.results.Some? && scan.results.value.finishDateTime.Some? then scan.results.value.finishDateTime.value else now;
      report.status := if report.failedUrls == [] then Completed else Failed;
    }

    /** Afterwards no entry has the URL as its seed; every other entry is there as often as before, in the old order. */
    method RemoveUrlResultsFromReport(report: CombinedReport, url: string)
      modifies report`failedUrls, report`cookieCollectionUrlResults
      ensures FailuresWithout(old(report.failedUrls), report.failedUrls, url)
      ensures ResultsWithout(old(report.cookieCollectionUrlResults), report.cookieCollectionUrlResults, url)
      ensures report.failedUrls == OtherFailures(old(report.failedUrls), url)
      ensures report.cookieCollectionUrlResults == OtherResults(old(report.cookieCollectionUrlResults), url)
    {
      OthersKept(report.failedUrls, report.cookieCollectionUrlResults, url);
      report.failedUrls := Filter((f: FailedUrl) => f.seedUri != url, report.failedUrls);
      report.cookieCollectionUrlResults := Filter((r: PageScanReport) => r.seedUri != url, report.cookieCollectionUrlResults);
    }

    method AddFailedUrl(scan: ScanResult, report: CombinedReport, url: string, ghost v: Visit)
      requires scan.error.Some? && v.url == url && v.scan == scan
      modifies report`failedUrls
      ensures report.failedUrls == old(report.failedUrls) + ToSeq(FailureOf(v))
    {
      var error := scan.error.value;
      if error.NativeError? || error.errorType == Some("BannerXPathNotDetected") { return; }
      var failure := FailedUrl(url, url, None, scan.pageResponseCode, error, None, None);
      if scan.results.Some? {
        var results := scan.results.value;
        failure := failure.(navigationalUri := Some(results.navigationalUri), bannerDetected := Some(results.bannerDetected),
                            bannerDetectionXpathExpression := Some(results.bannerDetectionXpathExpression));
      }
      report.failedUrls := report.failedUrls + [failure];
    }

    method AddCookieCollectionResults(scan: ScanResult, report: CombinedReport)
      requires scan.results.Some?
      modifies report`cookieCollectionUrlResults, report`scanCookies
      ensures report.cookieCollectionUrlResults == old(report.cookieCollectionUrlResults) + [scan.results.value]
      ensures report.scanCookies
           == AddCookies(stringify, old(report.scanCookies), scan.results.value.cookieCollectionConsentResults)
    {
      report.cookieCollectionUrlResults := report.cookieCollectionUrlResults + [scan.results.value];
      var consents := scan.results.value.cookieCollectionConsentResults;
      for i := 0 to |consents|
        invariant report.cookieCollectionUrlResults == old(report.cookieCollectionUrlResults) + [scan.results.value]
        invariant report.scanCookies == AddCookies(stringify, old(report.scanCookies), consents[..i])
      {
        assert consents[..i + 1][..i] == consents[..i];
        report.scanCookies := UniqueBy(stringify, report.scanCookies + GetCookiesFromConsentResult(stringify, consents[i]));
      }
      assert consents[..|consents|] == consents;
    }
  }

  ghost predicate FailuresWithout(before: seq<FailedUrl>, after: seq<FailedUrl>, url: string) {
    && Subsequence(after, before)
    && forall f :: multiset(after)[f] == if f.seedUri == url then 0 else multiset(before)[f]
  }

  ghost predicate ResultsWithout(before: seq<PageScanReport>, after: seq<PageScanReport>, url: string) {
    && Subsequence(after, before)
    && forall r :: multiset(after)[r] == if r.seedUri == url then 0 else multiset(before)[r]
  }

  lemma OthersKept(failed: seq<FailedUrl>, results: seq<PageScanReport>, url: string)
    ensures FailuresWithout(failed, OtherFailures(failed, url), url) && ResultsWithout(results, OtherResults(results, url), url)
  {
    FilterIsSubsequence((f: FailedUrl) => f.seedUri != url, failed);
    FilterIsSubsequence((r: PageScanReport) => r.seedUri != url, results);
    forall f ensures multiset(OtherFailures(failed, url))[f] == if f.seedUri == url then 0 else multiset(failed)[f] {
      FilterCounts((f: FailedUrl) => f.seedUri != url, failed, f);
    }
    forall r ensures multiset(OtherResults(results, url))[r] == if r.seedUri == url then 0 else multiset(results)[r] {
      FilterCounts((r: PageScanReport) => r.seedUri != url, results, r);
    }
  }

  lemma NothingToAdd(v: Visit, failed: seq<FailedUrl>, results: seq<PageScanReport>)
    ensures v.scan.error.None? ==> failed + ToSeq(FailureOf(v)) == failed
    ensures results + ToSeq(ResultOf(v)) == if v.scan.results.Some? then results + [v.scan.results.value] else results
  {}

  lemma NoMoreCookies(key: Key, cookies: seq<Cookie>)
    ensures AddCookies(key, cookies, []) == cookies && AllCookies([]) == []
  {}

  // ----- every history of scans -----

  function ReportAfter(key: Key, first: Report, visits: seq<Visit>): Report {
    if visits == [] then first
    else Reduced(key, ReportAfter(key, first, visits[..|visits| - 1]), visits[|visits| - 1])
  }

  /** Of the visits to each URL, the last, in the order they were made. */
  function Latest(visits: seq<Visit>): seq<Visit> {
    if visits == [] then []
    else
      var last := visits[|visits| - 1];
      Filter((v: Visit) => v.url != last.url, Latest(visits[..|visits| - 1])) + [last]
  }

  function UrlsOf(visits: seq<Visit>): seq<string> { Map((v: Visit) => v.url, visits) }

  function CookiesOfVisits(visits: seq<Visit>): seq<Cookie> {
    if visits == [] then [] else CookiesOfVisits(visits[..|visits| - 1]) + AllCookies(ConsentsOf(visits[|visits| - 1]))
  }

  ghost predicate IsLast(visits: seq<Visit>, i: int) {
    0 <= i < |visits| && forall j :: i < j < |visits| ==> visits[j].url != visits[i].url
  }

  /** `Latest` holds exactly the visits that no later one to the same URL follows: one for each URL visited. */
  lemma {:induction false} LatestFacts(visits: seq<Visit>)
    ensures forall v :: v in Latest(visits) <==> exists i :: IsLast(visits, i) && visits[i] == v
    ensures forall a, b :: 0 <= a < b < |Latest(visits)| ==> Latest(visits)[a].url != Latest(visits)[b].url
    ensures forall u :: u in UrlsOf(visits) <==> exists v :: v in Latest(visits) && v.url == u
  {
    if visits != [] {
      var init, last := visits[..|visits| - 1], visits[|visits| - 1];
      LatestFacts(init);
      var keep := (v: Visit) => v.url != last.url;
      FilterMembers(keep, Latest(init));
      FilterKeepsDistinctUrls(keep, Latest(init));
      LatestMembers(visits, init, last);
      assert forall a :: 0 <= a < |Filter(keep, Latest(init))| ==> keep(Filter(keep, Latest(init))[a]);
      LatestUrls(visits, init, last);
    }
  }

  lemma LatestUrls(visits: seq<Visit>, init: seq<Visit>, last: Visit)
    requires visits == init + [last]
    requires forall u :: u in UrlsOf(init) <==> exists v :: v in Latest(init) && v.url == u
    ensures forall u :: u in UrlsOf(visits) <==> exists v :: v in Latest(visits) && v.url == u
  {
    hide UrlsOf;
    var keep := (v: Visit) => v.url != last.url;
    var before, after := Latest(init), Latest(visits);
    assert visits[..|visits| - 1] == init;
    FilterMembers(keep, before);
    UrlsSnoc(init, last);
    assert forall v :: v in after <==> (v in before && v.url != last.url) || v == last;
    forall u ensures u in UrlsOf(visits) <==> exists v :: v in after && v.url == u {
      assert u in UrlsOf(visits) <==> u in UrlsOf(init) || u == last.url;
      assert last in after;
      if u in UrlsOf(init) && u != last.url {
        var v :| v in before && v.url == u;
        assert v in after;
      }
    }
  }

  lemma LastSnoc(init: seq<Visit>, last: Visit, i: nat)
    requires i < |init|
    ensures IsLast(init + [last], i) <==> IsLast(init, i) && init[i].url != last.url
  {
    var visits := init + [last];
    if IsLast(visits, i) {
      assert visits[|init|].url != visits[i].url;
      forall j | i < j < |init| ensures init[j].url != init[i].url {
        assert visits[j].url != visits[i].url;
      }
    }
  }

  lemma UrlsSnoc(visits: seq<Visit>, v: Visit)
    ensures UrlsOf(visits + [v]) == UrlsOf(visits) + [v.url]
  {}

  lemma LatestMembers(visits: seq<Visit>, init: seq<Visit>, last: Visit)
    requires visits == init + [last]
    requires forall v :: v in Latest(init) <==> exists i :: IsLast(init, i) && init[i] == v
    ensures forall v :: v in Latest(visits) <==> exists i :: IsLast(visits, i) && visits[i] == v
  {
    assert visits[..|visits| - 1] == init;
    FilterMembers((v: Visit) => v.url != last.url, Latest(init));
    assert IsLast(visits, |init|) && visits[|init|] == last;
    var before, after := Latest(init), Latest(visits);
    assert forall v :: v in after <==> (v in before && v.url != last.url) || v == last;
    forall v ensures v in after <==> exists i :: IsLast(visits, i) && visits[i] == v {
      if v in after && v != last {
        var i :| IsLast(init, i) && init[i] == v;
        LastSnoc(init, last, i);
        assert IsLast(visits, i) && visits[i] == v;
      }
      if i :| IsLast(visits, i) && visits[i] == v && i < |init| {
        LastSnoc(init, last, i);
        assert IsLast(init, i) && init[i] == v;
      }
    }
  }

  lemma {:induction false} FilterKeepsDistinctUrls(keep: Visit -> bool, visits: seq<Visit>)
    requires forall a, b :: 0 <= a < b < |visits| ==> visits[a].url != visits[b].url
    ensures forall a, b :: 0 <= a < b < |Filter(keep, visits)| ==> Filter(keep, visits)[a].url != Filter(keep, visits)[b].url
  {
    if visits != [] {
      var rest := visits[1..];
      FilterKeepsDistinctUrls(keep, rest);
      FilterMembers(keep, rest);
      forall v | v in rest ensures v.url != visits[0].url {
        var k :| 0 <= k < |rest| && rest[k] == v;
        assert visits[1 + k] == v;
      }
    }
  }

  /** What there is of each visit. */
  function Collect<T>(f: Visit -> Option<T>, visits: seq<Visit>): seq<T> {
    if visits == [] then [] else ToSeq(f(visits[0])) + Collect(f, visits[1..])
  }

  lemma {:induction false} CollectAppend<T>(f: Visit -> Option<T>, a: seq<Visit>, b: seq<Visit>)
    ensures Collect(f, a + b) == Collect(f, a) + Collect(f, b)
  {
    if a == [] {
      assert a + b == b;
    } else {
      assert (a + b)[1..] == a[1..] + b;
      CollectAppend(f, a[1..], b);
    }
  }

  lemma {:induction false} CollectFilter<T>(f: Visit -> Option<T>, keep: Visit -> bool, keepOut: T -> bool, visits: seq<Visit>)
    requires forall v :: v in visits && f(v).Some? ==> (keep(v) <==> keepOut(f(v).value))
    ensures Filter(keepOut, Collect(f, visits)) == Collect(f, Filter(keep, visits))
  {
    if visits != [] {
      CollectFilter(f, keep, keepOut, visits[1..]);
      FilterAppend(keepOut, ToSeq(f(visits[0])), Collect(f, visits[1..]));
      assert Filter(keepOut, ToSeq(f(visits[0]))) == if f(visits[0]).Some? && keep(visits[0]) then ToSeq(f(visits[0])) else [];
    }
  }

  lemma {:induction false} CollectMembers<T(!new)>(f: Visit -> Option<T>, visits: seq<Visit>)
    ensures forall x :: x in Collect(f, visits) <==> exists v :: v in visits && f(v) == Some(x)
  {
    if visits != [] {
      CollectMembers(f, visits[1..]);
      forall x ensures x in Collect(f, visits) <==> exists v :: v in visits && f(v) == Some(x) {
        assert visits == [visits[0]] + visits[1..];
        if f(visits[0]) == Some(x) { assert visits[0] in visits; }
        if x in Collect(f, visits[1..]) {
          var v :| v in visits[1..] && f(v) == Some(x);
          assert v in visits;
        }
      }
    }
  }

  lemma {:induction false} FilterNone<T>(keep: T -> bool, s: seq<T>)
    requires forall x :: x in s ==> keep(x)
    ensures Filter(keep, s) == s
  {
    if s != [] {
      FilterNone(keep, s[1..]);
      assert s[0] in s;
    }
  }

  /** The results of every scan carry the URL that was scanned. */
  ghost predicate SeedsMatch(visits: seq<Visit>) {
    forall v :: v in visits && v.scan.results.Some? ==> v.scan.results.value.seedUri == v.url
  }

  /** One more visit, for a list that collects from each URL's latest visit: what the URL had is replaced. */
  lemma CollectLatestSnoc<T(!new)>(f: Visit -> Option<T>, seed: T -> string, keepOut: T -> bool, visits: seq<Visit>, v: Visit)
    requires forall w :: w in visits && f(w).Some? ==> seed(f(w).value) == w.url
    requires forall x :: keepOut(x) <==> seed(x) != v.url
    ensures Collect(f, Latest(visits + [v])) == Filter(keepOut, Collect(f, Latest(visits))) + ToSeq(f(v))
    ensures v.url !in UrlsOf(visits) ==> Filter(keepOut, Collect(f, Latest(visits))) == Collect(f, Latest(visits))
  {
    hide UrlsOf;
    LatestFacts(visits);
    assert (visits + [v])[..|visits|] == visits;
    var keep := (w: Visit) => w.url != v.url;
    forall w | w in Latest(visits) && f(w).Some? ensures keep(w) <==> keepOut(f(w).value) {
      assert w in visits;
    }
    CollectFilter(f, keep, keepOut, Latest(visits));
    CollectAppend(f, Filter(keep, Latest(visits)), [v]);
    assert Collect(f, [v]) == ToSeq(f(v));
    if v.url !in UrlsOf(visits) { FilterNone(keep, Latest(visits)); }
  }

  /** After any history of scans, the report is that of the map from each URL to its last scan: the URLs in first-seen order,
      the failures and cookie results of the last scans, and the cookies of all scans without repetition. */
  lemma {:induction false} ReportRefinesLastScans(key: Key, scanId: string, start: int, now: int, visits: seq<Visit>)
    ensures var r := ReportAfter(key, NewReport(scanId, start, now), visits);
      && r.scanId == scanId && r.startDateTime == start
      && r.urls == FirstSeen(UrlsOf(visits))
      && r.failedUrls == Collect(FailureOf, Latest(visits))
      && (SeedsMatch(visits) ==> r.cookieCollectionUrlResults == Collect(ResultOf, Latest(visits)))
      && r.scanCookies == UniqueBy(key, CookiesOfVisits(visits))
  {
    if visits != [] {
      hide Latest, Collect, UniqueBy, AddCookies, FailureOf, Filter, AllCookies;
      var init, v := visits[..|visits| - 1], visits[|visits| - 1];
      assert visits == init + [v];
      ReportRefinesLastScans(key, scanId, start, now, init);
      UrlsSnoc(init, v);
      FirstSeenSnoc(UrlsOf(init), v.url);
      FirstSeenFacts(UrlsOf(init));
      assert v.url in FirstSeen(UrlsOf(init)) <==> v.url in Elements(FirstSeen(UrlsOf(init)));
      FailureSeeds();
      CollectLatestSnoc(FailureOf, (f: FailedUrl) => f.seedUri, (f: FailedUrl) => f.seedUri != v.url, init, v);
      if SeedsMatch(visits) {
        CollectLatestSnoc(ResultOf, (r: PageScanReport) => r.seedUri, (r: PageScanReport) => r.seedUri != v.url, init, v);
      }
      AddCookiesIsUnique(key, CookiesOfVisits(init), ConsentsOf(v));
    }
  }

  lemma FailureSeeds()
    ensures forall v :: FailureOf(v).Some? ==> FailureOf(v).value.seedUri == v.url == FailureOf(v).value.url
    ensures forall v :: FailureOf(v).Some? <==> v.scan.error.Some? && IsFatal(v.scan.error.value)
  {}

  /** The report is marked failed exactly when the last scan of some URL ended in an error record other than the missing
      banner; each URL has at most one failure. */
  lemma FailedExactlyWhen(key: Key, scanId: string, start: int, now: int, visits: seq<Visit>)
    requires visits != []
    ensures var r := ReportAfter(key, NewReport(scanId, start, now), visits);
      && (r.status == Failed <==>
            exists i :: IsLast(visits, i) && visits[i].scan.error.Some? && visits[i].scan.error.value.ErrorRecord?
                        && visits[i].scan.error.value.errorType != Some("BannerXPathNotDetected"))
      && Distinct(r.urls)
      && (forall a, b :: 0 <= a < b < |r.failedUrls| ==> r.failedUrls[a].url != r.failedUrls[b].url)
      && (forall f :: f in r.failedUrls ==> f.url in r.urls)
  {
    hide Latest, Collect, FailureOf, AddCookies, Filter, UniqueBy, ReportAfter, FirstSeen;
    ReportRefinesLastScans(key, scanId, start, now, visits);
    LatestFacts(visits);
    FailureSeeds();
    OnePerUrl(FailureOf, (f: FailedUrl) => f.url, Latest(visits));
    AnyFailure(visits);
    LastStep(key, NewReport(scanId, start, now), visits);
    FailuresVisited(visits);
    FirstSeenFacts(UrlsOf(visits));
  }

  lemma LastStep(key: Key, first: Report, visits: seq<Visit>)
    requires visits != []
    ensures var r := ReportAfter(key, first, visits); r.status == Failed <==> r.failedUrls != []
  {
    hide AddCookies, Filter, FailureOf;
  }

  lemma AnyFailure(visits: seq<Visit>)
    ensures Collect(FailureOf, Latest(visits)) != [] <==>
            exists i :: IsLast(visits, i) && visits[i].scan.error.Some? && IsFatal(visits[i].scan.error.value)
  {
    hide Latest, Collect, FailureOf;
    LatestFacts(visits);
    CollectMembers(FailureOf, Latest(visits));
    FailureSeeds();
    var failures := Collect(FailureOf, Latest(visits));
    if i :| IsLast(visits, i) && visits[i].scan.error.Some? && IsFatal(visits[i].scan.error.value) {
      assert visits[i] in Latest(visits) && FailureOf(visits[i]) == Some(FailureOf(visits[i]).value);
      assert FailureOf(visits[i]).value in failures;
    }
    if failures != [] {
      assert failures[0] in failures;
      var v :| v in Latest(visits) && FailureOf(v) == Some(failures[0]);
      var i :| IsLast(visits, i) && visits[i] == v;
    }
  }

  lemma FailuresVisited(visits: seq<Visit>)
    ensures forall f :: f in Collect(FailureOf, Latest(visits)) ==> f.url in FirstSeen(UrlsOf(visits))
  {
    hide Latest, Collect, FailureOf, FirstSeen;
    LatestFacts(visits);
    CollectMembers(FailureOf, Latest(visits));
    FailureSeeds();
    FirstSeenFacts(UrlsOf(visits));
    forall f | f in Collect(FailureOf, Latest(visits)) ensures f.url in FirstSeen(UrlsOf(visits)) {
      var v :| v in Latest(visits) && FailureOf(v) == Some(f);
      assert v.url in Elements(UrlsOf(visits));
      assert v.url in Elements(FirstSeen(UrlsOf(visits)));
    }
  }

  lemma {:induction false} OnePerUrl<T(!new)>(f: Visit -> Option<T>, seed: T -> string, visits: seq<Visit>)
    requires forall a, b :: 0 <= a < b < |visits| ==> visits[a].url != visits[b].url
    requires forall v :: v in visits && f(v).Some? ==> seed(f(v).value) == v.url
    ensures forall a, b :: 0 <= a < b < |Collect(f, visits)| ==> seed(Collect(f, visits)[a]) != seed(Collect(f, visits)[b])
  {
    if visits != [] {
      var rest := visits[1..];
      OnePerUrl(f, seed, rest);
      CollectMembers(f, rest);
      assert visits[0] in visits;
      forall x | x in Collect(f, rest) && f(visits[0]).Some? ensures seed(x) != visits[0].url {
        var v :| v in rest && f(v) == Some(x);
        var k :| 0 <= k < |rest| && rest[k] == v;
        assert visits[1 + k] == v;
      }
    }
  }

  /** When results carry the URL scanned, each URL has at most one cookie result, and it is that of its last scan. */
  lemma ResultsAreOfLastScans(key: Key, scanId: string, start: int, now: int, visits: seq<Visit>)
    requires SeedsMatch(visits)
    ensures var results := ReportAfter(key, NewReport(scanId, start, now), visits).cookieCollectionUrlResults;
      && (forall a, b :: 0 <= a < b < |results| ==> results[a].seedUri != results[b].seedUri)
      && (forall x :: x in results <==> exists i :: IsLast(visits, i) && visits[i].scan.results == Some(x))
  {
    hide Latest, Collect, ReportAfter;
    ReportRefinesLastScans(key, scanId, start, now, visits);
    LatestFacts(visits);
    CollectMembers(ResultOf, Latest(visits));
    forall v | v in Latest(visits) && ResultOf(v).Some? ensures ResultOf(v).value.seedUri == v.url {
      assert v in visits;
    }
    OnePerUrl(ResultOf, (r: PageScanReport) => r.seedUri, Latest(visits));
    forall x ensures x in Collect(ResultOf, Latest(visits)) <==>
        exists i :: IsLast(visits, i) && visits[i].scan.results == Some(x) {
      if v :| v in Latest(visits) && ResultOf(v) == Some(x) {
        var i :| IsLast(visits, i) && visits[i] == v;
      }
      if i :| IsLast(visits, i) && visits[i].scan.results == Some(x) {
        assert visits[i] in Latest(visits) && ResultOf(visits[i]) == Some(x);
      }
    }
  }

  /** The cookie list holds no two cookies with one serialisation, and every cookie seen has its serialisation there; a
      further scan only appends to it. */
  lemma CookiesOnlyGrow(key: Key, scanId: string, start: int, now: int, visits: seq<Visit>, v: Visit)
    ensures var r := ReportAfter(key, NewReport(scanId, start, now), visits);
      && DistinctKeys(key, r.scanCookies)
      && (forall c :: c in CookiesOfVisits(visits) ==> HasKey(key, r.scanCookies, key(c)))
      && r.scanCookies <= ReportAfter(key, NewReport(scanId, start, now), visits + [v]).scanCookies
  {
    ReportRefinesLastScans(key, scanId, start, now, visits);
    ReportRefinesLastScans(key, scanId, start, now, visits + [v]);
    assert (visits + [v])[..|visits|] == visits;
    UniqueByFacts(key, CookiesOfVisits(visits));
    UniqueByLeft(key, CookiesOfVisits(visits), AllCookies(ConsentsOf(v)));
  }

  /** One of the two lists of a consent result has an entry for this domain. */
  predicate Lists(consent: ConsentResult, d: CookieByDomain) {
    || (consent.cookiesBeforeConsent.Some? && d in consent.cookiesBeforeConsent.value)
    || (consent.cookiesAfterConsent.Some? && d in consent.cookiesAfterConsent.value)
  }

  ghost predicate Gave(consents: seq<ConsentResult>, c: Cookie) {
    exists consent, d :: consent in consents && Lists(consent, d) && c in d.cookies
  }

  /** The scan of this visit saw the cookie for some consent, before or after it. */
  ghost predicate Saw(v: Visit, c: Cookie) {
    v.scan.results.Some? && Gave(v.scan.results.value.cookieCollectionConsentResults, c)
  }

  lemma {:induction false} DomainCookies(list: seq<CookieByDomain>, c: Cookie)
    ensures c in Flatten(Map((d: CookieByDomain) => d.cookies, list)) <==> exists d :: d in list && c in d.cookies
  {
    if list != [] {
      var init, last := list[..|list| - 1], list[|list| - 1];
      DomainCookies(init, c);
      var cookies := Map((d: CookieByDomain) => d.cookies, list);
      assert cookies[..|cookies| - 1] == Map((d: CookieByDomain) => d.cookies, init);
      assert list == init + [last];
    }
  }

  lemma ConsentCookies(consent: ConsentResult, c: Cookie)
    ensures c in CookiesOfConsent(consent) <==> exists d :: Lists(consent, d) && c in d.cookies
  {
    var (before, after) := (consent.cookiesBeforeConsent, consent.cookiesAfterConsent);
    if before.Some? { DomainCookies(before.value, c); }
    if after.Some? { DomainCookies(after.value, c); }
  }

  lemma {:induction false} GivenCookies(consents: seq<ConsentResult>, c: Cookie)
    ensures c in AllCookies(consents) <==> Gave(consents, c)
  {
    if consents != [] {
      hide CookiesOfConsent, Lists;
      var init, last := consents[..|consents| - 1], consents[|consents| - 1];
      GivenCookies(init, c);
      ConsentCookies(last, c);
      assert consents == init + [last];
    }
  }

  lemma {:induction false} CookiesSeen(visits: seq<Visit>, c: Cookie)
    ensures c in CookiesOfVisits(visits) <==> exists v :: v in visits && Saw(v, c)
  {
    if visits != [] {
      hide Saw, AllCookies;
      var init, last := visits[..|visits| - 1], visits[|visits| - 1];
      CookiesSeen(init, c);
      SawGiven(last, c);
      assert forall v :: v in visits <==> v in init || v == last;
    }
  }

  lemma SawGiven(v: Visit, c: Cookie)
    ensures c in AllCookies(ConsentsOf(v)) <==> Saw(v, c)
  {
    hide Gave;
    GivenCookies(ConsentsOf(v), c);
  }

  /** After any history, a cookie that some scan saw, for any consent, before or after it, has its serialisation in the list;
      and every cookie in the list is one that some scan saw. */
  lemma CookiesAreThoseSeen(key: Key, scanId: string, start: int, now: int, visits: seq<Visit>, c: Cookie)
    ensures var cookies := ReportAfter(key, NewReport(scanId, start, now), visits).scanCookies;
      && ((exists v :: v in visits && Saw(v, c)) ==> HasKey(key, cookies, key(c)))
      && (c in cookies ==> exists v :: v in visits && Saw(v, c))
  {
    hide CookiesOfVisits, Saw;
    ReportRefinesLastScans(key, scanId, start, now, visits);
    UniqueByFacts(key, CookiesOfVisits(visits));
    CookiesSeen(visits, c);
  }

  /** What the report says of a failure is what the last scan of that URL says. */
  lemma FailuresSayWhy(key: Key, scanId: string, start: int, now: int, visits: seq<Visit>, f: FailedUrl)
    requires f in ReportAfter(key, NewReport(scanId, start, now), visits).failedUrls
    ensures exists i :: IsLast(visits, i) && SaysWhy(f, visits[i])
  {
    hide Latest, Collect, FailureOf, ReportAfter, SaysWhy;
    ReportRefinesLastScans(key, scanId, start, now, visits);
    CollectMembers(FailureOf, Latest(visits));
    LatestFacts(visits);
    var v :| v in Latest(visits) && FailureOf(v) == Some(f);
    var i :| IsLast(visits, i) && visits[i] == v;
    FailureSays(v, f);
  }

  predicate SaysWhy(f: FailedUrl, v: Visit) {
    && f.url == f.seedUri == v.url && v.scan.error == Some(f.reason) && f.httpStatusCode == v.scan.pageResponseCode
    && match v.scan.results {
         case None => f.navigationalUri.None? && f.bannerDetected.None? && f.bannerDetectionXpathExpression.None?
         case Some(r) =>
           && f.navigationalUri == Some(r.navigationalUri) && f.bannerDetected == Some(r.bannerDetected)
           && f.bannerDetectionXpathExpression == Some(r.bannerDetectionXpathExpression)
       }
  }

  lemma FailureSays(v: Visit, f: FailedUrl)
    requires FailureOf(v) == Some(f)
    ensures SaysWhy(f, v)
  {}

  lemma FilterOne<T>(keep: T -> bool, x: T)
    ensures Filter(keep, [x]) == if keep(x) then [x] else []
  {}

  lemma OneMoreResult(results: seq<PageScanReport>, result: PageScanReport, url: string)
    ensures OtherResults(results + [result], url)
         == OtherResults(results, url) + if result.seedUri == url then [] else [result]
    ensures OtherResults(OtherResults(results, url), url) == OtherResults(results, url)
  {
    var keep := (r: PageScanReport) => r.seedUri != url;
    FilterAppend(keep, results, [result]);
    FilterOne(keep, result);
    FilterMembers(keep, results);
    FilterNone(keep, OtherResults(results, url));
  }

  /** Scanning a URL twice, whatever the report held before: of the earlier results exactly those with another seed stay, and
      the second scan replaces the result of the first if and only if that carries the URL as its seed. */
  lemma ReplacedExactlyWhenSeedMatches(key: Key, first: Report, v: Visit, w: Visit)
    requires v.url == w.url && v.scan.results.Some? && w.scan.results.Some?
    ensures ReportAfter(key, first, [v, w]).cookieCollectionUrlResults
         == OtherResults(first.cookieCollectionUrlResults, v.url)
            + (if v.scan.results.value.seedUri == v.url then [] else [v.scan.results.value])
            + [w.scan.results.value]
  {
    hide AddCookies, FailureOf;
    assert [v, w][..1] == [v] && [v][..0] == [];
    var once := Reduced(key, first, v);
    assert ReportAfter(key, first, [v]) == once by { assert ReportAfter(key, first, []) == first; }
    assert ReportAfter(key, first, [v, w]) == Reduced(key, once, w);
    assert w.url in once.urls;
    OneMoreResult(first.cookieCollectionUrlResults, v.scan.results.value, w.url);
    OneMoreResult(OtherResults(first.cookieCollectionUrlResults, w.url), v.scan.results.value, w.url);
  }
}
