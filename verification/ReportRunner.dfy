/** The life of a report request: packages/report-generator-runner/src/runner/runner.ts and report-processor.ts. */
module ReportRunner {
  import opened Common
  import opened DocumentMerge
  import opened ReportRequests

  const MAX_REQUESTS_TO_MERGE := 10
  const MAX_REQUESTS_TO_DELETE := 20

  /** What the world does to one request during one pass of the runner. The running update is swallowed when it fails, so
      a request is processed whether it was `written` or not; a pass may end at any point. */
  datatype Fate =
    | EndedBeforeUpdate
    | EndedAfterUpdate(written: bool)
    | Finished(written: bool, error: Option<string>, recorded: bool)

  /** The stored document after one pass, for a request that the selection dispatched as `d`. */
  function PassDoc(doc: Fields, id: string, d: Dispatch, fate: Fate, now: int): Option<Fields> {
    match d
    case Skip => Some(doc)
    case Delete(_) => if fate.Finished? && fate.recorded then None else Some(doc)
    case Process(condition) =>
      if fate.EndedBeforeUpdate? then Some(doc)
      else
        var request := Request(id, RunOf(doc));
        var marked := if fate.written then Apply(doc, RunningPatch(request, now)) else doc;
        if fate.EndedAfterUpdate? || !fate.recorded then Some(marked)
        else if fate.error.None? then None
        else Some(Apply(marked, FailedPatch(QueuedRequest(request, Failed, fate.error.value), now)))
  }

  // ----- the life of one request -----

  /** One request over time. `processed` counts the passes that got to attempting a report for it, also those that ended
      before the report did; `lost` counts those of them whose running update was not written. */
  datatype Life = Life(now: int, doc: Option<Fields>, processed: nat, lost: nat)

  function AfterPass(l: Life, id: string, fate: Fate, settings: Settings): Life {
    match l.doc
    case None => l
    case Some(doc) =>
      var d := Classify(RunOf(doc), settings, l.now);
      var counted := d.Process? && !fate.EndedBeforeUpdate?;
      Life(l.now, PassDoc(doc, id, d, fate, l.now),
           l.processed + (if counted then 1 else 0), l.lost + (if counted && !fate.written then 1 else 0))
  }

  function Later(l: Life, d: nat): Life { l.(now := l.now + d) }

  ghost predicate Passes(l: Life, l': Life, id: string, fate: Fate, settings: Settings) {
    l' == AfterPass(l, id, fate, settings)
  }

  ghost predicate Step(l: Life, l': Life, id: string, settings: Settings) {
    || (exists d :: l' == Later(l, d))
    || (exists fate :: Passes(l, l', id, fate, settings))
  }

  ghost predicate Lives(run: seq<Life>, id: string, settings: Settings) {
    && |run| > 0
    && run[0].doc.Some? && Get(run[0].doc.value, "run") == Undef && run[0].processed == run[0].lost == 0
    && forall i :: 0 <= i < |run| - 1 ==> Step(run[i], run[i + 1], id, settings)
  }

  /** How many processing attempts the retry count of a document stands for. */
  function Attempts(run: Option<RunInfo>): int { NextRetryCount(run) }

  ghost predicate Inv(l: Life, settings: Settings) {
    && l.processed <= settings.maxFailedScanRetryCount + 1 + l.lost
    && (l.doc.Some? ==>
          && WellShaped(l.doc.value)
          && 0 <= Attempts(RunOf(l.doc.value)) <= settings.maxFailedScanRetryCount + 1
          && l.processed <= Attempts(RunOf(l.doc.value)) + l.lost)
  }

  lemma PassKeepsInv(l: Life, id: string, fate: Fate, settings: Settings)
    requires Inv(l, settings)
    ensures Inv(AfterPass(l, id, fate, settings), settings)
  {
    hide Apply, RunningPatch, FailedPatch, RunOf;
    if l.doc.Some? && !fate.EndedBeforeUpdate? && Classify(RunOf(l.doc.value), settings, l.now).Process? {
      var doc := l.doc.value;
      var request := Request(id, RunOf(doc));
      RunningPatchEffect(doc, request, l.now);
      var marked := if fate.written then Apply(doc, RunningPatch(request, l.now)) else doc;
      if fate.Finished? && fate.error.Some? {
        FailedPatchEffect(marked, QueuedRequest(request, Failed, fate.error.value), l.now);
      }
    }
  }

  lemma StepKeepsInv(l: Life, l': Life, id: string, settings: Settings)
    requires Inv(l, settings) && Step(l, l', id, settings)
    ensures Inv(l', settings)
  {
    hide AfterPass, RunOf;
    if fate :| Passes(l, l', id, fate, settings) {
      PassKeepsInv(l, id, fate, settings);
    }
  }

  /** In every run, whatever ends or is lost on the way and however the clock moves: the retry count never exceeds the
      maximum, and the request is processed at most maximum + 1 times, plus once for each pass that processed it
      although its running update was not written. */
  lemma {:induction false} RetriesAreBounded(run: seq<Life>, id: string, settings: Settings, i: nat)
    requires Lives(run, id, settings) && i < |run|
    ensures Inv(run[i], settings)
    ensures run[i].processed <= settings.maxFailedScanRetryCount + 1 + run[i].lost
    ensures run[i].doc.Some? && RunOf(run[i].doc.value).Some? && RunOf(run[i].doc.value).value.retryCount.Some? ==>
              RunOf(run[i].doc.value).value.retryCount.value <= settings.maxFailedScanRetryCount
  {
    hide AfterPass, RunOf;
    if i == 0 {
      FreshInv(run[0], settings);
    } else {
      RetriesAreBounded(run, id, settings, i - 1);
      StepKeepsInv(run[i - 1], run[i], id, settings);
    }
  }

  lemma FreshInv(l: Life, settings: Settings)
    requires l.doc.Some? && Get(l.doc.value, "run") == Undef && l.processed == l.lost == 0
    ensures Inv(l, settings)
  {}

  /** Once the retries are used up, no pass processes the request again. */
  lemma UsedUpIsNeverProcessed(l: Life, id: string, fate: Fate, settings: Settings)
    requires l.doc.Some? && RunOf(l.doc.value).Some? && RetriesUsedUp(RunOf(l.doc.value).value, settings)
    ensures var after := AfterPass(l, id, fate, settings);
      && after.processed == l.processed && (after.doc == l.doc || after.doc == None)
  {
    UsedUpIsOnlyDeleted(RunOf(l.doc.value).value, settings, l.now);
  }

  // ----- when a request is attempted -----

  ghost predicate LeftAlone(l: Life, id: string, settings: Settings) {
    forall fate :: AfterPass(l, id, fate, settings) == l
  }

  /** Every pass that gets so far attempts the request. */
  ghost predicate IsAttempted(l: Life, id: string, settings: Settings) {
    forall fate :: var after := AfterPass(l, id, fate, settings);
      if fate.EndedBeforeUpdate? then after == l
      else after.processed == l.processed + 1 && after.lost == l.lost + if fate.written then 0 else 1
  }

  /** Every pass that gets so far deletes the request, and none attempts it. */
  ghost predicate IsDeleted(l: Life, id: string, settings: Settings) {
    forall fate :: AfterPass(l, id, fate, settings) == if fate.Finished? && fate.recorded then l.(doc := None) else l
  }

  /** A request is attempted when it has not run yet, and again when it is running or failed, has a retry left, and has waited
      for the interval; it is deleted once completed, or when it failed, or ran for the interval, with no retry left.
      Everything else waits. */
  lemma WhatPassesDo(l: Life, id: string, settings: Settings)
    requires l.doc.Some?
    ensures RunOf(l.doc.value).None? ==> IsAttempted(l, id, settings)
    ensures RunOf(l.doc.value).Some? ==>
      var run := RunOf(l.doc.value).value;
      if DueForRetry(run, settings, l.now) then IsAttempted(l, id, settings)
      else if run.state == "completed" || GivenUp(run, settings, l.now) then IsDeleted(l, id, settings)
      else LeftAlone(l, id, settings)
  {
    hide RunOf, Apply, RunningPatch, FailedPatch;
  }

  /** What an attempt leaves: nothing when the report was made, and otherwise a document that says what was written last. */
  lemma WhatAttemptsLeave(l: Life, id: string, fate: Fate, settings: Settings)
    requires l.doc.Some? && WellShaped(l.doc.value) && IsAttempted(l, id, settings) && !fate.EndedBeforeUpdate?
    ensures var before, after := RunOf(l.doc.value), AfterPass(l, id, fate, settings).doc;
      var failed := fate.Finished? && fate.recorded && fate.error.Some?;
      var retries :=
        if fate.written then Some(NextRetryCount(before)) else if before.Some? then before.value.retryCount else None;
      if fate.Finished? && fate.recorded && fate.error.None? then after.None?
      else if failed then after.Some? && RunOf(after.value) == Some(RunInfo("failed", l.now, retries))
      else if fate.written then after.Some? && RunOf(after.value) == Some(RunInfo("running", l.now, retries))
      else after == l.doc
  {
    hide Apply, RunningPatch, FailedPatch, RunOf;
    var doc, request := l.doc.value, Request(id, RunOf(l.doc.value));
    RunningPatchEffect(doc, request, l.now);
    var marked := if fate.written then Apply(doc, RunningPatch(request, l.now)) else doc;
    if fate.Finished? && fate.error.Some? {
      FailedPatchEffect(marked, QueuedRequest(request, Failed, fate.error.value), l.now);
    }
    assert AfterPass(l, id, fate, settings).processed == l.processed + 1;
  }

  /** Step i of a run attempts a report. */
  ghost predicate AttemptAt(run: seq<Life>, i: nat)
    requires i < |run| - 1
  {
    run[i + 1].processed > run[i].processed
  }

  /** Nothing is attempted before this time and the interval. */
  ghost predicate WaitsFrom(l: Life, time: int) {
    && l.now >= time
    && (l.doc.Some? ==>
          && WellShaped(l.doc.value) && RunOf(l.doc.value).Some?
          && Interrupted(RunOf(l.doc.value).value) && RunOf(l.doc.value).value.timestamp >= time)
  }

  lemma AttemptStartsWaiting(l: Life, id: string, fate: Fate, settings: Settings)
    requires l.doc.Some? ==> WellShaped(l.doc.value)
    requires var after := AfterPass(l, id, fate, settings); after.processed > l.processed && after.lost == l.lost
    ensures WaitsFrom(AfterPass(l, id, fate, settings), l.now)
  {
    hide Apply, RunningPatch, FailedPatch, RunOf;
    PassKeepsShape(l, id, fate, settings);
    if l.doc.Some? { WhatAttemptsLeaveNow(l, id, fate, settings); }
  }

  lemma WhatAttemptsLeaveNow(l: Life, id: string, fate: Fate, settings: Settings)
    requires l.doc.Some? && WellShaped(l.doc.value) && AfterPass(l, id, fate, settings).processed > l.processed
    ensures IsAttempted(l, id, settings) && !fate.EndedBeforeUpdate?
    ensures var after := AfterPass(l, id, fate, settings).doc;
      after == None || after == l.doc
      || (RunOf(after.value).Some? && Interrupted(RunOf(after.value).value) && RunOf(after.value).value.timestamp == l.now)
    ensures fate.written && AfterPass(l, id, fate, settings).doc == l.doc ==>
      RunOf(l.doc.value).Some? && Interrupted(RunOf(l.doc.value).value) && RunOf(l.doc.value).value.timestamp == l.now
  {
    hide Apply, RunningPatch, FailedPatch, RunOf;
    WhatPassesDo(l, id, settings);
    WhatAttemptsLeave(l, id, fate, settings);
  }

  lemma PassKeepsShape(l: Life, id: string, fate: Fate, settings: Settings)
    requires l.doc.Some? ==> WellShaped(l.doc.value)
    ensures var after := AfterPass(l, id, fate, settings).doc; after.Some? ==> WellShaped(after.value)
  {
    hide Apply, RunningPatch, FailedPatch, RunOf;
    if l.doc.Some? && !fate.EndedBeforeUpdate? {
      var doc, request := l.doc.value, Request(id, RunOf(l.doc.value));
      RunningPatchEffect(doc, request, l.now);
      var marked := if fate.written then Apply(doc, RunningPatch(request, l.now)) else doc;
      if fate.Finished? && fate.error.Some? {
        FailedPatchEffect(marked, QueuedRequest(request, Failed, fate.error.value), l.now);
      }
    }
  }

  lemma StepKeepsWaiting(l: Life, l': Life, id: string, settings: Settings, time: int)
    requires WaitsFrom(l, time) && Step(l, l', id, settings)
    ensures WaitsFrom(l', time)
    ensures l'.processed > l.processed ==> l.now >= time + settings.failedScanRetryInterval
  {
    hide AfterPass, RunOf;
    if fate :| Passes(l, l', id, fate, settings) {
      PassKeepsWaiting(l, id, fate, settings, time);
    }
  }

  lemma PassKeepsWaiting(l: Life, id: string, fate: Fate, settings: Settings, time: int)
    requires WaitsFrom(l, time)
    ensures var after := AfterPass(l, id, fate, settings);
      && WaitsFrom(after, time)
      && (after.processed > l.processed ==> l.now >= time + settings.failedScanRetryInterval)
  {
    hide Apply, RunningPatch, FailedPatch, RunOf;
    PassKeepsShape(l, id, fate, settings);
    if l.doc.Some? {
      WhatPassesDo(l, id, settings);
      if AfterPass(l, id, fate, settings).processed > l.processed { WhatAttemptsLeaveNow(l, id, fate, settings); }
    }
  }

  lemma {:induction false} WaitsUntil(run: seq<Life>, id: string, settings: Settings, i: nat, j: nat)
    requires Lives(run, id, settings) && i < j < |run| && AttemptAt(run, i) && run[i + 1].lost == run[i].lost
    ensures WaitsFrom(run[j], run[i].now)
    decreases j
  {
    hide AfterPass, RunOf, WaitsFrom;
    if j == i + 1 {
      RetriesAreBounded(run, id, settings, i);
      var fate :| Passes(run[i], run[i + 1], id, fate, settings);
      AttemptStartsWaiting(run[i], id, fate, settings);
    } else {
      WaitsUntil(run, id, settings, i, j - 1);
      StepKeepsWaiting(run[j - 1], run[j], id, settings, run[i].now);
    }
  }

  /** In every run, after an attempt whose running update was written the next one comes no sooner than the interval later. */
  lemma AttemptsAreSpaced(run: seq<Life>, id: string, settings: Settings, i: nat, j: nat)
    requires Lives(run, id, settings) && i < j < |run| - 1 && AttemptAt(run, i) && AttemptAt(run, j)
    requires run[i + 1].lost == run[i].lost
    ensures run[j].now >= run[i].now + settings.failedScanRetryInterval
  {
    WaitsUntil(run, id, settings, i, j);
    StepKeepsWaiting(run[j], run[j + 1], id, settings, run[i].now);
  }

  /** Without the running updates there is no bound: while none is written, a request can be processed any number of times. */
  lemma {:induction false} LostUpdatesLiftTheBound(n: nat, id: string, settings: Settings) returns (run: seq<Life>)
    ensures Lives(run, id, settings) && run[|run| - 1].processed == run[|run| - 1].lost == n
    ensures run[|run| - 1].doc == Some(map[])
  {
    if n == 0 {
      run := [Life(0, Some(map[]), 0, 0)];
    } else {
      var before := LostUpdatesLiftTheBound(n - 1, id, settings);
      var last := before[|before| - 1];
      var fate := Finished(false, Some("error"), false);
      var next := AfterPass(last, id, fate, settings);
      assert Passes(last, next, id, fate, settings);
      Extend(before, next, id, settings);
      run := before + [next];
    }
  }

  lemma Extend(run: seq<Life>, next: Life, id: string, settings: Settings)
    requires Lives(run, id, settings) && Step(run[|run| - 1], next, id, settings)
    ensures Lives(run + [next], id, settings)
  {
    hide Step;
  }

  /** The bound is reached for every number of lost updates: after that many, a request whose reports all fail is processed
      maximum + 1 times more, which is as often as RetriesAreBounded allows. */
  lemma {:induction false} BoundIsReached(k: nat, lost: nat, id: string, settings: Settings) returns (run: seq<Life>)
    requires k <= settings.maxFailedScanRetryCount
    ensures |run| > 0 && Lives(run, id, settings) && HasFailedTimes(run[|run| - 1], k, lost)
    ensures run[|run| - 1].processed == k + 1 + lost && run[|run| - 1].lost == lost
  {
    hide Lives, AfterPass, HasFailedTimes;
    var fate := Finished(true, Some("error"), true);
    var before, later;
    if k == 0 {
      before := LostUpdatesLiftTheBound(lost, id, settings);
      later := before[|before| - 1];
      FirstFailure(later, lost, id, settings, fate);
    } else {
      var run' := BoundIsReached(k - 1, lost, id, settings);
      var last := run'[|run'| - 1];
      later := Later(last, settings.failedScanRetryInterval);
      Extend(run', later, id, settings);
      before := run' + [later];
      NextFailure(last, lost, id, settings, fate, k);
    }
    var next := AfterPass(later, id, fate, settings);
    assert Passes(later, next, id, fate, settings);
    Extend(before, next, id, settings);
    run := before + [next];
    AttemptsOf(next, k, lost);
  }

  /** After `lost` attempts without an update, the last of k + 1 attempts with all updates written has just failed. */
  ghost predicate HasFailedTimes(l: Life, k: nat, lost: nat) {
    && l.processed == k + 1 + lost && l.lost == lost && l.doc.Some? && WellShaped(l.doc.value)
    && RunOf(l.doc.value) == Some(RunInfo("failed", l.now, Some(k)))
  }

  lemma AttemptsOf(l: Life, k: nat, lost: nat)
    requires HasFailedTimes(l, k, lost)
    ensures l.processed == k + 1 + lost && l.lost == lost
  {}

  lemma FirstFailure(l: Life, lost: nat, id: string, settings: Settings, fate: Fate)
    requires l.doc == Some(map[]) && l.processed == l.lost == lost && fate == Finished(true, Some("error"), true)
    ensures HasFailedTimes(AfterPass(l, id, fate, settings), 0, lost)
  {
    FailedPassEffect(l, id, settings, fate);
  }

  lemma NextFailure(last: Life, lost: nat, id: string, settings: Settings, fate: Fate, k: nat)
    requires 1 <= k <= settings.maxFailedScanRetryCount && HasFailedTimes(last, k - 1, lost)
    requires fate == Finished(true, Some("error"), true)
    ensures HasFailedTimes(AfterPass(Later(last, settings.failedScanRetryInterval), id, fate, settings), k, lost)
  {
    hide RunOf, AfterPass;
    FailedPassEffect(Later(last, settings.failedScanRetryInterval), id, settings, fate);
  }

  lemma FailedPassEffect(l: Life, id: string, settings: Settings, fate: Fate)
    requires l.doc.Some? && WellShaped(l.doc.value) && fate == Finished(true, Some("error"), true)
    requires Classify(RunOf(l.doc.value), settings, l.now).Process?
    ensures var after := AfterPass(l, id, fate, settings);
      && after.processed == l.processed + 1 && after.lost == l.lost && after.now == l.now
      && after.doc.Some? && WellShaped(after.doc.value)
      && RunOf(after.doc.value) == Some(RunInfo("failed", l.now, Some(NextRetryCount(RunOf(l.doc.value)))))
  {
    hide Apply, RunningPatch, FailedPatch, RunOf;
    var doc := l.doc.value;
    var request := Request(id, RunOf(doc));
    RunningPatchEffect(doc, request, l.now);
    FailedPatchEffect(Apply(doc, RunningPatch(request, l.now)), QueuedRequest(request, Failed, "error"), l.now);
  }

  // ----- one pass over many requests -----

  ghost predicate DistinctIds(queued: seq<QueuedRequest>) {
    forall i, j :: 0 <= i < j < |queued| ==> queued[i].request.id != queued[j].request.id
  }

  function Ids(queued: seq<QueuedRequest>): set<string> { set q | q in queued :: q.request.id }

  /** What the runner is started for: the report to make, and the group of its requests. */
  datatype TargetReport = Accessibility | OtherReport(name: string, scanGroupId: string)

  function NotSupported(target: TargetReport): string
    requires target.OtherReport?
  {
    "The '" + target.name + "' report is not supported. Report group id: " + target.scanGroupId
  }

  function Outcome(target: TargetReport, q: QueuedRequest, error: Option<string>): QueuedRequest {
    if target.OtherReport? then q.(condition := Failed, error := NotSupported(target))
    else if error.None? then q.(condition := Completed)
    else q.(condition := Failed, error := error.value)
  }

  class ReportProcessor {
    constructor () {}

    /** Attempts each report in turn. Every request ends either completed or failed, in the order given. */
    method Generate(target: TargetReport, queued: seq<QueuedRequest>, error: string -> Option<string>)
      returns (processed: seq<QueuedRequest>)
      ensures |processed| == |queued|
      ensures forall i :: 0 <= i < |queued| ==>
        && processed[i].request == queued[i].request
        && (processed[i].condition == Completed <==> target.Accessibility? && error(queued[i].request.id).None?)
        && (processed[i].condition != Completed ==> processed[i].condition == Failed)
        && processed[i] == Outcome(target, queued[i], error(queued[i].request.id))
    {
      processed := [];
      for i := 0 to |queued|
        invariant |processed| == i
        invariant forall k :: 0 <= k < i ==> processed[k] == Outcome(target, queued[k], error(queued[k].request.id))
      {
        processed := processed + [Outcome(target, queued[i], error(queued[i].request.id))];
      }
    }
  }

  /** The store after writing one patch for each request of a list, where the write is taken. */
  ghost predicate Patched(
    before: map<string, Fields>, after: map<string, Fields>, queued: seq<QueuedRequest>, written: string -> bool,
    patch: QueuedRequest -> Fields)
  {
    && after.Keys == before.Keys
    && (forall id :: id in before && id !in Ids(queued) ==> after[id] == before[id])
    && (forall q :: q in queued && q.request.id in before ==>
          after[q.request.id] == if written(q.request.id) then Apply(before[q.request.id], patch(q)) else before[q.request.id])
  }

  ghost predicate DistinctRequests(requests: seq<Request>) {
    forall i, j :: 0 <= i < j < |requests| ==> requests[i].id != requests[j].id
  }

  lemma {:induction false} ChosenDistinct(requests: seq<Request>, settings: Settings, now: int)
    requires DistinctRequests(requests)
    ensures DistinctIds(Chosen(requests, settings, now))
  {
    if requests != [] {
      var init, last := requests[..|requests| - 1], requests[|requests| - 1];
      ChosenDistinct(init, settings, now);
      forall q | q in Chosen(init, settings, now) ensures q.request.id != last.id {
        ChosenMembers(init, settings, now, q);
      }
    }
  }

  lemma {:induction false} FilterDistinctIds(keep: QueuedRequest -> bool, queued: seq<QueuedRequest>)
    requires DistinctIds(queued)
    ensures DistinctIds(Filter(keep, queued))
  {
    if queued != [] {
      FilterDistinctIds(keep, queued[1..]);
      FilterMembers(keep, queued[1..]);
      assert forall q :: q in queued[1..] ==> q.request.id != queued[0].request.id;
    }
  }

  lemma FailedDistinct(processed: seq<QueuedRequest>)
    requires DistinctIds(processed)
    ensures DistinctIds(FailedOf(processed))
  {
    FilterDistinctIds((q: QueuedRequest) => q.condition != Completed, processed);
  }

  /** The fate of a request in a pass where nothing ends early. */
  function FateOf(
    target: TargetReport, id: string, written: string -> bool, error: string -> Option<string>, recorded: string -> bool): Fate
  {
    var e := if target.OtherReport? then Some(NotSupported(target)) else error(id);
    Finished(written(id), e, e.None? || recorded(id))
  }

  /** What each request of the store is after such a pass. */
  ghost predicate PassDone(
    before: map<string, Fields>, after: map<string, Fields>, chosen: seq<QueuedRequest>, dismissed: seq<QueuedRequest>,
    fate: string -> Fate, settings: Settings, now: int)
  {
    && after.Keys <= before.Keys
    && forall id :: id in before ==> PassDoneFor(before, after, chosen, dismissed, fate(id), settings, now, id)
  }

  ghost predicate PassDoneFor(
    before: map<string, Fields>, after: map<string, Fields>, chosen: seq<QueuedRequest>, dismissed: seq<QueuedRequest>,
    fate: Fate, settings: Settings, now: int, id: string)
    requires id in before
  {
    var d := Classify(RunOf(before[id]), settings, now);
    var left := if id in after then Some(after[id]) else None;
    if id in Ids(chosen) then d.Process? && left == PassDoc(before[id], id, d, fate, now)
    else if id in Ids(dismissed) then d.Delete? && left == PassDoc(before[id], id, d, Finished(true, None, true), now)
    else left == Some(before[id])
  }

  class Runner {
    const selector: RequestSelector
    const processor: ReportProcessor
    var store: map<string, Fields>

    constructor (selector: RequestSelector, processor: ReportProcessor, store: map<string, Fields>)
      ensures this.selector == selector && this.processor == processor && this.store == store
    {
      this.selector, this.processor, this.store := selector, processor, store;
    }

    /** One write of tryUpdateRequests for each request; a write that is not taken is only logged. */
    method TryUpdateRequests(queued: seq<QueuedRequest>, written: string -> bool, patch: QueuedRequest -> Fields)
      requires DistinctIds(queued)
      modifies this
      ensures Patched(old(store), store, queued, written, patch)
    {
      hide Apply;
      for i := 0 to |queued|
        invariant Patched(old(store), store, queued[..i], written, patch)
      {
        var id := queued[i].request.id;
        assert id !in Ids(queued[..i]);
        if id in store && written(id) {
          store := store[id := Apply(store[id], patch(queued[i]))];
        }
        assert queued[..i + 1] == queued[..i] + [queued[i]];
        assert Ids(queued[..i + 1]) == Ids(queued[..i]) + {id};
      }
      assert queued[..|queued|] == queued;
    }

    /** Splits the processed requests: none is lost or doubled, each part keeps its order, and the completed ones, all of
        them and no other, are put before those that were to be deleted anyway. */
    method MoveCompletedRequestsForDeletion(processed: seq<QueuedRequest>, toDelete: seq<QueuedRequest>)
      returns (failed: seq<QueuedRequest>, deletable: seq<QueuedRequest>)
      ensures deletable == CompletedOf(processed) + toDelete && failed == FailedOf(processed)
      ensures multiset(deletable) + multiset(failed) == multiset(processed) + multiset(toDelete)
      ensures forall q :: q in failed ==> q.condition != Completed
      ensures Subsequence(failed, processed)
      ensures exists completed :: MovedToFront(completed, deletable, toDelete, processed)
    {
      SplitByCompletion(processed);
      var completed := CompletedOf(processed);
      deletable := completed + toDelete;
      failed := FailedOf(processed);
    }

    method DeleteRequests(deletable: seq<QueuedRequest>)
      modifies this
      ensures store == old(store) - Ids(deletable)
    {
      store := store - Ids(deletable);
    }

    /** One pass in which nothing ends early: each request chosen or dismissed is left as PassDoc says, no other changes. */
    method Run(
      pages: seq<seq<Request>>, target: TargetReport, now: int, written: string -> bool, error: string -> Option<string>,
      recorded: string -> bool)
      returns (chosen: seq<QueuedRequest>, dismissed: seq<QueuedRequest>)
      requires |pages| > 0 && DistinctRequests(Flatten(pages))
      requires forall r :: r in Flatten(pages) ==> r.id in store && r.run == RunOf(store[r.id])
      modifies this
      ensures |chosen| <= MAX_REQUESTS_TO_MERGE && |dismissed| <= MAX_REQUESTS_TO_DELETE
      ensures PassDone(old(store), store, chosen, dismissed, id => FateOf(target, id, written, error, recorded),
                       selector.settings, now)
    {
      hide RunningPatch, FailedPatch, RunOf, Patched, PassDone, FateOf, Outcome, FailedOf, CompletedOf, Flatten, Chosen,
        Dismissed, Classify;
      ghost var read;
      chosen, dismissed, read := selector.GetQueuedRequests(pages, now, MAX_REQUESTS_TO_MERGE, MAX_REQUESTS_TO_DELETE);
      SelectionFacts(pages, read, selector.settings, now, chosen, dismissed);
      ghost var s0 := store;
      TryUpdateRequests(chosen, written, (q: QueuedRequest) => RunningPatch(q.request, now));
      ghost var s1 := store;
      var processed := processor.Generate(target, chosen, error);
      var failed, deletable := MoveCompletedRequestsForDeletion(processed, dismissed);
      FailedDistinct(processed);
      TryUpdateRequests(failed, recorded, (q: QueuedRequest) => FailedPatch(q, now));
      ghost var s2 := store;
      DeleteRequests(deletable);
      PassAssembles(s0, s1, s2, selector.settings, now, target, chosen, dismissed, processed, written, error, recorded);
    }
  }

  ghost predicate Selected(
    s0: map<string, Fields>, settings: Settings, now: int, chosen: seq<QueuedRequest>, dismissed: seq<QueuedRequest>)
  {
    && DistinctIds(chosen)
    && (forall q :: q in chosen || q in dismissed ==> q.request.id in s0 && q.request.run == RunOf(s0[q.request.id]))
    && (forall q :: q in chosen ==> Classify(q.request.run, settings, now) == Process(q.condition))
    && (forall q :: q in dismissed ==> Classify(q.request.run, settings, now) == Delete(q.condition))
  }

  ghost predicate Attempted(
    target: TargetReport, chosen: seq<QueuedRequest>, processed: seq<QueuedRequest>, error: string -> Option<string>)
  {
    && |processed| == |chosen|
    && forall i :: 0 <= i < |chosen| ==> processed[i] == Outcome(target, chosen[i], error(chosen[i].request.id))
  }

  function FailedOf(processed: seq<QueuedRequest>): seq<QueuedRequest> {
    Filter((q: QueuedRequest) => q.condition != Completed, processed)
  }

  function CompletedOf(processed: seq<QueuedRequest>): seq<QueuedRequest> {
    Filter((q: QueuedRequest) => q.condition == Completed, processed)
  }

  /** The completed requests among the processed ones, in order, come first. */
  ghost predicate MovedToFront(
    completed: seq<QueuedRequest>, deletable: seq<QueuedRequest>, toDelete: seq<QueuedRequest>, processed: seq<QueuedRequest>)
  {
    && deletable == completed + toDelete && Subsequence(completed, processed)
    && forall q :: q in completed ==> q.condition == Completed
  }

  lemma SplitByCompletion(processed: seq<QueuedRequest>)
    ensures multiset(CompletedOf(processed)) + multiset(FailedOf(processed)) == multiset(processed)
    ensures Subsequence(CompletedOf(processed), processed) && Subsequence(FailedOf(processed), processed)
    ensures forall q :: q in CompletedOf(processed) ==> q.condition == Completed
    ensures forall q :: q in FailedOf(processed) ==> q.condition != Completed
    ensures forall toDelete :: MovedToFront(CompletedOf(processed), CompletedOf(processed) + toDelete, toDelete, processed)
  {
    var completed, failed := (q: QueuedRequest) => q.condition == Completed, (q: QueuedRequest) => q.condition != Completed;
    FilterMembers(completed, processed);
    FilterMembers(failed, processed);
    FilterIsSubsequence(completed, processed);
    FilterIsSubsequence(failed, processed);
    NoneLostOrDoubled(processed);
  }

  lemma NoneLostOrDoubled(processed: seq<QueuedRequest>)
    ensures multiset(CompletedOf(processed)) + multiset(FailedOf(processed)) == multiset(processed)
  {
    hide Filter;
    forall q ensures (multiset(CompletedOf(processed)) + multiset(FailedOf(processed)))[q] == multiset(processed)[q] {
      FilterCounts((q: QueuedRequest) => q.condition == Completed, processed, q);
      FilterCounts((q: QueuedRequest) => q.condition != Completed, processed, q);
    }
  }

  lemma NotBoth(
    s0: map<string, Fields>, settings: Settings, now: int, chosen: seq<QueuedRequest>, dismissed: seq<QueuedRequest>,
    c: QueuedRequest, d: QueuedRequest)
    requires Selected(s0, settings, now, chosen, dismissed) && c in chosen && d in dismissed
    ensures c.request.id != d.request.id
  {
    hide RunOf, Classify;
  }

  lemma IdsAppend(a: seq<QueuedRequest>, b: seq<QueuedRequest>)
    ensures Ids(a + b) == Ids(a) + Ids(b)
  {}

  lemma OnlyOneProcessed(
    target: TargetReport, chosen: seq<QueuedRequest>, processed: seq<QueuedRequest>, error: string -> Option<string>, k: nat)
    requires DistinctIds(chosen) && Attempted(target, chosen, processed, error) && k < |chosen|
    ensures processed[k].request.id == chosen[k].request.id
    ensures forall q :: q in processed && q.request.id == chosen[k].request.id ==> q == processed[k]
  {
    hide NotSupported;
    forall q | q in processed && q.request.id == chosen[k].request.id ensures q == processed[k] {
      var m :| 0 <= m < |processed| && processed[m] == q;
      assert chosen[m].request.id == chosen[k].request.id;
    }
  }

  /** A chosen request is deleted when its report was made, and otherwise among the failed. */
  lemma WhereChosenGoes(
    s0: map<string, Fields>, settings: Settings, now: int, target: TargetReport,
    chosen: seq<QueuedRequest>, dismissed: seq<QueuedRequest>, processed: seq<QueuedRequest>,
    error: string -> Option<string>, k: nat)
    requires Selected(s0, settings, now, chosen, dismissed) && Attempted(target, chosen, processed, error) && k < |chosen|
    ensures var id := chosen[k].request.id;
      && (id in Ids(CompletedOf(processed) + dismissed) <==> processed[k].condition == Completed)
      && (processed[k] in FailedOf(processed) <==> processed[k].condition != Completed)
  {
    hide RunOf, Classify, NotSupported, DistinctIds, Outcome;
    var id := chosen[k].request.id;
    FilterMembers((q: QueuedRequest) => q.condition != Completed, processed);
    FilterMembers((q: QueuedRequest) => q.condition == Completed, processed);
    assert processed[k] in processed && chosen[k] in chosen;
    assert processed[k].condition == Completed ==> processed[k] in CompletedOf(processed) + dismissed;
    forall q | q in dismissed ensures q.request.id != id {
      NotBoth(s0, settings, now, chosen, dismissed, chosen[k], q);
    }
    OnlyOneProcessed(target, chosen, processed, error, k);
  }

  /** Who is neither chosen nor dismissed appears in no list. */
  lemma WhereOthersStay(
    target: TargetReport, chosen: seq<QueuedRequest>, dismissed: seq<QueuedRequest>, processed: seq<QueuedRequest>,
    error: string -> Option<string>, id: string)
    requires Attempted(target, chosen, processed, error) && id !in Ids(chosen)
    ensures id !in Ids(FailedOf(processed)) && id !in Ids(CompletedOf(processed))
  {
    FilterMembers((q: QueuedRequest) => q.condition != Completed, processed);
    FilterMembers((q: QueuedRequest) => q.condition == Completed, processed);
    forall p | p in processed ensures p.request.id != id {
      var m :| 0 <= m < |processed| && processed[m] == p;
      assert chosen[m] in chosen;
    }
  }

  lemma DismissedIsDeleted(doc: Fields, id: string, condition: DispatchCondition, now: int)
    ensures PassDoc(doc, id, Delete(condition), Finished(true, None, true), now) == None
  {}

  /** The phases of a pass, request by request, amount to PassDoc. */
  lemma PassAssembles(
    s0: map<string, Fields>, s1: map<string, Fields>, s2: map<string, Fields>, settings: Settings, now: int, target: TargetReport,
    chosen: seq<QueuedRequest>, dismissed: seq<QueuedRequest>, processed: seq<QueuedRequest>,
    written: string -> bool, error: string -> Option<string>, recorded: string -> bool)
    requires Selected(s0, settings, now, chosen, dismissed) && Attempted(target, chosen, processed, error)
    requires Patched(s0, s1, chosen, written, (q: QueuedRequest) => RunningPatch(q.request, now))
    requires Patched(s1, s2, FailedOf(processed), recorded, (q: QueuedRequest) => FailedPatch(q, now))
    ensures PassDone(s0, s2 - Ids(CompletedOf(processed) + dismissed), chosen, dismissed,
                     id => FateOf(target, id, written, error, recorded), settings, now)
  {
    hide RunningPatch, FailedPatch, RunOf, Apply, FailedOf, CompletedOf, Classify, PassDoc, NotSupported, DistinctIds;
    IdsAppend(CompletedOf(processed), dismissed);
    var after := s2 - Ids(CompletedOf(processed) + dismissed);
    forall id | id in s0
      ensures PassDoneFor(s0, after, chosen, dismissed, FateOf(target, id, written, error, recorded), settings, now, id)
    {
      if id in Ids(chosen) {
        var k :| 0 <= k < |chosen| && chosen[k].request.id == id;
        ChosenPass(s0, s1, s2, settings, now, target, chosen, dismissed, processed, written, error, recorded, k);
      } else {
        WhereOthersStay(target, chosen, dismissed, processed, error, id);
        if id in Ids(dismissed) {
          var q :| q in dismissed && q.request.id == id;
          DismissedIsDeleted(s0[id], id, q.condition, now);
        }
      }
    }
  }

  lemma PassDocFinished(
    doc: Fields, id: string, condition: DispatchCondition, written: bool, error: Option<string>, recorded: bool, now: int)
    ensures var request := Request(id, RunOf(doc));
      var marked := if written then Apply(doc, RunningPatch(request, now)) else doc;
      PassDoc(doc, id, Process(condition), Finished(written, error, error.None? || recorded), now)
        == if error.None? then None
           else Some(if recorded then Apply(marked, FailedPatch(QueuedRequest(request, Failed, error.value), now)) else marked)
  {
    hide RunningPatch, FailedPatch, RunOf, Apply;
  }

  lemma ChosenPass(
    s0: map<string, Fields>, s1: map<string, Fields>, s2: map<string, Fields>, settings: Settings, now: int, target: TargetReport,
    chosen: seq<QueuedRequest>, dismissed: seq<QueuedRequest>, processed: seq<QueuedRequest>,
    written: string -> bool, error: string -> Option<string>, recorded: string -> bool, k: nat)
    requires Selected(s0, settings, now, chosen, dismissed) && Attempted(target, chosen, processed, error) && k < |chosen|
    requires Patched(s0, s1, chosen, written, (q: QueuedRequest) => RunningPatch(q.request, now))
    requires Patched(s1, s2, FailedOf(processed), recorded, (q: QueuedRequest) => FailedPatch(q, now))
    ensures chosen[k] in chosen && chosen[k].request.id in s0
    ensures PassDoneFor(s0, s2 - Ids(CompletedOf(processed) + dismissed), chosen, dismissed,
                        FateOf(target, chosen[k].request.id, written, error, recorded), settings, now, chosen[k].request.id)
  {
    hide RunningPatch, FailedPatch, RunOf, Apply, FailedOf, CompletedOf, Classify, PassDoc, NotSupported, DistinctIds;
    var q, p, id := chosen[k], processed[k], chosen[k].request.id;
    WhereChosenGoes(s0, settings, now, target, chosen, dismissed, processed, error, k);
    assert q in chosen;
    assert q.request == Request(id, RunOf(s0[id]));
    assert s1[id] == if written(id) then Apply(s0[id], RunningPatch(q.request, now)) else s0[id];
    if p.condition != Completed {
      assert p == QueuedRequest(q.request, Failed, p.error) && p.request.id == id;
      assert s2[id] == if recorded(id) then Apply(s1[id], FailedPatch(p, now)) else s1[id];
    }
    PassDocFinished(s0[id], id, q.condition, written(id), FateOf(target, id, written, error, recorded).error, recorded(id), now);
  }

  /** Both lists hold requests of the pages only, classified as listed, and the chosen ones are distinct. */
  lemma SelectionFacts(pages: seq<seq<Request>>, read: nat, settings: Settings, now: int,
                       chosen: seq<QueuedRequest>, dismissed: seq<QueuedRequest>)
    requires read <= |pages| && DistinctRequests(Flatten(pages))
    requires chosen == Take(Chosen(Flatten(pages[..read]), settings, now), MAX_REQUESTS_TO_MERGE)
    requires dismissed == Take(Dismissed(Flatten(pages[..read]), settings, now), MAX_REQUESTS_TO_DELETE)
    ensures DistinctIds(chosen)
    ensures forall q :: q in chosen ==>
              q.request in Flatten(pages) && Classify(q.request.run, settings, now) == Process(q.condition)
    ensures forall q :: q in dismissed ==>
              q.request in Flatten(pages) && Classify(q.request.run, settings, now) == Delete(q.condition)
  {
    var requests := Flatten(pages[..read]);
    FlattenPrefix(pages, read);
    ChosenDistinct(requests, settings, now);
    forall q | q in chosen ensures q.request in requests && Classify(q.request.run, settings, now) == Process(q.condition) {
      ChosenMembers(requests, settings, now, q);
    }
    forall q | q in dismissed ensures q.request in requests && Classify(q.request.run, settings, now) == Delete(q.condition) {
      ChosenMembers(requests, settings, now, q);
    }
  }

  lemma {:induction false} FlattenPrefix<T>(pages: seq<seq<T>>, read: nat)
    requires read <= |pages|
    ensures |Flatten(pages[..read])| <= |Flatten(pages)|
    ensures Flatten(pages[..read]) == Flatten(pages)[..|Flatten(pages[..read])|]
  {
    if read == |pages| {
      assert pages[..read] == pages;
    } else {
      FlattenPrefix(pages[..|pages| - 1], read);
      assert pages[..|pages| - 1][..read] == pages[..read];
    }
  }
}
