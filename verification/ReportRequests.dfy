/** Selecting and running report requests: packages/report-generator-runner/src. */
module ReportRequests {
  import opened Common
  import opened DocumentMerge

  /** The `run` property of a stored request. Timestamps are numbers here. */
  datatype RunInfo = RunInfo(state: string, timestamp: int, retryCount: Option<int>)

  datatype Request = Request(id: string, run: Option<RunInfo>)

  datatype DispatchCondition = Pending | Completed | Failed | Retry

  datatype QueuedRequest = QueuedRequest(request: Request, condition: DispatchCondition, error: string)

  datatype Settings = Settings(maxFailedScanRetryCount: nat, failedScanRetryInterval: nat)

  // ----- selection -----

  datatype Dispatch = Process(condition: DispatchCondition) | Delete(condition: DispatchCondition) | Skip

  /** JavaScript `undefined >= n` is false. */
  predicate RetriesUsedUp(run: RunInfo, settings: Settings) {
    run.retryCount.Some? && run.retryCount.value >= settings.maxFailedScanRetryCount
  }

  predicate DelayPassed(run: RunInfo, settings: Settings, now: int) {
    run.timestamp + settings.failedScanRetryInterval <= now
  }

  function Classify(run: Option<RunInfo>, settings: Settings, now: int): Dispatch {
    if run.None? then Process(Pending)
    else
      var r := run.value;
      if r.state == "completed" then Delete(Completed)
      else if r.state == "failed" && RetriesUsedUp(r, settings) then Delete(Failed)
      else if r.state == "running" && RetriesUsedUp(r, settings) && DelayPassed(r, settings, now) then Delete(Failed)
      else if (r.state == "running" || r.state == "failed") && !RetriesUsedUp(r, settings) && DelayPassed(r, settings, now)
      then Process(Retry)
      else Skip
  }

  /** Once the retries are used up a request is never processed again: it waits out a running state at most, and is deleted. */
  lemma UsedUpIsOnlyDeleted(run: RunInfo, settings: Settings, now: int)
    requires RetriesUsedUp(run, settings)
    ensures !Classify(Some(run), settings, now).Process?
    ensures run.state == "failed" || (run.state == "running" && DelayPassed(run, settings, now))
            ==> Classify(Some(run), settings, now) == Delete(Failed)
  {}

  function Take<T>(s: seq<T>, n: nat): (r: seq<T>)
    ensures r <= s && (|r| == n || (|r| < n && r == s))
  {
    s[..Min(n, |s|)]
  }

  /** The requests to process, in reading order. */
  function Chosen(requests: seq<Request>, settings: Settings, now: int): seq<QueuedRequest> {
    if requests == [] then []
    else
      var last := requests[|requests| - 1];
      var before := Chosen(requests[..|requests| - 1], settings, now);
      match Classify(last.run, settings, now)
      case Process(condition) => before + [QueuedRequest(last, condition, "")]
      case _ => before
  }

  /** The requests to delete, in reading order. */
  function Dismissed(requests: seq<Request>, settings: Settings, now: int): seq<QueuedRequest> {
    if requests == [] then []
    else
      var last := requests[|requests| - 1];
      var before := Dismissed(requests[..|requests| - 1], settings, now);
      match Classify(last.run, settings, now)
      case Delete(condition) => before + [QueuedRequest(last, condition, "")]
      case _ => before
  }

  /** Which requests are chosen and dismissed: exactly those the classification says, and none twice. */
  lemma {:induction false} ChosenMembers(requests: seq<Request>, settings: Settings, now: int, q: QueuedRequest)
    ensures q in Chosen(requests, settings, now)
            <==> q.request in requests && Classify(q.request.run, settings, now) == Process(q.condition) && q.error == ""
    ensures q in Dismissed(requests, settings, now)
            <==> q.request in requests && Classify(q.request.run, settings, now) == Delete(q.condition) && q.error == ""
  {
    if requests != [] {
      ChosenMembers(requests[..|requests| - 1], settings, now, q);
      assert requests == requests[..|requests| - 1] + [requests[|requests| - 1]];
    }
  }

  predicate HasRetryLeft(run: RunInfo, settings: Settings) {
    run.retryCount.None? || run.retryCount.value < settings.maxFailedScanRetryCount
  }

  predicate Interrupted(run: RunInfo) { run.state == "running" || run.state == "failed" }

  predicate HasWaited(run: RunInfo, settings: Settings, now: int) {
    now >= run.timestamp + settings.failedScanRetryInterval
  }

  /** A running or failed request with a retry left, once it has waited for the interval. */
  predicate DueForRetry(run: RunInfo, settings: Settings, now: int) {
    Interrupted(run) && HasRetryLeft(run, settings) && HasWaited(run, settings, now)
  }

  /** A request with no retry left that failed, or ran for the interval. */
  predicate GivenUp(run: RunInfo, settings: Settings, now: int) {
    !HasRetryLeft(run, settings) && (run.state == "failed" || (run.state == "running" && HasWaited(run, settings, now)))
  }

  /** Processed are exactly the requests that have not run yet, as pending, and those due for a retry, as such; deleted are the
      completed ones, as completed, and those given up, as failed. */
  lemma ChosenExactly(requests: seq<Request>, settings: Settings, now: int, r: Request, condition: DispatchCondition)
    ensures QueuedRequest(r, condition, "") in Chosen(requests, settings, now) <==>
      && r in requests
      && if r.run.None? then condition == Pending else condition == Retry && DueForRetry(r.run.value, settings, now)
    ensures QueuedRequest(r, condition, "") in Dismissed(requests, settings, now) <==>
      && r in requests && r.run.Some?
      && if r.run.value.state == "completed" then condition == Completed
         else condition == Failed && GivenUp(r.run.value, settings, now)
  {
    ChosenMembers(requests, settings, now, QueuedRequest(r, condition, ""));
  }

  lemma OneMoreRequest(requests: seq<Request>, last: Request, settings: Settings, now: int)
    ensures Chosen(requests + [last], settings, now) == Chosen(requests, settings, now)
              + match Classify(last.run, settings, now) case Process(c) => [QueuedRequest(last, c, "")] case _ => []
    ensures Dismissed(requests + [last], settings, now) == Dismissed(requests, settings, now)
              + match Classify(last.run, settings, now) case Delete(c) => [QueuedRequest(last, c, "")] case _ => []
  {
    hide Classify;
    assert (requests + [last])[..|requests|] == requests;
  }

  lemma NoneChosen(settings: Settings, now: int)
    ensures Chosen([], settings, now) == [] == Dismissed([], settings, now)
  {}

  /** After k pages both lists are short of what was asked for. */
  ghost predicate BothShort(
    pages: seq<seq<Request>>, k: nat, settings: Settings, now: int, maxToProcess: nat, maxToDelete: nat)
    requires k <= |pages|
  {
    && |Chosen(Flatten(pages[..k]), settings, now)| < maxToProcess
    && |Dismissed(Flatten(pages[..k]), settings, now)| < maxToDelete
  }

  class RequestSelector {
    const settings: Settings

    constructor (settings: Settings)
      ensures this.settings == settings
    {
      this.settings := settings;
    }

    /** Reads pages while both lists are short and a continuation token came back, and no page beyond, then cuts both lists.
        A page after page i exists exactly when the read of page i returned a token. */
    method GetQueuedRequests(pages: seq<seq<Request>>, now: int, maxToProcess: nat, maxToDelete: nat)
      returns (toProcess: seq<QueuedRequest>, toDelete: seq<QueuedRequest>, ghost consumed: nat)
      requires |pages| > 0
      ensures 1 <= consumed <= |pages|
      ensures var read := Flatten(pages[..consumed]);
        && toProcess == Take(Chosen(read, settings, now), maxToProcess)
        && toDelete == Take(Dismissed(read, settings, now), maxToDelete)
        && (consumed < |pages| ==> |toProcess| == maxToProcess || |toDelete| == maxToDelete)
      ensures forall k :: 1 <= k < consumed ==> BothShort(pages, k, settings, now, maxToProcess, maxToDelete)
    {
      hide Classify, Chosen, Dismissed;
      assert Chosen(Flatten(pages[..0]), settings, now) == [] == Dismissed(Flatten(pages[..0]), settings, now) by {
        NoneChosen(settings, now);
      }
      toProcess, toDelete := [], [];
      var i := 0;
      var more := true;
      while more
        invariant i <= |pages| && (more ==> i < |pages|)
        invariant toProcess == Chosen(Flatten(pages[..i]), settings, now)
        invariant toDelete == Dismissed(Flatten(pages[..i]), settings, now)
        invariant !more ==> i > 0 && (i == |pages| || |toProcess| >= maxToProcess || |toDelete| >= maxToDelete)
        invariant forall k :: 1 <= k < i ==> BothShort(pages, k, settings, now, maxToProcess, maxToDelete)
        invariant more && i > 0 ==> BothShort(pages, i, settings, now, maxToProcess, maxToDelete)
        decreases |pages| - i, more
      {
        assert pages[..i + 1][..i] == pages[..i];
        toProcess, toDelete := FilterRequests(toProcess, toDelete, Flatten(pages[..i]), pages[i], now);
        i := i + 1;
        more := |toProcess| < maxToProcess && |toDelete| < maxToDelete && i < |pages|;
      }
      consumed := i;
      toProcess := Take(toProcess, maxToProcess);
      toDelete := Take(toDelete, maxToDelete);
    }

    method FilterRequests(
      process: seq<QueuedRequest>, delete: seq<QueuedRequest>, ghost before: seq<Request>, page: seq<Request>, now: int)
      returns (toProcess: seq<QueuedRequest>, toDelete: seq<QueuedRequest>)
      requires process == Chosen(before, settings, now) && delete == Dismissed(before, settings, now)
      ensures toProcess == Chosen(before + page, settings, now)
      ensures toDelete == Dismissed(before + page, settings, now)
    {
      hide Classify, Chosen, Dismissed;
      toProcess, toDelete := process, delete;
      assert before + page[..0] == before;
      for i := 0 to |page|
        invariant toProcess == Chosen(before + page[..i], settings, now)
        invariant toDelete == Dismissed(before + page[..i], settings, now)
      {
        assert before + page[..i + 1] == (before + page[..i]) + [page[i]];
        OneMoreRequest(before + page[..i], page[i], settings, now);
        match Classify(page[i].run, settings, now)
        case Process(condition) => toProcess := toProcess + [QueuedRequest(page[i], condition, "")];
        case Delete(condition) => toDelete := toDelete + [QueuedRequest(page[i], condition, "")];
        case Skip =>
      }
      assert page[..|page|] == page;
    }
  }

  // ----- the stored document -----

  function TextOf(j: Json): string { if j.Leaf? && j.scalar.Text? then j.scalar.text else "" }

  function NumberOf(j: Json): int { if j.Leaf? && j.scalar.Number? then j.scalar.value else 0 }

  function OptionalNumberOf(j: Json): Option<int> { if j.Leaf? && j.scalar.Number? then Some(j.scalar.value) else None }

  /** The `run` property of a stored document. */
  function RunOf(doc: Fields): Option<RunInfo> {
    match Get(doc, "run")
    case Obj(run) =>
      Some(RunInfo(TextOf(Get(run, "state")), NumberOf(Get(run, "timestamp")), OptionalNumberOf(Get(run, "retryCount"))))
    case _ => None
  }

  /** A stored request either has no `run` yet or has an object there. */
  predicate WellShaped(doc: Fields) { Get(doc, "run") == Undef || Get(doc, "run").Obj? }

  function NextRetryCount(run: Option<RunInfo>): int {
    if run.Some? && run.value.retryCount.Some? then run.value.retryCount.value + 1 else 0
  }

  function RunningPatch(request: Request, now: int): Fields {
    map["id" := Leaf(Text(request.id)),
        "run" := Obj(map["state" := Leaf(Text("running")), "timestamp" := Leaf(Number(now)),
                         "retryCount" := Leaf(Number(NextRetryCount(request.run))), "error" := Null])]
  }

  /** The failed update: it has no `retryCount`, and keeps the first 2048 characters of an error. */
  function FailedPatch(q: QueuedRequest, now: int): Fields {
    map["id" := Leaf(Text(q.request.id)),
        "run" := Obj(map["state" := Leaf(Text("failed")), "timestamp" := Leaf(Number(now)),
                         "error" := if q.error == "" then Null else Leaf(Text(Take(q.error, 2048)))])]
  }

  /** The document has this id, and otherwise differs from the stored one in its `run` alone, but for nulls. */
  ghost predicate OnlyRunChanges(doc: Fields, r: Fields, id: string) {
    Get(r, "id") == Leaf(Text(id)) && forall k :: k != "id" && k != "run" ==> Get(r, k) == Get(Normalize(Obj(doc)).fields, k)
  }

  lemma PatchKeepsOthers(doc: Fields, patch: Fields, id: string)
    requires patch.Keys == {"id", "run"} && patch["id"] == Leaf(Text(id))
    ensures OnlyRunChanges(doc, Apply(doc, patch), id)
  {
    hide Merge, Normalize;
    ApplyField(Obj(doc), Obj(patch), "id");
    MergeScalar(Get(doc, "id"), patch["id"]);
    NormalizeField(Obj(doc), "id");
    forall k | k != "id" && k != "run" ensures Get(Apply(doc, patch), k) == Get(Normalize(Obj(doc)).fields, k) {
      ApplyField(Obj(doc), Obj(patch), k);
      MergeUndefined(Get(doc, k));
      NormalizeField(Obj(doc), k);
    }
  }

  lemma PatchedRunField(doc: Fields, patch: Fields, key: string)
    requires WellShaped(doc) && Get(patch, "run").Obj? && key != ETAG
    ensures WellShaped(Apply(doc, patch)) && Get(Apply(doc, patch), "run").Obj?
    ensures Get(Get(Apply(doc, patch), "run").fields, key)
         == FieldAfter(Get(FieldsOf(Get(doc, "run")), key), Get(Get(patch, "run").fields, key), key)
  {
    hide Merge, Normalize;
    ApplyField(Obj(doc), Obj(patch), "run");
    var t, s := Get(doc, "run"), Get(patch, "run");
    ApplyField(t, s, key);
    NormalizeField(Merge(t, s), key);
  }

  /** Marking a request running sets state, time and retry count, and drops the error of an earlier run. */
  lemma RunningPatchEffect(doc: Fields, request: Request, now: int)
    requires WellShaped(doc)
    ensures var r := Apply(doc, RunningPatch(request, now));
      && WellShaped(r) && RunOf(r) == Some(RunInfo("running", now, Some(NextRetryCount(request.run))))
      && Get(r, "run").Obj? && Get(Get(r, "run").fields, "error") == Undef
      && OnlyRunChanges(doc, r, request.id)
  {
    hide Apply, OnlyRunChanges;
    var patch := RunningPatch(request, now);
    PatchKeepsOthers(doc, patch, request.id);
    PatchedRunField(doc, patch, "state");
    PatchedRunField(doc, patch, "timestamp");
    PatchedRunField(doc, patch, "retryCount");
    PatchedRunField(doc, patch, "error");
  }

  /** Marking a request failed keeps the retry count, which the patch does not mention. */
  lemma FailedPatchEffect(doc: Fields, q: QueuedRequest, now: int)
    requires WellShaped(doc)
    ensures var r := Apply(doc, FailedPatch(q, now));
      && WellShaped(r)
      && RunOf(r) == Some(RunInfo("failed", now, if RunOf(doc).Some? then RunOf(doc).value.retryCount else None))
      && Get(r, "run").Obj? && OnlyRunChanges(doc, r, q.request.id)
      && Get(Get(r, "run").fields, "error") == if q.error == "" then Undef else Leaf(Text(Take(q.error, 2048)))
  {
    hide Apply, OnlyRunChanges;
    var patch := FailedPatch(q, now);
    PatchKeepsOthers(doc, patch, q.request.id);
    PatchedRunField(doc, patch, "error");
    PatchedRunField(doc, patch, "state");
    PatchedRunField(doc, patch, "timestamp");
    PatchedRunField(doc, patch, "retryCount");
    ScalarStays(Get(FieldsOf(Get(doc, "run")), "retryCount"));
  }

  lemma ScalarStays(j: Json)
    ensures OptionalNumberOf(FieldAfter(j, Undef, "retryCount")) == OptionalNumberOf(j)
  {}
}
