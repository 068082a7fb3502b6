/** The job manager: packages/service-library/src/batch/batch-task-creator.ts with the queue and load control of
    packages/privacy-scan-job-manager/src/worker/worker.ts. */
module JobManager {
  import opened Common
  import opened StorageQueues
  import opened PoolLoad
  import opened BatchTasks

  datatype ScanMessage = ScanMessage(scanId: string, messageId: string, message: Message)

  // ----- array operations -----

  /** `find((m) => m.messageId === id)` */
  function Find(active: seq<ScanMessage>, id: string): Option<ScanMessage> {
    if active == [] then None
    else if active[0].messageId == id then Some(active[0])
    else Find(active[1..], id)
  }

  /** `indexOf` */
  function IndexOf(active: seq<ScanMessage>, m: ScanMessage): (i: int)
    ensures if m in active then 0 <= i < |active| && active[i] == m else i == -1
  {
    if active == [] then -1
    else if active[0] == m then 0
    else
      var i := IndexOf(active[1..], m);
      if i < 0 then -1 else i + 1
  }

  /** `splice(start, 1)`, where a negative start counts from the end. */
  function Splice(active: seq<ScanMessage>, start: int): seq<ScanMessage> {
    var i := if start < 0 then Max(|active| + start, 0) else start;
    if i < |active| then active[..i] + active[i + 1..] else active
  }

  function SpliceAll(active: seq<ScanMessage>, messages: seq<ScanMessage>): seq<ScanMessage> {
    if messages == [] then active
    else
      var before := SpliceAll(active, messages[..|messages| - 1]);
      Splice(before, IndexOf(before, messages[|messages| - 1]))
  }

  lemma SpliceRemoves(active: seq<ScanMessage>, i: nat)
    requires i < |active|
    ensures multiset(Splice(active, i)) == multiset(active) - multiset{active[i]}
    ensures |Splice(active, i)| == |active| - 1
  {
    assert active == active[..i] + [active[i]] + active[i + 1..];
  }

  /** Looking up and splicing out removes what was looked up, as long as each message is looked up no more often than it
      is there. */
  lemma {:induction false} SpliceAllRemoves(active: seq<ScanMessage>, messages: seq<ScanMessage>)
    requires multiset(messages) <= multiset(active)
    ensures multiset(SpliceAll(active, messages)) == multiset(active) - multiset(messages)
  {
    if messages != [] {
      var init, last := messages[..|messages| - 1], messages[|messages| - 1];
      assert messages == init + [last];
      assert multiset(messages) == multiset(init) + multiset{last};
      SpliceAllRemoves(active, init);
      var before := SpliceAll(active, init);
      assert multiset(before)[last] >= 1;
      SpliceRemoves(before, IndexOf(before, last));
    }
  }

  lemma {:induction false} SpliceAllSize(active: seq<ScanMessage>, messages: seq<ScanMessage>)
    ensures |SpliceAll(active, messages)| == Max(0, |active| - |messages|)
    ensures multiset(SpliceAll(active, messages)) <= multiset(active)
  {
    if messages != [] {
      SpliceAllSize(active, messages[..|messages| - 1]);
      var before := SpliceAll(active, messages[..|messages| - 1]);
      var start := IndexOf(before, messages[|messages| - 1]);
      if before != [] {
        SpliceRemoves(before, if start < 0 then |before| - 1 else start);
      }
    }
  }

  /** Splicing leaves exactly the messages that were not looked up if and only if none was looked up twice, or all were
      looked up: a second lookup of a message that is gone splices out the last of the others. */
  lemma SpliceAllExact(active: seq<ScanMessage>, messages: seq<ScanMessage>)
    requires Distinct(active) && forall m :: m in messages ==> m in active
    ensures (forall m :: m in SpliceAll(active, messages) <==> m in active && m !in messages)
            <==> Distinct(messages) || Elements(messages) == Elements(active)
  {
    var left := SpliceAll(active, messages);
    SpliceAllSize(active, messages);
    SubsetDistinct(active, left);
    CardinalityAtMostLength(messages);
    assert Elements(messages) <= Elements(active);
    if forall m :: m in left <==> m in active && m !in messages {
      ExactSize(active, messages, left);
    }
    if Distinct(messages) {
      DistinctSubset(active, messages);
      SpliceAllRemoves(active, messages);
      DistinctLeftovers(active, messages, left);
    } else if Elements(messages) == Elements(active) {
      DistinctCardinality(active);
      forall m | m in active ensures m in messages {
        assert m in Elements(active);
      }
    }
  }

  lemma ExactSize(active: seq<ScanMessage>, messages: seq<ScanMessage>, left: seq<ScanMessage>)
    requires Distinct(active) && Distinct(left) && Elements(messages) <= Elements(active)
    requires forall m :: m in left <==> m in active && m !in messages
    ensures |left| == |active| - |Elements(messages)|
    ensures |left| == 0 ==> Elements(messages) == Elements(active)
  {
    DistinctCardinality(active);
    DistinctCardinality(left);
    assert Elements(left) == Elements(active) - Elements(messages);
    if |left| == 0 {
      forall m | m in active ensures m in messages {
        assert m in left <==> m in active && m !in messages;
      }
    }
  }

  lemma SubsetDistinct<T>(s: seq<T>, part: seq<T>)
    requires Distinct(s) && multiset(part) <= multiset(s)
    ensures Distinct(part) && forall x :: x in part ==> x in s
  {
    DistinctCounts(s);
    DistinctCounts(part);
    forall x | x in part ensures x in s {
      assert x in multiset(part);
    }
  }

  lemma DistinctSubset<T>(s: seq<T>, part: seq<T>)
    requires Distinct(part) && forall x :: x in part ==> x in s
    ensures multiset(part) <= multiset(s)
  {
    DistinctCounts(part);
    forall x ensures multiset(part)[x] <= multiset(s)[x] {
      if x in part { assert x in multiset(s); }
    }
  }

  lemma DistinctLeftovers(active: seq<ScanMessage>, messages: seq<ScanMessage>, left: seq<ScanMessage>)
    requires Distinct(active) && Distinct(messages)
    requires multiset(left) == multiset(active) - multiset(messages)
    ensures forall m :: m in left <==> m in active && m !in messages
  {
    DistinctCounts(active);
    DistinctCounts(messages);
    forall m ensures m in left <==> m in active && m !in messages {
      assert m in left <==> multiset(left)[m] > 0;
      assert m in active <==> multiset(active)[m] > 0;
      assert m in messages <==> multiset(messages)[m] > 0;
    }
  }

  // ----- looking messages up by task -----

  ghost predicate UniqueIds(active: seq<ScanMessage>) {
    && Distinct(active)
    && forall a, b :: a in active && b in active && a.messageId == b.messageId ==> a == b
  }

  /** The messages found for some correlation ids; an id without a message finds none. */
  function FoundAll(active: seq<ScanMessage>, ids: seq<string>): seq<ScanMessage> {
    if ids == [] then []
    else
      var before := FoundAll(active, ids[..|ids| - 1]);
      match Find(active, ids[|ids| - 1])
      case Some(m) => before + [m]
      case None => before
  }

  lemma {:induction false} FindFacts(active: seq<ScanMessage>, id: string)
    ensures Find(active, id).None? <==> forall m :: m in active ==> m.messageId != id
    ensures Find(active, id).Some? ==> Find(active, id).value in active && Find(active, id).value.messageId == id
  {
    if active != [] {
      FindFacts(active[1..], id);
      assert active == [active[0]] + active[1..];
    }
  }

  lemma NoneFound(active: seq<ScanMessage>)
    ensures FoundAll(active, []) == []
  {}

  lemma FoundAllSnoc(active: seq<ScanMessage>, ids: seq<string>, id: string)
    ensures FoundAll(active, ids + [id]) == FoundAll(active, ids) + match Find(active, id) case Some(m) => [m] case None => []
  {
    assert (ids + [id])[..|ids|] == ids;
  }

  lemma {:induction false} FoundAllMembers(active: seq<ScanMessage>, ids: seq<string>)
    requires UniqueIds(active)
    ensures forall m :: m in FoundAll(active, ids) <==> m in active && m.messageId in ids
  {
    if ids != [] {
      FoundAllMembers(active, ids[..|ids| - 1]);
      FindFacts(active, ids[|ids| - 1]);
      assert ids == ids[..|ids| - 1] + [ids[|ids| - 1]];
    }
  }

  lemma {:induction false} FoundAllDistinct(active: seq<ScanMessage>, ids: seq<string>)
    requires UniqueIds(active) && Distinct(ids)
    ensures Distinct(FoundAll(active, ids))
  {
    if ids != [] {
      hide UniqueIds;
      var init, last := ids[..|ids| - 1], ids[|ids| - 1];
      FoundAllDistinct(active, init);
      FoundAllMembers(active, init);
      FindFacts(active, last);
      assert last !in init;
    }
  }

  lemma FoundAllFacts(active: seq<ScanMessage>, ids: seq<string>)
    requires UniqueIds(active) && Distinct(ids)
    ensures Distinct(FoundAll(active, ids))
    ensures forall m :: m in FoundAll(active, ids) <==> m in active && m.messageId in ids
    ensures multiset(FoundAll(active, ids)) <= multiset(active)
  {
    hide Distinct, FoundAll;
    FoundAllDistinct(active, ids);
    FoundAllMembers(active, ids);
    DistinctSubset(active, FoundAll(active, ids));
  }

  type Reports = seq<string> -> (seq<string>, seq<string>)

  /** The service lists, among the tasks ever created, some as succeeded and later some as failed, each once in a list.
      Nothing relates the two lists, as the tasks go on between them. */
  ghost predicate ReportsProperly(report: Reports) {
    forall tasks :: multiset(report(tasks).0) <= multiset(tasks) && multiset(report(tasks).1) <= multiset(tasks)
  }

  /** The order in which concurrent deletions of some messages complete. */
  type Completion = seq<ScanMessage> -> seq<ScanMessage>

  ghost predicate Permutes(order: Completion) {
    forall s :: multiset(order(s)) == multiset(s)
  }

  lemma SubsetUnique(active: seq<ScanMessage>, part: seq<ScanMessage>)
    requires UniqueIds(active) && multiset(part) <= multiset(active)
    ensures UniqueIds(part) && forall m :: m in part ==> m in active
  {
    SubsetDistinct(active, part);
  }

  lemma FindIn(active: seq<ScanMessage>, m: ScanMessage)
    requires UniqueIds(active) && m in active
    ensures Find(active, m.messageId) == Some(m)
  {
    FindFacts(active, m.messageId);
  }

  /** Of `all` messages, some are gone, and `left` is what is left. */
  ghost predicate LeftOver(all: seq<ScanMessage>, gone: seq<ScanMessage>, left: seq<ScanMessage>) {
    && UniqueIds(all) && Distinct(gone)
    && multiset(gone) <= multiset(all) && multiset(left) == multiset(all) - multiset(gone)
  }

  lemma NothingGone(all: seq<ScanMessage>)
    requires UniqueIds(all)
    ensures LeftOver(all, [], all)
  {}

  /** One more message is looked up and spliced out. */
  lemma TakeOut(all: seq<ScanMessage>, gone: seq<ScanMessage>, left: seq<ScanMessage>, m: ScanMessage)
    requires LeftOver(all, gone, left) && m in all && m !in gone
    ensures m in left && Find(left, m.messageId) == Some(m)
    ensures LeftOver(all, gone + [m], Splice(left, IndexOf(left, m)))
  {
    hide UniqueIds, Find, Splice, Distinct;
    StillThere(all, gone, left, m);
    FindIn(left, m);
    SpliceRemoves(left, IndexOf(left, m));
    OneMoreGoneDistinct(gone, m);
    assert multiset(gone + [m]) == multiset(gone) + multiset{m};
  }

  lemma StillThere(all: seq<ScanMessage>, gone: seq<ScanMessage>, left: seq<ScanMessage>, m: ScanMessage)
    requires LeftOver(all, gone, left) && m in all && m !in gone
    ensures m in left && UniqueIds(left)
  {
    hide UniqueIds, Distinct;
    SubsetUnique(all, left);
    assert multiset(gone)[m] == 0 && multiset(all)[m] >= 1;
    assert m in multiset(left);
  }

  lemma OneMoreGoneDistinct(gone: seq<ScanMessage>, m: ScanMessage)
    requires Distinct(gone) && m !in gone
    ensures Distinct(gone + [m])
  {}

  lemma WhatIsLeft(all: seq<ScanMessage>, gone: seq<ScanMessage>, left: seq<ScanMessage>)
    requires LeftOver(all, gone, left)
    ensures forall m :: m in left <==> m in all && m !in gone
    ensures multiset(left) + multiset(gone) == multiset(all)
  {
    DistinctLeftovers(all, gone, left);
  }

  predicate Taken(random: RandomHex, answer: AddResult, m: ScanMessage) {
    answer(TaskId(m.messageId, random)).None?
  }

  /** Of some messages, those the service took a task for. */
  function TakenOf(random: RandomHex, answer: AddResult, messages: seq<ScanMessage>): seq<ScanMessage> {
    if messages == [] then []
    else
      var before := TakenOf(random, answer, messages[..|messages| - 1]);
      if Taken(random, answer, messages[|messages| - 1]) then before + [messages[|messages| - 1]] else before
  }

  lemma NoneTaken(random: RandomHex, answer: AddResult)
    ensures IdsOfScans(TakenOf(random, answer, [])) == []
  {}

  lemma TakenSnoc(random: RandomHex, answer: AddResult, messages: seq<ScanMessage>, m: ScanMessage)
    ensures TakenOf(random, answer, messages + [m])
         == TakenOf(random, answer, messages) + if Taken(random, answer, m) then [m] else []
    ensures IdsOfScans(TakenOf(random, answer, messages + [m]))
         == IdsOfScans(TakenOf(random, answer, messages)) + if Taken(random, answer, m) then [m.messageId] else []
  {
    hide Taken;
    assert (messages + [m])[..|messages|] == messages;
  }

  // ----- which messages there can be -----

  function ToScan(scanIdOf: string -> string, m: Message): ScanMessage {
    ScanMessage(scanIdOf(m.messageText), m.messageId, m)
  }

  function ToScans(scanIdOf: string -> string, messages: seq<Message>): seq<ScanMessage> {
    Map((m: Message) => ToScan(scanIdOf, m), messages)
  }

  lemma ToScansAppend(scanIdOf: string -> string, a: seq<Message>, b: seq<Message>)
    ensures ToScans(scanIdOf, a + b) == ToScans(scanIdOf, a) + ToScans(scanIdOf, b)
  {}

  /** Messages that come from a queue without repetitions are told apart by their ids. */
  lemma ScansUnique(scanIdOf: string -> string, handedOut: seq<Message>, active: seq<ScanMessage>)
    requires Distinct(IdsOf(handedOut)) && multiset(active) <= multiset(ToScans(scanIdOf, handedOut))
    ensures UniqueIds(active)
    ensures forall m :: m in active ==> m.message in handedOut && m == ToScan(scanIdOf, m.message)
  {
    var all := ToScans(scanIdOf, handedOut);
    forall i, j | 0 <= i < j < |all| ensures all[i].messageId != all[j].messageId {
      assert IdsOf(handedOut)[i] != IdsOf(handedOut)[j];
    }
    SubsetDistinct(all, active);
    forall m | m in active ensures m.message in handedOut && m == ToScan(scanIdOf, m.message) {
      var k :| 0 <= k < |all| && all[k] == m;
      assert handedOut[k] in handedOut;
    }
  }

  // ----- the manager -----

  /** What the outside world does during one turn of the loop. Other clients act on the queue before the turn, before each
      receive, and before the tasks are looked at. */
  datatype Turn = Turn(
    before: seq<StorageQueues.Event>, metrics: PoolMetrics, between: nat -> seq<StorageQueues.Event>, pendingTasks: nat,
    random: RandomHex, answer: AddResult, timeIsUp: bool, later: seq<StorageQueues.Event>, report: Reports, order: Completion)

  ghost predicate WorldBehaves(t: Turn) {
    HexOfSize(t.random) && ReportsProperly(t.report) && Permutes(t.order)
  }

  datatype Outcome = Continues | Ends | Throws

  /** A turn as it went: the load controller before it, what was pulled, how many tasks were added, and the state of the queue
      in which a receive had nothing new to give, if one had. */
  datatype TurnRecord = TurnRecord(load: LoadState, got: seq<ScanMessage>, added: nat, last: Option<QueueState>)

  /** As many messages as the increment asks for, or fewer when the queue had nothing new for the rest. */
  ghost predicate AsAsked(deliver: Delivery, increment: real, count: nat, last: Option<QueueState>) {
    if increment <= 0.0 then count == 0
    else
      && count as real <= increment
      && (last.None? ==> count as real == increment)
      && (last.Some? ==> NothingFor(last.value, deliver(last.value, NextCount(increment - count as real))))
  }

  /** The controller after a turn: it has measured the load, and been told of the tasks added for what was pulled. */
  function LoadAfter(record: TurnRecord, t: Turn, configRatio: real): LoadState {
    var measured := Snapshot(record.load, t.metrics, configRatio);
    if record.got == [] then measured else measured.(last := Some(record.added as real))
  }

  /** A turn pulls what the controller asks for; when it gets less, the queue was, at some point after `start`, in a state with
      nothing more to give. */
  ghost predicate PullsAsAsked(
    deliver: Delivery, configRatio: real, t: Turn, record: TurnRecord, events: seq<StorageQueues.Event>, start: nat)
  {
    var increment := Snapshot(record.load, t.metrics, configRatio).last;
    && increment.Some? && AsAsked(deliver, increment.value, |record.got|, record.last)
    && (record.last.Some? ==> Passed(events, start, record.last.value))
  }

  /** The run ends with a turn when its time is up, or when nothing was pulled and no task is pending. */
  predicate EndsRun(t: Turn, record: TurnRecord) { t.timeIsUp || (record.got == [] && t.pendingTasks == 0) }

  /** The messages there are, without those that got no task. */
  ghost predicate TasksTried(t: Turn, got: seq<ScanMessage>, before: seq<ScanMessage>, active: seq<ScanMessage>) {
    forall m :: m in active <==> m in before + got && (m in got ==> Taken(t.random, t.answer, m))
  }

  /** The same, and without those reported as succeeded or as failed. */
  ghost predicate TasksLookedAt(
    t: Turn, got: seq<ScanMessage>, before: seq<ScanMessage>, tasks: seq<string>, active: seq<ScanMessage>)
  {
    forall m :: m in active <==>
      && m in before + got && (m in got ==> Taken(t.random, t.answer, m))
      && m.messageId !in t.report(tasks).0 && m.messageId !in t.report(tasks).1
  }

  lemma NothingTried(t: Turn, active: seq<ScanMessage>)
    ensures TasksTried(t, [], active, active)
  {}

  lemma TriedThenLookedAt(
    t: Turn, got: seq<ScanMessage>, before: seq<ScanMessage>, tried: seq<ScanMessage>, tasks: seq<string>,
    active: seq<ScanMessage>)
    requires TasksTried(t, got, before, tried)
    requires forall m :: m in active <==>
      m in tried && m.messageId !in t.report(tasks).0 && m.messageId !in t.report(tasks).1
    ensures TasksLookedAt(t, got, before, tasks, active)
  {
    hide Taken;
  }

  predicate Quiet(t: Turn, k: nat) { t.before == t.later == t.between(k) == [] }

  ghost predicate HaveTasks(active: seq<ScanMessage>, tasks: seq<string>) {
    forall m :: m in active ==> m.messageId in tasks
  }

  /** The service lists every task, as succeeded or as failed. */
  ghost predicate AllDone(report: Reports, tasks: seq<string>) {
    forall c :: c in tasks ==> c in report(tasks).0 || c in report(tasks).1
  }

  class Worker {
    const queue: Queue
    const poolLoadGenerator: PoolLoadGenerator
    const batch: Batch
    const scanIdOf: string -> string // the id in a message body
    var activeScanMessages: seq<ScanMessage>

    ghost var pulled: multiset<ScanMessage>
    ghost var elsewhere: multiset<ScanMessage> // handed out before the run, or to other clients
    ghost var deleted: multiset<ScanMessage> // after their task succeeded
    ghost var failed: multiset<ScanMessage> // handled because their task failed
    ghost var rejected: multiset<ScanMessage> // the service took no task for them
    var tasks: seq<string> // held by the service: the correlation ids of all tasks it took

    ghost predicate Valid()
      reads this, queue
    {
      && queue.Valid()
      && pulled == multiset(activeScanMessages) + deleted + failed + rejected
      && pulled <= multiset(ToScans(scanIdOf, queue.state.handedOut))
      && Distinct(tasks) && forall c :: c in tasks ==> c in IdsOf(queue.state.handedOut)
    }

    /** What the queue handed out is what the manager pulled and what others got. */
    ghost predicate Accounted()
      reads this, queue
    {
      pulled + elsewhere == multiset(ToScans(scanIdOf, queue.state.handedOut))
    }

    constructor (queue: Queue, poolLoadGenerator: PoolLoadGenerator, batch: Batch, scanIdOf: string -> string)
      requires queue.Valid()
      ensures Valid() && activeScanMessages == [] && this.queue == queue && this.poolLoadGenerator == poolLoadGenerator
    {
      this.queue, this.poolLoadGenerator, this.batch, this.scanIdOf := queue, poolLoadGenerator, batch, scanIdOf;
      activeScanMessages, tasks := [], [];
      pulled, deleted, failed, rejected := multiset{}, multiset{}, multiset{}, multiset{};
    }

    lemma ActiveUnique()
      requires Valid()
      ensures pulled == multiset(activeScanMessages) + deleted + failed + rejected
      ensures Distinct(IdsOf(queue.state.handedOut)) && UniqueIds(activeScanMessages)
      ensures forall m :: m in activeScanMessages ==> m.message in queue.state.handedOut && m.messageId == m.message.messageId
    {
      NothingLostNorHandedOutTwice(queue.state, queue.events);
      ScansUnique(scanIdOf, queue.state.handedOut, activeScanMessages);
    }

    /** Asks the load controller how many messages to pull, and pulls that many, or fewer when a receive, in state `last`,
        gives nothing. What the queue hands out meanwhile is what is pulled and what others get; all of it is new. */
    method GetMessagesForTaskCreation(metrics: PoolMetrics, between: nat -> seq<StorageQueues.Event>)
      returns (messages: seq<ScanMessage>, ghost last: Option<QueueState>, ghost got: seq<Message>, ghost others: seq<Message>)
      requires queue.Valid()
      modifies queue, poolLoadGenerator
      ensures queue.Valid()
      ensures messages == ToScans(scanIdOf, got) && old(queue.state.handedOut) <= queue.state.handedOut
      ensures multiset(queue.state.handedOut) == multiset(old(queue.state.handedOut) + (got + others))
      ensures Distinct(IdsOf(old(queue.state.handedOut) + (got + others)))
      ensures Idle(between) ==> others == []
      ensures poolLoadGenerator.State() == Snapshot(old(poolLoadGenerator.State()), metrics, poolLoadGenerator.configRatio)
      ensures poolLoadGenerator.lastTasksIncrementCount.Some?
      ensures AsAsked(queue.deliver, poolLoadGenerator.lastTasksIncrementCount.value, |messages|, last)
      ensures old(queue.events) <= queue.events
      ensures last.Some? ==> Passed(queue.events, |old(queue.events)|, last.value)
    {
      hide Passed, NextCount, NothingFor;
      var increment := poolLoadGenerator.GetPoolLoadSnapshot(metrics);
      messages, last, got, others := [], None, [], [];
      NothingLostNorHandedOutTwice(queue.state, queue.events);
      assert queue.state.handedOut == queue.state.handedOut + ([] + []);
      assert ToScans(scanIdOf, []) == [];
      if increment > 0.0 {
        var queueMessages;
        queueMessages, last, others := queue.GetMessagesWithTotalCount(increment, between);
        got := queueMessages;
        messages := ToScans(scanIdOf, queueMessages);
      }
    }

    /** Creates one task for each message and splices out exactly the messages whose task the service did not take. */
    method AddTasksToJob(messages: seq<ScanMessage>, random: RandomHex, answer: AddResult) returns (r: Result<nat, string>)
      requires Valid() && HexOfSize(random)
      requires Distinct(messages) && forall m :: m in messages ==> m in activeScanMessages && m.messageId !in tasks
      modifies this`activeScanMessages, this`rejected, this`tasks
      ensures Valid() && (old(Accounted()) ==> Accounted())
      ensures r.Success? <==> forall m :: m in messages ==> |m.messageId| <= 58
      ensures r.Success? ==> forall m :: m in activeScanMessages <==>
                && m in old(activeScanMessages)
                && (m in messages ==> Taken(random, answer, m))
      ensures r.Success? ==> r.value <= |messages| && |tasks| == |old(tasks)| + r.value
      ensures r.Success? ==> tasks == old(tasks) + IdsOfScans(TakenOf(random, answer, messages))
      ensures r.Failure? ==> activeScanMessages == old(activeScanMessages)
    {
      hide TaskId, GetTaskCorrelationId, Distinct, UniqueIds, Valid, TasksFor, Taken, TakenOf, IdsOfScans, AllFit,
        DistinctMessages;
      hide ToScans, IdsOf, ToTaskMessages, HexOfSize;
      ActiveUnique();
      var taskMessages := ToTaskMessages(messages);
      TaskMessagesAlike(activeScanMessages, messages, taskMessages);
      var created := batch.CreateTasks(taskMessages, random, answer);
      if created.Failure? {
        return Failure(created.error);
      }
      TasksMatch(created.value, messages, random, answer);
      var queued := RecordTasks(messages, created.value, random, answer);
      r := Success(queued);
    }

    /** Takes note of the created tasks, when all message ids fit. */
    method RecordTasks(messages: seq<ScanMessage>, jobTasks: seq<JobTask>, random: RandomHex, answer: AddResult)
      returns (queued: nat)
      requires Valid() && Distinct(messages)
      requires forall m :: m in messages ==> m in activeScanMessages && m.messageId !in tasks
      requires |jobTasks| == |messages|
      requires forall i :: 0 <= i < |jobTasks| ==>
        && jobTasks[i].correlationId == messages[i].messageId
        && (jobTasks[i].state == Queued <==> Taken(random, answer, messages[i]))
      modifies this`activeScanMessages, this`rejected, this`tasks
      ensures Valid()
      ensures forall m :: m in activeScanMessages <==>
                m in old(activeScanMessages) && (m in messages ==> Taken(random, answer, m))
      ensures queued <= |messages| && |tasks| == |old(tasks)| + queued
      ensures tasks == old(tasks) + IdsOfScans(TakenOf(random, answer, messages))
    {
      hide Distinct, LeftOver, UniqueIds, IdsOf, ToScans, Taken, TakenOf, IdsOfScans;
      ActiveUnique();
      ghost var all := activeScanMessages;
      NothingGone(all);
      var added: seq<string>;
      ghost var gone: seq<ScanMessage>;
      added, gone := SpliceRejected(messages, jobTasks, random, answer, all);
      WhatIsLeft(all, gone, activeScanMessages);
      Rebalance(pulled, all, gone, activeScanMessages, deleted, failed, old(rejected));
      IdsOfMembers(queue.state.handedOut);
      AddedAreNew(all, messages, added, tasks, queue.state.handedOut, random, answer);
      NoteTasks(added);
      queued := |added|;
    }

    /** The service holds the new tasks. */
    method NoteTasks(added: seq<string>)
      requires Valid() && Distinct(tasks + added)
      requires forall c :: c in tasks + added ==> c in tasks || c in IdsOf(queue.state.handedOut)
      modifies this`tasks
      ensures Valid() && tasks == old(tasks) + added
    {
      hide Distinct, IdsOf, ToScans;
      tasks := tasks + added;
    }

    /** The loop of addTasksToJob over the created tasks. */
    method SpliceRejected(
      messages: seq<ScanMessage>, jobTasks: seq<JobTask>, random: RandomHex, answer: AddResult, ghost all: seq<ScanMessage>)
      returns (added: seq<string>, ghost gone: seq<ScanMessage>)
      requires LeftOver(all, [], activeScanMessages)
      requires |jobTasks| == |messages| && Distinct(messages) && forall m :: m in messages ==> m in all
      requires forall i :: 0 <= i < |jobTasks| ==>
        && jobTasks[i].correlationId == messages[i].messageId
        && (jobTasks[i].state == Queued <==> Taken(random, answer, messages[i]))
      modifies this`activeScanMessages, this`rejected
      ensures LeftOver(all, gone, activeScanMessages) && rejected == old(rejected) + multiset(gone)
      ensures forall m :: m in gone <==> m in messages && !Taken(random, answer, m)
      ensures |added| <= |messages| && added == IdsOfScans(TakenOf(random, answer, messages))
    {
      hide LeftOver, UniqueIds, Taken, TakenOf, IdsOfScans;
      added, gone := [], [];
      assert IdsOfScans(TakenOf(random, answer, [])) == [] by { NoneTaken(random, answer); }
      for i := 0 to |jobTasks|
        invariant LeftOver(all, gone, activeScanMessages)
        invariant forall m :: m in gone <==> m in messages[..i] && !Taken(random, answer, m)
        invariant rejected == old(rejected) + multiset(gone)
        invariant |added| <= i && added == IdsOfScans(TakenOf(random, answer, messages[..i]))
      {
        var m := messages[i];
        assert messages[..i + 1] == messages[..i] + [m] && m !in messages[..i] && m in messages;
        TakenSnoc(random, answer, messages[..i], m);
        TakeOut(all, gone, activeScanMessages, m);
        var scanMessage := Find(activeScanMessages, jobTasks[i].correlationId);
        if jobTasks[i].state == Queued {
          added := added + [m.messageId];
        } else {
          activeScanMessages := Splice(activeScanMessages, IndexOf(activeScanMessages, scanMessage.value));
          rejected, gone := rejected + multiset{m}, gone + [m];
        }
      }
      assert messages[..|jobTasks|] == messages;
    }

    /** Deletes the queue messages of succeeded tasks and splices them out, in whatever order the deletions complete. */
    method DeleteScanQueueMessagesForSucceededTasks(report: Reports, order: Completion)
      requires Valid() && ReportsProperly(report) && Permutes(order)
      modifies this`activeScanMessages, this`deleted, queue
      ensures Valid() && queue.state.handedOut == old(queue.state.handedOut) && old(queue.events) <= queue.events
      ensures forall m :: m in activeScanMessages <==> m in old(activeScanMessages) && m.messageId !in report(tasks).0
      ensures old(deleted) <= deleted && forall m :: m in deleted - old(deleted) ==> m.messageId in report(tasks).0
      ensures forall m :: m in old(activeScanMessages) && m.messageId in report(tasks).0 ==> GoneOrStale(queue.state, m.message)
      ensures OthersStay(old(queue.state), queue.state, report(tasks).0)
    {
      hide OthersStay, Distinct, LeftOver, UniqueIds, IdsOf, ToScans;
      ActiveUnique();
      var succeeded := report(tasks).0;
      SubsetDistinct(tasks, succeeded);
      var unprocessed := Unprocessed(activeScanMessages, succeeded);
      UnprocessedFacts(activeScanMessages, succeeded);
      var found := FoundAll(activeScanMessages, unprocessed);
      FoundAllFacts(activeScanMessages, unprocessed);
      var todo := order(found);
      SameMembers(found, todo);
      ghost var all := activeScanMessages;
      NothingGone(all);
      DeleteAll(todo, all, succeeded);
      WhatIsLeft(all, todo, activeScanMessages);
      Rebalance(pulled, all, todo, activeScanMessages, old(deleted), failed, rejected);
      AddedCome(old(deleted), todo);
    }

    method DeleteAll(todo: seq<ScanMessage>, ghost all: seq<ScanMessage>, ghost succeeded: seq<string>)
      requires queue.Valid() && LeftOver(all, [], activeScanMessages) && Distinct(todo)
      requires forall m :: m in todo ==> m in all && m.message in queue.state.handedOut
      requires forall m :: m in todo ==> m.message.messageId in succeeded
      modifies this`activeScanMessages, this`deleted, queue
      ensures queue.Valid() && queue.state.handedOut == old(queue.state.handedOut) && old(queue.events) <= queue.events
      ensures AllGone(queue.state, todo) && OthersStay(old(queue.state), queue.state, succeeded)
      ensures LeftOver(all, todo, activeScanMessages) && deleted == old(deleted) + multiset(todo)
    {
      hide LeftOver, UniqueIds, AllGone, OthersStay;
      NoneGone(queue.state);
      for i := 0 to |todo|
        invariant queue.Valid() && queue.state.handedOut == old(queue.state.handedOut) && old(queue.events) <= queue.events
        invariant AllGone(queue.state, todo[..i]) && OthersStay(old(queue.state), queue.state, succeeded)
        invariant LeftOver(all, todo[..i], activeScanMessages)
        invariant deleted == old(deleted) + multiset(todo[..i])
      {
        assert todo[..i + 1] == todo[..i] + [todo[i]] && todo[i] in todo && todo[i] !in todo[..i];
        ghost var before := queue.state;
        DeleteOne(todo[i], all, todo[..i], succeeded);
        TheyStillStay(old(queue.state), before, queue.state, succeeded);
      }
      assert todo[..|todo|] == todo;
    }

    method DeleteOne(
      m: ScanMessage, ghost all: seq<ScanMessage>, ghost done: seq<ScanMessage>, ghost succeeded: seq<string>)
      requires queue.Valid() && LeftOver(all, done, activeScanMessages) && AllGone(queue.state, done)
      requires m in all && m !in done && m.message in queue.state.handedOut && m.message.messageId in succeeded
      modifies this`activeScanMessages, this`deleted, queue
      ensures queue.Valid() && queue.state.handedOut == old(queue.state.handedOut) && old(queue.events) <= queue.events
      ensures LeftOver(all, done + [m], activeScanMessages) && AllGone(queue.state, done + [m])
      ensures deleted == old(deleted) + multiset{m} && OthersStay(old(queue.state), queue.state, succeeded)
    {
      hide LeftOver, AllGone, OthersStay, StorageQueues.Apply, Splice, IndexOf, Find;
      TakeOut(all, done, activeScanMessages, m);
      OneMoreGone(queue.state, done, m);
      OnlyThisGoes(queue.state, m.message, succeeded);
      queue.DeleteMessage(m.message);
      activeScanMessages := Splice(activeScanMessages, IndexOf(activeScanMessages, m));
      deleted := deleted + multiset{m};
    }

    /** Splices out the messages of failed tasks, one after the other. */
    method HandleFailedTasksImpl(report: Reports)
      requires Valid() && ReportsProperly(report)
      modifies this`activeScanMessages, this`failed
      ensures Valid()
      ensures forall m :: m in activeScanMessages <==> m in old(activeScanMessages) && m.messageId !in report(tasks).1
      ensures old(failed) <= failed && forall m :: m in failed - old(failed) ==> m.messageId in report(tasks).1
    {
      hide Distinct, LeftOver, UniqueIds, IdsOf, ToScans;
      ActiveUnique();
      var failedTasks := report(tasks).1;
      SubsetDistinct(tasks, failedTasks);
      var unprocessed := Unprocessed(activeScanMessages, failedTasks);
      UnprocessedFacts(activeScanMessages, failedTasks);
      ghost var found := FoundAll(activeScanMessages, unprocessed);
      FoundAllFacts(activeScanMessages, unprocessed);
      ghost var all := activeScanMessages;
      NothingGone(all);
      SpliceFailed(unprocessed, all);
      WhatIsLeft(all, found, activeScanMessages);
      Rebalance(pulled, all, found, activeScanMessages, deleted, old(failed), rejected);
      AddedCome(old(failed), found);
    }

    method SpliceFailed(unprocessed: seq<string>, ghost all: seq<ScanMessage>)
      requires UniqueIds(all) && LeftOver(all, [], activeScanMessages) && Distinct(unprocessed)
      requires forall id :: id in unprocessed ==> Find(all, id).Some?
      modifies this`activeScanMessages, this`failed
      ensures LeftOver(all, FoundAll(all, unprocessed), activeScanMessages)
      ensures failed == old(failed) + multiset(FoundAll(all, unprocessed))
    {
      hide LeftOver, FoundAll;
      assert FoundAll(all, []) == [] by { NoneFound(all); }
      for i := 0 to |unprocessed|
        invariant LeftOver(all, FoundAll(all, unprocessed[..i]), activeScanMessages)
        invariant failed == old(failed) + multiset(FoundAll(all, unprocessed[..i]))
      {
        var id := unprocessed[i];
        ghost var gone := FoundAll(all, unprocessed[..i]);
        assert unprocessed[..i + 1] == unprocessed[..i] + [id] && id !in unprocessed[..i];
        FoundAllSnoc(all, unprocessed[..i], id);
        FoundAllMembers(all, unprocessed[..i]);
        FindFacts(all, id);
        ghost var m := Find(all, id).value;
        TakeOut(all, gone, activeScanMessages, m);
        var message := Find(activeScanMessages, id);
        activeScanMessages := Splice(activeScanMessages, IndexOf(activeScanMessages, message.value));
        failed := failed + multiset{m};
        assert FoundAll(all, unprocessed[..i + 1]) == gone + [m];
      }
      assert unprocessed[..|unprocessed|] == unprocessed;
    }

    /** The whole run: whatever the load, the service and the other clients of the queue do, every message pulled is active,
        deleted after success, handled as failed, or rejected, and no two active messages share an id. When it ends without
        an error and the service lists every task, nothing is left active. */
    method Run(turns: seq<Turn>, later: seq<StorageQueues.Event>, lastReport: Reports, lastOrder: Completion)
      returns (r: Outcome, ghost records: seq<TurnRecord>)
      requires Valid()
      requires (forall t :: t in turns ==> WorldBehaves(t)) && ReportsProperly(lastReport) && Permutes(lastOrder)
      modifies this, queue, poolLoadGenerator
      ensures Valid() && Accounted() && UniqueIds(activeScanMessages)
      ensures pulled == multiset(activeScanMessages) + deleted + failed + rejected
      ensures r.Throws? ==> exists m :: m in activeScanMessages && |m.messageId| > 58
      ensures r.Ends? ==> HaveTasks(activeScanMessages, tasks)
      ensures r.Ends? && AllDone(lastReport, tasks) ==> activeScanMessages == []
      ensures Recorded(queue.deliver, poolLoadGenerator.configRatio, old(poolLoadGenerator.State()), turns, records,
                       queue.events, |old(queue.events)|)
      ensures pulled == PulledIn(records)
      ensures forall k :: 0 <= k < |records| - 1 ==> !EndsRun(turns[k], records[k])
      ensures r.Ends? && |records| < |turns| ==> |records| > 0 && EndsRun(turns[|records| - 1], records[|records| - 1])
      ensures r.Ends? ==> tasks == old(tasks) + AddedIn(turns, records)
    {
      hide UniqueIds, Valid, Accounted, HaveTasks, WorldBehaves, ReportsProperly, Permutes, AllDone, EndsRun, Snapshot,
        TasksTried, TasksLookedAt, IdsOfScans, TakenOf, PullsAsAsked, Recorded, PulledIn, AddedIn, LoadAfter, Passed;
      records := [];
      Reset();
      NoTurns(queue.deliver, poolLoadGenerator.configRatio, poolLoadGenerator.State(), turns, queue.events);
      r := Continues;
      ghost var config, load, start := poolLoadGenerator.configRatio, poolLoadGenerator.State(), |queue.events|;
      for i := 0 to |turns|
        invariant Valid() && Accounted() && r.Continues? && HaveTasks(activeScanMessages, tasks)
        invariant |records| == i && old(queue.events) <= queue.events
        invariant Recorded(queue.deliver, config, load, turns, records, queue.events, start)
        invariant poolLoadGenerator.State() == LoadNow(config, load, turns, records)
        invariant pulled == PulledIn(records) && tasks == old(tasks) + AddedIn(turns, records)
        invariant forall k :: 0 <= k < |records| ==> !EndsRun(turns[k], records[k])
      {
        assert turns[i] in turns;
        ghost var record;
        ghost var earlier := queue.events;
        r, record := TakeTurn(turns[i]);
        OneMoreTurn(queue.deliver, config, load, turns, records, record, earlier, queue.events, start);
        records := records + [record];
        if r.Throws? {
          ActiveUnique();
          return;
        }
        if r.Ends? { break; }
      }
      ghost var earlier := queue.events;
      Finish(later, lastReport, lastOrder);
      RecordedStill(queue.deliver, config, load, turns, records, earlier, queue.events, start);
      r := Ends;
    }

    /** What follows the loop, once the child tasks are over. */
    method Finish(later: seq<StorageQueues.Event>, lastReport: Reports, lastOrder: Completion)
      requires Valid() && Accounted() && ReportsProperly(lastReport) && Permutes(lastOrder)
      requires HaveTasks(activeScanMessages, tasks)
      modifies this`activeScanMessages, this`deleted, this`failed, this`elsewhere, queue
      ensures Valid() && Accounted() && UniqueIds(activeScanMessages) && old(queue.events) <= queue.events
      ensures pulled == multiset(activeScanMessages) + deleted + failed + rejected
      ensures HaveTasks(activeScanMessages, tasks) && (AllDone(lastReport, tasks) ==> activeScanMessages == [])
    {
      hide UniqueIds, Valid, Accounted, HaveTasks, ReportsProperly, Permutes, AllDone;
      LetOthersAct(later);
      ValidateTasks(lastReport, lastOrder);
      ActiveUnique();
      NoneActive(activeScanMessages, tasks, lastReport);
    }

    method Reset()
      requires Valid()
      modifies this
      ensures Valid() && Accounted() && HaveTasks(activeScanMessages, tasks)
      ensures activeScanMessages == [] && pulled == multiset{} && tasks == old(tasks)
    {
      hide IdsOf, Distinct, ToScans;
      activeScanMessages := [];
      pulled, deleted, failed, rejected := multiset{}, multiset{}, multiset{}, multiset{};
      elsewhere := multiset(ToScans(scanIdOf, queue.state.handedOut));
    }

    /** One turn: pulls what the load controller asks for, creates the tasks, ends the run or looks at the tasks. */
    method TakeTurn(t: Turn) returns (r: Outcome, ghost record: TurnRecord)
      requires Valid() && Accounted() && WorldBehaves(t) && HaveTasks(activeScanMessages, tasks)
      modifies this, queue, poolLoadGenerator
      ensures Valid() && Accounted() && old(queue.events) <= queue.events
      ensures r.Throws? <==> exists m :: m in record.got && |m.messageId| > 58
      ensures if r.Throws? then activeScanMessages == old(activeScanMessages) + record.got
              else HaveTasks(activeScanMessages, tasks)
      ensures pulled == old(pulled) + multiset(record.got) && record.load == old(poolLoadGenerator.State())
      ensures PullsAsAsked(queue.deliver, poolLoadGenerator.configRatio, t, record, queue.events, |old(queue.events)|)
      ensures !r.Throws? ==>
        && tasks == old(tasks) + IdsOfScans(TakenOf(t.random, t.answer, record.got))
        && |tasks| == |old(tasks)| + record.added
        && poolLoadGenerator.State() == LoadAfter(record, t, poolLoadGenerator.configRatio)
      ensures r.Ends? <==> !r.Throws? && EndsRun(t, record)
      ensures r.Ends? ==> TasksTried(t, record.got, old(activeScanMessages), activeScanMessages)
      ensures r.Continues? ==> TasksLookedAt(t, record.got, old(activeScanMessages), tasks, activeScanMessages)
      ensures (forall k :: Quiet(t, k)) ==> elsewhere == old(elsewhere)
    {
      hide Valid, Accounted, HexOfSize, ReportsProperly, Permutes, IdsOf, Distinct, HaveTasks, ToScans, Snapshot,
        Taken, TakenOf, IdsOfScans, GoneOrStale, PullsAsAsked, TasksTried, TasksLookedAt;
      ghost var active, start := activeScanMessages, |queue.events|;
      assert (forall k :: Quiet(t, k)) ==> t.later == [] by { QuietParts(t); }
      var messages;
      messages, record := PullInTurn(t);
      ghost var pulledBy := queue.events;
      NothingTried(t, active);
      if messages == [] && t.pendingTasks == 0 {
        NoneTaken(t.random, t.answer);
        return Ends, record;
      }
      if messages != [] {
        ghost var before := tasks;
        r := CreateTasks(messages, t);
        PulledAlike(queue.deliver, poolLoadGenerator.configRatio, t, record, queue.events, start);
        record := record.(added := if |tasks| >= |before| then |tasks| - |before| else 0);
        if r.Throws? { return; }
      } else {
        NoneTaken(t.random, t.answer);
      }
      if t.timeIsUp { return Ends, record; }
      ghost var tried := activeScanMessages;
      LetOthersAct(t.later);
      ValidateTasks(t.report, t.order);
      TriedThenLookedAt(t, messages, active, tried, tasks, activeScanMessages);
      PullsStill(queue.deliver, poolLoadGenerator.configRatio, t, record, pulledBy, queue.events, start, start);
      r := Continues;
    }

    method PullInTurn(t: Turn) returns (messages: seq<ScanMessage>, ghost record: TurnRecord)
      requires Valid() && Accounted()
      modifies queue, poolLoadGenerator, this`elsewhere
      ensures Valid() && Distinct(messages) && (messages == [] ==> Accounted())
      ensures pulled + multiset(messages) + elsewhere == multiset(ToScans(scanIdOf, queue.state.handedOut))
      ensures forall m :: m in messages ==> m.messageId !in tasks
      ensures record.load == old(poolLoadGenerator.State()) && record.got == messages && record.added == 0
      ensures poolLoadGenerator.State() == Snapshot(record.load, t.metrics, poolLoadGenerator.configRatio)
      ensures old(queue.events) <= queue.events
      ensures PullsAsAsked(queue.deliver, poolLoadGenerator.configRatio, t, record, queue.events, |old(queue.events)|)
      ensures (forall k :: Quiet(t, k)) ==> elsewhere == old(elsewhere)
    {
      hide Valid, Distinct, ToScans, Snapshot, AsAsked, Passed, Idle;
      ghost var load, start := poolLoadGenerator.State(), |queue.events|;
      assert (forall k :: Quiet(t, k)) ==> t.before == [] && Idle(t.between) by { QuietParts(t); }
      LetOthersAct(t.before);
      ghost var middle, last := |queue.events|, None;
      messages, last := Pull(t.metrics, t.between);
      if last.Some? { StillPassed(queue.events, queue.events, middle, start, last.value); }
      record := TurnRecord(load, messages, 0, last);
    }

    method LetOthersAct(others: seq<StorageQueues.Event>)
      requires Valid() && Accounted()
      modifies queue, this`elsewhere
      ensures Valid() && Accounted() && old(queue.events) <= queue.events
      ensures others == [] ==> elsewhere == old(elsewhere)
    {
      hide IdsOf, Distinct, ToScans;
      ghost var before := queue.state.handedOut;
      queue.Happen(others);
      MoreHandedOut(scanIdOf, before, queue.state.handedOut, tasks);
      elsewhere := multiset(ToScans(scanIdOf, queue.state.handedOut)) - pulled;
    }

    /** The pulled messages, not yet active, are new to the manager and to the service. */
    method Pull(metrics: PoolMetrics, between: nat -> seq<StorageQueues.Event>)
      returns (messages: seq<ScanMessage>, ghost last: Option<QueueState>)
      requires Valid() && Accounted()
      modifies queue, poolLoadGenerator, this`elsewhere
      ensures Valid() && Distinct(messages) && (messages == [] ==> Accounted())
      ensures pulled + multiset(messages) + elsewhere == multiset(ToScans(scanIdOf, queue.state.handedOut))
      ensures forall m :: m in messages ==> m.messageId !in tasks
      ensures poolLoadGenerator.State() == Snapshot(old(poolLoadGenerator.State()), metrics, poolLoadGenerator.configRatio)
      ensures poolLoadGenerator.lastTasksIncrementCount.Some?
      ensures AsAsked(queue.deliver, poolLoadGenerator.lastTasksIncrementCount.value, |messages|, last)
      ensures old(queue.events) <= queue.events
      ensures last.Some? ==> Passed(queue.events, |old(queue.events)|, last.value)
      ensures Idle(between) ==> elsewhere == old(elsewhere)
    {
      hide IdsOf, Distinct, ToScans, Snapshot, AsAsked, Passed, Idle;
      ghost var before := queue.state.handedOut;
      ghost var got, others;
      messages, last, got, others := GetMessagesForTaskCreation(metrics, between);
      MoreHandedOut(scanIdOf, before, queue.state.handedOut, tasks);
      NewMessages(scanIdOf, before, got + others, tasks);
      OwnAndOthers(scanIdOf, before, got, others, queue.state.handedOut);
      assert others == [] ==> ToScans(scanIdOf, others) == [] by { NoScans(scanIdOf); }
      elsewhere := elsewhere + multiset(ToScans(scanIdOf, others));
    }

    method CreateTasks(messages: seq<ScanMessage>, t: Turn) returns (r: Outcome)
      requires Valid() && HexOfSize(t.random) && HaveTasks(activeScanMessages, tasks) && Distinct(messages)
      requires pulled + multiset(messages) + elsewhere == multiset(ToScans(scanIdOf, queue.state.handedOut))
      requires forall m :: m in messages ==> m.messageId !in tasks
      modifies this`activeScanMessages, this`pulled, this`rejected, this`tasks, poolLoadGenerator
      ensures Valid() && Accounted() && !r.Ends? && pulled == old(pulled) + multiset(messages)
      ensures r.Continues? ==> TasksTried(t, messages, old(activeScanMessages), activeScanMessages)
      ensures r.Continues? ==>
        && tasks == old(tasks) + IdsOfScans(TakenOf(t.random, t.answer, messages)) && |tasks| >= |old(tasks)|
        && poolLoadGenerator.State() == old(poolLoadGenerator.State()).(last := Some((|tasks| - |old(tasks)|) as real))
      ensures r.Throws? ==> poolLoadGenerator.State() == old(poolLoadGenerator.State())
      ensures r.Throws? <==> exists m :: m in messages && |m.messageId| > 58
      ensures if r.Throws? then activeScanMessages == old(activeScanMessages) + messages
              else HaveTasks(activeScanMessages, tasks)
    {
      hide Valid, Accounted, HexOfSize, IdsOf, Distinct, HaveTasks, ToScans, Taken, TakenOf, IdsOfScans;
      ghost var before, tasksBefore := activeScanMessages, tasks;
      Push(messages);
      var added := AddTasksToJob(messages, t.random, t.answer);
      if added.Failure? {
        return Throws;
      }
      TasksCover(before, messages, activeScanMessages, tasksBefore, t.random, t.answer);
      poolLoadGenerator.SetLastTasksIncrementCount(added.value as real);
      r := Continues;
    }

    method Push(messages: seq<ScanMessage>)
      requires Valid()
      requires pulled + multiset(messages) + elsewhere == multiset(ToScans(scanIdOf, queue.state.handedOut))
      modifies this`activeScanMessages, this`pulled
      ensures Valid() && Accounted()
      ensures activeScanMessages == old(activeScanMessages) + messages && pulled == old(pulled) + multiset(messages)
    {
      hide IdsOf, Distinct, ToScans;
      activeScanMessages := activeScanMessages + messages;
      pulled := pulled + multiset(messages);
    }

    method ValidateTasks(report: Reports, order: Completion)
      requires Valid() && ReportsProperly(report) && Permutes(order)
      modifies this`activeScanMessages, this`deleted, this`failed, queue
      ensures Valid() && (old(Accounted()) ==> Accounted()) && old(queue.events) <= queue.events
      ensures forall m :: m in activeScanMessages <==>
        m in old(activeScanMessages) && m.messageId !in report(tasks).0 && m.messageId !in report(tasks).1
      ensures old(deleted) <= deleted && forall m :: m in deleted - old(deleted) ==> m.messageId in report(tasks).0
      ensures old(failed) <= failed && forall m :: m in failed - old(failed) ==> m.messageId in report(tasks).1
      ensures forall m :: m in old(activeScanMessages) && m.messageId in report(tasks).0 ==> GoneOrStale(queue.state, m.message)
      ensures OthersStay(old(queue.state), queue.state, report(tasks).0)
      ensures HaveTasks(old(activeScanMessages), tasks) ==> HaveTasks(activeScanMessages, tasks)
    {
      hide Valid, ReportsProperly, Permutes, OthersStay;
      DeleteScanQueueMessagesForSucceededTasks(report, order);
      HandleFailedTasksImpl(report);
    }
  }

  lemma QuietParts(t: Turn)
    ensures (forall k :: Quiet(t, k)) ==> t.before == [] && t.later == [] && Idle(t.between)
  {
    if forall k :: Quiet(t, k) {
      assert Quiet(t, 0);
      forall k ensures t.between(k) == [] {
        assert Quiet(t, k);
      }
    }
  }

  // ----- the turns of a run -----

  ghost function LoadNow(configRatio: real, first: LoadState, turns: seq<Turn>, records: seq<TurnRecord>): LoadState
    requires |records| <= |turns|
  {
    if records == [] then first else LoadAfter(records[|records| - 1], turns[|records| - 1], configRatio)
  }

  /** Every turn found the controller as the one before left it, and pulled as it asked. */
  ghost predicate Recorded(
    deliver: Delivery, configRatio: real, first: LoadState, turns: seq<Turn>, records: seq<TurnRecord>,
    events: seq<StorageQueues.Event>, start: nat)
  {
    && |records| <= |turns|
    && (forall k :: 0 <= k < |records| ==> records[k].load == LoadNow(configRatio, first, turns, records[..k]))
    && (forall k :: 0 <= k < |records| ==> PullsAsAsked(deliver, configRatio, turns[k], records[k], events, start))
  }

  ghost function PulledIn(records: seq<TurnRecord>): multiset<ScanMessage> {
    if records == [] then multiset{} else PulledIn(records[..|records| - 1]) + multiset(records[|records| - 1].got)
  }

  /** The tasks the service took, turn by turn. */
  ghost function AddedIn(turns: seq<Turn>, records: seq<TurnRecord>): seq<string>
    requires |records| <= |turns|
  {
    if records == [] then []
    else
      var k := |records| - 1;
      AddedIn(turns, records[..k]) + IdsOfScans(TakenOf(turns[k].random, turns[k].answer, records[k].got))
  }

  lemma NoTurns(deliver: Delivery, configRatio: real, first: LoadState, turns: seq<Turn>, events: seq<StorageQueues.Event>)
    ensures Recorded(deliver, configRatio, first, turns, [], events, |events|)
    ensures LoadNow(configRatio, first, turns, []) == first && PulledIn([]) == multiset{} && AddedIn(turns, []) == []
  {}

  lemma PullsStill(
    deliver: Delivery, configRatio: real, t: Turn, record: TurnRecord, events: seq<StorageQueues.Event>,
    more: seq<StorageQueues.Event>, start: nat, earlier: nat)
    requires PullsAsAsked(deliver, configRatio, t, record, events, start) && events <= more && earlier <= start
    ensures PullsAsAsked(deliver, configRatio, t, record, more, earlier)
  {
    hide Passed, AsAsked, Snapshot;
    if record.last.Some? { StillPassed(events, more, start, earlier, record.last.value); }
  }

  lemma PulledAlike(
    deliver: Delivery, configRatio: real, t: Turn, record: TurnRecord, events: seq<StorageQueues.Event>, start: nat)
    ensures forall added :: PullsAsAsked(deliver, configRatio, t, record.(added := added), events, start)
                        <==> PullsAsAsked(deliver, configRatio, t, record, events, start)
  {
    hide Passed, AsAsked, Snapshot;
  }

  lemma RecordedStill(
    deliver: Delivery, configRatio: real, first: LoadState, turns: seq<Turn>, records: seq<TurnRecord>,
    events: seq<StorageQueues.Event>, more: seq<StorageQueues.Event>, start: nat)
    requires Recorded(deliver, configRatio, first, turns, records, events, start) && events <= more
    ensures Recorded(deliver, configRatio, first, turns, records, more, start)
  {
    hide PullsAsAsked;
    forall k | 0 <= k < |records| ensures PullsAsAsked(deliver, configRatio, turns[k], records[k], more, start) {
      PullsStill(deliver, configRatio, turns[k], records[k], events, more, start, start);
    }
  }

  lemma OneMoreTurn(
    deliver: Delivery, configRatio: real, first: LoadState, turns: seq<Turn>, records: seq<TurnRecord>, record: TurnRecord,
    events: seq<StorageQueues.Event>, more: seq<StorageQueues.Event>, start: nat)
    requires Recorded(deliver, configRatio, first, turns, records, events, start)
    requires |records| < |turns| && start <= |events| && events <= more
    requires record.load == LoadNow(configRatio, first, turns, records)
    requires PullsAsAsked(deliver, configRatio, turns[|records|], record, more, |events|)
    ensures Recorded(deliver, configRatio, first, turns, records + [record], more, start)
    ensures LoadNow(configRatio, first, turns, records + [record]) == LoadAfter(record, turns[|records|], configRatio)
    ensures PulledIn(records + [record]) == PulledIn(records) + multiset(record.got)
    ensures AddedIn(turns, records + [record])
         == AddedIn(turns, records) + IdsOfScans(TakenOf(turns[|records|].random, turns[|records|].answer, record.got))
  {
    hide PullsAsAsked, LoadAfter, IdsOfScans, TakenOf;
    var all := records + [record];
    assert all[..|records|] == records;
    RecordedStill(deliver, configRatio, first, turns, records, events, more, start);
    PullsStill(deliver, configRatio, turns[|records|], record, more, more, |events|, start);
    forall k | 0 <= k < |all| ensures all[k].load == LoadNow(configRatio, first, turns, all[..k]) {
      if k < |records| { assert all[..k] == records[..k]; }
    }
  }

  ghost predicate AllGone(s: QueueState, messages: seq<ScanMessage>) {
    forall m :: m in messages ==> GoneOrStale(s, m.message)
  }

  lemma NoneGone(s: QueueState)
    ensures AllGone(s, []) && forall ids :: OthersStay(s, s, ids)
  {}

  /** Only messages with these ids have left the queue, and the others are as they were. */
  ghost predicate OthersStay(before: QueueState, after: QueueState, ids: seq<string>) {
    forall id :: id !in ids ==>
      (id in after.origin <==> id in before.origin) && (id in before.origin ==> after.origin[id] == before.origin[id])
  }

  lemma TheyStillStay(before: QueueState, middle: QueueState, after: QueueState, ids: seq<string>)
    requires OthersStay(before, middle, ids) && OthersStay(middle, after, ids)
    ensures OthersStay(before, after, ids)
  {}

  lemma OnlyThisGoes(s: QueueState, message: Message, ids: seq<string>)
    requires message in s.handedOut && message.messageId in ids
    ensures OthersStay(s, StorageQueues.Apply(s, DeleteSucceeded(message)), ids)
  {}

  lemma OneMoreGone(s: QueueState, gone: seq<ScanMessage>, m: ScanMessage)
    requires AllGone(s, gone) && m.message in s.handedOut
    ensures AllGone(StorageQueues.Apply(s, DeleteSucceeded(m.message)), gone + [m])
  {
    forall other | other in gone + [m] ensures GoneOrStale(StorageQueues.Apply(s, DeleteSucceeded(m.message)), other.message) {
      DeletionsStay(s, m.message, other.message);
    }
  }

  lemma NoneActive(active: seq<ScanMessage>, tasks: seq<string>, report: Reports)
    requires HaveTasks(active, tasks)
    requires forall m :: m in active ==> m.messageId !in report(tasks).0 && m.messageId !in report(tasks).1
    ensures AllDone(report, tasks) ==> active == []
  {
    if active != [] { assert active[0] in active; }
  }

  lemma MoreHandedOut(scanIdOf: string -> string, before: seq<Message>, after: seq<Message>, tasks: seq<string>)
    requires before <= after && forall c :: c in tasks ==> c in IdsOf(before)
    ensures multiset(ToScans(scanIdOf, before)) <= multiset(ToScans(scanIdOf, after))
    ensures forall c :: c in tasks ==> c in IdsOf(after)
  {
    var rest := after[|before|..];
    assert after == before + rest;
    ToScansAppend(scanIdOf, before, rest);
    assert IdsOf(after) == IdsOf(before) + IdsOf(rest);
  }

  lemma NewMessages(
    scanIdOf: string -> string, before: seq<Message>, now: seq<Message>, tasks: seq<string>)
    requires Distinct(IdsOf(before + now)) && forall c :: c in tasks ==> c in IdsOf(before)
    ensures multiset(ToScans(scanIdOf, before + now)) == multiset(ToScans(scanIdOf, before)) + multiset(ToScans(scanIdOf, now))
    ensures Distinct(ToScans(scanIdOf, now))
    ensures forall m :: m in ToScans(scanIdOf, now) ==> m.messageId !in tasks
  {
    ToScansAppend(scanIdOf, before, now);
    SuffixDistinct(before, now);
    assert IdsOf(before + now) == IdsOf(before) + IdsOf(now);
    var messages := ToScans(scanIdOf, now);
    forall i, j | 0 <= i < j < |messages| ensures messages[i] != messages[j] {
      assert IdsOf(now)[i] != IdsOf(now)[j];
    }
    forall m | m in messages ensures m.messageId !in tasks {
      var j :| 0 <= j < |messages| && messages[j] == m;
      forall i | 0 <= i < |before| ensures IdsOf(before)[i] != m.messageId {
        assert IdsOf(before + now)[i] == IdsOf(before)[i] && IdsOf(before + now)[|before| + j] == m.messageId;
      }
    }
  }

  lemma NoScans(scanIdOf: string -> string)
    ensures ToScans(scanIdOf, []) == []
  {}

  lemma OwnAndOthers(
    scanIdOf: string -> string, before: seq<Message>, got: seq<Message>, others: seq<Message>, handedOut: seq<Message>)
    requires multiset(handedOut) == multiset(before + (got + others)) && Distinct(ToScans(scanIdOf, got + others))
    ensures ToScans(scanIdOf, got + others) == ToScans(scanIdOf, got) + ToScans(scanIdOf, others)
    ensures Distinct(ToScans(scanIdOf, got))
    ensures multiset(ToScans(scanIdOf, handedOut)) == multiset(ToScans(scanIdOf, before + (got + others)))
  {
    ToScansAppend(scanIdOf, got, others);
    MapPermutes((m: Message) => ToScan(scanIdOf, m), handedOut, before + (got + others));
    var all, own := ToScans(scanIdOf, got + others), ToScans(scanIdOf, got);
    assert forall i :: 0 <= i < |own| ==> own[i] == all[i];
  }

  lemma TasksCover(
    before: seq<ScanMessage>, messages: seq<ScanMessage>, after: seq<ScanMessage>, tasks: seq<string>,
    random: RandomHex, answer: AddResult)
    requires HaveTasks(before, tasks)
    requires forall m :: m in after ==> m in before + messages && (m in messages ==> Taken(random, answer, m))
    ensures HaveTasks(after, tasks + IdsOfScans(TakenOf(random, answer, messages)))
  {
    forall m | m in after ensures m.messageId in tasks + IdsOfScans(TakenOf(random, answer, messages)) {
      if m in messages { TakenHasId(random, answer, messages, m); }
    }
  }

  lemma {:induction false} TakenHasId(random: RandomHex, answer: AddResult, messages: seq<ScanMessage>, m: ScanMessage)
    requires m in messages && Taken(random, answer, m)
    ensures m.messageId in IdsOfScans(TakenOf(random, answer, messages))
  {
    hide Taken, TakenOf, IdsOfScans;
    var init, last := messages[..|messages| - 1], messages[|messages| - 1];
    assert messages == init + [last];
    TakenSnoc(random, answer, init, last);
    if m in init { TakenHasId(random, answer, init, m); }
  }

  function IdsOfScans(messages: seq<ScanMessage>): seq<string> { Map((m: ScanMessage) => m.messageId, messages) }

  function ToTaskMessages(messages: seq<ScanMessage>): seq<TaskMessage> {
    Map((m: ScanMessage) => TaskMessage(m.messageId, m.message.messageText), messages)
  }

  lemma TaskMessagesAlike(active: seq<ScanMessage>, messages: seq<ScanMessage>, taskMessages: seq<TaskMessage>)
    requires UniqueIds(active) && Distinct(messages) && forall m :: m in messages ==> m in active
    requires taskMessages == ToTaskMessages(messages)
    ensures DistinctMessages(taskMessages)
    ensures AllFit(taskMessages) <==> forall m :: m in messages ==> |m.messageId| <= 58
  {
    forall i, j | 0 <= i < j < |messages| ensures messages[i].messageId != messages[j].messageId {
      assert messages[i] in messages && messages[j] in messages;
    }
    FitsAlike(messages, taskMessages);
  }

  lemma ConcatDistinct<T>(a: seq<T>, b: seq<T>)
    requires Distinct(a) && Distinct(b) && forall x :: x in a ==> x !in b
    ensures Distinct(a + b)
  {
    forall i, j | 0 <= i < j < |a + b| ensures (a + b)[i] != (a + b)[j] {
      if i < |a| <= j {
        assert a[i] in a && b[j - |a|] in b;
      }
    }
  }

  lemma IdsOfScansSnoc(messages: seq<ScanMessage>, m: ScanMessage)
    ensures IdsOfScans(messages + [m]) == IdsOfScans(messages) + [m.messageId]
  {}

  lemma {:induction false} TakenIds(random: RandomHex, answer: AddResult, messages: seq<ScanMessage>)
    requires Distinct(IdsOfScans(messages))
    ensures Distinct(IdsOfScans(TakenOf(random, answer, messages)))
    ensures forall c :: c in IdsOfScans(TakenOf(random, answer, messages)) ==> c in IdsOfScans(messages)
  {
    if messages != [] {
      hide Taken, TakenOf, IdsOfScans;
      var init, last := messages[..|messages| - 1], messages[|messages| - 1];
      assert messages == init + [last];
      IdsOfScansSnoc(init, last);
      assert Distinct(IdsOfScans(init)) && last.messageId !in IdsOfScans(init);
      TakenIds(random, answer, init);
      TakenSnoc(random, answer, init, last);
    }
  }

  /** The correlation ids of new tasks are those of new messages. */
  lemma AddedAreNew(
    active: seq<ScanMessage>, messages: seq<ScanMessage>, added: seq<string>, tasks: seq<string>, handedOut: seq<Message>,
    random: RandomHex, answer: AddResult)
    requires UniqueIds(active) && Distinct(messages) && forall m :: m in messages ==> m in active
    requires forall m :: m in messages ==> m.messageId !in tasks && m.messageId in IdsOf(handedOut)
    requires added == IdsOfScans(TakenOf(random, answer, messages)) && Distinct(tasks)
    ensures Distinct(tasks + added)
    ensures forall c :: c in tasks + added ==> c in tasks || c in IdsOf(handedOut)
  {
    forall i, j | 0 <= i < j < |messages| ensures messages[i].messageId != messages[j].messageId {
      assert messages[i] in messages && messages[j] in messages;
    }
    forall c | c in IdsOfScans(messages) ensures c !in tasks && c in IdsOf(handedOut) {
      var k :| 0 <= k < |messages| && messages[k].messageId == c;
      assert messages[k] in messages;
    }
    TakenIds(random, answer, messages);
    ConcatDistinct(tasks, added);
  }

  lemma AddedCome(before: multiset<ScanMessage>, added: seq<ScanMessage>)
    ensures before <= before + multiset(added)
    ensures forall m :: m in before + multiset(added) - before ==> m in added
  {}

  lemma Rebalance(
    pulled: multiset<ScanMessage>, all: seq<ScanMessage>, gone: seq<ScanMessage>, left: seq<ScanMessage>,
    d: multiset<ScanMessage>, f: multiset<ScanMessage>, r: multiset<ScanMessage>)
    requires multiset(left) + multiset(gone) == multiset(all) && pulled == multiset(all) + d + f + r
    ensures pulled == multiset(left) + (d + multiset(gone)) + f + r
    ensures pulled == multiset(left) + d + (f + multiset(gone)) + r
    ensures pulled == multiset(left) + d + f + (r + multiset(gone))
  {}

  lemma TasksMatch(
    tasks: seq<JobTask>, messages: seq<ScanMessage>, random: RandomHex, answer: AddResult)
    requires TasksFor(tasks, ToTaskMessages(messages), random, answer)
    ensures |tasks| == |messages|
    ensures forall i :: 0 <= i < |tasks| ==>
      && tasks[i].correlationId == messages[i].messageId
      && (tasks[i].state == Queued <==> Taken(random, answer, messages[i]))
  {
    hide TaskId, GetTaskCorrelationId;
  }

  lemma FitsAlike(messages: seq<ScanMessage>, taskMessages: seq<TaskMessage>)
    requires |taskMessages| == |messages|
    requires forall i :: 0 <= i < |messages| ==> taskMessages[i].messageId == messages[i].messageId
    ensures AllFit(taskMessages) <==> forall m :: m in messages ==> |m.messageId| <= 58
  {
    if AllFit(taskMessages) {
      forall i | 0 <= i < |messages| ensures |messages[i].messageId| <= 58 {
        assert taskMessages[i] in taskMessages;
      }
    }
    if forall m :: m in messages ==> |m.messageId| <= 58 {
      forall i | 0 <= i < |messages| ensures |taskMessages[i].messageId| <= 58 {
        assert messages[i] in messages;
      }
    }
  }

  lemma IdsOfMembers(messages: seq<Message>)
    ensures forall m :: m in messages ==> m.messageId in IdsOf(messages)
  {
    forall m | m in messages ensures m.messageId in IdsOf(messages) {
      var k :| 0 <= k < |messages| && messages[k] == m;
      assert IdsOf(messages)[k] == m.messageId;
    }
  }

  lemma SameMembers(a: seq<ScanMessage>, b: seq<ScanMessage>)
    requires multiset(a) == multiset(b) && Distinct(a)
    ensures Distinct(b) && forall m :: m in a <==> m in b
  {
    DistinctCounts(a);
    DistinctCounts(b);
    assert forall m :: m in a <==> m in multiset(a);
    assert forall m :: m in b <==> m in multiset(b);
  }

  /** Of the listed tasks, those that belong to an active message. */
  function Unprocessed(active: seq<ScanMessage>, ids: seq<string>): seq<string> {
    Filter((id: string) => Find(active, id).Some?, ids)
  }

  lemma UnprocessedFacts(active: seq<ScanMessage>, ids: seq<string>)
    requires Distinct(ids)
    ensures Distinct(Unprocessed(active, ids))
    ensures forall id :: id in Unprocessed(active, ids) <==> id in ids && exists m :: m in active && m.messageId == id
    ensures forall id :: id in Unprocessed(active, ids) ==> Find(active, id).Some?
  {
    FilterKeepsDistinct((id: string) => Find(active, id).Some?, ids);
    FilterMembers((id: string) => Find(active, id).Some?, ids);
    forall id ensures Find(active, id).Some? <==> exists m :: m in active && m.messageId == id {
      FindFacts(active, id);
    }
  }
}
