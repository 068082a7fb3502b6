/** Batch tasks for queue messages: packages/azure-services/src/azure-batch/job-task.ts and batch.ts. */
module BatchTasks {
  import opened Common

  // ----- task ids -----

  const MAX_ID_LENGTH := 64

  function Prefix(correlationId: string): string { "task_" + correlationId + "_" }

  /** The number of random bytes of an id; negative when there is no room for the prefix. */
  function RandomSize(correlationId: string): int {
    Min((MAX_ID_LENGTH - |Prefix(correlationId)|) / 2, 10)
  }

  /** `crypto.randomBytes(size).toString('hex')`: what comes out for each task, of a size. */
  type RandomHex = (string, int) -> string

  ghost predicate HexOfSize(random: RandomHex) {
    forall c, n :: n >= 0 ==> |random(c, n)| == 2 * n && '_' !in random(c, n)
  }

  function TaskId(correlationId: string, random: RandomHex): string {
    Prefix(correlationId) + random(correlationId, RandomSize(correlationId))
  }

  /** The second segment of a task id, when there is one. */
  function GetTaskCorrelationId(taskId: string): Option<string> {
    var segments := Split(taskId, '_');
    if |segments| > 1 then Some(segments[1]) else None
  }

  /** There is room for an id exactly up to 58 characters of correlation id. Then it has at most 64, with twenty random digits,
      or as many as fit. */
  lemma TaskIdFits(correlationId: string, random: RandomHex)
    requires HexOfSize(random)
    ensures RandomSize(correlationId) >= 0 <==> |correlationId| <= 58
    ensures |correlationId| <= 58 ==>
      var length := |TaskId(correlationId, random)|;
      var digits := length - |"task_" + correlationId + "_"|;
      length <= 64 && (digits == 20 || (digits < 20 && length >= 63))
  {}

  /** A task id gives back the correlation id if and only if that has no underscore. */
  lemma TaskIdRoundTrip(correlationId: string, random: RandomHex)
    ensures GetTaskCorrelationId(TaskId(correlationId, random)) == Some(correlationId) <==> '_' !in correlationId
  {
    var hex := random(correlationId, RandomSize(correlationId));
    var rest := correlationId + "_" + hex;
    assert TaskId(correlationId, random) == "task" + "_" + rest;
    SplitPrefix("task", rest, '_');
    if '_' in correlationId {
      SplitPartsClean(rest, '_');
      assert Split(rest, '_')[0] in Split(rest, '_');
    } else {
      SplitPrefix(correlationId, hex, '_');
    }
  }

  /** The last underscore of a task id ends its prefix. */
  lemma LastUnderscore(correlationId: string, random: RandomHex)
    requires HexOfSize(random) && RandomSize(correlationId) >= 0
    ensures var id, last := TaskId(correlationId, random), |correlationId| + 5;
      && last < |id| && id[last] == '_' && (forall i :: last < i < |id| ==> id[i] != '_') && id[5..last] == correlationId
  {
    var hex := random(correlationId, RandomSize(correlationId));
    var id := TaskId(correlationId, random);
    assert forall i :: |correlationId| + 5 < i < |id| ==> id[i] == hex[i - (|correlationId| + 6)];
  }

  /** Whatever the random parts, only one correlation id can be behind a task id. */
  lemma TaskIdsDiffer(a: string, b: string, randomA: RandomHex, randomB: RandomHex)
    requires HexOfSize(randomA) && HexOfSize(randomB) && RandomSize(a) >= 0 && RandomSize(b) >= 0
    ensures TaskId(a, randomA) == TaskId(b, randomB) ==> a == b
  {
    hide TaskId, RandomSize;
    LastUnderscore(a, randomA);
    LastUnderscore(b, randomB);
    if TaskId(a, randomA) == TaskId(b, randomB) {
      assert |a| + 5 == |b| + 5;
    }
  }

  // ----- chunks -----

  method ChunkArray<T>(source: seq<T>, chunkSize: nat) returns (chunks: seq<seq<T>>)
    requires chunkSize > 0
    ensures Flatten(chunks) == source
    ensures forall chunk :: chunk in chunks ==> 0 < |chunk| <= chunkSize
    ensures forall i :: 0 <= i < |chunks| - 1 ==> |chunks[i]| == chunkSize
  {
    chunks := [];
    var index := 0;
    while index < |source|
      invariant Flatten(chunks) == source[..Min(index, |source|)]
      invariant forall chunk :: chunk in chunks ==> 0 < |chunk| <= chunkSize
      invariant forall i :: 0 <= i < |chunks| ==> |chunks[i]| == chunkSize || (i == |chunks| - 1 && index >= |source|)
    {
      var chunk := source[index..Min(index + chunkSize, |source|)];
      assert (chunks + [chunk])[..|chunks|] == chunks;
      assert source[..index] + chunk == source[..Min(index + chunkSize, |source|)];
      chunks := chunks + [chunk];
      index := index + chunkSize;
    }
    assert source[..|source|] == source;
  }

  // ----- creating tasks -----

  datatype JobTaskState = New | Queued | FailedToAdd

  class JobTask {
    const correlationId: string
    const id: string
    var state: JobTaskState
    var error: Option<string>

    constructor (correlationId: string, random: RandomHex)
      requires RandomSize(correlationId) >= 0
      ensures this.correlationId == correlationId && id == TaskId(correlationId, random)
      ensures state == New && error.None?
    {
      this.correlationId := correlationId;
      this.id := TaskId(correlationId, random);
      state, error := New, None;
    }

    /** `new JobTask(correlationId)`: throws exactly when the id leaves no room for a prefix. */
    static method Create(correlationId: string, random: RandomHex) returns (r: Result<JobTask, string>)
      ensures r.Success? <==> |correlationId| <= 58
      ensures r.Success? ==> fresh(r.value) && r.value.correlationId == correlationId
      ensures r.Success? ==> r.value.id == TaskId(correlationId, random)
      ensures r.Success? ==> r.value.state == New && r.value.error.None?
    {
      if RandomSize(correlationId) < 0 { return Failure(TOO_LONG); }
      var task := new JobTask(correlationId, random);
      r := Success(task);
    }
  }

  datatype TaskMessage = TaskMessage(messageId: string, messageText: string)

  /** What the service answers for a task: no error, or one. */
  type AddResult = string -> Option<string>

  const TOO_LONG := "The correlationId string value is too long."

  ghost predicate DistinctMessages(messages: seq<TaskMessage>) {
    forall i, j :: 0 <= i < j < |messages| ==> messages[i].messageId != messages[j].messageId
  }

  predicate AllFit(messages: seq<TaskMessage>) {
    forall m :: m in messages ==> |m.messageId| <= 58
  }

  ghost predicate TasksFor(tasks: seq<JobTask>, messages: seq<TaskMessage>, random: RandomHex, answer: AddResult)
    reads tasks
  {
    && |tasks| == |messages|
    && (forall i :: 0 <= i < |tasks| ==>
          && tasks[i].correlationId == messages[i].messageId && tasks[i].id == TaskId(messages[i].messageId, random)
          && ('_' !in messages[i].messageId ==> GetTaskCorrelationId(tasks[i].id) == Some(messages[i].messageId))
          && tasks[i].error == answer(tasks[i].id)
          && tasks[i].state == if answer(tasks[i].id).None? then Queued else FailedToAdd)
  }

  lemma FlattenParts(chunks: seq<seq<TaskMessage>>, i: nat, messages: seq<TaskMessage>)
    requires i < |chunks| && Flatten(chunks) == messages && DistinctMessages(messages)
    ensures Flatten(chunks[..i + 1]) == Flatten(chunks[..i]) + chunks[i]
    ensures DistinctMessages(chunks[i])
  {
    hide DistinctMessages, Flatten;
    FlattenStep(chunks, i);
    FlattenSplits(chunks, i + 1);
    var before := Flatten(chunks[..i]);
    PrefixSlice(before, chunks[i], messages);
    SliceGood(messages, |before|, |before| + |chunks[i]|);
  }

  lemma FlattenStep(chunks: seq<seq<TaskMessage>>, i: nat)
    requires i < |chunks|
    ensures Flatten(chunks[..i + 1]) == Flatten(chunks[..i]) + chunks[i]
  {
    assert chunks[..i + 1][..i] == chunks[..i];
  }

  lemma PrefixSlice(a: seq<TaskMessage>, b: seq<TaskMessage>, whole: seq<TaskMessage>)
    requires a + b <= whole
    ensures whole[|a|..|a| + |b|] == b
  {
    assert forall k :: 0 <= k < |b| ==> (a + b)[|a| + k] == b[k];
  }

  lemma SliceGood(messages: seq<TaskMessage>, lo: nat, hi: nat)
    requires DistinctMessages(messages) && lo <= hi <= |messages|
    ensures DistinctMessages(messages[lo..hi])
  {}

  lemma NoTasks(random: RandomHex, answer: AddResult)
    ensures TasksFor([], [], random, answer)
  {}

  lemma TasksForAppend(
    a: seq<JobTask>, ma: seq<TaskMessage>, b: seq<JobTask>, mb: seq<TaskMessage>, random: RandomHex, answer: AddResult)
    requires TasksFor(a, ma, random, answer) && TasksFor(b, mb, random, answer)
    ensures TasksFor(a + b, ma + mb, random, answer)
  {
    hide GetTaskCorrelationId, TaskId;
  }

  lemma {:induction false} FlattenSplits(chunks: seq<seq<TaskMessage>>, i: nat)
    requires i <= |chunks|
    ensures Flatten(chunks[..i]) <= Flatten(chunks)
  {
    if i == |chunks| {
      assert chunks[..i] == chunks;
    } else {
      FlattenSplits(chunks[..|chunks| - 1], i);
      assert chunks[..|chunks| - 1][..i] == chunks[..i];
    }
  }

  lemma NewTaskId(messages: seq<TaskMessage>, random: RandomHex, i: nat)
    requires DistinctMessages(messages) && HexOfSize(random) && i < |messages|
    requires forall k :: 0 <= k <= i ==> |messages[k].messageId| <= 58
    ensures RandomSize(messages[i].messageId) >= 0
    ensures '_' !in messages[i].messageId ==>
              GetTaskCorrelationId(TaskId(messages[i].messageId, random)) == Some(messages[i].messageId)
    ensures forall k :: 0 <= k < i ==> TaskId(messages[k].messageId, random) != TaskId(messages[i].messageId, random)
  {
    TaskIdFits(messages[i].messageId, random);
    TaskIdRoundTrip(messages[i].messageId, random);
    forall k | 0 <= k < i ensures TaskId(messages[k].messageId, random) != TaskId(messages[i].messageId, random) {
      TaskIdFits(messages[k].messageId, random);
      TaskIdsDiffer(messages[k].messageId, messages[i].messageId, random, random);
    }
  }

  class Batch {
    const maxTasks: nat := 100

    constructor () {}

    /** Exactly one task for each message, in chunks of at most 100; each is queued exactly when the service took it. One
        message id of more than 58 characters fails the whole call. */
    method CreateTasks(messages: seq<TaskMessage>, random: RandomHex, answer: AddResult) returns (r: Result<seq<JobTask>, string>)
      requires DistinctMessages(messages) && HexOfSize(random)
      ensures r.Success? <==> AllFit(messages)
      ensures r.Success? ==> (forall task :: task in r.value ==> fresh(task)) && TasksFor(r.value, messages, random, answer)
    {
      hide GetTaskCorrelationId, DistinctMessages, TasksFor, TaskId;
      var all: seq<JobTask> := [];
      var chunks := ChunkArray(messages, maxTasks);
      NoTasks(random, answer);
      for i := 0 to |chunks|
        invariant forall task :: task in all ==> fresh(task)
        invariant TasksFor(all, Flatten(chunks[..i]), random, answer)
        invariant AllFit(Flatten(chunks[..i]))
      {
        FlattenParts(chunks, i, messages);
        var tasks := AddTaskCollection(chunks[i], random, answer);
        if tasks.Failure? {
          FlattenSplits(chunks, i + 1);
          ghost var m: TaskMessage :| m in chunks[i] && |m.messageId| > 58;
          assert m in Flatten(chunks[..i + 1]);
          return Failure(TOO_LONG);
        }
        TasksForAppend(all, Flatten(chunks[..i]), tasks.value, chunks[i], random, answer);
        all := all + tasks.value;
      }
      assert chunks[..|chunks|] == chunks;
      r := Success(all);
    }

    method AddTaskCollection(messages: seq<TaskMessage>, random: RandomHex, answer: AddResult)
      returns (r: Result<seq<JobTask>, string>)
      requires DistinctMessages(messages) && HexOfSize(random)
      ensures r.Success? <==> AllFit(messages)
      ensures r.Success? ==> (forall task :: task in r.value ==> fresh(task)) && TasksFor(r.value, messages, random, answer)
    {
      hide GetTaskCorrelationId, TaskId, RandomSize, DistinctMessages, HexOfSize, AllFit;
      NoneTooLong();
      var jobTasks: map<string, JobTask> := map[];
      var ids: seq<string> := []; // the insertion order of the map
      for i := 0 to |messages|
        invariant AllFit(messages[..i])
        invariant NewTasks(jobTasks, ids, messages[..i], random)
        invariant forall key :: key in jobTasks ==> key in ids && fresh(jobTasks[key])
      {
        assert messages[..i + 1] == messages[..i] + [messages[i]];
        OneMoreFits(messages[..i], messages[i], messages);
        var created := JobTask.Create(messages[i].messageId, random);
        if created.Failure? {
          return Failure(created.error);
        }
        NewTaskId(messages, random, i);
        var jobTask := created.value;
        if jobTask.id !in jobTasks { ids := ids + [jobTask.id]; }
        jobTasks := jobTasks[jobTask.id := jobTask];
      }
      assert messages[..|messages|] == messages;
      var all := Submit(jobTasks, ids, messages, random, answer);
      r := Success(all);
    }

    /** Takes note of the answer for each new task. */
    method Submit(
      jobTasks: map<string, JobTask>, ids: seq<string>, messages: seq<TaskMessage>, random: RandomHex, answer: AddResult)
      returns (all: seq<JobTask>)
      requires NewTasks(jobTasks, ids, messages, random)
      requires DistinctMessages(messages) && HexOfSize(random) && AllFit(messages)
      modifies jobTasks.Values
      ensures forall task :: task in all ==> task in jobTasks.Values
      ensures TasksFor(all, messages, random, answer)
    {
      hide GetTaskCorrelationId, TaskId, RandomSize, DistinctMessages, HexOfSize, AllFit;
      all := [];
      for i := 0 to |ids|
        invariant |all| == i
        invariant forall k :: i <= k < |ids| ==> jobTasks[ids[k]].state == New && jobTasks[ids[k]].error.None?
        invariant forall k :: 0 <= k < i ==>
          && all[k] == jobTasks[ids[k]] && all[k].error == answer(all[k].id)
          && all[k].state == if answer(all[k].id).None? then Queued else FailedToAdd
      {
        var task := jobTasks[ids[i]];
        if answer(task.id).None? {
          task.state := Queued;
        } else {
          task.state, task.error := FailedToAdd, answer(task.id);
        }
        all := all + [task];
      }
      AllParse(messages, random);
    }
  }

  /** The map of new tasks, in insertion order: one for each message. */
  ghost predicate NewTasks(jobTasks: map<string, JobTask>, ids: seq<string>, messages: seq<TaskMessage>, random: RandomHex)
    reads jobTasks.Values
  {
    && |ids| == |messages| && Distinct(ids)
    && forall k :: 0 <= k < |messages| ==>
         && ids[k] == TaskId(messages[k].messageId, random) && ids[k] in jobTasks && jobTasks[ids[k]].id == ids[k]
         && jobTasks[ids[k]].correlationId == messages[k].messageId
         && jobTasks[ids[k]].state == New && jobTasks[ids[k]].error.None?
  }

  lemma NoneTooLong()
    ensures AllFit([])
  {}

  lemma OneMoreFits(messages: seq<TaskMessage>, m: TaskMessage, all: seq<TaskMessage>)
    requires AllFit(messages) && m in all
    ensures AllFit(messages + [m]) <==> |m.messageId| <= 58
    ensures |m.messageId| > 58 ==> !AllFit(all)
    ensures AllFit(messages + [m]) ==> forall k :: 0 <= k < |messages + [m]| ==> |(messages + [m])[k].messageId| <= 58
  {
    assert m in messages + [m];
  }

  lemma AllParse(messages: seq<TaskMessage>, random: RandomHex)
    requires DistinctMessages(messages) && HexOfSize(random) && AllFit(messages)
    ensures forall k :: 0 <= k < |messages| && '_' !in messages[k].messageId ==>
              GetTaskCorrelationId(TaskId(messages[k].messageId, random)) == Some(messages[k].messageId)
  {
    hide GetTaskCorrelationId, TaskId, RandomSize, DistinctMessages, HexOfSize;
    forall k | 0 <= k < |messages| && '_' !in messages[k].messageId
      ensures GetTaskCorrelationId(TaskId(messages[k].messageId, random)) == Some(messages[k].messageId)
    {
      assert messages[k] in messages;
      TaskIdRoundTrip(messages[k].messageId, random);
    }
  }
}
