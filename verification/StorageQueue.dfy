/** Receiving from a storage queue with a dead-letter queue: packages/azure-services/src/azure-queue/queue.ts. */
module StorageQueues {
  import opened Common

  /** A message in the service. Each receive raises the count, gives a new receipt and hides the message for a time. */
  datatype Entry = Entry(text: string, dequeueCount: nat, receipt: nat, visible: bool)

  datatype Message = Message(messageText: string, messageId: string, popReceipt: nat)

  /** A message in the dead queue, with the id it had in the origin queue. */
  datatype DeadMessage = DeadMessage(messageId: string, text: string)

  const MAX_DEQUEUE_COUNT := 1
  const MAX_BATCH := 32

  // ----- one queue with all its clients, step by step -----

  /** `created` is every message ever put in; `moving` holds, by receipt, the messages a client is about to move to the
      dead queue, and whether it has enqueued them there already; `handedOut` lists the ids returned to callers. */
  datatype QueueState = QueueState(
    created: map<string, string>,
    origin: map<string, Entry>,
    dead: seq<DeadMessage>,
    deletedOnSuccess: set<string>,
    moving: map<nat, Move>,
    handedOut: seq<Message>,
    nextReceipt: nat)

  datatype Move = Move(messageId: string, text: string, enqueued: bool)

  const EMPTY_QUEUE := QueueState(map[], map[], [], {}, map[], [], 0)

  datatype Event =
    | Create(id: string, text: string)
    | Receive(id: string, returned: bool) // a client may end before it returns what it received
    | EnqueueDead(receipt: nat)
    | DeleteMoved(receipt: nat)
    | ClientEnds(receipt: nat)
    | DeleteSucceeded(message: Message)
    | BecomeVisible(id: string)

  /** The service deletes a message only for the receipt of its latest receive; otherwise the error is logged. */
  function Delete(origin: map<string, Entry>, id: string, receipt: nat): map<string, Entry> {
    if id in origin && origin[id].receipt == receipt then origin - {id} else origin
  }

  function Received(s: QueueState, id: string): Entry
    requires id in s.origin
  {
    Entry(s.origin[id].text, s.origin[id].dequeueCount + 1, s.nextReceipt, false)
  }

  predicate Enabled(s: QueueState, e: Event) {
    match e
    case Create(id, _) => id !in s.created
    case Receive(id, _) => id in s.origin && s.origin[id].visible
    case EnqueueDead(receipt) => receipt in s.moving && !s.moving[receipt].enqueued
    case DeleteMoved(receipt) => receipt in s.moving && s.moving[receipt].enqueued
    case ClientEnds(receipt) => receipt in s.moving
    case DeleteSucceeded(message) => message in s.handedOut
    case BecomeVisible(id) => id in s.origin
  }

  function Apply(s: QueueState, e: Event): QueueState
    requires Enabled(s, e)
  {
    match e
    case Create(id, text) =>
      s.(created := s.created[id := text], origin := s.origin[id := Entry(text, 0, s.nextReceipt, true)],
         nextReceipt := s.nextReceipt + 1)
    case Receive(id, returned) =>
      var entry := Received(s, id);
      var r := s.(origin := s.origin[id := entry], nextReceipt := s.nextReceipt + 1);
      if entry.dequeueCount > MAX_DEQUEUE_COUNT then r.(moving := s.moving[s.nextReceipt := Move(id, entry.text, false)])
      else if returned then r.(handedOut := s.handedOut + [Message(entry.text, id, s.nextReceipt)])
      else r
    case EnqueueDead(receipt) =>
      var m := s.moving[receipt];
      s.(dead := s.dead + [DeadMessage(m.messageId, m.text)], moving := s.moving[receipt := m.(enqueued := true)])
    case DeleteMoved(receipt) =>
      s.(origin := Delete(s.origin, s.moving[receipt].messageId, receipt), moving := s.moving - {receipt})
    case ClientEnds(receipt) => s.(moving := s.moving - {receipt})
    case DeleteSucceeded(message) =>
      var rest := Delete(s.origin, message.messageId, message.popReceipt);
      s.(origin := rest,
         deletedOnSuccess := if rest == s.origin then s.deletedOnSuccess else s.deletedOnSuccess + {message.messageId})
    case BecomeVisible(id) => s.(origin := s.origin[id := s.origin[id].(visible := true)])
  }

  ghost predicate Reachable(s: QueueState, events: seq<Event>)
    decreases |events|
  {
    if events == [] then s == EMPTY_QUEUE
    else
      var init, last := events[..|events| - 1], events[|events| - 1];
      exists before :: Reachable(before, init) && Enabled(before, last) && s == Apply(before, last)
  }

  function IdsOf(messages: seq<Message>): seq<string> { Map((m: Message) => m.messageId, messages) }

  /** A message is in the origin queue, or in the dead queue, or was deleted after its task succeeded. */
  predicate Kept(s: QueueState, id: string)
    requires id in s.created
  {
    || (id in s.origin && s.origin[id].text == s.created[id])
    || DeadMessage(id, s.created[id]) in s.dead
    || id in s.deletedOnSuccess
  }

  ghost predicate Inv(s: QueueState) {
    && s.origin.Keys <= s.created.Keys
    && (forall id :: id in s.origin ==> s.origin[id].text == s.created[id])
    && (forall id :: id in s.created ==> Kept(s, id))
    && (forall r :: r in s.moving ==>
          && s.moving[r].messageId in s.created && s.moving[r].text == s.created[s.moving[r].messageId]
          && (s.moving[r].enqueued ==> DeadMessage(s.moving[r].messageId, s.moving[r].text) in s.dead))
    && (forall m :: m in s.handedOut ==>
          m.messageId in s.created && (m.messageId in s.origin ==> s.origin[m.messageId].dequeueCount >= 1))
    && Distinct(IdsOf(s.handedOut))
  }

  lemma StepKeepsInv(s: QueueState, e: Event)
    requires Inv(s) && Enabled(s, e)
    ensures Inv(Apply(s, e))
  {
    match e
    case Create(id, text) =>
    case Receive(id, returned) => ReceiveKeepsInv(s, id, returned);
    case EnqueueDead(receipt) =>
    case DeleteMoved(receipt) =>
    case ClientEnds(receipt) =>
    case DeleteSucceeded(message) =>
    case BecomeVisible(id) =>
  }

  lemma ReceiveKeepsInv(s: QueueState, id: string, returned: bool)
    requires Inv(s) && Enabled(s, Receive(id, returned))
    ensures Inv(Apply(s, Receive(id, returned)))
  {
    var after := Apply(s, Receive(id, returned));
    if s.origin[id].dequeueCount == 0 && returned {
      assert after.handedOut == s.handedOut + [Message(s.origin[id].text, id, s.nextReceipt)];
      assert forall m :: m in s.handedOut ==> m.messageId != id;
      assert IdsOf(after.handedOut) == IdsOf(s.handedOut) + [id];
      assert forall i :: 0 <= i < |s.handedOut| ==>
        IdsOf(s.handedOut)[i] == s.handedOut[i].messageId && s.handedOut[i] in s.handedOut;
    }
  }

  /** Through every sequence of events, with clients that end between enqueueing and deleting, receipts that have gone
      stale and messages that come back after their timeout: no message is lost, and none is handed out twice. */
  lemma {:induction false} NothingLostNorHandedOutTwice(s: QueueState, events: seq<Event>)
    requires Reachable(s, events)
    ensures Inv(s)
    ensures forall id :: id in s.created ==> Kept(s, id)
    ensures Distinct(IdsOf(s.handedOut))
    decreases |events|
  {
    if events != [] {
      var init, last := events[..|events| - 1], events[|events| - 1];
      var before :| Reachable(before, init) && Enabled(before, last) && s == Apply(before, last);
      NothingLostNorHandedOutTwice(before, init);
      StepKeepsInv(before, last);
    }
  }

  /** The message is no longer in the origin queue, unless it was received again since. */
  predicate GoneOrStale(s: QueueState, message: Message) {
    message.messageId in s.origin ==> s.origin[message.messageId].receipt != message.popReceipt
  }

  lemma DeletionsStay(s: QueueState, message: Message, other: Message)
    requires message in s.handedOut
    ensures GoneOrStale(Apply(s, DeleteSucceeded(message)), message)
    ensures GoneOrStale(s, other) ==> GoneOrStale(Apply(s, DeleteSucceeded(message)), other)
  {}

  // ----- the client -----

  /** Which visible messages the service delivers when asked for `n`; any rule that returns no more than asked, each once. */
  type Delivery = (QueueState, real) -> seq<string>

  ghost predicate DeliversProperly(deliver: Delivery) {
    forall s, n :: n > 0.0 ==>
      var batch := deliver(s, n);
      |batch| as real <= n && Distinct(batch) && forall id :: id in batch ==> id in s.origin && s.origin[id].visible
  }

  function NeverReceived(s: QueueState): string -> bool { (id: string) => id in s.origin && s.origin[id].dequeueCount == 0 }

  /** The message left the origin queue for the dead queue. */
  predicate Moved(before: QueueState, after: QueueState, id: string) {
    id in before.origin && id !in after.origin && DeadMessage(id, before.origin[id].text) in after.dead
  }

  predicate Untouched(before: QueueState, after: QueueState, id: string) {
    (id in before.origin <==> id in after.origin) && (id in before.origin ==> before.origin[id] == after.origin[id])
  }

  /** How many messages the next receive asks for: as many as are wanted and one receive may give. */
  function NextCount(remaining: real): real { if remaining > MAX_BATCH as real then MAX_BATCH as real else remaining }

  lemma NextCountFits(remaining: real)
    requires remaining > 0.0
    ensures 0.0 < NextCount(remaining) <= remaining && NextCount(remaining) <= 32.0
    ensures NextCount(remaining) == remaining || NextCount(remaining) == 32.0
  {}

  /** Nothing delivered is new. */
  predicate NothingFor(s: QueueState, delivered: seq<string>) { Filter(NeverReceived(s), delivered) == [] }

  lemma NoneWithoutIds(s: QueueState, delivered: seq<string>, messages: seq<Message>)
    requires IdsOf(messages) == Filter(NeverReceived(s), delivered)
    ensures messages == [] ==> NothingFor(s, delivered)
  {}

  lemma NothingReceived(s: QueueState)
    ensures IdsOf([]) == Filter(NeverReceived(s), []) && forall id :: Untouched(s, s, id)
  {}

  lemma OneMoreReceived(before: QueueState, now: QueueState, received: seq<string>, id: string)
    ensures Filter(NeverReceived(before), received + [id])
         == Filter(NeverReceived(before), received) + if NeverReceived(before)(id) then [id] else []
  {
    hide NeverReceived;
    FilterAppend(NeverReceived(before), received, [id]);
    assert [id][1..] == [];
  }

  /** The queue was in this state at some point after the first `start` events. */
  ghost predicate Passed(events: seq<Event>, start: nat, s: QueueState) {
    exists k :: start <= k <= |events| && Reachable(s, events[..k])
  }

  lemma PassedNow(events: seq<Event>, start: nat, s: QueueState)
    requires Reachable(s, events) && start <= |events|
    ensures Passed(events, start, s)
  {
    hide Reachable;
    assert events[..|events|] == events;
  }

  lemma StillPassed(events: seq<Event>, more: seq<Event>, start: nat, earlier: nat, s: QueueState)
    requires Passed(events, start, s) && events <= more && earlier <= start
    ensures Passed(more, earlier, s)
  {
    hide Reachable;
    var k :| start <= k <= |events| && Reachable(s, events[..k]);
    assert more[..k] == events[..k];
  }

  lemma Extend(s: QueueState, events: seq<Event>, e: Event)
    requires Reachable(s, events) && Enabled(s, e)
    ensures Reachable(Apply(s, e), events + [e])
  {
    assert (events + [e])[..|events|] == events;
  }

  class Queue {
    const deliver: Delivery
    var state: QueueState
    ghost var events: seq<Event>

    ghost predicate Valid()
      reads this
    {
      Reachable(state, events) && DeliversProperly(deliver)
    }

    constructor (deliver: Delivery)
      requires DeliversProperly(deliver)
      ensures Valid() && state == EMPTY_QUEUE
    {
      this.deliver, state, events := deliver, EMPTY_QUEUE, [];
    }

    method Do(e: Event)
      requires Valid() && Enabled(state, e)
      modifies this`state, this`events
      ensures Valid() && state == Apply(old(state), e) && old(events) <= events
    {
      Extend(state, events, e);
      state := Apply(state, e);
      events := events + [e];
    }

    /** What others do to the queue, as far as it can happen. */
    method Happen(others: seq<Event>)
      requires Valid()
      modifies this`state, this`events
      ensures Valid() && old(state.handedOut) <= state.handedOut && old(events) <= events
      ensures others == [] ==> state == old(state)
    {
      for i := 0 to |others|
        invariant Valid() && old(state.handedOut) <= state.handedOut && old(events) <= events
        invariant i == 0 ==> state == old(state)
      {
        if Enabled(state, others[i]) { Do(others[i]); }
      }
    }

    /** One receive. Of what the service delivers, exactly what was never received before is returned; the rest is moved to
        the dead queue and deleted, and no other message is touched. */
    method GetMessages(numberOfMessages: real) returns (messages: seq<Message>)
      requires Valid() && numberOfMessages > 0.0
      modifies this`state, this`events
      ensures Valid() && state.created == old(state.created) && state.deletedOnSuccess == old(state.deletedOnSuccess)
      ensures |messages| as real <= numberOfMessages
      ensures state.handedOut == old(state.handedOut) + messages && old(events) <= events
      ensures IdsOf(messages) == Filter(NeverReceived(old(state)), deliver(old(state), numberOfMessages))
      ensures forall id :: id in deliver(old(state), numberOfMessages) && !NeverReceived(old(state))(id) ==>
        Moved(old(state), state, id)
      ensures forall id :: id !in deliver(old(state), numberOfMessages) ==> Untouched(old(state), state, id)
    {
      hide Reachable, Moved, Untouched, NeverReceived, Filter;
      messages := [];
      var batch := deliver(state, numberOfMessages);
      ghost var before := state;
      NothingReceived(before);
      for i := 0 to |batch|
        invariant Valid() && state.created == before.created && state.deletedOnSuccess == before.deletedOnSuccess
        invariant |messages| <= i && IdsOf(messages) == Filter(NeverReceived(before), batch[..i])
        invariant state.handedOut == before.handedOut + messages && old(events) <= events
        invariant forall id :: id in batch[..i] && !NeverReceived(before)(id) ==> Moved(before, state, id)
        invariant forall id :: id !in batch[..i] ==> Untouched(before, state, id)
      {
        assert batch[..i + 1] == batch[..i] + [batch[i]] && batch[i] !in batch[..i];
        OneMoreReceived(before, state, batch[..i], batch[i]);
        var message := ReceiveOne(batch[i], before);
        if message.Some? { messages := messages + [message.value]; }
      }
      assert batch[..|batch|] == batch;
    }

    /** One message of a receive. */
    method ReceiveOne(id: string, ghost before: QueueState) returns (message: Option<Message>)
      requires Valid() && id in before.origin && before.origin[id].visible && Untouched(before, state, id)
      modifies this`state, this`events
      ensures Valid() && state.created == old(state.created) && state.deletedOnSuccess == old(state.deletedOnSuccess)
      ensures old(events) <= events
      ensures message.Some? <==> NeverReceived(before)(id)
      ensures message.Some? ==> message.value.messageId == id && state.handedOut == old(state.handedOut) + [message.value]
      ensures message.None? ==> state.handedOut == old(state.handedOut) && Moved(before, state, id)
      ensures forall other :: other != id && Untouched(before, old(state), other) ==> Untouched(before, state, other)
      ensures forall other :: other != id && Moved(before, old(state), other) ==> Moved(before, state, other)
    {
      hide Reachable;
      var receipt := state.nextReceipt;
      var entry := Received(state, id);
      Do(Receive(id, true));
      if entry.dequeueCount > MAX_DEQUEUE_COUNT {
        MoveToDeadQueue(receipt);
        message := None;
      } else {
        message := Some(Message(entry.text, id, receipt));
      }
    }

    method MoveToDeadQueue(receipt: nat)
      requires Valid() && receipt in state.moving && !state.moving[receipt].enqueued
      modifies this`state, this`events
      ensures Valid() && old(events) <= events
      ensures var m := old(state.moving)[receipt];
        state == old(state).(dead := old(state.dead) + [DeadMessage(m.messageId, m.text)],
                             origin := Delete(old(state.origin), m.messageId, receipt),
                             moving := old(state.moving) - {receipt})
    {
      Do(EnqueueDead(receipt));
      Do(DeleteMoved(receipt));
    }

    /** One receive after others have acted; `now` is the state in between. */
    method Round(
      count: real, others: nat -> seq<Event>, round: nat, ghost before: QueueState, ghost messages: seq<Message>,
      ghost elsewhere: seq<Message>)
      returns (batch: seq<Message>, ghost now: QueueState, ghost elsewhereNow: seq<Message>)
      requires Valid() && count > 0.0 && Accounts(before.handedOut, messages, elsewhere, state.handedOut)
      requires Idle(others) ==> Undisturbed(before, state, elsewhere)
      modifies this`state, this`events
      ensures Valid() && |batch| as real <= count
      ensures Accounts(before.handedOut, messages + batch, elsewhereNow, state.handedOut)
      ensures Idle(others) ==> Undisturbed(before, state, elsewhereNow)
      ensures batch == [] ==> NothingFor(now, deliver(now, count)) && now.handedOut == state.handedOut
      ensures old(events) <= events && Passed(events, |old(events)|, now)
    {
      hide NothingFor, Reachable, IdsOf, Moved, Untouched, Accounts, Passed;
      ghost var known := state;
      Happen(others(round));
      now := state;
      PassedNow(events, |old(events)|, now);
      ghost var eventsThen := events;
      batch := GetMessages(count);
      elsewhereNow := elsewhere + now.handedOut[|known.handedOut|..];
      NoneWithoutIds(now, deliver(now, count), batch);
      MoreElsewhere(before.handedOut, messages, elsewhere, known.handedOut, now.handedOut);
      MorePulled(before.handedOut, messages, elsewhereNow, now.handedOut, batch);
      StillPassed(eventsThen, events, |old(events)|, |old(events)|, now);
    }

    /** Receives until the total is reached or a receive returns nothing, the one in state `last`: at most the number asked
        for, all distinct. Before the k-th receive `others` happens, with `elsewhere` handed out to other clients. */
    method GetMessagesWithTotalCount(totalMessagesCount: real, others: nat -> seq<Event>)
      returns (messages: seq<Message>, ghost last: Option<QueueState>, ghost elsewhere: seq<Message>)
      requires Valid() && totalMessagesCount > 0.0
      modifies this`state, this`events
      ensures Valid() && |messages| as real <= totalMessagesCount
      ensures old(state.handedOut) <= state.handedOut
      ensures multiset(state.handedOut) == multiset(old(state.handedOut) + (messages + elsewhere))
      ensures Distinct(IdsOf(state.handedOut)) && Distinct(IdsOf(old(state.handedOut) + (messages + elsewhere)))
      ensures last.None? <==> |messages| as real == totalMessagesCount
      ensures old(events) <= events
      ensures last.Some? ==> last.value.handedOut == state.handedOut && Passed(events, |old(events)|, last.value)
      ensures last.Some? ==> NothingFor(last.value, deliver(last.value, NextCount(totalMessagesCount - |messages| as real)))
      ensures Idle(others) ==> Undisturbed(old(state), state, elsewhere)
    {
      hide NothingFor, Reachable, IdsOf, Accounts, Idle, Undisturbed, DeliversProperly, NextCount, Inv, Kept, Distinct,
        Passed;
      messages, last, elsewhere := [], None, [];
      ghost var before := state;
      NothingYet(before);
      var more := true;
      var round := 0;
      while more
        invariant Valid() && |messages| as real <= totalMessagesCount && last.None? && old(events) <= events
        invariant more <==> |messages| as real < totalMessagesCount
        invariant Accounts(before.handedOut, messages, elsewhere, state.handedOut)
        invariant Idle(others) ==> Undisturbed(before, state, elsewhere)
        decreases totalMessagesCount.Floor + 1 - |messages|, more
      {
        NextCountFits(totalMessagesCount - |messages| as real);
        var batch;
        ghost var now, earlier := before, events;
        batch, now, elsewhere :=
          Round(NextCount(totalMessagesCount - |messages| as real), others, round, before, messages, elsewhere);
        if |batch| == 0 {
          assert messages + batch == messages;
          StillPassed(events, events, |earlier|, |old(events)|, now);
          last := Some(now);
          break;
        }
        messages := messages + batch;
        more := |messages| as real < totalMessagesCount;
        round := round + 1;
      }
      NothingLostNorHandedOutTwice(state, events);
      AccountsFacts(before.handedOut, messages, elsewhere, state.handedOut);
      StaysDistinct(state.handedOut, before.handedOut + (messages + elsewhere));
    }

    method DeleteMessage(message: Message)
      requires Valid() && message in state.handedOut
      modifies this`state, this`events
      ensures Valid() && state.handedOut == old(state.handedOut) && state.created == old(state.created)
      ensures state == Apply(old(state), DeleteSucceeded(message)) && old(events) <= events
    {
      Do(DeleteSucceeded(message));
    }
  }

  /** What was handed out since `before` is what was pulled and what went elsewhere. */
  ghost predicate Accounts(before: seq<Message>, messages: seq<Message>, elsewhere: seq<Message>, handedOut: seq<Message>) {
    before <= handedOut && multiset(handedOut) == multiset(before + (messages + elsewhere))
  }

  /** Nobody else acts. */
  ghost predicate Idle(others: nat -> seq<Event>) { forall k :: others(k) == [] }

  /** Nothing was created, deleted after success, or handed out elsewhere. */
  ghost predicate Undisturbed(before: QueueState, after: QueueState, elsewhere: seq<Message>) {
    elsewhere == [] && after.created == before.created && after.deletedOnSuccess == before.deletedOnSuccess
  }

  lemma NothingYet(before: QueueState)
    ensures Accounts(before.handedOut, [], [], before.handedOut) && Undisturbed(before, before, [])
  {
    assert before.handedOut + ([] + []) == before.handedOut;
  }

  lemma MoreElsewhere(
    before: seq<Message>, messages: seq<Message>, elsewhere: seq<Message>, known: seq<Message>, now: seq<Message>)
    requires Accounts(before, messages, elsewhere, known) && known <= now
    ensures Accounts(before, messages, elsewhere + now[|known|..], now)
    ensures known == now ==> elsewhere + now[|known|..] == elsewhere
  {
    assert now == known + now[|known|..];
  }

  lemma MorePulled(
    before: seq<Message>, messages: seq<Message>, elsewhere: seq<Message>, known: seq<Message>, batch: seq<Message>)
    requires Accounts(before, messages, elsewhere, known)
    ensures Accounts(before, messages + batch, elsewhere, known + batch)
  {}

  lemma AccountsFacts(before: seq<Message>, messages: seq<Message>, elsewhere: seq<Message>, handedOut: seq<Message>)
    requires Accounts(before, messages, elsewhere, handedOut)
    ensures before <= handedOut && multiset(handedOut) == multiset(before + (messages + elsewhere))
  {}

  lemma StaysDistinct(a: seq<Message>, b: seq<Message>)
    requires multiset(a) == multiset(b) && Distinct(IdsOf(a))
    ensures Distinct(IdsOf(b))
  {
    MapPermutes((m: Message) => m.messageId, a, b);
    DistinctCounts(IdsOf(a));
    DistinctCounts(IdsOf(b));
  }

  lemma SuffixDistinct(a: seq<Message>, b: seq<Message>)
    requires Distinct(IdsOf(a + b))
    ensures Distinct(IdsOf(b))
    ensures forall m, n :: m in a && n in b ==> m.messageId != n.messageId
  {
    assert IdsOf(a + b) == IdsOf(a) + IdsOf(b);
    forall m, n | m in a && n in b ensures m.messageId != n.messageId {
      var i :| 0 <= i < |a| && a[i] == m;
      var j :| 0 <= j < |b| && b[j] == n;
      assert IdsOf(a + b)[i] == m.messageId && IdsOf(a + b)[|a| + j] == n.messageId;
    }
    forall i, j | 0 <= i < j < |b| ensures IdsOf(b)[i] != IdsOf(b)[j] {
      assert IdsOf(a + b)[|a| + i] == IdsOf(b)[i] && IdsOf(a + b)[|a| + j] == IdsOf(b)[j];
    }
  }
}
