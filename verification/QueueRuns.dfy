/** Runs of the offline queue: messages are queued while any number of syncs are
    under way, each draining a batch, pushing it and acknowledging it when the
    push returns (`sdks/mercury-sdk-js/src/offline-queue.ts`,
    `sdks/mercury-sdk-js/src/sync.ts`). */
module QueueRuns {
  import opened Base
  import opened ClientStore
  import opened MessageTable
  import opened SyncEngine

  datatype InFlight = InFlight(channel: string, items: seq<Queued>)

  /** `history`: everything ever queued; `pushed`, `dropped`: the ids that the
      server accepted, and those that gave way to newer ones. */
  datatype Device = Device(
    queue: seq<Queued>,
    nextId: nat,
    inFlight: map<nat, InFlight>,
    history: seq<Queued>,
    pushed: set<nat>,
    dropped: set<nat>)

  const Initial := Device([], 1, map[], [], {}, {})

  datatype Event =
    | Enqueue(channel: string, event: string, payload: Bytes, now: nat)
    | Drain(sync: nat, channel: string)
    | Accepted(sync: nat)
    | Failed(sync: nat)

  function Ids(items: seq<Queued>): set<nat> {
    set q | q in items :: q.id
  }

  function Enqueued(d: Device, channel: string, event: string, payload: Bytes, now: nat): Device {
    var item := Queued(d.nextId, channel, event, payload, now);
    d.(queue := Room(d.queue) + [item],
       nextId := d.nextId + 1,
       history := d.history + [item],
       dropped := if |d.queue| >= MAX_QUEUE_SIZE then d.dropped + {d.queue[0].id} else d.dropped)
  }

  function Step(d: Device, e: Event): Option<Device> {
    match e
    case Enqueue(channel, event, payload, now) => Some(Enqueued(d, channel, event, payload, now))
    case Drain(sync, channel) =>
      var batch := Batch(d.queue, channel);
      if sync in d.inFlight || batch == [] then None
      else Some(d.(inFlight := d.inFlight[sync := InFlight(channel, batch)]))
    case Accepted(sync) =>
      if sync !in d.inFlight then None
      else
        var items := d.inFlight[sync].items;
        Some(d.(queue := Acked(d.queue, items), inFlight := d.inFlight - {sync}, pushed := d.pushed + Ids(items)))
    case Failed(sync) =>
      if sync !in d.inFlight then None else Some(d.(inFlight := d.inFlight - {sync}))
  }

  function Run(events: seq<Event>): Option<Device> {
    if events == [] then Some(Initial)
    else
      var n := |events| - 1;
      match Run(events[..n])
      case None => None
      case Some(d) => Step(d, events[n])
  }

  // ---- The queue is the end of the history ----

  predicate Numbered(history: seq<Queued>) {
    forall i | 0 <= i < |history| :: history[i].id == i + 1
  }

  predicate EndOf(queue: seq<Queued>, history: seq<Queued>) {
    |queue| <= |history| && queue == history[|history| - |queue|..]
  }

  /** How many have left the queue. */
  function Gone(d: Device): int {
    |d.history| - |d.queue|
  }

  predicate QueueInv(d: Device) {
    && Numbered(d.history) && d.nextId == |d.history| + 1
    && EndOf(d.queue, d.history)
    && |d.queue| <= MAX_QUEUE_SIZE
  }

  lemma QueueIds(d: Device)
    requires QueueInv(d)
    ensures forall i | 0 <= i < |d.queue| :: d.queue[i].id == Gone(d) + i + 1
    ensures Ascending(d.queue, d.nextId)
  {
  }

  /** An acknowledgement moves the front of the queue past the acknowledged id. */
  lemma AckMovesFront(d: Device, last: nat)
    requires QueueInv(d) && last <= |d.history|
    ensures Above(d.queue, last) == d.history[Max(Gone(d), last)..]
  {
    var n := Max(0, last - Gone(d));
    QueueIds(d);
    AboveIsSuffix(d.queue, last, n);
    assert d.queue[n..] == d.history[Gone(d) + n..];
  }

  lemma EnqueueKeepsQueue(d: Device, channel: string, event: string, payload: Bytes, now: nat)
    requires QueueInv(d)
    ensures
      var d' := Enqueued(d, channel, event, payload, now);
      QueueInv(d') && Gone(d') == if |d.queue| >= MAX_QUEUE_SIZE then Gone(d) + 1 else Gone(d)
  {
    var room := Room(d.queue);
    assert room == d.history[|d.history| - |room|..];
  }

  // ---- Batches in flight ----

  lemma {:induction false} OnlyOfMembers(channel: string, items: seq<Queued>)
    ensures forall q :: q in OnlyOf(channel, items) <==> q in items && q.channel == channel
  {
    if items != [] {
      OnlyOfMembers(channel, items[1..]);
      assert items == [items[0]] + items[1..];
    }
  }

  lemma {:induction false} OnlyOfAll(channel: string, items: seq<Queued>)
    requires forall q | q in items :: q.channel == channel
    ensures OnlyOf(channel, items) == items
  {
    if items != [] {
      OnlyOfAll(channel, items[1..]);
      assert items[0] in items;
    }
  }

  lemma {:induction false} OnlyOfOrdered(channel: string, items: seq<Queued>)
    requires Ordered(items)
    ensures Ordered(OnlyOf(channel, items))
  {
    if items != [] {
      var rest := items[1..];
      OnlyOfOrdered(channel, rest);
      OnlyOfMembers(channel, rest);
      ConsOrdered(items[0], OnlyOf(channel, rest));
    }
  }

  function LastId(items: seq<Queued>): nat
    requires items != []
  {
    items[|items| - 1].id
  }

  /** Whatever of the batch's channel is still queued and no newer than the
      batch, is in the batch. */
  ghost predicate Covers(history: seq<Queued>, gone: int, b: InFlight) {
    && b.items != [] && LastId(b.items) <= |history|
    && (forall q | q in b.items :: q.channel == b.channel && q.id <= LastId(b.items))
    && forall h | h in history && h.channel == b.channel && gone < h.id <= LastId(b.items) :: h in b.items
  }

  ghost predicate BatchInv(d: Device) {
    forall s | s in d.inFlight :: Covers(d.history, Gone(d), d.inFlight[s])
  }

  lemma DrainCovers(d: Device, channel: string)
    requires QueueInv(d) && Batch(d.queue, channel) != []
    ensures Covers(d.history, Gone(d), InFlight(channel, Batch(d.queue, channel)))
  {
    var batch := Batch(d.queue, channel);
    BatchIsOrdered(d, channel);
    assert batch[|batch| - 1] in batch;
    forall h | h in d.history && h.channel == channel && Gone(d) < h.id <= LastId(batch) ensures h in batch {
      DrainTakes(d, channel, h);
    }
  }

  lemma BatchItem(d: Device, channel: string, q: Queued)
    requires QueueInv(d) && q in Batch(d.queue, channel)
    ensures q.channel == channel && q.id <= |d.history|
  {
    QueueIds(d);
    OnlyOfMembers(channel, Take(d.queue, DRAIN_BATCH_SIZE));
    assert q in d.queue;
  }

  lemma LastIsHighest(items: seq<Queued>, q: Queued)
    requires Ordered(items) && q in items
    ensures q.id <= LastId(items)
  {
  }

  lemma BatchIsOrdered(d: Device, channel: string)
    requires QueueInv(d) && Batch(d.queue, channel) != []
    ensures
      var batch := Batch(d.queue, channel);
      forall q | q in batch :: q.channel == channel && q.id <= LastId(batch) <= |d.history|
  {
    var batch := Batch(d.queue, channel);
    QueueIds(d);
    OnlyOfOrdered(channel, Take(d.queue, DRAIN_BATCH_SIZE));
    assert batch[|batch| - 1] in batch;
    BatchItem(d, channel, batch[|batch| - 1]);
    forall q | q in batch ensures q.channel == channel && q.id <= LastId(batch) {
      BatchItem(d, channel, q);
      LastIsHighest(batch, q);
    }
  }

  lemma DrainTakes(d: Device, channel: string, h: Queued)
    requires QueueInv(d) && Batch(d.queue, channel) != []
    requires h in d.history && h.channel == channel && Gone(d) < h.id <= LastId(Batch(d.queue, channel))
    ensures h in Batch(d.queue, channel)
  {
    var top := Take(d.queue, DRAIN_BATCH_SIZE);
    var batch := OnlyOf(channel, top);
    QueueIds(d);
    OnlyOfMembers(channel, top);
    assert batch[|batch| - 1] in batch;
    assert d.history[h.id - 1] == h;
    assert top[h.id - 1 - Gone(d)] == h;
  }

  lemma StepKeepsInv(d: Device, e: Event)
    requires QueueInv(d) && BatchInv(d) && Step(d, e).Some?
    ensures QueueInv(Step(d, e).value) && BatchInv(Step(d, e).value)
  {
    match e
    case Enqueue(channel, event, payload, now) =>
      EnqueueKeepsQueue(d, channel, event, payload, now);
      EnqueueKeepsBatches(d, channel, event, payload, now);
    case Drain(sync, channel) => DrainCovers(d, channel);
    case Accepted(sync) => AckKeepsInv(d, sync);
    case Failed(_) =>
  }

  lemma EnqueueKeepsBatches(d: Device, channel: string, event: string, payload: Bytes, now: nat)
    requires QueueInv(d) && BatchInv(d)
    ensures BatchInv(Enqueued(d, channel, event, payload, now))
  {
    var d' := Enqueued(d, channel, event, payload, now);
    EnqueueKeepsQueue(d, channel, event, payload, now);
    forall s | s in d.inFlight ensures Covers(d'.history, Gone(d'), d.inFlight[s]) {
      assert Covers(d.history, Gone(d), d.inFlight[s]);
      assert d'.history[|d.history|].id == |d.history| + 1;
    }
  }

  lemma AckKeepsInv(d: Device, sync: nat)
    requires QueueInv(d) && BatchInv(d) && sync in d.inFlight
    ensures
      var d' := Step(d, Accepted(sync)).value;
      && QueueInv(d') && BatchInv(d')
      && Gone(d') == Max(Gone(d), LastId(d.inFlight[sync].items))
  {
    assert Covers(d.history, Gone(d), d.inFlight[sync]);
    AckMovesFront(d, LastId(d.inFlight[sync].items));
  }

  lemma {:induction false} RunKeepsInv(events: seq<Event>)
    requires Run(events).Some?
    ensures QueueInv(Run(events).value) && BatchInv(Run(events).value)
  {
    if events != [] {
      var n := |events| - 1;
      RunKeepsInv(events[..n]);
      StepKeepsInv(Run(events[..n]).value, events[n]);
    }
  }

  /** However syncs, failures and acknowledgements interleave, the queue is the
      end of what was ever queued, in order, and bounded. */
  lemma QueueIsSuffix(events: seq<Event>)
    requires Run(events).Some?
    ensures
      var d := Run(events).value;
      EndOf(d.queue, d.history) && |d.queue| <= MAX_QUEUE_SIZE && Numbered(d.history)
  {
    RunKeepsInv(events);
  }

  // ---- One queueing channel ----

  predicate OneChannel(history: seq<Queued>, channel: string) {
    forall q | q in history :: q.channel == channel
  }

  ghost predicate Accounted(d: Device) {
    forall i | 0 <= i < |d.history| && i < Gone(d) :: d.history[i].id in d.pushed + d.dropped
  }

  lemma EnqueueKeepsAccount(d: Device, channel: string, event: string, payload: Bytes, now: nat)
    requires QueueInv(d) && Accounted(d)
    ensures Accounted(Enqueued(d, channel, event, payload, now))
  {
    EnqueueKeepsQueue(d, channel, event, payload, now);
    QueueIds(d);
  }

  lemma AckKeepsAccount(d: Device, sync: nat, channel: string)
    requires QueueInv(d) && BatchInv(d) && Accounted(d) && sync in d.inFlight
    requires OneChannel(d.history, channel) && d.inFlight[sync].channel == channel
    ensures Accounted(Step(d, Accepted(sync)).value)
  {
    var items := d.inFlight[sync].items;
    AckKeepsInv(d, sync);
    assert Covers(d.history, Gone(d), d.inFlight[sync]);
    forall i | Gone(d) <= i < LastId(items) ensures d.history[i].id in Ids(items) {
      assert d.history[i] in d.history;
    }
  }

  /** With one queueing channel only that channel's syncs have a batch. */
  lemma OtherChannelsIdle(d: Device, channel: string, other: string)
    requires QueueInv(d) && OneChannel(d.history, channel) && Batch(d.queue, other) != []
    ensures other == channel
  {
    var top := Take(d.queue, DRAIN_BATCH_SIZE);
    OnlyOfMembers(other, top);
    var q := Batch(d.queue, other)[0];
    assert q in Batch(d.queue, other);
    assert q in top && q in d.history;
  }

  ghost predicate SameChannel(d: Device, channel: string) {
    OneChannel(d.history, channel) && forall s | s in d.inFlight :: d.inFlight[s].channel == channel
  }

  lemma {:induction false} RunKeepsAccount(events: seq<Event>, channel: string)
    requires Run(events).Some?
    requires forall e | e in events && e.Enqueue? :: e.channel == channel
    ensures Accounted(Run(events).value) && SameChannel(Run(events).value, channel)
  {
    if events != [] {
      var n := |events| - 1;
      var d, e := Run(events[..n]).value, events[n];
      RunKeepsInv(events[..n]);
      RunKeepsAccount(events[..n], channel);
      AccountStep(d, e, channel);
    }
  }

  lemma AccountStep(d: Device, e: Event, channel: string)
    requires QueueInv(d) && BatchInv(d) && Accounted(d) && SameChannel(d, channel)
    requires Step(d, e).Some? && (e.Enqueue? ==> e.channel == channel)
    ensures Accounted(Step(d, e).value) && SameChannel(Step(d, e).value, channel)
  {
    match e
    case Enqueue(c, event, payload, now) => EnqueueKeepsAccount(d, c, event, payload, now);
    case Drain(_, c) => OtherChannelsIdle(d, channel, c);
    case Accepted(sync) => AckKeepsAccount(d, sync, channel);
    case Failed(_) =>
  }

  /** With one queueing channel nothing is lost: whatever was queued is still
      queued, was accepted by the server, or gave way at capacity. */
  lemma NothingIsLost(events: seq<Event>, channel: string, q: Queued)
    requires Run(events).Some?
    requires forall e | e in events && e.Enqueue? :: e.channel == channel
    requires q in Run(events).value.history
    ensures
      var d := Run(events).value;
      q in d.queue || q.id in d.pushed || q.id in d.dropped
  {
    var d := Run(events).value;
    RunKeepsInv(events);
    RunKeepsAccount(events, channel);
    var i :| 0 <= i < |d.history| && d.history[i] == q;
    if i >= Gone(d) {
      assert d.queue[i - Gone(d)] == q;
    }
  }

  /** What such a sync takes is the front of the queue, oldest first. */
  lemma BatchIsOldest(events: seq<Event>, channel: string)
    requires Run(events).Some?
    requires forall e | e in events && e.Enqueue? :: e.channel == channel
    ensures Batch(Run(events).value.queue, channel) == Take(Run(events).value.queue, DRAIN_BATCH_SIZE)
  {
    var d := Run(events).value;
    RunKeepsInv(events);
    RunKeepsAccount(events, channel);
    var top := Take(d.queue, DRAIN_BATCH_SIZE);
    forall q | q in top ensures q.channel == channel {
      assert q in d.queue && q in d.history;
    }
    OnlyOfAll(channel, top);
  }

  /** With one queueing channel a message leaves the queue only when a push that
      carried it has returned, or as the oldest of a full queue; and that push
      takes all it carried. */
  lemma LeavesOnlyWhenPushed(events: seq<Event>, channel: string, e: Event, q: Queued)
    requires Run(events).Some? && Step(Run(events).value, e).Some?
    requires forall x | x in events && x.Enqueue? :: x.channel == channel
    requires q in Run(events).value.queue
    ensures
      var d := Run(events).value;
      q !in Step(d, e).value.queue
      <==> (e.Accepted? && q in d.inFlight[e.sync].items)
           || (e.Enqueue? && |d.queue| >= MAX_QUEUE_SIZE && q == d.queue[0])
  {
    var d := Run(events).value;
    RunKeepsInv(events);
    RunKeepsAccount(events, channel);
    match e
    case Enqueue(c, event, payload, now) => FullDropsOldest(d, q, Queued(d.nextId, c, event, payload, now));
    case Accepted(sync) => AckTakesBatch(d, sync, channel, q);
    case _ =>
  }

  lemma FullDropsOldest(d: Device, q: Queued, item: Queued)
    requires QueueInv(d) && q in d.queue && item.id == d.nextId
    ensures q !in Room(d.queue) + [item] <==> |d.queue| >= MAX_QUEUE_SIZE && q == d.queue[0]
  {
    QueueIds(d);
  }

  lemma AckTakesBatch(d: Device, sync: nat, channel: string, q: Queued)
    requires QueueInv(d) && BatchInv(d) && SameChannel(d, channel) && sync in d.inFlight && q in d.queue
    ensures q !in Acked(d.queue, d.inFlight[sync].items) <==> q in d.inFlight[sync].items
  {
    var b := d.inFlight[sync];
    assert Covers(d.history, Gone(d), b);
    QueueIds(d);
    AckedMembers(d, sync, q);
    assert q in d.history;
  }

  // ---- Several queueing channels ----

  /** What an acknowledgement takes away without having pushed it. */
  ghost predicate LosesOthers(d: Device, sync: nat)
    requires sync in d.inFlight
  {
    exists q :: q in d.queue && q !in d.inFlight[sync].items && q !in Acked(d.queue, d.inFlight[sync].items)
  }

  lemma AckedMembers(d: Device, sync: nat, q: Queued)
    requires QueueInv(d) && BatchInv(d) && sync in d.inFlight && q in d.queue
    ensures q in Acked(d.queue, d.inFlight[sync].items) <==> q.id > LastId(d.inFlight[sync].items)
  {
    assert Covers(d.history, Gone(d), d.inFlight[sync]);
    QueueIds(d);
    AboveMembers(d.queue, LastId(d.inFlight[sync].items));
  }

  /** An acknowledgement takes away unpushed messages exactly when a message of
      another channel is queued ahead of the last one pushed. */
  lemma AckLosesOthersIff(events: seq<Event>, sync: nat)
    requires Run(events).Some? && sync in Run(events).value.inFlight
    ensures
      var d := Run(events).value;
      var b := d.inFlight[sync];
      && b.items != []
      && (LosesOthers(d, sync) <==> exists q :: q in d.queue && q.channel != b.channel && q.id <= LastId(b.items))
  {
    var d := Run(events).value;
    var b := d.inFlight[sync];
    RunKeepsInv(events);
    assert Covers(d.history, Gone(d), b);
    QueueIds(d);
    forall q | q in d.queue
      ensures q !in b.items && q !in Acked(d.queue, b.items) <==> q.channel != b.channel && q.id <= LastId(b.items)
    {
      AckedMembers(d, sync, q);
      assert q in d.history;
    }
  }

  function Ahead(x: string, y: string): seq<Event> {
    [Enqueue(x, "", [], 0), Enqueue(y, "", [], 0), Drain(0, y)]
  }

  /** Such a run: a message of one channel, one of another, a sync of the latter. */
  lemma AckCanLose(x: string, y: string)
    requires x != y
    ensures Run(Ahead(x, y)).Some? && 0 in Run(Ahead(x, y)).value.inFlight
    ensures LosesOthers(Run(Ahead(x, y)).value, 0)
  {
    var es := Ahead(x, y);
    var a, b := Queued(1, x, "", [], 0), Queued(2, y, "", [], 0);
    assert es[..2][..1] == [es[0]] && es[..1][..0] == [];
    assert Run(es[..0]) == Some(Initial);
    var d1 := Device([a], 2, map[], [a], {}, {});
    assert Room([]) + [a] == [a];
    assert Run(es[..1]) == Some(d1);
    var d2 := Device([a, b], 3, map[], [a, b], {}, {});
    assert Room([a]) + [b] == [a, b];
    assert Run(es[..2]) == Some(d2);
    TwoQueued(a, b);
    var d3 := Run(es).value;
    assert d3.inFlight[0] == InFlight(y, [b]);
    AckLosesOthersIff(es, 0);
    assert a in d3.queue;
  }

  lemma TwoQueued(a: Queued, b: Queued)
    requires a.channel != b.channel
    ensures Batch([a, b], b.channel) == [b]
  {
    var y := b.channel;
    assert [a, b][1..] == [b] && [b][1..] == [];
    assert OnlyOf(y, []) == [];
    assert OnlyOf(y, [b]) == [b];
    assert OnlyOf(y, [a, b]) == [b];
    assert Take([a, b], DRAIN_BATCH_SIZE) == [a, b];
  }
}
