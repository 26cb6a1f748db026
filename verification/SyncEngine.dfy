/** The client's offline queue and sync engine,
    `sdks/mercury-sdk-js/src/offline-queue.ts` and `sync.ts`. The server is a
    script of replies; a request past its end is rejected. */
module SyncEngine {
  import opened Base
  import opened ClientStore
  import opened MessageTable

  const MAX_QUEUE_SIZE: nat := 10_000
  const DRAIN_BATCH_SIZE: nat := 100

  /** The queue after the oldest has made room, if it must. */
  function Room(queue: seq<Queued>): seq<Queued> {
    if |queue| >= MAX_QUEUE_SIZE then queue[1..] else queue
  }

  class OfflineQueue {
    const store: LocalStore

    constructor (store: LocalStore)
      ensures this.store == store
    {
      this.store := store;
    }

    method Enqueue(channel: string, event: string, payload: Bytes, now: nat)
      requires store.Valid()
      modifies store`queue, store`nextId
      ensures store.Valid() && store.nextId == old(store.nextId) + 1
      ensures store.queue == Room(old(store.queue)) + [Queued(old(store.nextId), channel, event, payload, now)]
    {
      var size := store.QueueSize();
      if size >= MAX_QUEUE_SIZE {
        var oldest := store.Dequeue(1);
        if |oldest| > 0 {
          AboveIsSuffix(store.queue, oldest[0].id, 1);
          store.ClearQueue(oldest[0].id);
        }
      }
      store.Enqueue(channel, event, payload, now);
    }

    method Drain() returns (items: seq<Queued>)
      ensures items == Take(store.queue, DRAIN_BATCH_SIZE)
    {
      items := store.Dequeue(DRAIN_BATCH_SIZE);
    }

    method Ack(upToId: nat)
      requires store.Valid()
      modifies store`queue
      ensures store.Valid() && store.queue == Above(old(store.queue), upToId)
    {
      store.ClearQueue(upToId);
    }
  }

  // ---- One sync ----

  datatype Delta =
    | MessageAppend(id: nat, sender: Bytes, content: Bytes, contentType: int, wall: nat)
    | OtherDelta

  datatype Reply = Reply(deltas: seq<Delta>, serverHlc: nat, hasMore: bool)

  function StoredOne(m: Messages, channel: string, d: Delta): Messages {
    match d
    case MessageAppend(id, sender, content, contentType, wall) =>
      m[MessageKey(channel, id) := Stored(sender, content, contentType, wall)]
    case OtherDelta => m
  }

  /** The deltas of one reply, upserted in order. */
  function StoredAll(m: Messages, channel: string, ds: seq<Delta>): Messages {
    if ds == [] then m
    else StoredOne(StoredAll(m, channel, ds[..|ds| - 1]), channel, ds[|ds| - 1])
  }

  function Appends(ds: seq<Delta>): nat {
    if ds == [] then 0
    else Appends(ds[..|ds| - 1]) + if ds[|ds| - 1].MessageAppend? then 1 else 0
  }

  /** Every message counts once, and nothing else does. */
  lemma {:induction false} AppendsCountMessages(ds: seq<Delta>)
    ensures Appends(ds) == |MessagesIn(ds)|
  {
    if ds == [] {
      assert MessagesIn(ds) == {};
    } else {
      var n := |ds| - 1;
      AppendsCountMessages(ds[..n]);
      assert MessagesIn(ds) == MessagesIn(ds[..n]) + if ds[n].MessageAppend? then {n} else {};
    }
  }

  function MessagesIn(ds: seq<Delta>): set<nat> {
    set i: nat | i < |ds| && ds[i].MessageAppend?
  }

  /** After the deltas of a reply, the copy of a message is what the last delta for
      it says, and otherwise what it was. */
  lemma {:induction false} LastDeltaWins(m: Messages, channel: string, ds: seq<Delta>, k: MessageKey, i: nat)
    requires i < |ds| && ds[i].MessageAppend? && k == MessageKey(channel, ds[i].id)
    requires forall j | i < j < |ds| && ds[j].MessageAppend? :: ds[j].id != ds[i].id
    ensures
      var after := StoredAll(m, channel, ds);
      k in after && after[k].sender == ds[i].sender && after[k].content == ds[i].content
      && after[k].contentType == ds[i].contentType && after[k].timestamp == ds[i].wall
  {
    var n := |ds| - 1;
    if i < n {
      LastDeltaWins(m, channel, ds[..n], k, i);
    }
  }

  lemma {:induction false} UnnamedStay(m: Messages, channel: string, ds: seq<Delta>, k: MessageKey)
    requires k.channel != channel || forall j | 0 <= j < |ds| && ds[j].MessageAppend? :: ds[j].id != k.id
    ensures
      var after := StoredAll(m, channel, ds);
      (k in after <==> k in m) && (k in m ==> after[k] == m[k])
  {
    if ds != [] {
      UnnamedStay(m, channel, ds[..|ds| - 1], k);
    }
  }

  /** Where pulling ends: `requests` are the walls asked for. */
  datatype Pulled = Pulled(messages: Messages, wall: nat, received: nat, requests: seq<nat>, finished: bool)

  /** What earlier requests add to the rest. */
  function Prepended(received: nat, requests: seq<nat>, rest: Pulled): Pulled {
    rest.(received := received + rest.received, requests := requests + rest.requests)
  }

  function Pull(m: Messages, channel: string, wall: nat, replies: seq<Reply>): Pulled
    decreases |replies|
  {
    if replies == [] then Pulled(m, wall, 0, [wall], false)
    else
      var r := replies[0];
      var m' := StoredAll(m, channel, r.deltas);
      if !r.hasMore then Pulled(m', r.serverHlc, Appends(r.deltas), [wall], true)
      else
        Prepended(Appends(r.deltas), [wall], Pull(m', channel, r.serverHlc, replies[1..]))
  }

  lemma PullUnfolds(m: Messages, channel: string, wall: nat, replies: seq<Reply>, n: nat)
    requires n < |replies|
    ensures
      var r := replies[n];
      var m' := StoredAll(m, channel, r.deltas);
      Pull(m, channel, wall, replies[n..])
      == if r.hasMore then Prepended(Appends(r.deltas), [wall], Pull(m', channel, r.serverHlc, replies[n + 1..]))
         else Pulled(m', r.serverHlc, Appends(r.deltas), [wall], true)
  {
    assert replies[n..][1..] == replies[n + 1..];
  }

  lemma PrependTwice(a: nat, v: seq<nat>, b: nat, w: seq<nat>, p: Pulled)
    ensures Prepended(a, v, Prepended(b, w, p)) == Prepended(a + b, v + w, p)
  {
    assert v + (w + p.requests) == v + w + p.requests;
  }

  function AllDeltas(replies: seq<Reply>): seq<Delta> {
    if replies == [] then [] else replies[0].deltas + AllDeltas(replies[1..])
  }

  lemma {:induction false} StoredInTwo(m: Messages, channel: string, a: seq<Delta>, b: seq<Delta>)
    ensures StoredAll(m, channel, a + b) == StoredAll(StoredAll(m, channel, a), channel, b)
  {
    if b == [] {
      assert a + b == a;
    } else {
      var n := |b| - 1;
      StoredInTwo(m, channel, a, b[..n]);
      assert (a + b)[..|a + b| - 1] == a + b[..n];
    }
  }

  lemma {:induction false} AppendsInTwo(a: seq<Delta>, b: seq<Delta>)
    ensures Appends(a + b) == Appends(a) + Appends(b)
  {
    if b == [] {
      assert a + b == a;
    } else {
      var n := |b| - 1;
      AppendsInTwo(a, b[..n]);
      assert (a + b)[..|a + b| - 1] == a + b[..n];
    }
  }

  /** Exactly the last of the replies says that there is no more. */
  ghost predicate EndsAtLast(replies: seq<Reply>) {
    replies != [] && forall i | 0 <= i < |replies| :: replies[i].hasMore <==> i < |replies| - 1
  }

  ghost predicate AsksInTurn(requests: seq<nat>, wall: nat, replies: seq<Reply>) {
    && |requests| == |replies|
    && forall i | 0 <= i < |requests| :: requests[i] == if i == 0 then wall else replies[i - 1].serverHlc
  }

  /** Pulling in pages does what one reply with all their deltas would: it stores them
      in order, counts every message once and ends at the last wall. Each request
      asks from the wall of the reply before, and no reply past the last is read. */
  lemma {:induction false} PullIsOneBatch(
    m: Messages, channel: string, wall: nat, replies: seq<Reply>, unread: seq<Reply>)
    requires EndsAtLast(replies)
    ensures
      var p := Pull(m, channel, wall, replies + unread);
      && p.finished && p.wall == replies[|replies| - 1].serverHlc && AsksInTurn(p.requests, wall, replies)
      && p.messages == StoredAll(m, channel, AllDeltas(replies)) && p.received == Appends(AllDeltas(replies))
    decreases |replies|
  {
    var r, rest := replies[0], replies[1..];
    assert (replies + unread)[1..] == rest + unread;
    if rest == [] {
      assert AllDeltas(replies) == r.deltas;
    } else {
      PullIsOneBatch(StoredAll(m, channel, r.deltas), channel, r.serverHlc, rest, unread);
      StoredInTwo(m, channel, r.deltas, AllDeltas(rest));
      AppendsInTwo(r.deltas, AllDeltas(rest));
    }
  }

  function OnlyOf(channel: string, items: seq<Queued>): seq<Queued> {
    if items == [] then []
    else (if items[0].channel == channel then [items[0]] else []) + OnlyOf(channel, items[1..])
  }

  /** What a sync of the channel pushes. */
  function Batch(queue: seq<Queued>, channel: string): seq<Queued> {
    OnlyOf(channel, Take(queue, DRAIN_BATCH_SIZE))
  }

  /** The queue once a pushed batch is acknowledged. */
  function Acked(queue: seq<Queued>, batch: seq<Queued>): seq<Queued> {
    if batch == [] then queue else Above(queue, batch[|batch| - 1].id)
  }

  datatype Outcome = Synced(received: nat, pushed: nat) | Rejected

  class Engine {
    const store: LocalStore
    const queue: OfflineQueue

    constructor (store: LocalStore)
      ensures this.store == store && fresh(queue) && queue.store == store
    {
      this.store := store;
      this.queue := new OfflineQueue(store);
    }

    /** The pull loop of `syncChannel`. */
    method PullAll(channel: string, lastWall: nat, replies: seq<Reply>)
      returns (wall: nat, received: nat, requests: seq<nat>, finished: bool)
      modifies store`messages
      ensures
        Pulled(store.messages, wall, received, requests, finished)
        == Pull(old(store.messages), channel, lastWall, replies)
    {
      received, requests, finished := 0, [], false;
      wall := lastWall;
      ghost var goal := Pull(store.messages, channel, lastWall, replies);
      var next := 0;
      assert replies[0..] == replies;
      var hasMore := true;
      while hasMore
        invariant next <= |replies|
        invariant finished == !hasMore
        invariant
          goal == if finished then Pulled(store.messages, wall, received, requests, true)
                  else Prepended(received, requests, Pull(store.messages, channel, wall, replies[next..]))
        decreases if hasMore then |replies| - next + 1 else 0
      {
        if next == |replies| {
          requests := requests + [wall];
          return;
        }
        var result := replies[next];
        ghost var m := store.messages;
        PullUnfolds(m, channel, wall, replies, next);
        var stored := StoreDeltas(channel, result.deltas);
        if result.hasMore {
          ghost var rest := Pull(store.messages, channel, result.serverHlc, replies[next + 1..]);
          PrependTwice(received, requests, stored, [wall], rest);
        }
        hasMore, finished := result.hasMore, !result.hasMore;
        requests, received := requests + [wall], received + stored;
        wall := result.serverHlc;
        next := next + 1;
      }
    }

    method StoreDeltas(channel: string, ds: seq<Delta>) returns (received: nat)
      modifies store`messages
      ensures store.messages == StoredAll(old(store.messages), channel, ds)
      ensures received == Appends(ds)
    {
      received := 0;
      for i := 0 to |ds|
        invariant store.messages == StoredAll(old(store.messages), channel, ds[..i])
        invariant received == Appends(ds[..i])
      {
        assert ds[..i + 1][..i] == ds[..i];
        var delta := ds[i];
        if delta.MessageAppend? {
          store.WriteMessage(MessageKey(channel, delta.id),
                             Stored(delta.sender, delta.content, delta.contentType, delta.wall));
          received := received + 1;
        }
      }
      assert ds[..|ds|] == ds;
    }

    /** The push of `syncChannel`. */
    method PushPending(channel: string, accepted: Option<nat>)
      returns (answered: bool, pushed: nat, sent: seq<Queued>)
      requires queue.store == store && store.Valid()
      modifies store`queue
      ensures store.Valid()
      ensures sent == Batch(old(store.queue), channel)
      ensures answered <==> sent == [] || accepted.Some?
      ensures pushed == if sent != [] && accepted.Some? then accepted.value else 0
      ensures store.queue == if answered then Acked(old(store.queue), sent) else old(store.queue)
    {
      answered, pushed, sent := true, 0, [];
      var pending := queue.Drain();
      var batch := OnlyOf(channel, pending);
      if |batch| > 0 {
        sent := batch;
        if accepted.None? {
          return false, 0, sent;
        }
        pushed := accepted.value;
        queue.Ack(batch[|batch| - 1].id);
      }
    }

    /** `accepted`: the server's answer to the push, `None` when it is rejected;
        `sent`: what was handed to the push. A sync that throws leaves behind
        what it had stored, and neither moves the cursor early nor acknowledges
        anything that was not accepted. */
    method SyncChannel(channel: string, replies: seq<Reply>, accepted: Option<nat>)
      returns (outcome: Outcome, sent: seq<Queued>)
      requires queue.store == store && store.Valid()
      modifies store
      ensures store.Valid() && store.nextId == old(store.nextId)
      ensures
        var lastWall := if channel in old(store.syncState) then old(store.syncState)[channel] else 0;
        var p := Pull(old(store.messages), channel, lastWall, replies);
        var batch := Batch(old(store.queue), channel);
        var pushes := p.finished && batch != [];
        var completes := p.finished && (batch == [] || accepted.Some?);
        && sent == (if pushes then batch else [])
        && store.syncState
           == (if p.finished && p.wall > lastWall then old(store.syncState)[channel := p.wall]
               else old(store.syncState))
        && store.queue == (if pushes && accepted.Some? then Acked(old(store.queue), batch) else old(store.queue))
        && (if completes then EvictionOf(p.messages, store.messages, channel) else store.messages == p.messages)
        && outcome
           == if !completes then Rejected
              else Synced(p.received, if pushes then accepted.value else 0)
    {
      sent := [];
      var state := store.GetSyncState(channel);
      var lastWall := if state.Some? then state.value else 0;
      var wall, received, requests, finished := PullAll(channel, lastWall, replies);
      if !finished {
        return Rejected, [];
      }
      if wall > lastWall {
        store.SetSyncState(channel, wall);
      }
      var answered, pushed;
      answered, pushed, sent := PushPending(channel, accepted);
      if !answered {
        return Rejected, sent;
      }
      var deleted := store.EvictOldMessages(channel);
      outcome := Synced(received, pushed);
    }
  }
}
