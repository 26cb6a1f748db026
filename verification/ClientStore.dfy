/** The client's object stores, `sdks/mercury-sdk-js/src/store.ts`: messages,
    sync cursors and the offline queue. Opening the database and its failures
    are not modelled; message ids are hexadecimal texts of one length, read as
    numbers. */
module ClientStore {
  import opened Base
  import opened MessageTable

  const MAX_MESSAGES_PER_CHANNEL: nat := 10_000
  const MAX_SAFE_INTEGER: nat := 0x1F_FFFF_FFFF_FFFF

  datatype MessageKey = MessageKey(channel: string, id: nat)
  datatype Stored = Stored(sender: Bytes, content: Bytes, contentType: int, timestamp: nat)
  type Messages = map<MessageKey, Stored>

  datatype Queued = Queued(id: nat, channel: string, event: string, payload: Bytes, createdAt: nat)

  // ---- Eviction ----

  /** The keys in the range of the index `byTimestamp` that belongs to a channel. */
  function InRange(m: Messages, channel: string): set<MessageKey> {
    set k | k in m && k.channel == channel && m[k].timestamp <= MAX_SAFE_INTEGER
  }

  /** The order of that index within a channel. */
  predicate Earlier(m: Messages, a: MessageKey, b: MessageKey)
    requires a in m && b in m
  {
    m[a].timestamp < m[b].timestamp || (m[a].timestamp == m[b].timestamp && a.id < b.id)
  }

  predicate AllEarlier(m: Messages, gone: set<MessageKey>, kept: set<MessageKey>)
    requires gone <= m.Keys && kept <= m.Keys
  {
    forall g, k | g in gone && k in kept :: Earlier(m, g, k)
  }

  function Excess(total: nat): nat {
    if total > MAX_MESSAGES_PER_CHANNEL then total - MAX_MESSAGES_PER_CHANNEL else 0
  }

  /** `after` is `before` without the channel's earliest messages, as many as
      exceed the bound. */
  predicate EvictionOf(before: Messages, after: Messages, channel: string) {
    var range := InRange(before, channel);
    var gone := before.Keys - after.Keys;
    && gone <= range
    && after == before - gone
    && |gone| == Excess(|range|)
    && AllEarlier(before, gone, range - gone)
  }

  lemma {:induction false} HasEarliest(m: Messages, channel: string, ks: set<MessageKey>)
    requires ks <= m.Keys && ks != {} && forall k | k in ks :: k.channel == channel
    ensures exists e :: e in ks && AllEarlier(m, {e}, ks - {e})
  {
    var a :| a in ks;
    if ks == {a} {
      assert AllEarlier(m, {a}, ks - {a});
    } else {
      HasEarliest(m, channel, ks - {a});
      var b :| b in ks - {a} && AllEarlier(m, {b}, ks - {a} - {b});
      var e := if Earlier(m, a, b) then a else b;
      forall k | k in ks - {e} ensures Earlier(m, e, k) {
        if k != a && k != b { assert Earlier(m, b, k); }
      }
      assert AllEarlier(m, {e}, ks - {e});
    }
  }

  lemma OneWay(m: Messages, a: MessageKey, b: MessageKey)
    requires a in m && b in m
    ensures !(Earlier(m, a, b) && Earlier(m, b, a))
  {
  }

  lemma SameSizeDiffer<T>(g: set<T>, h: set<T>)
    requires |g| == |h| && g != h
    ensures g - h != {} && h - g != {}
  {
    assert g == (g * h) + (g - h) && h == (g * h) + (h - g);
  }

  /** The description leaves no choice. */
  lemma EvictionIsUnique(before: Messages, a: Messages, b: Messages, channel: string)
    requires EvictionOf(before, a, channel) && EvictionOf(before, b, channel)
    ensures a == b
  {
    var g, h := before.Keys - a.Keys, before.Keys - b.Keys;
    if g != h {
      SameSizeDiffer(g, h);
      var x :| x in g - h;
      var y :| y in h - g;
      OneWay(before, x, y);
    }
  }

  /** What eviction removes from a channel is older than what it keeps, by time and
      at one time by id; a message out of the index's range stays. */
  lemma EvictionTakesOldest(before: Messages, after: Messages, channel: string, g: MessageKey, k: MessageKey)
    requires EvictionOf(before, after, channel)
    requires g in before && g !in after && k in after && k.channel == channel
    requires before[k].timestamp <= MAX_SAFE_INTEGER
    ensures g.channel == channel && before[g].timestamp <= MAX_SAFE_INTEGER
    ensures after[k] == before[k] && before[g].timestamp <= before[k].timestamp
    ensures before[g].timestamp == before[k].timestamp ==> g.id < k.id
  {
    var range, gone := InRange(before, channel), before.Keys - after.Keys;
    assert g in gone && k in range - gone;
    assert Earlier(before, g, k);
  }

  /** Eviction brings a channel within its bound. */
  lemma EvictionBounds(before: Messages, after: Messages, channel: string)
    requires EvictionOf(before, after, channel)
    ensures |InRange(after, channel)| == Min(|InRange(before, channel)|, MAX_MESSAGES_PER_CHANNEL)
  {
    var gone := before.Keys - after.Keys;
    var range := InRange(before, channel);
    assert InRange(after, channel) == range - gone;
    assert |range - gone| == |range| - |gone|;
  }

  /** It touches no other channel. */
  lemma EvictionSparesOthers(before: Messages, after: Messages, channel: string, k: MessageKey)
    requires EvictionOf(before, after, channel) && k.channel != channel
    ensures k in after <==> k in before
    ensures k in before ==> after[k] == before[k]
  {
    assert k !in InRange(before, channel);
  }

  lemma EvictNone(before: Messages, range: set<MessageKey>)
    requires range <= before.Keys
    ensures range - range == {} && before - {} == before && AllEarlier(before, range - range, range)
  {
  }

  lemma EvictOne(before: Messages, range: set<MessageKey>, rest: set<MessageKey>, k: MessageKey)
    requires rest <= range <= before.Keys && k in rest
    requires AllEarlier(before, range - rest, rest) && AllEarlier(before, {k}, rest - {k})
    ensures |rest - {k}| == |rest| - 1
    ensures AllEarlier(before, range - (rest - {k}), rest - {k})
    ensures (before - (range - rest)) - {k} == before - (range - (rest - {k}))
  {
    assert range - (rest - {k}) == (range - rest) + {k};
  }

  lemma EvictDone(before: Messages, rest: set<MessageKey>, channel: string)
    requires
      var range := InRange(before, channel);
      rest <= range && |rest| == |range| - Excess(|range|) && AllEarlier(before, range - rest, rest)
    ensures
      var range := InRange(before, channel);
      var after := before - (range - rest);
      EvictionOf(before, after, channel) && |before.Keys - after.Keys| == |range| - |rest|
  {
    var range := InRange(before, channel);
    var gone := range - rest;
    assert before.Keys - (before - gone).Keys == gone;
    assert range == gone + rest && range - gone == rest;
  }

  // ---- The queue ----

  predicate Ordered(queue: seq<Queued>) {
    forall i, j | 0 <= i < j < |queue| :: queue[i].id < queue[j].id
  }

  predicate Ascending(queue: seq<Queued>, nextId: nat) {
    && Ordered(queue)
    && (forall i | 0 <= i < |queue| :: queue[i].id < nextId)
  }

  function Above(queue: seq<Queued>, upToId: nat): seq<Queued> {
    if queue == [] then []
    else (if queue[0].id > upToId then [queue[0]] else []) + Above(queue[1..], upToId)
  }

  lemma {:induction false} AboveAll(queue: seq<Queued>, upToId: nat)
    requires forall i | 0 <= i < |queue| :: queue[i].id > upToId
    ensures Above(queue, upToId) == queue
  {
    if queue != [] {
      AboveAll(queue[1..], upToId);
      assert queue == [queue[0]] + queue[1..];
    }
  }

  /** When the first `n` are those up to the id, deleting drops exactly them. */
  lemma {:induction false} AboveIsSuffix(queue: seq<Queued>, upToId: nat, n: nat)
    requires n <= |queue|
    requires forall i | 0 <= i < n :: queue[i].id <= upToId
    requires forall i | n <= i < |queue| :: queue[i].id > upToId
    ensures Above(queue, upToId) == queue[n..]
  {
    if n == 0 {
      AboveAll(queue, upToId);
    } else {
      AboveIsSuffix(queue[1..], upToId, n - 1);
      assert queue[1..][n - 1..] == queue[n..];
    }
  }

  lemma {:induction false} AboveMembers(queue: seq<Queued>, upToId: nat)
    ensures forall q :: q in Above(queue, upToId) <==> q in queue && q.id > upToId
  {
    if queue != [] {
      AboveMembers(queue[1..], upToId);
      assert queue == [queue[0]] + queue[1..];
    }
  }

  lemma ConsOrdered(q: Queued, rest: seq<Queued>)
    requires Ordered(rest)
    ensures (forall r | r in rest :: q.id < r.id) ==> Ordered([q] + rest)
  {
  }

  lemma {:induction false} AboveIsOrdered(queue: seq<Queued>, upToId: nat)
    requires Ordered(queue)
    ensures Ordered(Above(queue, upToId))
  {
    if queue != [] {
      AboveIsOrdered(queue[1..], upToId);
      AboveMembers(queue[1..], upToId);
      ConsOrdered(queue[0], Above(queue[1..], upToId));
    }
  }

  class LocalStore {
    var messages: Messages
    var syncState: map<string, nat>
    var queue: seq<Queued>
    var nextId: nat

    ghost predicate Valid()
      reads this
    {
      Ascending(queue, nextId)
    }

    constructor ()
      ensures Valid() && messages == map[] && syncState == map[] && queue == [] && nextId == 1
    {
      messages, syncState, queue, nextId := map[], map[], [], 1;
    }

    method WriteMessage(k: MessageKey, msg: Stored)
      modifies this`messages
      ensures messages == old(messages)[k := msg]
    {
      messages := messages[k := msg];
    }

    method EvictOldMessages(channel: string) returns (deleted: nat)
      modifies this`messages
      ensures EvictionOf(old(messages), messages, channel)
      ensures deleted == |old(messages).Keys - messages.Keys|
    {
      var before := messages;
      var range := InRange(messages, channel);
      var rest := range;
      deleted := 0;
      EvictNone(before, range);
      if |range| > MAX_MESSAGES_PER_CHANNEL {
        var toDelete := |range| - MAX_MESSAGES_PER_CHANNEL;
        while rest != {} && deleted < toDelete
          invariant rest <= range && |rest| == |range| - deleted
          invariant deleted <= toDelete
          invariant messages == before - (range - rest)
          invariant AllEarlier(before, range - rest, rest)
          decreases rest
        {
          HasEarliest(before, channel, rest);
          var k :| k in rest && AllEarlier(before, {k}, rest - {k});
          EvictOne(before, range, rest, k);
          messages := messages - {k};
          rest := rest - {k};
          deleted := deleted + 1;
        }
      }
      EvictDone(before, rest, channel);
    }

    method GetSyncState(channel: string) returns (wall: Option<nat>)
      ensures wall == if channel in syncState then Some(syncState[channel]) else None
    {
      wall := if channel in syncState then Some(syncState[channel]) else None;
    }

    method SetSyncState(channel: string, wall: nat)
      modifies this`syncState
      ensures syncState == old(syncState)[channel := wall]
    {
      syncState := syncState[channel := wall];
    }

    method Enqueue(channel: string, event: string, payload: Bytes, createdAt: nat)
      requires Valid()
      modifies this`queue, this`nextId
      ensures Valid()
      ensures queue == old(queue) + [Queued(old(nextId), channel, event, payload, createdAt)]
      ensures nextId == old(nextId) + 1
    {
      queue := queue + [Queued(nextId, channel, event, payload, createdAt)];
      nextId := nextId + 1;
    }

    /** A cursor over the queue that stops after `count` results. */
    method Dequeue(count: nat) returns (results: seq<Queued>)
      ensures results == Take(queue, count)
    {
      results := [];
      var cursor := 0;
      while cursor < |queue| && |results| < count
        invariant cursor <= |queue|
        invariant results == queue[..cursor] && cursor <= count
      {
        results := results + [queue[cursor]];
        cursor := cursor + 1;
      }
    }

    method ClearQueue(upToId: nat)
      requires Valid()
      modifies this`queue
      ensures Valid()
      ensures queue == Above(old(queue), upToId)
    {
      AboveIsOrdered(queue, upToId);
      AboveMembers(queue, upToId);
      assert forall i | 0 <= i < |queue| :: queue[i] in queue;
      queue := Above(queue, upToId);
      assert forall i | 0 <= i < |queue| :: queue[i] in queue;
    }

    method QueueSize() returns (size: nat)
      ensures size == |queue|
    {
      size := |queue|;
    }
  }
}
