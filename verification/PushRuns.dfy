/** The offline queue and the server's table together: a device queues, drains
    and pushes batches, any push may be cut anywhere or lose its answer, and only
    an answered push is acknowledged (`sdks/mercury-sdk-js/src/sync.ts`,
    `apps/persistence/lib/persistence/sync.ex`). */
module PushRuns {
  import opened Base
  import opened ClientStore
  import opened MessageTable
  import opened SyncEngine
  import A = DeltaApply
  import Q = QueueRuns

  /** `others`: the keys that somebody else has written. */
  datatype World = World(device: Q.Device, table: Table, others: set<Key>)

  /** `Local`: a step of the device alone; `Cut`: the server applies the first
      `reached` deltas of a batch, and no answer arrives; `Answered`: it applies
      all, and the answer arrives; `Elsewhere`: a write by somebody else. */
  datatype Event =
    | Local(e: Q.Event)
    | Cut(sync: nat, reached: nat, readings: seq<A.Reading>)
    | Answered(sync: nat, readings: seq<A.Reading>)
    | Elsewhere(k: Key, row: Row)

  const Initial := World(Q.Initial, map[], {})

  /** What the items of a batch say, given what their payloads say. */
  function Said(says: Queued -> A.Delta, items: seq<Queued>): seq<A.Delta> {
    seq(|items|, i requires 0 <= i < |items| => says(items[i]))
  }

  function Step(w: World, e: Event, place: Place, says: Queued -> A.Delta): Option<World> {
    match e
    case Local(x) =>
      if x.Accepted? then None
      else
        (match Q.Step(w.device, x)
         case None => None
         case Some(d) => Some(w.(device := d)))
    case Cut(sync, reached, readings) =>
      if sync !in w.device.inFlight || reached > |w.device.inFlight[sync].items| || |readings| != reached then None
      else
        var ds := Said(says, w.device.inFlight[sync].items[..reached]);
        Some(w.(table := A.Applying(w.table, place, ds, readings)))
    case Answered(sync, readings) =>
      if sync !in w.device.inFlight || |readings| != |w.device.inFlight[sync].items| then None
      else
        var ds := Said(says, w.device.inFlight[sync].items);
        Some(World(Q.Step(w.device, Q.Accepted(sync)).value, A.Applying(w.table, place, ds, readings), w.others))
    case Elsewhere(k, row) => Some(w.(table := w.table[k := row], others := w.others + {k}))
  }

  function Run(events: seq<Event>, place: Place, says: Queued -> A.Delta): Option<World> {
    if events == [] then Some(Initial)
    else
      var n := |events| - 1;
      match Run(events[..n], place, says)
      case None => None
      case Some(w) => Step(w, events[n], place, says)
  }

  /** Payloads carry the id and the time of their message. */
  ghost predicate Names(says: Queued -> A.Delta) {
    forall q :: A.Named(says(q))
  }

  predicate Queues(e: Event, channel: string) {
    e.Local? && e.e.Enqueue? ==> e.e.channel == channel
  }

  // ---- A batch on the table ----

  lemma SaidIsNamed(says: Queued -> A.Delta, items: seq<Queued>)
    requires Names(says)
    ensures A.AllNamed(Said(says, items))
  {
  }

  ghost predicate Written(place: Place, ds: seq<A.Delta>, k: Key, row: Row)
    requires A.AllNamed(ds)
  {
    exists i :: 0 <= i < |ds| && A.KeyOfDelta(place, ds[i]) == k && A.Settled(ds[i]) == row
  }

  lemma {:induction false} EffectIsWritten(place: Place, ds: seq<A.Delta>)
    requires A.AllNamed(ds)
    ensures forall k | k in A.Effect(place, ds) :: Written(place, ds, k, A.Effect(place, ds)[k])
    ensures forall i | 0 <= i < |ds| :: A.KeyOfDelta(place, ds[i]) in A.Effect(place, ds)
  {
    if ds != [] {
      var n := |ds| - 1;
      EffectIsWritten(place, ds[..n]);
      var part, all := A.Effect(place, ds[..n]), A.Effect(place, ds);
      forall k | k in all ensures Written(place, ds, k, all[k]) {
        if k != A.KeyOfDelta(place, ds[n]) {
          assert Written(place, ds[..n], k, part[k]);
          var i :| 0 <= i < n && A.KeyOfDelta(place, ds[..n][i]) == k && A.Settled(ds[..n][i]) == part[k];
          assert ds[i] == ds[..n][i];
        } else {
          assert A.Settled(ds[n]) == all[k];
        }
      }
      forall i | 0 <= i < |ds| ensures A.KeyOfDelta(place, ds[i]) in all {
        if i < n { assert ds[..n][i] == ds[i]; }
      }
    }
  }

  /** The table holds a row under the item's key: somebody else's, or what an item
      of that key says. */
  ghost predicate Landed(
    t: Table, others: set<Key>, history: seq<Queued>, place: Place, says: Queued -> A.Delta, k: Key)
    requires Names(says)
  {
    k in t && (k in others || Says(history, place, says, k, t[k].(receivedAt := 0)))
  }

  ghost predicate Says(history: seq<Queued>, place: Place, says: Queued -> A.Delta, k: Key, row: Row)
    requires Names(says)
  {
    exists q :: q in history && A.KeyOfDelta(place, says(q)) == k && A.Settled(says(q)) == row
  }

  lemma BatchSays(
    history: seq<Queued>, place: Place, says: Queued -> A.Delta, items: seq<Queued>, k: Key, row: Row)
    requires Names(says) && A.AllNamed(Said(says, items)) && forall q | q in items :: q in history
    requires Written(place, Said(says, items), k, row)
    ensures Says(history, place, says, k, row)
  {
    var ds := Said(says, items);
    var i :| 0 <= i < |ds| && A.KeyOfDelta(place, ds[i]) == k && A.Settled(ds[i]) == row;
    assert items[i] in items && ds[i] == says(items[i]);
  }

  /** After a batch every row it did not write is as before, the others are its. */
  lemma ApplyingRow(t: Table, place: Place, ds: seq<A.Delta>, rs: seq<A.Reading>, k: Key)
    requires |ds| == |rs| && A.AllNamed(ds)
    ensures
      var u, effect := A.Applying(t, place, ds, rs), A.Effect(place, ds);
      && (k in u <==> k in t || k in effect)
      && (k in effect ==> u[k].(receivedAt := 0) == effect[k])
      && (k in t && k !in effect ==> u[k].(receivedAt := 0) == t[k].(receivedAt := 0))
  {
    var u, effect := A.Applying(t, place, ds, rs), A.Effect(place, ds);
    A.ApplyingOverlays(t, place, ds, rs);
    assert k in A.Strip(u) <==> k in A.Strip(t) + effect;
    assert k in u ==> A.Strip(u)[k] == (A.Strip(t) + effect)[k];
  }

  lemma BatchKeepsLanded(
    t: Table, others: set<Key>, history: seq<Queued>, place: Place, says: Queued -> A.Delta,
    items: seq<Queued>, rs: seq<A.Reading>, k: Key)
    requires Names(says) && |items| == |rs| && forall q | q in items :: q in history
    requires Landed(t, others, history, place, says, k) || k in A.Effect(place, SaidOf(says, items))
    ensures Landed(A.Applying(t, place, Said(says, items), rs), others, history, place, says, k)
  {
    var ds := SaidOf(says, items);
    ApplyingRow(t, place, ds, rs, k);
    EffectIsWritten(place, ds);
    if k in A.Effect(place, ds) {
      BatchSays(history, place, says, items, k, A.Effect(place, ds)[k]);
    }
  }

  ghost function SaidOf(says: Queued -> A.Delta, items: seq<Queued>): (ds: seq<A.Delta>)
    requires Names(says)
    ensures ds == Said(says, items) && A.AllNamed(ds)
  {
    SaidIsNamed(says, items);
    Said(says, items)
  }

  // ---- The invariant ----

  ghost predicate InHistory(d: Q.Device) {
    forall s | s in d.inFlight :: forall q | q in d.inFlight[s].items :: q in d.history
  }

  ghost predicate AllLanded(w: World, place: Place, says: Queued -> A.Delta)
    requires Names(says)
  {
    forall q | q in w.device.history && q.id in w.device.pushed ::
      Landed(w.table, w.others, w.device.history, place, says, A.KeyOfDelta(place, says(q)))
  }

  ghost predicate DeviceInv(d: Q.Device, channel: string) {
    Q.QueueInv(d) && Q.BatchInv(d) && Q.Accounted(d) && Q.SameChannel(d, channel) && InHistory(d)
  }

  lemma DrainInHistory(d: Q.Device, channel: string, q: Queued)
    requires Q.QueueInv(d) && q in Batch(d.queue, channel)
    ensures q in d.history
  {
    Q.OnlyOfMembers(channel, Take(d.queue, DRAIN_BATCH_SIZE));
    assert q in d.queue;
  }

  lemma DeviceKeepsHistory(d: Q.Device, e: Q.Event)
    requires Q.QueueInv(d) && InHistory(d) && Q.Step(d, e).Some?
    ensures InHistory(Q.Step(d, e).value)
    ensures forall q | q in d.history :: q in Q.Step(d, e).value.history
  {
    if e.Drain? {
      forall q | q in Batch(d.queue, e.channel) ensures q in d.history {
        DrainInHistory(d, e.channel, q);
      }
    }
  }

  lemma DeviceKeepsInv(d: Q.Device, e: Q.Event, channel: string)
    requires DeviceInv(d, channel) && Q.Step(d, e).Some? && (e.Enqueue? ==> e.channel == channel)
    ensures DeviceInv(Q.Step(d, e).value, channel)
  {
    Q.StepKeepsInv(d, e);
    Q.AccountStep(d, e, channel);
    DeviceKeepsHistory(d, e);
  }

  lemma LandedKeeps(
    t: Table, others: set<Key>, history: seq<Queued>, more: seq<Queued>, place: Place, says: Queued -> A.Delta, k: Key)
    requires Names(says) && Landed(t, others, history, place, says, k)
    requires forall q | q in history :: q in more
    ensures Landed(t, others, more, place, says, k)
  {
    if k !in others {
      var q :| q in history && A.KeyOfDelta(place, says(q)) == k && A.Settled(says(q)) == t[k].(receivedAt := 0);
      assert q in more;
    }
  }

  /** An item that a local step adds is not pushed yet. */
  lemma LocalKeepsLanded(w: World, e: Q.Event, place: Place, says: Queued -> A.Delta)
    requires Names(says) && Q.QueueInv(w.device) && InHistory(w.device) && AllLanded(w, place, says)
    requires !e.Accepted? && Q.Step(w.device, e).Some? && PushedInHistory(w.device)
    ensures AllLanded(w.(device := Q.Step(w.device, e).value), place, says)
  {
    var d' := Q.Step(w.device, e).value;
    DeviceKeepsHistory(w.device, e);
    forall q | q in d'.history && q.id in d'.pushed
      ensures Landed(w.table, w.others, d'.history, place, says, A.KeyOfDelta(place, says(q)))
    {
      assert q in w.device.history;
      LandedKeeps(w.table, w.others, w.device.history, d'.history, place, says, A.KeyOfDelta(place, says(q)));
    }
  }

  ghost predicate PushedInHistory(d: Q.Device) {
    forall id | id in d.pushed :: id <= |d.history|
  }

  lemma StepKeepsPushed(d: Q.Device, e: Q.Event)
    requires Q.QueueInv(d) && InHistory(d) && PushedInHistory(d) && Q.Step(d, e).Some?
    ensures PushedInHistory(Q.Step(d, e).value)
  {
    if e.Accepted? {
      forall q | q in d.inFlight[e.sync].items ensures q.id <= |d.history| {
        assert q in d.history;
      }
    }
  }

  lemma BatchKeepsAll(w: World, items: seq<Queued>, rs: seq<A.Reading>, place: Place, says: Queued -> A.Delta)
    requires Names(says) && |items| == |rs| && AllLanded(w, place, says)
    requires forall q | q in items :: q in w.device.history
    ensures AllLanded(w.(table := A.Applying(w.table, place, Said(says, items), rs)), place, says)
  {
    forall q | q in w.device.history && q.id in w.device.pushed
      ensures
        Landed(A.Applying(w.table, place, Said(says, items), rs), w.others, w.device.history, place, says,
               A.KeyOfDelta(place, says(q)))
    {
      BatchKeepsLanded(w.table, w.others, w.device.history, place, says, items, rs, A.KeyOfDelta(place, says(q)));
    }
  }

  lemma ItemsLand(
    t: Table, others: set<Key>, history: seq<Queued>, place: Place, says: Queued -> A.Delta,
    items: seq<Queued>, rs: seq<A.Reading>, q: Queued)
    requires Names(says) && |items| == |rs| && q in items && forall x | x in items :: x in history
    ensures
      Landed(A.Applying(t, place, Said(says, items), rs), others, history, place, says, A.KeyOfDelta(place, says(q)))
  {
    var ds := SaidOf(says, items);
    EffectIsWritten(place, ds);
    var i :| 0 <= i < |items| && items[i] == q;
    assert ds[i] == says(q);
    BatchKeepsLanded(t, others, history, place, says, items, rs, A.KeyOfDelta(place, says(q)));
  }

  lemma AnsweredLands(w: World, sync: nat, rs: seq<A.Reading>, place: Place, says: Queued -> A.Delta)
    requires Names(says) && Q.QueueInv(w.device) && InHistory(w.device) && AllLanded(w, place, says)
    requires sync in w.device.inFlight && |rs| == |w.device.inFlight[sync].items|
    ensures AllLanded(Step(w, Answered(sync, rs), place, says).value, place, says)
  {
    var items := w.device.inFlight[sync].items;
    var w' := Step(w, Answered(sync, rs), place, says).value;
    BatchKeepsAll(w, items, rs, place, says);
    forall q | q in w'.device.history && q.id in w'.device.pushed
      ensures Landed(w'.table, w'.others, w'.device.history, place, says, A.KeyOfDelta(place, says(q)))
    {
      if q.id !in w.device.pushed {
        var x :| x in items && x.id == q.id;
        assert x in w.device.history;
        ItemsLand(w.table, w.others, w.device.history, place, says, items, rs, q);
      }
    }
  }

  lemma ElsewhereKeepsAll(w: World, k: Key, row: Row, place: Place, says: Queued -> A.Delta)
    requires Names(says) && AllLanded(w, place, says)
    ensures AllLanded(Step(w, Elsewhere(k, row), place, says).value, place, says)
  {
  }

  ghost predicate Inv(w: World, place: Place, channel: string, says: Queued -> A.Delta)
    requires Names(says)
  {
    DeviceInv(w.device, channel) && PushedInHistory(w.device) && AllLanded(w, place, says)
  }

  lemma StepKeepsInv(w: World, e: Event, place: Place, channel: string, says: Queued -> A.Delta)
    requires Names(says) && Inv(w, place, channel, says)
    requires Step(w, e, place, says).Some? && Queues(e, channel)
    ensures Inv(Step(w, e, place, says).value, place, channel, says)
  {
    match e
    case Local(x) =>
      DeviceKeepsInv(w.device, x, channel);
      StepKeepsPushed(w.device, x);
      LocalKeepsLanded(w, x, place, says);
    case Cut(sync, reached, readings) =>
      var items := w.device.inFlight[sync].items;
      assert forall q | q in items[..reached] :: q in items;
      BatchKeepsAll(w, items[..reached], readings, place, says);
    case Answered(sync, readings) =>
      DeviceKeepsInv(w.device, Q.Accepted(sync), channel);
      StepKeepsPushed(w.device, Q.Accepted(sync));
      AnsweredLands(w, sync, readings, place, says);
    case Elsewhere(k, row) => ElsewhereKeepsAll(w, k, row, place, says);
  }

  lemma {:induction false} RunKeepsInv(events: seq<Event>, place: Place, channel: string, says: Queued -> A.Delta)
    requires Names(says) && Run(events, place, says).Some? && forall e | e in events :: Queues(e, channel)
    ensures Inv(Run(events, place, says).value, place, channel, says)
  {
    if events != [] {
      var n := |events| - 1;
      RunKeepsInv(events[..n], place, channel, says);
      StepKeepsInv(Run(events[..n], place, says).value, events[n], place, channel, says);
    }
  }

  // ---- Main results ----

  /** With one queueing channel, whatever crashes came between pushes and their
      answers: an item is still queued, gave way at capacity, or its message is in
      the server's table. */
  lemma QueuedMessagesArrive(
    events: seq<Event>, place: Place, channel: string, says: Queued -> A.Delta, q: Queued)
    requires Names(says) && Run(events, place, says).Some? && forall e | e in events :: Queues(e, channel)
    requires q in Run(events, place, says).value.device.history
    ensures
      var w := Run(events, place, says).value;
      || q in w.device.queue
      || q.id in w.device.dropped
      || Landed(w.table, w.others, w.device.history, place, says, A.KeyOfDelta(place, says(q)))
  {
    var w := Run(events, place, says).value;
    RunKeepsInv(events, place, channel, says);
    var d := w.device;
    var i :| 0 <= i < |d.history| && d.history[i] == q;
    if i >= Q.Gone(d) {
      assert d.queue[i - Q.Gone(d)] == q;
    }
  }

  /** When nobody else and no other item uses its key, the row is the item's own,
      apart from the time of receipt. */
  lemma MessagesArriveUnchanged(
    events: seq<Event>, place: Place, channel: string, says: Queued -> A.Delta, q: Queued)
    requires Names(says) && Run(events, place, says).Some? && forall e | e in events :: Queues(e, channel)
    requires
      var w := Run(events, place, says).value;
      var k := A.KeyOfDelta(place, says(q));
      && q in w.device.history && k !in w.others
      && forall x | x in w.device.history && x != q :: A.KeyOfDelta(place, says(x)) != k
    ensures
      var w := Run(events, place, says).value;
      var k := A.KeyOfDelta(place, says(q));
      || q in w.device.queue
      || q.id in w.device.dropped
      || (k in w.table && w.table[k].(receivedAt := 0) == A.Settled(says(q)))
  {
    QueuedMessagesArrive(events, place, channel, says, q);
  }

  /** A batch is never too large for the server. */
  lemma {:induction false} OnlyOfNoLonger(channel: string, items: seq<Queued>)
    ensures |OnlyOf(channel, items)| <= |items|
  {
    if items != [] {
      OnlyOfNoLonger(channel, items[1..]);
    }
  }

  lemma BatchIsAccepted(queue: seq<Queued>, channel: string, says: Queued -> A.Delta)
    ensures |Said(says, Batch(queue, channel))| <= DRAIN_BATCH_SIZE < A.MAX_PUSH
  {
    OnlyOfNoLonger(channel, Take(queue, DRAIN_BATCH_SIZE));
  }
}
