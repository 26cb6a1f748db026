/** Runs of devices that share a message log and a last-writer-wins name.

    Every device stamps its writes with its own, freshly ticked clock. Packets
    carry a copy of a device's clock, log (or its entries after some stamp)
    and register, and are delivered in any order, any number of times, or
    never. Devices do not restart. */
module Replication {
  import opened Base
  import opened Clock
  import opened LogAssociativity
  import opened LwwRegister
  import opened MessageLog
  import Joins

  /** `absorbed` and `heard` are history: the appends, and the register writes,
      that causally reached this state, whatever the log did with them. */
  datatype Replica = Replica(
    clock: Stamp,
    log: Entries,
    name: Register<Bytes>,
    absorbed: set<Stamp>,
    heard: set<Stamp>)

  /** History too: every append and every register write made so far, and the
      number of calls of `append`. */
  datatype History = History(appended: Entries, written: map<Stamp, Bytes>, appends: nat)

  datatype Net = Net(replicas: map<NodeId, Replica>, packets: seq<Replica>, h: History)

  datatype Event =
    | Start(node: NodeId, now: U64, name: Bytes)
    | Append(node: NodeId, now: U64, data: Bytes)
    | Rename(node: NodeId, now: U64, name: Bytes)
    | Send(node: NodeId, since: Option<Stamp>)
    | Deliver(node: NodeId, packet: nat, now: U64)

  const NoNet := Net(map[], [], History(map[], map[], 0))

  function Newborn(n: NodeId, now: U64, name: Bytes): Replica {
    var s := Stamp(now, 0, n);
    Replica(s, map[], Register(name, s), {}, {s})
  }

  /** `MessageLog::append` on a value. */
  function Appending(log: Entries, s: Stamp, data: Bytes): Entries {
    if |log| >= MAX_LOG_ENTRIES then log else log[s := data]
  }

  function Appended(r: Replica, s: Stamp, data: Bytes): Replica {
    r.(clock := s, log := Appending(r.log, s, data), absorbed := r.absorbed + {s})
  }

  function Renamed(r: Replica, s: Stamp, name: Bytes): Replica {
    r.(clock := s, name := Later(r.name, Register(name, s)), heard := r.heard + {s})
  }

  function WithAppend(h: History, s: Stamp, data: Bytes): History {
    h.(appended := h.appended[s := data], appends := h.appends + 1)
  }

  function WithWrite(h: History, s: Stamp, name: Bytes): History {
    h.(written := h.written[s := name])
  }

  function With(net: Net, n: NodeId, r: Replica, h: History): Net {
    Net(net.replicas[n := r], net.packets, h)
  }

  function Packed(r: Replica, since: Option<Stamp>): Replica {
    match since
    case None => r
    case Some(t) => r.(log := After(r.log, t), absorbed := set s | s in r.absorbed && Less(t, s))
  }

  ghost function Received(r: Replica, p: Replica, now: U64): Replica {
    Replica(Merged(r.clock, p.clock, now), CappedMerge(r.log, p.log), Later(r.name, p.name),
            r.absorbed + p.absorbed, r.heard + p.heard)
  }

  function AppendedAt(net: Net, n: NodeId, s: Stamp, data: Bytes): Net
    requires n in net.replicas
  {
    With(net, n, Appended(net.replicas[n], s, data), WithAppend(net.h, s, data))
  }

  function RenamedAt(net: Net, n: NodeId, s: Stamp, name: Bytes): Net
    requires n in net.replicas
  {
    With(net, n, Renamed(net.replicas[n], s, name), WithWrite(net.h, s, name))
  }

  function StartedAt(net: Net, n: NodeId, now: U64, name: Bytes): Net {
    var r := Newborn(n, now, name);
    With(net, n, r, WithWrite(net.h, r.clock, name))
  }

  function SentFrom(net: Net, n: NodeId, since: Option<Stamp>): Net
    requires n in net.replicas
  {
    net.(packets := net.packets + [Packed(net.replicas[n], since)])
  }

  ghost function DeliveredTo(net: Net, n: NodeId, p: Replica, now: U64): Net
    requires n in net.replicas
  {
    With(net, n, Received(net.replicas[n], p, now), net.h)
  }

  ghost function Step(net: Net, e: Event): Option<Net> {
    if e.Start? then
      if e.node in net.replicas then None else Some(StartedAt(net, e.node, e.now, e.name))
    else if e.node !in net.replicas then None
    else
      var r := net.replicas[e.node];
      match e
      case Append(n, now, data) =>
        (match Ticked(r.clock, now)
         case None => None
         case Some(s) => Some(AppendedAt(net, n, s, data)))
      case Rename(n, now, name) =>
        (match Ticked(r.clock, now)
         case None => None
         case Some(s) => Some(RenamedAt(net, n, s, name)))
      case Send(n, since) => Some(SentFrom(net, n, since))
      case Deliver(n, k, now) =>
        if k >= |net.packets| then None
        else Some(DeliveredTo(net, n, net.packets[k], now))
  }

  ghost function Run(events: seq<Event>): Option<Net> {
    if events == [] then Some(NoNet)
    else
      match Run(events[..|events| - 1])
      case None => None
      case Some(net) => Step(net, events[|events| - 1])
  }

  // ---- The invariant ----

  ghost predicate PartOf<V>(m: map<Stamp, V>, all: map<Stamp, V>) {
    forall k | k in m :: k in all && m[k] == all[k]
  }

  /** What holds of a device, and of a packet, after `steps` events. */
  ghost predicate GoodHolder(h: History, r: Replica, steps: nat) {
    && r.clock.counter <= steps
    && PartOf(r.log, h.appended)
    && r.log.Keys <= r.absorbed
    && r.absorbed <= h.appended.Keys
    && r.name.timestamp in h.written && h.written[r.name.timestamp] == r.name.value
    && r.name.timestamp in r.heard
    && r.heard <= h.written.Keys
    && (forall t | t in r.heard :: AtMost(t, r.name.timestamp))
    && (h.appends <= MAX_LOG_ENTRIES ==> r.log.Keys == r.absorbed)
  }

  ghost predicate GoodReplicas(h: History, replicas: map<NodeId, Replica>, steps: nat) {
    forall n | n in replicas :: replicas[n].clock.node == n && GoodHolder(h, replicas[n], steps)
  }

  ghost predicate GoodPackets(h: History, packets: seq<Replica>, steps: nat) {
    forall p | p in packets :: GoodHolder(h, p, steps)
  }

  /** Every one of the stamps is covered by the clock of the node that made it. */
  ghost predicate Covered(replicas: map<NodeId, Replica>, ks: set<Stamp>) {
    forall k | k in ks :: k.node in replicas && !Before(replicas[k.node].clock, k)
  }

  ghost predicate Inv(net: Net, steps: nat) {
    && GoodReplicas(net.h, net.replicas, steps)
    && GoodPackets(net.h, net.packets, steps)
    && Covered(net.replicas, net.h.appended.Keys)
    && Covered(net.replicas, net.h.written.Keys)
    && |net.h.appended.Keys| <= net.h.appends
  }

  ghost predicate Grows(h: History, h': History) {
    PartOf(h.appended, h'.appended) && PartOf(h.written, h'.written) && h.appends <= h'.appends
  }

  lemma HolderKeeps(h: History, h': History, r: Replica, steps: nat)
    requires GoodHolder(h, r, steps) && Grows(h, h')
    ensures GoodHolder(h', r, steps + 1)
  {
  }

  lemma PacketsKeep(h: History, h': History, packets: seq<Replica>, steps: nat)
    requires GoodPackets(h, packets, steps) && Grows(h, h')
    ensures GoodPackets(h', packets, steps + 1)
  {
    forall p | p in packets ensures GoodHolder(h', p, steps + 1) {
      HolderKeeps(h, h', p, steps);
    }
  }

  lemma ReplicasKeep(h: History, h': History, replicas: map<NodeId, Replica>, n: NodeId, r: Replica, steps: nat)
    requires GoodReplicas(h, replicas, steps) && Grows(h, h')
    requires GoodHolder(h', r, steps + 1) && r.clock.node == n
    ensures GoodReplicas(h', replicas[n := r], steps + 1)
  {
    forall m | m in replicas && m != n ensures GoodHolder(h', replicas[m], steps + 1) {
      HolderKeeps(h, h', replicas[m], steps);
    }
  }

  lemma ReplicasAge(h: History, replicas: map<NodeId, Replica>, steps: nat)
    requires GoodReplicas(h, replicas, steps)
    ensures GoodReplicas(h, replicas, steps + 1)
  {
    forall m | m in replicas ensures GoodHolder(h, replicas[m], steps + 1) {
      HolderKeeps(h, h, replicas[m], steps);
    }
  }

  /** A device whose clock did not move back covers what it covered, and a
      stamp equal to its clock. */
  lemma CoveredKeeps(replicas: map<NodeId, Replica>, n: NodeId, r: Replica, ks: set<Stamp>, ks': set<Stamp>)
    requires Covered(replicas, ks) && ks' <= ks + {r.clock}
    requires r.clock.node == n && (n in replicas ==> Before(replicas[n].clock, r.clock))
    ensures Covered(replicas[n := r], ks')
  {
  }

  /** A stamp past its node's clock has never been used. */
  lemma FreshStamp(replicas: map<NodeId, Replica>, s: Stamp, ks: set<Stamp>)
    requires Covered(replicas, ks)
    requires s.node in replicas ==> Before(replicas[s.node].clock, s)
    ensures s !in ks
  {
  }

  /** One device moves on, its clock advances: the rest is kept. */
  lemma WithKeepsInv(net: Net, n: NodeId, r: Replica, h: History, steps: nat)
    requires Inv(net, steps) && Grows(net.h, h)
    requires GoodHolder(h, r, steps + 1) && r.clock.node == n
    requires n in net.replicas ==> Before(net.replicas[n].clock, r.clock)
    requires h.appended.Keys <= net.h.appended.Keys + {r.clock}
    requires h.written.Keys <= net.h.written.Keys + {r.clock}
    requires |h.appended.Keys| <= h.appends
    ensures Inv(With(net, n, r, h), steps + 1)
  {
    ReplicasKeep(net.h, h, net.replicas, n, r, steps);
    PacketsKeep(net.h, h, net.packets, steps);
    CoveredKeeps(net.replicas, n, r, net.h.appended.Keys, h.appended.Keys);
    CoveredKeeps(net.replicas, n, r, net.h.written.Keys, h.written.Keys);
  }

  lemma AppendedHolds(h: History, r: Replica, s: Stamp, data: Bytes, steps: nat)
    requires GoodHolder(h, r, steps)
    requires s !in h.appended && s.counter <= steps + 1
    requires |h.appended.Keys| <= h.appends
    ensures GoodHolder(WithAppend(h, s, data), Appended(r, s, data), steps + 1)
  {
    if h.appends + 1 <= MAX_LOG_ENTRIES {
      SubsetSize(r.log.Keys, h.appended.Keys);
      assert |r.log| == |r.log.Keys|;
    }
  }

  lemma RenamedHolds(h: History, r: Replica, s: Stamp, name: Bytes, steps: nat)
    requires GoodHolder(h, r, steps)
    requires s !in h.written && s.counter <= steps + 1
    ensures GoodHolder(WithWrite(h, s, name), Renamed(r, s, name), steps + 1)
  {
    var h', r' := WithWrite(h, s, name), Renamed(r, s, name);
    assert Grows(h, h');
    LessIsStrictTotalOrder(s, r.name.timestamp, s);
    forall t | t in r'.heard ensures AtMost(t, r'.name.timestamp) {
      if t != s { LessIsStrictTotalOrder(t, r.name.timestamp, s); }
    }
  }

  lemma WriteGrows(h: History, s: Stamp, name: Bytes)
    requires s !in h.written
    ensures
      var h' := WithWrite(h, s, name);
      && Grows(h, h')
      && h'.appended.Keys <= h.appended.Keys + {s}
      && h'.written.Keys <= h.written.Keys + {s}
      && h'.appended == h.appended && h'.appends == h.appends
  {
    assert WithWrite(h, s, name).written.Keys == h.written.Keys + {s};
  }

  lemma AppendGrows(h: History, s: Stamp, data: Bytes)
    requires s !in h.appended && |h.appended.Keys| <= h.appends
    ensures
      var h' := WithAppend(h, s, data);
      && Grows(h, h')
      && h'.appended.Keys <= h.appended.Keys + {s}
      && h'.written.Keys <= h.written.Keys + {s}
      && |h'.appended.Keys| <= h'.appends
  {
    assert WithAppend(h, s, data).appended.Keys == h.appended.Keys + {s};
  }

  lemma NewbornHolds(h: History, n: NodeId, now: U64, name: Bytes, steps: nat)
    ensures
      var r := Newborn(n, now, name);
      GoodHolder(WithWrite(h, r.clock, name), r, steps)
  {
  }

  lemma StartKeepsInv(net: Net, n: NodeId, now: U64, name: Bytes, steps: nat)
    requires Inv(net, steps) && n !in net.replicas
    ensures Inv(StartedAt(net, n, now, name), steps + 1)
  {
    var r := Newborn(n, now, name);
    FreshStamp(net.replicas, r.clock, net.h.written.Keys);
    WriteGrows(net.h, r.clock, name);
    NewbornHolds(net.h, n, now, name, steps + 1);
    WithKeepsInv(net, n, r, WithWrite(net.h, r.clock, name), steps);
  }

  lemma AppendKeepsInv(net: Net, n: NodeId, s: Stamp, data: Bytes, steps: nat)
    requires Inv(net, steps) && n in net.replicas
    requires Before(net.replicas[n].clock, s) && s.node == n && s.counter <= steps + 1
    ensures Inv(AppendedAt(net, n, s, data), steps + 1)
  {
    var r, h := Appended(net.replicas[n], s, data), WithAppend(net.h, s, data);
    FreshStamp(net.replicas, s, net.h.appended.Keys);
    AppendedHolds(net.h, net.replicas[n], s, data, steps);
    AppendGrows(net.h, s, data);
    WithKeepsInv(net, n, r, h, steps);
  }

  lemma RenameKeepsInv(net: Net, n: NodeId, s: Stamp, name: Bytes, steps: nat)
    requires Inv(net, steps) && n in net.replicas
    requires Before(net.replicas[n].clock, s) && s.node == n && s.counter <= steps + 1
    ensures Inv(RenamedAt(net, n, s, name), steps + 1)
  {
    var r, h := Renamed(net.replicas[n], s, name), WithWrite(net.h, s, name);
    FreshStamp(net.replicas, s, net.h.written.Keys);
    RenamedHolds(net.h, net.replicas[n], s, name, steps);
    WriteGrows(net.h, s, name);
    WithKeepsInv(net, n, r, h, steps);
  }

  lemma PackedHolds(h: History, r: Replica, since: Option<Stamp>, steps: nat)
    requires GoodHolder(h, r, steps)
    ensures GoodHolder(h, Packed(r, since), steps)
  {
  }

  lemma PacketsGrow(h: History, packets: seq<Replica>, p: Replica, steps: nat)
    requires GoodPackets(h, packets, steps) && GoodHolder(h, p, steps)
    ensures GoodPackets(h, packets + [p], steps)
  {
  }

  lemma SendKeepsInv(net: Net, n: NodeId, since: Option<Stamp>, steps: nat)
    requires Inv(net, steps) && n in net.replicas
    ensures Inv(SentFrom(net, n, since), steps + 1)
  {
    var r := net.replicas[n];
    PackedHolds(net.h, r, since, steps);
    PacketsGrow(net.h, net.packets, Packed(r, since), steps);
    PacketsKeep(net.h, net.h, net.packets + [Packed(r, since)], steps);
    ReplicasAge(net.h, net.replicas, steps);
  }

  /** Logs that are part of one history merge into a part of it; if the history
      is at most the cap, into their union. */
  lemma MergeWithinHistory(a: Entries, b: Entries, all: Entries)
    requires PartOf(a, all) && PartOf(b, all)
    ensures PartOf(CappedMerge(a, b), all) && CappedMerge(a, b).Keys <= a.Keys + b.Keys
    ensures Fits(all.Keys) ==> CappedMerge(a, b).Keys == a.Keys + b.Keys
  {
    TakingOver(a, b, Taken(a, b));
    if Fits(all.Keys) {
      SubsetSize(a.Keys + b.Keys, all.Keys);
      FittingMerge(a, b);
    }
  }

  lemma LaterIsGreatest(r: Replica, p: Replica)
    requires forall t | t in r.heard :: AtMost(t, r.name.timestamp)
    requires forall t | t in p.heard :: AtMost(t, p.name.timestamp)
    ensures forall t | t in r.heard + p.heard :: AtMost(t, Later(r.name, p.name).timestamp)
  {
  }

  lemma MergedCounter(s: Stamp, remote: Stamp, now: U64)
    requires Max(s.counter, remote.counter) + 1 < TWO_TO_32
    ensures Merged(s, remote, now).counter <= Max(s.counter, remote.counter) + 1
  {
  }

  lemma ReceivedLog(h: History, r: Replica, p: Replica, now: U64, steps: nat)
    requires GoodHolder(h, r, steps) && GoodHolder(h, p, steps) && |h.appended.Keys| <= h.appends
    ensures
      var x := Received(r, p, now);
      && PartOf(x.log, h.appended) && x.log.Keys <= x.absorbed <= h.appended.Keys
      && (h.appends <= MAX_LOG_ENTRIES ==> x.log.Keys == x.absorbed)
  {
    MergeWithinHistory(r.log, p.log, h.appended);
  }

  lemma ReceivedName(h: History, r: Replica, p: Replica, now: U64, steps: nat)
    requires GoodHolder(h, r, steps) && GoodHolder(h, p, steps)
    ensures
      var x := Received(r, p, now);
      && x.name.timestamp in h.written && h.written[x.name.timestamp] == x.name.value
      && x.name.timestamp in x.heard && x.heard <= h.written.Keys
      && forall t | t in x.heard :: AtMost(t, x.name.timestamp)
  {
    LaterIsGreatest(r, p);
  }

  lemma ReceivedHolds(h: History, r: Replica, p: Replica, now: U64, steps: nat)
    requires GoodHolder(h, r, steps) && GoodHolder(h, p, steps)
    requires steps + 1 < TWO_TO_32 && |h.appended.Keys| <= h.appends
    ensures GoodHolder(h, Received(r, p, now), steps + 1)
  {
    ReceivedLog(h, r, p, now, steps);
    ReceivedName(h, r, p, now, steps);
    MergedCounter(r.clock, p.clock, now);
  }

  lemma ReceivedClock(r: Replica, p: Replica, now: U64, steps: nat)
    requires r.clock.counter <= steps && p.clock.counter <= steps && steps + 1 < TWO_TO_32
    ensures Before(r.clock, Received(r, p, now).clock)
    ensures Received(r, p, now).clock.node == r.clock.node
  {
    MergePassesBothIff(r.clock, p.clock, now);
  }

  lemma DeliverKeepsInv(net: Net, n: NodeId, p: Replica, now: U64, steps: nat)
    requires Inv(net, steps) && n in net.replicas && p in net.packets && steps + 1 < TWO_TO_32
    ensures Inv(DeliveredTo(net, n, p, now), steps + 1)
  {
    var r := net.replicas[n];
    ReceivedHolds(net.h, r, p, now, steps);
    ReceivedClock(r, p, now, steps);
    WithKeepsInv(net, n, Received(r, p, now), net.h, steps);
  }

  lemma TickedCounter(s: Stamp, now: U64)
    requires Ticked(s, now).Some?
    ensures Ticked(s, now).value.counter <= s.counter + 1
  {
  }

  lemma ClockOf(net: Net, n: NodeId, now: U64, steps: nat)
    requires Inv(net, steps) && n in net.replicas && Ticked(net.replicas[n].clock, now).Some?
    ensures
      var s := Ticked(net.replicas[n].clock, now).value;
      s.node == n && s.counter <= steps + 1
  {
    assert GoodHolder(net.h, net.replicas[n], steps);
    TickedCounter(net.replicas[n].clock, now);
  }

  lemma AppendTicked(net: Net, n: NodeId, now: U64, data: Bytes, steps: nat)
    requires Inv(net, steps) && n in net.replicas && Ticked(net.replicas[n].clock, now).Some?
    ensures Inv(AppendedAt(net, n, Ticked(net.replicas[n].clock, now).value, data), steps + 1)
  {
    ClockOf(net, n, now, steps);
    AppendKeepsInv(net, n, Ticked(net.replicas[n].clock, now).value, data, steps);
  }

  lemma RenameTicked(net: Net, n: NodeId, now: U64, name: Bytes, steps: nat)
    requires Inv(net, steps) && n in net.replicas && Ticked(net.replicas[n].clock, now).Some?
    ensures Inv(RenamedAt(net, n, Ticked(net.replicas[n].clock, now).value, name), steps + 1)
  {
    ClockOf(net, n, now, steps);
    RenameKeepsInv(net, n, Ticked(net.replicas[n].clock, now).value, name, steps);
  }

  /** What the event makes of the net, case by case. */
  lemma StepOf(net: Net, e: Event)
    requires Step(net, e).Some?
    ensures e.Start? ==> e.node !in net.replicas && Step(net, e).value == StartedAt(net, e.node, e.now, e.name)
    ensures !e.Start? ==> e.node in net.replicas
    ensures e.Append? ==>
              && Ticked(net.replicas[e.node].clock, e.now).Some?
              && Step(net, e).value
                 == AppendedAt(net, e.node, Ticked(net.replicas[e.node].clock, e.now).value, e.data)
    ensures e.Rename? ==>
              && Ticked(net.replicas[e.node].clock, e.now).Some?
              && Step(net, e).value
                 == RenamedAt(net, e.node, Ticked(net.replicas[e.node].clock, e.now).value, e.name)
    ensures e.Send? ==> Step(net, e).value == SentFrom(net, e.node, e.since)
    ensures e.Deliver? ==>
              && e.packet < |net.packets|
              && Step(net, e).value == DeliveredTo(net, e.node, net.packets[e.packet], e.now)
  {
  }

  lemma WriteKeepsInv(net: Net, e: Event, steps: nat)
    requires Inv(net, steps) && Step(net, e).Some? && (e.Append? || e.Rename?)
    ensures Inv(Step(net, e).value, steps + 1)
  {
    StepOf(net, e);
    if e.Append? {
      AppendTicked(net, e.node, e.now, e.data, steps);
    } else {
      RenameTicked(net, e.node, e.now, e.name, steps);
    }
  }

  lemma SendOrStartKeepsInv(net: Net, e: Event, steps: nat)
    requires Inv(net, steps) && Step(net, e).Some? && (e.Send? || e.Start?)
    ensures Inv(Step(net, e).value, steps + 1)
  {
    StepOf(net, e);
    if e.Send? {
      SendKeepsInv(net, e.node, e.since, steps);
    } else {
      StartKeepsInv(net, e.node, e.now, e.name, steps);
    }
  }

  lemma StepKeepsInv(net: Net, e: Event, steps: nat)
    requires Inv(net, steps) && Step(net, e).Some? && steps + 1 < TWO_TO_32
    ensures Inv(Step(net, e).value, steps + 1)
  {
    if e.Append? || e.Rename? {
      WriteKeepsInv(net, e, steps);
    } else if e.Deliver? {
      StepOf(net, e);
      DeliverKeepsInv(net, e.node, net.packets[e.packet], e.now, steps);
    } else {
      SendOrStartKeepsInv(net, e, steps);
    }
  }

  lemma {:induction false} RunKeepsInv(events: seq<Event>)
    requires |events| < TWO_TO_32 && Run(events).Some?
    ensures Inv(Run(events).value, |events|)
  {
    if events != [] {
      var n := |events| - 1;
      RunKeepsInv(events[..n]);
      StepKeepsInv(Run(events[..n]).value, events[n], n);
    }
  }

  /** `r` is a device of the net or a packet in flight. */
  ghost predicate Holder(net: Net, r: Replica) {
    || (exists n :: n in net.replicas && net.replicas[n] == r)
    || r in net.packets
  }

  lemma HolderIsGood(events: seq<Event>, r: Replica)
    requires |events| < TWO_TO_32 && Run(events).Some? && Holder(Run(events).value, r)
    ensures GoodHolder(Run(events).value.h, r, |events|)
  {
    RunKeepsInv(events);
  }

  // ---- Main results ----

  /** In every run, one stamp carries one payload and one name, wherever it is
      seen: the condition under which logs and registers merge in any order. */
  lemma OneStampOnePayload(events: seq<Event>, a: Replica, b: Replica)
    requires |events| < TWO_TO_32 && Run(events).Some?
    requires Holder(Run(events).value, a) && Holder(Run(events).value, b)
    ensures Agree(a.log, b.log)
    ensures a.name.timestamp == b.name.timestamp ==> a.name.value == b.name.value
    ensures Later(a.name, b.name) == Later(b.name, a.name)
  {
    HolderIsGood(events, a);
    HolderIsGood(events, b);
    LaterCommutesIff(a.name, b.name);
  }

  function CountAppends(events: seq<Event>): nat {
    if events == [] then 0
    else CountAppends(events[..|events| - 1]) + if events[|events| - 1].Append? then 1 else 0
  }

  lemma {:induction false} AppendsCounted(events: seq<Event>)
    requires Run(events).Some?
    ensures Run(events).value.h.appends == CountAppends(events)
  {
    if events != [] {
      AppendsCounted(events[..|events| - 1]);
    }
  }

  /** With at most 100,000 appends in the run, a log is exactly the appends its
      holder absorbed: none is refused or cut. So two holders that absorbed the
      same appends have equal logs, by whatever routes these came. */
  lemma LogsConverge(events: seq<Event>, a: Replica, b: Replica)
    requires |events| < TWO_TO_32 && Run(events).Some?
    requires CountAppends(events) <= MAX_LOG_ENTRIES
    requires Holder(Run(events).value, a) && Holder(Run(events).value, b)
    ensures a.log.Keys == a.absorbed && PartOf(a.log, Run(events).value.h.appended)
    ensures a.absorbed == b.absorbed ==> a.log == b.log
  {
    AppendsCounted(events);
    HolderIsGood(events, a);
    HolderIsGood(events, b);
  }

  /** Two holders that heard the same register writes show the same name: the
      one written last among those, by stamp. */
  lemma NamesConverge(events: seq<Event>, a: Replica, b: Replica)
    requires |events| < TWO_TO_32 && Run(events).Some?
    requires Holder(Run(events).value, a) && Holder(Run(events).value, b)
    ensures
      var written := Run(events).value.h.written;
      && a.name.timestamp in a.heard && a.heard <= written.Keys
      && written[a.name.timestamp] == a.name.value
      && (forall h | h in a.heard :: AtMost(h, a.name.timestamp))
    ensures a.heard == b.heard ==> a.name == b.name
  {
    HolderIsGood(events, a);
    HolderIsGood(events, b);
    if a.heard == b.heard {
      LessIsStrictTotalOrder(a.name.timestamp, b.name.timestamp, a.name.timestamp);
    }
  }

  ghost function PartsOf(all: Entries): Entries -> bool {
    (m: Entries) => PartOf(m, all)
  }

  lemma PartsCommute(a: Entries, b: Entries, all: Entries)
    requires Fits(all.Keys) && PartOf(a, all) && PartOf(b, all)
    ensures CappedMerge(a, b) == CappedMerge(b, a)
  {
    SubsetSize(a.Keys + b.Keys, all.Keys);
    SubsetSize(a.Keys, all.Keys);
    SubsetSize(b.Keys, all.Keys);
    MergeCommutesIff(a, b);
  }

  lemma PartsAssociate(a: Entries, b: Entries, c: Entries, all: Entries)
    requires Fits(all.Keys) && PartOf(a, all) && PartOf(b, all) && PartOf(c, all)
    ensures CappedMerge(CappedMerge(a, b), c) == CappedMerge(a, CappedMerge(b, c))
  {
    SubsetSize(a.Keys + b.Keys + c.Keys, all.Keys);
    MergeAssociative(a, b, c);
  }

  ghost function MergeLog(a: Entries, b: Entries): Entries {
    CappedMerge(a, b)
  }

  lemma LogLaws(all: Entries)
    requires Fits(all.Keys)
    ensures Joins.MergeLaws(PartsOf(all), MergeLog)
  {
    forall a, b | PartsOf(all)(a) && PartsOf(all)(b)
      ensures PartsOf(all)(MergeLog(a, b)) && MergeLog(a, b) == MergeLog(b, a)
    {
      MergeWithinHistory(a, b, all);
      PartsCommute(a, b, all);
    }
    forall a, b, c | PartsOf(all)(a) && PartsOf(all)(b) && PartsOf(all)(c)
      ensures MergeLog(MergeLog(a, b), c) == MergeLog(a, MergeLog(b, c))
    {
      PartsAssociate(a, b, c, all);
    }
    forall a | PartsOf(all)(a) ensures MergeLog(a, a) == a {
      MergeIdempotent(a);
    }
  }

  /** Logs taken from one run merge to the same log in any order and with any
      repetition, up to the cap. */
  lemma LogsMergeInAnyOrder(events: seq<Event>, xs: seq<Entries>, ys: seq<Entries>)
    requires |events| < TWO_TO_32 && Run(events).Some?
    requires CountAppends(events) <= MAX_LOG_ENTRIES
    requires xs != [] && (forall x :: x in xs <==> x in ys)
    requires forall x | x in xs :: exists r :: Holder(Run(events).value, r) && r.log == x
    ensures ys != [] && Joins.MergeAll(MergeLog, xs) == Joins.MergeAll(MergeLog, ys)
  {
    var net := Run(events).value;
    RunKeepsInv(events);
    AppendsCounted(events);
    forall x | x in xs ensures PartsOf(net.h.appended)(x) {
      var r :| Holder(net, r) && r.log == x;
      HolderIsGood(events, r);
    }
    LogLaws(net.h.appended);
    Joins.OrderFree(PartsOf(net.h.appended), MergeLog, xs, ys);
  }
}
