/** What devices do get: an append goes to the end of its log, a rename takes
    effect at once, and both arrive at whoever takes delivery. */
module ReplicationProgress {
  import opened Base
  import opened Clock
  import opened LwwRegister
  import opened MessageLog
  import opened Replication

  // ---- A clock is at or past all that its device holds ----

  ghost predicate Caught(r: Replica) {
    && (forall k | k in r.log :: !Before(r.clock, k))
    && !Before(r.clock, r.name.timestamp)
  }

  ghost predicate AllCaught(net: Net) {
    && (forall n | n in net.replicas :: Caught(net.replicas[n]))
    && (forall p | p in net.packets :: Caught(p))
  }

  lemma AppendedCaught(r: Replica, s: Stamp, data: Bytes)
    requires Caught(r) && Before(r.clock, s)
    ensures Caught(Replication.Appended(r, s, data))
  {
  }

  lemma RenamedCaught(r: Replica, s: Stamp, name: Bytes)
    requires Caught(r) && Before(r.clock, s)
    ensures Caught(Renamed(r, s, name))
  {
  }

  lemma PackedCaught(r: Replica, since: Option<Stamp>)
    requires Caught(r)
    ensures Caught(Packed(r, since))
  {
  }

  lemma ReceivedCaught(r: Replica, p: Replica, now: U64)
    requires Caught(r) && Caught(p)
    requires r.clock.counter + 1 < TWO_TO_32 && p.clock.counter + 1 < TWO_TO_32
    ensures Caught(Received(r, p, now))
  {
    var x := Received(r, p, now);
    MergePassesBothIff(r.clock, p.clock, now);
    TakingOver(r.log, p.log, Taken(r.log, p.log));
    forall k | k in x.log ensures !Before(x.clock, k) {
      assert k in r.log || k in p.log;
    }
  }

  ghost predicate Small(net: Net) {
    && (forall n | n in net.replicas :: net.replicas[n].clock.counter + 1 < TWO_TO_32)
    && (forall p | p in net.packets :: p.clock.counter + 1 < TWO_TO_32)
  }

  lemma SmallCounters(net: Net, steps: nat)
    requires Replication.Inv(net, steps) && steps + 1 < TWO_TO_32
    ensures Small(net)
  {
    forall n | n in net.replicas ensures net.replicas[n].clock.counter + 1 < TWO_TO_32 {
      assert GoodHolder(net.h, net.replicas[n], steps);
    }
    forall p | p in net.packets ensures p.clock.counter + 1 < TWO_TO_32 {
      assert GoodHolder(net.h, p, steps);
    }
  }

  lemma WithCaught(net: Net, n: NodeId, r: Replica, h: History)
    requires AllCaught(net) && Caught(r)
    ensures AllCaught(With(net, n, r, h))
  {
  }

  lemma SentCaught(net: Net, n: NodeId, since: Option<Stamp>)
    requires AllCaught(net) && n in net.replicas
    ensures AllCaught(SentFrom(net, n, since))
  {
    PackedCaught(net.replicas[n], since);
  }

  lemma DeliveredCaught(net: Net, n: NodeId, k: nat, now: U64)
    requires AllCaught(net) && Small(net) && n in net.replicas && k < |net.packets|
    ensures AllCaught(DeliveredTo(net, n, net.packets[k], now))
  {
    var p := net.packets[k];
    assert p in net.packets;
    ReceivedCaught(net.replicas[n], p, now);
    WithCaught(net, n, Received(net.replicas[n], p, now), net.h);
  }

  lemma WrittenCaught(net: Net, n: NodeId, s: Stamp, data: Bytes)
    requires AllCaught(net) && n in net.replicas && Before(net.replicas[n].clock, s)
    ensures AllCaught(AppendedAt(net, n, s, data)) && AllCaught(RenamedAt(net, n, s, data))
  {
    var r := net.replicas[n];
    AppendedCaught(r, s, data);
    RenamedCaught(r, s, data);
    WithCaught(net, n, Replication.Appended(r, s, data), WithAppend(net.h, s, data));
    WithCaught(net, n, Renamed(r, s, data), WithWrite(net.h, s, data));
  }

  lemma StepCaught(net: Net, e: Event)
    requires Small(net) && AllCaught(net) && Step(net, e).Some?
    ensures AllCaught(Step(net, e).value)
  {
    StepOf(net, e);
    match e
    case Start(n, now, name) =>
      var r := Newborn(n, now, name);
      WithCaught(net, n, r, WithWrite(net.h, r.clock, name));
    case Append(n, now, data) => WrittenCaught(net, n, Ticked(net.replicas[n].clock, now).value, data);
    case Rename(n, now, name) => WrittenCaught(net, n, Ticked(net.replicas[n].clock, now).value, name);
    case Send(n, since) => SentCaught(net, n, since);
    case Deliver(n, k, now) => DeliveredCaught(net, n, k, now);
  }

  lemma {:induction false} RunCaught(events: seq<Event>)
    requires |events| < TWO_TO_32 && Run(events).Some?
    ensures AllCaught(Run(events).value)
  {
    if events != [] {
      var n := |events| - 1;
      RunKeepsInv(events[..n]);
      RunCaught(events[..n]);
      SmallCounters(Run(events[..n]).value, n);
      StepCaught(Run(events[..n]).value, events[n]);
    }
  }

  lemma RunOneMore(events: seq<Event>, e: Event)
    requires Run(events).Some?
    ensures Run(events + [e]) == Step(Run(events).value, e)
  {
    assert (events + [e])[..|events|] == events;
  }

  lemma BeforeAll(clock: Stamp, s: Stamp, k: Stamp)
    requires Before(clock, s) && !Before(clock, k)
    ensures Before(k, s)
  {
  }

  // ---- On the device itself ----

  /** An append below the cap goes to the end of the device's own log, under its new
      clock, and the rest of the log stays. */
  lemma AppendGoesLast(events: seq<Event>, n: NodeId, now: U64, data: Bytes)
    requires |events| < TWO_TO_32 && Run(events + [Append(n, now, data)]).Some? && Run(events).Some?
    ensures n in Run(events).value.replicas && n in Run(events + [Append(n, now, data)]).value.replicas
    ensures
      var old', new' := Run(events).value.replicas[n], Run(events + [Append(n, now, data)]).value.replicas[n];
      && new'.log == (if |old'.log| < MAX_LOG_ENTRIES then old'.log[new'.clock := data] else old'.log)
      && (forall k | k in old'.log :: Less(k, new'.clock))
  {
    RunOneMore(events, Append(n, now, data));
    RunCaught(events);
    var r := Run(events).value.replicas[n];
    var s := Ticked(r.clock, now).value;
    forall k | k in r.log ensures Less(k, s) {
      BeforeAll(r.clock, s, k);
    }
  }

  /** A rename shows at once, whatever names the device has heard of. */
  lemma RenameTakesEffect(events: seq<Event>, n: NodeId, now: U64, name: Bytes)
    requires |events| < TWO_TO_32 && Run(events + [Rename(n, now, name)]).Some? && Run(events).Some?
    ensures n in Run(events + [Rename(n, now, name)]).value.replicas
    ensures
      var r := Run(events + [Rename(n, now, name)]).value.replicas[n];
      r.name == Register(name, r.clock)
  {
    RunOneMore(events, Rename(n, now, name));
    RunCaught(events);
    var r := Run(events).value.replicas[n];
    BeforeAll(r.clock, Ticked(r.clock, now).value, r.name.timestamp);
  }

  // ---- On other devices ----

  lemma {:induction false} PacketsStay(before: seq<Event>, more: seq<Event>, k: nat)
    requires Run(before + more).Some?
    ensures Run(before).Some?
    ensures k < |Run(before).value.packets| ==>
              && k < |Run(before + more).value.packets|
              && Run(before + more).value.packets[k] == Run(before).value.packets[k]
  {
    if more == [] {
      assert before + more == before;
    } else {
      var n := |more| - 1;
      assert (before + more)[..|before + more| - 1] == before + more[..n];
      PacketsStay(before, more[..n], k);
    }
  }

  lemma ReceivedCarries(r: Replica, p: Replica, now: U64, all: Entries, s: Stamp)
    requires PartOf(r.log, all) && PartOf(p.log, all) && Fits(all.Keys) && s in p.log
    ensures s in Received(r, p, now).log && Received(r, p, now).log[s] == p.log[s]
  {
    MergeWithinHistory(r.log, p.log, all);
  }

  lemma BothPartOfHistory(events: seq<Event>, a: Replica, b: Replica)
    requires |events| < TWO_TO_32 && Run(events).Some? && CountAppends(events) <= MAX_LOG_ENTRIES
    requires Holder(Run(events).value, a) && Holder(Run(events).value, b)
    ensures
      var all := Run(events).value.h.appended;
      PartOf(a.log, all) && PartOf(b.log, all) && Fits(all.Keys)
  {
    RunKeepsInv(events);
    AppendsCounted(events);
    HolderIsGood(events, a);
    HolderIsGood(events, b);
  }

  /** Whoever takes delivery of a packet holds, with at most 100,000 appends in the
      run, every entry that the packet carries, with its data. */
  lemma DeliveryCarriesLog(events: seq<Event>, m: NodeId, k: nat, now: U64, s: Stamp)
    requires |events| + 1 < TWO_TO_32 && Run(events).Some? && Run(events + [Deliver(m, k, now)]).Some?
    requires CountAppends(events) <= MAX_LOG_ENTRIES
    requires k < |Run(events).value.packets| && s in Run(events).value.packets[k].log
    ensures m in Run(events + [Deliver(m, k, now)]).value.replicas
    ensures
      var log := Run(events + [Deliver(m, k, now)]).value.replicas[m].log;
      s in log && log[s] == Run(events).value.packets[k].log[s]
  {
    var net := Run(events).value;
    RunOneMore(events, Deliver(m, k, now));
    StepOf(net, Deliver(m, k, now));
    BothPartOfHistory(events, net.replicas[m], net.packets[k]);
    ReceivedCarries(net.replicas[m], net.packets[k], now, net.h.appended, s);
  }

  /** An append that its device then sends, the whole log or only what is after an
      earlier stamp, is in the log of every device that takes delivery, however much
      later, as long as no more than 100,000 were appended. */
  lemma AppendIsDelivered(
    events: seq<Event>, more: seq<Event>, n: NodeId, now: U64, data: Bytes, since: Option<Stamp>,
    m: NodeId, later: U64)
    requires Run(events).Some? && Run(events + [Append(n, now, data)]).Some?
    requires
      var k := |Run(events).value.packets|;
      var all := events + [Append(n, now, data)] + [Send(n, since)] + more;
      && Run(all + [Deliver(m, k, later)]).Some? && |all| + 1 < TWO_TO_32 && CountAppends(all) <= MAX_LOG_ENTRIES
      && |Run(events).value.replicas[n].log| < MAX_LOG_ENTRIES
    requires since.Some? ==> Less(since.value, Run(events + [Append(n, now, data)]).value.replicas[n].clock)
    ensures
      var k := |Run(events).value.packets|;
      var s := Run(events + [Append(n, now, data)]).value.replicas[n].clock;
      var net := Run(events + [Append(n, now, data)] + [Send(n, since)] + more + [Deliver(m, k, later)]).value;
      m in net.replicas && s in net.replicas[m].log && net.replicas[m].log[s] == data
  {
    var k := |Run(events).value.packets|;
    var appended := events + [Append(n, now, data)];
    var sent := appended + [Send(n, since)];
    assert (sent + more + [Deliver(m, k, later)])[..|sent + more|] == sent + more;
    PacketsStay(sent, more, k);
    AppendGoesLast(events, n, now, data);
    RunOneMore(events, Append(n, now, data));
    RunOneMore(appended, Send(n, since));
    SentCarries(Run(appended).value, n, since, Run(appended).value.replicas[n].clock);
    DeliveryCarriesLog(sent + more, m, k, later, Run(appended).value.replicas[n].clock);
  }

  lemma SentCarries(net: Net, n: NodeId, since: Option<Stamp>, s: Stamp)
    requires n in net.replicas && s in net.replicas[n].log && (since.Some? ==> Less(since.value, s))
    ensures
      var p := SentFrom(net, n, since).packets[|net.packets|];
      s in p.log && p.log[s] == net.replicas[n].log[s]
  {
  }

  /** Whoever takes delivery of a packet shows a name at least as late as its. */
  lemma DeliveryCarriesName(events: seq<Event>, m: NodeId, k: nat, now: U64)
    requires Run(events).Some? && Run(events + [Deliver(m, k, now)]).Some?
    requires k < |Run(events).value.packets|
    ensures m in Run(events + [Deliver(m, k, now)]).value.replicas
    ensures
      var name := Run(events + [Deliver(m, k, now)]).value.replicas[m].name;
      AtMost(Run(events).value.packets[k].name.timestamp, name.timestamp)
  {
    RunOneMore(events, Deliver(m, k, now));
  }
}
