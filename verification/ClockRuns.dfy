/** Whole runs of any number of clocks that exchange messages.

    A message carries the clock of its sender right after the event that
    precedes the send; it may be received any number of times, at any later
    point, by any node. Every event reads its own, arbitrary, system time. */
module ClockRuns {
  import opened Base
  import opened Clock

  datatype Event =
    | Start(node: NodeId, now: U64)
    | Local(node: NodeId, now: U64)
    | Receive(node: NodeId, from: nat, now: U64)   // `from` indexes the event whose stamp was sent

  datatype Occurrence = Occurrence(event: Event, stamp: Stamp)

  datatype World = World(clocks: map<NodeId, Stamp>, past: seq<Occurrence>)

  predicate Enabled(w: World, e: Event) {
    match e
    case Start(n, _) => n !in w.clocks
    case Local(n, _) => n in w.clocks
    case Receive(n, from, _) => n in w.clocks && from < |w.past|
  }

  /** The stamp that the code gives to an event, unless it panics. */
  function StampOf(w: World, e: Event): Option<Stamp>
    requires Enabled(w, e)
  {
    match e
    case Start(n, now) => Some(Stamp(now, 0, n))
    case Local(n, now) => Ticked(w.clocks[n], now)
    case Receive(n, from, now) => Some(Merged(w.clocks[n], w.past[from].stamp, now))
  }

  /** One event. `None`: it cannot happen here, or it panics. */
  function Step(w: World, e: Event): Option<World> {
    if !Enabled(w, e) then None
    else match StampOf(w, e)
         case None => None
         case Some(s) => Some(World(w.clocks[e.node := s], w.past + [Occurrence(e, s)]))
  }

  function Run(events: seq<Event>): Option<World> {
    if events == [] then Some(World(map[], []))
    else
      match Run(events[..|events| - 1])
      case None => None
      case Some(w) => Step(w, events[|events| - 1])
  }

  // ---- The invariant of every run ----

  /** `j` follows `i` directly: later on the same node, or receives its stamp. */
  predicate Edge(past: seq<Occurrence>, i: nat, j: nat)
    requires i < |past| && j < |past|
  {
    || (i < j && past[i].event.node == past[j].event.node)
    || (past[j].event.Receive? && past[j].event.from == i)
  }

  ghost predicate Ordered(past: seq<Occurrence>) {
    forall i: nat, j: nat {:trigger Edge(past, i, j)} | i < |past| && j < |past| && Edge(past, i, j) ::
      Before(past[i].stamp, past[j].stamp)
  }

  ghost predicate OwnStamps(w: World) {
    && (forall n | n in w.clocks :: w.clocks[n].node == n)
    && (forall i | 0 <= i < |w.past| ::
          var o := w.past[i];
          && o.event.node in w.clocks
          && o.stamp.node == o.event.node
          && !Before(w.clocks[o.event.node], o.stamp)
          && (o.event.Receive? ==> o.event.from < i))
  }

  ghost predicate SmallCounters(w: World) {
    && (forall n | n in w.clocks :: w.clocks[n].counter < |w.past|)
    && (forall i | 0 <= i < |w.past| :: w.past[i].stamp.counter < |w.past|)
  }

  ghost predicate Inv(w: World) {
    Ordered(w.past) && OwnStamps(w) && SmallCounters(w)
  }

  /** No event of a short run panics or wraps: its stamp is past its causes. */
  lemma StampAdvances(w: World, e: Event)
    requires Inv(w) && Enabled(w, e) && |w.past| < TWO_TO_32
    ensures StampOf(w, e).Some?
    ensures
      var s := StampOf(w, e).value;
      && s.node == e.node
      && s.counter <= |w.past|
      && (!e.Start? ==> Before(w.clocks[e.node], s))
      && (e.Receive? ==> Before(w.past[e.from].stamp, s))
  {
    if e.Receive? {
      MergePassesBothIff(w.clocks[e.node], w.past[e.from].stamp, e.now);
    }
  }

  lemma StepKeepsInv(w: World, e: Event)
    requires Inv(w) && Enabled(w, e) && |w.past| < TWO_TO_32
    ensures Step(w, e).Some? && Inv(Step(w, e).value)
  {
    StampAdvances(w, e);
    var s := StampOf(w, e).value;
    var w' := Step(w, e).value;
    forall i: nat, j: nat | i < |w'.past| && j < |w'.past| && Edge(w'.past, i, j)
      ensures Before(w'.past[i].stamp, w'.past[j].stamp)
    {
      if j < |w.past| {
        assert i < |w.past|;
        assert Edge(w.past, i, j);
      }
    }
  }

  lemma {:induction false} RunKeepsInv(events: seq<Event>)
    requires |events| <= TWO_TO_32 && Run(events).Some?
    ensures Inv(Run(events).value) && |Run(events).value.past| == |events|
    ensures forall i | 0 <= i < |events| :: Run(events).value.past[i].event == events[i]
  {
    if events != [] {
      var n := |events| - 1;
      RunKeepsInv(events[..n]);
      StepKeepsInv(Run(events[..n]).value, events[n]);
    }
  }

  /** A run of fewer than 2^32 events never panics and its unchecked additions
      never wrap, so it can always go on; and no counter exceeds the number of
      events so far. */
  lemma NoOverflow(events: seq<Event>, e: Event)
    requires |events| < TWO_TO_32 && Run(events).Some? && Enabled(Run(events).value, e)
    ensures Run(events + [e]).Some? && |Run(events + [e]).value.past| == |events| + 1
    ensures forall i | 0 <= i <= |events| :: Run(events + [e]).value.past[i].stamp.counter <= |events|
  {
    var w := Run(events).value;
    RunKeepsInv(events);
    StepKeepsInv(w, e);
    assert (events + [e])[..|events|] == events;
    RunKeepsInv(events + [e]);
  }

  // ---- Causality ----

  /** A chain of local steps and messages through the given events. */
  predicate Chain(past: seq<Occurrence>, chain: seq<nat>) {
    && (forall k | 0 <= k < |chain| :: chain[k] < |past|)
    && (forall k | 0 < k < |chain| :: Edge(past, chain[k - 1], chain[k]))
  }

  ghost predicate HappenedBefore(past: seq<Occurrence>, i: nat, j: nat) {
    exists chain :: Chain(past, chain) && |chain| >= 2 && chain[0] == i && chain[|chain| - 1] == j
  }

  lemma {:induction false} ChainOrders(past: seq<Occurrence>, chain: seq<nat>)
    requires Ordered(past) && Chain(past, chain) && |chain| >= 2
    ensures Before(past[chain[0]].stamp, past[chain[|chain| - 1]].stamp)
  {
    var n := |chain| - 1;
    assert Edge(past, chain[n - 1], chain[n]);
    if n > 1 {
      ChainOrders(past, chain[..n]);
    }
  }

  /** If one event happened before another, through any chain of local steps
      and messages, its stamp is smaller. */
  lemma Causality(events: seq<Event>, i: nat, j: nat)
    requires |events| <= TWO_TO_32 && Run(events).Some?
    requires HappenedBefore(Run(events).value.past, i, j)
    ensures i < |events| == |Run(events).value.past| && j < |events|
    ensures Less(Run(events).value.past[i].stamp, Run(events).value.past[j].stamp)
  {
    var past := Run(events).value.past;
    RunKeepsInv(events);
    var chain :| Chain(past, chain) && |chain| >= 2 && chain[0] == i && chain[|chain| - 1] == j;
    ChainOrders(past, chain);
  }

  /** No two events of a run share a stamp. */
  lemma UniqueStamps(events: seq<Event>, i: nat, j: nat)
    requires |events| <= TWO_TO_32 && Run(events).Some?
    requires i < j < |events|
    ensures |Run(events).value.past| == |events|
    ensures Run(events).value.past[i].stamp != Run(events).value.past[j].stamp
  {
    var past := Run(events).value.past;
    RunKeepsInv(events);
    if past[i].event.node == past[j].event.node {
      assert Edge(past, i, j);
    }
  }

  // ---- Wall clock bounds ----

  function LargestReading(events: seq<Event>): nat {
    if events == [] then 0
    else Max(LargestReading(events[..|events| - 1]), events[|events| - 1].now)
  }

  /** The latest reading that node `n` made. */
  function LatestReading(events: seq<Event>, n: NodeId): Option<U64> {
    if events == [] then None
    else
      var e := events[|events| - 1];
      if e.node == n then Some(e.now) else LatestReading(events[..|events| - 1], n)
  }

  /** Every wall value lies between the node's own latest reading and the
      largest reading made by any node: clocks never invent time. */
  lemma {:induction false} WallBounds(events: seq<Event>)
    requires Run(events).Some?
    ensures
      var w := Run(events).value;
      && (forall i | 0 <= i < |w.past| :: w.past[i].stamp.wall <= LargestReading(events))
      && (forall n | n in w.clocks ::
            && w.clocks[n].wall <= LargestReading(events)
            && LatestReading(events, n).Some?
            && LatestReading(events, n).value <= w.clocks[n].wall)
  {
    if events != [] {
      WallBounds(events[..|events| - 1]);
    }
  }
}
