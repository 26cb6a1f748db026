/** Runs of nodes that share an observed-remove set: each adds under its own
    id, any node removes anything, and copies are merged in any order. */
module OrsetRuns {
  import opened Base
  import opened Clock
  import opened Orset

  datatype Event<T> =
    | Join(node: NodeId)
    | Add(node: NodeId, value: T)
    | Remove(node: NodeId, value: T)
    | Send(node: NodeId)
    | Deliver(node: NodeId, packet: nat)

  /** `tags` is history: the value that every dot made so far was made for. */
  datatype Net<T> = Net(nodes: map<NodeId, State<T>>, packets: seq<State<T>>, tags: map<Dot, T>)

  function Step<T>(net: Net<T>, e: Event<T>): Option<Net<T>> {
    var n := e.node;
    if e.Join? then
      if n in net.nodes then None else Some(net.(nodes := net.nodes[n := State(map[], map[])]))
    else if n !in net.nodes then None
    else
      var s := net.nodes[n];
      match e
      case Add(_, v) =>
        Some(net.(nodes := net.nodes[n := Added(s, v, n)], tags := net.tags[NextDot(s, n) := v]))
      case Remove(_, v) => Some(net.(nodes := net.nodes[n := Removed(s, v)]))
      case Send(_) => Some(net.(packets := net.packets + [s]))
      case Deliver(_, k) =>
        if k >= |net.packets| then None
        else Some(net.(nodes := net.nodes[n := Joined(s, net.packets[k])]))
  }

  function Run<T>(events: seq<Event<T>>): Option<Net<T>> {
    if events == [] then Some(Net(map[], [], map[]))
    else
      match Run(events[..|events| - 1])
      case None => None
      case Some(net) => Step(net, events[|events| - 1])
  }

  /** The owner's own sequence number. */
  function OwnSeq<T>(nodes: map<NodeId, State<T>>, n: NodeId): nat {
    if n in nodes then SeqOf(nodes[n], n) else 0
  }

  /** Every dot held was made for the value it is held under. */
  ghost predicate Tagged<T(!new)>(tags: map<Dot, T>, s: State<T>) {
    forall v, d | d in DotsOf(s, v) :: d in tags && tags[d] == v
  }

  /** Every dot held is at most the sequence number seen of its node. */
  ghost predicate Seen<T(!new)>(s: State<T>) {
    forall v, d | d in DotsOf(s, v) :: 1 <= d.number <= SeqOf(s, d.node)
  }

  /** Sequence numbers are at most their owner's. */
  ghost predicate Bounded<T(!new)>(nodes: map<NodeId, State<T>>, s: State<T>) {
    forall n: NodeId :: SeqOf(s, n) <= OwnSeq(nodes, n)
  }

  ghost predicate GoodCopy<T(!new)>(net: Net<T>, s: State<T>) {
    Tagged(net.tags, s) && Seen(s) && Bounded(net.nodes, s)
  }

  ghost predicate Inv<T(!new)>(net: Net<T>) {
    && (forall n | n in net.nodes :: GoodCopy(net, net.nodes[n]))
    && (forall p | p in net.packets :: GoodCopy(net, p))
    && (forall d | d in net.tags :: 1 <= d.number <= OwnSeq(net.nodes, d.node))
  }

  lemma TagOf<T(!new)>(tags: map<Dot, T>, s: State<T>, v: T, d: Dot)
    requires Tagged(tags, s) && d in DotsOf(s, v)
    ensures d in tags && tags[d] == v
  {
  }

  lemma CopyKeeps<T(!new)>(net: Net<T>, net': Net<T>, s: State<T>)
    requires GoodCopy(net, s)
    requires forall d | d in net.tags :: d in net'.tags && net'.tags[d] == net.tags[d]
    requires forall n: NodeId :: OwnSeq(net.nodes, n) <= OwnSeq(net'.nodes, n)
    ensures GoodCopy(net', s)
  {
  }

  lemma AddIsNew<T(!new)>(net: Net<T>, n: NodeId)
    requires Inv(net) && n in net.nodes
    ensures NextDot(net.nodes[n], n) !in net.tags
  {
  }

  lemma AddedIsTagged<T(!new)>(tags: map<Dot, T>, s: State<T>, v: T, n: NodeId)
    requires Tagged(tags, s) && NextDot(s, n) !in tags
    ensures Tagged(tags[NextDot(s, n) := v], Added(s, v, n))
  {
    var s', tags' := Added(s, v, n), tags[NextDot(s, n) := v];
    forall w, d | d in DotsOf(s', w) ensures d in tags' && tags'[d] == w {
      assert d in DotsOf(s, w) || (w == v && d == NextDot(s, n));
    }
  }

  lemma AddedIsSeen<T(!new)>(s: State<T>, v: T, n: NodeId)
    requires Seen(s)
    ensures Seen(Added(s, v, n))
  {
    var s' := Added(s, v, n);
    forall w, d | d in DotsOf(s', w) ensures 1 <= d.number <= SeqOf(s', d.node) {
      assert d in DotsOf(s, w) || (w == v && d == NextDot(s, n));
    }
  }

  lemma AddedIsBounded<T(!new)>(nodes: map<NodeId, State<T>>, v: T, n: NodeId)
    requires n in nodes && Bounded(nodes, nodes[n])
    ensures
      var s' := Added(nodes[n], v, n);
      Bounded(nodes[n := s'], s')
  {
    var s' := Added(nodes[n], v, n);
    forall m: NodeId ensures SeqOf(s', m) <= OwnSeq(nodes[n := s'], m) {
      assert SeqOf(nodes[n], m) <= OwnSeq(nodes, m);
    }
  }

  lemma AddedIsGood<T(!new)>(net: Net<T>, net': Net<T>, n: NodeId, v: T)
    requires Inv(net) && n in net.nodes
    requires Step(net, Add(n, v)) == Some(net')
    ensures GoodCopy(net', net'.nodes[n])
  {
    AddIsNew(net, n);
    AddedIsTagged(net.tags, net.nodes[n], v, n);
    AddedIsSeen(net.nodes[n], v, n);
    AddedIsBounded(net.nodes, v, n);
  }

  lemma JoinedDots<T>(a: State<T>, b: State<T>, v: T)
    ensures DotsOf(Joined(a, b), v) == DotsOf(a, v) + DotsOf(b, v)
  {
  }

  lemma JoinedIsSeen<T(!new)>(a: State<T>, b: State<T>)
    requires Seen(a) && Seen(b)
    ensures Seen(Joined(a, b))
  {
    var j := Joined(a, b);
    forall v, d | d in DotsOf(j, v) ensures 1 <= d.number <= SeqOf(j, d.node) {
      JoinedDots(a, b, v);
      MaxAt(a.nextSeq, b.nextSeq, d.node);
      assert d in DotsOf(a, v) || d in DotsOf(b, v);
    }
  }

  lemma JoinedIsTagged<T(!new)>(tags: map<Dot, T>, a: State<T>, b: State<T>)
    requires Tagged(tags, a) && Tagged(tags, b)
    ensures Tagged(tags, Joined(a, b))
  {
    forall v, d | d in DotsOf(Joined(a, b), v) ensures d in tags && tags[d] == v {
      JoinedDots(a, b, v);
      assert d in DotsOf(a, v) || d in DotsOf(b, v);
    }
  }

  lemma JoinedIsGood<T(!new)>(net: Net<T>, a: State<T>, b: State<T>)
    requires GoodCopy(net, a) && GoodCopy(net, b)
    ensures GoodCopy(net, Joined(a, b))
  {
    JoinedIsSeen(a, b);
    JoinedIsTagged(net.tags, a, b);
  }

  lemma RemovedIsGood<T(!new)>(net: Net<T>, s: State<T>, v: T)
    requires GoodCopy(net, s)
    ensures GoodCopy(net, Removed(s, v))
  {
    var r := Removed(s, v);
    forall w, d | d in DotsOf(r, w)
      ensures 1 <= d.number <= SeqOf(r, d.node) && d in net.tags && net.tags[d] == w
    {
      assert d in DotsOf(s, w);
    }
    forall n: NodeId ensures SeqOf(r, n) <= OwnSeq(net.nodes, n) {
      assert SeqOf(r, n) == SeqOf(s, n);
    }
  }

  lemma OwnSeqGrows<T(!new)>(net: Net<T>, e: Event<T>)
    requires Inv(net) && Step(net, e).Some?
    ensures forall n: NodeId :: OwnSeq(net.nodes, n) <= OwnSeq(Step(net, e).value.nodes, n)
  {
  }

  lemma StepKeepsInv<T(!new)>(net: Net<T>, e: Event<T>)
    requires Inv(net) && Step(net, e).Some?
    ensures Inv(Step(net, e).value)
  {
    var net' := Step(net, e).value;
    OwnSeqGrows(net, e);
    if e.Add? {
      AddedIsGood(net, net', e.node, e.value);
    }
    forall p | p in net'.packets ensures GoodCopy(net', p) {
      assert p in net.packets || p == net.nodes[e.node];
      CopyKeeps(net, net', p);
    }
    forall n | n in net'.nodes ensures GoodCopy(net', net'.nodes[n]) {
      if n in net.nodes {
        CopyKeeps(net, net', net.nodes[n]);
      }
      if e.Remove? && n == e.node {
        RemovedIsGood(net', net.nodes[n], e.value);
      }
      if e.Deliver? && n == e.node {
        CopyKeeps(net, net', net.packets[e.packet]);
        JoinedIsGood(net', net.nodes[n], net.packets[e.packet]);
      }
    }
  }

  lemma {:induction false} RunKeepsInv<T(!new)>(events: seq<Event<T>>)
    requires Run(events).Some?
    ensures Inv(Run(events).value)
  {
    if events != [] {
      var n := |events| - 1;
      RunKeepsInv(events[..n]);
      StepKeepsInv(Run(events[..n]).value, events[n]);
    }
  }

  ghost predicate Copy<T(!new)>(net: Net<T>, s: State<T>) {
    s in net.packets || exists n :: n in net.nodes && net.nodes[n] == s
  }

  lemma CopyIsGood<T(!new)>(events: seq<Event<T>>, s: State<T>)
    requires Run(events).Some? && Copy(Run(events).value, s)
    ensures GoodCopy(Run(events).value, s)
  {
    RunKeepsInv(events);
  }

  // ---- Main results ----

  /** No copy, on a node or in flight, holds a dot or a sequence number beyond
      the one its owner has reached. */
  lemma DotsBounded<T(!new)>(events: seq<Event<T>>, s: State<T>, v: T, d: Dot)
    requires Run(events).Some? && Copy(Run(events).value, s) && d in DotsOf(s, v)
    ensures
      var nodes := Run(events).value.nodes;
      1 <= d.number <= SeqOf(s, d.node) <= OwnSeq(nodes, d.node)
  {
    CopyIsGood(events, s);
  }

  /** The dot of the next add is in no copy, under no value. */
  lemma AddIsFresh<T(!new)>(events: seq<Event<T>>, n: NodeId, s: State<T>, v: T)
    requires Run(events).Some? && n in Run(events).value.nodes && Copy(Run(events).value, s)
    ensures NextDot(Run(events).value.nodes[n], n) !in DotsOf(s, v)
  {
    RunKeepsInv(events);
    var net := Run(events).value;
    AddIsNew(net, n);
    CopyIsGood(events, s);
  }

  /** No dot ever stands for two values, in one copy or in two. */
  lemma OneValuePerDot<T(!new)>(events: seq<Event<T>>, a: State<T>, b: State<T>, v: T, w: T, d: Dot)
    requires Run(events).Some? && Copy(Run(events).value, a) && Copy(Run(events).value, b)
    requires d in DotsOf(a, v) && d in DotsOf(b, w)
    ensures v == w
  {
    CopyIsGood(events, a);
    CopyIsGood(events, b);
    TagOf(Run(events).value.tags, a, v, d);
    TagOf(Run(events).value.tags, b, w, d);
  }

  function CountAdds<T>(events: seq<Event<T>>): nat {
    if events == [] then 0
    else CountAdds(events[..|events| - 1]) + if events[|events| - 1].Add? then 1 else 0
  }

  // ---- What is added arrives ----

  lemma {:induction false} PacketsStay<T(!new)>(before: seq<Event<T>>, more: seq<Event<T>>, k: nat)
    requires Run(before + more).Some?
    ensures Run(before).Some?
    ensures k < |Run(before).value.packets| ==>
              && k < |Run(before + more).value.packets|
              && Run(before + more).value.packets[k] == Run(before).value.packets[k]
  {
    if more == [] {
      assert before + more == before;
    } else {
      var n := |more| - 1;
      assert (before + more)[..|before + more| - 1] == before + more[..n];
      PacketsStay(before, more[..n], k);
    }
  }

  /** After an add the node has the value. */
  lemma AddedIsThere<T(!new)>(events: seq<Event<T>>, n: NodeId, v: T)
    requires Run(events + [Add(n, v)]).Some?
    ensures
      var nodes := Run(events + [Add(n, v)]).value.nodes;
      n in nodes && Contains(nodes[n], v)
  {
    assert (events + [Add(n, v)])[..|events|] == events;
    AddStoresDot(Run(events).value.nodes[n], v, n);
  }

  /** And when it then sends its state, any node has the value after taking
      delivery, however much later and whatever it removed before. */
  lemma AddedIsDelivered<T(!new)>(events: seq<Event<T>>, more: seq<Event<T>>, n: NodeId, v: T, m: NodeId, k: nat)
    requires Run(events).Some? && k == |Run(events).value.packets|
    requires Run(events + [Add(n, v)] + [Send(n)] + more + [Deliver(m, k)]).Some?
    ensures
      var nodes := Run(events + [Add(n, v)] + [Send(n)] + more + [Deliver(m, k)]).value.nodes;
      m in nodes && Contains(nodes[m], v)
  {
    var added := events + [Add(n, v)];
    var sent := added + [Send(n)];
    var last := sent + more + [Deliver(m, k)];
    assert last[..|last| - 1] == sent + more;
    PacketsStay(sent, more, k);
    assert sent[..|added|] == added && added[..|events|] == events;
    AddedIsThere(events, n, v);
    var net := Run(sent + more).value;
    JoinContains(net.nodes[m], net.packets[k], v);
  }

  /** A sequence number never exceeds the number of adds in the run, so the
      64-bit counters cannot overflow in a run of fewer than 2^64 adds. */
  lemma {:induction false} SeqAtMostAdds<T(!new)>(events: seq<Event<T>>, n: NodeId)
    requires Run(events).Some?
    ensures OwnSeq(Run(events).value.nodes, n) <= CountAdds(events)
  {
    if events != [] {
      var k := |events| - 1;
      var net, e := Run(events[..k]).value, events[k];
      SeqAtMostAdds(events[..k], n);
      RunKeepsInv(events[..k]);
      if e.Deliver? && e.node == n {
        assert GoodCopy(net, net.packets[e.packet]);
        assert SeqOf(net.packets[e.packet], n) <= OwnSeq(net.nodes, n);
      }
    }
  }
}
