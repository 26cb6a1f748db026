/** The grow-only counter of `crates/mercury-crdt/src/gcounter.rs`, and runs of
    nodes that count under their own slot and merge copies in any order. */
module GCounter {
  import opened Base
  import opened Clock
  import Joins

  type Counts = map<NodeId, nat>

  function At(m: Counts, n: NodeId): nat {
    if n in m then m[n] else 0
  }

  function Incremented(m: Counts, n: NodeId): Counts {
    m[n := At(m, n) + 1]
  }

  function Joined(a: Counts, b: Counts): (r: Counts)
    ensures r.Keys == a.Keys + b.Keys
    ensures forall n: NodeId :: At(r, n) == Max(At(a, n), At(b, n))
  {
    map n | n in a.Keys + b.Keys :: Max(At(a, n), At(b, n))
  }

  /** The sum of all slots. */
  ghost function Total(m: Counts): nat {
    if m == map[] then 0
    else
      var n :| n in m;
      m[n] + Total(m - {n})
  }

  lemma {:induction false} TotalSplit(m: Counts, n: NodeId)
    requires n in m
    ensures Total(m) == m[n] + Total(m - {n})
  {
    var k :| k in m && Total(m) == m[k] + Total(m - {k});
    if k != n {
      TotalSplit(m - {k}, n);
      TotalSplit(m - {n}, k);
      assert m - {k} - {n} == m - {n} - {k};
    }
  }

  ghost predicate Below(a: Counts, b: Counts) {
    forall n: NodeId :: At(a, n) <= At(b, n)
  }

  lemma {:induction false} TotalMonotone(a: Counts, b: Counts)
    requires Below(a, b)
    ensures Total(a) <= Total(b)
    decreases |a|
  {
    if a != map[] {
      var n :| n in a;
      TotalSplit(a, n);
      var a', b' := a - {n}, b - {n};
      forall k: NodeId ensures At(a', k) <= At(b', k) {
        assert At(a, k) <= At(b, k);
      }
      TotalMonotone(a', b');
      if n in b {
        TotalSplit(b, n);
        assert At(a, n) <= At(b, n);
      } else {
        assert b' == b;
        assert At(a, n) <= At(b, n);
      }
    }
  }

  lemma TotalIncremented(m: Counts, n: NodeId)
    ensures Total(Incremented(m, n)) == Total(m) + 1
  {
    TotalSplit(Incremented(m, n), n);
    assert Incremented(m, n) - {n} == m - {n};
    if n in m {
      TotalSplit(m, n);
    } else {
      assert m - {n} == m;
    }
  }

  lemma JoinAssociates(a: Counts, b: Counts, c: Counts)
    ensures Joined(Joined(a, b), c) == Joined(a, Joined(b, c))
  {
    SameCounts(Joined(Joined(a, b), c), Joined(a, Joined(b, c)));
  }

  lemma SameCounts(a: Counts, b: Counts)
    requires a.Keys == b.Keys && forall n: NodeId :: At(a, n) == At(b, n)
    ensures a == b
  {
    forall n | n in a ensures a[n] == b[n] {
      assert At(a, n) == At(b, n);
    }
  }

  ghost function Merge(a: Counts, b: Counts): Counts {
    Joined(a, b)
  }

  /** Merging depends only on which copies took part. */
  lemma CounterOrderFree(xs: seq<Counts>, ys: seq<Counts>)
    requires xs != [] && (forall x :: x in xs <==> x in ys)
    ensures ys != [] && Joins.MergeAll(Merge, xs) == Joins.MergeAll(Merge, ys)
  {
    forall a, b ensures Merge(a, b) == Merge(b, a) {
      SameCounts(Joined(a, b), Joined(b, a));
    }
    forall a, b, c ensures Merge(Merge(a, b), c) == Merge(a, Merge(b, c)) {
      JoinAssociates(a, b, c);
    }
    forall a ensures Merge(a, a) == a {
      SameCounts(Joined(a, a), a);
    }
    Joins.OrderFree((x: Counts) => true, Merge, xs, ys);
  }

  // ---- Runs ----

  datatype Event = Enter(node: NodeId) | Count(node: NodeId) | Send(node: NodeId) | Deliver(node: NodeId, packet: nat)

  /** `done` is history: how often each node has counted. */
  datatype Net = Net(nodes: map<NodeId, Counts>, packets: seq<Counts>, done: Counts)

  function Step(net: Net, e: Event): Option<Net> {
    var n := e.node;
    if e.Enter? then
      if n in net.nodes then None else Some(net.(nodes := net.nodes[n := map[]]))
    else if n !in net.nodes then None
    else
      match e
      case Count(_) =>
        Some(net.(nodes := net.nodes[n := Incremented(net.nodes[n], n)], done := Incremented(net.done, n)))
      case Send(_) => Some(net.(packets := net.packets + [net.nodes[n]]))
      case Deliver(_, k) =>
        if k >= |net.packets| then None
        else Some(net.(nodes := net.nodes[n := Joined(net.nodes[n], net.packets[k])]))
  }

  function Run(events: seq<Event>): Option<Net> {
    if events == [] then Some(Net(map[], [], map[]))
    else
      match Run(events[..|events| - 1])
      case None => None
      case Some(net) => Step(net, events[|events| - 1])
  }

  function Increments(events: seq<Event>): nat {
    if events == [] then 0
    else Increments(events[..|events| - 1]) + if events[|events| - 1].Count? then 1 else 0
  }

  /** No copy is ahead of what was done, and every node's own slot is exact. */
  ghost predicate Inv(net: Net) {
    && (forall n | n in net.nodes :: Below(net.nodes[n], net.done))
    && (forall n | n in net.nodes :: At(net.nodes[n], n) == At(net.done, n))
    && (forall p | p in net.packets :: Below(p, net.done))
    && net.done.Keys <= net.nodes.Keys
  }

  lemma BelowIncremented(m: Counts, done: Counts, n: NodeId)
    requires Below(m, done)
    ensures Below(m, Incremented(done, n))
    ensures At(m, n) == At(done, n) ==> Below(Incremented(m, n), Incremented(done, n))
  {
    forall k: NodeId ensures At(m, k) <= At(Incremented(done, n), k) {
      assert At(m, k) <= At(done, k);
    }
    if At(m, n) == At(done, n) {
      forall k: NodeId ensures At(Incremented(m, n), k) <= At(Incremented(done, n), k) {
        assert At(m, k) <= At(done, k);
      }
    }
  }

  lemma CountKeepsInv(net: Net, n: NodeId)
    requires Inv(net) && n in net.nodes
    ensures Inv(Step(net, Count(n)).value)
  {
    var net' := Step(net, Count(n)).value;
    forall k | k in net.nodes ensures Below(net'.nodes[k], net'.done) && At(net'.nodes[k], k) == At(net'.done, k) {
      BelowIncremented(net.nodes[k], net.done, n);
    }
    forall p | p in net'.packets ensures Below(p, net'.done) {
      BelowIncremented(p, net.done, n);
    }
  }

  lemma StepKeepsInv(net: Net, e: Event)
    requires Inv(net) && Step(net, e).Some?
    ensures Inv(Step(net, e).value)
  {
    var net' := Step(net, e).value;
    match e
    case Enter(n) =>
      assert At(net.done, n) == 0;
    case Count(n) => CountKeepsInv(net, n);
    case Send(n) =>
    case Deliver(n, k) =>
      var a, b := net.nodes[n], net.packets[k];
      assert Below(a, net.done) && Below(b, net.done);
      forall m: NodeId ensures At(Joined(a, b), m) <= At(net.done, m) {
        assert At(a, m) <= At(net.done, m) && At(b, m) <= At(net.done, m);
      }
  }

  lemma {:induction false} RunKeepsInv(events: seq<Event>)
    requires Run(events).Some?
    ensures Inv(Run(events).value)
    ensures Total(Run(events).value.done) == Increments(events)
  {
    if events != [] {
      var n := |events| - 1;
      var net, e := Run(events[..n]).value, events[n];
      RunKeepsInv(events[..n]);
      StepKeepsInv(net, e);
      if e.Count? {
        TotalIncremented(net.done, e.node);
      }
    }
  }

  ghost predicate Copy(net: Net, m: Counts) {
    m in net.packets || exists n :: n in net.nodes && net.nodes[n] == m
  }

  /** No copy ever shows more than the increments performed in the run. */
  lemma NeverOvercounts(events: seq<Event>, m: Counts)
    requires Run(events).Some? && Copy(Run(events).value, m)
    ensures Total(m) <= Increments(events)
  {
    RunKeepsInv(events);
    TotalMonotone(m, Run(events).value.done);
  }

  /** No step lowers the value that any node shows. */
  lemma NeverDecreases(net: Net, e: Event, n: NodeId)
    requires Step(net, e).Some? && n in net.nodes
    ensures n in Step(net, e).value.nodes
    ensures Total(net.nodes[n]) <= Total(Step(net, e).value.nodes[n])
  {
    var net' := Step(net, e).value;
    forall k: NodeId ensures At(net.nodes[n], k) <= At(net'.nodes[n], k) {
    }
    TotalMonotone(net.nodes[n], net'.nodes[n]);
  }

  lemma {:induction false} MergeAllBounds(xs: seq<Counts>, done: Counts)
    requires xs != [] && forall x | x in xs :: Below(x, done)
    ensures Below(Joins.MergeAll(Merge, xs), done)
    ensures forall x | x in xs :: Below(x, Joins.MergeAll(Merge, xs))
  {
    var n := |xs| - 1;
    assert xs[n] in xs;
    if n > 0 {
      var rest := Joins.MergeAll(Merge, xs[..n]);
      MergeAllBounds(xs[..n], done);
      var all := Joins.MergeAll(Merge, xs);
      forall k: NodeId ensures At(all, k) <= At(done, k) && At(rest, k) <= At(all, k) && At(xs[n], k) <= At(all, k) {
        assert At(rest, k) <= At(done, k) && At(xs[n], k) <= At(done, k);
      }
      forall x | x in xs ensures Below(x, all) {
        if x != xs[n] {
          assert x in xs[..n];
          assert Below(x, rest);
          forall k: NodeId ensures At(x, k) <= At(all, k) {
            assert At(x, k) <= At(rest, k);
          }
        }
      }
    }
  }

  /** Merging, in any order, copies that include the latest state of every node
      shows exactly the increments performed: nothing is lost or counted twice. */
  lemma CollectsEverything(events: seq<Event>, xs: seq<Counts>)
    requires Run(events).Some? && xs != []
    requires forall x | x in xs :: Copy(Run(events).value, x)
    requires forall n | n in Run(events).value.nodes :: Run(events).value.nodes[n] in xs
    ensures Total(Joins.MergeAll(Merge, xs)) == Increments(events)
  {
    var net := Run(events).value;
    RunKeepsInv(events);
    MergeAllBounds(xs, net.done);
    var all := Joins.MergeAll(Merge, xs);
    forall n: NodeId ensures At(net.done, n) <= At(all, n) {
      if n in net.nodes {
        assert Below(net.nodes[n], all);
        assert At(net.nodes[n], n) <= At(all, n);
      }
    }
    TotalMonotone(net.done, all);
    TotalMonotone(all, net.done);
  }

  // ---- The object ----

  class Counter {
    var counts: Counts

    constructor ()
      ensures counts == map[]
    {
      counts := map[];
    }

    method Increment(n: NodeId)
      modifies this
      ensures counts == Incremented(old(counts), n)
      ensures Total(counts) == Total(old(counts)) + 1
    {
      if n !in counts {
        counts := counts[n := 0];
      }
      counts := counts[n := counts[n] + 1];
      TotalIncremented(old(counts), n);
    }

    method Value() returns (sum: nat)
      ensures sum == Total(counts)
    {
      sum := 0;
      var rest := counts;
      while rest != map[]
        invariant sum + Total(rest) == Total(counts)
        decreases |rest|
      {
        var n :| n in rest;
        TotalSplit(rest, n);
        sum := sum + rest[n];
        rest := rest - {n};
      }
    }

    method Merge(other: Counter)
      modifies this
      ensures counts == Joined(old(counts), old(other.counts))
    {
      var theirs := other.counts;
      ghost var mine := counts;
      var rest := theirs.Keys;
      while rest != {}
        invariant rest <= theirs.Keys
        invariant counts.Keys == mine.Keys + (theirs.Keys - rest)
        invariant forall k: NodeId ::
            At(counts, k) == if k in rest then At(mine, k) else Max(At(mine, k), At(theirs, k))
      {
        var n :| n in rest;
        if n !in counts {
          counts := counts[n := 0];
        }
        counts := counts[n := Max(counts[n], theirs[n])];
        rest := rest - {n};
      }
      SameCounts(counts, Joined(mine, theirs));
    }
  }
}
