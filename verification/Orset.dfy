/** The observed-remove set of `crates/mercury-crdt/src/orset.rs`. */
module Orset {
  import opened Base
  import opened Clock
  import Joins

  /** A unique tag for each add. */
  datatype Dot = Dot(node: NodeId, number: nat)

  datatype State<T> = State(entries: map<T, set<Dot>>, nextSeq: map<NodeId, nat>)

  function At<T>(m: map<T, set<Dot>>, v: T): set<Dot> {
    if v in m then m[v] else {}
  }

  function NumberAt(m: map<NodeId, nat>, n: NodeId): nat {
    if n in m then m[n] else 0
  }

  function DotsOf<T>(s: State<T>, v: T): set<Dot> {
    At(s.entries, v)
  }

  function SeqOf<T>(s: State<T>, n: NodeId): nat {
    NumberAt(s.nextSeq, n)
  }

  function NextDot<T>(s: State<T>, n: NodeId): Dot {
    Dot(n, SeqOf(s, n) + 1)
  }

  predicate Contains<T>(s: State<T>, v: T) {
    DotsOf(s, v) != {}
  }

  ghost function Elements<T>(s: State<T>): set<T> {
    set v | v in s.entries && s.entries[v] != {}
  }

  function Added<T>(s: State<T>, v: T, n: NodeId): State<T> {
    State(s.entries[v := DotsOf(s, v) + {NextDot(s, n)}], s.nextSeq[n := SeqOf(s, n) + 1])
  }

  function Removed<T>(s: State<T>, v: T): State<T> {
    State(s.entries - {v}, s.nextSeq)
  }

  function UnionDots<T>(a: map<T, set<Dot>>, b: map<T, set<Dot>>): (r: map<T, set<Dot>>)
    ensures r.Keys == a.Keys + b.Keys
  {
    map v | v in a.Keys + b.Keys :: At(a, v) + At(b, v)
  }

  function MaxSeqs(a: map<NodeId, nat>, b: map<NodeId, nat>): (r: map<NodeId, nat>)
    ensures r.Keys == a.Keys + b.Keys
  {
    map n | n in a.Keys + b.Keys :: Max(NumberAt(a, n), NumberAt(b, n))
  }

  /** `merge`, as a function: dots are united, sequence numbers maximised. */
  function Joined<T>(a: State<T>, b: State<T>): State<T> {
    State(UnionDots(a.entries, b.entries), MaxSeqs(a.nextSeq, b.nextSeq))
  }

  lemma SameDots<T>(x: map<T, set<Dot>>, y: map<T, set<Dot>>)
    requires x.Keys == y.Keys
    requires forall v | v in x.Keys :: At(x, v) == At(y, v)
    ensures x == y
  {
    forall v | v in x ensures x[v] == y[v] {
      assert At(x, v) == At(y, v);
    }
  }

  lemma UnionAt<T>(a: map<T, set<Dot>>, b: map<T, set<Dot>>, v: T)
    ensures At(UnionDots(a, b), v) == At(a, v) + At(b, v)
  {
  }

  lemma MaxAt(a: map<NodeId, nat>, b: map<NodeId, nat>, n: NodeId)
    ensures NumberAt(MaxSeqs(a, b), n) == Max(NumberAt(a, n), NumberAt(b, n))
  {
  }

  lemma UnionCommutes<T>(a: map<T, set<Dot>>, b: map<T, set<Dot>>)
    ensures UnionDots(a, b) == UnionDots(b, a)
  {
    forall v | v in a.Keys + b.Keys ensures At(UnionDots(a, b), v) == At(UnionDots(b, a), v) {
      UnionAt(a, b, v);
      UnionAt(b, a, v);
    }
    SameDots(UnionDots(a, b), UnionDots(b, a));
  }

  lemma UnionIdempotent<T>(a: map<T, set<Dot>>)
    ensures UnionDots(a, a) == a
  {
    forall v | v in a.Keys ensures At(UnionDots(a, a), v) == At(a, v) {
      UnionAt(a, a, v);
    }
    SameDots(UnionDots(a, a), a);
  }

  lemma UnionAssociates<T>(a: map<T, set<Dot>>, b: map<T, set<Dot>>, c: map<T, set<Dot>>)
    ensures UnionDots(UnionDots(a, b), c) == UnionDots(a, UnionDots(b, c))
  {
    var l, r := UnionDots(UnionDots(a, b), c), UnionDots(a, UnionDots(b, c));
    forall v | v in l.Keys ensures At(l, v) == At(r, v) {
      UnionAt(UnionDots(a, b), c, v);
      UnionAt(a, b, v);
      UnionAt(a, UnionDots(b, c), v);
      UnionAt(b, c, v);
    }
    SameDots(l, r);
  }

  lemma MaxAssociates(a: map<NodeId, nat>, b: map<NodeId, nat>, c: map<NodeId, nat>)
    ensures MaxSeqs(MaxSeqs(a, b), c) == MaxSeqs(a, MaxSeqs(b, c))
  {
    var l, r := MaxSeqs(MaxSeqs(a, b), c), MaxSeqs(a, MaxSeqs(b, c));
    forall n | n in l.Keys ensures l[n] == r[n] {
      MaxAt(MaxSeqs(a, b), c, n);
      MaxAt(a, b, n);
      MaxAt(a, MaxSeqs(b, c), n);
      MaxAt(b, c, n);
    }
  }

  lemma JoinCommutes<T>(a: State<T>, b: State<T>)
    ensures Joined(a, b) == Joined(b, a)
  {
    UnionCommutes(a.entries, b.entries);
    assert MaxSeqs(a.nextSeq, b.nextSeq) == MaxSeqs(b.nextSeq, a.nextSeq);
  }

  lemma JoinAssociates<T>(a: State<T>, b: State<T>, c: State<T>)
    ensures Joined(Joined(a, b), c) == Joined(a, Joined(b, c))
  {
    UnionAssociates(a.entries, b.entries, c.entries);
    MaxAssociates(a.nextSeq, b.nextSeq, c.nextSeq);
  }

  lemma JoinIdempotent<T>(a: State<T>)
    ensures Joined(a, a) == a
  {
    UnionIdempotent(a.entries);
    assert MaxSeqs(a.nextSeq, a.nextSeq) == a.nextSeq;
  }

  /** Merging any states of the set, in any order and with any repetition,
      depends only on which states took part. */
  lemma OrsetOrderFree<T(!new)>(xs: seq<State<T>>, ys: seq<State<T>>)
    requires xs != [] && (forall x :: x in xs <==> x in ys)
    ensures ys != []
    ensures Joins.MergeAll((a, b) => Joined<T>(a, b), xs) == Joins.MergeAll((a, b) => Joined<T>(a, b), ys)
  {
    var every := (s: State<T>) => true;
    var join := (a: State<T>, b: State<T>) => Joined(a, b);
    forall a, b ensures join(a, b) == join(b, a) {
      JoinCommutes(a, b);
    }
    forall a, b, c ensures join(join(a, b), c) == join(a, join(b, c)) {
      JoinAssociates(a, b, c);
    }
    forall a ensures join(a, a) == a {
      JoinIdempotent(a);
    }
    Joins.OrderFree(every, join, xs, ys);
  }

  /** An add gives its value one new dot of the node, and no other value any. */
  lemma AddStoresDot<T>(s: State<T>, v: T, n: NodeId)
    ensures Contains(Added(s, v, n), v)
    ensures DotsOf(Added(s, v, n), v) == DotsOf(s, v) + {Dot(n, SeqOf(s, n) + 1)}
    ensures forall w | w != v :: DotsOf(Added(s, v, n), w) == DotsOf(s, w)
    ensures forall m | m != n :: SeqOf(Added(s, v, n), m) == SeqOf(s, m)
    ensures SeqOf(Added(s, v, n), n) == SeqOf(s, n) + 1
  {
    assert Dot(n, SeqOf(s, n) + 1) in DotsOf(Added(s, v, n), v);
  }

  /** A remove takes every dot of its value, none of another, and leaves the
      sequence numbers. */
  lemma RemoveTakesDots<T>(s: State<T>, v: T)
    ensures DotsOf(Removed(s, v), v) == {}
    ensures forall w | w != v :: DotsOf(Removed(s, v), w) == DotsOf(s, w)
    ensures forall n :: SeqOf(Removed(s, v), n) == SeqOf(s, n)
  {
  }

  /** An element is in the merge exactly when it is in either side: adds win,
      and a remove has no effect on a copy that has not seen it. */
  lemma JoinContains<T>(a: State<T>, b: State<T>, v: T)
    ensures Contains(Joined(a, b), v) <==> Contains(a, v) || Contains(b, v)
  {
    assert DotsOf(Joined(a, b), v) == DotsOf(a, v) + DotsOf(b, v);
  }

  /** So a removed element comes back from any copy that still holds it. */
  lemma RemoveIsForgotten<T>(a: State<T>, stale: State<T>, v: T)
    ensures !Contains(Removed(a, v), v)
    ensures Contains(Joined(Removed(a, v), stale), v) <==> Contains(stale, v)
  {
    JoinContains(Removed(a, v), stale, v);
  }

  // ---- The object ----

  class OrSet<T(==)> {
    var entries: map<T, set<Dot>>
    var nextSeq: map<NodeId, nat>

    function Value(): State<T>
      reads this
    {
      State(entries, nextSeq)
    }

    constructor ()
      ensures Value() == State(map[], map[])
    {
      entries := map[];
      nextSeq := map[];
    }

    method Add(v: T, n: NodeId)
      modifies this
      ensures Value() == Added(old(Value()), v, n)
      ensures Contains(Value(), v)
      ensures DotsOf(Value(), v) == DotsOf(old(Value()), v) + {Dot(n, SeqOf(old(Value()), n) + 1)}
    {
      if n !in nextSeq {
        nextSeq := nextSeq[n := 0];
      }
      nextSeq := nextSeq[n := nextSeq[n] + 1];
      var dot := Dot(n, nextSeq[n]);
      if v !in entries {
        entries := entries[v := {}];
      }
      entries := entries[v := entries[v] + {dot}];
      AddStoresDot(old(Value()), v, n);
    }

    method Remove(v: T)
      modifies this
      ensures Value() == Removed(old(Value()), v)
    {
      entries := entries - {v};
    }

    method Has(v: T) returns (found: bool)
      ensures found <==> Contains(Value(), v)
    {
      found := v in entries && entries[v] != {};
    }

    method Len() returns (n: nat)
      ensures n == |Elements(Value())|
    {
      n := 0;
      var rest := entries.Keys;
      ghost var counted: set<T> := {};
      while rest != {}
        invariant rest <= entries.Keys
        invariant counted == set v | v in entries && v !in rest && entries[v] != {}
        invariant n == |counted|
      {
        var v :| v in rest;
        rest := rest - {v};
        if entries[v] != {} {
          n := n + 1;
          counted := counted + {v};
        }
      }
      assert counted == Elements(Value());
    }

    method Merge(other: OrSet<T>)
      modifies this
      ensures Value() == Joined(old(Value()), old(other.Value()))
    {
      var theirs, theirSeqs := other.entries, other.nextSeq;
      MergeEntries(theirs);
      MergeSeqs(theirSeqs);
    }

    method MergeEntries(theirs: map<T, set<Dot>>)
      modifies this`entries
      ensures entries == UnionDots(old(entries), theirs)
    {
      ghost var mine := entries;
      var rest := theirs.Keys;
      NothingUnited(mine, theirs);
      while rest != {}
        invariant rest <= theirs.Keys
        invariant entries == UnionDots(mine, theirs - rest)
      {
        var v :| v in rest;
        var dots := if v in entries then entries[v] else {};
        ghost var before := dots;
        var left := theirs[v];
        while left != {}
          invariant left <= theirs[v]
          invariant dots == before + (theirs[v] - left)
        {
          var dot :| dot in left;
          dots := dots + {dot};
          left := left - {dot};
        }
        assert dots == At(entries, v) + theirs[v];
        OneMoreKey(mine, theirs, rest, v);
        entries := entries[v := dots];
        rest := rest - {v};
      }
      assert theirs - {} == theirs;
    }

    method MergeSeqs(theirs: map<NodeId, nat>)
      modifies this`nextSeq
      ensures nextSeq == MaxSeqs(old(nextSeq), theirs)
    {
      ghost var mine := nextSeq;
      var rest := theirs.Keys;
      assert theirs - rest == map[];
      while rest != {}
        invariant rest <= theirs.Keys
        invariant nextSeq == MaxSeqs(mine, theirs - rest)
      {
        var n :| n in rest;
        OneMoreSeq(mine, theirs, rest, n);
        nextSeq := nextSeq[n := Max(if n in nextSeq then nextSeq[n] else 0, theirs[n])];
        rest := rest - {n};
      }
      assert theirs - {} == theirs;
    }
  }

  lemma NothingUnited<T>(mine: map<T, set<Dot>>, theirs: map<T, set<Dot>>)
    ensures UnionDots(mine, theirs - theirs.Keys) == mine
  {
    var none := theirs - theirs.Keys;
    assert none == map[];
    forall v | v in mine.Keys ensures At(UnionDots(mine, none), v) == At(mine, v) {
      UnionAt(mine, none, v);
    }
    SameDots(UnionDots(mine, none), mine);
  }

  lemma OneMoreKey<T>(mine: map<T, set<Dot>>, theirs: map<T, set<Dot>>, rest: set<T>, v: T)
    requires rest <= theirs.Keys && v in rest
    ensures
      var done := UnionDots(mine, theirs - rest);
      UnionDots(mine, theirs - (rest - {v})) == done[v := At(done, v) + theirs[v]]
  {
    var done := UnionDots(mine, theirs - rest);
    var more := UnionDots(mine, theirs - (rest - {v}));
    var r := done[v := At(done, v) + theirs[v]];
    forall w | w in more.Keys ensures At(more, w) == At(r, w) {
      UnionAt(mine, theirs - rest, w);
      UnionAt(mine, theirs - (rest - {v}), w);
    }
    SameDots(more, r);
  }

  lemma OneMoreSeq(mine: map<NodeId, nat>, theirs: map<NodeId, nat>, rest: set<NodeId>, n: NodeId)
    requires rest <= theirs.Keys && n in rest
    ensures
      var done := MaxSeqs(mine, theirs - rest);
      MaxSeqs(mine, theirs - (rest - {n})) == done[n := Max(if n in done then done[n] else 0, theirs[n])]
  {
  }
}
