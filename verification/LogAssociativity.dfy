/** When the capped merge of `crates/mercury-crdt/src/message_log.rs` is
    associative. */
module LogAssociativity {
  import opened Base
  import opened Clock
  import opened MessageLog

  /** The keys that `b` would bring along from `c` past `a`, and that are lower
      than some key which `a` takes from `b` alone. */
  ghost function Undercut(a: Entries, b: Entries, c: Entries): set<Stamp> {
    set x | x in Taken(b, c) && x !in a && exists y :: y in Taken(a, b) && Less(x, y)
  }

  /** The members of `d` that are lower than some member of `t`. */
  ghost function Under(d: set<Stamp>, t: set<Stamp>): set<Stamp> {
    set x | x in d && exists y :: y in t && Less(x, y)
  }

  lemma DisjointSize<T>(a: set<T>, b: set<T>)
    requires a !! b
    ensures |a + b| == |a| + |b|
  {
  }

  /** Of two downward closed parts the one of no more members is the smaller. */
  lemma DownClosedNest(p: set<Stamp>, q: set<Stamp>, s: set<Stamp>)
    requires DownClosed(p, s) && DownClosed(q, s) && |p| <= |q|
    ensures p <= q
  {
    if x :| x in p && x !in q {
      forall y | y in q ensures y in p {
        if y !in p {
          LowerThanRest(p, s, x, y);
          LowerThanRest(q, s, y, x);
          assert false;
        }
      }
      SubsetSize(q, p);
    }
  }

  lemma UnderIsDownClosed(d: set<Stamp>, t: set<Stamp>)
    ensures DownClosed(Under(d, t), d)
  {
    var under := Under(d, t);
    forall x, y | x in under && y in d - under ensures Less(x, y) {
      var z :| z in t && Less(x, z);
      assert !Less(y, z);
    }
  }

  /** Taking all of `t` and then the lowest of `d` takes the lowest of both
      exactly when `t` and what undercuts it have room together. */
  lemma TakingFirstIff(t: set<Stamp>, d: set<Stamp>, room: nat)
    requires t !! d && |t| <= room
    ensures t + Lowest(d, room - |t|) == Lowest(t + d, room) <==> |t| + |Under(d, t)| <= room
  {
    var low, under := Lowest(d, room - |t|), Under(d, t);
    DisjointSize(t, d);
    DisjointSize(t, low);
    UnderIsDownClosed(d, t);
    if |t| + |under| <= room {
      if |d| <= room - |t| {
        SubsetSize(low, d);
      } else {
        SubsetSize(under, d);
      }
      UnderFits(t, d, low);
      LowestUnique(t + low, Lowest(t + d, room), t + d, room);
    } else if t + low == Lowest(t + d, room) {
      UnderIsTaken(t, d, low);
      SubsetSize(under, low);
    }
  }

  lemma UnderFits(t: set<Stamp>, d: set<Stamp>, low: set<Stamp>)
    requires t !! d && DownClosed(low, d) && (|Under(d, t)| <= |low| || low == d)
    ensures DownClosed(t + low, t + d)
  {
    UnderIsDownClosed(d, t);
    if |Under(d, t)| <= |low| {
      DownClosedNest(Under(d, t), low, d);
    }
    forall x, y | x in t + low && y in (t + d) - (t + low) ensures Less(x, y) {
      if x in t {
        assert y !in Under(d, t);
      } else {
        LowerThanRest(low, d, x, y);
      }
    }
  }

  lemma UnderIsTaken(t: set<Stamp>, d: set<Stamp>, low: set<Stamp>)
    requires t !! d && low <= d && DownClosed(t + low, t + d)
    ensures Under(d, t) <= low
  {
    forall x | x in Under(d, t) ensures x in low {
      var y :| y in t && Less(x, y);
      if x !in low {
        LowerThanRest(t + low, t + d, y, x);
        assert false;
      }
    }
  }

  /** Cutting one part first does not change the lowest of both. */
  lemma CutFirst(s: set<Stamp>, d: set<Stamp>, n: nat)
    ensures Lowest(s + d, n) == Lowest(Lowest(s, n) + d, n)
  {
    var t, v := Lowest(s, n), Lowest(s + d, n);
    if t == s {
      assert t + d == s + d;
    } else {
      assert |t| == n by { SubsetSize(t, s); }
      CutKeepsLowest(s, d, t, v, n);
      SubsetSize(t, t + d);
      SubsetSize(s + d, s + d);
      SubsetSize(t + d, s + d);
      LowestUnique(v, Lowest(t + d, n), t + d, n);
    }
  }

  lemma CutKeepsLowest(s: set<Stamp>, d: set<Stamp>, t: set<Stamp>, v: set<Stamp>, n: nat)
    requires DownClosed(t, s) && |t| == n && DownClosed(v, s + d) && |v| <= n
    ensures DownClosed(v, t + d)
  {
    var part := v * s;
    SubsetSize(part, v);
    forall x, y | x in part && y in s - part ensures Less(x, y) {
      LowerThanRest(v, s + d, x, y);
    }
    DownClosedNest(part, t, s);
    forall x, y | x in v && y in (t + d) - v ensures Less(x, y) {
      LowerThanRest(v, s + d, x, y);
    }
  }

  /** A downward closed part that is large enough has the same lowest. */
  lemma LowestOfPart(part: set<Stamp>, s: set<Stamp>, n: nat)
    requires DownClosed(part, s) && (n <= |part| || part == s)
    ensures Lowest(part, n) == Lowest(s, n)
  {
    if part != s {
      SubsetSize(part, s);
      var low := Lowest(part, n);
      forall x, y | x in low && y in s - low ensures Less(x, y) {
        if y in part {
          LowerThanRest(low, part, x, y);
        } else {
          LowerThanRest(part, s, x, y);
        }
      }
      LowestUnique(low, Lowest(s, n), s, n);
    }
  }

  /** What `b` brings along from `c` past `a` is large enough for `a`. */
  lemma BroughtIsEnough(a: Entries, b: Entries, c: Entries)
    requires Fits(a.Keys) && Fits(b.Keys)
    ensures
      var brought := Taken(b, c) - a.Keys;
      var missing := c.Keys - b.Keys - a.Keys;
      && DownClosed(brought, missing)
      && (Room(a) - |b.Keys - a.Keys| <= |brought| || brought == missing)
  {
    var taken, missing := Taken(b, c), c.Keys - b.Keys;
    forall x, y | x in taken - a.Keys && y in (missing - a.Keys) - (taken - a.Keys) ensures Less(x, y) {
      LowerThanRest(taken, missing, x, y);
    }
    if |taken| == |missing| {
      SubsetSize(taken, missing);
    } else {
      SharedSize(a.Keys, b.Keys, taken);
    }
  }

  lemma SharedSize(a: set<Stamp>, b: set<Stamp>, taken: set<Stamp>)
    requires taken !! b
    ensures |taken - a| >= |taken| + |b| - |a| - |b - a|
  {
    assert taken == (taken - a) + taken * a;
    DisjointSize(taken - a, taken * a);
    assert b == (b - a) + b * a;
    DisjointSize(b - a, b * a);
    DisjointSize(taken * a, b * a);
    SubsetSize(taken * a + b * a, a);
  }

  /** A merge as a step on keys: what it adds, and what room it leaves. */
  lemma MergeKeys(a: Entries, b: Entries)
    requires Fits(a.Keys)
    ensures
      var r := CappedMerge(a, b);
      r.Keys == a.Keys + Taken(a, b) && |Taken(a, b)| <= Room(a) && Room(r) == Room(a) - |Taken(a, b)|
  {
    TakingOver(a, b, Taken(a, b));
  }

  lemma TakenOf(a: Entries, b: Entries, missing: set<Stamp>, room: nat)
    requires missing == b.Keys - a.Keys && room == Room(a)
    ensures Taken(a, b) == Lowest(missing, room)
  {
  }

  lemma NothingOfNone(s: set<Stamp>)
    ensures Lowest(s, 0) == {}
  {
  }

  lemma MissingSecond(a: set<Stamp>, b: set<Stamp>, c: set<Stamp>, t: set<Stamp>)
    requires t == b - a
    ensures c - (a + t) == c - b - a
  {
  }

  lemma MissingAtOnce(a: set<Stamp>, b: set<Stamp>, u: set<Stamp>)
    ensures (b + u) - a == (b - a) + (u - a)
  {
  }

  lemma AllTaken(a: Entries, b: Entries)
    requires |Taken(a, b)| < Room(a)
    ensures Taken(a, b) == b.Keys - a.Keys
  {
    SubsetSize(Taken(a, b), b.Keys - a.Keys);
  }

  /** What is added in the second step of merging `b` and then `c` into `a`. */
  lemma SecondStep(a: Entries, b: Entries, c: Entries, ab: Entries)
    requires Fits(a.Keys) && Fits(b.Keys)
    requires ab.Keys == a.Keys + Taken(a, b) && Room(ab) == Room(a) - |Taken(a, b)|
    ensures Taken(ab, c) == Lowest(Taken(b, c) - a.Keys, Room(ab))
  {
    var d, missing := Taken(b, c) - a.Keys, c.Keys - b.Keys - a.Keys;
    if Room(ab) == 0 {
      TakenOf(ab, c, c.Keys - ab.Keys, 0);
      NothingOfNone(d);
      NothingOfNone(c.Keys - ab.Keys);
    } else {
      AllTaken(a, b);
      MissingSecond(a.Keys, b.Keys, c.Keys, Taken(a, b));
      TakenOf(ab, c, missing, Room(ab));
      BroughtIsEnough(a, b, c);
      LowestOfPart(d, missing, Room(ab));
    }
  }

  /** What is added by merging into `a` the merge of `b` and `c`. */
  lemma AllAtOnce(a: Entries, b: Entries, c: Entries, bc: Entries)
    requires bc.Keys == b.Keys + Taken(b, c)
    ensures Taken(a, bc) == Lowest(Taken(a, b) + (Taken(b, c) - a.Keys), Room(a))
  {
    var missing, d := b.Keys - a.Keys, Taken(b, c) - a.Keys;
    MissingAtOnce(a.Keys, b.Keys, Taken(b, c));
    TakenOf(a, bc, missing + d, Room(a));
    TakenOf(a, b, missing, Room(a));
    CutFirst(missing, d, Room(a));
  }

  lemma KeysAgreeIff(a: Entries, b: Entries, c: Entries)
    requires Fits(a.Keys) && Fits(b.Keys)
    ensures
      CappedMerge(CappedMerge(a, b), c).Keys == CappedMerge(a, CappedMerge(b, c)).Keys
      <==> |Taken(a, b)| + |Undercut(a, b, c)| <= Room(a)
  {
    var ab, bc := CappedMerge(a, b), CappedMerge(b, c);
    MergeKeys(a, b);
    MergeKeys(b, c);
    MergeKeys(ab, c);
    MergeKeys(a, bc);
    SecondStep(a, b, c, ab);
    AllAtOnce(a, b, c, bc);
    UndercutIsUnder(a, b, c);
    AdditionsAgreeIff(a.Keys, Taken(a, b), Taken(b, c) - a.Keys, Room(a));
  }

  lemma UndercutIsUnder(a: Entries, b: Entries, c: Entries)
    ensures Under(Taken(b, c) - a.Keys, Taken(a, b)) == Undercut(a, b, c)
    ensures Taken(a, b) !! Taken(b, c) - a.Keys && Taken(a, b) !! a.Keys
  {
  }

  lemma AdditionsAgreeIff(a: set<Stamp>, t: set<Stamp>, d: set<Stamp>, room: nat)
    requires |t| <= room && t !! d && t !! a && d !! a
    ensures
      a + t + Lowest(d, room - |t|) == a + Lowest(t + d, room) <==> |t| + |Under(d, t)| <= room
  {
    TakingFirstIff(t, d, room);
    SameAddition(a, t, Lowest(d, room - |t|), Lowest(t + d, room));
  }

  lemma SameAddition(a: set<Stamp>, t: set<Stamp>, x: set<Stamp>, y: set<Stamp>)
    requires a !! t && a !! x && a !! y
    ensures a + t + x == a + y <==> t + x == y
  {
    assert (a + t + x) - a == t + x && (a + y) - a == y;
    assert a + t + x == a + (t + x);
  }

  /** Data follows the first holder, and in the second step nothing is taken
      that `b` holds. */
  lemma LeftData(a: Entries, b: Entries, c: Entries, k: Stamp)
    requires Fits(a.Keys) && k in CappedMerge(CappedMerge(a, b), c)
    ensures
      CappedMerge(CappedMerge(a, b), c)[k] == if k in a then a[k] else if k in b then b[k] else c[k]
  {
    var ab := CappedMerge(a, b);
    MergeKeys(a, b);
    if k !in ab && k in b {
      SecondTakesNoneOf(a, b, c, ab, k);
      assert false;
    }
  }

  lemma SecondTakesNoneOf(a: Entries, b: Entries, c: Entries, ab: Entries, k: Stamp)
    requires ab.Keys == a.Keys + Taken(a, b) && Room(ab) == Room(a) - |Taken(a, b)|
    requires k in b && k !in ab
    ensures k !in Taken(ab, c)
  {
    if Room(ab) > 0 {
      SubsetSize(Taken(a, b), b.Keys - a.Keys);
    }
  }

  lemma RightData(a: Entries, b: Entries, c: Entries, k: Stamp)
    requires k in CappedMerge(a, CappedMerge(b, c))
    ensures
      CappedMerge(a, CappedMerge(b, c))[k] == if k in a then a[k] else if k in b then b[k] else c[k]
  {
  }

  /** Merging three logs is associative exactly when what the first takes from
      the second, and what of the third undercuts it, have room together. */
  lemma MergeAssociatesIff(a: Entries, b: Entries, c: Entries)
    requires Fits(a.Keys) && Fits(b.Keys)
    ensures
      CappedMerge(CappedMerge(a, b), c) == CappedMerge(a, CappedMerge(b, c))
      <==> |Taken(a, b)| + |Undercut(a, b, c)| <= Room(a)
  {
    KeysAgreeIff(a, b, c);
    var left, right := CappedMerge(CappedMerge(a, b), c), CappedMerge(a, CappedMerge(b, c));
    if left.Keys == right.Keys {
      forall k | k in left ensures left[k] == right[k] {
        LeftData(a, b, c, k);
        RightData(a, b, c, k);
      }
    }
  }

  /** As long as everything fits, merging is associative, agreement or not. */
  lemma MergeAssociative(a: Entries, b: Entries, c: Entries)
    requires Fits(a.Keys + b.Keys + c.Keys)
    ensures CappedMerge(CappedMerge(a, b), c) == CappedMerge(a, CappedMerge(b, c))
  {
    var all := a.Keys + b.Keys + c.Keys;
    var t, u := Taken(a, b), Undercut(a, b, c);
    SubsetSize(a.Keys, all);
    SubsetSize(b.Keys, all);
    assert t !! u && t + u !! a.Keys && a.Keys + (t + u) <= all;
    DisjointSize(t, u);
    DisjointSize(a.Keys, t + u);
    SubsetSize(a.Keys + (t + u), all);
    MergeAssociatesIff(a, b, c);
  }

  /** Past the cap the promised associativity fails too: when `a` and `b` fill
      the log, a lower key of `c` gets in only if `b` met `c` first. */
  lemma MergeNotAssociativeAtCap(a: Entries, b: Entries, c: Entries, k: Stamp)
    requires Fits(a.Keys) && Room(a) > 0 && Room(b) > 0
    requires |a.Keys + b.Keys| >= MAX_LOG_ENTRIES
    requires k in c && k !in a && k !in b
    requires forall x | x in c.Keys - b.Keys || x in b.Keys - a.Keys :: AtMost(k, x)
    ensures CappedMerge(CappedMerge(a, b), c) != CappedMerge(a, CappedMerge(b, c))
    ensures k !in CappedMerge(CappedMerge(a, b), c)
    ensures k in CappedMerge(a, CappedMerge(b, c))
    ensures |Taken(a, b)| + |Undercut(a, b, c)| > Room(a)
  {
    MergeAssociatesIff(a, b, c);
    CappedMergeExact(a, b);
    FullTakesNothing(CappedMerge(a, b), c);
    var bc := CappedMerge(b, c);
    LowestIsTaken(b, c, k);
    assert bc.Keys - a.Keys <= (c.Keys - b.Keys) + (b.Keys - a.Keys) by {
      TakingOver(b, c, Taken(b, c));
    }
    LowestIsTaken(a, bc, k);
  }

  // ---- A family at the cap ----

  /** The stamps of one node at the wall values from `low` to below `high`. */
  function Span(low: nat, high: nat): set<Stamp>
    requires high < TWO_TO_64
  {
    set i: U64 | low <= i < high :: Stamp(i, 0, 0)
  }

  function Filled(low: nat, high: nat): Entries
    requires high < TWO_TO_64
  {
    map k | k in Span(low, high) :: []
  }

  lemma {:induction false} SpanSize(low: nat, high: nat)
    requires low <= high < TWO_TO_64
    ensures |Span(low, high)| == high - low
  {
    if low < high {
      SpanSize(low, high - 1);
      assert Span(low, high) == Span(low, high - 1) + {Stamp(high - 1, 0, 0)};
    } else {
      assert Span(low, high) == {};
    }
  }

  lemma FilledKeys(low: nat, high: nat)
    requires low <= high < TWO_TO_64
    ensures |Filled(low, high).Keys| == high - low
    ensures forall k :: k in Filled(low, high) <==> low <= k.wall < high && k.counter == 0 && k.node == 0
  {
    SpanSize(low, high);
    assert Filled(low, high).Keys == Span(low, high);
  }

  /** A log one short of full, one later entry and one earlier entry: whoever
      meets the full log first stays. */
  lemma CapBreaksAssociativity()
    ensures
      var cap := MAX_LOG_ENTRIES;
      var a, b, c := Filled(1, cap), Filled(cap, cap + 1), Filled(0, 1);
      && Fits(a.Keys) && Fits(b.Keys) && Fits(c.Keys)
      && CappedMerge(CappedMerge(a, b), c) != CappedMerge(a, CappedMerge(b, c))
  {
    var cap := MAX_LOG_ENTRIES;
    var a, b, c := Filled(1, cap), Filled(cap, cap + 1), Filled(0, 1);
    FilledKeys(1, cap);
    FilledKeys(cap, cap + 1);
    FilledKeys(0, 1);
    BreaksAtCap(a, b, c);
  }

  lemma BreaksAtCap(a: Entries, b: Entries, c: Entries)
    requires |a.Keys| == MAX_LOG_ENTRIES - 1 && |b.Keys| == 1
    requires forall x | x in a :: 1 <= x.wall < MAX_LOG_ENTRIES
    requires forall x | x in b :: x.wall == MAX_LOG_ENTRIES
    requires forall x :: x in c <==> x.wall == 0 && x.counter == 0 && x.node == 0
    ensures CappedMerge(CappedMerge(a, b), c) != CappedMerge(a, CappedMerge(b, c))
  {
    var k := Stamp(0, 0, 0);
    AtTheCap(a, b, c, k);
    MergeNotAssociativeAtCap(a, b, c, k);
  }

  lemma AtTheCap(a: Entries, b: Entries, c: Entries, k: Stamp)
    requires k == Stamp(0, 0, 0) && |a.Keys| == MAX_LOG_ENTRIES - 1 && |b.Keys| == 1
    requires forall x | x in a :: 1 <= x.wall < MAX_LOG_ENTRIES
    requires forall x | x in b :: x.wall == MAX_LOG_ENTRIES
    requires forall x :: x in c <==> x == k
    ensures |a.Keys + b.Keys| >= MAX_LOG_ENTRIES && k in c && k !in a && k !in b
    ensures forall x | x in c.Keys - b.Keys || x in b.Keys - a.Keys :: AtMost(k, x)
  {
    DisjointSize(a.Keys, b.Keys);
  }
}
