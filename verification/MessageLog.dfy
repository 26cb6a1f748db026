/** The bounded, clock-keyed log of `crates/mercury-crdt/src/message_log.rs`. */
module MessageLog {
  import opened Base
  import opened Clock

  const MAX_LOG_ENTRIES: nat := 100_000

  type Entries = map<Stamp, Bytes>

  datatype Outcome = Appended | LogFull(max: nat)

  // ---- The order in which a BTreeMap is walked ----

  predicate Ascending(ks: seq<Stamp>) {
    forall i, j | 0 <= i < j < |ks| :: Less(ks[i], ks[j])
  }

  /** `ks` lists the keys `s` in ascending order. */
  predicate Lists(ks: seq<Stamp>, s: set<Stamp>) {
    Ascending(ks) && (set k | k in ks) == s
  }

  function Insert(ks: seq<Stamp>, k: Stamp): (r: seq<Stamp>)
    requires Ascending(ks) && k !in ks
    ensures Ascending(r) && (forall x :: x in r <==> x == k || x in ks)
    ensures |r| == |ks| + 1
    ensures r != [] && (r[0] == k || (ks != [] && r[0] == ks[0]))
  {
    if ks == [] || Less(k, ks[0]) then [k] + ks
    else
      assert Less(ks[0], k) by { LessIsStrictTotalOrder(ks[0], k, k); }
      [ks[0]] + Insert(ks[1..], k)
  }

  method Walk(s: set<Stamp>) returns (ks: seq<Stamp>)
    ensures Lists(ks, s)
  {
    ks := [];
    var rest := s;
    while rest != {}
      invariant rest <= s && Ascending(ks)
      invariant forall x :: x in ks <==> x in s && x !in rest
    {
      var k :| k in rest;
      ks := Insert(ks, k);
      rest := rest - {k};
    }
  }

  lemma {:induction false} ListingSize(ks: seq<Stamp>, s: set<Stamp>)
    requires Lists(ks, s)
    ensures |ks| == |s|
    ensures ks != [] ==> Lists(ks[1..], s - {ks[0]})
  {
    if ks == [] {
      assert s == {};
    } else {
      assert ks[0] in s && ks[0] !in ks[1..];
      assert (set k | k in ks[1..]) == s - {ks[0]} by {
        forall k | k in s - {ks[0]} ensures k in ks[1..] {
          assert k in ks;
        }
      }
      ListingSize(ks[1..], s - {ks[0]});
    }
  }

  lemma {:induction false} ListingUnique(xs: seq<Stamp>, ys: seq<Stamp>, s: set<Stamp>)
    requires Lists(xs, s) && Lists(ys, s)
    ensures xs == ys
  {
    ListingSize(xs, s);
    ListingSize(ys, s);
    if xs != [] {
      assert xs[0] in s && ys[0] in s;
      assert xs[0] in ys && ys[0] in xs;
      assert xs[0] == ys[0];
      ListingUnique(xs[1..], ys[1..], s - {xs[0]});
    }
  }

  // ---- The lowest keys of a set ----

  lemma {:induction false} HasLeast(s: set<Stamp>)
    requires s != {}
    ensures exists m :: m in s && forall x | x in s :: AtMost(m, x)
  {
    var a :| a in s;
    if s == {a} {
      assert AtMost(a, a);
    } else {
      HasLeast(s - {a});
      var b :| b in s - {a} && forall x | x in s - {a} :: AtMost(b, x);
      var m := if Less(a, b) then a else b;
      forall x | x in s ensures AtMost(m, x) {
        if x != a { assert AtMost(b, x); }
      }
    }
  }

  ghost function Least(s: set<Stamp>): (m: Stamp)
    requires s != {}
    ensures m in s && forall x | x in s :: AtMost(m, x)
  {
    HasLeast(s);
    var m :| m in s && forall x | x in s :: AtMost(m, x);
    m
  }

  ghost predicate DownClosed(part: set<Stamp>, s: set<Stamp>) {
    part <= s && forall x, y | x in part && y in s - part :: Less(x, y)
  }

  /** `part` holds the `n` lowest members of `s`, or all of them. */
  ghost predicate AreLowest(part: set<Stamp>, s: set<Stamp>, n: nat) {
    DownClosed(part, s) && |part| == Min(n, |s|)
  }

  lemma {:induction false} LowestExist(s: set<Stamp>, n: nat)
    ensures exists part :: AreLowest(part, s, n)
  {
    if n == 0 || s == {} {
      assert AreLowest({}, s, n);
    } else {
      var m := Least(s);
      LowestExist(s - {m}, n - 1);
      var part :| AreLowest(part, s - {m}, n - 1);
      assert s - (part + {m}) == (s - {m}) - part;
      assert AreLowest(part + {m}, s, n);
    }
  }

  lemma LowerThanRest(part: set<Stamp>, s: set<Stamp>, x: Stamp, y: Stamp)
    requires DownClosed(part, s) && x in part && y in s && y !in part
    ensures Less(x, y)
  {
    assert y in s - part;
  }

  /** Size and downward closure pin the set down. */
  lemma LowestUnique(part: set<Stamp>, low: set<Stamp>, s: set<Stamp>, n: nat)
    requires AreLowest(part, s, n) && AreLowest(low, s, n)
    ensures part == low
  {
    if part <= low {
      SubsetSize(part, low);
    } else if low <= part {
      SubsetSize(low, part);
    } else {
      var x :| x in part && x !in low;
      var y :| y in low && y !in part;
      LowerThanRest(part, s, x, y);
      LowerThanRest(low, s, y, x);
      assert false;
    }
  }

  ghost function Lowest(s: set<Stamp>, n: nat): (r: set<Stamp>)
    ensures AreLowest(r, s, n)
  {
    LowestExist(s, n);
    var part :| AreLowest(part, s, n);
    part
  }

  // ---- The operations as functions ----

  /** `mine`, and those of `theirs` that `part` names. */
  function TakeOver(mine: Entries, theirs: Entries, part: set<Stamp>): (r: Entries)
    requires part <= theirs.Keys
    ensures r.Keys == mine.Keys + part
  {
    map k | k in mine.Keys + part :: if k in mine then mine[k] else theirs[k]
  }

  function After(m: Entries, since: Stamp): Entries {
    map k | k in m && Less(since, k) :: m[k]
  }

  function Room(m: Entries): nat {
    if |m| < MAX_LOG_ENTRIES then MAX_LOG_ENTRIES - |m| else 0
  }

  /** The entries that a merge takes over. */
  ghost function Taken(mine: Entries, theirs: Entries): (r: set<Stamp>)
    ensures r <= theirs.Keys
  {
    Lowest(theirs.Keys - mine.Keys, Room(mine))
  }

  ghost function CappedMerge(mine: Entries, theirs: Entries): Entries {
    TakeOver(mine, theirs, Taken(mine, theirs))
  }

  /** Both maps give the same data to the keys they share. */
  ghost predicate Agree(a: Entries, b: Entries) {
    forall k | k in a && k in b :: a[k] == b[k]
  }

  predicate Fits(ks: set<Stamp>) {
    |ks| <= MAX_LOG_ENTRIES
  }

  // ---- What the capped merge is, and when it obeys the laws ----

  lemma UnionSize(a: set<Stamp>, b: set<Stamp>)
    ensures |a + b| == |a| + |b - a|
  {
    assert a + b == a + (b - a);
  }

  /** What a merge that takes over `part` results in. */
  lemma TakingOver(mine: Entries, theirs: Entries, part: set<Stamp>)
    requires part <= theirs.Keys - mine.Keys
    ensures
      var r := TakeOver(mine, theirs, part);
      && r.Keys == mine.Keys + part
      && |r| == |mine| + |part|
      && (forall k | k in mine :: r[k] == mine[k])
      && (forall k | k in part :: r[k] == theirs[k])
  {
    UnionSize(mine.Keys, part);
    assert part - mine.Keys == part;
  }

  /** Exact effect: everything already held stays, with its data; the union is
      cut to the cap; what is cut are the highest missing keys. */
  lemma CappedMergeExact(mine: Entries, theirs: Entries)
    requires Fits(mine.Keys)
    ensures
      var r := CappedMerge(mine, theirs);
      var union := mine.Keys + theirs.Keys;
      && |r.Keys| == Min(MAX_LOG_ENTRIES, |union|)
      && mine.Keys <= r.Keys <= union
      && (forall k | k in mine :: r[k] == mine[k])
      && (forall k | k in r && k !in mine :: k in theirs && r[k] == theirs[k])
      && (forall x, y | x in r.Keys - mine.Keys && y in union - r.Keys :: Less(x, y))
  {
    var missing := theirs.Keys - mine.Keys;
    var taken := Taken(mine, theirs);
    TakingOver(mine, theirs, taken);
    UnionSize(mine.Keys, theirs.Keys);
    var r := CappedMerge(mine, theirs);
    assert r.Keys - mine.Keys == taken;
    assert (mine.Keys + theirs.Keys) - r.Keys == missing - taken;
  }

  /** A merge whose union fits loses nothing: the early stop never matters. */
  lemma FittingMerge(mine: Entries, theirs: Entries)
    requires Fits(mine.Keys + theirs.Keys)
    ensures CappedMerge(mine, theirs) == theirs + mine
  {
    var union := mine.Keys + theirs.Keys;
    SubsetSize(mine.Keys, union);
    CappedMergeExact(mine, theirs);
    var r := CappedMerge(mine, theirs);
    SubsetSize(r.Keys, union);
  }

  lemma MergeIdempotent(a: Entries)
    ensures CappedMerge(a, a) == a
  {
    assert a.Keys - a.Keys == {};
  }

  lemma AgreeingUnion(a: Entries, b: Entries)
    ensures a + b == b + a <==> Agree(a, b)
  {
    if a + b == b + a {
      forall k | k in a && k in b ensures a[k] == b[k] {
        assert (a + b)[k] == b[k] && (b + a)[k] == a[k];
      }
    }
  }

  /** Merging commutes exactly when the logs agree and their union fits. */
  lemma MergeCommutesIff(a: Entries, b: Entries)
    requires Fits(a.Keys) && Fits(b.Keys)
    ensures CappedMerge(a, b) == CappedMerge(b, a) <==> Agree(a, b) && Fits(a.Keys + b.Keys)
  {
    assert a.Keys + b.Keys == b.Keys + a.Keys;
    AgreeingUnion(a, b);
    if Fits(a.Keys + b.Keys) {
      FittingMerge(a, b);
      FittingMerge(b, a);
    } else {
      CappedMergeExact(a, b);
      CappedMergeExact(b, a);
      if CappedMerge(a, b) == CappedMerge(b, a) {
        SubsetSize(a.Keys + b.Keys, CappedMerge(a, b).Keys);
      }
    }
  }

  /** One key, two payloads: the promised commutativity fails. */
  lemma MergeNotCommutative(k: Stamp)
    ensures CappedMerge(map[k := [1]], map[k := [2]]) != CappedMerge(map[k := [2]], map[k := [1]])
  {
    var a, b: Entries := map[k := [1]], map[k := [2]];
    CappedMergeExact(a, b);
    CappedMergeExact(b, a);
    assert k in a && a[k] != b[k];
  }

  lemma SameTaken(mine: Entries, a: Entries, b: Entries)
    requires a.Keys - mine.Keys == b.Keys - mine.Keys
    ensures Taken(mine, a) == Taken(mine, b)
  {
  }

  lemma SameTakeOver(mine: Entries, a: Entries, b: Entries, part: set<Stamp>)
    requires part <= a.Keys && part <= b.Keys
    requires forall k | k in part :: a[k] == b[k]
    ensures TakeOver(mine, a, part) == TakeOver(mine, b, part)
  {
  }

  lemma SameMissingSameMerge(mine: Entries, theirs: Entries, since: Stamp)
    requires forall k | k in theirs && !Less(since, k) :: k in mine
    ensures CappedMerge(mine, After(theirs, since)) == CappedMerge(mine, theirs)
  {
    var delta := After(theirs, since);
    assert delta.Keys - mine.Keys == theirs.Keys - mine.Keys;
    SameTaken(mine, delta, theirs);
    SameTakeOver(mine, delta, theirs, Taken(mine, theirs));
  }

  lemma FullTakesNothing(mine: Entries, theirs: Entries)
    requires Room(mine) == 0
    ensures CappedMerge(mine, theirs) == mine
  {
    assert Taken(mine, theirs) == {};
  }

  /** With room left, the lowest missing key is always taken over. */
  lemma LowestIsTaken(mine: Entries, theirs: Entries, m: Stamp)
    requires Room(mine) > 0 && m in theirs.Keys - mine.Keys
    requires forall x | x in theirs.Keys - mine.Keys :: AtMost(m, x)
    ensures m in CappedMerge(mine, theirs)
  {
    var missing := theirs.Keys - mine.Keys;
    var part := Taken(mine, theirs);
    if m !in part {
      assert part != {};
      var x :| x in part;
      LowerThanRest(part, missing, x, m);
    }
  }

  /** Sending only the entries after `since` does what sending the whole log
      does, exactly when the receiver is full or holds every earlier key. */
  lemma DeltaSyncIff(mine: Entries, theirs: Entries, since: Stamp)
    requires Fits(mine.Keys)
    ensures
      CappedMerge(mine, After(theirs, since)) == CappedMerge(mine, theirs)
      <==> Room(mine) == 0 || forall k | k in theirs && !Less(since, k) :: k in mine
  {
    var delta := After(theirs, since);
    if Room(mine) == 0 {
      FullTakesNothing(mine, delta);
      FullTakesNothing(mine, theirs);
    } else if forall k | k in theirs && !Less(since, k) :: k in mine {
      SameMissingSameMerge(mine, theirs, since);
    } else {
      var k :| k in theirs && !Less(since, k) && k !in mine;
      assert k in theirs.Keys - mine.Keys;
      var m := Least(theirs.Keys - mine.Keys);
      assert AtMost(m, k);
      LessIsStrictTotalOrder(since, m, k);
      LowestIsTaken(mine, theirs, m);
      assert m !in delta;
    }
  }

  // ---- The merge loop ----

  /** After `i` keys of the walk, `part` are those among them that were missing. */
  ghost predicate WalkedTo(ks: seq<Stamp>, i: nat, mine: set<Stamp>, theirs: set<Stamp>, part: set<Stamp>) {
    && i <= |ks|
    && Lists(ks, theirs)
    && part <= theirs - mine
    && forall k :: k in part <==> k in ks[..i] && k !in mine
  }

  lemma WalkOn(ks: seq<Stamp>, i: nat, mine: set<Stamp>, theirs: set<Stamp>, part: set<Stamp>)
    requires WalkedTo(ks, i, mine, theirs, part) && i < |ks|
    ensures ks[i] in theirs && ks[i] !in part
    ensures WalkedTo(ks, i + 1, mine, theirs, if ks[i] in mine then part else part + {ks[i]})
  {
    assert ks[i] !in ks[..i];
    assert ks[..i + 1] == ks[..i] + [ks[i]];
  }

  lemma TakeOneMore(mine: Entries, theirs: Entries, part: set<Stamp>, k: Stamp)
    requires part <= theirs.Keys && k in theirs && k !in mine && k !in part
    ensures TakeOver(mine, theirs, part)[k := theirs[k]] == TakeOver(mine, theirs, part + {k})
  {
  }

  /** A walk that stopped at its end or at the cap took the lowest missing keys. */
  lemma WalkTakesLowest(ks: seq<Stamp>, i: nat, mine: Entries, theirs: Entries, part: set<Stamp>)
    requires WalkedTo(ks, i, mine.Keys, theirs.Keys, part)
    requires |part| <= Room(mine) && (i < |ks| ==> |part| == Room(mine))
    ensures part == Taken(mine, theirs)
  {
    var missing := theirs.Keys - mine.Keys;
    forall x, y | x in part && y in missing - part ensures Less(x, y) {
      assert x in ks[..i] && y in ks && y !in ks[..i];
    }
    SubsetSize(part, missing);
    if i == |ks| {
      assert ks[..i] == ks;
      assert part == missing;
    }
    LowestUnique(part, Taken(mine, theirs), missing, Room(mine));
  }

  // ---- The object ----

  class Log {
    var entries: Entries

    ghost predicate Valid()
      reads this
    {
      Fits(entries.Keys)
    }

    constructor ()
      ensures Valid() && entries == map[]
    {
      entries := map[];
    }

    method Append(hlc: Stamp, data: Bytes) returns (r: Outcome)
      modifies this
      ensures r == if |old(entries)| >= MAX_LOG_ENTRIES then LogFull(MAX_LOG_ENTRIES) else Appended
      ensures entries == if r.Appended? then old(entries)[hlc := data] else old(entries)
      ensures old(Valid()) ==> Valid()
    {
      if |entries| >= MAX_LOG_ENTRIES {
        return LogFull(MAX_LOG_ENTRIES);
      }
      entries := entries[hlc := data];
      r := Appended;
    }

    /** The entries strictly after `since`, in ascending order. */
    method EntriesAfter(since: Stamp) returns (out: seq<(Stamp, Bytes)>)
      ensures forall i, j | 0 <= i < j < |out| :: Less(out[i].0, out[j].0)
      ensures forall p: (Stamp, Bytes) :: p in out <==> p.0 in After(entries, since) && p.1 == entries[p.0]
    {
      var ks := Walk(entries.Keys);
      out := [];
      for i := 0 to |ks|
        invariant forall j | 0 <= j < |out| :: out[j].0 in ks[..i]
        invariant forall j, l | 0 <= j < l < |out| :: Less(out[j].0, out[l].0)
        invariant forall p: (Stamp, Bytes) ::
                    p in out <==> p.0 in ks[..i] && Less(since, p.0) && p.1 == entries[p.0]
      {
        assert ks[i] in entries;
        if Less(since, ks[i]) {
          out := out + [(ks[i], entries[ks[i]])];
        }
      }
      assert ks[..|ks|] == ks;
    }

    /** Take over what is missing, lowest keys first, until the log is full. */
    method Merge(other: Log)
      modifies this
      ensures entries == CappedMerge(old(entries), old(other.entries))
      ensures old(Valid()) ==> Valid()
    {
      var theirs := other.entries;
      var ks := Walk(theirs.Keys);
      ghost var mine := entries;
      ghost var part: set<Stamp> := {};
      var i := 0;
      assert entries == TakeOver(mine, theirs, part);
      while i < |ks|
        invariant 0 <= i <= |ks|
        invariant WalkedTo(ks, i, mine.Keys, theirs.Keys, part)
        invariant entries == TakeOver(mine, theirs, part)
        invariant |part| <= Room(mine)
      {
        TakingOver(mine, theirs, part);
        if |entries| >= MAX_LOG_ENTRIES {
          break;
        }
        WalkOn(ks, i, mine.Keys, theirs.Keys, part);
        if ks[i] !in entries {
          TakeOneMore(mine, theirs, part, ks[i]);
          entries := entries[ks[i] := theirs[ks[i]]];
          part := part + {ks[i]};
        }
        i := i + 1;
      }
      TakingOver(mine, theirs, part);
      WalkTakesLowest(ks, i, mine, theirs, part);
    }

    /** The hand-written equality: equal lengths, then a pairwise walk. */
    method Equals(other: Log) returns (equal: bool)
      ensures equal <==> entries == other.entries
    {
      var mine := Walk(entries.Keys);
      var theirs := Walk(other.entries.Keys);
      if |entries| != |other.entries| {
        return false;
      }
      equal := true;
      var i := 0;
      while i < |mine| && i < |theirs| && equal
        invariant 0 <= i <= |mine| && i <= |theirs|
        invariant equal ==> forall j | 0 <= j < i ::
                      mine[j] == theirs[j] && entries[mine[j]] == other.entries[theirs[j]]
        invariant !equal ==> entries != other.entries
      {
        assert mine[i] in entries && theirs[i] in other.entries;
        equal := mine[i] == theirs[i] && entries[mine[i]] == other.entries[theirs[i]];
        if entries == other.entries {
          ListingUnique(mine, theirs, entries.Keys);
        }
        i := i + 1;
      }
      if equal {
        SameWalk(entries, other.entries, mine, theirs);
      }
    }
  }

  /** Walks of one length that match throughout are walks of equal maps. */
  lemma SameWalk(a: Entries, b: Entries, ka: seq<Stamp>, kb: seq<Stamp>)
    requires Lists(ka, a.Keys) && Lists(kb, b.Keys) && |a| == |b|
    requires forall j | 0 <= j < |ka| && j < |kb| :: ka[j] == kb[j] && ka[j] in a && ka[j] in b && a[ka[j]] == b[kb[j]]
    ensures a == b
  {
    ListingSize(ka, a.Keys);
    ListingSize(kb, b.Keys);
    assert ka == kb;
    assert a.Keys == b.Keys;
    forall k | k in a ensures a[k] == b[k] {
      assert k in ka;
    }
  }
}
