/** The hybrid logical clock of `crates/mercury-crdt/src/hlc.rs`.

    The system clock is an argument of every operation: it may take any value,
    including one smaller than an earlier reading. */
module Clock {
  import opened Base

  /** The 16 bytes of a node id read as one big-endian number, so that the
      byte-wise order of the ids is the order of the numbers
      (see `BigEndianOrder`). */
  type NodeId = nat

  datatype Stamp = Stamp(wall: U64, counter: U32, node: NodeId)

  /** The total order of stamps: wall clock, then counter, then node id. */
  predicate Less(a: Stamp, b: Stamp) {
    || a.wall < b.wall
    || (a.wall == b.wall && a.counter < b.counter)
    || (a.wall == b.wall && a.counter == b.counter && a.node < b.node)
  }

  predicate AtMost(a: Stamp, b: Stamp) {
    a == b || Less(a, b)
  }

  /** Strictly earlier already in wall clock and counter, whatever the nodes. */
  predicate Before(a: Stamp, b: Stamp) {
    a.wall < b.wall || (a.wall == b.wall && a.counter < b.counter)
  }

  /** `tick`, as a function; `None` is the panic of `checked_add`. */
  function Ticked(s: Stamp, now: U64): (r: Option<Stamp>)
    ensures r.Some? ==> Before(s, r.value) && r.value.node == s.node && r.value.wall == Max(s.wall, now)
    ensures r.None? <==> now <= s.wall && s.counter == TWO_TO_32 - 1
  {
    if now > s.wall then Some(Stamp(now, 0, s.node))
    else if s.counter + 1 < TWO_TO_32 then Some(s.(counter := s.counter + 1))
    else None
  }

  /** The `+ 1` of `merge`, which is not checked and wraps in a release build. */
  function WrappingNext(c: U32): U32 {
    (c + 1) % TWO_TO_32
  }

  /** No stamp of the two stands at the wall value, or `top` is the largest counter
      of those that do. */
  predicate TopCounter(s: Stamp, remote: Stamp, wall: U64, top: Option<U32>) {
    match top
    case None => s.wall != wall && remote.wall != wall
    case Some(c) =>
      && ((s.wall == wall && s.counter == c) || (remote.wall == wall && remote.counter == c))
      && (s.wall == wall ==> s.counter <= c) && (remote.wall == wall ==> remote.counter <= c)
  }

  /** `merge`, as a function. */
  function Merged(s: Stamp, remote: Stamp, now: U64): (r: Stamp)
    ensures r.node == s.node && r.wall == Max(Max(now, s.wall), remote.wall)
    ensures forall top | TopCounter(s, remote, r.wall, top) ::
              r.counter == if top.Some? then WrappingNext(top.value) else 0
  {
    var maxWall := Max(Max(now, s.wall), remote.wall);
    var counter :=
      if maxWall == s.wall && maxWall == remote.wall then WrappingNext(Max(s.counter, remote.counter))
      else if maxWall == s.wall then WrappingNext(s.counter)
      else if maxWall == remote.wall then WrappingNext(remote.counter)
      else 0;
    Stamp(maxWall, counter, s.node)
  }

  /** A clock at the largest wall value with its counter exhausted. */
  predicate Exhausted(s: Stamp, maxWall: U64) {
    s.wall == maxWall && s.counter == TWO_TO_32 - 1
  }

  /** The receive rule puts the clock past both inputs exactly when neither
      input sits, exhausted, at the wall value that wins. */
  lemma MergePassesBothIff(s: Stamp, remote: Stamp, now: U64)
    ensures
      var r := Merged(s, remote, now);
      var maxWall := Max(Max(now, s.wall), remote.wall);
      Before(s, r) && Before(remote, r) <==> !Exhausted(s, maxWall) && !Exhausted(remote, maxWall)
  {
  }

  /** The wrap is real: this receive moves the clock backwards. */
  lemma MergeCanGoBackwards()
    ensures
      var s := Stamp(7, TWO_TO_32 - 1, 1);
      Less(Merged(s, Stamp(7, 3, 2), 5), s)
  {
  }

  lemma LessIsStrictTotalOrder(a: Stamp, b: Stamp, c: Stamp)
    ensures !Less(a, a)
    ensures Less(a, b) && Less(b, c) ==> Less(a, c)
    ensures a == b || Less(a, b) || Less(b, a)
    ensures !(Less(a, b) && Less(b, a))
    ensures Before(a, b) ==> Less(a, b)
  {
  }

  /** The 28 bytes of a stamp, fields in order and each big-endian, as a number. */
  function Rank(s: Stamp): nat {
    (s.wall * 0x1_0000_0000 + s.counter) * 0x1_0000_0000_0000_0000_0000_0000_0000_0000 + s.node
  }

  /** Comparing stamps is comparing those numbers: wall first, then counter, then
      node. */
  lemma LessIsByRank(a: Stamp, b: Stamp)
    requires a.node < 0x1_0000_0000_0000_0000_0000_0000_0000_0000
    requires b.node < 0x1_0000_0000_0000_0000_0000_0000_0000_0000
    ensures Less(a, b) <==> Rank(a) < Rank(b)
  {
  }

  /** A stamp that the clock may show after a local event read at `now`. */
  predicate AfterEvent(t: Stamp, s: Stamp, now: U64) {
    t.node == s.node && Before(s, t) && t.wall >= now
  }

  /** A tick goes no further than it must: to the least of those stamps. */
  lemma TickIsLeast(s: Stamp, now: U64, t: Stamp)
    requires Ticked(s, now).Some? && AfterEvent(t, s, now)
    ensures AfterEvent(Ticked(s, now).value, s, now) && AtMost(Ticked(s, now).value, t)
  {
  }

  /** So does a receive, among those that are past the remote stamp too. */
  lemma MergeIsLeast(s: Stamp, remote: Stamp, now: U64, t: Stamp)
    requires
      var maxWall := Max(Max(now, s.wall), remote.wall);
      !Exhausted(s, maxWall) && !Exhausted(remote, maxWall)
    requires AfterEvent(t, s, now) && Before(remote, t)
    ensures
      var r := Merged(s, remote, now);
      AfterEvent(r, s, now) && Before(remote, r) && AtMost(r, t)
  {
    MergePassesBothIff(s, remote, now);
  }

  // ---- Node ids as numbers ----

  function BigEndian(id: Bytes): nat {
    if id == [] then 0 else 256 * BigEndian(id[..|id| - 1]) + id[|id| - 1]
  }

  /** Byte-wise comparison of arrays, as `[u8; 16]` is compared. */
  predicate BytewiseLess(a: Bytes, b: Bytes)
    requires |a| == |b|
  {
    exists i :: 0 <= i < |a| && a[..i] == b[..i] && a[i] < b[i]
  }

  /** Comparing ids of one length byte by byte is comparing their numbers. */
  lemma {:induction false} BigEndianOrder(a: Bytes, b: Bytes)
    requires |a| == |b|
    ensures BytewiseLess(a, b) <==> BigEndian(a) < BigEndian(b)
    ensures a == b <==> BigEndian(a) == BigEndian(b)
  {
    if a != [] {
      var n := |a| - 1;
      BigEndianOrder(a[..n], b[..n]);
      BytewiseSplits(a, b);
      assert a == a[..n] + [a[n]] && b == b[..n] + [b[n]];
    }
  }

  /** Arrays are in order if all but the last byte are, or those are equal and the
      last bytes are in order. */
  lemma BytewiseSplits(a: Bytes, b: Bytes)
    requires |a| == |b| > 0
    ensures
      var n := |a| - 1;
      BytewiseLess(a, b) <==> BytewiseLess(a[..n], b[..n]) || (a[..n] == b[..n] && a[n] < b[n])
  {
    var n := |a| - 1;
    if i :| 0 <= i < |a| && a[..i] == b[..i] && a[i] < b[i] {
      if i < n {
        assert a[..n][..i] == a[..i] && b[..n][..i] == b[..i];
        assert BytewiseLess(a[..n], b[..n]);
      }
    }
    if i :| 0 <= i < n && a[..n][..i] == b[..n][..i] && a[..n][i] < b[..n][i] {
      assert a[..n][..i] == a[..i] && b[..n][..i] == b[..i];
    }
  }

  /** The clock object itself. */
  class Hlc {
    var wallClockMs: U64
    var counter: U32
    const nodeId: NodeId

    function Value(): Stamp
      reads this
    {
      Stamp(wallClockMs, counter, nodeId)
    }

    constructor Now(nodeId: NodeId, now: U64)
      ensures Value() == Stamp(now, 0, nodeId)
    {
      wallClockMs := now;
      counter := 0;
      this.nodeId := nodeId;
    }

    /** Advance for a local event. A panic leaves the clock as it was. */
    method Tick(now: U64) returns (panicked: bool)
      modifies this
      ensures panicked <==> Ticked(old(Value()), now).None?
      ensures panicked ==> Value() == old(Value())
      ensures !panicked ==> Some(Value()) == Ticked(old(Value()), now)
      ensures !panicked ==> Less(old(Value()), Value())
    {
      panicked := false;
      if now > wallClockMs {
        wallClockMs := now;
        counter := 0;
      } else if counter + 1 < TWO_TO_32 {
        counter := counter + 1;
      } else {
        panicked := true;
      }
    }

    /** Merge with a received remote clock. */
    method Merge(remote: Stamp, now: U64)
      modifies this
      ensures Value() == Merged(old(Value()), remote, now)
    {
      var maxWall := Max(Max(now, wallClockMs), remote.wall);
      if maxWall == wallClockMs && maxWall == remote.wall {
        counter := WrappingNext(Max(counter, remote.counter));
      } else if maxWall == wallClockMs {
        counter := WrappingNext(counter);
      } else if maxWall == remote.wall {
        counter := WrappingNext(remote.counter);
      } else {
        counter := 0;
      }
      wallClockMs := maxWall;
    }
  }
}
