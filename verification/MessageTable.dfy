/** The bucketed message table: `crates/mercury-core/src/time_bucket.rs` and
    the statements of `apps/persistence/lib/persistence/messages.ex`. The
    database is a map whose operations succeed. */
module MessageTable {
  import opened Base

  const MS_PER_DAY: nat := 86_400_000
  const DAYS_PER_BUCKET: nat := 10

  function BucketOf(ts: nat): nat {
    ts / MS_PER_DAY / DAYS_PER_BUCKET
  }

  /** Times whose bucket fits 32 bits: computing it does not panic. */
  predicate Bucketed(ts: nat) {
    BucketOf(ts) < TWO_TO_32
  }

  /** `from_timestamp_ms`; `None`: it panics, the bucket does not fit 32 bits. */
  function FromTimestampMs(ts: U64): Option<U32> {
    if Bucketed(ts) then Some(BucketOf(ts)) else None
  }

  lemma BucketMonotone(a: nat, b: nat)
    ensures a <= b ==> BucketOf(a) <= BucketOf(b)
    ensures BucketOf(a) < BucketOf(b) ==> a < b
  {
  }

  /** A bucket holds exactly ten days. */
  lemma BucketIsTenDays(ts: nat, b: nat)
    ensures BucketOf(ts) == b <==> b * 864_000_000 <= ts < (b + 1) * 864_000_000
  {
  }

  datatype Row = Row(
    id: nat,
    sender: Bytes,
    content: Bytes,
    contentType: int,
    replyTo: Option<Bytes>,
    createdAt: nat,
    receivedAt: nat)

  datatype Place = Place(tenant: Bytes, channel: Bytes)

  /** The primary key: partition (tenant, channel, bucket) and message id. Ids
      are blobs of one length, read as big-endian numbers. */
  datatype Key = Key(place: Place, bucket: nat, id: nat)

  type Table = map<Key, Row>

  /** The INSERT, which replaces a row of the same key. */
  function Write(t: Table, place: Place, bucket: nat, row: Row): Table {
    t[Key(place, bucket, row.id) := row]
  }

  class MessageStore {
    var table: Table

    constructor (table: Table)
      ensures this.table == table
    {
      this.table := table;
    }

    method Insert(place: Place, bucket: nat, row: Row)
      modifies this
      ensures table == Write(old(table), place, bucket, row)
    {
      table := table[Key(place, bucket, row.id) := row];
    }
  }

  ghost predicate WellKeyed(t: Table) {
    forall k | k in t :: t[k].id == k.id
  }

  // ---- SELECT ... ORDER BY message_id DESC LIMIT n ----

  function Partition(t: Table, place: Place, bucket: nat): (p: map<nat, Row>)
    ensures forall id :: id in p <==> Key(place, bucket, id) in t
    ensures forall id | id in p :: p[id] == t[Key(place, bucket, id)]
  {
    var ids := set k | k in t && k.place == place && k.bucket == bucket :: k.id;
    assert forall id :: id in ids <==> Key(place, bucket, id) in t by {
      forall id | Key(place, bucket, id) in t ensures id in ids {
        assert Key(place, bucket, id).id == id;
      }
    }
    map id | id in ids :: t[Key(place, bucket, id)]
  }

  lemma {:induction false} HasGreatest(s: set<nat>)
    requires s != {}
    ensures exists m :: m in s && forall x | x in s :: x <= m
  {
    var a :| a in s;
    var rest := s - {a};
    assert forall x | x in s :: x == a || x in rest;
    if rest == {} {
      assert forall x | x in s :: x <= a;
    } else {
      HasGreatest(rest);
      var b :| b in rest && forall x | x in rest :: x <= b;
      GreatestOfBoth(s, rest, a, b);
    }
  }

  lemma GreatestOfBoth(s: set<nat>, rest: set<nat>, a: nat, b: nat)
    requires a in s && b in s && (forall x | x in s :: x == a || x in rest) && forall x | x in rest :: x <= b
    ensures exists m :: m in s && forall x | x in s :: x <= m
  {
    var m := if a < b then b else a;
    assert m in s && forall x | x in s :: x <= m;
  }

  function Greatest(s: set<nat>): (m: nat)
    requires s != {}
    ensures m in s && forall x | x in s :: x <= m
  {
    HasGreatest(s);
    var m :| m in s && forall x | x in s :: x <= m;
    m
  }

  /** The ids of a partition, highest first. */
  function DescendingIds(s: set<nat>): (r: seq<nat>)
    ensures |r| == |s|
  {
    if s == {} then []
    else
      var m := Greatest(s);
      [m] + DescendingIds(s - {m})
  }

  lemma {:induction false} DescendingIdsOrder(s: set<nat>)
    ensures forall i, j | 0 <= i < j < |DescendingIds(s)| :: DescendingIds(s)[i] > DescendingIds(s)[j]
    ensures forall id :: id in DescendingIds(s) <==> id in s
  {
    if s != {} {
      var m := Greatest(s);
      DescendingIdsOrder(s - {m});
      var rest := DescendingIds(s - {m});
      forall i | 0 <= i < |rest| ensures rest[i] < m {
        assert rest[i] in rest;
      }
    }
  }

  /** The rows of a partition, highest id first. */
  function Descending(p: map<nat, Row>): (r: seq<Row>)
    ensures |r| == |p|
  {
    var ids := DescendingIds(p.Keys);
    DescendingIdsOrder(p.Keys);
    seq(|ids|, i requires 0 <= i < |ids| => assert ids[i] in ids; p[ids[i]])
  }

  function Take<T>(s: seq<T>, n: nat): seq<T> {
    if n < |s| then s[..n] else s
  }

  function Select(t: Table, place: Place, bucket: nat, limit: nat): (r: seq<Row>)
    ensures |r| <= limit
  {
    Take(Descending(Partition(t, place, bucket)), limit)
  }

  ghost predicate IdsMatch(p: map<nat, Row>) {
    forall id | id in p :: p[id].id == id
  }

  /** The rows come out once each, in strictly descending order of id. */
  lemma DescendingOrder(p: map<nat, Row>)
    requires IdsMatch(p)
    ensures forall i, j | 0 <= i < j < |Descending(p)| :: Descending(p)[i].id > Descending(p)[j].id
    ensures forall i | 0 <= i < |Descending(p)| ::
              Descending(p)[i].id in p && p[Descending(p)[i].id] == Descending(p)[i]
    ensures forall id | id in p :: p[id] in Descending(p)
  {
    var ids := DescendingIds(p.Keys);
    DescendingIdsOrder(p.Keys);
    var rows := Descending(p);
    forall i | 0 <= i < |rows| ensures rows[i] == p[ids[i]] && rows[i].id == ids[i] {
      assert ids[i] in ids;
    }
    forall id | id in p ensures p[id] in rows {
      assert id in ids;
      var i :| 0 <= i < |ids| && ids[i] == id;
      assert rows[i] == p[id];
    }
  }

  // ---- Sequences of rows as sets ----

  predicate NoRepeat<T(==)>(s: seq<T>) {
    forall i, j | 0 <= i < j < |s| :: s[i] != s[j]
  }

  function ToSet<T>(s: seq<T>): set<T> {
    set x | x in s
  }

  lemma {:induction false} NoRepeatSize<T>(s: seq<T>)
    requires NoRepeat(s)
    ensures |ToSet(s)| == |s|
  {
    if s != [] {
      var n := |s| - 1;
      assert NoRepeat(s[..n]);
      NoRepeatSize(s[..n]);
      assert s[n] !in s[..n];
      assert ToSet(s) == ToSet(s[..n]) + {s[n]};
    }
  }

  // ---- Positions in a descending listing ----

  function Higher(s: set<nat>, id: nat): set<nat> {
    set x | x in s && x > id
  }

  lemma HigherBelow(s: set<nat>, m: nat, id: nat)
    requires m in s && m > id
    ensures Higher(s, id) == Higher(s - {m}, id) + {m} && |Higher(s, id)| == |Higher(s - {m}, id)| + 1
  {
  }

  lemma NoneHigher(s: set<nat>, m: nat)
    requires forall x | x in s :: x <= m
    ensures Higher(s, m) == {}
  {
  }

  lemma LaterIdIsLower(s: set<nat>, m: nat, i: nat)
    requires s != {} && m == Greatest(s) && 0 < i < |DescendingIds(s)|
    ensures DescendingIds(s)[i] == DescendingIds(s - {m})[i - 1] < m
  {
    DescendingIdsOrder(s - {m});
    assert DescendingIds(s - {m})[i - 1] in DescendingIds(s - {m});
  }

  lemma {:induction false} IdAt(s: set<nat>, i: nat)
    requires i < |DescendingIds(s)|
    ensures |Higher(s, DescendingIds(s)[i])| == i
  {
    var m := Greatest(s);
    if i == 0 {
      NoneHigher(s, m);
    } else {
      IdAt(s - {m}, i - 1);
      LaterIdIsLower(s, m, i);
      HigherBelow(s, m, DescendingIds(s)[i]);
    }
  }

  /** As many ids stand before an id as are higher. */
  lemma IdPosition(s: set<nat>, id: nat)
    requires id in s
    ensures |Higher(s, id)| < |s| && DescendingIds(s)[|Higher(s, id)|] == id
  {
    DescendingIdsOrder(s);
    assert id in DescendingIds(s);
    var i :| 0 <= i < |DescendingIds(s)| && DescendingIds(s)[i] == id;
    IdAt(s, i);
  }
}
