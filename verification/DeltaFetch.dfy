/** The server side of delta sync, `apps/persistence/lib/persistence/sync.ex`:
    a bounded fetch per bucket, then filter, sort and truncate, against a plain
    scan of the whole table. */
module DeltaFetch {
  import opened Base
  import opened MessageTable

  const MAX_DELTAS: nat := 100

  datatype Deltas = Deltas(rows: seq<Row>, hasMore: bool)

  function Filter(rows: seq<Row>, since: nat): seq<Row> {
    if rows == [] then []
    else (if rows[0].createdAt > since then [rows[0]] else []) + Filter(rows[1..], since)
  }

  /** `fetch_messages_after`. */
  function FetchAfter(t: Table, place: Place, bucket: nat, since: nat, limit: nat): seq<Row> {
    Filter(Select(t, place, bucket, limit), since)
  }

  /** `flat_map` over the range `from..to`, which counts down when `to` is the
      smaller. */
  function FlatMap(from: nat, to: nat, f: nat -> seq<Row>): seq<Row>
    decreases if from <= to then to - from else from - to
  {
    if from == to then f(from)
    else f(from) + FlatMap(if from < to then from + 1 else from - 1, to, f)
  }

  function Fetcher(t: Table, place: Place, since: nat, limit: nat): nat -> seq<Row> {
    (bucket: nat) => FetchAfter(t, place, bucket, since, limit)
  }

  function Insert(row: Row, sorted: seq<Row>): seq<Row> {
    if sorted == [] || row.createdAt <= sorted[0].createdAt then [row] + sorted
    else [sorted[0]] + Insert(row, sorted[1..])
  }

  /** The stable sort of `Enum.sort_by(& &1.created_at)`. */
  function SortByCreated(rows: seq<Row>): seq<Row> {
    if rows == [] then [] else Insert(rows[0], SortByCreated(rows[1..]))
  }

  /** All that the buckets yield. */
  function Fetched(t: Table, place: Place, since: nat, limit: nat, now: nat): seq<Row> {
    FlatMap(BucketOf(since), BucketOf(now), Fetcher(t, place, since, limit + 1))
  }

  /** `get_deltas` after its own cap on `limit`; `None`: computing a bucket
      panicked, which the caller answers with an error. */
  function GetDeltas(t: Table, place: Place, since: U64, wanted: nat, now: U64): Option<Deltas> {
    if FromTimestampMs(now).None? || FromTimestampMs(since).None? then None
    else
      var limit := Min(wanted, MAX_DELTAS);
      var deltas := Take(SortByCreated(Fetched(t, place, since, limit, now)), limit + 1);
      Some(Deltas(Take(deltas, limit), |deltas| > limit))
  }

  // ---- The plain scan ----

  ghost predicate InPlace(t: Table, place: Place, k: Key) {
    k in t && k.place == place
  }

  /** Every row of the channel that is newer than `since`. */
  function Newer(t: Table, place: Place, since: nat): set<Row> {
    set k | k in t && k.place == place && t[k].createdAt > since :: t[k]
  }

  /** Rows are filed under the bucket of their creation time, and none lies past
      the current bucket. */
  ghost predicate Filed(t: Table, place: Place, now: nat) {
    && WellKeyed(t)
    && forall k | InPlace(t, place, k) :: k.bucket == BucketOf(t[k].createdAt) <= BucketOf(now)
  }

  /** A later id never carries an earlier creation time. */
  ghost predicate IdsFollowTime(t: Table, place: Place) {
    forall k, l | InPlace(t, place, k) && InPlace(t, place, l) && k.id < l.id :: t[k].createdAt <= t[l].createdAt
  }

  /** The newer rows of the first bucket that lie below its first `limit + 1`. */
  function Hidden(t: Table, place: Place, since: nat, limit: nat): set<Row> {
    set r | r in Newer(t, place, since)
      && BucketOf(r.createdAt) == BucketOf(since)
      && r !in Select(t, place, BucketOf(since), limit + 1)
  }

  /** The newer rows among the highest `limit + 1` ids of their own bucket. */
  ghost function Reached(t: Table, place: Place, since: nat, limit: nat): set<Row> {
    set r | r in Newer(t, place, since) && r in Select(t, place, BucketOf(r.createdAt), limit + 1)
  }

  // ---- Sorting and filtering keep what they should ----

  predicate Sorted(rows: seq<Row>) {
    forall i, j | 0 <= i < j < |rows| :: rows[i].createdAt <= rows[j].createdAt
  }

  lemma {:induction false} InsertSorted(row: Row, sorted: seq<Row>)
    requires Sorted(sorted)
    ensures
      var r := Insert(row, sorted);
      Sorted(r) && (r[0] == row || (sorted != [] && r[0] == sorted[0]))
  {
    if sorted != [] && row.createdAt > sorted[0].createdAt {
      InsertSorted(row, sorted[1..]);
    }
  }

  /** The rows created at one time, in the order they come in. */
  function CreatedAt(rows: seq<Row>, at: nat): seq<Row> {
    if rows == [] then []
    else (if rows[0].createdAt == at then [rows[0]] else []) + CreatedAt(rows[1..], at)
  }

  lemma {:induction false} InsertStable(row: Row, sorted: seq<Row>, at: nat)
    ensures CreatedAt(Insert(row, sorted), at) == CreatedAt([row] + sorted, at)
  {
    assert ([row] + sorted)[1..] == sorted;
    if sorted != [] && row.createdAt > sorted[0].createdAt {
      var rest := sorted[1..];
      InsertStable(row, rest, at);
      assert ([row] + rest)[1..] == rest;
      assert ([sorted[0]] + Insert(row, rest))[1..] == Insert(row, rest);
    }
  }

  /** Rows of one time keep their order. */
  lemma {:induction false} SortIsStable(rows: seq<Row>, at: nat)
    ensures CreatedAt(SortByCreated(rows), at) == CreatedAt(rows, at)
  {
    if rows != [] {
      SortIsStable(rows[1..], at);
      InsertStable(rows[0], SortByCreated(rows[1..]), at);
      assert ([rows[0]] + SortByCreated(rows[1..]))[1..] == SortByCreated(rows[1..]);
    }
  }

  lemma {:induction false} InsertAdds(row: Row, sorted: seq<Row>)
    ensures multiset(Insert(row, sorted)) == multiset{row} + multiset(sorted)
  {
    if sorted != [] && row.createdAt > sorted[0].createdAt {
      InsertAdds(row, sorted[1..]);
      assert sorted == [sorted[0]] + sorted[1..];
    }
  }

  lemma {:induction false} SortIsSort(rows: seq<Row>)
    ensures Sorted(SortByCreated(rows))
    ensures multiset(SortByCreated(rows)) == multiset(rows)
  {
    if rows != [] {
      SortIsSort(rows[1..]);
      InsertSorted(rows[0], SortByCreated(rows[1..]));
      InsertAdds(rows[0], SortByCreated(rows[1..]));
      assert rows == [rows[0]] + rows[1..];
    }
  }

  lemma SameElements(a: seq<Row>, b: seq<Row>)
    requires multiset(a) == multiset(b)
    ensures |a| == |b|
    ensures ToSet(a) == ToSet(b)
    ensures NoRepeat(a) ==> NoRepeat(b)
  {
    assert |multiset(a)| == |multiset(b)|;
    forall x ensures x in a <==> x in b {
      assert x in multiset(a) <==> x in multiset(b);
    }
    if NoRepeat(a) {
      NoRepeatSize(a);
      SizeNoRepeat(b);
    }
  }

  lemma {:induction false} SizeNoRepeat<T>(s: seq<T>)
    ensures |ToSet(s)| <= |s|
    ensures |ToSet(s)| == |s| ==> NoRepeat(s)
  {
    if s != [] {
      var n := |s| - 1;
      SizeNoRepeat(s[..n]);
      assert ToSet(s) == ToSet(s[..n]) + {s[n]};
      if s[n] in s[..n] {
        assert ToSet(s) == ToSet(s[..n]);
      } else if |ToSet(s)| == |s| {
        assert NoRepeat(s[..n]);
        forall i, j | 0 <= i < j < |s| ensures s[i] != s[j] {
          assert s[i] == s[..n][i];
          if j < n { assert s[j] == s[..n][j]; }
        }
      }
    }
  }

  lemma {:induction false} FilterSelects(rows: seq<Row>, since: nat)
    ensures forall r :: r in Filter(rows, since) <==> r in rows && r.createdAt > since
    ensures |Filter(rows, since)| <= |rows|
  {
    if rows != [] {
      FilterSelects(rows[1..], since);
      assert rows == [rows[0]] + rows[1..];
    }
  }

  lemma {:induction false} FilterOnce(rows: seq<Row>, since: nat)
    requires NoRepeat(rows)
    ensures NoRepeat(Filter(rows, since))
  {
    if rows != [] {
      FilterOnce(rows[1..], since);
      FilterSelects(rows[1..], since);
      assert rows[0] !in rows[1..];
    }
  }

  lemma {:induction false} FilterAll(rows: seq<Row>, since: nat)
    requires forall r | r in rows :: r.createdAt > since
    ensures Filter(rows, since) == rows
  {
    if rows != [] {
      assert rows[0] in rows;
      FilterAll(rows[1..], since);
    }
  }

  // ---- One bucket ----

  ghost predicate RowOf(t: Table, place: Place, bucket: nat, r: Row) {
    Key(place, bucket, r.id) in t && t[Key(place, bucket, r.id)] == r
  }

  lemma SelectIsOrdered(t: Table, place: Place, bucket: nat, limit: nat)
    requires WellKeyed(t)
    ensures
      var top := Select(t, place, bucket, limit);
      && NoRepeat(top)
      && forall r | r in top :: RowOf(t, place, bucket, r)
  {
    DescendingOrder(Partition(t, place, bucket));
  }

  lemma TakeLeavesOut(all: seq<Row>, limit: nat, r: Row)
    requires forall i, j | 0 <= i < j < |all| :: all[i].id > all[j].id
    requires r in all && r !in Take(all, limit)
    ensures |Take(all, limit)| == limit
    ensures forall x | x in Take(all, limit) :: r.id < x.id
  {
    var top := Take(all, limit);
    var j :| 0 <= j < |all| && all[j] == r;
    assert forall i | 0 <= i < |top| :: top[i] == all[i] && top[i] in top;
    assert j >= |top|;
  }

  /** Rows left out have lower ids; and there are none below the limit. */
  lemma SelectLeavesOut(t: Table, place: Place, bucket: nat, limit: nat, r: Row)
    requires WellKeyed(t) && RowOf(t, place, bucket, r)
    requires r !in Select(t, place, bucket, limit)
    ensures |Select(t, place, bucket, limit)| == limit
    ensures forall x | x in Select(t, place, bucket, limit) :: r.id < x.id
  {
    var p := Partition(t, place, bucket);
    DescendingOrder(p);
    assert p[r.id] in Descending(p);
    TakeLeavesOut(Descending(p), limit, r);
  }

  lemma FetchAfterIsSound(t: Table, place: Place, bucket: nat, since: nat, limit: nat)
    requires WellKeyed(t)
    ensures
      var f := FetchAfter(t, place, bucket, since, limit);
      NoRepeat(f) && forall r | r in f :: RowOf(t, place, bucket, r) && r.createdAt > since
  {
    SelectIsOrdered(t, place, bucket, limit);
    FilterSelects(Select(t, place, bucket, limit), since);
    FilterOnce(Select(t, place, bucket, limit), since);
  }

  lemma RowIsFiled(t: Table, place: Place, bucket: nat, r: Row, now: nat)
    requires Filed(t, place, now) && RowOf(t, place, bucket, r)
    ensures bucket == BucketOf(r.createdAt) <= BucketOf(now)
  {
    assert InPlace(t, place, Key(place, bucket, r.id));
  }

  /** In a bucket after that of `since` every row is newer, so a fetch that does
      not reach its limit is complete. */
  lemma LaterBucketComplete(t: Table, place: Place, bucket: nat, since: nat, limit: nat, now: nat, r: Row)
    requires Filed(t, place, now) && BucketOf(since) < bucket && RowOf(t, place, bucket, r)
    requires |FetchAfter(t, place, bucket, since, limit)| < limit
    ensures r in FetchAfter(t, place, bucket, since, limit)
  {
    var top := Select(t, place, bucket, limit);
    SelectIsOrdered(t, place, bucket, limit);
    forall x | x in top ensures x.createdAt > since {
      RowIsFiled(t, place, bucket, x, now);
      BucketMonotone(since, x.createdAt);
    }
    FilterAll(top, since);
    if r !in top {
      SelectLeavesOut(t, place, bucket, limit, r);
    }
  }

  // ---- All buckets ----

  predicate Between(from: nat, to: nat, b: nat) {
    from <= b <= to || to <= b <= from
  }

  lemma {:induction false} FlatMapMembers(from: nat, to: nat, f: nat -> seq<Row>, r: Row)
    ensures r in FlatMap(from, to, f) <==> exists b :: Between(from, to, b) && r in f(b)
    decreases if from <= to then to - from else from - to
  {
    assert Between(from, to, from);
    if from != to {
      var next := if from < to then from + 1 else from - 1;
      FlatMapMembers(next, to, f, r);
      assert forall b :: Between(from, to, b) <==> b == from || Between(next, to, b);
    }
  }

  lemma {:induction false} FlatMapLonger(from: nat, to: nat, f: nat -> seq<Row>, b: nat)
    requires Between(from, to, b)
    ensures |f(b)| <= |FlatMap(from, to, f)|
    decreases if from <= to then to - from else from - to
  {
    if from != b {
      FlatMapLonger(if from < to then from + 1 else from - 1, to, f, b);
    }
  }

  lemma {:induction false} FlatMapOnce(from: nat, to: nat, f: nat -> seq<Row>)
    requires forall b: nat :: NoRepeat(f(b))
    requires forall b: nat, c: nat, r | r in f(b) && r in f(c) :: b == c
    ensures NoRepeat(FlatMap(from, to, f))
    decreases if from <= to then to - from else from - to
  {
    if from != to {
      var next := if from < to then from + 1 else from - 1;
      FlatMapOnce(next, to, f);
      forall r | r in FlatMap(next, to, f) ensures r !in f(from) {
        FlatMapMembers(next, to, f, r);
      }
      JoinOnce(f(from), FlatMap(next, to, f));
    }
  }

  lemma JoinOnce(a: seq<Row>, b: seq<Row>)
    requires NoRepeat(a) && NoRepeat(b) && forall r | r in b :: r !in a
    ensures NoRepeat(a + b)
  {
    forall i, j | 0 <= i < j < |a + b| ensures (a + b)[i] != (a + b)[j] {
      if i < |a| <= j {
        assert (a + b)[i] in a && (a + b)[j] in b;
      }
    }
  }

  // ---- Main results ----

  lemma NewerIsRow(t: Table, place: Place, since: nat, now: nat, r: Row)
    requires Filed(t, place, now)
    ensures
      r in Newer(t, place, since)
      <==> r.createdAt > since && RowOf(t, place, BucketOf(r.createdAt), r)
  {
    if r in Newer(t, place, since) {
      var k :| k in t && k.place == place && t[k].createdAt > since && t[k] == r;
      assert InPlace(t, place, k);
      assert k == Key(place, k.bucket, r.id);
    }
  }

  lemma FetchedRow(t: Table, place: Place, since: nat, limit: nat, now: nat, r: Row)
    requires WellKeyed(t) && r in Fetched(t, place, since, limit, now)
    ensures r.createdAt > since && exists b :: RowOf(t, place, b, r)
  {
    var f := Fetcher(t, place, since, limit + 1);
    FlatMapMembers(BucketOf(since), BucketOf(now), f, r);
    var b :| Between(BucketOf(since), BucketOf(now), b) && r in f(b);
    FetchAfterIsSound(t, place, b, since, limit + 1);
  }

  lemma FetcherOnce(t: Table, place: Place, since: nat, limit: nat, now: nat)
    requires Filed(t, place, now)
    ensures
      var f := Fetcher(t, place, since, limit);
      && (forall b: nat :: NoRepeat(f(b)))
      && (forall b: nat, c: nat, r | r in f(b) && r in f(c) :: b == c)
  {
    var f := Fetcher(t, place, since, limit);
    forall b: nat ensures NoRepeat(f(b)) {
      FetchAfterIsSound(t, place, b, since, limit);
    }
    forall b: nat, c: nat, r | r in f(b) && r in f(c) ensures b == c {
      FetchAfterIsSound(t, place, b, since, limit);
      FetchAfterIsSound(t, place, c, since, limit);
      RowIsFiled(t, place, b, r, now);
      RowIsFiled(t, place, c, r, now);
    }
  }

  /** What the buckets yield are newer rows, once each. */
  lemma FetchedIsSound(t: Table, place: Place, since: nat, limit: nat, now: nat)
    requires Filed(t, place, now)
    ensures
      var all := Fetched(t, place, since, limit, now);
      NoRepeat(all) && ToSet(all) <= Newer(t, place, since)
  {
    var all := Fetched(t, place, since, limit, now);
    forall r | r in all ensures r in Newer(t, place, since) {
      FetchedRow(t, place, since, limit, now, r);
      var b :| RowOf(t, place, b, r);
      RowIsFiled(t, place, b, r, now);
      NewerIsRow(t, place, since, now, r);
    }
    FetcherOnce(t, place, since, limit + 1, now);
    FlatMapOnce(BucketOf(since), BucketOf(now), Fetcher(t, place, since, limit + 1));
  }

  /** What the buckets yield is what they reach. */
  lemma FetchedIsReached(t: Table, place: Place, since: nat, limit: nat, now: nat)
    requires Filed(t, place, now)
    ensures
      var all := Fetched(t, place, since, limit, now);
      ToSet(all) == Reached(t, place, since, limit) && |all| == |Reached(t, place, since, limit)|
  {
    var all, reached := Fetched(t, place, since, limit, now), Reached(t, place, since, limit);
    FetchedIsSound(t, place, since, limit, now);
    NoRepeatSize(all);
    forall r ensures r in ToSet(all) <==> r in reached {
      assert r in all <==> r in ToSet(all);
      if r in Newer(t, place, since) {
        NewerIsFetchedIff(t, place, since, limit, now, r);
      }
    }
    assert ToSet(all) == reached;
  }

  lemma NewerIsFetchedIff(t: Table, place: Place, since: nat, limit: nat, now: nat, r: Row)
    requires Filed(t, place, now) && r in Newer(t, place, since)
    ensures
      r in Fetched(t, place, since, limit, now) <==> r in Select(t, place, BucketOf(r.createdAt), limit + 1)
  {
    var b := BucketOf(r.createdAt);
    NewerIsRow(t, place, since, now, r);
    BucketMonotone(since, r.createdAt);
    FetchedFromOwnBucket(t, place, since, limit, now, b, r);
    FilterSelects(Select(t, place, b, limit + 1), since);
  }

  /** When the buckets yield at most `limit` rows, what they leave out is
      exactly what is hidden. */
  lemma FetchedMissesHidden(t: Table, place: Place, since: nat, limit: nat, now: nat, r: Row)
    requires Filed(t, place, now) && r in Newer(t, place, since)
    requires |Fetched(t, place, since, limit, now)| <= limit
    ensures r in Fetched(t, place, since, limit, now) <==> r !in Hidden(t, place, since, limit)
  {
    NewerIsFetchedIff(t, place, since, limit, now, r);
    if BucketOf(r.createdAt) != BucketOf(since) {
      LaterIsFetched(t, place, since, limit, now, r);
    }
  }

  lemma LaterIsFetched(t: Table, place: Place, since: nat, limit: nat, now: nat, r: Row)
    requires Filed(t, place, now) && r in Newer(t, place, since) && BucketOf(r.createdAt) != BucketOf(since)
    requires |Fetched(t, place, since, limit, now)| <= limit
    ensures r in Fetched(t, place, since, limit, now)
  {
    var b := BucketOf(r.createdAt);
    NewerIsRow(t, place, since, now, r);
    RowIsFiled(t, place, b, r, now);
    BucketMonotone(since, r.createdAt);
    FetchedFromOwnBucket(t, place, since, limit, now, b, r);
    FlatMapLonger(BucketOf(since), BucketOf(now), Fetcher(t, place, since, limit + 1), b);
    LaterBucketComplete(t, place, b, since, limit + 1, now, r);
  }

  /** A row is fetched exactly if the fetch of its own bucket yields it. */
  lemma FetchedFromOwnBucket(t: Table, place: Place, since: nat, limit: nat, now: nat, b: nat, r: Row)
    requires Filed(t, place, now) && RowOf(t, place, b, r) && BucketOf(since) <= b
    ensures r in Fetched(t, place, since, limit, now) <==> r in FetchAfter(t, place, b, since, limit + 1)
  {
    var f := Fetcher(t, place, since, limit + 1);
    RowIsFiled(t, place, b, r, now);
    FlatMapMembers(BucketOf(since), BucketOf(now), f, r);
    assert Between(BucketOf(since), BucketOf(now), b);
    if c :| Between(BucketOf(since), BucketOf(now), c) && r in f(c) {
      FetchAfterIsSound(t, place, c, since, limit + 1);
      RowIsFiled(t, place, c, r, now);
    }
  }

  /** The answer that a plain scan would give. */
  ghost predicate AnswersScan(d: Deltas, newer: set<Row>, limit: nat) {
    && (d.hasMore <==> |newer| > limit)
    && (!d.hasMore ==> ToSet(d.rows) == newer)
  }

  lemma TakeIsPrefix(rows: seq<Row>, n: nat)
    requires Sorted(rows) && NoRepeat(rows)
    ensures Sorted(Take(rows, n)) && NoRepeat(Take(rows, n)) && ToSet(Take(rows, n)) <= ToSet(rows)
  {
  }

  /** A fetch answers exactly when both times have a bucket, in whatever buckets
      they lie and whatever the table holds. */
  lemma FetchAnswersIff(t: Table, place: Place, since: U64, wanted: nat, now: U64)
    ensures
      GetDeltas(t, place, since, wanted, now).Some?
      <==> since < 0x1_0000_0000 * 864_000_000 && now < 0x1_0000_0000 * 864_000_000
  {
    BucketIsTenDays(since, BucketOf(since));
    BucketIsTenDays(now, BucketOf(now));
  }

  /** Whatever the ids: the page is ascending, without repetition, made of newer
      rows, and `has_more` is never claimed without reason. */
  lemma PageIsSound(t: Table, place: Place, since: U64, wanted: nat, now: U64)
    requires Filed(t, place, now) && Bucketed(since) && Bucketed(now)
    ensures GetDeltas(t, place, since, wanted, now).Some?
    ensures
      var d := GetDeltas(t, place, since, wanted, now).value;
      var limit := Min(wanted, MAX_DELTAS);
      var all := Fetched(t, place, since, limit, now);
      && Sorted(d.rows) && NoRepeat(d.rows) && ToSet(d.rows) <= Newer(t, place, since)
      && (d.hasMore <==> |all| > limit)
      && (d.hasMore ==> |d.rows| == limit && |Newer(t, place, since)| > limit)
      && (!d.hasMore ==> ToSet(d.rows) == ToSet(all))
  {
    var limit := Min(wanted, MAX_DELTAS);
    var all := Fetched(t, place, since, limit, now);
    var sorted := SortByCreated(all);
    FetchedIsSound(t, place, since, limit, now);
    SortIsSort(all);
    SameElements(all, sorted);
    NoRepeatSize(all);
    SubsetSize(ToSet(all), Newer(t, place, since));
    TakeIsPrefix(sorted, limit + 1);
    TakeIsPrefix(Take(sorted, limit + 1), limit);
  }

  lemma FetchedIsSorted(all: seq<Row>, y: Row)
    requires y in all
    ensures y in SortByCreated(all) && Sorted(SortByCreated(all))
  {
    SortIsSort(all);
    assert y in multiset(all) && y in multiset(SortByCreated(all));
  }

  lemma PageOfFetched(t: Table, place: Place, since: U64, wanted: nat, now: U64)
    requires Bucketed(since) && Bucketed(now)
    ensures GetDeltas(t, place, since, wanted, now).Some?
    ensures
      var limit := Min(wanted, MAX_DELTAS);
      GetDeltas(t, place, since, wanted, now).value.rows
      == Take(Take(SortByCreated(Fetched(t, place, since, limit, now)), limit + 1), limit)
  {
  }

  lemma OldestOfFetched(all: seq<Row>, limit: nat, rows: seq<Row>, x: Row, y: Row)
    requires rows == Take(Take(SortByCreated(all), limit + 1), limit)
    requires x in rows && y !in rows && y in all
    ensures x.createdAt <= y.createdAt
  {
    FetchedIsSorted(all, y);
    TakeIsOldest(SortByCreated(all), limit, x, y);
  }

  /** What a page leaves out of what was fetched is no older than the page. */
  lemma PageIsOldest(t: Table, place: Place, since: U64, wanted: nat, now: U64, x: Row, y: Row)
    requires Bucketed(since) && Bucketed(now)
    requires
      var rows := GetDeltas(t, place, since, wanted, now).value.rows;
      x in rows && y !in rows && y in Fetched(t, place, since, Min(wanted, MAX_DELTAS), now)
    ensures x.createdAt <= y.createdAt
  {
    var limit := Min(wanted, MAX_DELTAS);
    PageOfFetched(t, place, since, wanted, now);
    OldestOfFetched(Fetched(t, place, since, limit, now), limit,
                    GetDeltas(t, place, since, wanted, now).value.rows, x, y);
  }

  lemma TakeIsOldest(sorted: seq<Row>, limit: nat, x: Row, y: Row)
    requires Sorted(sorted) && x in Take(Take(sorted, limit + 1), limit)
    requires y in sorted && y !in Take(Take(sorted, limit + 1), limit)
    ensures x.createdAt <= y.createdAt
  {
    var top := Take(Take(sorted, limit + 1), limit);
    var i :| 0 <= i < |top| && top[i] == x;
    var j :| 0 <= j < |sorted| && sorted[j] == y;
    assert forall m | 0 <= m < |top| :: top[m] == sorted[m] && top[m] in top;
    assert j >= |top|;
  }

  /** The bucketed fetch gives the answer of a plain scan exactly when it reaches
      more than `limit` newer rows, or no newer row of the first bucket lies below
      that bucket's highest `limit + 1` ids. */
  lemma FetchAnswersScanIff(t: Table, place: Place, since: U64, wanted: nat, now: U64)
    requires Filed(t, place, now) && Bucketed(since) && Bucketed(now)
    ensures GetDeltas(t, place, since, wanted, now).Some?
    ensures
      var d := GetDeltas(t, place, since, wanted, now).value;
      var limit := Min(wanted, MAX_DELTAS);
      AnswersScan(d, Newer(t, place, since), limit)
      <==> |Reached(t, place, since, limit)| > limit || Hidden(t, place, since, limit) == {}
  {
    var d := GetDeltas(t, place, since, wanted, now).value;
    var limit := Min(wanted, MAX_DELTAS);
    PageIsSound(t, place, since, wanted, now);
    FetchedIsReached(t, place, since, limit, now);
    if !d.hasMore {
      MissedIsHidden(t, place, since, limit, now);
      assert Hidden(t, place, since, limit) <= Newer(t, place, since);
    }
  }

  lemma MissedIsHidden(t: Table, place: Place, since: nat, limit: nat, now: nat)
    requires Filed(t, place, now) && |Fetched(t, place, since, limit, now)| <= limit
    ensures
      var all := Fetched(t, place, since, limit, now);
      ToSet(all) == Newer(t, place, since) - Hidden(t, place, since, limit) && |ToSet(all)| <= limit
  {
    var all, newer := Fetched(t, place, since, limit, now), Newer(t, place, since);
    FetchedIsSound(t, place, since, limit, now);
    NoRepeatSize(all);
    forall r ensures r in ToSet(all) <==> r in newer - Hidden(t, place, since, limit) {
      assert r in all <==> r in ToSet(all);
      if r in newer {
        FetchedMissesHidden(t, place, since, limit, now, r);
      }
    }
  }

  /** When ids follow time, the fetch refines the scan: `has_more` exactly when
      more than `limit` rows are newer, and otherwise exactly those rows, once
      each, in ascending order of creation. */
  lemma FetchRefinesScan(t: Table, place: Place, since: U64, wanted: nat, now: U64)
    requires Filed(t, place, now) && IdsFollowTime(t, place)
    requires Bucketed(since) && Bucketed(now)
    ensures GetDeltas(t, place, since, wanted, now).Some?
    ensures
      var d := GetDeltas(t, place, since, wanted, now).value;
      && AnswersScan(d, Newer(t, place, since), Min(wanted, MAX_DELTAS))
      && Sorted(d.rows) && NoRepeat(d.rows) && ToSet(d.rows) <= Newer(t, place, since)
  {
    var limit := Min(wanted, MAX_DELTAS);
    PageIsSound(t, place, since, wanted, now);
    FetchAnswersScanIff(t, place, since, wanted, now);
    if r :| r in Hidden(t, place, since, limit) {
      HiddenMeansFull(t, place, since, limit, now, r);
    }
  }

  /** With ids that follow time, a hidden newer row has `limit + 1` newer rows
      above it, so the fetch overflows. */
  lemma HiddenMeansFull(t: Table, place: Place, since: nat, limit: nat, now: nat, r: Row)
    requires Filed(t, place, now) && IdsFollowTime(t, place) && r in Hidden(t, place, since, limit)
    ensures |Fetched(t, place, since, limit, now)| > limit
  {
    var sb, cb := BucketOf(since), BucketOf(now);
    var top := Select(t, place, sb, limit + 1);
    NewerIsRow(t, place, since, now, r);
    RowIsFiled(t, place, sb, r, now);
    SelectIsOrdered(t, place, sb, limit + 1);
    SelectLeavesOut(t, place, sb, limit + 1, r);
    forall x | x in top ensures x.createdAt > since {
      assert InPlace(t, place, Key(place, sb, r.id)) && InPlace(t, place, Key(place, sb, x.id));
    }
    FilterAll(top, since);
    FlatMapLonger(sb, cb, Fetcher(t, place, since, limit + 1), sb);
  }

  lemma HigherIsIn(t: Table, place: Place, bucket: nat, limit: nat, low: Row, high: Row)
    requires WellKeyed(t) && RowOf(t, place, bucket, low) && RowOf(t, place, bucket, high) && low.id < high.id
    ensures low in Select(t, place, bucket, limit) ==> high in Select(t, place, bucket, limit)
  {
    if high !in Select(t, place, bucket, limit) {
      SelectLeavesOut(t, place, bucket, limit, high);
    }
  }

  /** Below two higher ids a row is not among the highest two. */
  lemma ThirdIsCut(t: Table, place: Place, bucket: nat, r1: Row, r2: Row, r3: Row)
    requires WellKeyed(t) && r1.id < r2.id < r3.id
    requires RowOf(t, place, bucket, r1) && RowOf(t, place, bucket, r2) && RowOf(t, place, bucket, r3)
    ensures r1 !in Select(t, place, bucket, 2)
  {
    var top := Select(t, place, bucket, 2);
    SelectIsOrdered(t, place, bucket, 2);
    HigherIsIn(t, place, bucket, 2, r1, r2);
    HigherIsIn(t, place, bucket, 2, r1, r3);
    NoRepeatSize(top);
    assert |{r1, r2, r3}| == 3;
    if r1 in top {
      SubsetSize({r1, r2, r3}, ToSet(top));
    }
  }

  function Stub(id: nat, at: nat): Row {
    Row(id, [], [], 0, None, at, 0)
  }

  /** One bucket holding two old rows and, under a lower id, a newer one. */
  function ThreeRows(place: Place): Table {
    map[Key(place, 0, 1) := Stub(1, 10), Key(place, 0, 2) := Stub(2, 3), Key(place, 0, 3) := Stub(3, 4)]
  }

  lemma ThreeRowsFiled(place: Place)
    ensures Filed(ThreeRows(place), place, 20) && Newer(ThreeRows(place), place, 5) == {Stub(1, 10)}
  {
    var t := ThreeRows(place);
    assert BucketOf(10) == BucketOf(3) == BucketOf(4) == BucketOf(20) == 0;
    assert Key(place, 0, 1) in t;
  }

  /** Without that order newer rows are lost: the page of one stays empty, and
      nothing says there is more. */
  lemma UnorderedIdsLoseRows(place: Place)
    ensures
      var d := GetDeltas(ThreeRows(place), place, 5, 1, 20);
      && Newer(ThreeRows(place), place, 5) == {Stub(1, 10)}
      && d == Some(Deltas([], false))
  {
    var t := ThreeRows(place);
    ThreeRowsFiled(place);
    ThirdIsCut(t, place, 0, Stub(1, 10), Stub(2, 3), Stub(3, 4));
    NothingFetched(t, place);
  }

  lemma NothingFetched(t: Table, place: Place)
    requires Filed(t, place, 20) && Newer(t, place, 5) == {Stub(1, 10)}
    requires Stub(1, 10) !in Select(t, place, 0, 2)
    ensures Fetched(t, place, 5, 1, 20) == []
  {
    var all := Fetched(t, place, 5, 1, 20);
    FetchedIsSound(t, place, 5, 1, 20);
    if all != [] {
      assert all[0] in ToSet(all) && all[0] == Stub(1, 10);
      assert BucketOf(5) == 0 && BucketOf(20) == 0 && BucketOf(10) == 0;
      FlatMapMembers(0, 0, Fetcher(t, place, 5, 2), Stub(1, 10));
      FilterSelects(Select(t, place, 0, 2), 5);
    }
  }
}
