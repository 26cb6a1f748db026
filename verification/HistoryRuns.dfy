/** Runs of recent-message reads within one time bucket: any readers, each in two
    steps (after a miss the table is read, and later the entry refilled), between
    sends, sync pushes and expiries of any channels
    (`apps/persistence/lib/persistence/messages.ex`,
    `apps/gateway/lib/gateway/binary_socket.ex`). */
module HistoryRuns {
  import opened Base
  import opened Cache
  import opened History
  import opened MessageTable

  // ---- Where a row stands in the listing ----

  predicate Recent(bucket: nat, now: nat) {
    bucket == now || bucket + 1 == now
  }

  predicate Listable(t: Table, place: Place, now: nat, k: Key) {
    k in t && k.place == place && Recent(k.bucket, now)
  }

  /** The keys listed before `k`: of a later bucket, or of a higher id. */
  function Ahead(t: Table, place: Place, now: nat, k: Key): set<Key> {
    set l | l in t && l.place == place && Recent(l.bucket, now)
      && (l.bucket > k.bucket || (l.bucket == k.bucket && l.id > k.id))
  }

  function KeysOf(place: Place, bucket: nat, ids: set<nat>): set<Key> {
    set id | id in ids :: Key(place, bucket, id)
  }

  lemma {:induction false} KeysOfSize(place: Place, bucket: nat, ids: set<nat>)
    ensures |KeysOf(place, bucket, ids)| == |ids|
  {
    if ids != {} {
      var id :| id in ids;
      KeysOfSize(place, bucket, ids - {id});
      assert KeysOf(place, bucket, ids) == KeysOf(place, bucket, ids - {id}) + {Key(place, bucket, id)};
    }
  }

  lemma AheadInCurrent(t: Table, place: Place, now: nat, id: nat)
    ensures |Ahead(t, place, now, Key(place, now, id))| == |Higher(Partition(t, place, now).Keys, id)|
  {
    var ids := Higher(Partition(t, place, now).Keys, id);
    forall l ensures l in Ahead(t, place, now, Key(place, now, id)) <==> l in KeysOf(place, now, ids) {
      if l in Ahead(t, place, now, Key(place, now, id)) {
        assert l == Key(place, now, l.id) && l.id in ids;
      }
    }
    assert Ahead(t, place, now, Key(place, now, id)) == KeysOf(place, now, ids);
    KeysOfSize(place, now, ids);
  }

  lemma AheadOfPrevious(t: Table, place: Place, now: nat, id: nat)
    requires now > 0
    ensures
      Ahead(t, place, now, Key(place, now - 1, id))
      == KeysOf(place, now, Partition(t, place, now).Keys)
         + KeysOf(place, now - 1, Higher(Partition(t, place, now - 1).Keys, id))
  {
    var all := Partition(t, place, now).Keys;
    var ids := Higher(Partition(t, place, now - 1).Keys, id);
    var sum := KeysOf(place, now, all) + KeysOf(place, now - 1, ids);
    forall l ensures l in Ahead(t, place, now, Key(place, now - 1, id)) <==> l in sum {
      if l in Ahead(t, place, now, Key(place, now - 1, id)) {
        assert l == Key(place, l.bucket, l.id);
        assert if l.bucket == now then l.id in all else l.id in ids;
      }
    }
  }

  lemma TwoBucketsSize(place: Place, now: nat, a: set<nat>, b: set<nat>)
    requires now > 0
    ensures |KeysOf(place, now, a) + KeysOf(place, now - 1, b)| == |a| + |b|
  {
    KeysOfSize(place, now, a);
    KeysOfSize(place, now - 1, b);
    DisjointUnionSize(KeysOf(place, now, a), KeysOf(place, now - 1, b));
  }

  lemma AheadInPrevious(t: Table, place: Place, now: nat, id: nat)
    requires now > 0
    ensures
      |Ahead(t, place, now, Key(place, now - 1, id))|
      == |Listed(t, place, now)| + |Higher(Partition(t, place, now - 1).Keys, id)|
  {
    AheadOfPrevious(t, place, now, id);
    TwoBucketsSize(place, now, Partition(t, place, now).Keys, Higher(Partition(t, place, now - 1).Keys, id));
  }

  lemma DisjointUnionSize<T>(a: set<T>, b: set<T>)
    requires a !! b
    ensures |a + b| == |a| + |b|
  {
  }

  lemma FullParts(t: Table, place: Place, now: nat, i: nat)
    ensures
      var n := |Listed(t, place, now)|;
      && (i < n ==> i < |Full(t, place, now)| && Full(t, place, now)[i] == Listed(t, place, now)[i])
      && (n <= i < |Full(t, place, now)| ==> now > 0)
      && (now > 0 && n <= i ==> (i < |Full(t, place, now)| <==> i - n < |Listed(t, place, now - 1)|))
      && (n <= i < |Full(t, place, now)| ==> Full(t, place, now)[i] == Listed(t, place, now - 1)[i - n])
  {
  }

  lemma ListedPosition(t: Table, place: Place, bucket: nat, id: nat)
    requires Key(place, bucket, id) in t
    ensures
      var i := |Higher(Partition(t, place, bucket).Keys, id)|;
      i < |Listed(t, place, bucket)| && Listed(t, place, bucket)[i] == t[Key(place, bucket, id)]
  {
    IdPosition(Partition(t, place, bucket).Keys, id);
  }

  lemma CurrentPosition(t: Table, place: Place, now: nat, id: nat)
    requires Key(place, now, id) in t
    ensures
      var i := |Ahead(t, place, now, Key(place, now, id))|;
      i < |Full(t, place, now)| && Full(t, place, now)[i] == t[Key(place, now, id)]
  {
    ListedPosition(t, place, now, id);
    AheadInCurrent(t, place, now, id);
    FullParts(t, place, now, |Higher(Partition(t, place, now).Keys, id)|);
  }

  lemma PreviousPosition(t: Table, place: Place, now: nat, id: nat)
    requires now > 0 && Key(place, now - 1, id) in t
    ensures
      var i := |Ahead(t, place, now, Key(place, now - 1, id))|;
      i < |Full(t, place, now)| && Full(t, place, now)[i] == t[Key(place, now - 1, id)]
  {
    ListedPosition(t, place, now - 1, id);
    AheadInPrevious(t, place, now, id);
    FullParts(t, place, now, |Listed(t, place, now)| + |Higher(Partition(t, place, now - 1).Keys, id)|);
  }

  /** A row stands at as many places from the front as rows are ahead of it. */
  lemma RowPosition(t: Table, place: Place, now: nat, k: Key)
    requires Listable(t, place, now, k)
    ensures
      var i := |Ahead(t, place, now, k)|;
      i < |Full(t, place, now)| && Full(t, place, now)[i] == t[k]
  {
    assert k == Key(place, k.bucket, k.id);
    if k.bucket == now {
      CurrentPosition(t, place, now, k.id);
    } else {
      PreviousPosition(t, place, now, k.id);
    }
  }

  lemma ListedKey(t: Table, place: Place, bucket: nat, i: nat)
    requires i < |Listed(t, place, bucket)|
    ensures
      exists id :: Key(place, bucket, id) in t && |Higher(Partition(t, place, bucket).Keys, id)| == i
  {
    var ids := Partition(t, place, bucket).Keys;
    IdAt(ids, i);
    DescendingIdsOrder(ids);
    assert DescendingIds(ids)[i] in DescendingIds(ids);
  }

  /** Every place of the listing is some row's. */
  lemma KeyAt(t: Table, place: Place, now: nat, i: nat)
    requires i < |Full(t, place, now)|
    ensures exists k :: Listable(t, place, now, k) && |Ahead(t, place, now, k)| == i
  {
    var n := |Listed(t, place, now)|;
    FullParts(t, place, now, i);
    if i < n {
      ListedKey(t, place, now, i);
      var id :| Key(place, now, id) in t && |Higher(Partition(t, place, now).Keys, id)| == i;
      AheadInCurrent(t, place, now, id);
      assert Listable(t, place, now, Key(place, now, id));
    } else {
      ListedKey(t, place, now - 1, i - n);
      var id :| Key(place, now - 1, id) in t && |Higher(Partition(t, place, now - 1).Keys, id)| == i - n;
      AheadInPrevious(t, place, now, id);
      assert Listable(t, place, now, Key(place, now - 1, id));
    }
  }

  // ---- When the first rows of two tables look alike ----

  function ShownRow(r: Row): Row {
    r.(receivedAt := 0)
  }

  ghost predicate WellFiled(t: Table) {
    forall k | k in t :: t[k].id == k.id && k.bucket == BucketOf(t[k].createdAt)
  }

  /** `k` is listed in `u`, and `t` lacks it or shows it otherwise. */
  predicate Changed(t: Table, u: Table, place: Place, now: nat, k: Key) {
    Listable(u, place, now, k) && (k !in t || ShownRow(t[k]) != ShownRow(u[k]))
  }

  predicate AlikeAt(t: Table, u: Table, place: Place, now: nat, i: nat) {
    && i < |Full(t, place, now)| && i < |Full(u, place, now)|
    && ShownRow(Full(t, place, now)[i]) == ShownRow(Full(u, place, now)[i])
  }

  lemma AheadNests(t: Table, place: Place, now: nat, k: Key, l: Key)
    requires l in Ahead(t, place, now, k)
    ensures |Ahead(t, place, now, l)| < |Ahead(t, place, now, k)|
  {
    var a, b := Ahead(t, place, now, l), Ahead(t, place, now, k);
    assert a <= b - {l};
    SubsetSize(a, b - {l});
  }

  lemma UnchangedAlike(t: Table, u: Table, place: Place, now: nat, limit: nat, i: nat)
    requires t.Keys <= u.Keys && i < limit && i < |Full(u, place, now)|
    requires forall k | Changed(t, u, place, now, k) :: |Ahead(u, place, now, k)| >= limit
    ensures AlikeAt(t, u, place, now, i)
  {
    KeyAt(u, place, now, i);
    var k :| Listable(u, place, now, k) && |Ahead(u, place, now, k)| == i;
    assert !Changed(t, u, place, now, k);
    forall l | l in Ahead(u, place, now, k) ensures l in Ahead(t, place, now, k) {
      AheadNests(u, place, now, k, l);
      assert !Changed(t, u, place, now, l);
    }
    assert Ahead(t, place, now, k) == Ahead(u, place, now, k);
    RowPosition(t, place, now, k);
    RowPosition(u, place, now, k);
  }

  lemma AlikeUnchanged(t: Table, u: Table, place: Place, now: nat, k: Key)
    requires WellFiled(t) && WellFiled(u) && Listable(u, place, now, k)
    requires AlikeAt(t, u, place, now, |Ahead(u, place, now, k)|)
    ensures !Changed(t, u, place, now, k)
  {
    var i := |Ahead(u, place, now, k)|;
    RowPosition(u, place, now, k);
    KeyAt(t, place, now, i);
    var l :| Listable(t, place, now, l) && |Ahead(t, place, now, l)| == i;
    RowPosition(t, place, now, l);
    assert ShownRow(t[l]) == ShownRow(u[k]);
    SameShownSameKey(t, u, l, k);
  }

  lemma SameShownSameKey(t: Table, u: Table, l: Key, k: Key)
    requires WellFiled(t) && WellFiled(u) && l in t && k in u && l.place == k.place
    requires ShownRow(t[l]) == ShownRow(u[k])
    ensures l == k
  {
    assert t[l].createdAt == ShownRow(t[l]).createdAt && u[k].createdAt == ShownRow(u[k]).createdAt;
    assert t[l].id == ShownRow(t[l]).id && u[k].id == ShownRow(u[k]).id;
  }

  /** The first rows of a table and of a later one look alike exactly when every
      row that changed has at least that many rows ahead of it. */
  lemma FirstRowsAlikeIff(t: Table, u: Table, place: Place, now: nat, limit: nat)
    requires WellFiled(t) && WellFiled(u) && t.Keys <= u.Keys && limit <= |Full(t, place, now)|
    ensures
      Shown(Expected(t, place, limit, now)) == Shown(Expected(u, place, limit, now))
      <==> forall k | Changed(t, u, place, now, k) :: |Ahead(u, place, now, k)| >= limit
  {
    var a, b := Full(t, place, now), Full(u, place, now);
    LongerListing(t, u, place, now);
    if forall k | Changed(t, u, place, now, k) :: |Ahead(u, place, now, k)| >= limit {
      forall i | 0 <= i < limit ensures ShownRow(a[i]) == ShownRow(b[i]) {
        UnchangedAlike(t, u, place, now, limit, i);
      }
      ShownPointwise(a, b, limit);
    } else if Shown(Take(a, limit)) == Shown(Take(b, limit)) {
      var k :| Changed(t, u, place, now, k) && |Ahead(u, place, now, k)| < limit;
      ShownPointwise(a, b, limit);
      AlikeUnchanged(t, u, place, now, k);
      assert false;
    }
  }

  lemma ShownPointwise(a: seq<Row>, b: seq<Row>, n: nat)
    requires n <= |a| && n <= |b|
    ensures Shown(Take(a, n)) == Shown(Take(b, n)) <==> forall i | 0 <= i < n :: ShownRow(a[i]) == ShownRow(b[i])
  {
    var x, y := Shown(Take(a, n)), Shown(Take(b, n));
    assert |x| == |y| == n;
    assert forall i | 0 <= i < n :: x[i] == ShownRow(a[i]) && y[i] == ShownRow(b[i]);
  }

  lemma LongerListing(t: Table, u: Table, place: Place, now: nat)
    requires t.Keys <= u.Keys
    ensures |Full(t, place, now)| <= |Full(u, place, now)|
  {
    if |Full(t, place, now)| > 0 {
      var n := |Full(t, place, now)| - 1;
      KeyAt(t, place, now, n);
      var k :| Listable(t, place, now, k) && |Ahead(t, place, now, k)| == n;
      SubsetSize(Ahead(t, place, now, k), Ahead(u, place, now, k));
      RowPosition(u, place, now, k);
    }
  }

  // ---- Runs ----

  /** `Send`: a message stored and the entry dropped at once; `Push`: a row of a
      sync push, stored with no invalidation; `Expire`: the entry goes. A send
      whose two commands come apart is a push and later an expiry. A row is filed
      under the bucket of its creation time by both callers. */
  datatype Event =
    | Send(place: Place, row: Row)
    | Push(place: Place, row: Row)
    | Expire(place: Place)
    | TableRead(reader: nat, place: Place, limit: nat)
    | Refill(reader: nat)

  /** As history, the table that the rows were read from, and whether a write to
      the channel came since. */
  datatype Entry = Entry(rows: seq<Row>, seen: Table, stale: bool)
  datatype Reading = Reading(place: Place, rows: seq<Row>, seen: Table, late: bool)

  datatype World = World(table: Table, recent: map<Place, Entry>, readers: map<nat, Reading>)

  function EntryOf(w: World, place: Place): Option<seq<Row>> {
    if place in w.recent then Some(w.recent[place].rows) else None
  }

  /** What a reader of the channel gets: the entry's rows or the table's. */
  function Reads(w: World, place: Place, limit: nat, now: nat): seq<Row> {
    Answer(EntryOf(w, place), w.table, place, limit, now)
  }

  function Marked(x: Entry, written: bool): Entry {
    if written then x.(stale := true) else x
  }

  function Outdated(recent: map<Place, Entry>, place: Place): map<Place, Entry> {
    map p | p in recent :: Marked(recent[p], p == place)
  }

  function Noticed(x: Reading, place: Place): Reading {
    if x.place == place then x.(late := true) else x
  }

  function Overtaken(readers: map<nat, Reading>, place: Place): map<nat, Reading> {
    map r | r in readers :: Noticed(readers[r], place)
  }

  function Filling(r: Reading): Entry {
    Entry(DeserializeAll(SerializeAll(r.rows)), r.seen, r.late)
  }

  function Stored(t: Table, place: Place, row: Row): Table {
    Write(t, place, BucketOf(row.createdAt), row)
  }

  function Step(w: World, e: Event, now: nat): Option<World> {
    match e
    case Send(place, row) =>
      Some(World(Stored(w.table, place, row), w.recent - {place}, Overtaken(w.readers, place)))
    case Push(place, row) =>
      Some(World(Stored(w.table, place, row), Outdated(w.recent, place), Overtaken(w.readers, place)))
    case Expire(place) => Some(w.(recent := w.recent - {place}))
    case TableRead(reader, place, limit) =>
      if reader in w.readers || Served(EntryOf(w, place), limit) then None
      else
        var rows := FromTable(w.table, place, limit, now);
        Some(w.(readers := w.readers[reader := Reading(place, rows, w.table, false)]))
    case Refill(reader) =>
      if reader !in w.readers then None
      else
        var r := w.readers[reader];
        Some(w.(recent := if r.rows == [] then w.recent else w.recent[r.place := Filling(r)],
                readers := w.readers - {reader}))
  }

  /** `now` is the current bucket throughout. */
  function Run(t: Table, events: seq<Event>, now: nat): Option<World> {
    if events == [] then Some(World(t, map[], map[]))
    else
      match Run(t, events[..|events| - 1], now)
      case None => None
      case Some(w) => Step(w, events[|events| - 1], now)
  }

  // ---- What entries hold ----

  ghost predicate Agree(t: Table, u: Table, place: Place) {
    forall k: Key | k.place == place :: (k in t <==> k in u) && (k in t ==> t[k] == u[k])
  }

  /** Rows read from `seen`, an earlier state of the table. */
  ghost predicate ReadFrom(rows: seq<Row>, seen: Table, t: Table, place: Place, now: nat, behind: bool) {
    && WellFiled(seen) && seen.Keys <= t.Keys
    && (exists m: nat :: Shown(rows) == Shown(Expected(seen, place, m, now)))
    && (!behind ==> Agree(seen, t, place))
  }

  ghost predicate GoodEntry(x: Entry, t: Table, place: Place, now: nat) {
    ReadFrom(x.rows, x.seen, t, place, now, x.stale)
  }

  ghost predicate GoodReading(x: Reading, t: Table, now: nat) {
    ReadFrom(x.rows, x.seen, t, x.place, now, x.late)
  }

  ghost predicate GoodEntries(recent: map<Place, Entry>, t: Table, now: nat) {
    forall p | p in recent :: GoodEntry(recent[p], t, p, now)
  }

  ghost predicate GoodReaders(readers: map<nat, Reading>, t: Table, now: nat) {
    forall r | r in readers :: GoodReading(readers[r], t, now)
  }

  ghost predicate Inv(w: World, now: nat) {
    WellFiled(w.table) && GoodEntries(w.recent, w.table, now) && GoodReaders(w.readers, w.table, now)
  }

  lemma StoredKeeps(rows: seq<Row>, seen: Table, t: Table, place: Place, now: nat, behind: bool, p: Place, row: Row)
    requires ReadFrom(rows, seen, t, place, now, behind)
    ensures ReadFrom(rows, seen, Stored(t, p, row), place, now, behind || p == place)
  {
  }

  lemma StoredIsFiled(t: Table, place: Place, row: Row)
    requires WellFiled(t)
    ensures WellFiled(Stored(t, place, row))
  {
  }

  lemma ReadingOvertaken(x: Reading, t: Table, place: Place, row: Row, now: nat)
    requires GoodReading(x, t, now)
    ensures GoodReading(Noticed(x, place), Stored(t, place, row), now)
  {
    StoredKeeps(x.rows, x.seen, t, x.place, now, x.late, place, row);
  }

  lemma EntryOutdated(x: Entry, t: Table, p: Place, place: Place, row: Row, now: nat)
    requires GoodEntry(x, t, p, now)
    ensures GoodEntry(Marked(x, p == place), Stored(t, place, row), p, now)
  {
    StoredKeeps(x.rows, x.seen, t, p, now, x.stale, place, row);
  }

  lemma WriteKeepsReaders(readers: map<nat, Reading>, t: Table, place: Place, row: Row, now: nat)
    requires GoodReaders(readers, t, now)
    ensures GoodReaders(Overtaken(readers, place), Stored(t, place, row), now)
  {
    var u, after := Stored(t, place, row), Overtaken(readers, place);
    forall r | r in readers ensures GoodReading(after[r], u, now) {
      ReadingOvertaken(readers[r], t, place, row, now);
    }
  }

  lemma WriteKeepsEntries(recent: map<Place, Entry>, t: Table, place: Place, row: Row, now: nat)
    requires GoodEntries(recent, t, now)
    ensures GoodEntries(Outdated(recent, place), Stored(t, place, row), now)
  {
    var u, after := Stored(t, place, row), Outdated(recent, place);
    forall p | p in recent ensures GoodEntry(after[p], u, p, now) {
      EntryOutdated(recent[p], t, p, place, row, now);
    }
  }

  lemma WriteKeepsInv(w: World, place: Place, row: Row, now: nat)
    requires Inv(w, now)
    ensures Inv(World(Stored(w.table, place, row), Outdated(w.recent, place), Overtaken(w.readers, place)), now)
  {
    StoredIsFiled(w.table, place, row);
    WriteKeepsReaders(w.readers, w.table, place, row, now);
    WriteKeepsEntries(w.recent, w.table, place, row, now);
  }

  lemma DropKeepsInv(w: World, place: Place, now: nat)
    requires Inv(w, now)
    ensures Inv(w.(recent := w.recent - {place}), now)
  {
  }

  lemma JustRead(t: Table, place: Place, limit: nat, now: nat)
    requires WellFiled(t)
    ensures GoodReading(Reading(place, FromTable(t, place, limit, now), t, false), t, now)
  {
    TableReadIsExact(t, place, limit, now);
    assert Shown(FromTable(t, place, limit, now)) == Shown(Expected(t, place, limit, now));
  }

  lemma OneMoreReader(readers: map<nat, Reading>, t: Table, now: nat, reader: nat, x: Reading)
    requires GoodReaders(readers, t, now) && GoodReading(x, t, now)
    ensures GoodReaders(readers[reader := x], t, now)
  {
  }

  lemma TableReadKeepsInv(w: World, reader: nat, place: Place, limit: nat, now: nat)
    requires Inv(w, now) && Step(w, TableRead(reader, place, limit), now).Some?
    ensures Inv(Step(w, TableRead(reader, place, limit), now).value, now)
  {
    var x := Reading(place, FromTable(w.table, place, limit, now), w.table, false);
    JustRead(w.table, place, limit, now);
    OneMoreReader(w.readers, w.table, now, reader, x);
  }

  lemma ShownTwice(rows: seq<Row>)
    ensures Shown(Shown(rows)) == Shown(rows)
  {
  }

  lemma FillingIsGood(r: Reading, t: Table, now: nat)
    requires GoodReading(r, t, now)
    ensures GoodEntry(Filling(r), t, r.place, now)
  {
    CachedRowsReadBack(r.rows);
    ShownTwice(r.rows);
  }

  lemma RefillKeepsEntries(recent: map<Place, Entry>, r: Reading, t: Table, now: nat)
    requires GoodEntries(recent, t, now) && GoodReading(r, t, now)
    ensures GoodEntries(recent[r.place := Filling(r)], t, now)
  {
    FillingIsGood(r, t, now);
  }

  lemma RefillKeepsInv(w: World, reader: nat, now: nat)
    requires Inv(w, now) && reader in w.readers
    ensures Inv(Step(w, Refill(reader), now).value, now)
  {
    RefillKeepsEntries(w.recent, w.readers[reader], w.table, now);
  }

  lemma SendIsPushThenDrop(w: World, place: Place, row: Row, now: nat)
    ensures
      Step(w, Send(place, row), now)
      == Some(Step(w, Push(place, row), now).value.(recent := Step(w, Push(place, row), now).value.recent - {place}))
  {
    assert Outdated(w.recent, place) - {place} == w.recent - {place};
  }

  lemma StepKeepsInv(w: World, e: Event, now: nat)
    requires Inv(w, now) && Step(w, e, now).Some?
    ensures Inv(Step(w, e, now).value, now)
  {
    match e
    case Send(place, row) =>
      WriteKeepsInv(w, place, row, now);
      SendIsPushThenDrop(w, place, row, now);
      DropKeepsInv(Step(w, Push(place, row), now).value, place, now);
    case Push(place, row) => WriteKeepsInv(w, place, row, now);
    case Expire(place) => DropKeepsInv(w, place, now);
    case TableRead(reader, place, limit) => TableReadKeepsInv(w, reader, place, limit, now);
    case Refill(reader) => RefillKeepsInv(w, reader, now);
  }

  lemma {:induction false} RunKeepsInv(t: Table, events: seq<Event>, now: nat)
    requires WellFiled(t) && Run(t, events, now).Some?
    ensures Inv(Run(t, events, now).value, now)
  {
    if events != [] {
      var n := |events| - 1;
      RunKeepsInv(t, events[..n], now);
      StepKeepsInv(Run(t, events[..n], now).value, events[n], now);
    }
  }

  // ---- Main results ----

  predicate Exact(w: World, place: Place, limit: nat, now: nat) {
    Shown(Reads(w, place, limit, now)) == Shown(Expected(w.table, place, limit, now))
  }

  lemma ShownTake(rows: seq<Row>, n: nat)
    ensures Shown(Take(rows, n)) == Take(Shown(rows), n)
  {
  }

  lemma TakeTwice<T>(s: seq<T>, m: nat, n: nat)
    requires n <= |Take(s, m)|
    ensures Take(Take(s, m), n) == Take(s, n) && n <= |s|
  {
  }

  lemma ServedRows(rows: seq<Row>, seen: Table, t: Table, place: Place, limit: nat, now: nat, behind: bool)
    requires ReadFrom(rows, seen, t, place, now, behind) && limit <= |rows|
    ensures Shown(Take(rows, limit)) == Shown(Expected(seen, place, limit, now))
    ensures limit <= |Full(seen, place, now)|
  {
    var m: nat :| Shown(rows) == Shown(Expected(seen, place, m, now));
    var full := Full(seen, place, now);
    assert |rows| == |Take(full, m)|;
    TakeTwice(full, m, limit);
    ShownTake(rows, limit);
    ShownTake(Take(full, m), limit);
  }

  /** After any run, a read shows the first `limit` messages of the table exactly
      when the table answers it, or every row that changed since the entry's rows
      were read has at least `limit` rows ahead of it. */
  lemma ReadIsExactIff(t: Table, events: seq<Event>, place: Place, limit: nat, now: nat)
    requires WellFiled(t) && Run(t, events, now).Some?
    ensures
      var w := Run(t, events, now).value;
      Exact(w, place, limit, now)
      <==> !Served(EntryOf(w, place), limit)
           || forall k | Changed(w.recent[place].seen, w.table, place, now, k) ::
                |Ahead(w.table, place, now, k)| >= limit
  {
    var w := Run(t, events, now).value;
    RunKeepsInv(t, events, now);
    TableReadIsExact(w.table, place, limit, now);
    if Served(EntryOf(w, place), limit) {
      var x := w.recent[place];
      ServedRows(x.rows, x.seen, w.table, place, limit, now, x.stale);
      FirstRowsAlikeIff(x.seen, w.table, place, now, limit);
    }
  }

  /** In particular no write to the channel since the entry's rows were read, not
      even between that read and the refill. */
  lemma ReadIsExact(t: Table, events: seq<Event>, place: Place, limit: nat, now: nat)
    requires WellFiled(t) && Run(t, events, now).Some?
    requires
      var w := Run(t, events, now).value;
      place in w.recent ==> !w.recent[place].stale
    ensures Exact(Run(t, events, now).value, place, limit, now)
  {
    RunKeepsInv(t, events, now);
    ReadIsExactIff(t, events, place, limit, now);
    var w := Run(t, events, now).value;
    if place in w.recent {
      AgreeUnchanged(w.recent[place].seen, w.table, place, now);
    }
  }

  lemma AgreeUnchanged(t: Table, u: Table, place: Place, now: nat)
    requires Agree(t, u, place)
    ensures forall k :: !Changed(t, u, place, now, k)
  {
  }

  /** No sync push, and no refill by a reader that a send has overtaken. */
  predicate Undisturbed(t: Table, events: seq<Event>, now: nat) {
    forall n | 0 <= n < |events| ::
      && !events[n].Push?
      && (events[n].Refill? ==>
            var w := Run(t, events[..n], now);
            w.Some? && events[n].reader in w.value.readers && !w.value.readers[events[n].reader].late)
  }

  lemma {:induction false} NeverStale(t: Table, events: seq<Event>, now: nat)
    requires Run(t, events, now).Some? && Undisturbed(t, events, now)
    ensures forall p | p in Run(t, events, now).value.recent :: !Run(t, events, now).value.recent[p].stale
  {
    if events != [] {
      var n := |events| - 1;
      assert Undisturbed(t, events[..n], now) by {
        assert forall i | 0 <= i < n :: events[..n][..i] == events[..i];
      }
      NeverStale(t, events[..n], now);
    }
  }

  /** In every such run of sends, reads in two steps and expiries, every read is
      exact, served from the cache or not. */
  lemma SendsAndReadsAgree(t: Table, events: seq<Event>, place: Place, limit: nat, now: nat)
    requires WellFiled(t) && Run(t, events, now).Some? && Undisturbed(t, events, now)
    ensures Exact(Run(t, events, now).value, place, limit, now)
  {
    NeverStale(t, events, now);
    ReadIsExact(t, events, place, limit, now);
  }

  // ---- One write ----

  /** The write of one row leaves the first `limit` rows as they look exactly when
      it goes to another bucket, repeats the row, or comes below them. */
  lemma OneWriteIff(t: Table, place: Place, row: Row, limit: nat, now: nat)
    requires WellFiled(t)
    ensures
      var k := Key(place, BucketOf(row.createdAt), row.id);
      var u := Stored(t, place, row);
      (forall l | Changed(t, u, place, now, l) :: |Ahead(u, place, now, l)| >= limit)
      <==> || !Recent(k.bucket, now)
           || (k in t && ShownRow(t[k]) == ShownRow(row))
           || |Ahead(u, place, now, k)| >= limit
  {
    var k := Key(place, BucketOf(row.createdAt), row.id);
    var u := Stored(t, place, row);
    assert forall l | Changed(t, u, place, now, l) :: l == k;
    assert Changed(t, u, place, now, k) <==> Recent(k.bucket, now) && !(k in t && ShownRow(t[k]) == ShownRow(row));
  }

  function PushAfterRead(place: Place, m: nat, row: Row): seq<Event> {
    [TableRead(0, place, m), Refill(0), Push(place, row)]
  }

  function SendInBetween(place: Place, m: nat, row: Row): seq<Event> {
    [TableRead(0, place, m), Send(place, row), Refill(0)]
  }

  lemma RunOneMore(t: Table, events: seq<Event>, e: Event, now: nat)
    requires Run(t, events, now).Some?
    ensures Run(t, events + [e], now) == Step(Run(t, events, now).value, e, now)
  {
    assert (events + [e])[..|events|] == events;
  }

  lemma RunThree(t: Table, a: Event, b: Event, c: Event, now: nat)
    requires Step(World(t, map[], map[]), a, now).Some?
    requires Step(Step(World(t, map[], map[]), a, now).value, b, now).Some?
    ensures
      Run(t, [a, b, c], now) == Step(Step(Step(World(t, map[], map[]), a, now).value, b, now).value, c, now)
  {
    assert [] + [a] == [a] && [a] + [b] == [a, b] && [a, b] + [c] == [a, b, c];
    RunOneMore(t, [], a, now);
    RunOneMore(t, [a], b, now);
    RunOneMore(t, [a, b], c, now);
  }

  /** An entry of `n` rows read from `t`, over a table that has the row besides. */
  predicate HoldsOlder(w: Option<World>, t: Table, place: Place, row: Row, n: nat) {
    && w.Some? && w.value.table == Stored(t, place, row)
    && place in w.value.recent && w.value.recent[place].seen == t
    && |w.value.recent[place].rows| == n
  }

  lemma AfterTableRead(t: Table, r: Reading, row: Row, now: nat)
    requires r.rows != [] && r.seen == t
    ensures
      var w := World(t, map[], map[0 := r]);
      var refilled, sent := Step(w, Refill(0), now), Step(w, Send(r.place, row), now);
      && refilled.Some? && HoldsOlder(Step(refilled.value, Push(r.place, row), now), t, r.place, row, |r.rows|)
      && sent.Some? && HoldsOlder(Step(sent.value, Refill(0), now), t, r.place, row, |r.rows|)
  {
  }

  lemma FirstRead(t: Table, place: Place, m: nat, now: nat)
    requires 0 < m && Full(t, place, now) != []
    ensures
      var r := Reading(place, FromTable(t, place, m, now), t, false);
      && r.rows != [] && |r.rows| == Min(m, |Full(t, place, now)|)
      && Step(World(t, map[], map[]), TableRead(0, place, m), now) == Some(World(t, map[], map[0 := r]))
  {
    TableReadIsExact(t, place, m, now);
  }

  lemma EndsOlder(t: Table, place: Place, m: nat, row: Row, now: nat, send: bool)
    requires 0 < m && Full(t, place, now) != []
    ensures
      var events := if send then SendInBetween(place, m, row) else PushAfterRead(place, m, row);
      HoldsOlder(Run(t, events, now), t, place, row, Min(m, |Full(t, place, now)|))
  {
    FirstRead(t, place, m, now);
    AfterTableRead(t, Reading(place, FromTable(t, place, m, now), t, false), row, now);
    if send {
      RunThree(t, TableRead(0, place, m), Send(place, row), Refill(0), now);
    } else {
      RunThree(t, TableRead(0, place, m), Refill(0), Push(place, row), now);
    }
  }

  /** A push after a read, or a send between a reader's two steps, hides its row
      from a read that the entry answers exactly when the row is new or changed,
      of the current or previous bucket, and among the first `limit`. */
  lemma WriteIsHiddenIff(t: Table, place: Place, m: nat, row: Row, limit: nat, now: nat, send: bool)
    requires WellFiled(t) && 0 < limit <= m && limit <= |Full(t, place, now)|
    ensures
      var events := if send then SendInBetween(place, m, row) else PushAfterRead(place, m, row);
      var w := Run(t, events, now);
      var k := Key(place, BucketOf(row.createdAt), row.id);
      && w.Some?
      && (!Exact(w.value, place, limit, now)
          <==> && Recent(k.bucket, now)
               && (k in t ==> ShownRow(t[k]) != ShownRow(row))
               && |Ahead(Stored(t, place, row), place, now, k)| < limit)
  {
    var events := if send then SendInBetween(place, m, row) else PushAfterRead(place, m, row);
    EndsOlder(t, place, m, row, now, send);
    ReadIsExactIff(t, events, place, limit, now);
    OneWriteIff(t, place, row, limit, now);
  }

  function Note(id: nat): Row {
    Row(id, [], [], 0, None, 0, 0)
  }

  /** Two such runs over a table of one row: the second row stays unseen. */
  lemma WriteCanBeHidden(place: Place, send: bool)
    ensures
      var events := if send then SendInBetween(place, 1, Note(2)) else PushAfterRead(place, 1, Note(2));
      var w := Run(map[Key(place, 0, 1) := Note(1)], events, 0);
      w.Some? && !Exact(w.value, place, 1, 0)
  {
    OneNote(place);
    WriteIsHiddenIff(map[Key(place, 0, 1) := Note(1)], place, 1, Note(2), 1, 0, send);
  }

  lemma OneNote(place: Place)
    ensures
      var t := map[Key(place, 0, 1) := Note(1)];
      && BucketOf(0) == 0 && WellFiled(t) && |Full(t, place, 0)| >= 1
      && Ahead(Stored(t, place, Note(2)), place, 0, Key(place, 0, 2)) == {}
  {
    var t := map[Key(place, 0, 1) := Note(1)];
    RowPosition(t, place, 0, Key(place, 0, 1));
  }
}
