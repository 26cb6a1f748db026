/** Delta sync end to end for one device and one channel: the reply to a sync
    request in `apps/gateway/lib/gateway/binary_socket.ex`, asked for by the
    pull loop of `sdks/mercury-sdk-js/src/sync.ts`, over runs with writes. The
    device's copy is meant before eviction. */
module PullRuns {
  import opened Base
  import opened ClientStore
  import opened DeltaFetch
  import opened MessageTable
  import opened SyncEngine
  import Clock

  const PAGE: nat := 100

  /** The clock readings behind one reply: when rows are fetched, when the local
      stamp is made, and inside the clock's merge. */
  datatype Readings = Readings(fetch: U64, stamp: U64, merge: U64)

  function DeltaOf(r: Row): Delta {
    MessageAppend(r.id, r.sender, r.content, 0, r.createdAt)
  }

  function DeltasOf(rows: seq<Row>): seq<Delta> {
    seq(|rows|, i requires 0 <= i < |rows| => DeltaOf(rows[i]))
  }

  /** The merged server clock: the largest of the readings and the request. */
  function ServerHlc(since: U64, c: Readings): (wall: U64)
    ensures wall == Max(Max(c.merge, c.stamp), since)
  {
    Clock.Merged(Clock.Stamp(c.stamp, 0, 0), Clock.Stamp(since, 0, 0), c.merge).wall
  }

  /** The answer to a request; `None`: the fetch failed. */
  function Serve(t: Table, place: Place, since: U64, c: Readings): Option<Reply> {
    match GetDeltas(t, place, since, PAGE, c.fetch)
    case None => None
    case Some(d) => Some(Reply(DeltasOf(d.rows), ServerHlc(since, c), d.hasMore))
  }

  // ---- Storing a page ----

  function StoredOf(r: Row): Stored {
    Stored(r.sender, r.content, 0, r.createdAt)
  }

  predicate Holds(m: Messages, channel: string, r: Row) {
    var k := MessageKey(channel, r.id);
    k in m && m[k] == StoredOf(r)
  }

  lemma {:induction false} PageIsHeld(m: Messages, channel: string, rows: seq<Row>, r: Row)
    requires forall x | x in rows && x.id == r.id :: x == r
    requires r in rows || Holds(m, channel, r)
    ensures Holds(StoredAll(m, channel, DeltasOf(rows)), channel, r)
  {
    if rows != [] {
      var n := |rows| - 1;
      assert DeltasOf(rows)[..n] == DeltasOf(rows[..n]);
      assert rows == rows[..n] + [rows[n]];
      if rows[n] != r {
        PageIsHeld(m, channel, rows[..n], r);
      }
    }
  }

  // ---- Runs ----

  datatype Phase = Idle | Pulling(wall: U64)

  /** `floor`: the largest wall that any reply has carried. As history, `carried`:
      the keys whose row, as it stands, some page has carried; `skipped`: those
      whose row some page left out although its wall passed it. */
  datatype World = World(
    table: Table,
    stored: Messages,
    cursor: U64,
    floor: U64,
    phase: Phase,
    carried: set<Key>,
    skipped: set<Key>)

  /** `Fail`: a request is rejected, or the client stops; pulling starts anew. */
  datatype Event = Write(place: Place, bucket: nat, row: Row) | Request(c: Readings) | Fail

  function Wall(w: World): U64 {
    if w.phase.Pulling? then w.phase.wall else w.cursor
  }

  /** The keys of the rows on a page. */
  function OnPage(t: Table, place: Place, rows: seq<Row>): set<Key> {
    set k | k in t && k.place == place && t[k] in rows
  }

  function PassedBy(t: Table, place: Place, since: nat, wall: nat): set<Key> {
    set k | k in t && k.place == place && since < t[k].createdAt <= wall
  }

  /** The row is new, or differs from the one it replaces. */
  predicate Alters(t: Table, k: Key, row: Row) {
    k !in t || DeltaOf(t[k]) != DeltaOf(row)
  }

  function Step(w: World, e: Event, place: Place, channel: string): World {
    match e
    case Write(p, bucket, row) =>
      var k := Key(p, bucket, row.id);
      var gone := if Alters(w.table, k, row) then {k} else {};
      w.(table := MessageTable.Write(w.table, p, bucket, row), carried := w.carried - gone, skipped := w.skipped - gone)
    case Fail => w.(phase := Idle)
    case Request(c) =>
      match GetDeltas(w.table, place, Wall(w), PAGE, c.fetch)
      case None => w.(phase := Idle)
      case Some(d) =>
        var wall := ServerHlc(Wall(w), c);
        var page := OnPage(w.table, place, d.rows);
        World(w.table,
              StoredAll(w.stored, channel, DeltasOf(d.rows)),
              if d.hasMore || wall <= w.cursor then w.cursor else wall,
              Max(w.floor, wall),
              if d.hasMore then Pulling(wall) else Idle,
              w.carried + page,
              w.skipped + (PassedBy(w.table, place, Wall(w), wall) - page))
  }

  function Run(t: Table, events: seq<Event>, place: Place, channel: string): World {
    if events == [] then World(t, map[], 0, 0, Idle, {}, {})
    else Step(Run(t, events[..|events| - 1], place, channel), events[|events| - 1], place, channel)
  }

  // ---- The steps are those of the pull loop ----

  /** The replies to one pull with these readings, up to the last it asks for. */
  function Replies(t: Table, place: Place, wall: U64, cs: seq<Readings>): seq<Reply>
    decreases |cs|
  {
    if cs == [] then []
    else
      match Serve(t, place, wall, cs[0])
      case None => []
      case Some(r) => [r] + if r.hasMore then Replies(t, place, ServerHlc(wall, cs[0]), cs[1..]) else []
  }

  function Requests(w: World, cs: seq<Readings>, place: Place, channel: string): World
    decreases |cs|
  {
    if cs == [] then w else Requests(Step(w, Request(cs[0]), place, channel), cs[1..], place, channel)
  }

  /** Consecutive requests of a run store what the pull loop stores, and end
      where it ends: with the cursor moved, or about to ask for more. */
  lemma {:induction false} RequestsArePull(w: World, cs: seq<Readings>, place: Place, channel: string)
    requires |Replies(w.table, place, Wall(w), cs)| == |cs| && cs != []
    ensures
      var w' := Requests(w, cs, place, channel);
      var p := Pull(w.stored, channel, Wall(w), Replies(w.table, place, Wall(w), cs));
      && w'.stored == p.messages && w'.table == w.table
      && (if p.finished then w'.phase == Idle && w'.cursor == Max(w.cursor, p.wall)
          else w'.phase.Pulling? && w'.phase.wall == p.wall && w'.cursor == w.cursor)
    decreases |cs|
  {
    var wall := Wall(w);
    var w1 := Step(w, Request(cs[0]), place, channel);
    var r := Serve(w.table, place, wall, cs[0]).value;
    var more := Replies(w.table, place, ServerHlc(wall, cs[0]), cs[1..]);
    if !r.hasMore || |cs| == 1 {
      assert Replies(w.table, place, wall, cs) == [r];
      assert Requests(w1, cs[1..], place, channel) == w1;
      PullOfOne(w.stored, channel, wall, r);
    } else {
      assert Replies(w.table, place, wall, cs) == [r] + more;
      RequestsArePull(w1, cs[1..], place, channel);
      PullOfMore(w.stored, channel, wall, r, more);
    }
  }

  lemma PullOfOne(m: Messages, channel: string, wall: nat, r: Reply)
    ensures
      var p := Pull(m, channel, wall, [r]);
      p.messages == StoredAll(m, channel, r.deltas) && p.wall == r.serverHlc && p.finished == !r.hasMore
  {
    assert [r][1..] == [];
    assert Pull(StoredAll(m, channel, r.deltas), channel, r.serverHlc, []).wall == r.serverHlc;
  }

  lemma PullOfMore(m: Messages, channel: string, wall: nat, r: Reply, more: seq<Reply>)
    requires r.hasMore
    ensures
      var p := Pull(m, channel, wall, [r] + more);
      var q := Pull(StoredAll(m, channel, r.deltas), channel, r.serverHlc, more);
      p.messages == q.messages && p.wall == q.wall && p.finished == q.finished
  {
    assert ([r] + more)[1..] == more;
  }

  // ---- The cursor ----

  lemma {:induction false} PullingIsAhead(t: Table, events: seq<Event>, place: Place, channel: string)
    ensures Run(t, events, place, channel).cursor <= Wall(Run(t, events, place, channel))
  {
    if events != [] {
      PullingIsAhead(t, events[..|events| - 1], place, channel);
    }
  }

  /** The cursor never decreases, and no request asks for less than it. */
  lemma {:induction false} CursorNeverDecreases(t: Table, events: seq<Event>, n: nat, place: Place, channel: string)
    requires n <= |events|
    ensures
      Run(t, events[..n], place, channel).cursor
      <= Run(t, events, place, channel).cursor <= Wall(Run(t, events, place, channel))
    decreases |events|
  {
    PullingIsAhead(t, events, place, channel);
    if n < |events| {
      CursorNeverDecreases(t, events[..|events| - 1], n, place, channel);
      assert events[..|events| - 1][..n] == events[..n];
    } else {
      assert events[..n] == events;
    }
  }

  lemma MoreIffReached(t: Table, place: Place, since: U64, now: U64)
    requires Filed(t, place, now) && Bucketed(since) && Bucketed(now)
    ensures GetDeltas(t, place, since, PAGE, now).Some?
    ensures GetDeltas(t, place, since, PAGE, now).value.hasMore <==> |Reached(t, place, since, PAGE)| > PAGE
  {
    PageIsSound(t, place, since, PAGE, now);
    FetchedIsReached(t, place, since, PAGE, now);
  }

  lemma AnsweredRequest(w: World, c: Readings, place: Place, channel: string, d: Deltas)
    requires GetDeltas(w.table, place, Wall(w), PAGE, c.fetch) == Some(d)
    ensures
      var w', wall := Step(w, Request(c), place, channel), ServerHlc(Wall(w), c);
      && w'.table == w.table && w'.floor == Max(w.floor, wall)
      && w'.phase == (if d.hasMore then Pulling(wall) else Idle)
      && w'.cursor == if d.hasMore then w.cursor else Max(w.cursor, wall)
  {
  }

  /** A request is answered exactly when both times have a bucket. It then moves the
      cursor to the server's wall, or leaves the client pulling from there, the
      latter exactly when more than a page of newer rows is reached; otherwise
      pulling is given up and nothing else changes. */
  lemma RequestMovesOn(w: World, c: Readings, place: Place, channel: string)
    requires Filed(w.table, place, c.fetch)
    ensures
      var w', wall := Step(w, Request(c), place, channel), ServerHlc(Wall(w), c);
      if Bucketed(Wall(w)) && Bucketed(c.fetch) then
        && w'.table == w.table && w'.floor == Max(w.floor, wall)
        && (w'.phase == Pulling(wall) <==> |Reached(w.table, place, Wall(w), PAGE)| > PAGE)
        && (w'.phase == Pulling(wall) ==> w'.cursor == w.cursor)
        && (w'.phase != Pulling(wall) ==> w'.phase == Idle && w'.cursor == Max(w.cursor, wall))
      else w' == w.(phase := Idle)
  {
    if Bucketed(Wall(w)) && Bucketed(c.fetch) {
      MoreIffReached(w.table, place, Wall(w), c.fetch);
      AnsweredRequest(w, c, place, channel, GetDeltas(w.table, place, Wall(w), PAGE, c.fetch).value);
    }
  }

  // ---- What the copy has and what it misses ----

  ghost predicate DistinctIds(t: Table, place: Place) {
    forall k, l | InPlace(t, place, k) && InPlace(t, place, l) && k.id == l.id :: k == l
  }

  /** A write comes after the walls already replied, under its own bucket and an
      id used nowhere else; at a request no row is past the current bucket. */
  ghost predicate Possible(w: World, e: Event, place: Place) {
    match e
    case Write(p, bucket, row) =>
      p == place ==>
        && row.createdAt > w.floor && bucket == BucketOf(row.createdAt)
        && forall k | InPlace(w.table, place, k) && k.id == row.id :: k.bucket == bucket
    case Request(c) => Filed(w.table, place, c.fetch)
    case Fail => true
  }

  ghost predicate AllPossible(t: Table, events: seq<Event>, place: Place, channel: string) {
    forall n | 0 <= n < |events| :: Possible(Run(t, events[..n], place, channel), events[n], place)
  }

  lemma AllPossibleBefore(t: Table, events: seq<Event>, place: Place, channel: string)
    requires AllPossible(t, events, place, channel) && events != []
    ensures
      var n := |events| - 1;
      AllPossible(t, events[..n], place, channel) && Possible(Run(t, events[..n], place, channel), events[n], place)
  {
    var n := |events| - 1;
    forall i | 0 <= i < n ensures Possible(Run(t, events[..n][..i], place, channel), events[..n][i], place) {
      assert events[..n][..i] == events[..i];
    }
  }

  /** What pages carried is in the copy, and no wall passed a row that no page
      carried or left out. */
  ghost predicate Tracks(w: World, place: Place, channel: string) {
    && WellKeyed(w.table) && DistinctIds(w.table, place)
    && w.cursor <= Wall(w) <= w.floor
    && (forall k | InPlace(w.table, place, k) && k in w.carried :: Holds(w.stored, channel, w.table[k]))
    && (forall k | InPlace(w.table, place, k) && w.table[k].createdAt <= Wall(w) :: k in w.carried || k in w.skipped)
  }

  lemma WriteKeepsDistinct(t: Table, p: Place, bucket: nat, row: Row, place: Place)
    requires DistinctIds(t, place)
    requires p == place ==> forall k | InPlace(t, place, k) && k.id == row.id :: k.bucket == bucket
    ensures DistinctIds(MessageTable.Write(t, p, bucket, row), place)
  {
    var t', added := MessageTable.Write(t, p, bucket, row), Key(p, bucket, row.id);
    forall k, l | InPlace(t', place, k) && InPlace(t', place, l) && k.id == l.id ensures k == l {
      assert k == added || InPlace(t, place, k);
      assert l == added || InPlace(t, place, l);
    }
  }

  lemma WriteTracks(w: World, p: Place, bucket: nat, row: Row, place: Place, channel: string)
    requires Tracks(w, place, channel) && Possible(w, Write(p, bucket, row), place)
    ensures Tracks(Step(w, Write(p, bucket, row), place, channel), place, channel)
  {
    var w' := Step(w, Write(p, bucket, row), place, channel);
    WriteKeepsDistinct(w.table, p, bucket, row, place);
    forall k | InPlace(w'.table, place, k) && k in w'.carried ensures Holds(w'.stored, channel, w'.table[k]) {
      assert InPlace(w.table, place, k);
    }
    forall k | InPlace(w'.table, place, k) && w'.table[k].createdAt <= Wall(w')
      ensures k in w'.carried || k in w'.skipped
    {
      assert InPlace(w.table, place, k);
    }
  }

  /** A row with an id of the page is on the page. */
  lemma SameId(t: Table, place: Place, since: nat, rows: seq<Row>, k: Key, x: Row)
    requires WellKeyed(t) && DistinctIds(t, place) && InPlace(t, place, k)
    requires ToSet(rows) <= Newer(t, place, since) && x in rows && x.id == t[k].id
    ensures x == t[k]
  {
    assert x in ToSet(rows);
    var l :| l in t && l.place == place && t[l].createdAt > since && t[l] == x;
    assert InPlace(t, place, l);
  }

  lemma {:induction false} PageLeavesOthers(m: Messages, channel: string, rows: seq<Row>, id: nat)
    requires forall x | x in rows :: x.id != id
    ensures
      var after := StoredAll(m, channel, DeltasOf(rows));
      var k := MessageKey(channel, id);
      (k in after <==> k in m) && (k in m ==> after[k] == m[k])
  {
    if rows != [] {
      var n := |rows| - 1;
      assert DeltasOf(rows)[..n] == DeltasOf(rows[..n]);
      assert rows[n] in rows;
      PageLeavesOthers(m, channel, rows[..n], id);
    }
  }

  /** A page stores its own rows and leaves the copies of others. */
  lemma PageOnCopy(t: Table, place: Place, m: Messages, channel: string, since: nat, rows: seq<Row>, k: Key)
    requires WellKeyed(t) && DistinctIds(t, place) && InPlace(t, place, k)
    requires ToSet(rows) <= Newer(t, place, since)
    ensures
      var after := StoredAll(m, channel, DeltasOf(rows));
      var copy := MessageKey(channel, k.id);
      if k in OnPage(t, place, rows) then Holds(after, channel, t[k])
      else (copy in after <==> copy in m) && (copy in m ==> after[copy] == m[copy])
  {
    forall x | x in rows && x.id == k.id ensures x == t[k] {
      SameId(t, place, since, rows, k, x);
    }
    if t[k] in rows {
      PageIsHeld(m, channel, rows, t[k]);
    } else {
      PageLeavesOthers(m, channel, rows, k.id);
    }
  }

  lemma RequestTracks(w: World, c: Readings, place: Place, channel: string)
    requires Tracks(w, place, channel) && Possible(w, Request(c), place)
    requires GetDeltas(w.table, place, Wall(w), PAGE, c.fetch).Some?
    ensures Tracks(Step(w, Request(c), place, channel), place, channel)
  {
    var w' := Step(w, Request(c), place, channel);
    AnsweredRequest(w, c, place, channel, GetDeltas(w.table, place, Wall(w), PAGE, c.fetch).value);
    forall k | InPlace(w.table, place, k) && k in w'.carried ensures Holds(w'.stored, channel, w.table[k]) {
      CarriedIsHeld(w, c, place, channel, k);
    }
    forall k | InPlace(w.table, place, k) && w.table[k].createdAt <= Wall(w')
      ensures k in w'.carried || k in w'.skipped
    {
      PassedOrBefore(w, c, place, channel, k);
    }
  }

  lemma CarriedIsHeld(w: World, c: Readings, place: Place, channel: string, k: Key)
    requires Tracks(w, place, channel) && Filed(w.table, place, c.fetch) && InPlace(w.table, place, k)
    requires GetDeltas(w.table, place, Wall(w), PAGE, c.fetch).Some?
    requires k in Step(w, Request(c), place, channel).carried
    ensures Holds(Step(w, Request(c), place, channel).stored, channel, w.table[k])
  {
    var rows := GetDeltas(w.table, place, Wall(w), PAGE, c.fetch).value.rows;
    PageIsSound(w.table, place, Wall(w), PAGE, c.fetch);
    PageOnCopy(w.table, place, w.stored, channel, Wall(w), rows, k);
  }

  lemma PassedOrBefore(w: World, c: Readings, place: Place, channel: string, k: Key)
    requires Tracks(w, place, channel) && GetDeltas(w.table, place, Wall(w), PAGE, c.fetch).Some?
    requires
      var w' := Step(w, Request(c), place, channel);
      InPlace(w.table, place, k) && w.table[k].createdAt <= Wall(w')
    ensures
      var w' := Step(w, Request(c), place, channel);
      k in w'.carried || k in w'.skipped
  {
    var wall := ServerHlc(Wall(w), c);
    if w.table[k].createdAt > Wall(w) {
      assert k in PassedBy(w.table, place, Wall(w), wall);
    }
  }

  lemma StepTracks(w: World, e: Event, place: Place, channel: string)
    requires Tracks(w, place, channel) && Possible(w, e, place)
    ensures Tracks(Step(w, e, place, channel), place, channel)
  {
    match e
    case Write(p, bucket, row) => WriteTracks(w, p, bucket, row, place, channel);
    case Request(c) =>
      if GetDeltas(w.table, place, Wall(w), PAGE, c.fetch).Some? {
        RequestTracks(w, c, place, channel);
      }
    case Fail =>
  }

  lemma {:induction false} RunTracks(t: Table, events: seq<Event>, place: Place, channel: string)
    requires WellKeyed(t) && DistinctIds(t, place)
    requires forall k | InPlace(t, place, k) :: t[k].createdAt > 0
    requires AllPossible(t, events, place, channel)
    ensures Tracks(Run(t, events, place, channel), place, channel)
  {
    if events != [] {
      var n := |events| - 1;
      AllPossibleBefore(t, events, place, channel);
      RunTracks(t, events[..n], place, channel);
      StepTracks(Run(t, events[..n], place, channel), events[n], place, channel);
    }
  }

  // ---- Exactly what is missing ----

  /** A rewrite repeats its row, or is dated later. */
  ghost predicate Forward(w: World, e: Event, place: Place) {
    e.Write? && e.place == place ==>
      var k := Key(place, e.bucket, e.row.id);
      k in w.table && Alters(w.table, k, e.row) ==> e.row.createdAt > w.table[k].createdAt
  }

  ghost predicate AllForward(t: Table, events: seq<Event>, place: Place, channel: string) {
    forall n | 0 <= n < |events| :: Forward(Run(t, events[..n], place, channel), events[n], place)
  }

  /** A copy is of an id in the table, of no later time than its row, and alike
      only if a page carried the row as it stands. */
  ghost predicate CopyOf(t: Table, m: Messages, channel: string, carried: set<Key>, k: Key)
    requires k in t
  {
    var copy := MessageKey(channel, k.id);
    copy in m ==>
      && m[copy].timestamp <= t[k].createdAt
      && (k !in carried ==> m[copy] != StoredOf(t[k]))
  }

  ghost predicate Known(t: Table, place: Place, m: Messages, channel: string) {
    forall id: nat | MessageKey(channel, id) in m :: exists k :: InPlace(t, place, k) && k.id == id
  }

  ghost predicate Mirrors(w: World, place: Place, channel: string) {
    && Known(w.table, place, w.stored, channel)
    && forall k | InPlace(w.table, place, k) :: CopyOf(w.table, w.stored, channel, w.carried, k)
  }

  lemma WriteKeepsKnown(t: Table, p: Place, bucket: nat, row: Row, place: Place, m: Messages, channel: string)
    requires Known(t, place, m, channel)
    ensures Known(MessageTable.Write(t, p, bucket, row), place, m, channel)
  {
    var t' := MessageTable.Write(t, p, bucket, row);
    forall id: nat | MessageKey(channel, id) in m ensures exists k :: InPlace(t', place, k) && k.id == id {
      var k :| InPlace(t, place, k) && k.id == id;
      assert InPlace(t', place, k);
    }
  }

  lemma WriteMirrors(w: World, p: Place, bucket: nat, row: Row, place: Place, channel: string)
    requires Tracks(w, place, channel) && Mirrors(w, place, channel)
    requires Possible(w, Write(p, bucket, row), place) && Forward(w, Write(p, bucket, row), place)
    ensures Mirrors(Step(w, Write(p, bucket, row), place, channel), place, channel)
  {
    var w' := Step(w, Write(p, bucket, row), place, channel);
    WriteKeepsKnown(w.table, p, bucket, row, place, w.stored, channel);
    forall k | InPlace(w'.table, place, k) ensures CopyOf(w'.table, w'.stored, channel, w'.carried, k) {
      if k == Key(p, bucket, row.id) {
        WrittenCopy(w, bucket, row, place, channel);
      } else {
        assert InPlace(w.table, place, k);
      }
    }
  }

  lemma WrittenCopy(w: World, bucket: nat, row: Row, place: Place, channel: string)
    requires Mirrors(w, place, channel)
    requires Possible(w, Write(place, bucket, row), place) && Forward(w, Write(place, bucket, row), place)
    ensures
      var w' := Step(w, Write(place, bucket, row), place, channel);
      CopyOf(w'.table, w'.stored, channel, w'.carried, Key(place, bucket, row.id))
  {
    var k := Key(place, bucket, row.id);
    if MessageKey(channel, row.id) in w.stored {
      var l :| InPlace(w.table, place, l) && l.id == row.id;
      assert l == k;
      assert CopyOf(w.table, w.stored, channel, w.carried, k);
    }
  }

  lemma PageKeepsKnown(t: Table, place: Place, m: Messages, channel: string, since: nat, rows: seq<Row>)
    requires WellKeyed(t) && Known(t, place, m, channel) && ToSet(rows) <= Newer(t, place, since)
    ensures Known(t, place, StoredAll(m, channel, DeltasOf(rows)), channel)
  {
    var after := StoredAll(m, channel, DeltasOf(rows));
    forall id: nat | MessageKey(channel, id) in after ensures exists k :: InPlace(t, place, k) && k.id == id {
      if x :| x in rows && x.id == id {
        assert x in ToSet(rows);
        var l :| l in t && l.place == place && t[l].createdAt > since && t[l] == x;
        assert InPlace(t, place, l);
      } else {
        PageLeavesOthers(m, channel, rows, id);
      }
    }
  }

  lemma RequestMirrors(w: World, c: Readings, place: Place, channel: string)
    requires Tracks(w, place, channel) && Mirrors(w, place, channel) && Possible(w, Request(c), place)
    requires GetDeltas(w.table, place, Wall(w), PAGE, c.fetch).Some?
    ensures Mirrors(Step(w, Request(c), place, channel), place, channel)
  {
    var w' := Step(w, Request(c), place, channel);
    var rows := GetDeltas(w.table, place, Wall(w), PAGE, c.fetch).value.rows;
    PageIsSound(w.table, place, Wall(w), PAGE, c.fetch);
    PageKeepsKnown(w.table, place, w.stored, channel, Wall(w), rows);
    forall k | InPlace(w.table, place, k) ensures CopyOf(w.table, w'.stored, channel, w'.carried, k) {
      PageOnCopy(w.table, place, w.stored, channel, Wall(w), rows, k);
      assert CopyOf(w.table, w.stored, channel, w.carried, k);
    }
  }

  lemma StepMirrors(w: World, e: Event, place: Place, channel: string)
    requires Tracks(w, place, channel) && Mirrors(w, place, channel)
    requires Possible(w, e, place) && Forward(w, e, place)
    ensures Mirrors(Step(w, e, place, channel), place, channel)
  {
    match e
    case Write(p, bucket, row) => WriteMirrors(w, p, bucket, row, place, channel);
    case Request(c) =>
      if GetDeltas(w.table, place, Wall(w), PAGE, c.fetch).Some? {
        RequestMirrors(w, c, place, channel);
      }
    case Fail =>
  }

  lemma {:induction false} RunMirrors(t: Table, events: seq<Event>, place: Place, channel: string)
    requires WellKeyed(t) && DistinctIds(t, place)
    requires forall k | InPlace(t, place, k) :: t[k].createdAt > 0
    requires AllPossible(t, events, place, channel) && AllForward(t, events, place, channel)
    ensures Mirrors(Run(t, events, place, channel), place, channel)
  {
    if events != [] {
      var n := |events| - 1;
      AllPossibleBefore(t, events, place, channel);
      assert AllForward(t, events[..n], place, channel) by {
        forall i | 0 <= i < n ensures Forward(Run(t, events[..n][..i], place, channel), events[..n][i], place) {
          assert events[..n][..i] == events[..i];
        }
      }
      RunTracks(t, events[..n], place, channel);
      RunMirrors(t, events[..n], place, channel);
      StepMirrors(Run(t, events[..n], place, channel), events[n], place, channel);
    }
  }

  /** In every run with any number of newer rows, a row at or below the cursor is
      missing from the copy exactly if, since it was last altered, some page
      skipped it and none carried it. */
  lemma MissingIffSkipped(t: Table, events: seq<Event>, place: Place, channel: string, k: Key)
    requires WellKeyed(t) && DistinctIds(t, place)
    requires forall l | InPlace(t, place, l) :: t[l].createdAt > 0
    requires AllPossible(t, events, place, channel) && AllForward(t, events, place, channel)
    requires
      var w := Run(t, events, place, channel);
      InPlace(w.table, place, k) && w.table[k].createdAt <= w.cursor
    ensures
      var w := Run(t, events, place, channel);
      !Holds(w.stored, channel, w.table[k]) <==> k in w.skipped && k !in w.carried
  {
    var w := Run(t, events, place, channel);
    RunTracks(t, events, place, channel);
    RunMirrors(t, events, place, channel);
    assert CopyOf(w.table, w.stored, channel, w.carried, k);
  }

  // ---- Nothing is missing when pages suffice ----

  /** Besides, at a request ids follow time and at most 100 rows are newer than the
      wall asked for. */
  ghost predicate Admissible(w: World, e: Event, place: Place) {
    && Possible(w, e, place)
    && (e.Request? ==> IdsFollowTime(w.table, place) && |Newer(w.table, place, Wall(w))| <= PAGE)
  }

  ghost predicate AllAdmissible(t: Table, events: seq<Event>, place: Place, channel: string) {
    forall n | 0 <= n < |events| :: Admissible(Run(t, events[..n], place, channel), events[n], place)
  }

  ghost predicate UpToDate(t: Table, place: Place, m: Messages, channel: string, wall: nat) {
    forall k | InPlace(t, place, k) && t[k].createdAt <= wall :: Holds(m, channel, t[k])
  }

  /** A page that holds every newer row skips none. */
  lemma FullPageSkipsNone(t: Table, place: Place, since: nat, wall: nat, rows: seq<Row>)
    requires ToSet(rows) == Newer(t, place, since)
    ensures PassedBy(t, place, since, wall) <= OnPage(t, place, rows)
  {
    forall k | k in PassedBy(t, place, since, wall) ensures k in OnPage(t, place, rows) {
      assert t[k] in ToSet(rows);
    }
  }

  lemma NothingSkipped(w: World, e: Event, place: Place, channel: string)
    requires w.phase == Idle && w.skipped == {} && Admissible(w, e, place)
    ensures
      var w' := Step(w, e, place, channel);
      w'.phase == Idle && w'.skipped == {}
  {
    if e.Request? && GetDeltas(w.table, place, Wall(w), PAGE, e.c.fetch).Some? {
      var d := GetDeltas(w.table, place, Wall(w), PAGE, e.c.fetch).value;
      FetchRefinesScan(w.table, place, Wall(w), PAGE, e.c.fetch);
      FullPageSkipsNone(w.table, place, Wall(w), ServerHlc(Wall(w), e.c), d.rows);
    }
  }

  lemma AllAdmissibleBefore(t: Table, events: seq<Event>, place: Place, channel: string)
    requires AllAdmissible(t, events, place, channel) && events != []
    ensures
      var n := |events| - 1;
      AllAdmissible(t, events[..n], place, channel) && Admissible(Run(t, events[..n], place, channel), events[n], place)
  {
    var n := |events| - 1;
    forall i | 0 <= i < n ensures Admissible(Run(t, events[..n][..i], place, channel), events[..n][i], place) {
      assert events[..n][..i] == events[..i];
    }
  }

  lemma {:induction false} NeverSkips(t: Table, events: seq<Event>, place: Place, channel: string)
    requires AllAdmissible(t, events, place, channel)
    ensures
      var w := Run(t, events, place, channel);
      w.phase == Idle && w.skipped == {}
  {
    if events != [] {
      var n := |events| - 1;
      AllAdmissibleBefore(t, events, place, channel);
      NeverSkips(t, events[..n], place, channel);
      NothingSkipped(Run(t, events[..n], place, channel), events[n], place, channel);
    }
  }

  /** In every admissible run from an empty device no page skips a row, so after
      every step pulling has finished and the copy holds every row of the server's
      table up to the stored cursor. */
  lemma PullKeepsUp(t: Table, events: seq<Event>, place: Place, channel: string)
    requires WellKeyed(t) && DistinctIds(t, place)
    requires forall k | InPlace(t, place, k) :: t[k].createdAt > 0
    requires AllAdmissible(t, events, place, channel)
    ensures
      var w := Run(t, events, place, channel);
      w.phase == Idle && UpToDate(w.table, place, w.stored, channel, w.cursor)
  {
    NeverSkips(t, events, place, channel);
    RunTracks(t, events, place, channel);
  }

  // ---- One sync with no concurrent writes ----

  /** No row is dated after the reply. */
  ghost predicate NoneLater(t: Table, place: Place, wall: nat) {
    forall k | InPlace(t, place, k) :: t[k].createdAt <= wall
  }

  lemma NothingNewer(t: Table, place: Place, wall: nat)
    requires NoneLater(t, place, wall)
    ensures Newer(t, place, wall) == {}
  {
    assert forall k | k in t && k.place == place :: InPlace(t, place, k);
  }

  /** What a request finds after a reply that no row outlives: nothing, for ever. */
  lemma NothingLeft(t: Table, place: Place, since: U64, c: Readings)
    requires Filed(t, place, c.fetch) && NoneLater(t, place, since) && Bucketed(since) && Bucketed(c.fetch)
    ensures Serve(t, place, since, c).Some?
    ensures Serve(t, place, since, c).value == Reply([], ServerHlc(since, c), false)
  {
    NothingNewer(t, place, since);
    PageIsSound(t, place, since, PAGE, c.fetch);
    var d := GetDeltas(t, place, since, PAGE, c.fetch).value;
    NoRepeatSize(d.rows);
    assert ToSet(d.rows) == {};
  }

  /** With no row dated after the first reply and no write in between, pulling
      takes at most two requests, the second of which brings nothing. */
  lemma TwoRequests(
    t: Table, place: Place, m: Messages, channel: string, wall: U64, c1: Readings, c2: Readings)
    requires Filed(t, place, c1.fetch) && Filed(t, place, c2.fetch)
    requires NoneLater(t, place, ServerHlc(wall, c1))
    requires Bucketed(wall) && Bucketed(c1.fetch) && Bucketed(ServerHlc(wall, c1)) && Bucketed(c2.fetch)
    ensures Serve(t, place, wall, c1).Some? && Serve(t, place, ServerHlc(wall, c1), c2).Some?
    ensures
      var r1 := Serve(t, place, wall, c1).value;
      var r2 := Serve(t, place, ServerHlc(wall, c1), c2).value;
      var p := Pull(m, channel, wall, [r1, r2]);
      && p.finished && |p.requests| <= 2
      && p.messages == StoredAll(m, channel, r1.deltas)
      && p.wall >= ServerHlc(wall, c1)
  {
    var r1 := Serve(t, place, wall, c1).value;
    var next := ServerHlc(wall, c1);
    NothingLeft(t, place, next, c2);
    var r2 := Serve(t, place, next, c2).value;
    assert [r1, r2][1..] == [r2];
    var m1 := StoredAll(m, channel, r1.deltas);
    assert Pull(m1, channel, next, [r2]) == Pulled(m1, r2.serverHlc, 0, [next], true);
  }

  /** Such a sync delivers as many rows as a page takes; it is complete exactly
      when no more than that were newer, and whatever it leaves out no later
      request delivers. */
  lemma SyncIsCompleteIff(t: Table, place: Place, wall: U64, c1: Readings, later: U64, c2: Readings)
    requires Filed(t, place, c1.fetch) && Filed(t, place, c2.fetch) && IdsFollowTime(t, place)
    requires NoneLater(t, place, ServerHlc(wall, c1)) && later >= ServerHlc(wall, c1)
    requires Bucketed(wall) && Bucketed(c1.fetch) && Bucketed(later) && Bucketed(c2.fetch)
    ensures GetDeltas(t, place, wall, PAGE, c1.fetch).Some? && Serve(t, place, later, c2).Some?
    ensures
      var rows := GetDeltas(t, place, wall, PAGE, c1.fetch).value.rows;
      && |rows| == Min(|Newer(t, place, wall)|, PAGE)
      && (ToSet(rows) == Newer(t, place, wall) <==> |Newer(t, place, wall)| <= PAGE)
    ensures Serve(t, place, later, c2).value.deltas == []
  {
    var d := GetDeltas(t, place, wall, PAGE, c1.fetch).value;
    FetchRefinesScan(t, place, wall, PAGE, c1.fetch);
    PageIsSound(t, place, wall, PAGE, c1.fetch);
    NoRepeatSize(d.rows);
    NothingLeft(t, place, later, c2);
  }

  /** Once the cursor has passed a row, no page of the rest of the run carries it,
      whatever is written meanwhile. */
  lemma PassedRowsAreNotSent(t: Table, events: seq<Event>, n: nat, place: Place, channel: string, c: Readings, r: Row)
    requires n <= |events| && r.createdAt <= Run(t, events[..n], place, channel).cursor
    requires
      var w := Run(t, events, place, channel);
      Filed(w.table, place, c.fetch) && Bucketed(Wall(w)) && Bucketed(c.fetch)
    ensures
      var w := Run(t, events, place, channel);
      r !in GetDeltas(w.table, place, Wall(w), PAGE, c.fetch).value.rows
  {
    var w := Run(t, events, place, channel);
    var rows := GetDeltas(w.table, place, Wall(w), PAGE, c.fetch).value.rows;
    CursorNeverDecreases(t, events, n, place, channel);
    PageIsSound(w.table, place, Wall(w), PAGE, c.fetch);
    assert r in rows ==> r in ToSet(rows);
  }

  // ---- A page and one more ----

  /** Rows 1 to `n`, with ids and times to match, in the first bucket. */
  function Lined(place: Place, n: nat): Table {
    map k: Key | k in LinedKeys(place, n) :: Stub(k.id, k.id)
  }

  function LinedKeys(place: Place, n: nat): set<Key> {
    set id: nat | 1 <= id <= n :: Key(place, 0, id)
  }

  lemma LinedHas(place: Place, n: nat, k: Key)
    ensures k in Lined(place, n) <==> k.place == place && k.bucket == 0 && 1 <= k.id <= n
  {
    if k.place == place && k.bucket == 0 && 1 <= k.id <= n {
      assert k == Key(place, 0, k.id);
    }
  }

  lemma LinedIsFiled(place: Place, n: nat, now: nat)
    requires n < 1000
    ensures Filed(Lined(place, n), place, now) && IdsFollowTime(Lined(place, n), place)
    ensures n <= now ==> NoneLater(Lined(place, n), place, now)
  {
    forall k | k in Lined(place, n) ensures k.bucket == 0 && 1 <= k.id <= n {
      LinedHas(place, n, k);
    }
    assert forall id | 0 <= id <= n :: BucketOf(id) == 0;
  }

  function Stubs(n: nat): (s: set<Row>)
    ensures |s| == n
    ensures forall r :: r in s <==> 1 <= r.id <= n && r == Stub(r.id, r.id)
  {
    if n == 0 then {} else Stubs(n - 1) + {Stub(n, n)}
  }

  lemma LinedNewer(place: Place, n: nat)
    ensures Newer(Lined(place, n), place, 0) == Stubs(n)
  {
    var t := Lined(place, n);
    forall r ensures r in Newer(t, place, 0) <==> r in Stubs(n) {
      if r in Newer(t, place, 0) {
        var k :| k in t && k.place == place && t[k].createdAt > 0 && t[k] == r;
        LinedHas(place, n, k);
      }
      if r in Stubs(n) {
        LinedHas(place, n, Key(place, 0, r.id));
        assert t[Key(place, 0, r.id)] == r;
      }
    }
  }

  lemma OverfullPage(t: Table, place: Place, now: U64)
    requires Filed(t, place, now) && IdsFollowTime(t, place) && |Newer(t, place, 0)| > PAGE
    requires GetDeltas(t, place, 0, PAGE, now).Some?
    ensures
      var d := GetDeltas(t, place, 0, PAGE, now).value;
      d.hasMore && |d.rows| == PAGE
  {
    FetchRefinesScan(t, place, 0, PAGE, now);
    PageIsSound(t, place, 0, PAGE, now);
  }

  lemma FetchWorks(t: Table, place: Place, now: U64)
    requires now < 1000
    ensures GetDeltas(t, place, 0, PAGE, now).Some?
  {
    assert BucketOf(now) == 0 && BucketOf(0) == 0;
  }

  lemma PageOfStubs(t: Table, place: Place, n: nat, now: U64)
    requires n == PAGE + 1 && now < 1000
    requires Filed(t, place, now) && IdsFollowTime(t, place) && Newer(t, place, 0) == Stubs(n)
    ensures
      var d := GetDeltas(t, place, 0, PAGE, now);
      d.Some? && d.value.hasMore && |d.value.rows| == PAGE && Stub(n, n) !in d.value.rows
  {
    FetchWorks(t, place, now);
    OverfullPage(t, place, now);
    LastIsCut(t, place, n, now);
  }

  /** After such a sync no request, however often, brings the last row. */
  lemma LastRowIsLost(place: Place, n: nat, now: U64, later: U64, c: Readings)
    requires n == PAGE + 1 && n <= now < 1000
    requires later >= now && Bucketed(later) && Bucketed(c.fetch)
    ensures
      var t := Lined(place, n);
      var d := GetDeltas(t, place, 0, PAGE, now);
      && Filed(t, place, now) && IdsFollowTime(t, place) && NoneLater(t, place, now)
      && |Newer(t, place, 0)| == n && Stub(n, n) in Newer(t, place, 0)
      && d.Some? && d.value.hasMore && |d.value.rows| == PAGE && Stub(n, n) !in d.value.rows
      && Serve(t, place, later, c).Some? && Serve(t, place, later, c).value.deltas == []
  {
    LinedIsFiled(place, n, now);
    LinedIsFiled(place, n, c.fetch);
    LinedIsFiled(place, n, later);
    LinedNewer(place, n);
    PageOfStubs(Lined(place, n), place, n, now);
    NothingLeft(Lined(place, n), place, later, c);
  }

  lemma AllFetched(t: Table, place: Place, n: nat, now: U64)
    requires Filed(t, place, now) && n == PAGE + 1 && Newer(t, place, 0) == Stubs(n)
    requires |Fetched(t, place, 0, PAGE, now)| > PAGE
    ensures forall r | r in Stubs(n) :: r in Fetched(t, place, 0, PAGE, now)
  {
    var all := Fetched(t, place, 0, PAGE, now);
    FetchedIsSound(t, place, 0, PAGE, now);
    NoRepeatSize(all);
    SubsetSize(ToSet(all), Stubs(n));
    forall r | r in Stubs(n) ensures r in all {
      assert r in ToSet(all);
    }
  }

  lemma OneIsLeftOut(rows: seq<Row>, n: nat)
    requires NoRepeat(rows) && |rows| < n
    ensures exists y :: y in Stubs(n) && y !in rows
  {
    NoRepeatSize(rows);
    if forall y | y in Stubs(n) :: y in rows {
      assert Stubs(n) <= ToSet(rows);
      SubsetSize(Stubs(n), ToSet(rows));
    }
  }

  lemma LastIsCut(t: Table, place: Place, n: nat, now: U64)
    requires Filed(t, place, now) && n == PAGE + 1 && Newer(t, place, 0) == Stubs(n)
    requires GetDeltas(t, place, 0, PAGE, now).Some? && |GetDeltas(t, place, 0, PAGE, now).value.rows| == PAGE
    requires GetDeltas(t, place, 0, PAGE, now).value.hasMore
    ensures Stub(n, n) !in GetDeltas(t, place, 0, PAGE, now).value.rows
  {
    var rows := GetDeltas(t, place, 0, PAGE, now).value.rows;
    PageIsSound(t, place, 0, PAGE, now);
    AllFetched(t, place, n, now);
    OneIsLeftOut(rows, n);
    var y :| y in Stubs(n) && y !in rows;
    if Stub(n, n) in rows {
      PageIsOldest(t, place, 0, PAGE, now, Stub(n, n), y);
    }
  }
}
