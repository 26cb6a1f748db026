/** Applying a client's pushed deltas, `apply_deltas` and the message clause of
    `apply_single_delta` in `apps/persistence/lib/persistence/sync.ex`. */
module DeltaApply {
  import opened Base
  import opened MessageTable

  const MAX_PUSH: nat := 1000

  /** `messageId` is `None` when absent or not hexadecimal. */
  datatype Delta = Delta(
    messageId: Option<nat>,
    sender: Bytes,
    content: Bytes,
    contentType: int,
    hlcWall: Option<U64>)

  /** What the machine supplies while one delta is applied. */
  datatype Reading = Reading(freshId: nat, now: U64, receivedAt: nat)

  datatype Outcome = Applied(count: nat) | TooLarge | Failed

  function RowOfDelta(d: Delta, r: Reading): Row {
    var ts: U64 := if d.hlcWall.Some? then d.hlcWall.value else r.now;
    Row(if d.messageId.Some? then d.messageId.value else r.freshId,
        d.sender, d.content, d.contentType, None, ts, r.receivedAt)
  }

  predicate Fits(row: Row) {
    Bucketed(row.createdAt)
  }

  /** One INSERT per delta, in order; a timestamp without a bucket stops it. */
  function Applying(t: Table, place: Place, ds: seq<Delta>, rs: seq<Reading>): Table
    requires |ds| == |rs|
    decreases |ds|
  {
    if ds == [] then t
    else
      var row := RowOfDelta(ds[0], rs[0]);
      if !Fits(row) then t
      else Applying(Write(t, place, BucketOf(row.createdAt), row), place, ds[1..], rs[1..])
  }

  predicate AllFit(ds: seq<Delta>, rs: seq<Reading>)
    requires |ds| == |rs|
  {
    forall i | 0 <= i < |ds| :: Fits(RowOfDelta(ds[i], rs[i]))
  }

  /** Every clause answers something that counts as true, so the count is the
      length of the batch. */
  method ApplyDeltas(store: MessageStore, place: Place, ds: seq<Delta>, rs: seq<Reading>) returns (r: Outcome)
    requires |ds| == |rs|
    modifies store
    ensures |ds| > MAX_PUSH ==> r == TooLarge && store.table == old(store.table)
    ensures |ds| <= MAX_PUSH ==> store.table == Applying(old(store.table), place, ds, rs)
    ensures |ds| <= MAX_PUSH ==> r == if AllFit(ds, rs) then Applied(|ds|) else Failed
  {
    if |ds| > MAX_PUSH {
      return TooLarge;
    }
    var i := 0;
    while i < |ds|
      invariant i <= |ds|
      invariant Applying(store.table, place, ds[i..], rs[i..]) == Applying(old(store.table), place, ds, rs)
      invariant AllFit(ds[..i], rs[..i])
    {
      var row := RowOfDelta(ds[i], rs[i]);
      assert ds[i..][1..] == ds[i + 1..] && rs[i..][1..] == rs[i + 1..];
      if !Fits(row) {
        return Failed;
      }
      store.Insert(place, BucketOf(row.createdAt), row);
      i := i + 1;
    }
    assert ds[..i] == ds && rs[..i] == rs;
    r := Applied(|ds|);
  }

  // ---- Pushing again ----

  /** A delta that names its message and its time, as the offline queue stores it. */
  predicate Named(d: Delta) {
    d.messageId.Some? && d.hlcWall.Some? && Bucketed(d.hlcWall.value)
  }

  predicate AllNamed(ds: seq<Delta>) {
    forall i | 0 <= i < |ds| :: Named(ds[i])
  }

  /** The table apart from `server_received_at`. */
  function Strip(t: Table): Table {
    map k | k in t :: t[k].(receivedAt := 0)
  }

  function KeyOfDelta(place: Place, d: Delta): Key
    requires Named(d)
  {
    Key(place, BucketOf(d.hlcWall.value), d.messageId.value)
  }

  function Settled(d: Delta): Row
    requires Named(d)
  {
    Row(d.messageId.value, d.sender, d.content, d.contentType, None, d.hlcWall.value, 0)
  }

  /** What a batch leaves behind: for every key its last delta. */
  function Effect(place: Place, ds: seq<Delta>): Table
    requires AllNamed(ds)
  {
    if ds == [] then map[]
    else
      var n := |ds| - 1;
      Effect(place, ds[..n])[KeyOfDelta(place, ds[n]) := Settled(ds[n])]
  }

  lemma {:induction false} ApplyingAppends(t: Table, place: Place, ds: seq<Delta>, rs: seq<Reading>)
    requires |ds| == |rs| > 0 && AllNamed(ds)
    ensures
      var n := |ds| - 1;
      Applying(t, place, ds, rs)
      == Applying(t, place, ds[..n], rs[..n])[KeyOfDelta(place, ds[n]) := RowOfDelta(ds[n], rs[n])]
    decreases |ds|
  {
    var n := |ds| - 1;
    var row := RowOfDelta(ds[0], rs[0]);
    var t' := Write(t, place, BucketOf(row.createdAt), row);
    if n > 0 {
      ApplyingAppends(t', place, ds[1..], rs[1..]);
      assert ds[1..][..n - 1] == ds[..n][1..] && rs[1..][..n - 1] == rs[..n][1..];
      assert ds[..n][0] == ds[0] && rs[..n][0] == rs[0];
    }
  }

  lemma StripWrite(t: Table, k: Key, row: Row)
    ensures Strip(t[k := row]) == Strip(t)[k := row.(receivedAt := 0)]
  {
  }

  lemma OverlayThenSet(t: Table, u: Table, k: Key, row: Row)
    ensures (t + u)[k := row] == t + u[k := row]
  {
  }

  /** Whatever was there, and whenever it runs: a batch overlays its effect. */
  lemma {:induction false} ApplyingOverlays(t: Table, place: Place, ds: seq<Delta>, rs: seq<Reading>)
    requires |ds| == |rs| && AllNamed(ds)
    ensures Strip(Applying(t, place, ds, rs)) == Strip(t) + Effect(place, ds)
  {
    if ds != [] {
      var n := |ds| - 1;
      ApplyingOverlays(t, place, ds[..n], rs[..n]);
      ApplyingAppends(t, place, ds, rs);
      StripWrite(Applying(t, place, ds[..n], rs[..n]), KeyOfDelta(place, ds[n]), RowOfDelta(ds[n], rs[n]));
      OverlayThenSet(Strip(t), Effect(place, ds[..n]), KeyOfDelta(place, ds[n]), Settled(ds[n]));
    }
  }

  lemma {:induction false} EffectKeysGrow(place: Place, ds: seq<Delta>, n: nat)
    requires AllNamed(ds) && n <= |ds|
    ensures Effect(place, ds[..n]).Keys <= Effect(place, ds).Keys
    decreases |ds|
  {
    if n < |ds| {
      EffectKeysGrow(place, ds[..|ds| - 1], n);
      assert ds[..|ds| - 1][..n] == ds[..n];
    } else {
      assert ds[..n] == ds;
    }
  }

  /** One attempt to push: how much of the final batch it carried or got through,
      and what the machine read meanwhile. */
  datatype Attempt = Attempt(reached: nat, readings: seq<Reading>)

  predicate Possible(ds: seq<Delta>, a: Attempt) {
    a.reached <= |ds| && |a.readings| == a.reached
  }

  function AfterAttempts(t: Table, place: Place, ds: seq<Delta>, attempts: seq<Attempt>): Table
    requires forall a | a in attempts :: Possible(ds, a)
  {
    if attempts == [] then t
    else
      var n := |attempts| - 1;
      var before := AfterAttempts(t, place, ds, attempts[..n]);
      assert Possible(ds, attempts[n]);
      Applying(before, place, ds[..attempts[n].reached], attempts[n].readings)
  }

  lemma {:induction false} AttemptsStayBelow(t: Table, place: Place, ds: seq<Delta>, attempts: seq<Attempt>)
    requires AllNamed(ds) && forall a | a in attempts :: Possible(ds, a)
    ensures
      Strip(AfterAttempts(t, place, ds, attempts)) + Effect(place, ds) == Strip(t) + Effect(place, ds)
  {
    if attempts != [] {
      var n := |attempts| - 1;
      var a := attempts[n];
      assert Possible(ds, a);
      AttemptsStayBelow(t, place, ds, attempts[..n]);
      var before := AfterAttempts(t, place, ds, attempts[..n]);
      ApplyingOverlays(before, place, ds[..a.reached], a.readings);
      EffectKeysGrow(place, ds, a.reached);
      OverlayAbsorbs(Strip(before), Effect(place, ds[..a.reached]), Effect(place, ds));
    }
  }

  lemma OverlayAbsorbs(t: Table, part: Table, all: Table)
    requires part.Keys <= all.Keys
    ensures (t + part) + all == t + all
  {
  }

  /** Any number of crashed pushes of the batch, each cut anywhere, followed by
      one that completes, leave the message table as one push would, apart from
      the times of receipt. */
  lemma RepushingIsHarmless(
    t: Table, place: Place, ds: seq<Delta>, attempts: seq<Attempt>, last: seq<Reading>, once: seq<Reading>)
    requires AllNamed(ds) && |last| == |ds| == |once|
    requires forall a | a in attempts :: Possible(ds, a)
    ensures
      Strip(Applying(AfterAttempts(t, place, ds, attempts), place, ds, last))
      == Strip(Applying(t, place, ds, once))
  {
    ApplyingOverlays(AfterAttempts(t, place, ds, attempts), place, ds, last);
    ApplyingOverlays(t, place, ds, once);
    AttemptsStayBelow(t, place, ds, attempts);
  }

  lemma ApplyingOne(t: Table, place: Place, d: Delta, r: Reading)
    requires Fits(RowOfDelta(d, r))
    ensures
      var row := RowOfDelta(d, r);
      Applying(t, place, [d], [r]) == Write(t, place, BucketOf(row.createdAt), row)
  {
    var row := RowOfDelta(d, r);
    var t' := Write(t, place, BucketOf(row.createdAt), row);
    assert [d][1..] == [] && [r][1..] == [];
    assert Applying(t', place, [], []) == t';
  }

  /** One push of the delta after the other. */
  function Pushed(t: Table, place: Place, d: Delta, rs: seq<Reading>): Table {
    if rs == [] then t
    else
      var n := |rs| - 1;
      Applying(Pushed(t, place, d, rs[..n]), place, [d], [rs[n]])
  }

  predicate FreshIds(t: Table, rs: seq<Reading>) {
    && (forall i | 0 <= i < |rs| :: forall k | k in t :: k.id != rs[i].freshId)
    && (forall i, j | 0 <= i < j < |rs| :: rs[i].freshId != rs[j].freshId)
  }

  function NewIds(rs: seq<Reading>): set<nat> {
    set i | 0 <= i < |rs| :: rs[i].freshId
  }

  /** `n` rows more than `t`, under ids of the set. */
  ghost predicate Extends(after: Table, t: Table, n: nat, ids: set<nat>) {
    && |after.Keys| == |t.Keys| + n
    && (forall k | k in t :: k in after && after[k] == t[k])
    && (forall k | k in after && k !in t :: k.id in ids)
  }

  lemma OneMoreRow(before: Table, t: Table, n: nat, ids: set<nat>, k: Key, row: Row)
    requires Extends(before, t, n, ids) && k.id !in ids && k !in t
    ensures Extends(before[k := row], t, n + 1, ids + {k.id})
  {
    assert before[k := row].Keys == before.Keys + {k};
  }

  lemma NewIdsGrow(rs: seq<Reading>)
    requires rs != []
    ensures NewIds(rs) == NewIds(rs[..|rs| - 1]) + {rs[|rs| - 1].freshId}
  {
  }

  /** A delta without a time is filed under the time of the push that applies it,
      with the sender and content it has. */
  lemma UntimedIsStampedAnew(t: Table, place: Place, d: Delta, r: Reading, id: nat)
    requires d.hlcWall.None? && Bucketed(r.now)
    requires d.messageId == Some(id) || (d.messageId.None? && id == r.freshId)
    ensures
      var after, k := Applying(t, place, [d], [r]), Key(place, BucketOf(r.now), id);
      && k in after && after[k].createdAt == r.now && after[k].id == id
      && after[k].sender == d.sender && after[k].content == d.content && after[k].receivedAt == r.receivedAt
      && forall l | l != k :: (l in after <==> l in t) && (l in t ==> after[l] == t[l])
  {
    ApplyingOne(t, place, d, r);
  }

  /** The ids make it so: a delta without one is stored again, under a new id, by
      every push. */
  lemma {:induction false} UnnamedIsDuplicated(t: Table, place: Place, d: Delta, rs: seq<Reading>)
    requires d.messageId.None? && FreshIds(t, rs)
    requires forall i | 0 <= i < |rs| :: Fits(RowOfDelta(d, rs[i]))
    ensures Extends(Pushed(t, place, d, rs), t, |rs|, NewIds(rs))
  {
    if rs != [] {
      var n := |rs| - 1;
      var row := RowOfDelta(d, rs[n]);
      UnnamedIsDuplicated(t, place, d, rs[..n]);
      ApplyingOne(Pushed(t, place, d, rs[..n]), place, d, rs[n]);
      NewIdsGrow(rs);
      OneMoreRow(Pushed(t, place, d, rs[..n]), t, n, NewIds(rs[..n]),
                 Key(place, BucketOf(row.createdAt), row.id), row);
    }
  }
}
