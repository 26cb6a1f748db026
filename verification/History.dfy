/** Recent messages: `read_recent` in `apps/persistence/lib/persistence/messages.ex`
    behind the shared cache, and storing a message in
    `apps/gateway/lib/gateway/binary_socket.ex`. */
module History {
  import opened Base
  import opened Cache
  import opened MessageTable

  function ChannelKey(place: Place): CacheKey {
    CacheKey(place.tenant, place.channel)
  }

  function Older(t: Table, place: Place, bucket: nat, limit: nat): seq<Row> {
    if bucket == 0 then [] else Select(t, place, bucket - 1, limit)
  }

  /** `read_recent_from_scylla`: the previous bucket fills what the current one
      leaves of the limit. */
  function FromTable(t: Table, place: Place, limit: nat, bucket: nat): seq<Row> {
    var rows := Select(t, place, bucket, limit);
    if |rows| < limit then rows + Older(t, place, bucket, limit - |rows|) else rows
  }

  predicate Served(entry: Option<seq<Row>>, limit: nat) {
    entry.Some? && |entry.value| >= limit
  }

  /** What a reader gets, given the live entry of the channel. */
  function Answer(entry: Option<seq<Row>>, t: Table, place: Place, limit: nat, bucket: nat): seq<Row> {
    if Served(entry, limit) then Take(entry.value, limit) else FromTable(t, place, limit, bucket)
  }

  // ---- What readers are meant to get ----

  function Listed(t: Table, place: Place, bucket: nat): seq<Row> {
    Descending(Partition(t, place, bucket))
  }

  /** The current bucket followed by the previous one, each by descending id. */
  function Full(t: Table, place: Place, bucket: nat): seq<Row> {
    Listed(t, place, bucket) + if bucket == 0 then [] else Listed(t, place, bucket - 1)
  }

  function Expected(t: Table, place: Place, limit: nat, bucket: nat): seq<Row> {
    Take(Full(t, place, bucket), limit)
  }

  lemma TakeOfSum<T>(a: seq<T>, b: seq<T>, n: nat)
    ensures Take(a + b, n) == if |a| < n then Take(a, n) + Take(b, n - |a|) else Take(a, n)
  {
  }

  lemma TableReadIsExact(t: Table, place: Place, limit: nat, bucket: nat)
    ensures FromTable(t, place, limit, bucket) == Expected(t, place, limit, bucket)
  {
    var a := Listed(t, place, bucket);
    var b := if bucket == 0 then [] else Listed(t, place, bucket - 1);
    TakeOfSum(a, b, limit);
  }

  // ---- The object ----

  class MessageHistory {
    const store: MessageStore
    const cache: SharedCache

    constructor (store: MessageStore, cache: SharedCache)
      ensures this.store == store && this.cache == cache
    {
      this.store, this.cache := store, cache;
    }

    /** With the database enabled, a message is stored and only then is the
        channel's entry dropped; a failed write leaves both. Without it the entry
        is dropped all the same. */
    method PersistMessage(place: Place, bucket: nat, row: Row, enabled: bool, fails: bool, reachable: bool)
      modifies store, cache`recent
      ensures store.table == if enabled && !fails then Write(old(store.table), place, bucket, row) else old(store.table)
      ensures
        cache.recent
        == if reachable && !(enabled && fails) then old(cache.recent) - {ChannelKey(place)} else old(cache.recent)
    {
      if enabled {
        if fails {
          return;
        }
        store.Insert(place, bucket, row);
      }
      cache.InvalidateRecent(ChannelKey(place), reachable);
    }

    method ReadRecentFromScylla(place: Place, limit: nat, now: U64) returns (rows: seq<Row>)
      ensures rows == Expected(store.table, place, limit, BucketOf(now))
    {
      var bucket := BucketOf(now);
      rows := Select(store.table, place, bucket, limit);
      if |rows| < limit && bucket > 0 {
        var older := Select(store.table, place, bucket - 1, limit - |rows|);
        rows := rows + older;
      }
      TableReadIsExact(store.table, place, limit, bucket);
    }

    /** `now` is the machine's clock, `cacheNow` that of the cache. */
    method ReadRecent(place: Place, limit: nat, now: U64, cacheNow: nat, reachable: bool) returns (rows: seq<Row>)
      modifies cache`recent
      ensures
        var k := ChannelKey(place);
        var entry := if reachable then RecentOf(old(cache.recent), k, cacheNow) else None;
        var after := if reachable then AfterGetRecent(old(cache.recent), k, cacheNow) else old(cache.recent);
        && rows == Answer(entry, store.table, place, limit, BucketOf(now))
        && cache.recent
           == if Served(entry, limit) || !reachable || rows == [] then after
              else AfterPutRecent(after, k, rows, cacheNow)
    {
      var k := ChannelKey(place);
      var cached := cache.GetRecent(k, cacheNow, reachable);
      if cached.Some? && |cached.value| >= limit {
        return Take(cached.value, limit);
      }
      rows := ReadRecentFromScylla(place, limit, now);
      TableReadIsExact(store.table, place, limit, BucketOf(now));
      if rows != [] {
        cache.PutRecent(k, rows, cacheNow, reachable);
      }
    }
  }
}
