/** The shared cache, `apps/persistence/lib/persistence/cache.ex`: recent
    messages, rate counters and the creators of MLS groups. Values are JSON and
    Base64 texts in the source; those encodings are taken to be faithful. */
module Cache {
  import opened Base
  import opened MessageTable

  const RATE_WINDOW_MS: nat := 1000
  const CREATOR_TTL_MS: nat := 3_600_000
  const RECENT_TTL_MS: nat := 30_000

  // ---- Key texts ----

  const DIGITS: seq<char> := "0123456789ABCDEF"

  function Hex(b: Bytes): (s: string)
    ensures |s| == 2 * |b|
  {
    if b == [] then ""
    else
      var high, low := b[0] / 16, b[0] % 16;
      assert high < 16 && low < 16;
      [DIGITS[high], DIGITS[low]] + Hex(b[1..])
  }

  function DigitValue(c: char): Option<nat> {
    if '0' <= c <= '9' then Some(c as nat - '0' as nat)
    else if 'A' <= c <= 'F' then Some(c as nat - 'A' as nat + 10)
    else if 'a' <= c <= 'f' then Some(c as nat - 'a' as nat + 10)
    else None
  }

  lemma DigitValueBound(c: char)
    ensures DigitValue(c).Some? ==> DigitValue(c).value < 16
  {
  }

  /** `Base.decode16` of either case. */
  function Unhex(s: string): Option<Bytes> {
    if s == "" then Some([])
    else if |s| == 1 then None
    else
      DigitValueBound(s[0]);
      DigitValueBound(s[1]);
      match (DigitValue(s[0]), DigitValue(s[1]), Unhex(s[2..]))
      case (Some(high), Some(low), Some(rest)) => Some([high * 16 + low] + rest)
      case _ => None
  }

  lemma DigitRoundTrip(n: nat)
    requires n < 16
    ensures DigitValue(DIGITS[n]) == Some(n) && DIGITS[n] != ':'
  {
  }

  lemma {:induction false} HexRoundTrip(b: Bytes)
    ensures Unhex(Hex(b)) == Some(b)
  {
    if b != [] {
      var b0: nat := b[0];
      DigitRoundTrip(b0 / 16);
      DigitRoundTrip(b0 % 16);
      HexRoundTrip(b[1..]);
      var s := Hex(b);
      assert s[0] == DIGITS[b0 / 16] && s[1] == DIGITS[b0 % 16];
      assert s[2..] == Hex(b[1..]);
      assert b0 / 16 * 16 + b0 % 16 == b0;
      assert [b[0]] + b[1..] == b;
    }
  }

  lemma {:induction false} HexHasNoColon(b: Bytes)
    ensures ':' !in Hex(b)
  {
    if b != [] {
      var b0: nat := b[0];
      DigitRoundTrip(b0 / 16);
      DigitRoundTrip(b0 % 16);
      HexHasNoColon(b[1..]);
    }
  }

  /** A tenant and one of its users or channels. */
  datatype CacheKey = CacheKey(tenant: Bytes, id: Bytes)

  datatype Family = Rate | Creator | Recent | User | Members

  lemma SplitAtColon(a: string, x: string, b: string, y: string)
    requires ':' !in a && ':' !in b && a + ":" + x == b + ":" + y
    ensures a == b && x == y
  {
    var s, t := a + ":" + x, b + ":" + y;
    assert s[|a|] == ':' && t[|b|] == ':';
    assert forall i | 0 <= i < |a| :: s[i] == a[i];
    assert forall i | 0 <= i < |b| :: t[i] == b[i];
    assert |a| == |b|;
    assert a == s[..|a|] == t[..|b|] == b;
    assert x == s[|a| + 1..] == t[|b| + 1..] == y;
  }

  function Middle(family: Family): string {
    match family
    case Rate => "rl"
    case User => "user"
    case _ => "ch"
  }

  function Suffix(family: Family): string {
    match family
    case Creator => "mls_creator"
    case Recent => "recent"
    case Members => "members"
    case _ => ""
  }

  function Tail(family: Family, id: string): string {
    if family.Rate? || family.User? then id else id + ":" + Suffix(family)
  }

  /** The tenant, `ch`, `user` or `rl`, the user or channel, and for a channel
      what is kept of it, with colons between. */
  function KeyText(family: Family, k: CacheKey): string {
    Hex(k.tenant) + ":" + (Middle(family) + ":" + Tail(family, Hex(k.id)))
  }

  lemma SameTail(f: Family, g: Family, a: Bytes, b: Bytes)
    requires Middle(f) == Middle(g) && Tail(f, Hex(a)) == Tail(g, Hex(b))
    ensures f == g && a == b
  {
    HexHasNoColon(a);
    HexHasNoColon(b);
    if Middle(f) == "ch" {
      SplitAtColon(Hex(a), Suffix(f), Hex(b), Suffix(g));
      assert Suffix(f)[0] == Suffix(g)[0] && |Suffix(f)| == |Suffix(g)|;
    }
    assert Hex(a) == Hex(b);
    HexRoundTrip(a);
    HexRoundTrip(b);
  }

  /** Entries of different kinds, tenants, users or channels never share a key. */
  lemma KeysAreDistinct(f: Family, a: CacheKey, g: Family, b: CacheKey)
    requires KeyText(f, a) == KeyText(g, b)
    ensures f == g && a == b
  {
    HexHasNoColon(a.tenant);
    HexHasNoColon(b.tenant);
    var x, y := Tail(f, Hex(a.id)), Tail(g, Hex(b.id));
    SplitAtColon(Hex(a.tenant), Middle(f) + ":" + x, Hex(b.tenant), Middle(g) + ":" + y);
    SplitAtColon(Middle(f), x, Middle(g), y);
    HexRoundTrip(a.tenant);
    HexRoundTrip(b.tenant);
    SameTail(f, g, a.id, b.id);
  }

  // ---- What the entries hold, and what each command does ----

  datatype Counter = Counter(count: nat, expiresAt: nat)
  datatype Claim = Claim(hex: string, expiresAt: nat)

  /** A cached message, without its time of receipt. */
  datatype Packed = Packed(mid: nat, sid: Bytes, ec: Bytes, ct: int, ca: nat, rt: Option<Bytes>)

  /** What an entry of recent messages decodes to; `Corrupt`: it does not. */
  datatype Listing = Listing(items: seq<Packed>, expiresAt: nat) | Corrupt(expiresAt: nat)

  type Counters = map<CacheKey, Counter>
  type Claims = map<CacheKey, Claim>
  type Listings = map<CacheKey, Listing>

  function Hits(m: Counters, k: CacheKey, now: nat): nat {
    if k in m && now < m[k].expiresAt then m[k].count + 1 else 1
  }

  /** INCR, then EXPIRE: the second postpones the expiry on every call. */
  function Counted(m: Counters, k: CacheKey, now: nat): Counters {
    m[k := Counter(Hits(m, k, now), now + RATE_WINDOW_MS)]
  }

  /** SET NX EX: a live claim stays as it is. */
  function Claimed(m: Claims, k: CacheKey, user: Bytes, now: nat): Claims {
    if k in m && now < m[k].expiresAt then m else m[k := Claim(Hex(user), now + CREATOR_TTL_MS)]
  }

  function CreatorOf(m: Claims, k: CacheKey, now: nat): Option<Bytes> {
    if k in m && now < m[k].expiresAt then Unhex(m[k].hex) else None
  }

  /** A GET deletes a text that is not hexadecimal. */
  function AfterGet(m: Claims, k: CacheKey, now: nat): Claims {
    if k in m && now < m[k].expiresAt && Unhex(m[k].hex).None? then m - {k} else m
  }

  function Serialize(r: Row): Packed {
    Packed(r.id, r.sender, r.content, r.contentType, r.createdAt, r.replyTo)
  }

  function Deserialize(p: Packed): Row {
    Row(p.mid, p.sid, p.ec, p.ct, p.rt, p.ca, 0)
  }

  function SerializeAll(rows: seq<Row>): seq<Packed> {
    seq(|rows|, i requires 0 <= i < |rows| => Serialize(rows[i]))
  }

  function DeserializeAll(items: seq<Packed>): seq<Row> {
    seq(|items|, i requires 0 <= i < |items| => Deserialize(items[i]))
  }

  /** Rows as a reader sees them: apart from the time of receipt. */
  function Shown(rows: seq<Row>): seq<Row> {
    seq(|rows|, i requires 0 <= i < |rows| => rows[i].(receivedAt := 0))
  }

  lemma CachedRowsReadBack(rows: seq<Row>)
    ensures DeserializeAll(SerializeAll(rows)) == Shown(rows)
  {
  }

  function RecentOf(m: Listings, k: CacheKey, now: nat): Option<seq<Row>> {
    if k in m && now < m[k].expiresAt && m[k].Listing? then Some(DeserializeAll(m[k].items)) else None
  }

  /** A GET deletes an entry that does not decode. */
  function AfterGetRecent(m: Listings, k: CacheKey, now: nat): Listings {
    if k in m && now < m[k].expiresAt && m[k].Corrupt? then m - {k} else m
  }

  /** The listings after a PUT, which replaces the entry and its expiry. */
  function AfterPutRecent(m: Listings, k: CacheKey, rows: seq<Row>, now: nat): Listings {
    m[k := Listing(SerializeAll(rows), now + RECENT_TTL_MS)]
  }

  /** For 30 seconds a PUT is read back as it is shown, then not at all; the other
      entries are read as before. */
  lemma PutIsReadBack(m: Listings, k: CacheKey, rows: seq<Row>, put: nat, now: nat, other: CacheKey)
    ensures
      RecentOf(AfterPutRecent(m, k, rows, put), other, now)
      == if other != k then RecentOf(m, other, now)
         else if now < put + 30_000 then Some(Shown(rows))
         else None
  {
    CachedRowsReadBack(rows);
  }

  // ---- The object ----

  /** `reachable` says whether the cache answered the command; `now` is its
      clock. */
  class SharedCache {
    var counters: Counters
    var creators: Claims
    var recent: Listings

    constructor ()
      ensures counters == map[] && creators == map[] && recent == map[]
    {
      counters, creators, recent := map[], map[], map[];
    }

    /** An unreachable cache allows everything. */
    method RateCheck(k: CacheKey, limit: nat, now: nat, reachable: bool) returns (allow: bool)
      modifies this`counters
      ensures reachable ==> counters == Counted(old(counters), k, now)
      ensures reachable ==> (allow <==> Hits(old(counters), k, now) <= limit)
      ensures !reachable ==> allow && counters == old(counters)
    {
      if !reachable {
        return true;
      }
      if k in counters && counters[k].expiresAt <= now {
        counters := counters - {k};
      }
      var count := 1;
      if k in counters {
        count := counters[k].count + 1;
      }
      counters := counters[k := Counter(count, now + RATE_WINDOW_MS)];
      allow := count <= limit;
    }

    method SetMlsCreator(k: CacheKey, user: Bytes, now: nat, reachable: bool)
      modifies this`creators
      ensures creators == if reachable then Claimed(old(creators), k, user, now) else old(creators)
    {
      if reachable && (k !in creators || creators[k].expiresAt <= now) {
        creators := creators[k := Claim(Hex(user), now + CREATOR_TTL_MS)];
      }
    }

    method GetMlsCreator(k: CacheKey, now: nat, reachable: bool) returns (user: Option<Bytes>)
      modifies this`creators
      ensures user == if reachable then CreatorOf(old(creators), k, now) else None
      ensures creators == if reachable then AfterGet(old(creators), k, now) else old(creators)
    {
      if !reachable || k !in creators || creators[k].expiresAt <= now {
        return None;
      }
      user := Unhex(creators[k].hex);
      if user.None? {
        creators := creators - {k};
      }
    }

    method GetRecent(k: CacheKey, now: nat, reachable: bool) returns (rows: Option<seq<Row>>)
      modifies this`recent
      ensures rows == if reachable then RecentOf(old(recent), k, now) else None
      ensures recent == if reachable then AfterGetRecent(old(recent), k, now) else old(recent)
    {
      if !reachable || k !in recent || recent[k].expiresAt <= now {
        return None;
      }
      if recent[k].Corrupt? {
        recent := recent - {k};
        return None;
      }
      var items := recent[k].items;
      var msgs: seq<Row> := [];
      for i := 0 to |items|
        invariant msgs == DeserializeAll(items[..i])
      {
        msgs := msgs + [Deserialize(items[i])];
      }
      assert items[..|items|] == items;
      rows := Some(msgs);
    }

    method PutRecent(k: CacheKey, rows: seq<Row>, now: nat, reachable: bool)
      modifies this`recent
      ensures
        recent == if reachable then AfterPutRecent(old(recent), k, rows, now) else old(recent)
    {
      if reachable {
        recent := recent[k := Listing(SerializeAll(rows), now + RECENT_TTL_MS)];
      }
    }

    method InvalidateRecent(k: CacheKey, reachable: bool)
      modifies this`recent
      ensures recent == if reachable then old(recent) - {k} else old(recent)
    {
      if reachable {
        recent := recent - {k};
      }
    }
  }
}
