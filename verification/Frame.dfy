/** The binary frame codec, `sdks/mercury-sdk-js/src/frame.ts` on the client
    and the bit syntax of `apps/gateway/lib/gateway/binary_socket.ex` on the
    server. */
module Frame {
  import opened Base

  const JOIN: Byte := 0x01
  const LEAVE: Byte := 0x02
  const REPLY: Byte := 0x03
  const PUSH: Byte := 0x04
  const BROADCAST: Byte := 0x05
  const HEARTBEAT: Byte := 0x06

  const STATUS_OK: Byte := 0x00
  const STATUS_ERROR: Byte := 0x01

  const HEADER_SIZE: nat := 7
  const TWO_TO_16: nat := 0x1_0000

  datatype Parts = Parts(kind: nat, ref: nat, topicId: nat, payload: Bytes)

  // ---- Little-endian integers; wider values lose their upper bits ----

  function Le2(n: nat): (r: Bytes)
    ensures |r| == 2
  {
    [n % 256, n / 256 % 256]
  }

  function Le4(n: nat): (r: Bytes)
    ensures |r| == 4
  {
    [n % 256, n / 256 % 256, n / 65536 % 256, n / 16777216 % 256]
  }

  function FromLe2(b: Bytes): (r: nat)
    requires |b| == 2
    ensures r < TWO_TO_16
  {
    var b0: nat, b1: nat := b[0], b[1];
    b0 + 256 * b1
  }

  function FromLe4(b: Bytes): (r: nat)
    requires |b| == 4
    ensures r < TWO_TO_32
  {
    var b0: nat, b1: nat, b2: nat, b3: nat := b[0], b[1], b[2], b[3];
    b0 + 256 * b1 + 65536 * b2 + 16777216 * b3
  }

  lemma Le2RoundTrip(n: nat)
    ensures FromLe2(Le2(n)) == n % TWO_TO_16
  {
    var a := n / 256;
    assert n == 256 * a + n % 256 && a == 256 * (a / 256) + a % 256;
    Remainder(n, a / 256, FromLe2(Le2(n)));
  }

  lemma Remainder(n: nat, q: nat, r: nat)
    requires n == TWO_TO_16 * q + r && r < TWO_TO_16
    ensures n % TWO_TO_16 == r
  {
  }

  lemma Le4RoundTrip(n: nat)
    ensures FromLe4(Le4(n)) == n % TWO_TO_32
  {
    var a := n / 256;
    var b := a / 256;
    var c := b / 256;
    assert b == n / 65536 && c == n / 16777216;
    assert n == 256 * a + n % 256 && a == 256 * b + a % 256 && b == 256 * c + b % 256;
    assert c == 256 * (c / 256) + c % 256;
    assert n == TWO_TO_32 * (c / 256) + FromLe4(Le4(n));
  }

  lemma Le4Exact(n: nat)
    requires n < TWO_TO_32
    ensures FromLe4(Le4(n)) == n
  {
    Le4RoundTrip(n);
  }

  lemma FromLe4RoundTrip(b: Bytes)
    requires |b| == 4
    ensures Le4(FromLe4(b)) == b
  {
    var n := FromLe4(b);
    var b1: nat, b2: nat, b3: nat := b[1], b[2], b[3];
    assert n / 256 == b1 + 256 * b2 + 65536 * b3;
    assert n / 65536 == b2 + 256 * b3;
    assert n / 16777216 == b3;
  }

  lemma FromLe2RoundTrip(b: Bytes)
    requires |b| == 2
    ensures Le2(FromLe2(b)) == b
  {
  }

  // ---- Frames ----

  /** The bytes of a frame, as the server's bit syntax writes them. */
  function FrameBytes(kind: nat, ref: nat, topicId: nat, payload: Bytes): (r: Bytes)
    ensures |r| == HEADER_SIZE + |payload|
  {
    [kind % 256] + Le4(ref) + Le2(topicId) + payload
  }

  /** Two numbers are the same in four bytes exactly when they differ by a
      multiple of 2^32: past that many refs, a reply would find two requests. */
  lemma SameOnTheWireIff(a: nat, b: nat)
    ensures Le4(a) == Le4(b) <==> a % TWO_TO_32 == b % TWO_TO_32
  {
    Le4RoundTrip(a);
    Le4RoundTrip(b);
    FromLe4RoundTrip(Le4(a));
    FromLe4RoundTrip(Le4(b));
  }

  /** A number is the sum of its bytes, the lowest first. */
  lemma LowestByteFirst(n: nat)
    requires n < TWO_TO_32
    ensures
      var b := Le4(n);
      var b0: nat, b1: nat, b2: nat, b3: nat := b[0], b[1], b[2], b[3];
      n == b0 + 0x100 * b1 + 0x1_0000 * b2 + 0x100_0000 * b3
  {
    Le4Exact(n);
  }

  /** One frame, byte by byte: type, ref and topic id with the lowest byte first,
      payload. */
  lemma WireExample()
    ensures FrameBytes(0x02, 0x0403_0201, 0x0605, [9, 8]) == [2, 1, 2, 3, 4, 5, 6, 9, 8]
  {
  }

  /** `decodeFrame`; `None`: the view is too short and the read throws. */
  function DecodeFrame(data: Bytes): Option<Parts> {
    if |data| < HEADER_SIZE then None
    else Some(Parts(data[0], FromLe4(data[1..5]), FromLe2(data[5..7]), data[7..]))
  }

  lemma FrameSlices(kind: nat, ref: nat, topicId: nat, payload: Bytes)
    ensures
      var d := FrameBytes(kind, ref, topicId, payload);
      && d[0] == kind % 256 && d[1..5] == Le4(ref) && d[5..7] == Le2(topicId) && d[7..] == payload
  {
  }

  /** Decoding undoes encoding, up to the width of each field. */
  lemma DecodeEncode(kind: nat, ref: nat, topicId: nat, payload: Bytes)
    ensures
      DecodeFrame(FrameBytes(kind, ref, topicId, payload))
      == Some(Parts(kind % 256, ref % TWO_TO_32, topicId % TWO_TO_16, payload))
  {
    FrameSlices(kind, ref, topicId, payload);
    Le4RoundTrip(ref);
    Le2RoundTrip(topicId);
  }

  /** Encoding undoes decoding on any 7 or more bytes. */
  lemma EncodeDecode(data: Bytes)
    requires |data| >= HEADER_SIZE
    ensures
      var p := DecodeFrame(data).value;
      FrameBytes(p.kind, p.ref, p.topicId, p.payload) == data
  {
    FromLe4RoundTrip(data[1..5]);
    FromLe2RoundTrip(data[5..7]);
    assert data == [data[0]] + data[1..5] + data[5..7] + data[7..];
  }

  // ---- The client's buffers ----

  method SetUint32(buf: array<Byte>, at: nat, n: nat)
    requires at + 4 <= buf.Length
    modifies buf
    ensures buf[..] == old(buf[..at]) + Le4(n) + old(buf[at + 4..])
  {
    buf[at] := n % 256;
    buf[at + 1] := n / 256 % 256;
    buf[at + 2] := n / 65536 % 256;
    buf[at + 3] := n / 16777216 % 256;
  }

  method SetUint16(buf: array<Byte>, at: nat, n: nat)
    requires at + 2 <= buf.Length
    modifies buf
    ensures buf[..] == old(buf[..at]) + Le2(n) + old(buf[at + 2..])
  {
    buf[at] := n % 256;
    buf[at + 1] := n / 256 % 256;
  }

  method SetBytes(buf: array<Byte>, at: nat, b: Bytes)
    requires at + |b| <= buf.Length
    modifies buf
    ensures buf[..] == old(buf[..at]) + b + old(buf[at + |b|..])
  {
    for i := 0 to |b|
      invariant buf[..at] == old(buf[..at])
      invariant buf[at..at + i] == b[..i]
      invariant buf[at + i..] == old(buf[at + i..])
    {
      buf[at + i] := b[i];
    }
    assert b[..|b|] == b;
    assert buf[..] == buf[..at] + buf[at..at + |b|] + buf[at + |b|..];
  }

  method EncodeFrame(kind: nat, ref: nat, topicId: nat, payload: Bytes) returns (buf: array<Byte>)
    ensures fresh(buf) && buf[..] == FrameBytes(kind, ref, topicId, payload)
  {
    buf := new Byte[HEADER_SIZE + |payload|](_ => 0);
    buf[0] := kind % 256;
    SetUint32(buf, 1, ref);
    SetUint16(buf, 5, topicId);
    SetBytes(buf, HEADER_SIZE, payload);
    assert buf[..7] == [kind % 256] + Le4(ref) + Le2(topicId);
  }

  // ---- Packed lists of blobs ----

  function Chunk(e: Bytes): Bytes {
    Le4(|e|) + e
  }

  function Chunks(es: seq<Bytes>): Bytes {
    if es == [] then [] else Chunk(es[0]) + Chunks(es[1..])
  }

  /** `pack_envelopes` of the server. */
  function ServerPack(es: seq<Bytes>): Bytes {
    Le4(|es|) + Chunks(es)
  }

  lemma {:induction false} ChunksAppend(es: seq<Bytes>, e: Bytes)
    ensures Chunks(es + [e]) == Chunks(es) + Chunk(e)
  {
    if es == [] {
      assert [e][1..] == [];
      assert Chunks([e]) == Chunk(e) + Chunks([]);
    } else {
      assert (es + [e])[1..] == es[1..] + [e];
      ChunksAppend(es[1..], e);
    }
  }

  lemma PrefixStep(es: seq<Bytes>, i: nat)
    requires i < |es|
    ensures Chunks(es[..i + 1]) == Chunks(es[..i]) + Chunk(es[i])
  {
    assert es[..i + 1] == es[..i] + [es[i]];
    ChunksAppend(es[..i], es[i]);
  }

  lemma {:induction false} PrefixFits(es: seq<Bytes>, i: nat)
    requires i <= |es|
    ensures |Chunks(es[..i])| <= |Chunks(es)|
    decreases |es| - i
  {
    if i == |es| {
      assert es[..i] == es;
    } else {
      PrefixStep(es, i);
      PrefixFits(es, i + 1);
    }
  }

  /** Writing a length and a blob at `at` adds a chunk to what precedes it. */
  lemma ChunkWritten(s0: Bytes, s1: Bytes, s2: Bytes, at: nat, e: Bytes)
    requires at + 4 + |e| <= |s0|
    requires s1 == s0[..at] + Le4(|e|) + s0[at + 4..]
    requires s2 == s1[..at + 4] + e + s1[at + 4 + |e|..]
    ensures |s2| == |s0| && s2[..at + 4 + |e|] == s0[..at] + Chunk(e)
  {
    assert s1[..at + 4] == s0[..at] + Le4(|e|);
  }

  method PutChunk(buf: array<Byte>, at: nat, e: Bytes)
    requires at + 4 + |e| <= buf.Length
    modifies buf
    ensures buf[..at + 4 + |e|] == old(buf[..at]) + Chunk(e)
  {
    ghost var s0 := buf[..];
    SetUint32(buf, at, |e|);
    ghost var s1 := buf[..];
    SetBytes(buf, at + 4, e);
    ChunkWritten(s0, s1, buf[..], at, e);
    assert buf[..][..at + 4 + |e|] == buf[..at + 4 + |e|];
  }

  /** The client's packer fills a buffer of the precomputed length and produces
      the very bytes of the server's. */
  method PackEnvelopes(es: seq<Bytes>) returns (buf: array<Byte>)
    ensures fresh(buf) && buf[..] == ServerPack(es)
  {
    var totalLen := 4;
    for i := 0 to |es|
      invariant totalLen == 4 + |Chunks(es[..i])|
    {
      PrefixStep(es, i);
      totalLen := totalLen + 4 + |es[i]|;
    }
    assert es[..|es|] == es;
    buf := new Byte[totalLen](_ => 0);
    SetUint32(buf, 0, |es|);
    assert buf[..4] == Le4(|es|);
    FillChunks(buf, es);
  }

  method FillChunks(buf: array<Byte>, es: seq<Bytes>)
    requires buf.Length == 4 + |Chunks(es)|
    modifies buf
    ensures buf[..] == old(buf[..4]) + Chunks(es)
  {
    var offset := 4;
    ghost var count := buf[..4];
    assert count == count + Chunks(es[..0]);
    for i := 0 to |es|
      invariant offset == 4 + |Chunks(es[..i])| <= buf.Length
      invariant buf[..offset] == count + Chunks(es[..i])
    {
      PrefixStep(es, i);
      PrefixFits(es, i + 1);
      SumAssociates(count, Chunks(es[..i]), Chunk(es[i]));
      PutChunk(buf, offset, es[i]);
      offset := offset + 4 + |es[i]|;
    }
    assert es[..|es|] == es;
    assert buf[..offset] == buf[..];
  }

  // ---- Unpacking ----

  function Reverse(es: seq<Bytes>): seq<Bytes> {
    if es == [] then [] else Reverse(es[1..]) + [es[0]]
  }

  /** Whether a whole chunk stands at the front. */
  predicate ChunkAhead(rest: Bytes) {
    |rest| >= 4 && 4 + FromLe4(rest[..4]) <= |rest|
  }

  /** `unpack_envelopes_loop` of the server. */
  function UnpackLoop(rest: Bytes, n: nat, acc: seq<Bytes>): seq<Bytes>
    decreases n
  {
    if n == 0 then Reverse(acc)
    else if ChunkAhead(rest) then
      var len := FromLe4(rest[..4]);
      UnpackLoop(rest[4 + len..], n - 1, [rest[4..4 + len]] + acc)
    else Reverse(acc)
  }

  function ServerUnpack(data: Bytes): seq<Bytes> {
    if |data| < 4 then [] else UnpackLoop(data[4..], FromLe4(data[..4]), [])
  }

  /** The well-formed chunks at the front of `rest`, at most `n` of them. */
  function Leading(rest: Bytes, n: nat): seq<Bytes> {
    if n == 0 || !ChunkAhead(rest) then []
    else
      var len := FromLe4(rest[..4]);
      [rest[4..4 + len]] + Leading(rest[4 + len..], n - 1)
  }

  lemma {:induction false} UnpackLoopIsLeading(rest: Bytes, n: nat, acc: seq<Bytes>)
    ensures UnpackLoop(rest, n, acc) == Reverse(acc) + Leading(rest, n)
    decreases n
  {
    if n != 0 && ChunkAhead(rest) {
      var len := FromLe4(rest[..4]);
      var acc' := [rest[4..4 + len]] + acc;
      UnpackLoopIsLeading(rest[4 + len..], n - 1, acc');
      assert acc'[1..] == acc;
    }
  }

  lemma ServerUnpackIsLeading(data: Bytes)
    ensures ServerUnpack(data) == if |data| < 4 then [] else Leading(data[4..], FromLe4(data[..4]))
  {
    if |data| >= 4 {
      UnpackLoopIsLeading(data[4..], FromLe4(data[..4]), []);
    }
  }

  predicate Packable(es: seq<Bytes>) {
    forall i | 0 <= i < |es| :: |es[i]| < TWO_TO_32
  }

  lemma ChunkFront(e: Bytes, tail: Bytes)
    requires |e| < TWO_TO_32
    ensures
      var r := Chunk(e) + tail;
      ChunkAhead(r) && FromLe4(r[..4]) == |e| && r[4..4 + |e|] == e && r[4 + |e|..] == tail
  {
    Le4Exact(|e|);
    assert (Chunk(e) + tail)[..4] == Le4(|e|);
  }

  lemma ChunkAtFront(rest: Bytes)
    requires ChunkAhead(rest)
    ensures
      var len := FromLe4(rest[..4]);
      rest == Chunk(rest[4..4 + len]) + rest[4 + len..]
  {
    FromLe4RoundTrip(rest[..4]);
  }

  /** The chunks found are at most `n`, and a prefix of the bytes. */
  lemma {:induction false} LeadingIsPrefix(rest: Bytes, n: nat)
    ensures
      var found := Leading(rest, n);
      Packable(found) && |found| <= n && Chunks(found) <= rest
    decreases n
  {
    if n != 0 && ChunkAhead(rest) {
      var len := FromLe4(rest[..4]);
      ChunkAtFront(rest);
      LeadingIsPrefix(rest[4 + len..], n - 1);
      var found := Leading(rest, n);
      assert found[1..] == Leading(rest[4 + len..], n - 1);
      assert Chunks(found) == Chunk(found[0]) + Chunks(found[1..]);
    }
  }

  lemma PrefixSplits(front: Bytes, a: Bytes, rest: Bytes)
    requires front + a <= rest
    ensures rest == front + rest[|front|..] && a <= rest[|front|..]
  {
    assert (front + a)[|front|..] == a;
    assert rest[..|front|] == front;
  }

  /** No list of chunks that is a prefix of the bytes is longer. */
  lemma {:induction false} LeadingIsLongest(rest: Bytes, n: nat, es: seq<Bytes>)
    requires Packable(es) && |es| <= n && Chunks(es) <= rest
    ensures es <= Leading(rest, n)
    decreases n
  {
    if es != [] {
      var e, more := es[0], es[1..];
      var tail := rest[|Chunk(e)|..];
      assert es == [e] + more;
      PrefixSplits(Chunk(e), Chunks(more), rest);
      ChunkFront(e, tail);
      LeadingIsLongest(tail, n - 1, more);
      LeadingStep(rest, n, e, tail);
    }
  }

  lemma LeadingStep(rest: Bytes, n: nat, e: Bytes, tail: Bytes)
    requires n > 0 && |e| < TWO_TO_32 && rest == Chunk(e) + tail
    ensures Leading(rest, n) == [e] + Leading(tail, n - 1)
  {
    ChunkFront(e, tail);
    assert rest[|Chunk(e)|..] == tail;
  }

  /** On arbitrary bytes the server returns the longest well-formed prefix of
      the body, up to the declared count; nothing when there is no count. */
  lemma ServerUnpackLongest(data: Bytes, es: seq<Bytes>)
    requires Packable(es)
    ensures
      var r := ServerUnpack(data);
      if |data| < 4 then r == []
      else
        && Packable(r) && |r| <= FromLe4(data[..4]) && Chunks(r) <= data[4..]
        && (|es| <= FromLe4(data[..4]) && Chunks(es) <= data[4..] ==> es <= r)
  {
    if |data| >= 4 {
      ServerUnpackIsLeading(data);
      LeadingIsPrefix(data[4..], FromLe4(data[..4]));
      if |es| <= FromLe4(data[..4]) && Chunks(es) <= data[4..] {
        LeadingIsLongest(data[4..], FromLe4(data[..4]), es);
      }
    }
  }

  /** `None`: reading a length threw. The rest of the data may be cut short, as
      `subarray` clamps. */
  function ClientTail(rest: Bytes, n: nat): Option<seq<Bytes>>
    decreases n
  {
    if n == 0 || rest == [] then Some([])
    else if |rest| < 4 then None
    else
      var end := Min(4 + FromLe4(rest[..4]), |rest|);
      match ClientTail(rest[end..], n - 1)
      case None => None
      case Some(es) => Some([rest[4..end]] + es)
  }

  function ClientUnpack(data: Bytes): Option<seq<Bytes>> {
    if |data| < 4 then Some([]) else ClientTail(data[4..], FromLe4(data[..4]))
  }

  /** What the client's loop still reads from `offset` on. */
  function ClientFrom(data: Bytes, offset: nat, n: nat): Option<seq<Bytes>> {
    ClientTail(if offset < |data| then data[offset..] else [], n)
  }

  lemma ClientReads(data: Bytes, offset: nat, n: nat)
    requires offset + 4 <= |data| && n > 0
    ensures
      var len := FromLe4(data[offset..offset + 4]);
      var blob := data[offset + 4..Min(offset + 4 + len, |data|)];
      ClientFrom(data, offset, n) == Prepend([blob], ClientFrom(data, offset + 4 + len, n - 1))
  {
    var rest := data[offset..];
    assert rest[..4] == data[offset..offset + 4];
    var end := Min(4 + FromLe4(rest[..4]), |rest|);
    assert rest[4..end] == data[offset + 4..offset + end];
    assert rest[end..] == data[offset + end..];
  }

  function Prepend(es: seq<Bytes>, tail: Option<seq<Bytes>>): Option<seq<Bytes>> {
    match tail
    case None => None
    case Some(t) => Some(es + t)
  }

  lemma PrependTwice(es: seq<Bytes>, e: Bytes, tail: Option<seq<Bytes>>)
    ensures Prepend(es, Prepend([e], tail)) == Prepend(es + [e], tail)
  {
    if tail.Some? {
      assert es + ([e] + tail.value) == (es + [e]) + tail.value;
    }
  }

  /** `unpackEnvelopes` of the client. */
  method UnpackEnvelopes(data: Bytes) returns (out: Option<seq<Bytes>>)
    ensures out == ClientUnpack(data)
  {
    if |data| < 4 {
      return Some([]);
    }
    var count := FromLe4(data[..4]);
    var es: seq<Bytes> := [];
    var offset: nat := 4;
    var i: nat := 0;
    ClientStarts(data);
    while i < count && offset < |data|
      invariant i <= count
      invariant Prepend(es, ClientFrom(data, offset, count - i)) == ClientUnpack(data)
    {
      if offset + 4 > |data| {
        return None;
      }
      var len := FromLe4(data[offset..offset + 4]);
      var blob := data[offset + 4..Min(offset + 4 + len, |data|)];
      ClientReads(data, offset, count - i);
      PrependTwice(es, blob, ClientFrom(data, offset + 4 + len, count - i - 1));
      es := es + [blob];
      offset := offset + 4 + len;
      i := i + 1;
    }
    assert es + [] == es;
    out := Some(es);
  }

  lemma ClientStarts(data: Bytes)
    requires |data| >= 4
    ensures Prepend([], ClientFrom(data, 4, FromLe4(data[..4]))) == ClientUnpack(data)
  {
    var tail := ClientFrom(data, 4, FromLe4(data[..4]));
    if |data| == 4 {
      assert data[4..] == [];
    }
    if tail.Some? {
      assert [] + tail.value == tail.value;
    }
  }

  /** The two read one blob after the other alike, or both conditions fail. */
  ghost predicate TailsAgree(rest: Bytes, n: nat) {
    var found := Leading(rest, n);
    ClientTail(rest, n) == Some(found) <==> |found| == n || Chunks(found) == rest
  }

  lemma AgreeAtZero(rest: Bytes)
    ensures TailsAgree(rest, 0)
  {
  }

  lemma AgreeAtEnd(rest: Bytes, n: nat)
    requires n > 0 && !ChunkAhead(rest)
    ensures TailsAgree(rest, n)
  {
    assert Leading(rest, n) == [];
  }

  lemma AheadParts(rest: Bytes, n: nat, blob: Bytes, tail: Bytes)
    requires n > 0 && |blob| < TWO_TO_32 && rest == Chunk(blob) + tail
    ensures Leading(rest, n) == [blob] + Leading(tail, n - 1)
    ensures
      ClientTail(rest, n)
      == (match ClientTail(tail, n - 1)
          case None => None
          case Some(es) => Some([blob] + es))
  {
    ChunkFront(blob, tail);
    LeadingStep(rest, n, blob, tail);
  }

  lemma AgreeAhead(rest: Bytes, n: nat, blob: Bytes, tail: Bytes)
    requires n > 0 && |blob| < TWO_TO_32 && rest == Chunk(blob) + tail && TailsAgree(tail, n - 1)
    ensures TailsAgree(rest, n)
  {
    var found := Leading(tail, n - 1);
    AheadParts(rest, n, blob, tail);
    FrontChunk(blob, found);
    SameTails(Chunk(blob), Chunks(found), tail);
    ConsSome(blob, ClientTail(tail, n - 1), found);
  }

  lemma {:induction false} TailsAgreeIff(rest: Bytes, n: nat)
    ensures TailsAgree(rest, n)
    decreases n
  {
    if n == 0 {
      AgreeAtZero(rest);
    } else if ChunkAhead(rest) {
      var len := FromLe4(rest[..4]);
      TailsAgreeIff(rest[4 + len..], n - 1);
      ChunkAtFront(rest);
      AgreeAhead(rest, n, rest[4..4 + len], rest[4 + len..]);
    } else {
      AgreeAtEnd(rest, n);
    }
  }

  lemma FrontChunk(blob: Bytes, es: seq<Bytes>)
    ensures Chunks([blob] + es) == Chunk(blob) + Chunks(es)
  {
    assert ([blob] + es)[1..] == es;
  }

  lemma SameTails(front: Bytes, a: Bytes, b: Bytes)
    ensures front + a == front + b <==> a == b
  {
    assert (front + a)[|front|..] == a && (front + b)[|front|..] == b;
  }

  lemma ConsSome(blob: Bytes, es: Option<seq<Bytes>>, found: seq<Bytes>)
    ensures (es.Some? && [blob] + es.value == [blob] + found) <==> es == Some(found)
  {
    assert ([blob] + found)[1..] == found;
    if es.Some? {
      assert ([blob] + es.value)[1..] == es.value;
    }
  }

  lemma AgreeOnLeading(data: Bytes)
    ensures
      var r := ServerUnpack(data);
      ClientUnpack(data) == Some(r)
      <==> |data| < 4 || |r| == FromLe4(data[..4]) || Chunks(r) == data[4..]
  {
    ServerUnpackIsLeading(data);
    if |data| >= 4 {
      TailsAgreeIff(data[4..], FromLe4(data[..4]));
    }
  }

  /** The data is too short for a count, or its body starts with as many whole
      chunks as declared, or consists of whole chunks, no more than declared. */
  ghost predicate WholeChunks(data: Bytes) {
    || |data| < 4
    || exists es :: Fills(data, es)
  }

  ghost predicate Fills(data: Bytes, es: seq<Bytes>)
    requires |data| >= 4
  {
    && Packable(es) && |es| <= FromLe4(data[..4]) && Chunks(es) <= data[4..]
    && (|es| == FromLe4(data[..4]) || Chunks(es) == data[4..])
  }

  lemma SumAssociates<T>(a: seq<T>, b: seq<T>, c: seq<T>)
    ensures a + (b + c) == (a + b) + c
  {
  }

  lemma {:induction false} ChunksOfSum(a: seq<Bytes>, b: seq<Bytes>)
    ensures Chunks(a + b) == Chunks(a) + Chunks(b)
  {
    if a == [] {
      assert a + b == b;
    } else {
      var e, more := [a[0]], a[1..];
      ChunksOfSum(more, b);
      SumAssociates(e, more, b);
      FrontChunk(a[0], more + b);
      FrontChunk(a[0], more);
      SumAssociates(Chunk(a[0]), Chunks(more), Chunks(b));
      assert a == e + more;
    }
  }

  lemma FillsAgrees(data: Bytes, es: seq<Bytes>)
    requires |data| >= 4 && Fills(data, es)
    ensures
      var r := ServerUnpack(data);
      |r| == FromLe4(data[..4]) || Chunks(r) == data[4..]
  {
    var r := ServerUnpack(data);
    ServerUnpackLongest(data, es);
    assert r == es + r[|es|..];
    ChunksOfSum(es, r[|es|..]);
  }

  /** The two unpackers agree exactly on such data. */
  lemma UnpackersAgreeIff(data: Bytes)
    ensures ClientUnpack(data) == Some(ServerUnpack(data)) <==> WholeChunks(data)
  {
    AgreeOnLeading(data);
    if |data| >= 4 {
      var r := ServerUnpack(data);
      ServerUnpackLongest(data, []);
      if |r| == FromLe4(data[..4]) || Chunks(r) == data[4..] {
        assert Fills(data, r);
      }
      if es :| Fills(data, es) {
        FillsAgrees(data, es);
      }
    }
  }

  /** One blob of five bytes announced, one byte there: the server drops it, the
      client hands it out cut short. */
  lemma UnpackersDiffer()
    ensures
      var data: Bytes := [1, 0, 0, 0, 5, 0, 0, 0, 7];
      ServerUnpack(data) == [] && ClientUnpack(data) == Some([[7]])
  {
    var data: Bytes := [1, 0, 0, 0, 5, 0, 0, 0, 7];
    var rest: Bytes := [5, 0, 0, 0, 7];
    assert data[..4] == [1, 0, 0, 0] && data[4..] == rest;
    assert FromLe4([1, 0, 0, 0]) == 1;
    assert rest[..4] == [5, 0, 0, 0] && FromLe4([5, 0, 0, 0]) == 5;
    assert !ChunkAhead(rest);
    assert UnpackLoop(rest, 1, []) == Reverse([]) == [];
    var end := Min(4 + FromLe4(rest[..4]), |rest|);
    assert end == 5 && rest[4..end] == [7] && rest[end..] == [];
    assert ClientTail(rest[end..], 0) == Some([]);
    assert ClientTail(rest, 1) == Some([rest[4..end]] + []);
    assert [rest[4..end]] + [] == [[7]];
    assert ServerUnpack(data) == UnpackLoop(rest, 1, []);
    assert ClientUnpack(data) == ClientTail(rest, 1);
  }

  lemma {:induction false} LeadingOfChunks(es: seq<Bytes>)
    requires Packable(es)
    ensures Leading(Chunks(es), |es|) == es
  {
    if es != [] {
      LeadingOfChunks(es[1..]);
      LeadingStep(Chunks(es), |es|, es[0], Chunks(es[1..]));
      assert es == [es[0]] + es[1..];
    }
  }

  /** Either unpacker undoes either packer on every list whose count and
      lengths fit 32 bits. */
  lemma UnpackPack(es: seq<Bytes>)
    requires Packable(es) && |es| < TWO_TO_32
    ensures ServerUnpack(ServerPack(es)) == es
    ensures ClientUnpack(ServerPack(es)) == Some(es)
  {
    var data := ServerPack(es);
    PackedParts(es);
    LeadingOfChunks(es);
    ServerUnpackIsLeading(data);
    AgreeOnLeading(data);
  }

  lemma PackedParts(es: seq<Bytes>)
    requires |es| < TWO_TO_32
    ensures
      var data := ServerPack(es);
      |data| >= 4 && data[4..] == Chunks(es) && FromLe4(data[..4]) == |es|
  {
    Le4Exact(|es|);
    PrefixOf(Le4(|es|), Chunks(es));
  }

  lemma PrefixOf(a: Bytes, b: Bytes)
    ensures (a + b)[..|a|] == a && (a + b)[|a|..] == b
  {
  }
}
