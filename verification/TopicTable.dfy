/** The server side of a socket: the topic table of
    `apps/gateway/lib/gateway/binary_socket.ex`, from raw frames to replies. */
module TopicTable {
  import opened Base
  import opened Frame

  /** Topic names are the bytes on the wire. */
  type Topic = Bytes

  function Ascii(s: string): (r: Bytes)
    ensures |r| == |s|
  {
    seq(|s|, i requires 0 <= i < |s| => (s[i] as int) % 256)
  }

  const CHANNEL: Bytes := Ascii("channel:")
  const LOBBY: Bytes := Ascii("lobby:")
  const PRESENCE: Bytes := Ascii("presence:")

  const MAX_TOPIC_ID: nat := 0xFFFF

  datatype Info = Info(topic: Topic, channelId: Option<Bytes>, pubsub: Option<Bytes>)

  /** The part of the socket state that joins and leaves change. `tenant` is the
      hexadecimal tenant id. */
  datatype Server = Server(
    tenant: Bytes,
    topics: map<Topic, nat>,
    nextTopicId: nat,
    topicIds: map<nat, Info>,
    pubsubTopics: map<Bytes, nat>)

  /** The answer of the membership table. */
  datatype Membership = Member | NotMember | CheckFailed

  /** What a dispatched event answers, if it answers at all. */
  datatype Answer = Silent | Answer(status: Byte, data: Bytes)

  datatype JoinResult = Allocated(id: nat, state: Server) | Refused(reason: Bytes) | JoinCrashed

  function Opened(tenant: Bytes): Server {
    Server(tenant, map[], 1, map[], map[])
  }

  predicate HasPrefix(b: Bytes, prefix: Bytes) {
    prefix <= b
  }

  predicate HexDigit(b: Byte) {
    48 <= b <= 57 || 65 <= b <= 70 || 97 <= b <= 102
  }

  /** Sixteen bytes in hexadecimal, in either case. */
  predicate ChannelHex(b: Bytes) {
    |b| == 32 && forall i | 0 <= i < |b| :: HexDigit(b[i])
  }

  /** "<tenant>:channel:<id>" and "<tenant>:presence:<id>". */
  function PubsubOf(tenant: Bytes, topic: Topic): Bytes {
    tenant + Ascii(":") + topic
  }

  function Register(s: Server, info: Info): Server {
    var id := s.nextTopicId;
    s.(topics := s.topics[info.topic := id],
       nextTopicId := id + 1,
       topicIds := s.topicIds[id := info],
       pubsubTopics := if info.pubsub.Some? then s.pubsubTopics[info.pubsub.value := id] else s.pubsubTopics)
  }

  function DoJoin(s: Server, topic: Topic, m: Membership): JoinResult {
    var full := s.nextTopicId > MAX_TOPIC_ID;
    if HasPrefix(topic, CHANNEL) then
      var hex := topic[|CHANNEL|..];
      if !ChannelHex(hex) then JoinCrashed   // the reason is an atom, which the reply cannot hold
      else if full then Refused(Ascii("too_many_topics"))
      else match m
           case Member =>
             Allocated(s.nextTopicId, Register(s, Info(topic, Some(hex), Some(PubsubOf(s.tenant, topic)))))
           case NotMember => Refused(Ascii("not_a_member"))
           case CheckFailed => Refused(Ascii("membership_check_failed"))
    else if HasPrefix(topic, LOBBY) then
      if full then Refused(Ascii("too_many_topics"))
      else Allocated(s.nextTopicId, Register(s, Info(topic, None, None)))
    else if HasPrefix(topic, PRESENCE) then
      if full then Refused(Ascii("too_many_topics"))
      else
        Allocated(s.nextTopicId,
                  Register(s, Info(topic, Some(topic[|PRESENCE|..]), Some(PubsubOf(s.tenant, topic)))))
    else Refused(Ascii("unknown_topic"))
  }

  function ReplyBytes(ref: nat, id: nat, status: Byte, data: Bytes): Bytes {
    FrameBytes(REPLY, ref, id, [status] + data)
  }

  /** What one input does: the frames sent back, and the new state. `dispatched`
      names the topic that a push was dispatched against. */
  datatype Effect = Effect(out: Option<Bytes>, state: Server, dispatched: Option<Topic>) | Crash

  function HandleJoin(s: Server, ref: nat, topic: Topic, m: Membership): Effect {
    match DoJoin(s, topic, m)
    case Allocated(id, s') => Effect(Some(ReplyBytes(ref, id, STATUS_OK, [])), s', None)
    case Refused(reason) => Effect(Some(ReplyBytes(ref, 0, STATUS_ERROR, reason)), s, None)
    case JoinCrashed => Crash
  }

  function HandleLeave(s: Server, id: nat): Server {
    if id !in s.topicIds then s
    else
      var info := s.topicIds[id];
      s.(topics := s.topics - {info.topic},
         topicIds := s.topicIds - {id},
         pubsubTopics := if info.pubsub.Some? then s.pubsubTopics - {info.pubsub.value} else s.pubsubTopics)
  }

  /** The events that make sense on a channel only. */
  predicate NeedsChannel(event: Byte) {
    event in {0x01, 0x03, 0x04, 0x05, 0x08, 0x09, 0x0A, 0x12, 0x13, 0x14, 0x0B, 0x0C, 0x0D}
  }

  function HandlePush(s: Server, ref: nat, id: nat, event: Byte, a: Answer): Effect {
    if id !in s.topicIds then
      Effect(Some(ReplyBytes(ref, id, STATUS_ERROR, Ascii("not_joined"))), s, None)
    else
      var info := s.topicIds[id];
      if NeedsChannel(event) && info.channelId.None? then
        Effect(Some(ReplyBytes(ref, id, STATUS_ERROR, Ascii("not_a_channel"))), s, Some(info.topic))
      else
        match a
        case Silent => Effect(None, s, Some(info.topic))
        case Answer(status, data) => Effect(Some(ReplyBytes(ref, id, status, data)), s, Some(info.topic))
  }

  /** `handle_in` on a binary frame. `m` and `a` are what the membership table
      and the event's handler would answer. */
  function HandleIn(s: Server, data: Bytes, m: Membership, a: Answer): Effect {
    match DecodeFrame(data)
    case None => Effect(None, s, None)
    case Some(p) =>
      if p.kind == JOIN && p.topicId == 0 then HandleJoin(s, p.ref, p.payload, m)
      else if p.kind == LEAVE && p.payload == [] then Effect(None, HandleLeave(s, p.topicId), None)
      else if p.kind == PUSH && p.payload != [] then HandlePush(s, p.ref, p.topicId, p.payload[0], a)
      else Effect(None, s, None)
  }

  /** The frame sent for a message published on `pubsub`, if it is subscribed. */
  function Broadcasting(s: Server, pubsub: Bytes, event: Byte, payload: Bytes): Option<Bytes> {
    if pubsub !in s.pubsubTopics then None
    else Some(FrameBytes(BROADCAST, 0, s.pubsubTopics[pubsub], [event] + payload))
  }

  // ---- Who may join, and what else is answered ----

  ghost predicate IsChannel(topic: Topic, hex: Bytes) {
    topic == Ascii("channel:") + hex
  }

  function HexLetters(): Bytes {
    Ascii("0123456789") + Ascii("abcdef") + Ascii("ABCDEF")
  }

  /** A channel needs 32 hexadecimal digits and a member; a lobby or a presence
      needs nothing; all need an unused id. */
  ghost predicate MayJoin(s: Server, topic: Topic, m: Membership) {
    && s.nextTopicId <= 65535
    && (|| (exists hex :: IsChannel(topic, hex) && |hex| == 32 && m == Member
              && forall i | 0 <= i < |hex| :: hex[i] in HexLetters())
        || Ascii("lobby:") <= topic
        || Ascii("presence:") <= topic)
  }

  lemma ConsecutiveLetters(s: string, first: nat, b: Byte)
    requires first + |s| <= 128 && forall i | 0 <= i < |s| :: s[i] as nat == first + i
    ensures b in Ascii(s) <==> first <= b < first + |s|
  {
    if first <= b < first + |s| {
      assert Ascii(s)[b - first] == b;
    }
  }

  lemma HexDigitsIff(b: Byte)
    ensures HexDigit(b) <==> b in HexLetters()
  {
    ConsecutiveLetters("0123456789", 48, b);
    ConsecutiveLetters("abcdef", 97, b);
    ConsecutiveLetters("ABCDEF", 65, b);
  }

  lemma PrefixesDiffer(topic: Topic)
    ensures !(CHANNEL <= topic && LOBBY <= topic)
    ensures !(CHANNEL <= topic && PRESENCE <= topic)
    ensures !(LOBBY <= topic && PRESENCE <= topic)
  {
    assert CHANNEL[0] == 99 && LOBBY[0] == 108 && PRESENCE[0] == 112;
  }

  lemma ChannelIff(topic: Topic, hex: Bytes)
    ensures IsChannel(topic, hex) <==> CHANNEL <= topic && topic[|CHANNEL|..] == hex
  {
    assert CHANNEL <= topic ==> topic == CHANNEL + topic[|CHANNEL|..];
  }

  /** A join is granted exactly to whoever may; in particular never to someone who
      is not a member of the channel. */
  lemma JoinGrantedIff(s: Server, topic: Topic, m: Membership)
    ensures DoJoin(s, topic, m).Allocated? <==> MayJoin(s, topic, m)
  {
    PrefixesDiffer(topic);
    if CHANNEL <= topic {
      var rest := topic[|CHANNEL|..];
      ChannelIff(topic, rest);
      forall i | 0 <= i < |rest| ensures HexDigit(rest[i]) <==> rest[i] in HexLetters() {
        HexDigitsIff(rest[i]);
      }
    }
    forall hex | IsChannel(topic, hex) ensures CHANNEL <= topic && hex == topic[|CHANNEL|..] {
      ChannelIff(topic, hex);
    }
  }

  /** Why a join is refused: the malformed channel id first, which crashes, then
      the ids, then the membership; and any other topic is unknown. */
  lemma JoinRefusedFor(s: Server, topic: Topic, m: Membership, hex: Bytes)
    ensures IsChannel(topic, hex) && !ChannelHex(hex) ==> DoJoin(s, topic, m) == JoinCrashed
    ensures IsChannel(topic, hex) && ChannelHex(hex) && s.nextTopicId > 65535 ==>
              DoJoin(s, topic, m) == Refused(Ascii("too_many_topics"))
    ensures IsChannel(topic, hex) && ChannelHex(hex) && s.nextTopicId <= 65535 && m == NotMember ==>
              DoJoin(s, topic, m) == Refused(Ascii("not_a_member"))
    ensures IsChannel(topic, hex) && ChannelHex(hex) && s.nextTopicId <= 65535 && m == CheckFailed ==>
              DoJoin(s, topic, m) == Refused(Ascii("membership_check_failed"))
    ensures (LOBBY <= topic || PRESENCE <= topic) && s.nextTopicId > 65535 ==>
              DoJoin(s, topic, m) == Refused(Ascii("too_many_topics"))
    ensures !(CHANNEL <= topic || LOBBY <= topic || PRESENCE <= topic) ==>
              DoJoin(s, topic, m) == Refused(Ascii("unknown_topic"))
  {
    PrefixesDiffer(topic);
    ChannelIff(topic, hex);
  }

  /** A granted join to a channel or a presence is listened to from then on, under
      the new id; what other topics hear does not change. */
  lemma JoinListens(s: Server, topic: Topic, m: Membership, pubsub: Bytes, event: Byte, payload: Bytes)
    requires DoJoin(s, topic, m).Allocated? && s.nextTopicId <= MAX_TOPIC_ID
    ensures
      var r := DoJoin(s, topic, m);
      var frame := Broadcasting(r.state, pubsub, event, payload);
      if pubsub == PubsubOf(s.tenant, topic) && !(LOBBY <= topic) then
        frame.Some? && DecodeFrame(frame.value) == Some(Parts(BROADCAST, 0, r.id, [event] + payload))
      else frame == Broadcasting(s, pubsub, event, payload)
  {
    PrefixesDiffer(topic);
    DecodeEncode(BROADCAST, 0, s.nextTopicId, [event] + payload);
  }

  /** A leave of a held id forgets the id, its topic and its broadcasts, and nothing
      else; a leave of any other id does nothing. */
  lemma LeaveForgets(s: Server, id: nat, pubsub: Bytes, event: Byte, payload: Bytes)
    requires Inv(s)
    ensures id !in s.topicIds ==> HandleLeave(s, id) == s
    ensures id in s.topicIds ==>
              var s', info := HandleLeave(s, id), s.topicIds[id];
              && id !in s'.topicIds && info.topic !in s'.topics
              && (forall i | i != id :: (i in s'.topicIds <==> i in s.topicIds)
                    && (i in s.topicIds ==> s'.topicIds[i] == s.topicIds[i]))
              && (forall t | t != info.topic :: (t in s'.topics <==> t in s.topics)
                    && (t in s.topics ==> s'.topics[t] == s.topics[t]))
              && s'.nextTopicId == s.nextTopicId
              && Broadcasting(s', pubsub, event, payload)
                 == if info.pubsub == Some(pubsub) then None else Broadcasting(s, pubsub, event, payload)
  {
  }

  /** A push to an id that is not held, and an event of channels elsewhere, get the
      error that says so; any other push gets exactly what its handler answers. */
  lemma PushIsAnswered(s: Server, ref: nat, id: nat, event: Byte, a: Answer)
    requires ref < TWO_TO_32 && id <= MAX_TOPIC_ID
    ensures
      var e := HandlePush(s, ref, id, event, a);
      var answer: Option<Bytes> :=
        if id !in s.topicIds then Some([STATUS_ERROR] + Ascii("not_joined"))
        else if NeedsChannel(event) && s.topicIds[id].channelId.None? then Some([STATUS_ERROR] + Ascii("not_a_channel"))
        else if a.Silent? then None
        else Some([a.status] + a.data);
      && e.Effect? && e.state == s
      && (e.out.None? <==> answer.None?)
      && (answer.Some? ==> DecodeFrame(e.out.value) == Some(Parts(REPLY, ref, id, answer.value)))
  {
    DecodeEncode(REPLY, ref, id, [STATUS_ERROR] + Ascii("not_joined"));
    DecodeEncode(REPLY, ref, id, [STATUS_ERROR] + Ascii("not_a_channel"));
    if a.Answer? {
      DecodeEncode(REPLY, ref, id, [a.status] + a.data);
    }
  }

  /** Of the bytes 0x01 to 0x14, all need a channel but new messages, key packages,
      channel creation, presence and status. */
  lemma NeedsChannelIff(event: Byte)
    ensures NeedsChannel(event)
            <==> 0x01 <= event <= 0x14 && event !in {0x02, 0x06, 0x07, 0x0E, 0x0F, 0x10, 0x11}
  {
  }

  /** The frame of a leave is handled as that leave, and answered by nothing. */
  lemma LeaveIsHandled(s: Server, ref: nat, id: nat, m: Membership, a: Answer)
    requires id <= MAX_TOPIC_ID
    ensures HandleIn(s, FrameBytes(LEAVE, ref, id, []), m, a) == Effect(None, HandleLeave(s, id), None)
  {
    DecodeEncode(LEAVE, ref, id, []);
  }

  /** Frames of no other shape do anything: a join names no id, a leave carries
      nothing, and a push carries an event. */
  lemma OtherFramesDoNothing(s: Server, data: Bytes, m: Membership, a: Answer)
    requires
      var p := DecodeFrame(data);
      && !(p.Some? && p.value.kind == JOIN && p.value.topicId == 0)
      && !(p.Some? && p.value.kind == LEAVE && p.value.payload == [])
      && !(p.Some? && p.value.kind == PUSH && p.value.payload != [])
    ensures HandleIn(s, data, m, a) == Effect(None, s, None)
  {
  }

  // ---- The invariant ----

  predicate GoodInfo(tenant: Bytes, info: Info) {
    info.pubsub.Some? ==> info.pubsub.value == PubsubOf(tenant, info.topic)
  }

  /** Both name tables point to live ids that name them back. */
  ghost predicate Inv(s: Server) {
    && 1 <= s.nextTopicId <= MAX_TOPIC_ID + 1
    && (forall id | id in s.topicIds :: 1 <= id < s.nextTopicId && GoodInfo(s.tenant, s.topicIds[id]))
    && (forall t | t in s.topics :: s.topics[t] in s.topicIds && s.topicIds[s.topics[t]].topic == t)
    && (forall p | p in s.pubsubTopics ::
          s.pubsubTopics[p] in s.topicIds && s.topicIds[s.pubsubTopics[p]].pubsub == Some(p))
  }

  lemma RegisterKeepsInv(s: Server, info: Info)
    requires Inv(s) && s.nextTopicId <= MAX_TOPIC_ID && GoodInfo(s.tenant, info)
    ensures Inv(Register(s, info))
  {
  }

  lemma LeaveKeepsInv(s: Server, id: nat)
    requires Inv(s)
    ensures Inv(HandleLeave(s, id))
  {
  }

  /** What a granted join adds: the very next id, bound to the asked topic. */
  lemma JoinGrants(s: Server, topic: Topic, m: Membership)
    requires Inv(s) && DoJoin(s, topic, m).Allocated?
    ensures
      var r := DoJoin(s, topic, m);
      && Inv(r.state)
      && r.id == s.nextTopicId == r.state.nextTopicId - 1
      && r.id !in s.topicIds
      && r.id in r.state.topicIds && r.state.topicIds[r.id].topic == topic
      && (forall id | id in s.topicIds :: id in r.state.topicIds && r.state.topicIds[id] == s.topicIds[id])
  {
    RegisterKeepsInv(s, DoJoin(s, topic, m).state.topicIds[s.nextTopicId]);
  }

  /** The name table takes the topic under the new id and keeps all others; what is
      on record as its channel is what follows the prefix, and nothing for a lobby. */
  lemma JoinFiles(s: Server, topic: Topic, m: Membership, rest: Bytes)
    requires DoJoin(s, topic, m).Allocated?
    ensures
      var r := DoJoin(s, topic, m);
      && topic in r.state.topics && r.state.topics[topic] == r.id && r.id in r.state.topicIds
      && (forall t | t != topic :: (t in r.state.topics <==> t in s.topics)
            && (t in s.topics ==> r.state.topics[t] == s.topics[t]))
      && (LOBBY <= topic ==> r.state.topicIds[r.id].channelId == None)
      && (IsChannel(topic, rest) || topic == Ascii("presence:") + rest ==>
            r.state.topicIds[r.id].channelId == Some(rest))
  {
    PrefixesDiffer(topic);
    ChannelIff(topic, rest);
    if topic == PRESENCE + rest {
      assert topic[|PRESENCE|..] == rest;
    }
  }

  lemma HandleInKeepsInv(s: Server, data: Bytes, m: Membership, a: Answer)
    requires Inv(s) && HandleIn(s, data, m, a).Effect?
    ensures
      var s' := HandleIn(s, data, m, a).state;
      Inv(s') && s.nextTopicId <= s'.nextTopicId && s'.tenant == s.tenant
  {
    if DecodeFrame(data).Some? {
      var p := DecodeFrame(data).value;
      if p.kind == JOIN && p.topicId == 0 {
        if DoJoin(s, p.payload, m).Allocated? {
          JoinGrants(s, p.payload, m);
        }
      } else if p.kind == LEAVE && p.payload == [] {
        LeaveKeepsInv(s, p.topicId);
      }
    }
  }

  // ---- Runs ----

  datatype Input =
    | Incoming(data: Bytes, member: Membership, answer: Answer)
    | Published(pubsub: Bytes, event: Byte, payload: Bytes)

  /** The id that a client reads from the reply to its join, if it was granted. */
  function GrantedBy(data: Bytes, out: Option<Bytes>): Option<nat> {
    match (DecodeFrame(data), if out.Some? then DecodeFrame(out.value) else None)
    case (Some(asked), Some(reply)) =>
      if asked.kind == JOIN && reply.kind == REPLY && reply.payload != [] && reply.payload[0] == STATUS_OK then
        Some(reply.topicId)
      else None
    case _ => None
  }

  /** A run of one socket: its state, and as history the ids that its join replies
      granted and the broadcast frames it sent, each with its pubsub topic and the table at
      that moment. */
  datatype Socket = Socket(state: Server, granted: seq<nat>, sent: seq<(Bytes, Bytes, Server)>)

  function Step(k: Socket, i: Input): Option<Socket> {
    match i
    case Published(pubsub, event, payload) =>
      (match Broadcasting(k.state, pubsub, event, payload)
       case None => Some(k)
       case Some(frame) => Some(k.(sent := k.sent + [(pubsub, frame, k.state)])))
    case Incoming(data, m, a) =>
      match HandleIn(k.state, data, m, a)
      case Crash => None
      case Effect(out, s', _) =>
        Some(k.(state := s',
                granted := match GrantedBy(data, out)
                           case None => k.granted
                           case Some(id) => k.granted + [id]))
  }

  function Run(tenant: Bytes, inputs: seq<Input>): Option<Socket> {
    if inputs == [] then Some(Socket(Opened(tenant), [], []))
    else
      match Run(tenant, inputs[..|inputs| - 1])
      case None => None
      case Some(k) => Step(k, inputs[|inputs| - 1])
  }

  /** The frame names an id that the table held for exactly this topic. */
  ghost predicate GoodBroadcast(tenant: Bytes, pubsub: Bytes, frame: Bytes, at: Server) {
    exists id: nat, topic: Topic ::
      && id in at.topicIds && at.topicIds[id].topic == topic
      && pubsub == PubsubOf(tenant, topic)
      && DecodeFrame(frame).Some? && DecodeFrame(frame).value.topicId == id
      && DecodeFrame(frame).value.kind == BROADCAST
  }

  lemma BroadcastIsGood(s: Server, pubsub: Bytes, event: Byte, payload: Bytes)
    requires Inv(s) && Broadcasting(s, pubsub, event, payload).Some?
    ensures GoodBroadcast(s.tenant, pubsub, Broadcasting(s, pubsub, event, payload).value, s)
  {
    var id := s.pubsubTopics[pubsub];
    DecodeEncode(BROADCAST, 0, id, [event] + payload);
    assert s.topicIds[id].topic == s.topicIds[id].topic;
  }

  /** Ids are handed out in the order 1, 2, 3, up to 65535, both name tables are
      consistent, and every broadcast frame carried an id that was joined to that
      very topic. */
  ghost predicate Safe(tenant: Bytes, k: Socket) {
    && Inv(k.state) && k.state.tenant == tenant
    && k.state.nextTopicId == |k.granted| + 1 && |k.granted| <= MAX_TOPIC_ID
    && (forall i | 0 <= i < |k.granted| :: k.granted[i] == i + 1)
    && (forall b | b in k.sent :: GoodBroadcast(tenant, b.0, b.1, b.2))
  }

  lemma PublishedKeepsSafe(tenant: Bytes, k: Socket, pubsub: Bytes, event: Byte, payload: Bytes)
    requires Safe(tenant, k) && Step(k, Published(pubsub, event, payload)).Some?
    ensures Safe(tenant, Step(k, Published(pubsub, event, payload)).value)
  {
    if Broadcasting(k.state, pubsub, event, payload).Some? {
      BroadcastIsGood(k.state, pubsub, event, payload);
    }
  }

  lemma GrantedReply(p: Parts, data: Bytes, id: nat)
    requires DecodeFrame(data) == Some(p) && p.kind == JOIN && id <= MAX_TOPIC_ID
    ensures GrantedBy(data, Some(ReplyBytes(p.ref, id, STATUS_OK, []))) == Some(id)
  {
    DecodeEncode(REPLY, p.ref, id, [STATUS_OK] + []);
  }

  lemma RefusedReply(data: Bytes, ref: nat, reason: Bytes)
    ensures GrantedBy(data, Some(ReplyBytes(ref, 0, STATUS_ERROR, reason))) == None
  {
    DecodeEncode(REPLY, ref, 0, [STATUS_ERROR] + reason);
  }

  lemma NotAJoin(s: Server, data: Bytes, m: Membership, a: Answer)
    requires HandleIn(s, data, m, a).Effect?
    requires DecodeFrame(data).Some? && DecodeFrame(data).value.kind != JOIN
    ensures HandleIn(s, data, m, a).state.nextTopicId == s.nextTopicId
    ensures GrantedBy(data, HandleIn(s, data, m, a).out) == None
  {
  }

  /** A join reply grants exactly the id that the table now holds for the topic. */
  lemma JoinReplyNames(s: Server, data: Bytes, m: Membership, a: Answer)
    requires Inv(s) && HandleIn(s, data, m, a).Effect?
    ensures
      var e := HandleIn(s, data, m, a);
      match GrantedBy(data, e.out)
      case None => e.state.nextTopicId == s.nextTopicId
      case Some(id) =>
        && 1 <= s.nextTopicId == id <= MAX_TOPIC_ID && e.state.nextTopicId == id + 1
        && id in e.state.topicIds && e.state.topicIds[id].topic == DecodeFrame(data).value.payload
  {
    if DecodeFrame(data).Some? {
      var p := DecodeFrame(data).value;
      if p.kind != JOIN {
        NotAJoin(s, data, m, a);
      } else if p.topicId == 0 {
        match DoJoin(s, p.payload, m) {
          case Allocated(id, _) =>
            JoinGrants(s, p.payload, m);
            GrantedReply(p, data, id);
          case Refused(reason) => RefusedReply(data, p.ref, reason);
        }
      }
    }
  }

  lemma IncomingKeepsSafe(tenant: Bytes, k: Socket, data: Bytes, m: Membership, a: Answer)
    requires Safe(tenant, k) && Step(k, Incoming(data, m, a)).Some?
    ensures Safe(tenant, Step(k, Incoming(data, m, a)).value)
  {
    HandleInKeepsInv(k.state, data, m, a);
    JoinReplyNames(k.state, data, m, a);
  }

  /** Every run of joins, re-joins, leaves, pushes and broadcasts is safe; since
      ids only grow, none is ever reused. */
  lemma {:induction false} TopicSafety(tenant: Bytes, inputs: seq<Input>)
    requires Run(tenant, inputs).Some?
    ensures Safe(tenant, Run(tenant, inputs).value)
  {
    if inputs != [] {
      var n := |inputs| - 1;
      TopicSafety(tenant, inputs[..n]);
      var k := Run(tenant, inputs[..n]).value;
      match inputs[n]
      case Published(pubsub, event, payload) => PublishedKeepsSafe(tenant, k, pubsub, event, payload);
      case Incoming(data, m, a) => IncomingKeepsSafe(tenant, k, data, m, a);
    }
  }

  // ---- Members only ----

  /** A member joined the topic: some input is a join for it, answered so. */
  ghost predicate MemberJoined(inputs: seq<Input>, topic: Topic) {
    exists i :: 0 <= i < |inputs| && JoinsAsMember(inputs[i], topic)
  }

  predicate JoinsAsMember(i: Input, topic: Topic) {
    && i.Incoming? && i.member == Member
    && DecodeFrame(i.data).Some? && DecodeFrame(i.data).value.kind == JOIN && DecodeFrame(i.data).value.payload == topic
  }

  ghost predicate MembersOnly(inputs: seq<Input>, s: Server) {
    forall id | id in s.topicIds && CHANNEL <= s.topicIds[id].topic :: MemberJoined(inputs, s.topicIds[id].topic)
  }

  lemma LaterInputs(inputs: seq<Input>, i: Input, s: Server)
    requires MembersOnly(inputs, s)
    ensures MembersOnly(inputs + [i], s)
  {
    forall id | id in s.topicIds && CHANNEL <= s.topicIds[id].topic
      ensures MemberJoined(inputs + [i], s.topicIds[id].topic)
    {
      var j :| 0 <= j < |inputs| && JoinsAsMember(inputs[j], s.topicIds[id].topic);
      assert (inputs + [i])[j] == inputs[j];
    }
  }

  lemma LeaveAdds(s: Server, id: nat, i: nat)
    requires i in HandleLeave(s, id).topicIds
    ensures i in s.topicIds && s.topicIds[i] == HandleLeave(s, id).topicIds[i]
  {
  }

  lemma JoinAdds(s: Server, ref: nat, topic: Topic, m: Membership, i: nat)
    requires HandleJoin(s, ref, topic, m).Effect? && i in HandleJoin(s, ref, topic, m).state.topicIds
    ensures
      var info := HandleJoin(s, ref, topic, m).state.topicIds[i];
      || (i in s.topicIds && s.topicIds[i] == info)
      || (topic == info.topic && MayJoin(s, topic, m))
  {
    JoinGrantedIff(s, topic, m);
  }

  /** Whatever topic a frame adds to the table, the frame is a granted join for it. */
  lemma AddedByJoin(s: Server, data: Bytes, m: Membership, a: Answer, id: nat)
    requires HandleIn(s, data, m, a).Effect? && id in HandleIn(s, data, m, a).state.topicIds
    ensures
      var info := HandleIn(s, data, m, a).state.topicIds[id];
      || (id in s.topicIds && s.topicIds[id] == info)
      || (&& DecodeFrame(data).Some? && DecodeFrame(data).value.kind == JOIN
          && DecodeFrame(data).value.payload == info.topic && MayJoin(s, info.topic, m))
  {
    if DecodeFrame(data).Some? {
      var p := DecodeFrame(data).value;
      if p.kind == JOIN && p.topicId == 0 {
        JoinAdds(s, p.ref, p.payload, m, id);
      } else if p.kind == LEAVE && p.payload == [] {
        LeaveAdds(s, p.topicId, id);
      }
    }
  }

  lemma MayJoinAsMember(s: Server, topic: Topic, m: Membership)
    requires MayJoin(s, topic, m) && CHANNEL <= topic
    ensures m == Member
  {
    PrefixesDiffer(topic);
  }

  lemma IncomingAdmitsMembers(inputs: seq<Input>, s: Server, data: Bytes, m: Membership, a: Answer)
    requires MembersOnly(inputs, s) && HandleIn(s, data, m, a).Effect?
    ensures MembersOnly(inputs + [Incoming(data, m, a)], HandleIn(s, data, m, a).state)
  {
    var more, s' := inputs + [Incoming(data, m, a)], HandleIn(s, data, m, a).state;
    LaterInputs(inputs, Incoming(data, m, a), s);
    forall id | id in s'.topicIds && CHANNEL <= s'.topicIds[id].topic
      ensures MemberJoined(more, s'.topicIds[id].topic)
    {
      AddedByJoin(s, data, m, a, id);
      if !(id in s.topicIds && s.topicIds[id] == s'.topicIds[id]) {
        MayJoinAsMember(s, s'.topicIds[id].topic, m);
        assert JoinsAsMember(more[|inputs|], s'.topicIds[id].topic);
      }
    }
  }

  /** In every run a channel is in the table, and its broadcasts are sent, only if
      the membership table called the user a member when the channel was joined. */
  lemma {:induction false} ChannelsNeedMembers(tenant: Bytes, inputs: seq<Input>)
    requires Run(tenant, inputs).Some?
    ensures
      var k := Run(tenant, inputs).value;
      MembersOnly(inputs, k.state) && forall b | b in k.sent :: MembersOnly(inputs, b.2)
  {
    if inputs != [] {
      var n := |inputs| - 1;
      ChannelsNeedMembers(tenant, inputs[..n]);
      var k := Run(tenant, inputs[..n]).value;
      assert inputs == inputs[..n] + [inputs[n]];
      LaterInputs(inputs[..n], inputs[n], k.state);
      forall b | b in k.sent ensures MembersOnly(inputs, b.2) {
        LaterInputs(inputs[..n], inputs[n], b.2);
      }
      if inputs[n].Incoming? {
        IncomingAdmitsMembers(inputs[..n], k.state, inputs[n].data, inputs[n].member, inputs[n].answer);
      }
    }
  }

  /** Two topics never share a pubsub topic, so "that very topic" is one topic. */
  lemma PubsubInjective(tenant: Bytes, a: Topic, b: Topic)
    requires PubsubOf(tenant, a) == PubsubOf(tenant, b)
    ensures a == b
  {
    var n := |tenant| + 1;
    assert PubsubOf(tenant, a)[n..] == a && PubsubOf(tenant, b)[n..] == b;
  }
}
