/** One client and one server on one connection: bytes in two FIFO queues, and
    every interleaving of joins, pushes, heartbeats, handling, broadcasts and
    deliveries. */
module Connection {
  import opened Base
  import opened Frame
  import opened TopicTable
  import opened Transport

  /** What a caller of the client asked for, under some ref. */
  datatype Ask =
    | AskJoin(topic: Topic)
    | AskPush(topic: Topic, id: nat, event: Byte, payload: Bytes)
    | AskBeat

  /** The frame the client sends for it. */
  function WireOf(ref: nat, ask: Ask): Bytes {
    match ask
    case AskJoin(topic) => FrameBytes(JOIN, ref, 0, topic)
    case AskPush(_, id, event, payload) => FrameBytes(PUSH, ref, id, [event] + payload)
    case AskBeat => FrameBytes(HEARTBEAT, ref, 0, [])
  }

  /** The queues, and as history the refs of the queued requests and, for each
      queued answer, the ref it answers. */
  datatype Wires = Wires(toServer: seq<Bytes>, refs: seq<nat>, toClient: seq<Bytes>, tags: seq<Option<nat>>)

  /** History: what was asked, the frame the server answered with, the callbacks
      that ran, and the topics that pushes were dispatched against. */
  datatype History = History(
    asked: map<nat, Ask>,
    replies: map<nat, Bytes>,
    fired: seq<Fired>,
    dispatched: seq<(nat, Topic)>)

  datatype Conn = Conn(client: Client, server: Server, wires: Wires, h: History)

  datatype Event =
    | Join(topic: Topic)
    | Push(topic: Topic, event: Byte, payload: Bytes)
    | Beat
    | Serve(member: Membership, answer: Answer)
    | Publish(pubsub: Bytes, event: Byte, payload: Bytes)
    | Receive
    | Disconnect(fired: seq<Fired>)   // the order in which the waiting callbacks run

  const NoWires := Wires([], [], [], [])

  function Sending(w: Wires, isOpen: bool, ref: nat, ask: Ask): Wires {
    if isOpen then w.(toServer := w.toServer + [WireOf(ref, ask)], refs := w.refs + [ref]) else w
  }

  function Asking(h: History, ref: nat, ask: Ask): History {
    h.(asked := h.asked[ref := ask])
  }

  function Answering(w: Wires, out: Option<Bytes>, tag: Option<nat>): Wires {
    if out.None? then w else w.(toClient := w.toClient + [out.value], tags := w.tags + [tag])
  }

  function Served(h: History, ref: nat, out: Option<Bytes>, dispatched: Option<Topic>): History {
    h.(replies := if out.Some? then h.replies[ref := out.value] else h.replies,
       dispatched := if dispatched.Some? then h.dispatched + [(ref, dispatched.value)] else h.dispatched)
  }

  function Fire(h: History, f: Option<Fired>): History {
    if f.Some? then h.(fired := h.fired + [f.value]) else h
  }

  function ServeStep(k: Conn, m: Membership, a: Answer): Conn
    requires k.wires.toServer != [] && k.wires.refs != []
  {
    var w := k.wires;
    match HandleIn(k.server, w.toServer[0], m, a)
    case Crash => Conn(k.client.(isOpen := false), k.server, NoWires, k.h)
    case Effect(out, s', topic) =>
      var popped := w.(toServer := w.toServer[1..], refs := w.refs[1..]);
      Conn(k.client, s', Answering(popped, out, Some(w.refs[0])), Served(k.h, w.refs[0], out, topic))
  }

  function ReceiveStep(k: Conn): Conn
    requires k.wires.toClient != [] && k.wires.tags != []
  {
    var w := k.wires;
    Conn(AfterMessage(k.client, w.toClient[0]), k.server,
         w.(toClient := w.toClient[1..], tags := w.tags[1..]),
         Fire(k.h, FiredBy(k.client, w.toClient[0])))
  }

  /** The client takes its next ref for the request and, if open, sends it. */
  function AskStep(k: Conn, c': Client, ask: Ask): Conn {
    Conn(c', k.server, Sending(k.wires, k.client.isOpen, c'.ref, ask), Asking(k.h, c'.ref, ask))
  }

  function Step(k: Conn, e: Event): Option<Conn> {
    var c, w, h := k.client, k.wires, k.h;
    match e
    case Join(topic) => Some(AskStep(k, AfterJoin(c, topic), AskJoin(topic)))
    case Push(topic, event, payload) =>
      if topic !in c.topicNameToId || !c.isOpen then Some(k.(client := AfterPush(c, topic)))
      else Some(AskStep(k, AfterPush(c, topic), AskPush(topic, c.topicNameToId[topic], event, payload)))
    case Beat => Some(AskStep(k, c.(ref := c.ref + 1), AskBeat))
    case Serve(m, a) =>
      if w.toServer == [] || w.refs == [] then None else Some(ServeStep(k, m, a))
    case Publish(pubsub, event, payload) =>
      if !c.isOpen then None
      else Some(k.(wires := Answering(w, Broadcasting(k.server, pubsub, event, payload), None)))
    case Receive =>
      if w.toClient == [] || w.tags == [] then None else Some(ReceiveStep(k))
    case Disconnect(fired) =>
      if DistinctRefs(fired) && Refs(fired) == c.pendingReplies.Keys && AllDisconnected(fired) then
        Some(Conn(AfterDisconnect(c), k.server, NoWires, h.(fired := h.fired + fired)))
      else None
  }

  function Run(tenant: Bytes, events: seq<Event>): Option<Conn> {
    if events == [] then Some(Conn(Connected, Opened(tenant), NoWires, History(map[], map[], [], [])))
    else
      match Run(tenant, events[..|events| - 1])
      case None => None
      case Some(k) => Step(k, events[|events| - 1])
  }

  // ---- The invariant, part by part ----

  predicate Bound(s: Server, id: nat, topic: Topic) {
    id in s.topicIds && s.topicIds[id].topic == topic
  }

  /** The topic table only grows: no client frame is a leave. */
  predicate Grows(s: Server, s': Server) {
    forall id | id in s.topicIds :: id in s'.topicIds && s'.topicIds[id] == s.topicIds[id]
  }

  /** The client's maps against what was asked and what the server holds. */
  ghost predicate GoodClient(c: Client, asked: map<nat, Ask>, s: Server) {
    && (forall r | r in asked :: r <= c.ref)
    && (forall r | r in c.pendingJoinRefs :: r in asked && asked[r] == AskJoin(c.pendingJoinRefs[r]))
    && (forall r | r in c.pendingReplies :: r in asked)
    && (forall t | t in c.topicNameToId :: Bound(s, c.topicNameToId[t], t))
  }

  /** Pushes in the asked history name an id that is bound to their topic. */
  ghost predicate GoodPushes(asked: map<nat, Ask>, s: Server) {
    forall r | r in asked && asked[r].AskPush? :: Bound(s, asked[r].id, asked[r].topic)
  }

  /** Queued requests are the frames of what was asked, in the order of their
      refs, all later than anything answered so far. */
  ghost predicate GoodRequests(w: Wires, asked: map<nat, Ask>, replies: map<nat, Bytes>) {
    && |w.refs| == |w.toServer|
    && (forall i | 0 <= i < |w.refs| :: w.refs[i] in asked && w.toServer[i] == WireOf(w.refs[i], asked[w.refs[i]]))
    && (forall i, j | 0 <= i < j < |w.refs| :: w.refs[i] < w.refs[j])
    && (forall r, i | r in replies && 0 <= i < |w.refs| :: r < w.refs[i])
  }

  /** A queued frame is the reply to its tag, or a broadcast. */
  ghost predicate GoodAnswers(w: Wires, replies: map<nat, Bytes>) {
    && |w.tags| == |w.toClient|
    && (forall i | 0 <= i < |w.tags| ::
          match w.tags[i]
          case Some(r) => r in replies && w.toClient[i] == replies[r]
          case None => DecodeFrame(w.toClient[i]).Some? && DecodeFrame(w.toClient[i]).value.kind == BROADCAST)
  }

  /** A reply to request `r`; a granted join names an id bound to its topic. */
  ghost predicate ReplyFits(s: Server, r: nat, ask: Ask, frame: Bytes) {
    exists id: nat, status: Byte, data: Bytes ::
      && frame == ReplyBytes(r, id, status, data) && id <= MAX_TOPIC_ID
      && (ask.AskJoin? && status == STATUS_OK ==> Bound(s, id, ask.topic))
  }

  ghost predicate GoodReplies(h: History, s: Server) {
    forall r | r in h.replies :: r in h.asked && ReplyFits(s, r, h.asked[r], h.replies[r])
  }

  /** A callback run by a frame got the reply to its own request. */
  ghost predicate FiredByReply(replies: map<nat, Bytes>, f: Fired) {
    f.ref in replies && exists id: nat :: replies[f.ref] == ReplyBytes(f.ref, id, f.status, f.data)
  }

  ghost predicate GoodFired(c: Client, h: History) {
    && DistinctRefs(h.fired)
    && Refs(h.fired) !! c.pendingReplies.Keys
    && (forall r | r in Refs(h.fired) :: r in h.asked)
    && (forall f | f in h.fired && f.isReply :: FiredByReply(h.replies, f))
  }

  ghost predicate GoodDispatches(h: History) {
    forall d | d in h.dispatched :: d.0 in h.asked && h.asked[d.0].AskPush? && h.asked[d.0].topic == d.1
  }

  ghost predicate Inv(k: Conn) {
    && TopicTable.Inv(k.server)
    && GoodClient(k.client, k.h.asked, k.server)
    && GoodPushes(k.h.asked, k.server)
    && GoodRequests(k.wires, k.h.asked, k.h.replies)
    && GoodAnswers(k.wires, k.h.replies)
    && GoodReplies(k.h, k.server)
    && GoodFired(k.client, k.h)
    && GoodDispatches(k.h)
  }

  // ---- The two ends read each other's bytes ----

  lemma DecodeExact(kind: Byte, ref: nat, id: nat, payload: Bytes)
    requires ref < TWO_TO_32 && id <= MAX_TOPIC_ID
    ensures DecodeFrame(FrameBytes(kind, ref, id, payload)) == Some(Parts(kind, ref, id, payload))
  {
    DecodeEncode(kind, ref, id, payload);
  }

  /** The server reads back what the client wrote, and answers accordingly. */
  lemma ServerReadsJoin(s: Server, r: nat, topic: Topic, m: Membership, a: Answer)
    requires r < TWO_TO_32
    ensures HandleIn(s, WireOf(r, AskJoin(topic)), m, a) == HandleJoin(s, r, topic, m)
  {
    DecodeExact(JOIN, r, 0, topic);
  }

  lemma ServerReadsPush(s: Server, r: nat, ask: Ask, m: Membership, a: Answer)
    requires r < TWO_TO_32 && ask.AskPush? && ask.id <= MAX_TOPIC_ID
    ensures HandleIn(s, WireOf(r, ask), m, a) == HandlePush(s, r, ask.id, ask.event, a)
  {
    DecodeExact(PUSH, r, ask.id, [ask.event] + ask.payload);
  }

  lemma ServerReadsBeat(s: Server, r: nat, m: Membership, a: Answer)
    requires r < TWO_TO_32
    ensures HandleIn(s, WireOf(r, AskBeat), m, a) == Effect(None, s, None)
  {
    DecodeExact(HEARTBEAT, r, 0, []);
  }

  lemma ClientReads(c: Client, r: nat, id: nat, status: Byte, data: Bytes)
    requires r < TWO_TO_32 && id <= MAX_TOPIC_ID
    ensures
      var frame := ReplyBytes(r, id, status, data);
      && DecodeFrame(frame) == Some(Parts(REPLY, r, id, [status] + data))
      && FiredBy(c, frame) == if r in c.pendingReplies then Some(Fired(r, status, data, true)) else None
  {
    DecodeExact(REPLY, r, id, [status] + data);
  }

  /** What serving a well-formed request does. */
  lemma ServingIsGood(s: Server, r: nat, ask: Ask, m: Membership, a: Answer)
    requires TopicTable.Inv(s) && r < TWO_TO_32
    requires ask.AskPush? ==> Bound(s, ask.id, ask.topic)
    requires HandleIn(s, WireOf(r, ask), m, a).Effect?
    ensures
      var e := HandleIn(s, WireOf(r, ask), m, a);
      && TopicTable.Inv(e.state) && Grows(s, e.state)
      && (e.out.Some? ==> ReplyFits(e.state, r, ask, e.out.value))
      && (e.dispatched.Some? ==> ask.AskPush? && e.dispatched.value == ask.topic)
  {
    match ask
    case AskJoin(topic) => ServingJoinIsGood(s, r, topic, m, a);
    case AskPush(_, _, _, _) => ServingPushIsGood(s, r, ask, m, a);
    case AskBeat => ServerReadsBeat(s, r, m, a);
  }

  lemma ServingJoinIsGood(s: Server, r: nat, topic: Topic, m: Membership, a: Answer)
    requires TopicTable.Inv(s) && r < TWO_TO_32
    requires HandleIn(s, WireOf(r, AskJoin(topic)), m, a).Effect?
    ensures
      var e := HandleIn(s, WireOf(r, AskJoin(topic)), m, a);
      && TopicTable.Inv(e.state) && Grows(s, e.state)
      && (e.out.Some? ==> ReplyFits(e.state, r, AskJoin(topic), e.out.value))
      && e.dispatched.None?
  {
    ServerReadsJoin(s, r, topic, m, a);
    var e := HandleIn(s, WireOf(r, AskJoin(topic)), m, a);
    match DoJoin(s, topic, m) {
      case Allocated(id, s') =>
        JoinGrants(s, topic, m);
        assert e.out.value == ReplyBytes(r, id, STATUS_OK, []);
      case Refused(reason) =>
        assert e.out.value == ReplyBytes(r, 0, STATUS_ERROR, reason);
    }
  }

  lemma ServingPushIsGood(s: Server, r: nat, ask: Ask, m: Membership, a: Answer)
    requires TopicTable.Inv(s) && r < TWO_TO_32
    requires ask.AskPush? && Bound(s, ask.id, ask.topic)
    ensures
      var e := HandleIn(s, WireOf(r, ask), m, a);
      && e.Effect? && e.state == s
      && (e.out.Some? ==> ReplyFits(s, r, ask, e.out.value))
      && e.dispatched == Some(ask.topic)
  {
    ServerReadsPush(s, r, ask, m, a);
    var e := HandlePush(s, r, ask.id, ask.event, a);
    if NeedsChannel(ask.event) && s.topicIds[ask.id].channelId.None? {
      assert e.out.value == ReplyBytes(r, ask.id, STATUS_ERROR, Ascii("not_a_channel"));
    } else if a.Answer? {
      assert e.out.value == ReplyBytes(r, ask.id, a.status, a.data);
    }
  }

  // ---- Steps of the client ----

  lemma AskingKeeps(k: Conn, c': Client, ask: Ask)
    requires Inv(k) && c'.ref == k.client.ref + 1
    requires c'.topicNameToId == k.client.topicNameToId
    requires ask.AskPush? ==> Bound(k.server, ask.id, ask.topic)
    requires c'.pendingReplies.Keys <= k.client.pendingReplies.Keys + {c'.ref}
    requires forall r | r in c'.pendingJoinRefs ::
               if r == c'.ref then ask == AskJoin(c'.pendingJoinRefs[r])
               else r in k.client.pendingJoinRefs && k.client.pendingJoinRefs[r] == c'.pendingJoinRefs[r]
    ensures Inv(AskStep(k, c', ask))
  {
    var h' := Asking(k.h, c'.ref, ask);
    assert c'.ref !in k.h.asked;
    AskedKeeps(k.h, h', k.server);
    RequestsKeep(k.wires, k.h, k.client.isOpen, c'.ref, ask);
  }

  lemma AskedKeeps(h: History, h': History, s: Server)
    requires GoodReplies(h, s) && GoodDispatches(h)
    requires h'.replies == h.replies && h'.dispatched == h.dispatched
    requires forall r | r in h.asked :: r in h'.asked && h'.asked[r] == h.asked[r]
    ensures GoodReplies(h', s) && GoodDispatches(h')
  {
  }

  lemma RequestsKeep(w: Wires, h: History, isOpen: bool, ref: nat, ask: Ask)
    requires GoodRequests(w, h.asked, h.replies)
    requires forall r | r in h.asked :: r < ref
    requires forall r | r in h.replies :: r in h.asked
    ensures GoodRequests(Sending(w, isOpen, ref, ask), h.asked[ref := ask], h.replies)
  {
  }

  // ---- Steps of the server ----

  lemma ServeKeepsRequests(w: Wires, h: History, out: Option<Bytes>, topic: Option<Topic>)
    requires GoodRequests(w, h.asked, h.replies) && w.refs != []
    ensures
      var popped := w.(toServer := w.toServer[1..], refs := w.refs[1..]);
      GoodRequests(Answering(popped, out, Some(w.refs[0])), h.asked, Served(h, w.refs[0], out, topic).replies)
  {
  }

  lemma ServeKeepsAnswers(w: Wires, h: History, r: nat, out: Option<Bytes>, topic: Option<Topic>)
    requires GoodAnswers(w, h.replies) && r !in h.replies
    ensures GoodAnswers(Answering(w, out, Some(r)), Served(h, r, out, topic).replies)
  {
  }

  lemma FitsLonger(s: Server, s': Server, r: nat, ask: Ask, frame: Bytes)
    requires ReplyFits(s, r, ask, frame) && Grows(s, s')
    ensures ReplyFits(s', r, ask, frame)
  {
    var id: nat, status: Byte, data: Bytes :|
      && frame == ReplyBytes(r, id, status, data) && id <= MAX_TOPIC_ID
      && (ask.AskJoin? && status == STATUS_OK ==> Bound(s, id, ask.topic));
    assert ask.AskJoin? && status == STATUS_OK ==> Bound(s', id, ask.topic);
  }

  lemma ServeKeepsReplies(h: History, s: Server, s': Server, r: nat, out: Option<Bytes>, topic: Option<Topic>)
    requires GoodReplies(h, s) && Grows(s, s') && r in h.asked
    requires out.Some? ==> ReplyFits(s', r, h.asked[r], out.value)
    ensures GoodReplies(Served(h, r, out, topic), s')
  {
    forall q | q in h.replies ensures ReplyFits(s', q, h.asked[q], h.replies[q]) {
      FitsLonger(s, s', q, h.asked[q], h.replies[q]);
    }
  }

  lemma ServeKeepsFired(c: Client, h: History, r: nat, out: Option<Bytes>, topic: Option<Topic>)
    requires GoodFired(c, h) && r !in h.replies
    ensures GoodFired(c, Served(h, r, out, topic))
  {
  }

  lemma ServeKeepsInv(k: Conn, m: Membership, a: Answer)
    requires Inv(k) && k.wires.toServer != [] && k.client.ref < TWO_TO_32
    ensures Inv(ServeStep(k, m, a))
  {
    var w := k.wires;
    var r := w.refs[0];
    var ask := k.h.asked[r];
    assert w.toServer[0] == WireOf(r, ask);
    var e := HandleIn(k.server, w.toServer[0], m, a);
    if e.Crash? {
      CrashKeepsInv(k);
    } else {
      ServingIsGood(k.server, r, ask, m, a);
      ServeKeepsRequests(w, k.h, e.out, e.dispatched);
      ServeKeepsAnswers(w.(toServer := w.toServer[1..], refs := w.refs[1..]), k.h, r, e.out, e.dispatched);
      ServeKeepsReplies(k.h, k.server, e.state, r, e.out, e.dispatched);
      ServeKeepsFired(k.client, k.h, r, e.out, e.dispatched);
    }
  }

  lemma CrashKeepsInv(k: Conn)
    requires Inv(k)
    ensures Inv(Conn(k.client.(isOpen := false), k.server, NoWires, k.h))
  {
  }

  lemma PublishKeepsAnswers(k: Conn, pubsub: Bytes, event: Byte, payload: Bytes)
    requires GoodAnswers(k.wires, k.h.replies)
    ensures GoodAnswers(Answering(k.wires, Broadcasting(k.server, pubsub, event, payload), None), k.h.replies)
  {
    if pubsub in k.server.pubsubTopics {
      DecodeEncode(BROADCAST, 0, k.server.pubsubTopics[pubsub], [event] + payload);
    }
  }

  // ---- Deliveries ----

  lemma ReplyKeepsClient(c: Client, asked: map<nat, Ask>, s: Server, r: nat, id: nat, status: Byte, data: Bytes)
    requires GoodClient(c, asked, s) && r in asked && r < TWO_TO_32 && id <= MAX_TOPIC_ID
    requires asked[r].AskJoin? && status == STATUS_OK ==> Bound(s, id, asked[r].topic)
    ensures GoodClient(AfterMessage(c, ReplyBytes(r, id, status, data)), asked, s)
  {
    ClientReads(c, r, id, status, data);
  }

  lemma ReplyKeepsFired(c: Client, h: History, r: nat, id: nat, status: Byte, data: Bytes)
    requires GoodFired(c, h) && r in h.asked && r < TWO_TO_32 && id <= MAX_TOPIC_ID
    requires r in h.replies && h.replies[r] == ReplyBytes(r, id, status, data)
    ensures
      var frame := ReplyBytes(r, id, status, data);
      GoodFired(AfterMessage(c, frame), Fire(h, FiredBy(c, frame)))
  {
    ClientReads(c, r, id, status, data);
    if r in c.pendingReplies {
      OneMoreFired(h.fired, Fired(r, status, data, true));
      assert FiredByReply(h.replies, Fired(r, status, data, true));
    }
  }

  /** Receiving the reply to `r` runs the callback of `r`, if it still waits. */
  lemma ReplyKeeps(c: Client, h: History, s: Server, r: nat)
    requires GoodClient(c, h.asked, s) && GoodFired(c, h) && GoodReplies(h, s)
    requires r in h.replies && c.ref < TWO_TO_32
    ensures GoodClient(AfterMessage(c, h.replies[r]), h.asked, s)
    ensures GoodFired(AfterMessage(c, h.replies[r]), Fire(h, FiredBy(c, h.replies[r])))
  {
    var frame, ask := h.replies[r], h.asked[r];
    var id: nat, status: Byte, data: Bytes :|
      && frame == ReplyBytes(r, id, status, data) && id <= MAX_TOPIC_ID
      && (ask.AskJoin? && status == STATUS_OK ==> Bound(s, id, ask.topic));
    ReplyKeepsClient(c, h.asked, s, r, id, status, data);
    ReplyKeepsFired(c, h, r, id, status, data);
  }

  lemma BroadcastChangesNothing(c: Client, frame: Bytes)
    requires DecodeFrame(frame).Some? && DecodeFrame(frame).value.kind == BROADCAST
    ensures AfterMessage(c, frame) == c && FiredBy(c, frame).None?
  {
  }

  lemma ReceiveKeepsInv(k: Conn)
    requires Inv(k) && k.wires.toClient != [] && k.client.ref < TWO_TO_32
    ensures Inv(ReceiveStep(k))
  {
    var w := k.wires;
    match w.tags[0]
    case Some(r) => ReplyKeeps(k.client, k.h, k.server, r);
    case None => BroadcastChangesNothing(k.client, w.toClient[0]);
  }

  lemma DisconnectKeepsFired(c: Client, h: History, fired: seq<Fired>)
    requires GoodFired(c, h) && (forall r | r in c.pendingReplies :: r in h.asked)
    requires DistinctRefs(fired) && Refs(fired) == c.pendingReplies.Keys && AllDisconnected(fired)
    ensures GoodFired(AfterDisconnect(c), h.(fired := h.fired + fired))
  {
    var all := h.fired + fired;
    forall f | f in h.fired ensures f.ref in Refs(h.fired) {
    }
    forall f | f in fired ensures f.ref in Refs(fired) {
    }
    forall i, j | 0 <= i < j < |all| ensures all[i].ref != all[j].ref {
      assert i < |h.fired| ==> all[i] in h.fired;
      assert j >= |h.fired| ==> all[j] in fired;
    }
    assert Refs(all) == Refs(h.fired) + Refs(fired);
  }

  lemma JoinKeepsInv(k: Conn, topic: Topic)
    requires Inv(k)
    ensures Inv(AskStep(k, AfterJoin(k.client, topic), AskJoin(topic)))
  {
    AskingKeeps(k, AfterJoin(k.client, topic), AskJoin(topic));
  }

  lemma PushKeepsInv(k: Conn, topic: Topic, event: Byte, payload: Bytes)
    requires Inv(k)
    ensures Inv(Step(k, Push(topic, event, payload)).value)
  {
    if topic in k.client.topicNameToId && k.client.isOpen {
      AskingKeeps(k, AfterPush(k.client, topic), AskPush(topic, k.client.topicNameToId[topic], event, payload));
    }
  }

  lemma DisconnectKeepsInv(k: Conn, fired: seq<Fired>)
    requires Inv(k) && Step(k, Disconnect(fired)).Some?
    ensures Inv(Step(k, Disconnect(fired)).value)
  {
    DisconnectKeepsFired(k.client, k.h, fired);
  }

  lemma PublishKeepsInv(k: Conn, pubsub: Bytes, event: Byte, payload: Bytes)
    requires Inv(k)
    ensures Inv(k.(wires := Answering(k.wires, Broadcasting(k.server, pubsub, event, payload), None)))
  {
    PublishKeepsAnswers(k, pubsub, event, payload);
  }

  lemma ClientKeepsInv(k: Conn, e: Event)
    requires Inv(k) && Step(k, e).Some? && (e.Join? || e.Push? || e.Beat? || e.Disconnect?)
    ensures Inv(Step(k, e).value)
  {
    match e
    case Join(topic) => JoinKeepsInv(k, topic);
    case Push(topic, event, payload) => PushKeepsInv(k, topic, event, payload);
    case Beat => AskingKeeps(k, k.client.(ref := k.client.ref + 1), AskBeat);
    case Disconnect(fired) => DisconnectKeepsInv(k, fired);
  }

  lemma ServerKeepsInv(k: Conn, e: Event)
    requires Inv(k) && Step(k, e).Some? && k.client.ref < TWO_TO_32 && (e.Serve? || e.Publish? || e.Receive?)
    ensures Inv(Step(k, e).value)
  {
    match e
    case Serve(m, a) => ServeKeepsInv(k, m, a);
    case Publish(pubsub, event, payload) => PublishKeepsInv(k, pubsub, event, payload);
    case Receive => ReceiveKeepsInv(k);
  }

  lemma StepKeepsRef(k: Conn, e: Event)
    requires Step(k, e).Some?
    ensures k.client.ref <= Step(k, e).value.client.ref <= k.client.ref + 1
  {
  }

  lemma StepKeepsInv(k: Conn, e: Event)
    requires Inv(k) && Step(k, e).Some? && k.client.ref < TWO_TO_32
    ensures Inv(Step(k, e).value)
  {
    if e.Serve? || e.Publish? || e.Receive? {
      ServerKeepsInv(k, e);
    } else {
      ClientKeepsInv(k, e);
    }
  }

  lemma {:induction false} RunKeepsInv(tenant: Bytes, events: seq<Event>)
    requires Run(tenant, events).Some? && |events| < TWO_TO_32
    ensures Inv(Run(tenant, events).value)
    ensures Run(tenant, events).value.client.ref <= |events|
  {
    if events != [] {
      var n := |events| - 1;
      RunKeepsInv(tenant, events[..n]);
      StepKeepsInv(Run(tenant, events[..n]).value, events[n]);
      StepKeepsRef(Run(tenant, events[..n]).value, events[n]);
    }
  }

  // ---- Main results ----

  /** Over every interleaving with fewer than 2^32 steps, hence refs: a callback
      runs at most once; and unless `disconnect` ran it, it got the status and
      data that the server sent in answer to that same request. */
  lemma CallbacksRunOnce(tenant: Bytes, events: seq<Event>)
    requires Run(tenant, events).Some? && |events| < TWO_TO_32
    ensures
      var k := Run(tenant, events).value;
      && (forall i, j | 0 <= i < j < |k.h.fired| :: k.h.fired[i].ref != k.h.fired[j].ref)
      && (forall f | f in k.h.fired && f.isReply :: FiredByReply(k.h.replies, f))
  {
    RunKeepsInv(tenant, events);
  }

  /** Whenever the client maps a topic to an id, the server's id stands for that
      topic. */
  lemma MappingsAgree(tenant: Bytes, events: seq<Event>, topic: Topic)
    requires Run(tenant, events).Some? && |events| < TWO_TO_32
    requires topic in Run(tenant, events).value.client.topicNameToId
    ensures
      var k := Run(tenant, events).value;
      Bound(k.server, k.client.topicNameToId[topic], topic)
  {
    RunKeepsInv(tenant, events);
  }

  /** Every push is dispatched against the topic that its caller named. */
  lemma PushesReachTheirTopic(tenant: Bytes, events: seq<Event>, r: nat, topic: Topic)
    requires Run(tenant, events).Some? && |events| < TWO_TO_32
    requires (r, topic) in Run(tenant, events).value.h.dispatched
    ensures
      var asked := Run(tenant, events).value.h.asked;
      r in asked && asked[r].AskPush? && asked[r].topic == topic
  {
    RunKeepsInv(tenant, events);
  }
}
