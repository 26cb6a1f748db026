/** What does happen on a connection: joins that may be granted get their topic
    mapped, pushes go out and are answered, and waiting callbacks run. */
module ConnectionProgress {
  import opened Base
  import opened Connection
  import opened Frame
  import opened TopicTable
  import opened Transport

  // ---- The server's answers ----

  /** The server answers a join with the next unused id exactly if the join may be
      granted, and then holds that id for the topic. */
  lemma JoinIsAnsweredIff(s: Server, r: nat, topic: Topic, m: Membership, a: Answer)
    requires TopicTable.Inv(s) && r < TWO_TO_32
    ensures
      var e := HandleIn(s, WireOf(r, AskJoin(topic)), m, a);
      && (e.Effect? ==> e.out.Some?)
      && (MayJoin(s, topic, m)
          <==> && e.Effect? && e.out == Some(ReplyBytes(r, s.nextTopicId, STATUS_OK, []))
               && Bound(e.state, s.nextTopicId, topic))
  {
    ServerReadsJoin(s, r, topic, m, a);
    JoinGrantedIff(s, topic, m);
    if MayJoin(s, topic, m) {
      JoinGrants(s, topic, m);
    } else if DoJoin(s, topic, m).Refused? {
      RefusalDiffers(r, s.nextTopicId, DoJoin(s, topic, m).reason);
    }
  }

  lemma RefusalDiffers(r: nat, id: nat, reason: Bytes)
    ensures ReplyBytes(r, 0, STATUS_ERROR, reason) != ReplyBytes(r, id, STATUS_OK, [])
  {
    var a, b := ReplyBytes(r, 0, STATUS_ERROR, reason), ReplyBytes(r, id, STATUS_OK, []);
    assert a[7] == STATUS_ERROR && b[7] == STATUS_OK;
  }

  // ---- Which callbacks wait ----

  /** Whatever waits for the reply to a join is that join's callback, and the client
      still knows its topic. */
  ghost predicate GoodWaiting(c: Client, asked: map<nat, Ask>) {
    forall r | r in c.pendingReplies && r in asked && asked[r].AskJoin? :: WaitsForJoin(c, r, asked[r].topic)
  }

  lemma AskKeepsWaiting(k: Conn, e: Event)
    requires Connection.Inv(k) && GoodWaiting(k.client, k.h.asked) && (e.Join? || e.Push? || e.Beat?)
    ensures
      var k' := Connection.Step(k, e).value;
      GoodWaiting(k'.client, k'.h.asked)
  {
    assert k.client.ref + 1 !in k.h.asked;
  }

  lemma ReceiveKeepsWaiting(c: Client, data: Bytes, asked: map<nat, Ask>)
    requires GoodWaiting(c, asked)
    ensures GoodWaiting(AfterMessage(c, data), asked)
  {
  }

  lemma StepKeepsWaiting(k: Conn, e: Event)
    requires Connection.Inv(k) && GoodWaiting(k.client, k.h.asked) && Connection.Step(k, e).Some?
    ensures
      var k' := Connection.Step(k, e).value;
      GoodWaiting(k'.client, k'.h.asked)
  {
    match e
    case Serve(_, _) =>
    case Publish(_, _, _) =>
    case Receive => ReceiveKeepsWaiting(k.client, k.wires.toClient[0], k.h.asked);
    case Disconnect(_) =>
    case _ => AskKeepsWaiting(k, e);
  }

  lemma {:induction false} RunKeepsWaiting(tenant: Bytes, events: seq<Event>)
    requires Connection.Run(tenant, events).Some? && |events| < TWO_TO_32
    ensures
      var k := Connection.Run(tenant, events).value;
      GoodWaiting(k.client, k.h.asked)
  {
    if events != [] {
      var n := |events| - 1;
      RunKeepsInv(tenant, events[..n]);
      RunKeepsWaiting(tenant, events[..n]);
      StepKeepsWaiting(Connection.Run(tenant, events[..n]).value, events[n]);
    }
  }

  lemma RunOneMore(tenant: Bytes, events: seq<Event>, e: Event)
    requires Connection.Run(tenant, events).Some?
    ensures Connection.Run(tenant, events + [e]) == Connection.Step(Connection.Run(tenant, events).value, e)
  {
    assert (events + [e])[..|events|] == events;
  }

  // ---- Main results ----

  /** The next frame for the client is the server's grant of the waiting join `r`. */
  ghost predicate GrantAhead(k: Conn, r: nat, topic: Topic, id: nat) {
    && k.wires.toClient != [] && k.wires.tags != [] && k.wires.tags[0] == Some(r)
    && k.wires.toClient[0] == ReplyBytes(r, id, STATUS_OK, [])
    && r in k.h.asked && k.h.asked[r] == AskJoin(topic) && r in k.client.pendingReplies
    && topic != [] && 0 < id <= MAX_TOPIC_ID
  }

  lemma GrantOnClient(c: Client, r: nat, topic: Topic, id: nat)
    requires WaitsForJoin(c, r, topic) && topic != [] && 0 < id <= MAX_TOPIC_ID && r < TWO_TO_32
    ensures
      var frame := ReplyBytes(r, id, STATUS_OK, []);
      var c' := AfterMessage(c, frame);
      && topic in c'.topicNameToId && c'.topicNameToId[topic] == id && r !in c'.pendingReplies
      && c'.isOpen == c.isOpen && c'.joinedTopics == c.joinedTopics
      && FiredBy(c, frame) == Some(Fired(r, STATUS_OK, [], true))
  {
    var frame := ReplyBytes(r, id, STATUS_OK, []);
    Connection.ClientReads(c, r, id, STATUS_OK, []);
    assert DecodeFrame(frame) == Some(Parts(REPLY, r, id, [STATUS_OK] + []));
    assert GrantsJoin(c, frame, topic);
    GrantMaps(c, frame, topic);
  }

  lemma ReceiveIs(k: Conn)
    requires k.wires.toClient != [] && k.wires.tags != []
    ensures Connection.Step(k, Receive) == Some(ReceiveStep(k))
    ensures ReceiveStep(k).client == AfterMessage(k.client, k.wires.toClient[0])
    ensures ReceiveStep(k).server == k.server
    ensures ReceiveStep(k).h == Fire(k.h, FiredBy(k.client, k.wires.toClient[0]))
  {
  }

  lemma WaitingRef(k: Conn, r: nat, topic: Topic)
    requires Connection.Inv(k) && GoodWaiting(k.client, k.h.asked) && k.client.ref < TWO_TO_32
    requires r in k.h.asked && k.h.asked[r] == AskJoin(topic) && r in k.client.pendingReplies
    ensures WaitsForJoin(k.client, r, topic) && r < TWO_TO_32
  {
  }

  /** Receiving the grant maps the topic to the server's id. */
  lemma GrantIsMapped(tenant: Bytes, events: seq<Event>, r: nat, topic: Topic, id: nat)
    requires Connection.Run(tenant, events).Some? && |events| + 1 < TWO_TO_32
    requires GrantAhead(Connection.Run(tenant, events).value, r, topic, id)
    ensures
      var k, k' := Connection.Run(tenant, events).value, Connection.Run(tenant, events + [Receive]);
      && k'.Some? && topic in k'.value.client.topicNameToId
      && k'.value.client.topicNameToId[topic] == id && Bound(k'.value.server, id, topic)
      && r !in k'.value.client.pendingReplies && k'.value.client.isOpen == k.client.isOpen
      && k'.value.client.joinedTopics == k.client.joinedTopics
      && k'.value.h.fired == k.h.fired + [Fired(r, STATUS_OK, [], true)]
  {
    var k := Connection.Run(tenant, events).value;
    RunKeepsInv(tenant, events);
    RunKeepsWaiting(tenant, events);
    RunOneMore(tenant, events, Receive);
    WaitingRef(k, r, topic);
    ReceiveIs(k);
    GrantOnClient(k.client, r, topic, id);
    MappingsAgree(tenant, events + [Receive], topic);
  }

  /** From `k` to `k'` the push went out to the topic's mapped id, and its callback
      waits. */
  ghost predicate PushedTo(k: Conn, k': Conn, topic: Topic, event: Byte, payload: Bytes) {
    var ref := k.client.ref + 1;
    && topic in k.client.topicNameToId && ref in k'.client.pendingReplies
    && k'.wires.toServer
       == k.wires.toServer + [FrameBytes(PUSH, ref, k.client.topicNameToId[topic], [event] + payload)]
  }

  lemma PushIsAsked(k: Conn, topic: Topic, event: Byte, payload: Bytes)
    requires k.client.isOpen && topic in k.client.topicNameToId
    ensures
      var k' := Connection.Step(k, Push(topic, event, payload));
      k'.Some? && PushedTo(k, k'.value, topic, event, payload)
  {
  }

  /** A push to a mapped topic is sent. */
  lemma MappedPushIsSent(tenant: Bytes, events: seq<Event>, topic: Topic, event: Byte, payload: Bytes)
    requires Connection.Run(tenant, events).Some?
    requires
      var c := Connection.Run(tenant, events).value.client;
      c.isOpen && topic in c.topicNameToId
    ensures
      var k, k' := Connection.Run(tenant, events).value, Connection.Run(tenant, events + [Push(topic, event, payload)]);
      k'.Some? && PushedTo(k, k'.value, topic, event, payload)
  {
    RunOneMore(tenant, events, Push(topic, event, payload));
    PushIsAsked(Connection.Run(tenant, events).value, topic, event, payload);
  }

  /** Nothing is under way. */
  predicate Quiet(k: Conn) {
    k.client.isOpen && k.wires == NoWires
  }

  lemma JoinIsAsked(k: Conn, topic: Topic)
    requires Quiet(k)
    ensures
      var k1 := Connection.Step(k, Join(topic));
      var r := k.client.ref + 1;
      k1.Some? && OneRequest(k1.value, r, topic) && k1.value.server == k.server
  {
  }

  /** A join is on its way, and nothing else. */
  ghost predicate OneRequest(k: Conn, r: nat, topic: Topic) {
    && k.wires == Wires([WireOf(r, AskJoin(topic))], [r], [], []) && k.client.isOpen && topic in k.client.joinedTopics
    && r in k.client.pendingReplies && r in k.h.asked && k.h.asked[r] == AskJoin(topic)
  }

  lemma ServeOutcome(k: Conn, r: nat, frame: Bytes, m: Membership, a: Answer, out: Bytes)
    requires k.wires == Wires([frame], [r], [], [])
    requires HandleIn(k.server, frame, m, a).Effect? && HandleIn(k.server, frame, m, a).out == Some(out)
    ensures
      var k' := Connection.Step(k, Serve(m, a));
      && k'.Some? && k'.value.wires == Wires([], [], [out], [Some(r)])
      && k'.value.client == k.client && k'.value.h.asked == k.h.asked
  {
  }

  lemma JoinIsServed(k: Conn, r: nat, topic: Topic, m: Membership, a: Answer)
    requires OneRequest(k, r, topic) && r < TWO_TO_32
    requires TopicTable.Inv(k.server) && MayJoin(k.server, topic, m)
    ensures
      var k' := Connection.Step(k, Serve(m, a));
      k'.Some? && GrantAhead(k'.value, r, topic, k.server.nextTopicId) && k'.value.client == k.client
  {
    MayJoinNamesTopic(k.server, topic, m);
    JoinIsAnsweredIff(k.server, r, topic, m, a);
    ServeOutcome(k, r, WireOf(r, AskJoin(topic)), m, a, ReplyBytes(r, k.server.nextTopicId, STATUS_OK, []));
  }

  /** From any point of a run where nothing is under way: a join that may be granted
      is, and its reply is the next frame for the client. */
  lemma JoinIsGranted(tenant: Bytes, events: seq<Event>, topic: Topic, m: Membership, a: Answer)
    requires Connection.Run(tenant, events).Some? && |events| + 3 < TWO_TO_32
    requires Quiet(Connection.Run(tenant, events).value)
    requires MayJoin(Connection.Run(tenant, events).value.server, topic, m)
    ensures
      var k := Connection.Run(tenant, events).value;
      var k' := Connection.Run(tenant, events + [Join(topic)] + [Serve(m, a)]);
      && k'.Some? && GrantAhead(k'.value, k.client.ref + 1, topic, k.server.nextTopicId)
      && k'.value.client.isOpen && topic in k'.value.client.joinedTopics
  {
    var k := Connection.Run(tenant, events).value;
    RunKeepsInv(tenant, events);
    RunOneMore(tenant, events, Join(topic));
    JoinIsAsked(k, topic);
    RunOneMore(tenant, events + [Join(topic)], Serve(m, a));
    JoinIsServed(Connection.Run(tenant, events + [Join(topic)]).value, k.client.ref + 1, topic, m, a);
  }

  /** Once it is received the topic is joined and mapped to the server's id, and the
      client open for pushes to it. */
  lemma JoinRoundTrip(tenant: Bytes, events: seq<Event>, topic: Topic, m: Membership, a: Answer)
    requires Connection.Run(tenant, events).Some? && |events| + 3 < TWO_TO_32
    requires Quiet(Connection.Run(tenant, events).value)
    requires MayJoin(Connection.Run(tenant, events).value.server, topic, m)
    ensures
      var id := Connection.Run(tenant, events).value.server.nextTopicId;
      var k := Connection.Run(tenant, events + [Join(topic)] + [Serve(m, a)] + [Receive]);
      && k.Some? && topic in k.value.client.topicNameToId
      && k.value.client.topicNameToId[topic] == id && Bound(k.value.server, id, topic)
      && k.value.client.isOpen && topic in k.value.client.joinedTopics
  {
    var k := Connection.Run(tenant, events).value;
    JoinIsGranted(tenant, events, topic, m, a);
    GrantIsMapped(tenant, events + [Join(topic)] + [Serve(m, a)], k.client.ref + 1, topic, k.server.nextTopicId);
  }

  lemma MayJoinNamesTopic(s: Server, topic: Topic, m: Membership)
    requires MayJoin(s, topic, m)
    ensures topic != []
  {
  }

  /** Receiving the reply to a waiting request runs its callback with the status and
      data of that reply. */
  lemma WaitingIsAnswered(tenant: Bytes, events: seq<Event>, r: nat, id: nat, status: Byte, data: Bytes)
    requires Connection.Run(tenant, events).Some? && |events| + 1 < TWO_TO_32
    requires
      var k := Connection.Run(tenant, events).value;
      && k.wires.toClient != [] && k.wires.tags != [] && r in k.client.pendingReplies
      && k.wires.toClient[0] == ReplyBytes(r, id, status, data) && id <= MAX_TOPIC_ID
    ensures
      var k := Connection.Run(tenant, events + [Receive]);
      && k.Some? && r !in k.value.client.pendingReplies
      && k.value.h.fired == Connection.Run(tenant, events).value.h.fired + [Fired(r, status, data, true)]
  {
    var k := Connection.Run(tenant, events).value;
    RunKeepsInv(tenant, events);
    RunOneMore(tenant, events, Receive);
    PendingRef(k, r);
    ReceiveIs(k);
    AnswerOnClient(k.client, r, id, status, data);
  }

  lemma PendingRef(k: Conn, r: nat)
    requires Connection.Inv(k) && r in k.client.pendingReplies
    ensures r <= k.client.ref
  {
  }

  lemma AnswerOnClient(c: Client, r: nat, id: nat, status: Byte, data: Bytes)
    requires r in c.pendingReplies && r < TWO_TO_32 && id <= MAX_TOPIC_ID
    ensures
      var frame := ReplyBytes(r, id, status, data);
      && r !in AfterMessage(c, frame).pendingReplies
      && FiredBy(c, frame) == Some(Fired(r, status, data, true))
  {
    Connection.ClientReads(c, r, id, status, data);
  }
}
