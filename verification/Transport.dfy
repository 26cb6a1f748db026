/** The client side of a socket, `sdks/mercury-sdk-js/src/transport.ts`, over
    one connection. Callbacks are recorded when they run; event handlers and
    reconnection are not modelled. */
module Transport {
  import opened Base
  import opened Frame
  import opened TopicTable

  /** The callback waiting for a reply: that of a join, or that of a push. */
  datatype Pending = JoinCallback(topic: Topic) | PushCallback(topic: Topic)

  /** A callback that ran, with what it was given; `isReply`: by a frame of the
      server, and not by `disconnect`. */
  datatype Fired = Fired(ref: nat, status: Byte, data: Bytes, isReply: bool)

  datatype Client = Client(
    isOpen: bool,
    ref: nat,
    pendingReplies: map<nat, Pending>,
    pendingJoinRefs: map<nat, Topic>,
    topicNameToId: map<Topic, nat>,
    topicIdToName: map<nat, Topic>,
    joinedTopics: set<Topic>)

  const Connected := Client(true, 0, map[], map[], map[], map[], {})

  function AfterJoin(c: Client, topic: Topic): Client {
    var ref := c.ref + 1;
    c.(ref := ref,
       joinedTopics := c.joinedTopics + {topic},
       pendingJoinRefs := c.pendingJoinRefs[ref := topic],
       pendingReplies := c.pendingReplies[ref := JoinCallback(topic)])
  }

  function AfterPush(c: Client, topic: Topic): Client {
    if topic !in c.topicNameToId then c
    else if !c.isOpen then c.(ref := c.ref + 1, pendingReplies := c.pendingReplies - {c.ref + 1})
    else c.(ref := c.ref + 1, pendingReplies := c.pendingReplies[c.ref + 1 := PushCallback(topic)])
  }

  /** What the callback itself changes. */
  function AfterCallback(c: Client, ref: nat, cb: Pending, status: Byte): Client {
    match cb
    case PushCallback(_) => c
    case JoinCallback(topic) =>
      c.(pendingJoinRefs := c.pendingJoinRefs - {ref},
         joinedTopics := if status == STATUS_OK then c.joinedTopics else c.joinedTopics - {topic})
  }

  function Registered(c: Client, ref: nat, id: nat, status: Byte): Client {
    if id > 0 && status == STATUS_OK && ref in c.pendingJoinRefs && c.pendingJoinRefs[ref] != [] then
      var topic := c.pendingJoinRefs[ref];
      c.(topicNameToId := c.topicNameToId[topic := id], topicIdToName := c.topicIdToName[id := topic])
    else c
  }

  function StatusOf(payload: Bytes): Byte {
    if payload == [] then STATUS_OK else payload[0]
  }

  function DataOf(payload: Bytes): Bytes {
    if payload == [] then [] else payload[1..]
  }

  /** The callback that a received frame runs, if any. */
  function FiredBy(c: Client, data: Bytes): Option<Fired> {
    match DecodeFrame(data)
    case None => None
    case Some(p) =>
      if p.kind == REPLY && p.ref in c.pendingReplies then
        Some(Fired(p.ref, StatusOf(p.payload), DataOf(p.payload), true))
      else None
  }

  function AfterMessage(c: Client, data: Bytes): Client {
    match FiredBy(c, data)
    case None => c
    case Some(f) =>
      var c1 := Registered(c, f.ref, DecodeFrame(data).value.topicId, f.status);
      AfterCallback(c1.(pendingReplies := c1.pendingReplies - {f.ref}), f.ref, c.pendingReplies[f.ref], f.status)
  }

  /** Every callback still waiting gets an error; all maps are cleared. */
  function AfterDisconnect(c: Client): Client {
    Client(false, c.ref, map[], map[], map[], map[], {})
  }

  function Refs(fired: seq<Fired>): set<nat> {
    set f | f in fired :: f.ref
  }

  predicate DistinctRefs(fired: seq<Fired>) {
    forall i, j | 0 <= i < j < |fired| :: fired[i].ref != fired[j].ref
  }

  lemma OneMoreFired(fired: seq<Fired>, f: Fired)
    ensures Refs(fired + [f]) == Refs(fired) + {f.ref}
    ensures DistinctRefs(fired) && f.ref !in Refs(fired) ==> DistinctRefs(fired + [f])
  {
    var more := fired + [f];
    assert f in more && forall g | g in fired :: g in more;
    forall i | 0 <= i < |fired| ensures fired[i].ref in Refs(fired) {
      assert fired[i] in fired;
    }
  }

  predicate AllDisconnected(fired: seq<Fired>) {
    forall f | f in fired :: f.status == STATUS_ERROR && !f.isReply && f.data == Ascii("disconnected")
  }

  // ---- What a received frame does to the maps ----

  /** The ref waits for the reply to a join of the topic. */
  predicate WaitsForJoin(c: Client, ref: nat, topic: Topic) {
    && ref in c.pendingReplies && c.pendingReplies[ref] == JoinCallback(topic)
    && ref in c.pendingJoinRefs && c.pendingJoinRefs[ref] == topic
  }

  /** The frame is a reply of status OK, with an id, to a waiting join of a topic. */
  ghost predicate GrantsJoin(c: Client, data: Bytes, topic: Topic) {
    exists p :: DecodeFrame(data) == Some(p)
      && p.kind == REPLY && p.topicId > 0 && (p.payload == [] || p.payload[0] == STATUS_OK)
      && topic != [] && WaitsForJoin(c, p.ref, topic)
  }

  /** A join waits for its reply under the next ref, and its topic counts as joined;
      what waited before still waits. */
  lemma JoinRegisters(c: Client, topic: Topic)
    ensures
      var c', r := AfterJoin(c, topic), c.ref + 1;
      && c'.ref == r && WaitsForJoin(c', r, topic)
      && (forall t :: t in c'.joinedTopics <==> t == topic || t in c.joinedTopics)
      && (forall q, t | q != r :: WaitsForJoin(c', q, t) <==> WaitsForJoin(c, q, t))
      && (forall q | q in c.pendingReplies && q != r :: q in c'.pendingReplies)
      && c'.topicNameToId == c.topicNameToId && c'.topicIdToName == c.topicIdToName && c'.isOpen == c.isOpen
  {
  }

  /** A granted join maps its topic to the id of the reply, and back; other topics
      keep their ids, the topic stays joined, and the ref waits no more. */
  lemma GrantMaps(c: Client, data: Bytes, topic: Topic)
    requires GrantsJoin(c, data, topic)
    ensures
      var c' := AfterMessage(c, data);
      var p := DecodeFrame(data).value;
      && topic in c'.topicNameToId && c'.topicNameToId[topic] == p.topicId
      && p.topicId in c'.topicIdToName && c'.topicIdToName[p.topicId] == topic
      && (forall t | t != topic :: (t in c'.topicNameToId <==> t in c.topicNameToId)
            && (t in c.topicNameToId ==> c'.topicNameToId[t] == c.topicNameToId[t]))
      && (forall i | i != p.topicId :: (i in c'.topicIdToName <==> i in c.topicIdToName)
            && (i in c.topicIdToName ==> c'.topicIdToName[i] == c.topicIdToName[i]))
      && c'.joinedTopics == c.joinedTopics
      && p.ref !in c'.pendingReplies && p.ref !in c'.pendingJoinRefs
  {
  }

  /** The client's two tables of waiting joins agree. */
  predicate JoinsPaired(c: Client) {
    forall r | r in c.pendingJoinRefs && r in c.pendingReplies ::
      c.pendingReplies[r] == JoinCallback(c.pendingJoinRefs[r])
  }

  /** Any other frame leaves both maps alone. */
  lemma OtherFramesKeepMaps(c: Client, data: Bytes)
    requires JoinsPaired(c) && forall topic :: !GrantsJoin(c, data, topic)
    ensures
      var c' := AfterMessage(c, data);
      c'.topicNameToId == c.topicNameToId && c'.topicIdToName == c.topicIdToName
  {
    if FiredBy(c, data).Some? {
      var p := DecodeFrame(data).value;
      if p.ref in c.pendingJoinRefs {
        assert !GrantsJoin(c, data, c.pendingJoinRefs[p.ref]);
      }
    }
  }

  /** A failed join forgets its topic; a frame that answers nothing that waits
      changes nothing at all. */
  lemma FailureForgets(c: Client, data: Bytes, topic: Topic)
    requires
      var p := DecodeFrame(data);
      && p.Some? && p.value.kind == REPLY && WaitsForJoin(c, p.value.ref, topic)
      && p.value.payload != [] && p.value.payload[0] != STATUS_OK
    ensures
      var c' := AfterMessage(c, data);
      && c'.joinedTopics == c.joinedTopics - {topic}
      && c'.topicNameToId == c.topicNameToId && c'.topicIdToName == c.topicIdToName
      && DecodeFrame(data).value.ref !in c'.pendingReplies
  {
  }

  lemma StrayFramesDoNothing(c: Client, data: Bytes)
    requires
      var p := DecodeFrame(data);
      p.None? || p.value.kind != REPLY || p.value.ref !in c.pendingReplies
    ensures AfterMessage(c, data) == c && FiredBy(c, data) == None
  {
  }

  class BinaryTransport {
    var isOpen: bool
    var ref: nat
    var pendingReplies: map<nat, Pending>
    var pendingJoinRefs: map<nat, Topic>
    var topicNameToId: map<Topic, nat>
    var topicIdToName: map<nat, Topic>
    var joinedTopics: set<Topic>

    function Value(): Client
      reads this
    {
      Client(isOpen, ref, pendingReplies, pendingJoinRefs, topicNameToId, topicIdToName, joinedTopics)
    }

    constructor ()
      ensures Value() == Connected
    {
      isOpen, ref := true, 0;
      pendingReplies, pendingJoinRefs := map[], map[];
      topicNameToId, topicIdToName := map[], map[];
      joinedTopics := {};
    }

    method NextRef() returns (r: nat)
      modifies this`ref
      ensures r == ref == old(ref) + 1
    {
      ref := ref + 1;
      r := ref;
    }

    /** `None`: not connected, nothing was sent. */
    method Join(topic: Topic) returns (sent: Option<Bytes>)
      modifies this
      ensures Value() == AfterJoin(old(Value()), topic)
      ensures sent == if old(isOpen) then Some(FrameBytes(JOIN, old(ref) + 1, 0, topic)) else None
    {
      var r := NextRef();
      joinedTopics := joinedTopics + {topic};
      pendingJoinRefs := pendingJoinRefs[r := topic];
      pendingReplies := pendingReplies[r := JoinCallback(topic)];
      if isOpen {
        var frame := EncodeFrame(JOIN, r, 0, topic);
        sent := Some(frame[..]);
      } else {
        sent := None;
      }
    }

    /** `None`: rejected, because the topic is not joined or the socket closed. */
    method Push(topic: Topic, event: Byte, payload: Bytes) returns (sent: Option<Bytes>)
      modifies this
      ensures Value() == AfterPush(old(Value()), topic)
      ensures sent == if topic in old(topicNameToId) && old(isOpen)
                      then Some(FrameBytes(PUSH, old(ref) + 1, old(topicNameToId)[topic], [event] + payload))
                      else None
    {
      if topic !in topicNameToId {
        return None;
      }
      var id := topicNameToId[topic];
      var r := NextRef();
      pendingReplies := pendingReplies[r := PushCallback(topic)];
      var frame := EncodeFrame(PUSH, r, id, [event] + payload);
      if isOpen {
        sent := Some(frame[..]);
      } else {
        assert pendingReplies - {r} == old(pendingReplies) - {r};
        pendingReplies := pendingReplies - {r};
        sent := None;
      }
    }

    method HandleMessage(data: Bytes) returns (fired: Option<Fired>)
      modifies this
      ensures fired == FiredBy(old(Value()), data)
      ensures Value() == AfterMessage(old(Value()), data)
      ensures forall topic | GrantsJoin(old(Value()), data, topic) ::
                topic in topicNameToId && topicNameToId[topic] == DecodeFrame(data).value.topicId
    {
      fired := None;
      var frame := DecodeFrame(data);
      if frame.None? {
        return;
      }
      var p := frame.value;
      if p.kind == REPLY && p.ref in pendingReplies {
        var status := StatusOf(p.payload);
        var cb := pendingReplies[p.ref];
        if p.topicId > 0 && status == STATUS_OK && p.ref in pendingJoinRefs && pendingJoinRefs[p.ref] != [] {
          var topic := pendingJoinRefs[p.ref];
          topicNameToId := topicNameToId[topic := p.topicId];
          topicIdToName := topicIdToName[p.topicId := topic];
        }
        pendingReplies := pendingReplies - {p.ref};
        RunCallback(p.ref, cb, status);
        fired := Some(Fired(p.ref, status, DataOf(p.payload), true));
      }
    }

    method RunCallback(r: nat, cb: Pending, status: Byte)
      modifies this
      ensures Value() == AfterCallback(old(Value()), r, cb, status)
    {
      match cb
      case PushCallback(_) =>
      case JoinCallback(topic) =>
        pendingJoinRefs := pendingJoinRefs - {r};
        if status != STATUS_OK {
          joinedTopics := joinedTopics - {topic};
        }
    }

    /** Runs every waiting callback once, with an error. */
    method Disconnect() returns (fired: seq<Fired>)
      modifies this
      ensures Value() == AfterDisconnect(old(Value()))
      ensures DistinctRefs(fired) && Refs(fired) == old(pendingReplies).Keys && AllDisconnected(fired)
    {
      isOpen := false;
      joinedTopics := {};
      topicNameToId, topicIdToName := map[], map[];
      fired := [];
      var rest := pendingReplies.Keys;
      while rest != {}
        invariant rest <= pendingReplies.Keys && pendingReplies == old(pendingReplies)
        invariant !isOpen && joinedTopics == {} && topicNameToId == map[] && topicIdToName == map[]
        invariant ref == old(ref)
        invariant DistinctRefs(fired) && Refs(fired) == pendingReplies.Keys - rest && AllDisconnected(fired)
      {
        var r :| r in rest;
        RunCallback(r, pendingReplies[r], STATUS_ERROR);
        OneMoreFired(fired, Fired(r, STATUS_ERROR, Ascii("disconnected"), false));
        fired := fired + [Fired(r, STATUS_ERROR, Ascii("disconnected"), false)];
        rest := rest - {r};
      }
      pendingReplies, pendingJoinRefs := map[], map[];
    }
  }
}
