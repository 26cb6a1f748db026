# Verified model of Mercury's synchronisation core

Mercury is an offline-first messaging system. Devices keep replicated data and
stamp it with a hybrid logical clock; a gateway speaks a binary protocol over
one socket per device; a persistence service files messages in time buckets and
shares a cache between its replicas; an SDK pulls what it missed and pushes what
it queued. This project models those four parts in Dafny and proves what they
keep over whole runs and for all inputs.

The system clock is an argument wherever the code reads it, and may go
backwards. Objects that the code updates in place are classes whose methods are
proved against functions on values; runs are sequences of events over those
functions, so a statement about `Run` speaks of every interleaving.

| files | what they model |
|---|---|
| `Base.dfy` | machine widths and small datatypes |
| `Clock.dfy`, `ClockRuns.dfy` | the hybrid logical clock, and any number of nodes exchanging stamps |
| `Joins.dfy` | what it takes for merging to depend only on the set of states merged |
| `MessageLog.dfy`, `LogAssociativity.dfy`, `LwwRegister.dfy`, `Replication.dfy`, `ReplicationProgress.dfy` | the bounded log, when its merge is associative, the register, runs of devices that hold a clock, a log and a name, and what arrives in them |
| `Orset.dfy`, `OrsetRuns.dfy`, `ReactionMap.dfy`, `GCounter.dfy` | the set with dots, reactions, the counter, and their runs |
| `Frame.dfy` | frames and packed blobs, as the client writes them into buffers and as the server's bit syntax reads them |
| `TopicTable.dfy`, `Transport.dfy`, `Connection.dfy`, `ConnectionProgress.dfy` | the server's topics, the client's refs and topic map, both ends of one connection over two byte queues, and what does happen on it |
| `MessageTable.dfy`, `DeltaFetch.dfy`, `DeltaApply.dfy` | the bucketed table, fetching deltas against a plain scan, applying pushed deltas |
| `ClientStore.dfy`, `SyncEngine.dfy`, `QueueRuns.dfy`, `PushRuns.dfy`, `PullRuns.dfy` | the client's stores, one sync, runs of the offline queue, the queue together with the server's table, runs of pulling with concurrent writes |
| `Cache.dfy`, `History.dfy`, `HistoryRuns.dfy`, `RateLimiter.dfy`, `CreatorElection.dfy` | the shared cache and the three protocols over it |

## Where the code does not keep a promise

Each has a lemma with the exact condition, and one with an input or a run that
fails.

- `traits.rs` and the property tests promise commutative, associative merges.
  `MessageLog.merge` commutes exactly when the logs agree on shared keys and the
  union fits the cap (`MessageLog.MergeCommutesIff`); it is associative exactly
  when what the first log takes from the second, and what of the third undercuts
  it, have room together (`LogAssociativity.MergeAssociatesIff`), and three logs
  at the cap show that they need not
  (`LogAssociativity.CapBreaksAssociativity`). A register commutes exactly when
  equal timestamps carry equal values (`LwwRegister.LaterCommutesIff`,
  `LwwRegister.LaterNotCommutative`). In runs where devices stamp with their own
  ticked clocks these conditions hold (`Replication`).
- The unchecked additions of `Hlc::merge` can wrap and take the clock back
  (`Clock.MergePassesBothIff`, `Clock.MergeCanGoBackwards`); runs of fewer than
  2^32 steps never reach that.
- A bounded fetch loses newer rows of the first bucket when ids do not follow
  creation times (`DeltaFetch.FetchAnswersScanIff`,
  `DeltaFetch.UnorderedIdsLoseRows`).
- The cursor sent to a client is the server's clock and not the last row sent,
  so with more than a page of newer rows the rest is never sent
  (`PullRuns.SyncIsCompleteIff`, `PullRuns.MissingIffSkipped`,
  `PullRuns.LastRowIsLost`).
- An acknowledgement clears the queue for all channels
  (`QueueRuns.AckLosesOthersIff`, `QueueRuns.AckCanLose`).
- The two unpackers differ on some malformed bytes (`Frame.UnpackersAgreeIff`,
  `Frame.UnpackersDiffer`).
- A sync push does not invalidate the cached recent messages, and a reader whose
  refill comes after a send stores an old listing (`HistoryRuns.ReadIsExactIff`,
  `HistoryRuns.WriteIsHiddenIff`, `HistoryRuns.WriteCanBeHidden`).
- Once the winning claim has expired, whoever asks is told it is the creator
  (`CreatorElection.ToldOneIff`, `CreatorElection.BothAreCreatorsIff`).
- The comment on `enqueue` in `offline-queue.ts` speaks of evicting a batch; the
  code evicts one message, and so does the model.

## Model

| member | source | states |
|---|---|---|
| Clock.Hlc.Now | crates/mercury-crdt/src/hlc.rs:16-22 | a new clock stands at the system time, counter 0, under its node id |
| Clock.Ticked | crates/mercury-crdt/src/hlc.rs:28-36 | a local event lands strictly later in wall or counter whatever the system clock says, and fails exactly when the clock did not advance and the counter is exhausted |
| Clock.Hlc.Tick | crates/mercury-crdt/src/hlc.rs:28-36 | the in-place tick is that step; a panic leaves the clock as it was |
| Clock.TickIsLeast | crates/mercury-crdt/src/hlc.rs:28-36 | a tick goes no further than it must: to the least stamp of the node past the old one and not before the reading |
| Clock.Merged | crates/mercury-crdt/src/hlc.rs:39-54 | a receive takes the largest of the three wall values, keeps the node id, and counts on from the largest counter of the inputs standing at that wall, or from 0 if neither does |
| Clock.Hlc.Merge | crates/mercury-crdt/src/hlc.rs:39-54 | the in-place merge is that step, wrap-around of the counter included |
| Clock.MergePassesBothIff | crates/mercury-crdt/src/hlc.rs:41-53 | a receive lands after both inputs exactly when neither is at the largest of the three wall values with its counter exhausted |
| Clock.MergeIsLeast | crates/mercury-crdt/src/hlc.rs:39-54 | where it does, it goes to the least stamp of the node past both and not before the reading |
| Clock.MergeCanGoBackwards | crates/mercury-crdt/src/hlc.rs:43-44 | a concrete receive that moves the clock back |
| Clock.LessIsStrictTotalOrder | crates/mercury-crdt/src/hlc.rs:57-64 | the comparison is a strict total order on stamps |
| Clock.LessIsByRank | crates/mercury-crdt/src/hlc.rs:57-64 | the order is that of wall, counter and node written one after the other as a number |
| Clock.BigEndianOrder | crates/mercury-crdt/src/hlc.rs:57-64 | comparing node ids byte by byte is comparing them as big-endian numbers, so ids may be numbers |
| ClockRuns.NoOverflow | crates/mercury-crdt/src/hlc.rs:28-54 | in a run of fewer than 2^32 events no tick panics and no addition overflows, and counters are at most the number of events |
| ClockRuns.Causality | crates/mercury-crdt/src/hlc.rs:28-64 | an event that happened before another through any chain of local steps and messages has the smaller stamp, for any number of nodes and clocks that go backwards |
| ClockRuns.UniqueStamps | crates/mercury-crdt/src/hlc.rs:28-64 | no two events of a run share a stamp |
| ClockRuns.WallBounds | crates/mercury-crdt/src/hlc.rs:28-54 | every wall value lies between the node's own latest reading and the largest reading of any node |
| Joins.OrderFree | crates/mercury-crdt/src/traits.rs:1-8 | the three merge laws make the merge of any finite sequence depend only on the set of states in it |
| MessageLog.Log.constructor | crates/mercury-crdt/src/message_log.rs:20-25 | a new log is empty |
| MessageLog.Log.Append | crates/mercury-crdt/src/message_log.rs:31-39 | appends, or refuses at 100,000 entries and changes nothing |
| MessageLog.Log.EntriesAfter | crates/mercury-crdt/src/message_log.rs:43-48 | exactly the entries strictly after a stamp, ascending |
| MessageLog.Log.Merge | crates/mercury-crdt/src/message_log.rs:85-94 | the walk with the early break is the capped merge |
| MessageLog.Log.Equals | crates/mercury-crdt/src/message_log.rs:72-81 | the length check and pairwise walk hold exactly when the maps are equal |
| MessageLog.WalkTakesLowest | crates/mercury-crdt/src/message_log.rs:87-92 | a walk that stopped at its end or at the cap took exactly the lowest missing keys |
| MessageLog.CappedMergeExact | crates/mercury-crdt/src/message_log.rs:85-94 | keeps every own entry with its data, has min(100,000, size of the union) entries, and adds only the lowest missing ones of the other |
| MessageLog.FittingMerge | crates/mercury-crdt/src/message_log.rs:85-94 | if the union fits the cap the early break loses nothing |
| MessageLog.MergeIdempotent | crates/mercury-crdt/tests/crdt_laws.rs:89-94 | merging a log with itself changes nothing |
| MessageLog.MergeCommutesIff | crates/mercury-crdt/tests/crdt_laws.rs:66-73 | two logs merge alike in both directions exactly when they agree on shared keys and the union fits |
| MessageLog.MergeNotCommutative | crates/mercury-crdt/tests/crdt_laws.rs:66-73 | one key with two payloads breaks the promised law |
| LogAssociativity.MergeAssociatesIff | crates/mercury-crdt/tests/crdt_laws.rs:75-87 | merging three logs is associative exactly when the entries that the first takes from the second, and those of the third that undercut them, fit the first's room together |
| LogAssociativity.MergeAssociative | crates/mercury-crdt/tests/crdt_laws.rs:75-87 | in particular whenever everything fits the cap |
| LogAssociativity.MergeNotAssociativeAtCap | crates/mercury-crdt/tests/crdt_laws.rs:75-87 | a family of logs at the cap for which the promised law fails, with the entry that only one side keeps |
| LogAssociativity.CapBreaksAssociativity | crates/mercury-crdt/src/message_log.rs:8-9 | three concrete logs of that family |
| MessageLog.DeltaSyncIff | crates/mercury-crdt/src/message_log.rs:41-48 | merging only the entries after a stamp gives what merging everything gives, exactly when the receiver is full or has every earlier key |
| LwwRegister.LwwCell.Set | crates/mercury-crdt/src/lww_register.rs:19-25 | a write takes effect only if strictly newer |
| LwwRegister.LwwCell.Merge | crates/mercury-crdt/src/lww_register.rs:38-45 | the in-place merge keeps the later of the two |
| LwwRegister.LaterCommutesIff | crates/mercury-crdt/tests/crdt_laws.rs:66-73 | merging commutes exactly when equal timestamps carry equal values |
| LwwRegister.OtherWinsIff | crates/mercury-crdt/src/lww_register.rs:38-45 | the other register takes over exactly when strictly newer, and otherwise one's own stays |
| LwwRegister.LaterNotCommutative | crates/mercury-crdt/src/lww_register.rs:38-45 | two registers with one timestamp and two values, for which it does not |
| LwwRegister.LwwOrderFree | crates/mercury-crdt/src/traits.rs:1-8 | when each timestamp has one value, merging any sequence depends only on the set of registers in it |
| LwwRegister.LwwGreatest | crates/mercury-crdt/src/lww_register.rs:38-45 | the merge of any sequence is the member with the greatest timestamp |
| Replication.OneStampOnePayload | crates/mercury-crdt/src/message_log.rs:11-13 | in every run of devices that stamp with their ticked clocks, one stamp carries one payload and one name everywhere |
| Replication.LogsConverge | crates/mercury-crdt/src/message_log.rs:85-94 | with at most 100,000 appends a log is exactly what its holder absorbed, so equal absorptions mean equal logs, whatever the routes |
| Replication.NamesConverge | crates/mercury-crdt/src/lww_register.rs:38-45 | holders that heard the same writes show the same name, the last one written |
| Replication.LogsMergeInAnyOrder | crates/mercury-crdt/src/traits.rs:1-8 | logs of one run merge to the same log in any order, with any repetition, up to the cap |
| ReplicationProgress.AppendGoesLast | crates/mercury-crdt/src/message_log.rs:31-39 | in every run an append below the cap goes to the end of its device's log, under a stamp past all the device holds |
| ReplicationProgress.RenameTakesEffect | crates/mercury-crdt/src/lww_register.rs:19-25 | in every run a rename shows at once on its device, whatever names it has heard of |
| ReplicationProgress.DeliveryCarriesLog | crates/mercury-crdt/src/message_log.rs:85-94 | up to the cap, whoever takes delivery of a packet holds every entry it carries |
| ReplicationProgress.AppendIsDelivered | crates/mercury-crdt/src/message_log.rs:41-48 | an append that its device sends, in full or as a delta since an earlier stamp, is in the log of whoever takes delivery, however much later, up to the cap |
| ReplicationProgress.DeliveryCarriesName | crates/mercury-crdt/src/lww_register.rs:38-45 | whoever takes delivery shows a name at least as late as the packet's |
| Orset.OrSet.Add | crates/mercury-crdt/src/orset.rs:30-35 | the value is in the set afterwards, tagged with the node's next dot besides those it had |
| Orset.AddStoresDot | crates/mercury-crdt/src/orset.rs:30-35 | an add gives its value exactly one new dot, no other value any, and moves only the node's own number |
| Orset.OrSet.Remove | crates/mercury-crdt/src/orset.rs:37-39 | drops the value with all its dots, leaving no tombstone and the sequence numbers alone |
| Orset.RemoveTakesDots | crates/mercury-crdt/src/orset.rs:37-39 | a remove takes every dot of its value, none of another, and leaves the numbers |
| Orset.OrSet.Has | crates/mercury-crdt/src/orset.rs:42-44 | present exactly when some dot is held |
| Orset.OrSet.Len | crates/mercury-crdt/src/orset.rs:54-59 | the number of distinct values held |
| Orset.OrSet.Merge | crates/mercury-crdt/src/orset.rs:73-86 | the nested loops unite dots and take the larger sequence numbers |
| Orset.JoinCommutes | crates/mercury-crdt/tests/crdt_laws.rs:66-73 | merging commutes, unconditionally |
| Orset.JoinAssociates | crates/mercury-crdt/tests/crdt_laws.rs:75-87 | merging is associative, unconditionally |
| Orset.JoinIdempotent | crates/mercury-crdt/tests/crdt_laws.rs:89-94 | merging a set with itself changes nothing |
| Orset.OrsetOrderFree | crates/mercury-crdt/src/traits.rs:1-8 | merging any finite sequence depends only on the set of states in it |
| Orset.JoinContains | crates/mercury-crdt/src/orset.rs:73-80 | a value is in the merge exactly when it is in either side |
| Orset.RemoveIsForgotten | crates/mercury-crdt/src/orset.rs:37-39 | a removed value returns from exactly those copies that still hold it |
| OrsetRuns.DotsBounded | crates/mercury-crdt/src/orset.rs:30-39 | in every run no copy holds a dot or number beyond its owner's |
| OrsetRuns.AddIsFresh | crates/mercury-crdt/src/orset.rs:30-35 | the dot of an add is in no copy, on a node or in flight |
| OrsetRuns.OneValuePerDot | crates/mercury-crdt/src/orset.rs:73-86 | no dot ever tags two values, despite any removes and merges |
| OrsetRuns.AddedIsThere | crates/mercury-crdt/src/orset.rs:30-44 | in every run a node has what it has just added |
| OrsetRuns.AddedIsDelivered | crates/mercury-crdt/src/orset.rs:73-80 | and so has any node that takes delivery of the state sent next, however much later and whatever it removed before |
| OrsetRuns.SeqAtMostAdds | crates/mercury-crdt/src/orset.rs:31-32 | a sequence number is at most the number of adds, so 64 bits suffice for fewer than 2^64 |
| GCounter.Counter.Increment | crates/mercury-crdt/src/gcounter.rs:21-23 | raises one slot, and the total, by one |
| GCounter.Counter.Value | crates/mercury-crdt/src/gcounter.rs:26-28 | the sum over all slots |
| GCounter.Counter.Merge | crates/mercury-crdt/src/gcounter.rs:37-44 | the loop takes the larger of each slot |
| GCounter.CounterOrderFree | crates/mercury-crdt/src/traits.rs:1-8 | merging any finite sequence depends only on the set of states in it |
| GCounter.NeverOvercounts | crates/mercury-crdt/src/gcounter.rs:21-44 | no copy in a run shows more than the increments performed |
| GCounter.NeverDecreases | crates/mercury-crdt/src/gcounter.rs:21-44 | no step lowers any node's value |
| GCounter.CollectsEverything | crates/mercury-crdt/src/gcounter.rs:37-44 | merging every node's latest state, in any order with any other copies, shows exactly the increments performed |
| ReactionMap.Reactions.AddReaction | crates/mercury-crdt/src/reaction_map.rs:23-25 | the user stands behind the emoji afterwards, under a fresh dot |
| ReactionMap.Reactions.RemoveReaction | crates/mercury-crdt/src/reaction_map.rs:27-29 | the user no longer stands behind the emoji |
| ReactionMap.Reactions.Counts | crates/mercury-crdt/src/reaction_map.rs:32-38 | per emoji the number of distinct users, and no other emoji |
| ReactionMap.Reactions.Merge | crates/mercury-crdt/src/reaction_map.rs:61-65 | merges the inner sets |
| ReactionMap.MergedUsers | crates/mercury-crdt/src/reaction_map.rs:61-65 | after a merge a user stands behind an emoji exactly when on either side |
| ReactionMap.ReactionsChange | crates/mercury-crdt/src/reaction_map.rs:23-29 | adding or removing a reaction changes who stands behind an emoji for that pair and no other |
| Frame.EncodeFrame | sdks/mercury-sdk-js/src/frame.ts:48-61 | the buffer filled through the view holds the bytes of the server's bit syntax |
| Frame.LowestByteFirst | apps/gateway/lib/gateway/binary_socket.ex:169-173 | numbers go out with the lowest byte first |
| Frame.WireExample | sdks/mercury-sdk-js/src/frame.ts:48-61 | one frame spelt out byte by byte |
| Frame.DecodeEncode | sdks/mercury-sdk-js/src/frame.ts:48-76 | decoding an encoded frame returns its parts, cut to their field widths |
| Frame.EncodeDecode | sdks/mercury-sdk-js/src/frame.ts:63-76 | encoding what was decoded from any seven or more bytes returns those bytes |
| Frame.SameOnTheWireIff | sdks/mercury-sdk-js/src/frame.ts:57-57 | two refs look alike on the wire exactly when they differ by a multiple of 2^32 |
| Frame.PackEnvelopes | sdks/mercury-sdk-js/src/frame.ts:79-92 | the client's buffer holds the bytes that the server's packing produces |
| Frame.UnpackEnvelopes | sdks/mercury-sdk-js/src/frame.ts:95-107 | the loop with its offset computes the client's reading, throws included |
| Frame.ServerUnpackLongest | apps/gateway/lib/gateway/binary_socket.ex:892-904 | on any bytes the server returns the longest well-formed prefix up to the declared count, and nothing when there is no count |
| Frame.UnpackersAgreeIff | apps/gateway/lib/gateway/binary_socket.ex:892-904 | client and server read the same blobs exactly when the data is too short for a count, its body starts with as many whole chunks as declared, or it consists of whole chunks, no more than declared |
| Frame.UnpackersDiffer | sdks/mercury-sdk-js/src/frame.ts:95-107 | nine bytes with one cut blob, which the client hands out and the server drops |
| Frame.UnpackPack | apps/gateway/lib/gateway/binary_socket.ex:886-904 | either unpacker undoes the packing of any blobs below 2^32 in count and length |
| TopicTable.JoinGrantedIff | apps/gateway/lib/gateway/binary_socket.ex:178-257 | for every state and topic a join is granted exactly if an id is unused and the topic is a lobby, a presence, or a channel of 32 hexadecimal digits whose member the user is |
| TopicTable.JoinRefusedFor | apps/gateway/lib/gateway/binary_socket.ex:178-257 | which reason a refused join gets, in the order in which they are checked |
| TopicTable.JoinGrants | apps/gateway/lib/gateway/binary_socket.ex:178-255 | a granted join binds a new id to exactly the topic asked for and leaves the other ids alone |
| TopicTable.JoinFiles | apps/gateway/lib/gateway/binary_socket.ex:178-255 | a granted join puts the topic in the name table under its new id, leaves the other names, and records as its channel what follows the prefix, or none for a lobby |
| TopicTable.JoinListens | apps/gateway/lib/gateway/binary_socket.ex:133-142 | after a granted join to a channel or presence what is published there is sent under the new id, and nothing changes for other topics |
| TopicTable.LeaveForgets | apps/gateway/lib/gateway/binary_socket.ex:261-283 | a leave of a held id forgets that id, its topic and its broadcasts and nothing else; of any other id, nothing |
| TopicTable.PushIsAnswered | apps/gateway/lib/gateway/binary_socket.ex:287-306 | a push to an id not held, or of a channel event elsewhere, gets the error that says so; any other exactly its handler's answer |
| TopicTable.NeedsChannelIff | apps/gateway/lib/gateway/binary_socket.ex:295-300 | outside channels exactly the bytes 0x01 to 0x14 are refused, but for new messages, key packages, channel creation, presence and status |
| TopicTable.LeaveIsHandled | apps/gateway/lib/gateway/binary_socket.ex:104-105 | the frame of a leave does just that leave, and is not answered |
| TopicTable.OtherFramesDoNothing | apps/gateway/lib/gateway/binary_socket.ex:96-113 | frames of no expected shape change and answer nothing |
| TopicTable.ChannelsNeedMembers | apps/gateway/lib/gateway/binary_socket.ex:178-215 | in every run a channel is in the table, and its broadcasts are sent, only if the user was found a member when joining it |
| TopicTable.HandleInKeepsInv | apps/gateway/lib/gateway/binary_socket.ex:96-113 | no frame, however malformed, breaks the consistency of the three topic tables |
| TopicTable.JoinReplyNames | apps/gateway/lib/gateway/binary_socket.ex:166-176 | the id in the reply to a granted join is the next unused one, and the table now holds it for the topic asked for |
| TopicTable.TopicSafety | apps/gateway/lib/gateway/binary_socket.ex:133-283 | over every run the ids read from join replies are 1, 2, 3 and so on up to 65535, the tables name each other, and each broadcast frame carried an id then joined to that topic |
| TopicTable.PubsubInjective | apps/gateway/lib/gateway/binary_socket.ex:186-186 | two topics of a tenant never share a pubsub topic |
| Transport.BinaryTransport.NextRef | sdks/mercury-sdk-js/src/transport.ts:221-224 | hands out the next ref |
| Transport.BinaryTransport.Join | sdks/mercury-sdk-js/src/transport.ts:91-110 | registers the topic and the callback under a new ref, then sends the frame if open |
| Transport.BinaryTransport.Push | sdks/mercury-sdk-js/src/transport.ts:112-130 | sends under the id the topic is mapped to; an unmapped topic or a closed socket leaves no callback waiting |
| Transport.BinaryTransport.HandleMessage | sdks/mercury-sdk-js/src/transport.ts:168-200 | a reply runs the waiting callback of its ref once; a granted join leaves its topic mapped to the reply's id; anything else runs none |
| Transport.JoinRegisters | sdks/mercury-sdk-js/src/transport.ts:91-110 | after a join its topic counts as joined and the next ref waits for its reply, with everything that waited before |
| Transport.GrantMaps | sdks/mercury-sdk-js/src/transport.ts:175-188 | a reply of status OK with an id to a waiting join maps its topic to that id and back, keeps all other mappings, and waits no more |
| Transport.OtherFramesKeepMaps | sdks/mercury-sdk-js/src/transport.ts:175-188 | any other frame leaves both maps alone |
| Transport.FailureForgets | sdks/mercury-sdk-js/src/transport.ts:98-106 | a failed join forgets its topic and maps nothing |
| Transport.StrayFramesDoNothing | sdks/mercury-sdk-js/src/transport.ts:168-191 | a frame that answers nothing that waits changes nothing |
| Transport.BinaryTransport.RunCallback | sdks/mercury-sdk-js/src/transport.ts:98-106 | a failed join forgets the topic |
| Transport.BinaryTransport.Disconnect | sdks/mercury-sdk-js/src/transport.ts:75-89 | every waiting callback runs once with an error and all maps are empty |
| Connection.ServingIsGood | apps/gateway/lib/gateway/binary_socket.ex:166-306 | serving any request of the client answers that very request, and dispatches a push against the topic it was asked for |
| Connection.CallbacksRunOnce | sdks/mercury-sdk-js/src/transport.ts:168-191 | over every interleaving a callback runs at most once, and from a frame only with the server's reply to that same request |
| Connection.MappingsAgree | sdks/mercury-sdk-js/src/transport.ts:178-186 | whenever the client maps a topic to an id, the server's id stands for that topic |
| Connection.PushesReachTheirTopic | apps/gateway/lib/gateway/binary_socket.ex:287-306 | every push is dispatched against the topic its caller named |
| ConnectionProgress.JoinIsAnsweredIff | apps/gateway/lib/gateway/binary_socket.ex:166-176 | the server answers every join that does not crash, and with the next unused id exactly if the join may be granted |
| ConnectionProgress.GrantIsMapped | sdks/mercury-sdk-js/src/transport.ts:175-188 | in every run, receiving the grant of a waiting join maps its topic to the server's id and runs its callback |
| ConnectionProgress.MappedPushIsSent | sdks/mercury-sdk-js/src/transport.ts:112-130 | in every run, a push to a mapped topic on an open socket is sent to the mapped id, and its callback waits |
| ConnectionProgress.JoinRoundTrip | apps/gateway/lib/gateway/binary_socket.ex:166-255 | from any point of a run with nothing under way, a join that may be granted is served and received, and leaves the topic joined and mapped to the server's next id |
| ConnectionProgress.WaitingIsAnswered | sdks/mercury-sdk-js/src/transport.ts:171-191 | in every run, receiving the reply to a waiting request runs its callback with the reply's status and data |
| MessageTable.BucketMonotone | crates/mercury-core/src/time_bucket.rs:19-23 | later times never lie in earlier buckets |
| MessageTable.BucketIsTenDays | crates/mercury-core/src/time_bucket.rs:4-6 | a bucket holds exactly ten days |
| MessageTable.DescendingOrder | apps/persistence/lib/persistence/messages.ex:14-21 | a partition is listed once each, in strictly descending order of id |
| MessageTable.MessageStore.Insert | apps/persistence/lib/persistence/messages.ex:33-53 | one row under its key, replacing an earlier one |
| MessageTable.IdPosition | apps/persistence/lib/persistence/messages.ex:14-21 | an id stands in its partition's listing behind as many as are higher |
| DeltaFetch.SortIsSort | apps/persistence/lib/persistence/sync.ex:30-30 | the rows come out ascending by creation, the same rows as often |
| DeltaFetch.SortIsStable | apps/persistence/lib/persistence/sync.ex:30-30 | rows of one time keep their order |
| DeltaFetch.FetchedIsReached | apps/persistence/lib/persistence/sync.ex:25-29 | the buckets yield exactly the newer rows among the highest `limit + 1` ids of their bucket, once each |
| DeltaFetch.PageIsOldest | apps/persistence/lib/persistence/sync.ex:30-34 | what a page leaves out of what was fetched is no older than the page |
| DeltaFetch.FetchAnswersIff | apps/persistence/lib/persistence/sync.ex:17-23 | a fetch answers exactly when both times lie below the end of the last 32-bit bucket, whatever the table and however many buckets lie between |
| DeltaFetch.PageIsSound | apps/persistence/lib/persistence/sync.ex:17-51 | whatever the ids, a page is ascending, without repetition, made of newer rows, and says there is more only with reason |
| DeltaFetch.FetchAnswersScanIff | apps/persistence/lib/persistence/sync.ex:17-51 | the bucketed fetch gives a plain scan's answer exactly when more than `limit` newer rows are among the highest ids of their buckets, or no newer row of the first bucket lies below its highest ids |
| DeltaFetch.FetchRefinesScan | apps/persistence/lib/persistence/sync.ex:17-51 | with ids that follow time, more is reported exactly when over `limit` rows are newer, and otherwise exactly those come, once each, ascending |
| DeltaFetch.UnorderedIdsLoseRows | apps/persistence/lib/persistence/sync.ex:106-136 | a table of three rows whose newer row is never delivered nor announced |
| DeltaApply.ApplyDeltas | apps/persistence/lib/persistence/sync.ex:56-67 | over 1000 deltas change nothing; otherwise they are applied in order up to the first without a bucket, and all are counted |
| DeltaApply.ApplyingOverlays | apps/persistence/lib/persistence/sync.ex:156-171 | apart from times of receipt, a batch of named deltas overlays the table with the last delta of each key, whatever was there |
| DeltaApply.RepushingIsHarmless | apps/persistence/lib/persistence/sync.ex:156-171 | any number of pushes of a batch, each cut anywhere, followed by a whole one, leave the table as one push would, apart from times of receipt |
| DeltaApply.UnnamedIsDuplicated | apps/persistence/lib/persistence/sync.ex:157-157 | over any table, every push of a delta without an id stores one more row and touches no other |
| DeltaApply.UntimedIsStampedAnew | apps/persistence/lib/persistence/sync.ex:160-170 | a delta without a time is filed under the time of the push, with its sender and content, and touches no other row |
| ClientStore.LocalStore.constructor | sdks/mercury-sdk-js/src/store.ts:34-64 | the stores start empty, queue ids at 1 |
| ClientStore.LocalStore.WriteMessage | sdks/mercury-sdk-js/src/store.ts:83-91 | upserts one message |
| ClientStore.LocalStore.EvictOldMessages | sdks/mercury-sdk-js/src/store.ts:125-163 | the cursor loop removes exactly the channel's earliest messages, as many as exceed 10,000 |
| ClientStore.EvictionIsUnique | sdks/mercury-sdk-js/src/store.ts:125-163 | that description leaves only one result |
| ClientStore.EvictionTakesOldest | sdks/mercury-sdk-js/src/store.ts:143-157 | what eviction removes from a channel is older than what it keeps, by time and at one time by id |
| ClientStore.EvictionBounds | sdks/mercury-sdk-js/src/store.ts:5-5 | a channel then has at most 10,000 messages, and loses none if it had no more |
| ClientStore.EvictionSparesOthers | sdks/mercury-sdk-js/src/store.ts:131-134 | other channels are untouched |
| ClientStore.LocalStore.GetSyncState | sdks/mercury-sdk-js/src/store.ts:167-174 | the stored cursor, if any |
| ClientStore.LocalStore.SetSyncState | sdks/mercury-sdk-js/src/store.ts:176-184 | replaces one channel's cursor |
| ClientStore.LocalStore.Enqueue | sdks/mercury-sdk-js/src/store.ts:188-196 | adds at the end under the next id |
| ClientStore.LocalStore.Dequeue | sdks/mercury-sdk-js/src/store.ts:198-218 | the first `count` items, oldest first, or all; nothing is removed |
| ClientStore.LocalStore.ClearQueue | sdks/mercury-sdk-js/src/store.ts:220-230 | removes exactly the items up to an id, of every channel |
| SyncEngine.OfflineQueue.Enqueue | sdks/mercury-sdk-js/src/offline-queue.ts:17-36 | a full queue gives up exactly its oldest item, then the new one is added |
| SyncEngine.OfflineQueue.Drain | sdks/mercury-sdk-js/src/offline-queue.ts:39-41 | the oldest 100 |
| SyncEngine.OfflineQueue.Ack | sdks/mercury-sdk-js/src/offline-queue.ts:44-46 | clears up to the id |
| SyncEngine.Engine.StoreDeltas | sdks/mercury-sdk-js/src/sync.ts:42-55 | upserts the message deltas of a reply in order and counts them |
| SyncEngine.LastDeltaWins | sdks/mercury-sdk-js/src/sync.ts:42-52 | the copy of a message is what the last delta for it says |
| SyncEngine.UnnamedStay | sdks/mercury-sdk-js/src/sync.ts:42-52 | messages that a reply does not name, and other channels, stay as they were |
| SyncEngine.AppendsCountMessages | sdks/mercury-sdk-js/src/sync.ts:53-53 | every message delta counts once, and nothing else does |
| SyncEngine.Engine.PullAll | sdks/mercury-sdk-js/src/sync.ts:28-56 | asks with the wall of the previous reply until one reports no more |
| SyncEngine.PullIsOneBatch | sdks/mercury-sdk-js/src/sync.ts:28-56 | pulling in pages stores, counts and ends as one reply with all their deltas would; each request asks from the reply before, and none follows the last |
| SyncEngine.Engine.PushPending | sdks/mercury-sdk-js/src/sync.ts:62-77 | pushes the channel's items among the oldest 100, and acknowledges only after the push returned |
| SyncEngine.Engine.SyncChannel | sdks/mercury-sdk-js/src/sync.ts:23-83 | the whole state after a sync in each of its outcomes: a rejected pull moves no cursor, a rejected push clears nothing, eviction comes last |
| QueueRuns.QueueIsSuffix | sdks/mercury-sdk-js/src/offline-queue.ts:17-46 | however syncs and enqueues interleave, the queue is the end of what was ever queued, in order, at most 10,000 |
| QueueRuns.NothingIsLost | sdks/mercury-sdk-js/src/sync.ts:62-77 | with one queueing channel every queued item is still there, was accepted, or gave way at capacity |
| QueueRuns.BatchIsOldest | sdks/mercury-sdk-js/src/offline-queue.ts:39-41 | then a sync takes the front of the queue |
| QueueRuns.LeavesOnlyWhenPushed | sdks/mercury-sdk-js/src/sync.ts:67-77 | then an item leaves exactly when a push that carried it has returned, or as the oldest of a full queue |
| QueueRuns.AckLosesOthersIff | sdks/mercury-sdk-js/src/store.ts:220-225 | an acknowledgement drops unpushed items exactly when another channel's item is queued ahead of the last one pushed |
| QueueRuns.AckCanLose | sdks/mercury-sdk-js/src/sync.ts:72-76 | a run of three steps in which that happens |
| PushRuns.QueuedMessagesArrive | sdks/mercury-sdk-js/src/sync.ts:62-77 | with one queueing channel, whatever pushes were cut or lost their answer: an item is still queued, gave way at capacity, or the server's table has a row under its key, somebody else's or what an item of that key says |
| PushRuns.MessagesArriveUnchanged | apps/persistence/lib/persistence/sync.ex:156-171 | and if nothing else uses the key, the row is the item's own, apart from the time of receipt |
| PushRuns.BatchIsAccepted | apps/persistence/lib/persistence/sync.ex:56-58 | a drained batch is never too large for the server |
| PullRuns.RequestsArePull | sdks/mercury-sdk-js/src/sync.ts:28-60 | consecutive requests of a run store what the pull loop stores and end where it ends, the cursor moved only when it finished |
| PullRuns.RequestMovesOn | sdks/mercury-sdk-js/src/sync.ts:37-60 | a request is answered exactly when both times have a bucket, and then moves the cursor to the server's wall or, exactly when more than a page is reached, leaves the client pulling from there |
| PullRuns.CursorNeverDecreases | sdks/mercury-sdk-js/src/sync.ts:58-60 | in every run the stored cursor only grows and no request asks for less |
| PullRuns.MissingIffSkipped | sdks/mercury-sdk-js/src/sync.ts:37-60 | in runs with any number of newer rows, aborted pulls included, a row at or below the cursor is missing from the copy exactly if, since it was last altered, some page skipped it and none carried it |
| PullRuns.PullKeepsUp | sdks/mercury-sdk-js/src/sync.ts:28-60 | when writes come after the walls replied and no gap exceeds a page, no page skips a row and the copy holds every server row up to the cursor after every step |
| PullRuns.TwoRequests | sdks/mercury-sdk-js/src/sync.ts:37-56 | with no row dated later than the reply and no write in between, pulling takes at most two requests, the second bringing nothing |
| PullRuns.SyncIsCompleteIff | apps/gateway/lib/gateway/binary_socket.ex:552-605 | such a sync delivers min(100, newer) rows, is complete exactly when at most 100 were newer, and no later request delivers the rest |
| PullRuns.PassedRowsAreNotSent | apps/gateway/lib/gateway/binary_socket.ex:565-575 | once the cursor has passed a row no page of the rest of the run carries it, whatever is written meanwhile |
| PullRuns.LastRowIsLost | apps/gateway/lib/gateway/binary_socket.ex:566-603 | a table of 101 newer rows in order: the sync gets 100, and no later request the last |
| Cache.HexRoundTrip | apps/persistence/lib/persistence/cache.ex:206-222 | decoding the stored creator gives back the user id |
| Cache.KeysAreDistinct | apps/persistence/lib/persistence/cache.ex:228-232 | entries of different kinds, tenants, users or channels never share a key text |
| Cache.CachedRowsReadBack | apps/persistence/lib/persistence/cache.ex:119-176 | cached messages read back in order and whole, apart from their time of receipt |
| Cache.SharedCache.RateCheck | apps/persistence/lib/persistence/cache.ex:187-195 | counts the call, postpones the expiry and allows up to the limit; an unreachable cache allows |
| Cache.SharedCache.SetMlsCreator | apps/persistence/lib/persistence/cache.ex:220-224 | a live claim stays, expiry included |
| Cache.SharedCache.GetMlsCreator | apps/persistence/lib/persistence/cache.ex:200-217 | the live claimant; an undecodable text is deleted and counts as none |
| Cache.SharedCache.GetRecent | apps/persistence/lib/persistence/cache.ex:85-147 | the live entry, decoded in order; an undecodable one is deleted and counts as none |
| Cache.SharedCache.PutRecent | apps/persistence/lib/persistence/cache.ex:112-117 | replaces the entry and its expiry |
| Cache.PutIsReadBack | apps/persistence/lib/persistence/cache.ex:85-117 | for 30 seconds what was put is read back as shown, then nothing; other entries are read as before |
| Cache.SharedCache.InvalidateRecent | apps/persistence/lib/persistence/cache.ex:179-182 | drops one channel's entry |
| History.TableReadIsExact | apps/persistence/lib/persistence/messages.ex:108-129 | two limited reads give the first `limit` rows of the current bucket followed by the previous one |
| History.MessageHistory.PersistMessage | apps/gateway/lib/gateway/binary_socket.ex:906-932 | stores the message and only then drops the channel's entry; a failed write leaves both, and without a database the entry is dropped all the same |
| History.MessageHistory.ReadRecentFromScylla | apps/persistence/lib/persistence/messages.ex:108-129 | exactly those rows |
| History.MessageHistory.ReadRecent | apps/persistence/lib/persistence/messages.ex:87-106 | an entry long enough answers; otherwise the table does, and refills the entry unless it had nothing |
| HistoryRuns.RowPosition | apps/persistence/lib/persistence/messages.ex:108-129 | a row is listed behind exactly the rows of a later bucket or a higher id |
| HistoryRuns.FirstRowsAlikeIff | apps/persistence/lib/persistence/messages.ex:108-129 | the first `limit` rows of a table and of a later one look alike exactly when every row that changed has at least `limit` rows ahead of it |
| HistoryRuns.ReadIsExactIff | apps/persistence/lib/persistence/messages.ex:87-129 | after any run of sends, sync pushes, expiries and two-step reads, a read shows the first `limit` rows of the table exactly when the table answers it or every row that changed since the entry's rows were read has `limit` rows ahead of it |
| HistoryRuns.ReadIsExact | apps/persistence/lib/persistence/messages.ex:87-129 | in particular when no write to the channel came since those rows were read |
| HistoryRuns.SendsAndReadsAgree | apps/gateway/lib/gateway/binary_socket.ex:906-932 | in runs of sends, two-step reads with any limits, and expiries, every read is exact if no refill is overtaken by a send |
| HistoryRuns.WriteIsHiddenIff | apps/persistence/lib/persistence/sync.ex:156-171 | a push after a read, or a send between a reader's two steps, makes a cached read wrong exactly when its row is new or changed, of the current or previous bucket, and among the first `limit` |
| HistoryRuns.WriteCanBeHidden | apps/persistence/lib/persistence/messages.ex:91-106 | two runs over a table of one row in which that happens |
| RateLimiter.WindowBound | apps/persistence/lib/persistence/cache.ex:187-195 | no window shorter than a second holds more than `limit` allowed calls of a user, whoever else calls |
| RateLimiter.BusyPeriodAllowsFirst | apps/persistence/lib/persistence/cache.ex:190-192 | the allowed calls of a busy period are exactly its first `limit` |
| CreatorElection.OneCreator | apps/gateway/lib/gateway/binary_socket.ex:802-830 | while the first claim lives, over every interleaving all answers for a channel name its first claimant and exactly that user is told 1 |
| CreatorElection.ToldOneIff | apps/gateway/lib/gateway/binary_socket.ex:802-830 | after any run a request is told 1 exactly when its user made the claim that last took effect or that claim has expired, and otherwise is told that user |
| CreatorElection.FirstClaimDecidesIff | apps/gateway/lib/gateway/binary_socket.ex:802-830 | while all claims came within the first one's life, a request is told 1 exactly when its user is the first claimant or it asks after that life, however early it claimed |
| CreatorElection.BothAreCreatorsIff | apps/persistence/lib/persistence/cache.ex:220-224 | two callers in turn, as a run: both are told 1 exactly when the second comes after the first claim expired |

## Left out

- MLS and AES-GCM, Cap'n Proto encoding, and the NIF, WASM and worker bridges: foreign libraries; envelopes are byte blobs, and their fields arrive as values.
- Failures of the database, NATS, Redpanda and Redis beyond an unreachable cache; supervision, telemetry, health checks, JWT and Ecto schemas.
- Base64 and JSON texts in the cache and in deltas: taken to be faithful.
- Reconnect timers, overlapping sockets, event handler bindings, the heartbeat timeout, and the five-second MLS fallback in `channel.ts`.
- Duplicate PubSub subscriptions after a re-join, and the presence broadcast that a join sends to others.
- Node restarts: a clock or a set that loses its state could reuse stamps or dots.
- Reaction and read-position deltas, the content of offline sends, `user_reactions`, `latest_hlc`, `readMessages`, presence and the members cache: settled by reading one branch.
- `update_cursor` and `sync:cursor`: nothing reads the stored cursor in the sync path.
- Rounding of numbers above 2^53 in the client: walls are taken to be exact.
- Message ids, node ids and row keys of one length stand as big-endian numbers; for node ids `Clock.BigEndianOrder` shows that this keeps their order.
- Bucket numbers of 2^31 and more, which the database column would show as negative: rows with such times are outside the model's table reads.
- Counter.Increment: does not model 64-bit overflow, because `NeverOvercounts` bounds every value by the number of increments.
- Counter.Value: sums without the 64-bit limit, for the same reason.
- OrSet.Add: sequence numbers are unbounded, because `SeqAtMostAdds` bounds them by the number of adds.
- CallbacksRunOnce: speaks of one connection and fewer than 2^32 steps; `SameOnTheWireIff` shows why later refs would collide.
- PullKeepsUp: meant before eviction, and under conditions on the surroundings that it lists; `MissingIffSkipped` states what is missing without the bound on the gap.
- MissingIffSkipped: a rewritten row must be dated later than the one it replaces, because a row restored to an earlier form would be in the copy by accident.
- MessagesArriveUnchanged: payloads are taken to carry the id and time of their message; a payload without a time is stamped anew by every push.
- HandleMessage: does not run event bindings or resolve deferred ones.
- PersistMessage: is the body of the task it starts; when the task runs, and the events it publishes, are not modelled.
- CachedRowsReadBack: Base64 and JSON are taken to be faithful, so it speaks of the records only.
- ReadIsExactIff: the bucket does not change during a run, and the two selects of one table read are one step.
- OneCreator: the cache answers every command; when it does not, `GetMlsCreator` finds no creator and the caller is told 1.
- WindowBound: the clock of the cache does not go backwards and the cache answers; when it does not, `RateCheck` allows.
- ApplyDeltas: what the database would answer to an insert is not modelled, so every delta counts as accepted.
