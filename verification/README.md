# Delivery core of the wolfMQTT broker, modelled and proved in Dafny

The project models the parts of wolfMQTT on which message delivery rests and proves
what MQTT 3.1.1 and MQTT 5.0 demand of them, for every input and every run:

- the outbound queue of a subscriber session, live and orphaned, with its drain loop,
  acknowledgements, drop-oldest offline queue and resumption (`OutQueue*`);
- its records in the key-value store and what a restart rebuilds from them
  (`BigEndian`, `Records`, `FileNames`, `Restore`, `Durable`);
- session ownership: clients, subscriptions, orphaned sessions, takeover, and the
  inbound QoS 2 state that travels with a session (`Sessions*`);
- the two-phase fan-out of a PUBLISH (`Fanout*`), the retained list (`Retained*`) and
  Wills (`Wills*`), each under re-entrant changes;
- topic matching and the filter grammar (`TopicNames`, `TopicMatch`), packet identifiers
  (`PacketId`);
- the wire codec: Variable Byte Integers, UTF-8, property blocks, CONNECT, PUBLISH and
  SUBSCRIBE (`VbiCodec`, `Utf8`, `Fields`, `Props`, `Packets`, `ConnectPacket`,
  `PublishPacket`, `SubscribePacket`, `WireForms`).

`dafny verify dfyconfig.toml` checks everything.

## How the model is built

Each area has transition functions over plain values that follow the C code branch by
branch, a run function over a datatype of events, an invariant that every event keeps,
and theorems about all runs. Where the C code updates objects in place or loops, a class
or a method with loops does the same (`OutQueueImpl`, `Restorer`, `SessionsImpl`,
`RetainedImpl`, `WillsImpl`, `FanoutImpl`, and the loops of `PacketId`, `FileNames`,
`VbiCodec`, `Utf8`, `Props`, `SubscribePacket`, `TopicNames`, `TopicMatch`) and is proved
equal to the transition function. Fields such as `log`, `hist`, `sid`, `wid` and `seqno`
are history: transitions write them and never read them, so the theorems can speak about
the past without influencing it.

Choices that matter for reading the statements:

- The dynamic-memory build with `WOLFMQTT_V5`, `WOLFMQTT_MAX_QOS` 2, wildcards, retained
  messages, Wills and persistence is modelled. Allocation and key-value operations succeed.
- A write is an arbitrary outcome: complete, deferred, or failed, with or without bytes on
  the wire. Outcomes are a list that the drain consumes; it is universally quantified.
- Time is a number that only the environment advances, except where a backward clock is
  part of the code's guard.
- Acknowledgements are handled only while no queued write is unfinished, as
  `BrokerClient_Process` does (src/mqtt_broker.c:8525-8541).
- A PUBACK ends any entry whose PUBLISH was sent, whatever its QoS, as the dynamic build
  does (src/mqtt_broker.c:2340-2348).
- Re-entrancy (a write that makes another connection close) is an explicit argument: a
  list or tree of closings, or of operations, at the writes of a fan-out, of a Will and of
  a retained delivery. Four limits: `Wills` ignores closings during the DISCONNECT that a
  version 5 takeover sends (src/mqtt_broker.c:6925-6927); `Sessions` leaves out closings of
  the connecting and of the replaced client; a `Fanout` effect unlinks and accepts
  connections but does not change another peer's queue or connected flag; and a Will's
  fan-out never runs the sweep of waiting Wills. For retained deliveries the plan allows
  more than the code does, which writes only when the subscriber's queue is full.
- Byte buffers are sequences; a decoder gets the whole receive buffer, including bytes
  after the packet.

## What turned out not to hold

Each of these is stated as a lemma, with the exact condition under which the code does
meet the property.

- A resumed session re-sends everything outstanding only if the new connection's window is
  wide enough: `OutQueueResume.ResumeExact`, with a reachable failing run in
  `OutQueueResume.SmallerWindowStrands`.
- Session Present is 0 for some resumed sessions: `SessionsTheorems.PresentExact`,
  `SessionsTheorems.PresentUnderreports`.
- The topic scan misses matches that section 4.7 of MQTT 3.1.1 requires for topics that end
  in an empty level or have two adjacent empty levels, and for no others:
  `TopicMatch.MatchExactIff`.
- An offline queue does not always survive a restart as it was: after a takeover that
  freed a queue whose records were in the store, a restart brings dropped messages back
  (`Durable.TakeoverRestoresStale`). `Durable.OfflineQueueDurable` gives the exact
  condition, `Durable.NothingLeftOver` one that can be checked before each takeover.
- A retained message can be refused inside a delivery although the map has room:
  `RetainedTheorems.StoreDecides`, with a reachable run in
  `RetainedTheorems.NestedStoreRefused`.
- A Will with time left to wait is published at once when the pool is full, and in no
  other case before it is due: `WillsTheorems.EarlyExact`, `WillsTheorems.PublishesEarly`.
- A Will is published twice if and only if its own connection closes again inside its
  fan-out: `WillsTheorems.AtMostOnceExact`, `WillsTheorems.ReentryPublishesTwice`.
- An encodable CONNECT with an empty version 5 Will topic, or with Authentication Data and
  no Method, is refused by the decoder: `ConnectPacket.ConnectRoundTrip`. A SUBSCRIBE with
  more than 12 topics encodes and does not decode: `SubscribePacket.SubscribeRoundTrip`.

## Model

| member | source | states |
|---|---|---|
| `OutQueueTheorems.OrderedDelivery` | src/mqtt_broker.c:2012-2275 | in every run, the PUBLISH packets that the drain puts on the wire of one connection are strictly increasing in the order the session accepted them |
| `OutQueueTheorems.DupExact` | src/mqtt_broker.c:2093-2194 | in every run, a QoS > 0 PUBLISH carries DUP exactly when an earlier attempt put its first byte on the wire; QoS 0 never does |
| `OutQueueTheorems.NeverRepublished` | src/mqtt_broker.c:2368-2399 | in every run, no PUBLISH of a message starts after its PUBREC was accepted |
| `OutQueueTheorems.QueueConsistent` | src/mqtt_broker.c:1964-2450 | in every reachable state, live or orphaned: count is the length, the in-flight counter is the number of sent entries and bounded by the widest window, QoS 0 is never sent-and-kept, PUBREL only for QoS 2, identifiers nonzero and distinct |
| `OutQueueTheorems.PeakBounded` | src/mqtt_broker.c:2024-2028 | no run widens the window beyond the configured in-flight cap |
| `OutQueueTheorems.ResumesTheSamePacket` | src/mqtt_broker.c:2148-2151 | in every run, a drain never meets a pending write of another length: a deferred write is always resumed with the packet it belongs to |
| `OutQueueInvariant.VisitKeeps` | src/mqtt_broker.c:2032-2272 | one iteration of the drain, for every write outcome, keeps the whole invariant |
| `OutQueueInvariant.DrainKeeps` | src/mqtt_broker.c:2012-2275 | a drain keeps the invariant for every sequence of write outcomes |
| `OutQueueInvariant.UnlinkKeeps` | src/mqtt_broker.c:2306-2330 | unlinking an acknowledged entry keeps the invariant, counters included |
| `OutQueueInvariant.PubRecKeeps` | src/mqtt_broker.c:2368-2399 | accepting a PUBREC keeps the invariant and the in-flight count |
| `OutQueueInvariant.EnqueueKeeps` | src/mqtt_broker.c:8046-8115 | enqueueing on a connected subscriber keeps identifiers distinct and the bound |
| `OutQueueInvariant.EvictKeeps` | src/mqtt_broker.c:3841-3867 | drop-oldest ends below the offline cap and keeps the invariant |
| `OutQueueInvariant.OfflineEnqueueKeeps` | src/mqtt_broker.c:3827-3926 | queueing for an orphan keeps the invariant |
| `OutQueueInvariant.OrphanKeeps` | src/mqtt_broker.c:3654-3702 | moving the queue to an orphan, half-sent QoS 0 entry dropped, keeps the invariant |
| `OutQueueInvariant.ReclaimKeeps` | src/mqtt_broker.c:3749-3821 | reclaiming recounts the in-flight entries exactly and keeps the invariant |
| `OutQueueInvariant.StepKeeps` | src/mqtt_broker.c:1964-2450 | every event keeps the invariant |
| `OutQueueInvariant.RunKeeps` | src/mqtt_broker.c:1964-2450 | every reachable state satisfies the invariant |
| `OutQueueResume.OutstandingIsPrefix` | src/mqtt_broker.c:2030-2088 | messages published in full form a prefix of the queue no longer than the widest window |
| `OutQueueResume.ResumeExact` | src/mqtt_broker.c:3787-3806 | after orphaning and reclaim, one drain whose writes complete re-sends every outstanding message, as PUBLISH with DUP or as PUBREL, if and only if the new window covers the outstanding prefix or that prefix is all PUBREL |
| `OutQueueResume.WideEnoughResumesAll` | src/mqtt_broker.c:3787-3806 | on a connection whose window is no smaller than any the session has had, every outstanding message is re-sent |
| `OutQueueResume.SmallerWindowStrands` | src/mqtt_broker.c:2024-2028 | a reachable run in which a smaller Receive Maximum leaves an outstanding message unsent |
| `OutQueueLoss.EvictsOldest` | src/mqtt_broker.c:3841-3867 | eviction removes exactly the oldest entries, as many as needed |
| `OutQueueLoss.LeavesOnlyWhen` | src/mqtt_broker.c:1964-2450 | an encodable QoS > 0 message leaves the queue only by its own acknowledgement after it was sent in full, as one of the oldest of a full offline queue, when its session ends, or when its live connection is taken over, which frees the queue although the session goes on |
| `OutQueueProgress.DrainProgress` | src/mqtt_broker.c:2012-2275 | after any run, a drain stops only when nothing is queued, when the next message has QoS > 0 and the in-flight window is full (and reports that exactly then), or for a write that did not complete; every entry it passed has its PUBLISH on the wire in full and awaits its acknowledgement, or its PUBREL is there, QoS 0 messages are gone only behind their own, and the first queued message is passed unless the window was full |
| `OutQueueProgress.AckLetsNextGo` | src/mqtt_broker.c:2332-2362 | after any run, the acknowledgement that ends an entry takes it out of the queue and uses the slot: the first queued message goes out if the window was not overfull, and the drain goes on until the window is full again or nothing is queued |
| `OutQueueProgress.HandshakeCompletes` | src/mqtt_broker.c:2368-2450 | after any run, PUBREC moves a QoS 2 entry on in its slot and the PUBCOMP after it ends it |
| `OutQueueProgress.EntriesComeFrom` | src/mqtt_broker.c:1964-2450 | after every event each entry is one of before, with message, QoS, identifier and length as they were, or the one just enqueued with those it was given |
| `OutQueueProgress.OfflineEnters` | src/mqtt_broker.c:3827-3926 | after any run, a QoS > 0 message for an orphan enters behind the newest entry under a free identifier and the next enqueue_seq, the oldest making room; only an exhausted enqueue_seq refuses it |
| `OutQueueProgress.Qos0LeavesOnlyWhen` | src/mqtt_broker.c:1964-2450 | an encodable QoS 0 message leaves the queue only when its first byte has gone out, as one of the oldest of a full offline queue, with its session or a takeover, or when its connection ends in the middle of a write |
| `OutQueueImpl.BrokerClient.EnqueueOutPub` | src/mqtt_broker.c:1964-1979 | appends at the tail and counts |
| `OutQueueImpl.BrokerClient.SendRel` | src/mqtt_broker.c:2043-2080 | the PUBREL write of a resumed entry |
| `OutQueueImpl.BrokerClient.SendPublish` | src/mqtt_broker.c:2152-2272 | the PUBLISH write with its three outcomes |
| `OutQueueImpl.BrokerClient.DrainOutQueue` | src/mqtt_broker.c:2012-2275 | the drain loop computes the drain function |
| `OutQueueImpl.BrokerClient.FindOutPub` | src/mqtt_broker.c:2282-2304 | finds the first entry with the identifier and state, or none |
| `OutQueueImpl.BrokerClient.UnlinkOutPub` | src/mqtt_broker.c:2306-2330 | unlinks and releases the in-flight slot |
| `OutQueueImpl.BrokerClient.PubAck` | src/mqtt_broker.c:2332-2362 | PUBACK ends a sent entry and drains on |
| `OutQueueImpl.BrokerClient.PubRec` | src/mqtt_broker.c:2368-2399 | PUBREC moves a QoS 2 entry to PUBREL |
| `OutQueueImpl.BrokerClient.PubReject` | src/mqtt_broker.c:2402-2424 | a failing PUBREC ends a QoS 2 entry |
| `OutQueueImpl.BrokerClient.PubComp` | src/mqtt_broker.c:2426-2450 | PUBCOMP ends a PUBREL entry |
| `OutQueueImpl.BrokerClient.MarkForResend` | src/mqtt_broker.c:3787-3806 | the walk that marks in-flight entries for retransmission |
| `OutQueueImpl.OrphanSession.Take` | src/mqtt_broker.c:3654-3702 | the queue moves to the orphan and the client's is empty |
| `OutQueueImpl.OrphanSession.Renumber` | src/mqtt_broker.c:3731-3741 | enqueue_seq from 1 in queue order |
| `OutQueueImpl.OrphanSession.MakeRoom` | src/mqtt_broker.c:3841-3867 | the drop-oldest loop computes the eviction |
| `OutQueueImpl.OrphanSession.EnqueueOffline` | src/mqtt_broker.c:3827-3926 | queues for an orphan, or refuses when identifiers or sequence numbers run out |
| `OutQueueImpl.OrphanSession.ReclaimInto` | src/mqtt_broker.c:3749-3821 | the queue moves to the new client, ready to resume |
| `PacketId.NextFreeExact` | src/mqtt_broker.c:4586-4613 | the search returns the first free identifier of 1..65535 going round from the counter, and 0 only when none is free |
| `PacketId.ShortQueueNeverExhausts` | src/mqtt_broker.c:4586-4613 | a queue shorter than 65535 always leaves an identifier |
| `PacketId.InQueue` | src/mqtt_broker.c:4574-4584 | membership in the queue |
| `PacketId.NextPacketIdForQueue` | src/mqtt_broker.c:4586-4613 | the do-while loop terminates with the first free identifier and advances the counter past it |
| `PacketId.RetryUntilFree` | src/mqtt_broker.c:3016-3036 | the static build's retry loop terminates with a free identifier whenever the queue is shorter than 65535 |
| `BigEndian.GetPut` | src/mqtt_broker_persist.c:114-153 | reading a big-endian integer back |
| `BigEndian.PutGet` | src/mqtt_broker_persist.c:114-153 | a big-endian integer is the only encoding of its value |
| `Records.UnframeFrame` | src/mqtt_broker_persist.c:157-200 | the header reader accepts what the header writer wrote and returns the body |
| `Records.OutRoundTrip` | src/mqtt_broker_persist.c:956-1035 | an outbound record decodes to itself |
| `Records.RetRoundTrip` | src/mqtt_broker_persist.c:853-904 | a retained record decodes to itself |
| `Records.KeyInjective` | src/mqtt_broker_persist.c:920-936 | client identifier and packet identifier can be read off the key |
| `Records.DelSelectsExactly` | src/mqtt_broker_persist.c:1107-1137 | the prefix test takes exactly one client's keys when identifiers are free of NUL |
| `Records.NulWouldConfuse` | src/mqtt_broker_persist.c:1107-1137 | with a NUL in an identifier the prefix test takes another client's key |
| `FileNames.UnHexHex` | src/mqtt_broker_persist_posix.c:91-138 | decoding a hex name gives the key back |
| `FileNames.HexEncode` | src/mqtt_broker_persist_posix.c:91-101 | the encoding loop fills the buffer with the hex name |
| `FileNames.HexDecode` | src/mqtt_broker_persist_posix.c:104-138 | the decoding loop succeeds exactly on well-formed names that fit |
| `FileNames.NamesInjective` | src/mqtt_broker_persist_posix.c:292-310 | distinct keys have distinct file names |
| `FileNames.OutRecordsNeverCollide` | src/mqtt_broker_persist_posix.c:292-310 | two outbound entries share a file only if they are the same entry |
| `Restore.RestoreExact` | src/mqtt_broker_persist.c:2308-2440 | whatever order the backend iterates in, the restored queue is the stored one in enqueue_seq order with exact counters |
| `Restore.Restorer.DecodeAndInsert` | src/mqtt_broker_persist.c:2308-2440 | one record is decoded and inserted at its place, or skipped |
| `Restore.Restorer.IterateOutq` | src/mqtt_broker_persist.c:2442-2456 | the iteration over the namespace |
| `Durable.StepStores` | src/mqtt_broker.c:2120-2145 | with every event's shadow writes and deletes made handler by handler, the client's keys are those of its recorded entries and of what takeovers left behind, readable, and an offline queue's entries are stored as they are |
| `Durable.OfflineQueueDurable` | src/mqtt_broker.c:3722-3742 | after any run that leaves the session offline, a restart under any iteration order rebuilds the same QoS > 0 entries in order, each with its topic, payload, RETAIN, level, times, QoS, identifier, DUP, enqueue_seq and state, with the same in-flight count, if and only if no takeover left a record that was neither rewritten nor deleted since, that is, if every key of the client belongs to an entry |
| `Durable.NothingLeftOver` | src/mqtt_broker.c:6942-6978 | if no takeover of the run frees a queue with shadow-written entries, nothing is left over |
| `Durable.LeftOverVisible` | src/mqtt_broker_persist.c:2442-2456 | in an offline session something is left over exactly when the store has a key of the client that no entry has |
| `Durable.LeftIsRestored` | src/mqtt_broker_persist.c:2308-2440 | whatever is left over is restored, so that the rebuilt queue differs |
| `Durable.TakeoverRestoresStale` | src/mqtt_broker.c:4143-4150 | a reachable run (queued for an orphan, resumed, taken over, offline again) whose queue is empty and whose restart is not |
| `Durable.OthersUntouched` | src/mqtt_broker_persist.c:1140-1208 | no event of one client changes another client's records |
| `VbiCodec.DecodesExactly` | src/mqtt_packet.c:561-592 | the decoder accepts exactly the canonical encodings of 0..268435455, with their length |
| `VbiCodec.MqttDecodeVbi` | src/mqtt_packet.c:561-592 | the shifting loop computes the decoding, errors included |
| `VbiCodec.MqttEncodeVbi` | src/mqtt_packet.c:594-618 | the loop writes the canonical encoding and nothing else |
| `Utf8.WellFormedExact` | src/mqtt_packet.c:694-746 | the recogniser accepts exactly the concatenations of RFC 3629 encodings of code points in U+0001..U+10FFFF without surrogates |
| `Utf8.Utf8WellFormed` | src/mqtt_packet.c:694-746 | the loop computes the recogniser |
| `Fields.UIntRoundTrip` | src/mqtt_packet.c:621-669 | two- and four-byte integers read back |
| `Fields.StringRoundTrip` | src/mqtt_packet.c:765-803 | an encoded string reads back, whatever follows |
| `Fields.StringCanonical` | src/mqtt_packet.c:765-803 | an accepted string is well-formed and its field is its encoding |
| `Props.ValueRoundTrip` | src/mqtt_packet.c:910-1046 | an encoded property value decodes to itself |
| `Props.ValueCanonical` | src/mqtt_packet.c:1154-1384 | an accepted property value re-encodes to the bytes it was read from |
| `Props.PropsRoundTrip` | src/mqtt_packet.c:852-1407 | decoding an encoded block gives the list back and consumes it, exactly when Authentication Data comes with a Method |
| `Props.PropsCanonical` | src/mqtt_packet.c:1068-1407 | an accepted block is consumed to its declared length, inside the buffer, and re-encodes to the identical bytes |
| `Props.MqttEncodeProps` | src/mqtt_packet.c:852-1063 | the encoding walk with its duplicate guard and limits |
| `Props.MqttDecodeOne` | src/mqtt_packet.c:1088-1385 | one iteration of the decoding walk |
| `Props.MqttDecodeProps` | src/mqtt_packet.c:1068-1407 | the decoding walk |
| `Packets.HeaderRoundTrip` | src/mqtt_packet.c:146-179 | a fixed header decodes to its fields |
| `Packets.BlockRoundTrip` | src/mqtt_packet.c:1466-1483 | a length-prefixed property block decodes to its properties |
| `WireForms.PropertyForms` | src/mqtt_packet.c:36-128 | every property encodes in the form the table of section 2.2.2.2 of MQTT 5.0 gives its identifier: one byte of 0 or 1, two or four bytes big-endian, Variable Byte Integer, length-prefixed string or binary data, or a string pair |
| `WireForms.DecodedForms` | src/mqtt_packet.c:1154-1384 | and so does every property that decodes |
| `WireForms.PropertyPackets` | src/mqtt_packet.c:36-128 | the properties admitted in each packet type |
| `WireForms.BlockExact` | src/mqtt_packet.c:852-1063 | a block encodes if and only if it has at most 30 properties, each admitted and with an encodable value, none repeated but User Property and, in a PUBLISH, Subscription Identifier, and fits the largest length |
| `WireForms.DecodedBlock` | src/mqtt_packet.c:1068-1407 | every block that decodes is such a one |
| `WireForms.FirstByte` | src/mqtt_packet.c:146-179 | packet type, DUP, QoS and RETAIN in their bits of the first byte |
| `WireForms.ConnectFlagBits` | src/mqtt_packet.c:1628-1650 | the bits of the connect flags |
| `PublishPacket.PublishRoundTrip` | src/mqtt_packet.c:2324-2673 | decoding an encoded PUBLISH followed by any bytes, gives the message back with the payload that has arrived and the full packet length; the encoder writes a prefix of the payload, none with a callback, and the whole of it when it fits and is there; bytes after a complete packet do not matter |
| `SubscribePacket.TopicsRoundTrip` | src/mqtt_packet.c:3018-3052 | the topic list reads back exactly when it has at most 12 entries |
| `SubscribePacket.SubscribeRoundTrip` | src/mqtt_packet.c:2900-3234 | decoding an encoded SUBSCRIBE gives the request back and its length exactly when it has at most 12 topics; otherwise it is refused |
| `SubscribePacket.MqttDecodeTopics` | src/mqtt_packet.c:3128-3213 | the topic loop |
| `ConnectPacket.WillOk` | src/mqtt_packet.c:1891-1980 | the Will fields read back unless the topic is empty |
| `ConnectPacket.ConnectRoundTrip` | src/mqtt_packet.c:1425-2066 | decoding an encoded CONNECT gives the request back with every byte consumed exactly when the Will topic is not empty and Authentication Data comes with a Method; otherwise it is refused with the stated error |
| `TopicNames.TopicNameValid` | src/mqtt_packet.c:438-454 | the loop accepts exactly wildcard-free names, empty ones from level 5 on |
| `TopicNames.TopicFilterValidEx` | src/mqtt_packet.c:352-406 | the loops compute the placement rule, with the share name rule at level 5 |
| `TopicMatch.FilterValidIsGrammar` | src/mqtt_packet.c:352-406 | the byte-wise placement rule is the level grammar of section 4.7.1 of MQTT 3.1.1 |
| `TopicMatch.BrokerTopicMatch` | src/mqtt_broker.c:6171-6222 | the two-cursor loop computes the scan |
| `TopicMatch.MatchSound` | src/mqtt_broker.c:6171-6222 | for every accepted filter and every topic, a match by the scan is a match by levels with the `$` rule |
| `TopicMatch.MatchComplete` | src/mqtt_broker.c:6171-6222 | for topics whose last level is not empty and that have no two adjacent empty levels, scan and levels agree |
| `TopicMatch.MatchExactIff` | src/mqtt_broker.c:6171-6222 | at every level, scan and levels agree on every valid filter if and only if the topic is of that kind |
| `TopicMatch.NoEmptyLevelExact` | src/mqtt_broker.c:6171-6222 | topics without empty levels are of that kind |
| `SessionsTheorems.Ownership` | src/mqtt_broker.c:3553-3744 | in every reachable state: unbound subscriptions have an orphan, bound ones a linked client with the same identifier, an identifier has one holder, sub_count is exact and capped, one subscription per filter and session, the orphan pool counted and capped |
| `SessionsTheorems.ConnectOutcome` | src/mqtt_broker.c:6897-7047 | an accepted CONNECT, with any connections closing while an old Will is published, keeps the invariant and resumes exactly the surviving live session or the orphan of its identifier, or starts afresh |
| `SessionsTheorems.PresentExact` | src/mqtt_broker.c:6942-7047 | Session Present 1 means a resumed session; 0 hides a resumed one exactly when a live session without subscriptions and pending identifiers is taken over |
| `SessionsTheorems.PresentUnderreports` | src/mqtt_broker.c:6942-6978 | a reachable takeover that continues the session and reports Session Present 0 |
| `SessionsTheorems.AtMostOnce` | src/mqtt_broker.c:7702-7734 | in every run, between two fan-outs of one packet identifier in one session lies a PUBREL for it |
| `SessionsTheorems.PendingExact` | src/mqtt_broker.c:1530-1720 | in every reachable state the pending set is exactly what was fanned out and not released, without repeats, counted and bounded |
| `SessionsTheorems.SweepKeeps` | src/mqtt_broker.c:3947-3976 | the expiry sweep leaves no expired orphan and keeps the invariant |
| `SessionsTheorems.SubscribeKeeps` | src/mqtt_broker.c:4277-4409 | subscribing keeps the invariant, at the cap and on updates |
| `SessionsTheorems.UnsubscribeKeeps` | src/mqtt_broker.c:4411-4469 | unsubscribing keeps the invariant |
| `SessionsTheorems.StepKeeps` | src/mqtt_broker.c:3553-4178 | every event keeps the ownership invariant |
| `SessionsSteps.DropOrphanKeeps` | src/mqtt_broker.c:3553-3598 | dropping an orphan with its subscriptions keeps the invariant |
| `SessionsSteps.MakeRoomKeeps` | src/mqtt_broker.c:3630-3634 | eviction makes room and leaves every client alone |
| `SessionsSteps.OrphanedKeeps` | src/mqtt_broker.c:3980-4097 | a closing client's subscriptions and state pass to a new orphan |
| `SessionsSteps.DroppedKeeps` | src/mqtt_broker.c:4100-4178 | a closing client without a session to keep leaves nothing behind |
| `SessionsConnect.ResumedKeeps` | src/mqtt_broker.c:4731-4788 | resuming an orphan binds all its subscriptions to the client and counts them |
| `SessionsConnect.InheritedKeeps` | src/mqtt_broker.c:6942-6978 | a surviving takeover passes subscriptions and pending set on whole |
| `SessionsConnect.DiscardKeeps` | src/mqtt_broker.c:4656-4724 | Clean Start leaves nothing of the old session |
| `SessionsLaws.SubscribeExact` | src/mqtt_broker.c:4277-4409 | a SUBSCRIBE leaves its filter at the QoS it names, new or repeated; only a new filter beyond the cap is refused; every other subscription of every session stays |
| `SessionsLaws.UnsubscribeExact` | src/mqtt_broker.c:4411-4469 | an UNSUBSCRIBE takes its filter away and nothing else |
| `SessionsLaws.CloseExact` | src/mqtt_broker.c:3980-4178 | a connection that ends leaves an orphan with its expiry counted from now, its pending identifiers and its subscriptions as they were, or with a zero expiry nothing; another session is touched only if the pool is full and it is the oldest |
| `SessionsLaws.EvictionExact` | src/mqtt_broker.c:3525-3546 | a full pool gives up exactly the earliest listed of its longest waiting sessions |
| `SessionsLaws.SweepExact` | src/mqtt_broker.c:3947-3976 | a sweep ends exactly the orphans whose expiry is finite and over, with their subscriptions, and leaves all others |
| `SessionsLaws.ConnectSubs` | src/mqtt_broker.c:6897-7047 | after an accepted CONNECT a resumed session has all its subscriptions with their QoS, any other none, and the expiry is the one asked for, a reclaimed orphan's standing in for "never" |
| `SessionsLaws.SetExpiryExact` | src/mqtt_broker.c:8787-8807 | a DISCONNECT sets a version 5 session's expiry unless it is zero |
| `SessionsLaws.Publish2Exact` | src/mqtt_broker.c:7702-7734 | after any run, a QoS 2 PUBLISH is fanned out exactly when its identifier is not open in the session, a repeat changes nothing, one beyond the cap ends the connection |
| `SessionsLaws.Release2Exact` | src/mqtt_broker.c:1604-1645 | after any run, a PUBREL closes its identifier and no other |
| `SessionsImpl.MqttBroker.UnlinkSubs` | src/mqtt_broker.c:3568-3596 | the unlink walk removes exactly the selected subscriptions |
| `SessionsImpl.MqttBroker.RebindSubs` | src/mqtt_broker.c:4763-4778 | the rebinding walk rebinds and counts exactly the selected subscriptions |
| `SessionsImpl.MqttBroker.OrphanDropFull` | src/mqtt_broker.c:3553-3598 | drops an orphan and its subscriptions |
| `SessionsImpl.MqttBroker.EvictOldest` | src/mqtt_broker.c:3525-3546 | the scan finds the earliest of the oldest orphans and drops it |
| `SessionsImpl.MqttBroker.OrphanTake` | src/mqtt_broker.c:3604-3744 | makes room and links the new orphan |
| `SessionsImpl.MqttBroker.SubsOrphanClient` | src/mqtt_broker.c:3980-4097 | orphans a client's session |
| `SessionsImpl.MqttBroker.SubsRemoveClient` | src/mqtt_broker.c:4100-4152 | removes a client's subscriptions |
| `SessionsImpl.MqttBroker.SubsEndClientSession` | src/mqtt_broker.c:4154-4178 | ends a session |
| `SessionsImpl.MqttBroker.CloseClient` | src/mqtt_broker.c:8292-8325 | the close paths |
| `SessionsImpl.MqttBroker.SubsAdd` | src/mqtt_broker.c:4277-4409 | updates, adds at the head, or refuses at the cap |
| `SessionsImpl.MqttBroker.SubsRemove` | src/mqtt_broker.c:4411-4469 | removes one subscription |
| `SessionsImpl.MqttBroker.SubsReassociate` | src/mqtt_broker.c:4731-4788 | rebinds a session's subscriptions and counts them |
| `SessionsImpl.MqttBroker.Qos2Contains` | src/mqtt_broker.c:1530-1557 | membership in the pending set |
| `SessionsImpl.MqttBroker.ReceivePublish2` | src/mqtt_broker.c:7702-7734 | fans out exactly the non-duplicates; beyond the cap closes the connection |
| `SessionsImpl.MqttBroker.ReceivePubRel` | src/mqtt_broker.c:1604-1645 | releases the identifier |
| `SessionsImpl.MqttBroker.TakeOver` | src/mqtt_broker.c:6936-6978 | passes a surviving session on or drops it, and unlinks the old connection |
| `SessionsImpl.MqttBroker.ReclaimOrphan` | src/mqtt_broker.c:3749-3821 | moves an orphan's state to its client |
| `SessionsImpl.MqttBroker.DiscardSession` | src/mqtt_broker.c:6988-7017 | Clean Start's removal of subscriptions and orphan |
| `SessionsImpl.MqttBroker.HandleConnect` | src/mqtt_broker.c:6897-7047 | the session part of an accepted CONNECT and its Session Present |
| `SessionsImpl.MqttBroker.ExpireSweep` | src/mqtt_broker.c:3947-3976 | the rescan loop computes the sweep |
| `RetainedTheorems.RefinesMap` | src/mqtt_broker.c:4815-5100 | after any nesting of stores, deletes and deliveries the list holds what the map of accepted operations holds, one node per topic, counted and capped, no deferred delete left |
| `RetainedTheorems.DeliverExact` | src/mqtt_broker.c:5683-5837 | a delivery that nothing re-enters before the subscriber's queue is full queues, once each and at the smaller QoS, exactly the matching unexpired messages up to the queue's room, and loses none |
| `RetainedDelivery.DeliverUnderReentry` | src/mqtt_broker.c:5683-5837 | whatever re-enters a delivery and wherever: each message sent is the map's at its turn and matches, no topic is sent twice, and a matching message that no nested operation stores or deletes and that does not expire is sent or cut by the room |
| `RetainedDelivery.WalkHolds` | src/mqtt_broker.c:5683-5800 | a nested delivery leaves every live node it does not touch at its distance from the end of the list |
| `RetainedDelivery.WalkSends` | src/mqtt_broker.c:5683-5800 | a walk sends an untouched live matching node before it, unless the room runs out |
| `RetainedDelivery.SentInOrder` | src/mqtt_broker.c:5683-5800 | messages are sent in list order |
| `RetainedTheorems.StoreDecides` | src/mqtt_broker.c:4877-5027 | a store is refused although the map has room if and only if a delivery is under way, the topic has no node and the list is full with a deleted or expired node; outside deliveries it is refused exactly when the map is full without the topic |
| `RetainedTheorems.StoreServes` | src/mqtt_broker.c:4877-5027 | after any run, an accepted message stays in the map as it was published (payload, QoS, expiry, time) as long as nothing touches its topic, and deliveries to matching filters send it, at the smaller QoS, exactly until its expiry interval is over |
| `RetainedTheorems.DeleteServes` | src/mqtt_broker.c:5029-5100 | after any run, a deleted topic is in neither the map nor a delivery until something is stored for it again |
| `RetainedTheorems.NestedStoreRefused` | src/mqtt_broker.c:4952-4960 | a reachable run with a cap of one: a delivery inside which its message is deleted and another stored ends with an empty map |
| `RetainedTheorems.RestartRebuilds` | src/mqtt_broker_persist.c:1527-1682 | a restart, in any iteration order, rebuilds the same unexpired map within the cap |
| `Retained.Perform` | src/mqtt_broker.c:5055-5069 | operations nested in a delivery never take a node off the list |
| `Retained.Walk` | src/mqtt_broker.c:5683-5800 | a nested walk only ever adds nodes in front of what the outer walk holds |
| `RetainedInvariant.StoreKeeps` | src/mqtt_broker.c:4877-5027 | a store keeps list, map and store file in step |
| `RetainedInvariant.DeleteKeeps` | src/mqtt_broker.c:5029-5100 | a delete, immediate or deferred, keeps list, map and store file in step |
| `RetainedInvariant.ReapKeeps` | src/mqtt_broker.c:4815-4875 | reaping removes exactly the expired nodes and retires their records |
| `RetainedInvariant.WalkKeeps` | src/mqtt_broker.c:5683-5800 | the delivery walk keeps the invariant under every nesting |
| `RetainedImpl.RetainedList.ReapExpiredNodes` | src/mqtt_broker.c:4815-4875 | the reaping walk |
| `RetainedImpl.RetainedList.StoreMessage` | src/mqtt_broker.c:4877-5027 | stores or refuses |
| `RetainedImpl.RetainedList.DeleteMessage` | src/mqtt_broker.c:5029-5100 | deletes or defers |
| `RetainedImpl.RetainedList.DeliverToClient` | src/mqtt_broker.c:5524-5840 | the delivery walk, re-entered as planned |
| `RetainedImpl.RetainedList.PurgeNodes` | src/mqtt_broker.c:5808-5837 | the reap after the outermost delivery |
| `WillsTheorems.AtMostOnceExact` | src/mqtt_broker.c:5845-5877 | over every run, a Will is published twice, or has two fates at all, if and only if some executed closing names a linked client whose Will is being fanned out |
| `WillsTheorems.WillsConserved` | src/mqtt_broker.c:5174-5497 | over every run without that re-entry: a Will has at most one fate and until then is with its client or waiting, in one place; waiting ones keep to the pool and to one per identifier |
| `WillsTheorems.EarlyExact` | src/mqtt_broker.c:5174-5318 | over every run: a waiting Will is due at the earliest of its delay, a finite session expiry and the end of time, and a Will is published before it is due if and only if it had time left to wait and the pool was full when its connection ended |
| `WillsTheorems.WillFollowsConnection` | src/mqtt_broker.c:5174-5318 | after any run, the Will a CONNECT brought waits when its connection closes, under its identifier, until the earliest of its delay, the session's expiry and the end of time; without a delay, under version 3.1.1 or with a full pool it goes out at once |
| `WillsTheorems.TakeoverSettles` | src/mqtt_broker.c:6920-6935 | after any run, a takeover keeps a version 5 Will from ever being published and publishes a version 3.1.1 one |
| `WillsTheorems.DisconnectWithWill` | src/mqtt_broker.c:8808-8814 | after any run, a version 5 DISCONNECT with reason 0x04 has the Will wait until the earliest of its delay, the session's expiry and the end of time, or sends it out at once, as a lost connection would |
| `WillsTheorems.PublishesEarly` | src/mqtt_broker.c:5852-5866 | a reachable run that publishes a Will a thousand seconds early |
| `WillsTheorems.NeverAfterDropped` | src/mqtt_broker.c:8808-8831 | a Will dropped by DISCONNECT or cancelled by a reconnect is never published |
| `WillsTheorems.DisconnectDrops` | src/mqtt_broker.c:8808-8839 | when a run ends in a normal DISCONNECT of the client that holds a Will, no continuation of it, re-entrant or not, ever has that Will published |
| `WillsTheorems.ConnectCancels` | src/mqtt_broker.c:6902-6903 | when a run ends in a CONNECT whose identifier has a Will waiting, no continuation of it ever has that Will published |
| `WillsTheorems.SweepExact` | src/mqtt_broker.c:5415-5497 | a sweep publishes every Will that is due, keeps the others in order and loses none put in front meanwhile; if one of its fan-outs re-enters, a Will goes out twice |
| `WillsTheorems.ReentryPublishesTwice` | src/mqtt_broker.c:5869-5877 | a run from the start in which closing again inside its own fan-out publishes a Will twice |
| `WillsTheorems.StepKeeps` | src/mqtt_broker.c:5174-5497 | every event keeps the Will invariant, or re-enters and publishes a Will twice |
| `WillsHistory.StepFollows` | src/mqtt_broker.c:5174-5497 | every event only adds to the history, and keeps publications to their times |
| `WillsHistory.RunSilent` | src/mqtt_broker.c:5323-5376 | once nobody holds a Will and it is not waiting, no run mentions it again |
| `WillsInvariant.CloseDups` | src/mqtt_broker.c:5869-5877 | a close that re-enters a fan-out, at any depth, publishes the Will again |
| `WillsInvariant.CloseAllKeeps` | src/mqtt_broker.c:5845-5877 | whatever closes during a fan-out without re-entering one, the invariant holds and publishing clients are untouched |
| `WillsInvariant.DeferKeeps` | src/mqtt_broker.c:5174-5318 | deferring moves the Will to the pool |
| `WillsImpl.WillBroker.AddPending` | src/mqtt_broker.c:5174-5318 | defers with the saturating due time, or reports a full pool |
| `WillsImpl.WillBroker.CancelPending` | src/mqtt_broker.c:5323-5376 | removes the first pending Will of the identifier |
| `WillsImpl.WillBroker.PublishClientWill` | src/mqtt_broker.c:5845-5877 | defers or publishes |
| `WillsImpl.WillBroker.ProcessPending` | src/mqtt_broker.c:5415-5497 | the sweep that unlinks behind new heads |
| `Fanout.CollectExact` | src/mqtt_broker.c:7976-8008 | the collect pass yields one target per matching subscription of a connected client and one entry per matching orphaned one when neither QoS is 0, in list order, at the smaller of the two QoS, and nothing else |
| `Fanout.DeliverExact` | src/mqtt_broker.c:8016-8119 | no unlinked client is ever used although the list is searched only when its generation changed, and every target gets the outcome its client deserves at its turn |
| `Fanout.FanoutConserves` | src/mqtt_broker.c:7976-8120 | exactly one outcome for every matching subscription of a connected client: an entry of the smaller QoS if and only if the client is linked, connected, under quota and has an identifier free at its turn; each entry is added at the tail of that client's queue under a free identifier with the publication's topic, payload, time and expiry, a client over quota is disconnected, and no other queue or connection changes, whatever closes meanwhile |
| `Fanout.EntriesExact` | src/mqtt_broker.c:8046-8115 | over a whole delivery, every turn adds its one entry to its client's queue, drained unless it is the publisher's, or changes no queue |
| `Fanout.NeverExhausted` | src/mqtt_broker.c:8088-8098 | with right counters no destination is refused for want of an identifier |
| `Fanout.FanoutComplete` | src/mqtt_broker.c:7976-8120 | when nobody leaves and there is room, every matching subscription gets its entry |
| `FanoutRuns.ReachableFanout` | src/mqtt_broker.c:7976-8120 | the conservation law in every reachable session state with reachable queues: every unbound subscription has its orphan, and identifiers never run out |
| `FanoutImpl.FanoutList.Add` | src/mqtt_broker.c:4237-4263 | appends, doubling the array when full |
| `FanoutImpl.CollectTargets` | src/mqtt_broker.c:7978-8008 | the collect walk |
| `FanoutImpl.DeliverTargets` | src/mqtt_broker.c:8017-8119 | the delivery loop |

## Left out

- Sockets, TLS, WebSocket plumbing and the byte-level resume of a deferred write: a write is an arbitrary outcome.
- AES-GCM wrapping of records, POSIX file operations and rename durability: the plaintext wrap mode over an abstract map.
- The static-memory build, except the packet identifier retry loop: its fixed tables bound the same lists.
- Session and subscription records and their restore: the same header and field codecs over other fields.
- Version 5 properties of queued messages: the store does not keep them.
- DUP and no-republication across a broker restart: records are not rewritten when a live entry changes state.
- Drains skipped because a CONNACK or direct response is still being written: they change nothing.
- Reuse of a freed client's address for a new connection during a fan-out, and wrap-around of clients_gen after 2^32 changes.
- Unsubscribe, acknowledgement, DISCONNECT, PING and AUTH codecs, reason codes, keep-alive: each is settled by one branch.
- Credentials, access policy, logging, scrubbing of memory, command line, start and stop.
- PublishRoundTrip: total_len below 2^31, where the C code's int arithmetic does not overflow; the payload a callback writes is the caller's.
- ConnectOutcome: closings of the connecting and of the replaced client while the old Will is published are left out.
- MatchExactIff: at level 5, topics that start with `$share/` are left aside; `MatchSound` and `MatchComplete` hold for them too.
- FanoutConserves: entries for orphaned sessions are listed with their QoS; what queueing one does is `OutQueueInvariant.OfflineEnqueueKeeps` and `OutQueueLoss.LeavesOnlyWhen`.
- LeavesOnlyWhen: an entry whose PUBLISH the encoder refuses is dropped by the drain and is excluded.
