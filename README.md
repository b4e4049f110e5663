# esp8266-mqtt-min: the MQTT client engine of `mqtt.c`, in Dafny

`mqtt.c` is a small MQTT 3.1.1 client for the ESP8266. Its state is a set of
globals:

- the connection state (`CLOSED`, `CONNECTING`, `OPEN`, `DATA_SENT`, `CLOSING`);
- a linked-list send queue;
- the packet-id counter `nextId`;
- the receive buffer `rxbuf`;
- the static locals of the protothread `recv_pt` (`type`, `len`, `pos`).

The SDK calls into it through callbacks (`dns_cb`, `connect_cb`, `recv_cb`,
`sent_cb`, `discon_cb`, `recon_cb` and the two timer callbacks). The host
calls into it through `mqtt_connect`, `mqtt_publish`, `mqtt_subscribe` and
`mqtt_unsubscribe`.

The model has two layers.

- **Engine value and pure operations.** `Engine.EngineState` holds every
  global. It also holds two logs of what the engine did to the outside world:
  - `wire`: the frames handed to `espconn_send`, each marked as sent directly
    or taken off the queue;
  - `events`: the host callbacks run or scheduled, and the scheduled
    `espconn_disconnect` and `espconn_delete`.

  Each entry point is a function on this value, in module `Engine`, built on:
  - the byte codec (`Codec`);
  - the frame layouts (`Frames`);
  - the resumable receiver (`Receiver`), where the protothread's resume point
    is an explicit state: awaiting the type byte, the first or second length
    byte, or payload bytes.
- **The imperative class.** `Client.Client` is `mqtt.c` as an object. Its fields
  are the globals and `recv_pt`'s locals, and `rxbuf` is an array filled in
  place. It has one method per C function: the queue walk of `enQ` is a loop,
  and `recv_pt`'s chunk loop is a loop in `Receive`. Every method is proved to
  move the object exactly as the matching `Engine` function moves the value
  (`Model() == Engine.X(old(Model()))`). Frames are built by writing into an
  array through `put_header`/`put_u16`/`put_string`-style methods. Each
  builder is proved to produce the layout `Frames` defines.

Both layers carry three corrections to `handle_rxbuf` and `connect_cb`, listed
under "## Findings":
- a QoS 0 message reaches the host as the C string it holds, not empty;
- a PUBREC is answered with type byte 0x62;
- CONNECT announces a will with the Will Flag 0x04.

Module `AsWritten` holds both entry points as the code has them. Its lemmas
show that the two versions differ only in those three places and agree
everywhere else.

What is proved about the engine:

- **Codec:**
  - encodings round-trip (`PublishRoundTrip`, `HeaderRoundTrip`,
    `U16OfBigEndian`);
  - the header size matches the builders' `buflen` formula.
- **Receiver:** splitting the byte stream into chunks never changes the
  outcome (`ChunkingIrrelevant`, `ByteByByte`, `RxRunConcat`), including
  back-to-back frames.
- **Queue:**
  - the depth bound and the forced-insert bypass hold;
  - between two `sent_cb` or `connect_cb` inputs, at most one queued frame
    is dispatched (`Trace.OneFrameInFlight`), and from `DATA_SENT`, `CLOSING`
    or `CLOSED` none is;
  - nothing enqueued is lost or reordered except by `discon_cb`
    (`Trace.RunKeepsOutbox`).
- **Inbound handling:** the CONNACK, PUBLISH and acknowledgement rules of
  `handle_rxbuf`.
- **Packet ids:** the `nextId` counter skips 0, and it moves only for
  packets that need an acknowledgement.

Three behaviours of the code that a reader might not expect:

- **Queue limit.** `enQ` counts entries and tests `count >= q_max` only after
  counting one. So an empty queue never refuses, even with `q_max == 0`, and
  the limit is `max(q_max, 1)` (`Engine.Limit`).
- **Bytes that arrive while closed.** `recv_cb` skips them with no change of
  state (`EngineProps.FeedInactive`).
- **Fatal errors and the queue.** The receiver's error path and `timeout_cb`
  keep the send queue. Only `discon_cb` and `recon_cb` drop it
  (`Engine.RecvError`, `Engine.TimeoutCb`).

## Model

| member | source | states |
|---|---|---|
| Codec.Kind | mqtt.c:177 | `type & 0xF0` is the multiple of 16 at or below the type byte, within 16 of it |
| Codec.U16 | mqtt.c:151-156 | two bytes whose big-endian reading is the value |
| Codec.U16OfBigEndian | mqtt.c:211 | reading two bytes big-endian and writing the value back gives the same two bytes |
| Codec.Str | mqtt.c:159-168 | length is 2 + strlen modulo 65536 (uint16_t); for a string under 65536 bytes: a big-endian length, then the raw bytes, no terminator |
| Codec.DecodeStr | mqtt.c:211-219 | accepts exactly when at least two bytes are there and the big-endian length fits what follows; the string has that length, and writing it back with put_string gives exactly the bytes consumed |
| Codec.StrRoundTrip | mqtt.c:159-168 | reading back what put_string wrote, followed by anything, gives the string and leaves what follows |
| Codec.Header | mqtt.c:134-148 | the header has the size the builders' `buflen` assumes (2 below 128, else 3) and starts with the type byte |
| Codec.HeaderIsStandard | mqtt.c:134-148 | below 16384 the two-byte remaining length is the standard MQTT 3.1.1 encoding (section 2.2.3) |
| Codec.HeaderNotStandardFrom16384 | mqtt.c:134-148 | from 16384 on, the header differs from the standard encoding (the third byte is not `len >> 7` with continuation) |
| Codec.PutU16 | mqtt.c:151-156 | returns 2 and writes the big-endian value after what was already in the buffer |
| Codec.PutString | mqtt.c:159-168 | returns 2 + strlen in uint16_t arithmetic (exactly 2 + strlen for short strings) and writes the length-prefixed string |
| Codec.PutHeader | mqtt.c:134-148 | returns the header size and writes the fixed header |
| Codec.CopyInto | mqtt.c:625 | os_memcpy: the bytes land right after the prefix already written |
| Frames.ConnectFlagsAsWrittenLoseWill | mqtt.c:448-454 | as written, the will flag (bit 2) is never set, and a QoS-0 will reads as will QoS 1 |
| Frames.ConnectFlagsMeaning | mqtt.c:448-454 | corrected flags: the user, password, will-retain and will bits are set exactly when configured, clean session set, reserved bit clear, and the will QoS is in bits 3-4 |
| Frames.ConnectBody | mqtt.c:428-437 | corrected will flag: the body has the length of connect_cb's `len` sum (10 + mstrlen of each string) |
| Frames.ConnectFrame | mqtt.c:441 | corrected will flag: the frame has connect_cb's `buflen` bytes |
| Frames.ConnectAsWrittenOnlyFlags | mqtt.c:441-465 | the frame connect_cb writes and the corrected one differ in the flags byte alone, eight bytes after the fixed header, and they differ exactly when a will is configured |
| Frames.WillBitOnlyDifference | mqtt.c:448-454 | the flags byte as written equals the corrected one exactly when no will topic is configured |
| Frames.PublishTypeFields | mqtt.c:615 | mqtt_publish's type byte carries the PUBLISH nibble; handle_rxbuf's QoS and retain extraction reads back the QoS and retain it was built with, and DUP is clear |
| Frames.PublishFrame | mqtt.c:608-615 | the frame has mqtt_publish's `buflen` bytes |
| Frames.DecodePublish | mqtt.c:200-236 | an accepted payload has at least 4 bytes, QoS and retain from the type byte, id 0 at QoS 0, and re-encodes to exactly the payload |
| Frames.PublishRoundTrip | mqtt.c:206-236 | decoding the body mqtt_publish builds gives back topic, message, QoS, retain and the packet id (0 at QoS 0) |
| Frames.CString | mqtt.c:239-243 | what a NUL-terminated C string reads as: the bytes up to the first 0 byte, or all of them when there is none |
| Frames.TerminatedCString | mqtt.c:239-240 | the terminator written after a string ends it where it already ended, and a string with no 0 byte reads back whole |
| Frames.Qos0MessageLostAsWritten | mqtt.c:239-241 | as written, at QoS 0 the message handed to mqtt_publish_cb is always empty |
| Frames.Qos0MessageLostExample | mqtt.c:239-243 | the payload of topic "t" and message "hi" at QoS 0 decodes to both, yet as written the host gets an empty message |
| Frames.HostMessageAsWrittenQos12 | mqtt.c:239-243 | as written, at QoS 1 and 2 the host gets the message up to its first 0 byte, and a message without one intact |
| Frames.SubscribeFrame | mqtt.c:637-645 | the frame has mqtt_subscribe's `buflen` bytes |
| Frames.UnsubscribeFrame | mqtt.c:663-670 | the frame has mqtt_unsubscribe's `buflen` bytes |
| Frames.AckFrame | mqtt.c:249-254 | the 4-byte reply is a fixed header with length 2 and then the big-endian packet id |
| Frames.PubrelAsWrittenMalformed | mqtt.c:266 | as written, the PUBREL reply's first byte 0x60 breaks the fixed-header flag rule (MQTT 3.1.1 section 2.2.2 requires 0010) |
| Frames.OutboundFlagsConform | mqtt.c:446 | every frame the engine sends has the header flags MQTT 3.1.1 section 2.2.2 requires: CONNECT, PUBLISH, SUBSCRIBE, UNSUBSCRIBE, PUBACK, PUBREC, corrected PUBREL, PUBCOMP |
| Receiver.LengthKnown | mqtt.c:330-342 | the receiver state once the length is known is consistent (what it does is stated by Receiver.HeaderRun and Receiver.OversizeFails) |
| Receiver.RxStep | mqtt.c:298-358 | one BYTE() of recv_pt: every non-yield outcome returns to the type byte; a completed frame has one of the nine inbound types and fewer than 256 bytes |
| Receiver.RxRun | mqtt.c:293-388 | running the receiver over bytes keeps it consistent and reports only completed frames and failures |
| Receiver.RxRunConcat | mqtt.c:298 | running over `s1 + s2` is running over `s1` and resuming where it stopped over `s2` |
| Receiver.RxStepReadsLength | mqtt.c:321-328 | the length bytes are read as `b` or `(b & 0x7f) \| (b2 << 7)` |
| Receiver.HeaderRoundTrip | mqtt.c:321-328 | recv_pt reads put_header's output back as the type and the length (modulo 2^15), having used the header's own size |
| Receiver.PayloadRun | mqtt.c:346-358 | the copy loop fed the rest of the payload hands exactly the whole payload to handle_rxbuf |
| Receiver.HeaderRun | mqtt.c:301-342 | a valid header leaves the receiver in the copy loop, or completes a zero-length frame at once |
| Receiver.FrameReceived | mqtt.c:301-363 | a whole frame in one piece is delivered once, unchanged, and the receiver is back at the type byte |
| Receiver.PartialPayload | mqtt.c:346-358 | a chunk that ends inside the payload is appended to rxbuf and the protothread yields |
| Receiver.FrameSplit | mqtt.c:346-361 | every byte of a frame but the last is silent, and the last one delivers the frame |
| Receiver.BadTypeFails | mqtt.c:305-319 | a type nibble outside the nine inbound codes fails at once, whatever follows |
| Receiver.OversizeFails | mqtt.c:331-336 | a length of 256 or more fails at once, whatever follows |
| Engine.Initial | mqtt.c:70-74 | boot: CLOSED, empty queue, nothing sent or scheduled |
| Engine.SendFromQ | mqtt.c:77-93 | sends only when OPEN with a non-empty queue; then exactly the head goes out and the state becomes DATA_SENT; no frame is lost or reordered |
| Engine.EnQ | mqtt.c:96-119 | succeeds exactly when forced or below the limit; on success appends at the tail, keeping every earlier frame; on failure changes nothing |
| Engine.NextId | mqtt.c:622-623 | `nextId++` skipping 0: never 0, and `id mod 65535 + 1` |
| Engine.Handle | mqtt.c:171-290 | corrected QoS 0 message and PUBREL byte: re-arms the receive timeout; a refusal changes nothing else; at most one frame enqueued at the tail; state moves only CONNECTING to OPEN or OPEN to DATA_SENT |
| Engine.RecvError | mqtt.c:373-385 | error label: CLOSING, receiver restarted, both timers disarmed, disconnect scheduled, queue kept |
| Engine.FeedByte | mqtt.c:391-406 | a byte while not CONNECTING, OPEN or DATA_SENT changes nothing; outputs only grow |
| Engine.Deliver | mqtt.c:361-370 | a delivered frame leaves the receiver at the type byte unless handle_rxbuf refuses and the error label runs |
| Engine.Feed | mqtt.c:391-406 | feeding bytes keeps the engine consistent and only appends to its outputs |
| Engine.SentCb | mqtt.c:409-417 | only acts in DATA_SENT: back to OPEN and the next frame goes out (staying DATA_SENT if there is one); no frame lost |
| Engine.ConnectCb | mqtt.c:420-477 | corrected will flag: CONNECTING, the CONNECT frame sent directly (not queued), the 10 s timeout armed |
| Engine.DisconCb | mqtt.c:480-494 | CLOSED, queue dropped, timers disarmed, espconn_delete then mqtt_error_cb scheduled |
| Engine.TimeoutCb | mqtt.c:504-516 | CLOSING, timers disarmed, disconnect scheduled, queue and wire untouched |
| Engine.KeepaliveCb | mqtt.c:519-530 | PINGREQ sent directly, keepalive re-armed, state and queue untouched |
| Engine.DnsCb | mqtt.c:533-561 | resolved: CLOSED with the receiver restarted (PT_INIT); failed: mqtt_error_cb scheduled and nothing else |
| Engine.Connect | mqtt.c:564-603 | returns 1 exactly when CLOSED and the lookup did not fail; a cached address runs dns_cb at once |
| Engine.Publish | mqtt.c:606-632 | refused with no effect unless OPEN/DATA_SENT; `nextId` moves only when QoS > 0; succeeds exactly when the queue has room, appending the frame with the id used |
| Engine.Subscribe | mqtt.c:635-658 | refused with no effect unless OPEN/DATA_SENT; always takes the next id; succeeds exactly when the queue has room |
| Engine.Unsubscribe | mqtt.c:661-682 | refused with no effect unless OPEN/DATA_SENT; always takes the next id; succeeds exactly when the queue has room |
| EngineProps.FeedConcat | mqtt.c:298 | feeding `s1 + s2` is feeding `s1` then `s2` |
| EngineProps.ChunkingIrrelevant | mqtt.c:391-406 | feeding any list of chunks one recv_cb at a time gives the same engine as feeding their concatenation |
| EngineProps.ByteByByte | mqtt.c:391-406 | feeding one byte per recv_cb gives the same engine as one big chunk |
| EngineProps.FeedInactive | mqtt.c:394-402 | while not CONNECTING/OPEN/DATA_SENT, received bytes change nothing |
| EngineProps.FeedQuiet | mqtt.c:346-358 | bytes that complete no frame only move the receiver |
| EngineProps.FeedPayload | mqtt.c:346-363 | a payload chunk is copied into rxbuf, and when it fills the frame the frame goes to handle_rxbuf |
| EngineProps.ReceiveFrame | mqtt.c:301-363 | a frame arriving whole is handled exactly like a direct call of handle_rxbuf |
| EngineProps.BadTypeCloses | mqtt.c:305-319 | a bad type byte takes the error path, and the rest of the stream is ignored |
| EngineProps.OversizeCloses | mqtt.c:331-336 | a length of 256 or more takes the error path, and the rest of the stream is ignored |
| EngineProps.ConnectSequence | mqtt.c:179-195 | CONNECT, then CONNACK with code 0: OPEN, mqtt_open_cb once, keepalive armed; with a non-zero code: the error path and no mqtt_open_cb |
| EngineProps.ConnackOnlyWhileConnecting | mqtt.c:181 | a CONNACK outside CONNECTING is refused |
| EngineProps.InboundPublish | mqtt.c:197-257 | a well-formed PUBLISH while OPEN/DATA_SENT reaches mqtt_publish_cb once with its fields; QoS 1 and 2 enqueue PUBACK/PUBREC with the id |
| EngineProps.DupIgnored | mqtt.c:205 | a DUP-flagged PUBLISH is accepted with no callback and no reply |
| EngineProps.PubrecPubrelAnswered | mqtt.c:259-270 | PUBREC is answered with PUBREL and PUBREL with PUBCOMP, echoing the id, with no host event |
| EngineProps.PubrecPubrelBadLength | mqtt.c:271-275 | a PUBREC/PUBREL whose payload is not 2 bytes is refused |
| EngineProps.PublishRefused | mqtt.c:200-205 | a PUBLISH outside OPEN/DATA_SENT or shorter than 4 bytes is refused |
| EngineProps.AcksOnlyRearm | mqtt.c:278-284 | PUBACK, PUBCOMP, SUBACK, UNSUBACK and PINGRESP only re-arm the timeout |
| EngineProps.QueueBound | mqtt.c:96-119 | unforced enQ never takes the queue past the limit |
| EngineProps.ForcedAppends | mqtt.c:96-119 | forced enQ always succeeds and appends at the tail |
| EngineProps.NoDispatchUnlessOpen | mqtt.c:79 | outside OPEN, enQ sends nothing and does not change the state |
| EngineProps.SentDispatchesHead | mqtt.c:409-417 | sent_cb in DATA_SENT with a queued frame sends exactly the head |
| EngineProps.QueueFullExample | mqtt.c:101-106 | with q_max 1 and one queued frame, a QoS-0 publish is refused with no effect, while a forced PUBACK still makes the depth 2 |
| EngineProps.PublishExample | mqtt.c:606-632 | publishing "t/1"/"hi" at QoS 0 while OPEN with an empty queue sends exactly `30 07 00 03 't' '/' '1' 'h' 'i'` and leaves `nextId` alone |
| EngineProps.ExampleFrame | mqtt.c:611-625 | the bytes mqtt_publish builds for that example |
| EngineProps.IdAfterClosedForm | mqtt.c:622-623 | after k increments the id is `(id - 1 + k) mod 65535 + 1` |
| EngineProps.NoEarlyReuse | mqtt.c:622-623 | ids are never 0, and one comes back only after a multiple of 65535 increments |
| EngineProps.IdsOnlyForAcknowledged | mqtt.c:620-625 | QoS-0 publish leaves `nextId`; QoS>0 publish, subscribe and unsubscribe advance it by one step |
| Trace.HandleGate | mqtt.c:171-290 | handle_rxbuf dispatches at most one queued frame, only into DATA_SENT, and none from a gated state |
| Trace.FeedByteGate | mqtt.c:391-406 | one received byte dispatches at most one queued frame and leaves a gated state gated |
| Trace.FeedGate | mqtt.c:391-406 | a whole chunk dispatches at most one queued frame and leaves a gated state gated |
| Trace.EnQGate | mqtt.c:96-119 | enQ obeys the one-in-flight rule |
| Trace.ApiGate | mqtt.c:606-682 | publish, subscribe and unsubscribe obey the one-in-flight rule |
| Trace.DirectGate | mqtt.c:420-477 | connect_cb and keepalive_cb send directly and dispatch no queued frame; keepalive_cb leaves a gated engine gated, connect_cb may reopen it |
| Trace.StepGate | mqtt.c:409-417 | every entry point obeys the one-in-flight rule; only sent_cb and connect_cb reopen the gate |
| Trace.OneFrameInFlight | mqtt.c:77-93 | over any run without sent_cb or connect_cb, at most one queued frame goes out, and none from DATA_SENT, CLOSING or CLOSED |
| Trace.GatedRunSilent | mqtt.c:79 | from a gated state, with no sent_cb or connect_cb, nothing is dispatched and the state stays gated |
| Trace.FeedKeepsOutbox | mqtt.c:391-406 | receiving never loses or reorders an enqueued frame |
| Trace.StepKeepsOutbox | mqtt.c:96-131 | every entry point but discon_cb and recon_cb keeps every enqueued frame, in order |
| Trace.RunKeepsOutbox | mqtt.c:122-131 | without discon_cb or recon_cb, no enqueued frame is ever dropped or reordered |
| Client.Client.constructor | mqtt.c:70-74 | the object starts as the engine at boot |
| Client.Client.SendFromQ | mqtt.c:77-93 | moves the object as Engine.SendFromQ |
| Client.Client.EnQ | mqtt.c:96-119 | the counting loop refuses and appends exactly as Engine.EnQ |
| Client.Client.RemoveQ | mqtt.c:122-131 | empties the queue and changes nothing else |
| Client.Client.DecodeInbound | mqtt.c:206-236 | the pointer-walking PUBLISH decode gives Frames.DecodePublish |
| Client.Client.EchoBuffer | mqtt.c:265-270 | a fresh 4-byte reply: type, 2, then the two id bytes received |
| Client.Client.AckBuffer | mqtt.c:249-254 | a fresh 4-byte PUBACK/PUBREC buffer equal to Frames.AckFrame |
| Client.Client.HandlePublish | mqtt.c:206-257 | the PUBLISH branch past its guards moves the object as the corrected Engine.Handle |
| Client.Client.HandleRxbuf | mqtt.c:171-290 | moves the object and answers as the corrected Engine.Handle |
| Client.Client.RecvError | mqtt.c:373-385 | moves the object as Engine.RecvError |
| Client.Client.Complete | mqtt.c:361-370 | moves the object as Engine.Deliver |
| Client.Client.TakeType | mqtt.c:301-319 | BYTE(type) and its check move the object as Engine.FeedByte |
| Client.Client.TakeLength | mqtt.c:321-342 | a length byte moves the object as Engine.FeedByte |
| Client.Client.KnownLength | mqtt.c:331-342 | the size limit, the empty frame and the rxbuf allocation match the receiver's outcome |
| Client.Client.TakePayload | mqtt.c:346-363 | one os_memcpy of the copy loop moves the object as feeding those bytes |
| Client.Client.Advance | mqtt.c:298-363 | makes progress and moves the object as feeding the bytes consumed |
| Client.Client.Receive | mqtt.c:391-406 | recv_cb with recv_pt on any chunk moves the object as feeding its bytes one by one |
| Client.Client.SentCb | mqtt.c:409-417 | moves the object as Engine.SentCb |
| Client.Client.ConnectCb | mqtt.c:420-477 | moves the object as the corrected Engine.ConnectCb, sending the CONNECT frame the builder writes |
| Client.Client.DisconCb | mqtt.c:480-494 | moves the object as Engine.DisconCb |
| Client.Client.ReconCb | mqtt.c:497-501 | moves the object as Engine.DisconCb |
| Client.Client.TimeoutCb | mqtt.c:504-516 | moves the object as Engine.TimeoutCb |
| Client.Client.KeepaliveCb | mqtt.c:519-530 | moves the object as Engine.KeepaliveCb |
| Client.Client.DnsCb | mqtt.c:533-561 | moves the object as Engine.DnsCb |
| Client.Client.Connect | mqtt.c:564-603 | moves the object and answers as Engine.Connect |
| Client.Client.Publish | mqtt.c:606-632 | moves the object and answers as Engine.Publish, with the frame the builder writes |
| Client.Client.Subscribe | mqtt.c:635-658 | moves the object and answers as Engine.Subscribe |
| Client.Client.Unsubscribe | mqtt.c:661-682 | moves the object and answers as Engine.Unsubscribe |
| Client.NextIdOf | mqtt.c:622-623 | the uint16_t increment with the zero check equals Engine.NextId |
| Client.FeedPrefix | mqtt.c:298 | feeding a chunk up to `j` is feeding it up to `i` and then from `i` to `j` |
| Client.FeedClosedPrefix | mqtt.c:373-388 | once the error path has run, the rest of the chunk changes nothing |
| Client.BuildConnect | mqtt.c:427-465 | the buffer connect_cb fills is exactly the corrected Frames.ConnectFrame |
| Client.PutConnectBody | mqtt.c:446-465 | writes `len` bytes: the corrected CONNECT body |
| Client.PutConnectHead | mqtt.c:446-456 | writes "MQTT", level 4, the flags, keepalive and client id: 12 + strlen(client) bytes |
| Client.PutProtocol | mqtt.c:446-454 | writes the protocol name, level 4 and the flag byte: 8 bytes |
| Client.PutOptString | mqtt.c:462-465 | writes an optional string only when configured, mstrlen bytes |
| Client.PutConnectTail | mqtt.c:457-465 | writes the will, user and password strings that are configured |
| Client.PutWill | mqtt.c:457-461 | writes the will topic and message only when a will topic is configured |
| Client.BuildPublish | mqtt.c:608-625 | the buffer mqtt_publish fills is exactly Frames.PublishFrame with the id used |
| Client.PutPublishBody | mqtt.c:616-625 | writes topic, id when QoS > 0, and the raw message: `len` bytes |
| Client.PutU16String | mqtt.c:648-650 | writes a big-endian uint16_t and a length-prefixed string: 4 + strlen bytes |
| Client.BuildSubscribe | mqtt.c:637-651 | the buffer mqtt_subscribe fills is exactly Frames.SubscribeFrame |
| Client.BuildUnsubscribe | mqtt.c:663-675 | the buffer mqtt_unsubscribe fills is exactly Frames.UnsubscribeFrame |
| AsWritten.HandleAsWritten | mqtt.c:171-290 | handle_rxbuf as written (topic terminator over a QoS 0 message, PUBREL answered with 0x60): re-arms the receive timeout, and a refusal changes nothing else |
| AsWritten.HandleAsWrittenAgrees | mqtt.c:171-290 | handle_rxbuf as written accepts and refuses the same frames as the corrected one, reaches the same state, and behaves identically on every frame but a PUBREC or a QoS 0 PUBLISH |
| AsWritten.Qos0PublishAsWritten | mqtt.c:197-257 | as written, a QoS 0 PUBLISH reaches the host with an empty message and is otherwise handled as in the corrected engine, which hands over the message up to its first 0 byte |
| AsWritten.PubrecAnsweredAsWritten | mqtt.c:259-270 | as written, a PUBREC is answered with a PUBREL whose flags are malformed, where the corrected engine queues the conforming one; nothing else differs |
| AsWritten.ConnectCbAsWrittenAgrees | mqtt.c:420-477 | connect_cb as written leaves the engine as the corrected one does except for the CONNECT frame sent, which differs exactly when a will is configured |

## Left out

- I/O, the SDK and scheduling.
  - `espconn` (sockets, `espconn_send`, `espconn_connect`, the connection
    set-up in `mqtt_connect`) is reduced to the `wire` log.
  - The name lookup is reduced to its answer (`Engine.Lookup`).
  - `sched`, `sched_espconn_disconnect` and `sched_espconn_delete` are
    recorded as events. sched.c is not part of this model.
- Timers. They are armed/disarmed flags, with no durations and no real time.
  - The durations not modelled are `keepalive*1500` ms, `keepalive*1000` ms
    and the 10 s connect timeout.
  - A timer that is not armed does not fire (`Trace.Step`).
- Memory.
  - `os_malloc` failure is not modelled.
  - `os_free` of rxbuf, of queue nodes and of built buffers is not modelled.
  - The send queue is a sequence, not a linked list, so node aliasing is not
    modelled.
- Debug and hexdump output are not modelled.
- mqtt.h holds only declarations and `struct mqtt_config`. The config is the
  immutable `Frames.Config`.
- C strings.
  - A string is its bytes and is assumed to contain no NUL, so `strlen`
    is its length.
  - An absent optional string (NULL) is `None`.
- Frame size.
  - Frames whose remaining length does not fit the uint16_t `buflen`
    (`len + 3 > 65535`) are excluded by the builders' `requires`
    (`Frames.MAX_BODY`).
  - Header encodings from 16384 on are only characterised
    (`Codec.HeaderNotStandardFrom16384`), because `recv_pt` refuses anything
    of 256 bytes or more.
- Frames.ConnectOk excludes two configurations:
  - a will topic without a will message, where connect_cb would take
    `strlen(NULL)`;
  - a will message without a will topic, where the computed `len` counts
    bytes that are never written.
- Codec.PutU16, Codec.PutString, Codec.PutHeader and the Client.Put* methods:
  they state only the bytes up to what they wrote, not that the bytes after
  it are untouched.
- Client.Client.Receive: an empty chunk is a no-op.
  - In the C code, an empty chunk delivered while the protothread is parked
    inside `BYTE()` would resume after `PT_YIELD` and read one byte past the
    chunk.
  - The model does not capture that out-of-bounds read.
- Client.Client.HandlePublish: the NUL terminators `handle_rxbuf` writes into
  rxbuf are not written into the array, and the host is handed the corrected
  message `CString(msg)`.
  - The message as written, with the topic terminator over it, is
    `Frames.HostMessageAsWritten`.
  - The engine-level difference is `AsWritten.Qos0PublishAsWritten`.
  - See finding 1.
- Client.Client.HandleRxbuf: moves the object as the corrected `Engine.Handle`, not as mqtt.c:239 and mqtt.c:266 have it (findings 1 and 2).
  - The as-written version is `AsWritten.HandleAsWritten`.
  - `AsWritten.HandleAsWrittenAgrees`, `AsWritten.Qos0PublishAsWritten` and `AsWritten.PubrecAnsweredAsWritten` state exactly where the two differ.
- Engine.Handle: corrected at mqtt.c:239 and mqtt.c:266 (findings 1 and 2); the as-written version is `AsWritten.HandleAsWritten`.
- Frames.ConnectBody: writes the Will Flag 0x04 where mqtt.c:453 writes 0x08 (finding 3). The frame as written is `Frames.ConnectFrameAsWritten`; `Frames.ConnectAsWrittenOnlyFlags` says where it differs.
- Frames.ConnectFrame: carries the corrected flags byte of `Frames.ConnectBody` (finding 3).
- Engine.ConnectCb: sends the corrected CONNECT frame (finding 3). `AsWritten.ConnectCbAsWritten` sends the frame as written; `AsWritten.ConnectCbAsWrittenAgrees` relates the two.
- Client.Client.ConnectCb: moves the object as the corrected `Engine.ConnectCb` (finding 3).
- Client.BuildConnect: builds the corrected `Frames.ConnectFrame` (finding 3).
- Client.PutConnectBody: writes the corrected flags byte (finding 3).
- Trace.OneFrameInFlight: `sent_cb` is not matched to the frame it confirms.
  - `connect_cb` and `keepalive_cb` send CONNECT and PINGREQ directly, and their `sent_cb` also dispatches the next queued frame (mqtt.c:409-417, 470, 525).
  - So at transport level two queued frames can be unconfirmed at once, for example after a PINGREQ, two publishes and one `sent_cb`.
  - The lemma covers runs with neither `sent_cb` nor `connect_cb`. `Trace.StepGate` states what each single input does.
- `mqtt_publish_cb`, `mqtt_open_cb` and `mqtt_error_cb` are host code. They
  appear only as events, and whatever they do in return is not modelled.
- The `Trace` lemmas, except `RunKeepsOutbox` and `StepKeepsOutbox`, do not
  cover `discon_cb`/`recon_cb`, which drop the queue by design.

## Findings

Each finding is corrected in `Engine` and `Client`. Its as-written half is a
lemma in `Frames`, and `AsWritten` states it at engine level.

| source | as written | input that shows it | evidently intended | confidence | as-written member | corrected member |
|---|---|---|---|---|---|---|
| mqtt.c:239-243 | the topic terminator is written at `p + topic_len`, which at QoS 0 is the first byte of the message, so the host is handed an empty message | PUBLISH type 0x30 with payload `00 01 74 68 69` (topic "t", message "hi"): mqtt_publish_cb gets message "" | the host receives topic and message intact at every QoS | not executed | Frames.Qos0MessageLostAsWritten | EngineProps.InboundPublish |
| mqtt.c:266 | the reply to PUBREC is sent with first byte 0x60 (PUBREL with flags 0000) | PUBREC `50 02 00 07`: the reply is `60 02 00 07` | PUBREL with the reserved flags 0010, first byte 0x62 (MQTT 3.1.1 section 3.6.1) | not executed | Frames.PubrelAsWrittenMalformed | EngineProps.PubrecPubrelAnswered |
| mqtt.c:453 | the will flag is written as 0x08, which is will-QoS bit 0, so the will flag (0x04) is never set | a config with will topic "w", will message "x", will QoS 0: the flags byte is 0x0A, which claims will QoS 1 with no will flag | will flag 0x04 when a will topic is configured (MQTT 3.1.1 section 3.1.2.5) | not executed | Frames.ConnectFlagsAsWrittenLoseWill | Frames.ConnectFlagsMeaning |
