/**
 * What the engine guarantees across calls: the inbound stream may be split
 * anywhere, a well-formed frame reaches handle_rxbuf whole, the protocol
 * replies go out in order, the send queue keeps its bound and its order, and
 * packet ids cycle through 1..65535.
 */
module EngineProps {
  import opened Codec
  import opened Frames
  import opened Receiver
  import opened Engine

  // ------------------------------------------------------- inbound stream

  /** Split independence: feeding `s1` and then `s2` is feeding `s1 + s2`. */
  lemma {:induction false} FeedConcat(cfg: Config, e: EngineState, s1: seq<byte>, s2: seq<byte>)
    requires Wf(e)
    decreases |s1|
    ensures Feed(cfg, e, s1 + s2) == Feed(cfg, Feed(cfg, e, s1), s2)
  {
    if s1 == [] {
      assert s1 + s2 == s2;
    } else {
      assert (s1 + s2)[0] == s1[0];
      assert (s1 + s2)[1..] == s1[1..] + s2;
      FeedConcat(cfg, FeedByte(cfg, e, s1[0]), s1[1..], s2);
    }
  }

  /** The chunks of a stream, one after the other. */
  function Flatten(cs: seq<seq<byte>>): seq<byte>
  {
    if cs == [] then [] else cs[0] + Flatten(cs[1..])
  }

  /** recv_cb called once per chunk. */
  function FeedChunks(cfg: Config, e: EngineState, cs: seq<seq<byte>>): (r: EngineState)
    requires Wf(e)
    ensures Wf(r)
    decreases |cs|
  {
    if cs == [] then e else FeedChunks(cfg, Feed(cfg, e, cs[0]), cs[1..])
  }

  /** However the stream is cut into chunks, the engine ends where one chunk would take it. */
  lemma {:induction false} ChunkingIrrelevant(cfg: Config, e: EngineState, cs: seq<seq<byte>>)
    requires Wf(e)
    decreases |cs|
    ensures FeedChunks(cfg, e, cs) == Feed(cfg, e, Flatten(cs))
  {
    if cs != [] {
      ChunkingIrrelevant(cfg, Feed(cfg, e, cs[0]), cs[1..]);
      FeedConcat(cfg, e, cs[0], Flatten(cs[1..]));
    }
  }

  /** The one-byte chunks of a stream. */
  function Bytes(s: seq<byte>): (cs: seq<seq<byte>>)
    ensures |cs| == |s| && forall i :: 0 <= i < |s| ==> cs[i] == [s[i]]
  {
    if s == [] then [] else [[s[0]]] + Bytes(s[1..])
  }

  /** The extreme split: one byte per chunk. */
  lemma {:induction false} ByteByByte(cfg: Config, e: EngineState, s: seq<byte>)
    requires Wf(e)
    ensures FeedChunks(cfg, e, Bytes(s)) == Feed(cfg, e, s)
  {
    FlattenBytes(s);
    ChunkingIrrelevant(cfg, e, Bytes(s));
  }

  lemma {:induction false} FlattenBytes(s: seq<byte>)
    ensures Flatten(Bytes(s)) == s
  {
    if s != [] {
      FlattenBytes(s[1..]);
      assert Bytes(s)[1..] == Bytes(s[1..]);
      assert [s[0]] + s[1..] == s;
    }
  }

  /** Nothing arriving while CLOSED or CLOSING changes anything (recv_cb skips it). */
  lemma {:induction false} FeedInactive(cfg: Config, e: EngineState, s: seq<byte>)
    requires Wf(e) && !Active(e.state)
    decreases |s|
    ensures Feed(cfg, e, s) == e
  {
    if s != [] {
      FeedInactive(cfg, e, s[1..]);
    }
  }

  /** Bytes that complete no frame only advance the receiver. */
  lemma {:induction false} FeedQuiet(cfg: Config, e: EngineState, s: seq<byte>)
    requires Wf(e) && Active(e.state) && RxRun(e.rx, s).1 == []
    decreases |s|
    ensures Feed(cfg, e, s) == e.(rx := RxRun(e.rx, s).0)
  {
    if s != [] {
      var step := RxStep(e.rx, s[0]);
      assert step.1 == More;
      RxRunMore(e.rx, s);
      FeedQuiet(cfg, e.(rx := step.0), s[1..]);
    }
  }

  /** One more byte at the end of a stream. */
  lemma FeedSnoc(cfg: Config, e: EngineState, s: seq<byte>, b: byte)
    requires Wf(e)
    ensures Feed(cfg, e, s + [b]) == FeedByte(cfg, Feed(cfg, e, s), b)
  {
    FeedConcat(cfg, e, s, [b]);
    assert [b][1..] == [];
  }

  /**
   * A run of payload bytes taken in one go, as recv_pt's copy loop takes
   * them: short of the length they only fill the buffer; reaching it they
   * hand the frame to handle_rxbuf.
   */
  lemma FeedPayload(cfg: Config, e: EngineState, d: seq<byte>)
    requires Wf(e) && Active(e.state) && e.rx.Payload? && d != []
    requires |e.rx.buf| + |d| <= e.rx.n
    ensures Feed(cfg, e, d)
         == if |e.rx.buf| + |d| < e.rx.n then e.(rx := Payload(e.rx.t, e.rx.n, e.rx.buf + d))
            else Deliver(cfg, e.(rx := AwaitType), e.rx.t, e.rx.buf + d)
  {
    var t, n, buf := e.rx.t, e.rx.n, e.rx.buf;
    if |buf| + |d| < n {
      PartialPayload(t, n, buf, d);
      FeedQuiet(cfg, e, d);
    } else {
      var d1 := d[..|d| - 1];
      assert d == d1 + [d[|d| - 1]];
      PartialPayload(t, n, buf, d1);
      FeedQuiet(cfg, e, d1);
      FeedSnoc(cfg, e, d1, d[|d| - 1]);
      assert buf + d1 + [d[|d| - 1]] == buf + d;
    }
  }

  /**
   * End to end: a frame of a receivable type with a payload below 256 bytes,
   * encoded as put_header encodes it, arriving at an idle receiver in any
   * active state, is handled by handle_rxbuf exactly once, and a refusal
   * takes the error path.
   */
  lemma ReceiveFrame(cfg: Config, e: EngineState, t: byte, p: seq<byte>)
    requires Wf(e) && Active(e.state) && e.rx == AwaitType
    requires ValidType(t) && |p| < 256
    ensures Feed(cfg, e, Header(t, |p|) + p) == Deliver(cfg, e, t, p)
  {
    var s := Header(t, |p|) + p;
    FrameSplit(t, p);
    var pre := s[..|s| - 1];
    assert s == pre + [s[|s| - 1]];
    FeedQuiet(cfg, e, pre);
    FeedConcat(cfg, e, pre, [s[|s| - 1]]);
    var e1 := e.(rx := RxRun(AwaitType, pre).0);
    assert Feed(cfg, e1, [s[|s| - 1]]) == FeedByte(cfg, e1, s[|s| - 1]);
    assert e1.(rx := AwaitType) == e;
  }

  /** A type byte outside the nine receivable types closes the connection, whatever follows. */
  lemma BadTypeCloses(cfg: Config, e: EngineState, b: byte, rest: seq<byte>)
    requires Wf(e) && Active(e.state) && e.rx == AwaitType && !ValidType(b)
    ensures Feed(cfg, e, [b] + rest) == RecvError(e)
  {
    FeedConcat(cfg, e, [b], rest);
    assert Feed(cfg, e, [b]) == FeedByte(cfg, e, b);
    FeedInactive(cfg, RecvError(e), rest);
  }

  /** A length of 256 or more closes the connection, whatever follows. */
  lemma OversizeCloses(cfg: Config, e: EngineState, t: byte, h: seq<byte>, rest: seq<byte>)
    requires Wf(e) && Active(e.state) && e.rx == AwaitType
    requires ValidType(t) && ReadLength(h).Some? && ReadLength(h).value.0 >= 256
    requires |h| == ReadLength(h).value.1
    ensures Feed(cfg, e, [t] + h + rest) == RecvError(e)
  {
    RxStepReadsLength(t, h);
    var s := [t] + h;
    assert s == [t, h[0], h[1]];
    var e1 := FeedByte(cfg, e, t);
    assert e1 == e.(rx := AwaitLen1(t));
    var e2 := FeedByte(cfg, e1, h[0]);
    assert e2 == e.(rx := AwaitLen2(t, h[0] % 128));
    assert FeedByte(cfg, e2, h[1]) == RecvError(e);
    assert s[1..] == [h[0], h[1]] && s[1..][1..] == [h[1]] && [h[1]][1..] == [];
    assert Feed(cfg, e, s) == Feed(cfg, e1, [h[0], h[1]]);
    assert Feed(cfg, e1, [h[0], h[1]]) == Feed(cfg, e2, [h[1]]);
    assert Feed(cfg, e2, [h[1]]) == Feed(cfg, RecvError(e), []);
    FeedConcat(cfg, e, s, rest);
    FeedInactive(cfg, RecvError(e), rest);
  }

  // ------------------------------------------------------- inbound handler

  /**
   * The connect sequence: once CONNECT is out, a CONNACK with return code 0
   * opens the connection and tells the host once; any other return code
   * closes it and the host is never told it opened.
   */
  lemma ConnectSequence(cfg: Config, e: EngineState, ack: byte, code: byte)
    requires ConnectOk(cfg) && Wf(e) && e.rx == AwaitType
    ensures var e1 := ConnectCb(cfg, e);
      var r := Feed(cfg, e1, [CONNACK, 2, ack, code]);
      && (code == 0 ==> r.state == Open && r.events == e.events + [HostOpen]
                        && r.keepaliveArmed && r.timeoutArmed && r.wire == e1.wire)
      && (code != 0 ==> r == RecvError(e1) && HostOpen !in r.events[|e.events|..])
  {
    var e1 := ConnectCb(cfg, e);
    assert Header(CONNACK, 2) + [ack, code] == [CONNACK, 2, ack, code];
    ReceiveFrame(cfg, e1, CONNACK, [ack, code]);
    if code != 0 {
      assert RecvError(e1).events[|e.events|..] == [Disconnect];
    }
  }

  /** A CONNACK in any state but CONNECTING is refused. */
  lemma ConnackOnlyWhileConnecting(cfg: Config, e: EngineState, t: byte, data: seq<byte>)
    requires Kind(t) == CONNACK && e.state != Connecting
    ensures !Handle(cfg, e, t, data).1
  {
  }

  /** The reply handle_rxbuf queues for an inbound PUBLISH at QoS `qos`. */
  function PublishAck(qos: nat, id: u16): seq<byte>
  {
    AckFrame(if qos == 1 then PUBACK else PUBREC, id)
  }

  /**
   * An inbound PUBLISH encoded as the standard lays it out reaches the host
   * with its topic, message, QoS and retain flag; with QoS 1 a PUBACK and with
   * QoS 2 (or the reserved 3) a PUBREC carrying its packet id is queued
   * ahead of nothing else, with QoS 0 nothing is.
   */
  lemma InboundPublish(cfg: Config, e: EngineState, topic: seq<byte>, msg: seq<byte>, qos: byte, retain: bool, id: u16)
    requires CanSend(e.state) && qos < 4 && |topic| < 0x1_0000
    requires |PublishBody(topic, msg, qos, id)| >= 4
    ensures var r := Handle(cfg, e, PublishType(qos, retain), PublishBody(topic, msg, qos, id));
      && r.1
      && r.0.events == e.events + [HostPublish(CString(topic), CString(msg), qos, retain)]
      && Outbox(r.0) == Outbox(e) + (if qos > 0 then [PublishAck(qos, id)] else [])
      && CanSend(r.0.state)
  {
    PublishTypeFields(qos, retain);
    PublishRoundTrip(topic, msg, qos, retain, id);
  }

  /** A PUBLISH with the DUP flag is accepted and dropped: no host callback and no reply. */
  lemma DupIgnored(cfg: Config, e: EngineState, t: byte, data: seq<byte>)
    requires Kind(t) == PUBLISH && DupOf(t) && CanSend(e.state) && |data| >= 4
    ensures Handle(cfg, e, t, data) == (e.(timeoutArmed := true), true)
  {
  }

  /**
   * The QoS 2 handshake replies: a PUBREC with a two-byte payload is answered
   * with a PUBREL and a PUBREL with a PUBCOMP, each echoing the packet id.
   */
  lemma PubrecPubrelAnswered(cfg: Config, e: EngineState, id: u16)
    ensures var r := Handle(cfg, e, PUBREC, U16(id));
      r.1 && Outbox(r.0) == Outbox(e) + [PubrelReply(id)] && r.0.events == e.events
    ensures var r := Handle(cfg, e, PUBREL, U16(id));
      r.1 && Outbox(r.0) == Outbox(e) + [AckFrame(PUBCOMP, id)] && r.0.events == e.events
  {
    var u := U16(id);
    assert [PUBREL_OUT, 2, u[0], u[1]] == PubrelReply(id);
    assert [PUBCOMP, 2, u[0], u[1]] == AckFrame(PUBCOMP, id);
  }

  /** A PUBREC or PUBREL whose payload is not exactly two bytes is refused. */
  lemma PubrecPubrelBadLength(cfg: Config, e: EngineState, t: byte, data: seq<byte>)
    requires (Kind(t) == PUBREC || Kind(t) == PUBREL) && |data| != 2
    ensures Handle(cfg, e, t, data) == (e.(timeoutArmed := true), false)
  {
  }

  /** An inbound PUBLISH outside OPEN and DATA_SENT, or shorter than 4 bytes, is refused. */
  lemma PublishRefused(cfg: Config, e: EngineState, t: byte, data: seq<byte>)
    requires Kind(t) == PUBLISH && (!CanSend(e.state) || |data| < 4)
    ensures Handle(cfg, e, t, data) == (e.(timeoutArmed := true), false)
  {
  }

  /** The plain acknowledgements and PINGRESP only re-arm the receive timeout. */
  lemma AcksOnlyRearm(cfg: Config, e: EngineState, t: byte, data: seq<byte>)
    requires Kind(t) in {PUBACK, PUBCOMP, SUBACK, UNSUBACK, PINGRESP}
    ensures Handle(cfg, e, t, data) == (e.(timeoutArmed := true), true)
  {
  }

  // ------------------------------------------------------- outbound queue

  /** sendFromQ appends what it sends to the wire and nothing else. */
  lemma {:induction false} DequeuedAppend(w: seq<Wire>, x: Wire)
    ensures DequeuedFrames(w + [x]) == DequeuedFrames(w) + (if x.Dequeued? then [x.bytes] else [])
  {
    assert (w + [x])[..|w + [x]| - 1] == w;
  }

  /** An unforced frame is accepted only while the queue stays within q_max (at least one). */
  lemma QueueBound(cfg: Config, e: EngineState, frame: seq<byte>)
    requires |e.sendQ| <= Limit(cfg)
    ensures var r := EnQ(cfg, e, frame, false); |r.0.sendQ| <= Limit(cfg)
  {
  }

  /** A forced frame is never refused and lands behind everything already enqueued. */
  lemma ForcedAppends(cfg: Config, e: EngineState, frame: seq<byte>)
    ensures var r := EnQ(cfg, e, frame, true);
      r.1 && Outbox(r.0) == Outbox(e) + [frame] && |r.0.sendQ| <= |e.sendQ| + 1
  {
  }

  /**
   * The queue is never sent from while a frame is in flight: in DATA_SENT,
   * CONNECTING, CLOSING or CLOSED an enqueued frame stays queued.
   */
  lemma NoDispatchUnlessOpen(cfg: Config, e: EngineState, frame: seq<byte>, force: bool)
    requires e.state != Open
    ensures var r := EnQ(cfg, e, frame, force);
      r.0.wire == e.wire && r.0.state == e.state
  {
  }

  /** sent_cb takes the next frame off the queue, in order, when there is one. */
  lemma SentDispatchesHead(e: EngineState)
    requires e.state == DataSent && e.sendQ != []
    ensures var r := SentCb(e);
      r.wire == e.wire + [Dequeued(e.sendQ[0])] && r.sendQ == e.sendQ[1..] && r.state == DataSent
  {
  }

  /**
   * The two examples of the queue: q_max = 1 with one frame queued refuses an
   * unforced publish and leaves the queue alone, while a forced PUBACK still
   * goes in, giving depth 2.
   */
  lemma QueueFullExample(cfg: Config, e: EngineState, topic: seq<byte>, msg: seq<byte>, id: u16)
    requires cfg.qMax == 1 && |e.sendQ| == 1 && e.state == DataSent
    requires PublishLen(topic, msg, 0) <= MAX_BODY
    ensures var r := Publish(cfg, e, topic, msg, 0, false); !r.1 && r.0 == e
    ensures |EnQ(cfg, e, AckFrame(PUBACK, id), true).0.sendQ| == 2
  {
  }

  /** "t/1", the topic of the publish example. */
  const EXAMPLE_TOPIC: seq<byte> := [0x74, 0x2F, 0x31]

  /** "hi", its message. */
  const EXAMPLE_MSG: seq<byte> := [0x68, 0x69]

  /**
   * publish("t/1", "hi", 0, false) while OPEN with an empty queue dispatches
   * exactly one frame: 0x30, length 7, the topic and the message, no packet id.
   */
  lemma PublishExample(cfg: Config, e: EngineState)
    requires e.state == Open && e.sendQ == []
    ensures var r := Publish(cfg, e, EXAMPLE_TOPIC, EXAMPLE_MSG, 0, false);
      && r.1 && r.0.state == DataSent && r.0.sendQ == [] && r.0.nextId == e.nextId
      && r.0.wire == e.wire + [Dequeued([0x30, 7, 0, 3, 0x74, 0x2F, 0x31, 0x68, 0x69])]
  {
    ExampleFrame(e.nextId);
    assert PublishLen(EXAMPLE_TOPIC, EXAMPLE_MSG, 0) == 7;
    var frame := PublishFrame(EXAMPLE_TOPIC, EXAMPLE_MSG, 0, false, e.nextId);
    var e1 := e.(sendQ := [frame]);
    assert EnQ(cfg, e, frame, false).0 == SendFromQ(e1);
  }

  /** The bytes of the example's PUBLISH frame: a QoS 0 frame carries no packet id. */
  lemma ExampleFrame(id: u16)
    ensures PublishFrame(EXAMPLE_TOPIC, EXAMPLE_MSG, 0, false, id) == [0x30, 7, 0, 3, 0x74, 0x2F, 0x31, 0x68, 0x69]
  {
    PublishTypeFields(0, false);
    assert PublishType(0, false) == 0x30;
    assert PublishLen(EXAMPLE_TOPIC, EXAMPLE_MSG, 0) == 7;
    assert Header(0x30, 7) == [0x30, 7];
    assert Str(EXAMPLE_TOPIC) == [0, 3, 0x74, 0x2F, 0x31];
    assert PublishBody(EXAMPLE_TOPIC, EXAMPLE_MSG, 0, id) == [0, 3, 0x74, 0x2F, 0x31] + [] + EXAMPLE_MSG;
  }


  // ------------------------------------------------------- packet ids

  /** The id after `k` more ids were taken. */
  function IdAfter(id: u16, k: nat): u16
  {
    if k == 0 then id else NextId(IdAfter(id, k - 1))
  }

  /** The remainder modulo 65535 is the one of any decomposition with a remainder in range. */
  lemma ModUnique(a: int, q: int, r: int)
    requires 0 <= r < 0xFFFF && a == q * 0xFFFF + r
    ensures a % 0xFFFF == r
  {
    var q1, r1 := a / 0xFFFF, a % 0xFFFF;
    assert a == q1 * 0xFFFF + r1;
  }

  /** Ids run through 1..65535 in order: the k-th next id of a non-zero id, in closed form. */
  lemma {:induction false} IdAfterClosedForm(id: u16, k: nat)
    requires id != 0
    ensures IdAfter(id, k) == (id - 1 + k) % 0xFFFF + 1
  {
    if k == 0 {
      ModUnique(id - 1, 0, id - 1);
    } else {
      IdAfterClosedForm(id, k - 1);
      var x := id - 1 + k - 1;
      var m := x % 0xFFFF;
      assert x == (x / 0xFFFF) * 0xFFFF + m;
      assert IdAfter(id, k) == (m + 1) % 0xFFFF + 1;
      if m + 1 < 0xFFFF {
        ModUnique(x + 1, x / 0xFFFF, m + 1);
        ModUnique(m + 1, 0, m + 1);
      } else {
        ModUnique(x + 1, x / 0xFFFF + 1, 0);
      }
    }
  }

  /** An id is not taken again before 65535 ids have been taken, and is taken again then. */
  lemma NoEarlyReuse(id: u16, k: nat)
    requires id != 0 && 0 < k
    ensures IdAfter(id, k) != 0
    ensures IdAfter(id, k) == id <==> k % 0xFFFF == 0
  {
    IdAfterClosedForm(id, k);
    var a := id - 1;
    var q, r := k / 0xFFFF, k % 0xFFFF;
    assert a + k == q * 0xFFFF + (a + r);
    if a + r < 0xFFFF {
      ModUnique(a + k, q, a + r);
    } else {
      ModUnique(a + k, q + 1, a + r - 0xFFFF);
    }
  }

  /** A QoS 0 publish leaves the id counter alone; every other outbound operation advances it. */
  lemma IdsOnlyForAcknowledged(cfg: Config, e: EngineState, topic: seq<byte>, msg: seq<byte>, qos: byte, retain: bool)
    requires CanSend(e.state) && PublishLen(topic, msg, qos) <= MAX_BODY
    ensures Publish(cfg, e, topic, msg, qos, retain).0.nextId == if qos == 0 then e.nextId else NextId(e.nextId)
    ensures SubscribeLen(topic) <= MAX_BODY ==> Subscribe(cfg, e, topic, qos).0.nextId == NextId(e.nextId)
    ensures UnsubscribeLen(topic) <= MAX_BODY ==> Unsubscribe(cfg, e, topic).0.nextId == NextId(e.nextId)
  {
  }
}
