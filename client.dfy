/**
 * mqtt.c as an object, with three defects corrected (the QoS 0 message handed
 * to the host, the PUBREL type byte, the CONNECT will flag): one object holding
 * the engine's globals (state, the send queue, nextId, rxbuf, the two timers)
 * and recv_pt's static locals (`type`, `len`, `pos` and the resume point of
 * the protothread), with one method per function of the source. Each method
 * is proved to move the object exactly as the matching function of module
 * Engine moves its value; module AsWritten relates the two entry points that
 * differ from the code as written.
 */
module Client {
  import opened Codec
  import opened Frames
  import opened Receiver
  import opened Engine
  import Spec = Engine
  import opened EngineProps

  /** Where recv_pt resumes: at BYTE(type), at the first or second length BYTE(b), or in the copy loop. */
  datatype Resume = AtType | AtLen1 | AtLen2 | AtPayload

  class Client {
    const cfg: Config
    var state: ConnState
    var sendQ: seq<seq<byte>>
    var nextId: u16
    var at: Resume
    var rtype: byte
    var rlen: nat
    var pos: nat
    var rxbuf: array<byte>
    var timeoutArmed: bool
    var keepaliveArmed: bool
    var wire: seq<Wire>
    var events: seq<Event>

    /** recv_pt's locals are consistent with its resume point. */
    ghost predicate Valid()
      reads this
    {
      match at
      case AtType => true
      case AtLen1 => ValidType(rtype)
      case AtLen2 => ValidType(rtype) && rlen < 128
      case AtPayload => ValidType(rtype) && pos < rlen < 256 && rxbuf.Length == rlen + 1
    }

    /** The receiver state that recv_pt's locals and the filled part of rxbuf stand for. */
    ghost function RxState(): (r: Rx)
      reads this, rxbuf
      requires Valid()
      ensures Receiver.Valid(r)
    {
      match at
      case AtType => AwaitType
      case AtLen1 => AwaitLen1(rtype)
      case AtLen2 => AwaitLen2(rtype, rlen)
      case AtPayload => Payload(rtype, rlen, rxbuf[..pos])
    }

    /** The engine value this object stands for. */
    ghost function Model(): (e: EngineState)
      reads this, rxbuf
      requires Valid()
      ensures Wf(e)
    {
      EngineState(state, sendQ, nextId, RxState(), timeoutArmed, keepaliveArmed, wire, events)
    }

    /** The statics at boot, with the configuration fixed. */
    constructor (config: Config)
      ensures Valid() && cfg == config && Model() == Initial()
    {
      cfg := config;
      state := Closed;
      sendQ := [];
      nextId := 0;
      at := AtType;
      rtype := 0;
      rlen := 0;
      pos := 0;
      rxbuf := new byte[0];
      timeoutArmed := false;
      keepaliveArmed := false;
      wire := [];
      events := [];
    }

    /** sendFromQ. */
    method SendFromQ()
      requires Valid()
      modifies this
      ensures Valid() && rxbuf == old(rxbuf) && at == old(at)
      ensures Model() == Spec.SendFromQ(old(Model()))
    {
      if sendQ == [] || state != Open {
        return;
      }
      wire := wire + [Dequeued(sendQ[0])];
      sendQ := sendQ[1..];
      state := DataSent;
      keepaliveArmed := true;
    }

    /**
     * enQ: walks the queue counting its entries and gives up, unless forced,
     * as soon as the count reaches q_max; otherwise appends and tries to send.
     */
    method EnQ(frame: seq<byte>, force: bool) returns (ok: bool)
      requires Valid()
      modifies this
      ensures Valid() && rxbuf == old(rxbuf) && at == old(at)
      ensures (Model(), ok) == Spec.EnQ(cfg, old(Model()), frame, force)
    {
      var count := 0;
      while count < |sendQ|
        invariant 0 <= count <= |sendQ|
        invariant force || count == 0 || count < cfg.qMax
      {
        count := count + 1;
        if !force && count >= cfg.qMax {
          assert Spec.EnQ(cfg, Model(), frame, force) == (Model(), false);
          return false;
        }
      }
      ghost var e := Model();
      sendQ := sendQ + [frame];
      assert Model() == e.(sendQ := e.sendQ + [frame]);
      SendFromQ();
      ok := true;
    }

    /** removeQ: drops every queued frame, head first. */
    method RemoveQ()
      requires Valid()
      modifies this
      ensures Valid() && rxbuf == old(rxbuf) && at == old(at)
      ensures Model() == old(Model()).(sendQ := [])
    {
      while sendQ != []
        invariant Valid() && rxbuf == old(rxbuf) && at == old(at)
        invariant Model() == old(Model()).(sendQ := sendQ)
        decreases |sendQ|
      {
        sendQ := sendQ[1..];
      }
    }

    /**
     * The PUBLISH branch of handle_rxbuf as it walks the payload: topic
     * length, topic, the packet id when QoS > 0, and the rest as message.
     */
    static method DecodeInbound(t: byte, data: seq<byte>) returns (p: Option<Inbound>)
      ensures p == DecodePublish(t, data)
    {
      if |data| < 4 {
        return None;
      }
      var qos, retain := QosOf(t), RetainOf(t);
      var topicLen := BigEndian(data[0], data[1]);
      var len := |data| - 2;
      if topicLen > len {
        return None;
      }
      var topic := data[2..2 + topicLen];
      var pos := 2 + topicLen;
      len := len - topicLen;
      ghost var rest := data[pos..];
      assert DecodeStr(data) == Some((topic, rest));
      assert pos + len == |data|;
      if qos == 0 {
        assert data[pos..pos + len] == rest;
        return Some(Inbound(topic, data[pos..pos + len], 0, retain, 0));
      }
      if len < 2 {
        return None;
      }
      var id := BigEndian(data[pos], data[pos + 1]);
      assert rest[0] == data[pos] && rest[1] == data[pos + 1];
      assert data[pos + 2..pos + len] == rest[2..];
      p := Some(Inbound(topic, data[pos + 2..pos + len], qos, retain, id));
    }

    /** A reply that echoes the two id bytes of the frame it answers. */
    static method EchoBuffer(t: byte, data: seq<byte>) returns (buf: array<byte>)
      requires |data| == 2
      ensures fresh(buf) && buf[..] == [t, 2, data[0], data[1]]
    {
      buf := new byte[4];
      buf[0] := t;
      buf[1] := 2;
      buf[2] := data[0];
      buf[3] := data[1];
      assert buf[..] == [t, 2, data[0], data[1]];
    }

    /** The 4-byte acknowledgement handle_rxbuf allocates: type, length 2, packet id high byte first. */
    static method AckBuffer(t: byte, id: u16) returns (buf: array<byte>)
      ensures fresh(buf) && buf[..] == AckFrame(t, id)
    {
      buf := new byte[4];
      buf[0] := t;
      buf[1] := 2;
      buf[2] := id / 0x100;
      buf[3] := id % 0x100;
      assert buf[..] == [t, 2, id / 0x100, id % 0x100];
    }

    /** handle_rxbuf on an inbound PUBLISH that is not a duplicate, with the session open. */
    method HandlePublish(t: byte, data: seq<byte>) returns (ok: bool)
      requires Valid() && at == AtType && Kind(t) == PUBLISH && timeoutArmed && CanSend(state) && |data| >= 4 && !DupOf(t)
      modifies this
      ensures Valid() && rxbuf == old(rxbuf) && at == AtType
      ensures (Model(), ok) == Handle(cfg, old(Model()), t, data)
    {
      ghost var e := Model();
      var d := DecodeInbound(t, data);
      HandlePublishCase(cfg, e, t, data);
      if d.None? {
        return false;
      }
      var p := d.value;
      events := events + [HostPublish(CString(p.topic), CString(p.msg), p.qos, p.retain)];
      ghost var e1 := e.(events := e.events + [HostPublish(CString(p.topic), CString(p.msg), p.qos, p.retain)]);
      assert Model() == e1;
      if p.qos > 0 {
        var buf := AckBuffer(if p.qos == 1 then PUBACK else PUBREC, p.id);
        var _ := EnQ(buf[..], true);
      }
      return true;
    }

    /** handle_rxbuf, on the `len` bytes of rxbuf passed as `data`. */
    method HandleRxbuf(t: byte, data: seq<byte>) returns (ok: bool)
      requires Valid() && at == AtType
      modifies this
      ensures Valid() && rxbuf == old(rxbuf) && at == AtType
      ensures (Model(), ok) == Handle(cfg, old(Model()), t, data)
    {
      timeoutArmed := true;
      var k := Kind(t);
      if k == CONNACK {
        if state == Connecting && |data| == 2 && data[1] == 0 {
          state := Open;
          events := events + [HostOpen];
          keepaliveArmed := true;
          return true;
        }
        return false;
      } else if k == PUBLISH {
        if !CanSend(state) || |data| < 4 {
          return false;
        }
        if DupOf(t) {
          return true;
        }
        ok := HandlePublish(t, data);
      } else if k == PUBREC || k == PUBREL {
        if |data| == 2 {
          var reply := if k == PUBREC then PUBREL_OUT else PUBCOMP;
          var buf := EchoBuffer(reply, data);
          var _ := EnQ(buf[..], true);
          return true;
        }
        return false;
      } else if k in {PUBACK, PUBCOMP, SUBACK, UNSUBACK, PINGRESP} {
        return true;
      } else {
        return false;
      }
    }

    /** recv_pt's error label: CLOSING, timers disarmed, disconnect scheduled, protothread ended. */
    method RecvError()
      requires Valid()
      modifies this
      ensures Valid() && rxbuf == old(rxbuf)
      ensures Model() == Spec.RecvError(old(Model()))
    {
      state := Closing;
      at := AtType;
      timeoutArmed := false;
      keepaliveArmed := false;
      events := events + [Disconnect];
    }

    /** The tail of recv_pt once a frame is complete: handle_rxbuf, and the error label if it refuses. */
    method Complete(t: byte, data: seq<byte>)
      requires Valid() && at == AtType
      modifies this
      ensures Valid() && rxbuf == old(rxbuf)
      ensures Model() == Deliver(cfg, old(Model()), t, data)
    {
      var ok := HandleRxbuf(t, data);
      if !ok {
        RecvError();
      }
    }

    /** BYTE(type) and the check of its high nibble against the nine packet types a client receives. */
    method TakeType(b: byte)
      requires Valid() && at == AtType && Active(state)
      modifies this
      ensures Valid() && rxbuf == old(rxbuf)
      ensures Model() == FeedByte(cfg, old(Model()), b)
    {
      if !ValidType(b) {
        RecvError();
        return;
      }
      rtype := b;
      at := AtLen1;
    }

    /**
     * One BYTE(b) of the remaining length (at most two bytes, `len |= b << 7`);
     * the second byte, or a first one below 128, completes it.
     */
    method TakeLength(b: byte)
      requires Valid() && (at == AtLen1 || at == AtLen2) && Active(state)
      modifies this
      ensures Valid() && (rxbuf == old(rxbuf) || fresh(rxbuf))
      ensures Model() == FeedByte(cfg, old(Model()), b)
    {
      ghost var e := Model();
      if at == AtLen1 && b >= 128 {
        rlen := b % 128;
        at := AtLen2;
        return;
      }
      var len := if at == AtLen1 then b else rlen + b * 128;
      assert RxStep(e.rx, b) == LengthKnown(rtype, len);
      at := AtType;
      KnownLength(len);
      FeedByteOutcome(cfg, e, b);
    }

    /**
     * Once the length is known: the 256-byte limit, the zero-length frame
     * handled at once, or a fresh rxbuf of len + 1 bytes for the copy loop.
     */
    method KnownLength(len: nat)
      requires Valid() && at == AtType && Active(state) && ValidType(rtype)
      modifies this
      ensures Valid() && (rxbuf == old(rxbuf) || fresh(rxbuf))
      ensures Model() == Outcome(cfg, old(Model()), LengthKnown(old(rtype), len))
    {
      if len >= 256 {
        RecvError();
        return;
      }
      if len == 0 {
        Complete(rtype, []);
        return;
      }
      rlen := len;
      rxbuf := new byte[len + 1];
      pos := 0;
      at := AtPayload;
    }

    /**
     * One pass of the copy loop: `d` is the part of the chunk os_memcpy moves
     * into rxbuf; when the frame is full it goes to handle_rxbuf.
     */
    method TakePayload(d: seq<byte>)
      requires Valid() && at == AtPayload && Active(state)
      requires d != [] && pos + |d| <= rlen
      modifies this, rxbuf
      ensures Valid() && rxbuf == old(rxbuf)
      ensures Model() == Feed(cfg, old(Model()), d)
    {
      ghost var e := Model();
      FeedPayload(cfg, e, d);
      CopyInto(rxbuf, pos, d);
      pos := pos + |d|;
      assert rxbuf[..pos] == e.rx.buf + d;
      if pos == rlen {
        at := AtType;
        Complete(rtype, rxbuf[..rlen]);
      }
    }

    /**
     * recv_pt from where it resumes up to its next step: one header byte, or
     * as much of the payload as the chunk holds. Returns how far it got.
     */
    method Advance(chunk: seq<byte>, i: nat) returns (j: nat)
      requires Valid() && Active(state) && i < |chunk|
      modifies this, rxbuf
      ensures Valid() && (rxbuf == old(rxbuf) || fresh(rxbuf))
      ensures i < j <= |chunk|
      ensures Model() == Feed(cfg, old(Model()), chunk[i..j])
    {
      if at == AtPayload {
        var l := if rlen - pos < |chunk| - i then rlen - pos else |chunk| - i;
        TakePayload(chunk[i..i + l]);
        return i + l;
      }
      ghost var e := Model();
      if at == AtType {
        TakeType(chunk[i]);
      } else {
        TakeLength(chunk[i]);
      }
      assert chunk[i..i + 1] == [chunk[i]];
      assert Feed(cfg, e, [chunk[i]]) == FeedByte(cfg, e, chunk[i]);
      return i + 1;
    }

    /**
     * recv_cb with recv_pt: a chunk is ignored unless the connection is
     * CONNECTING, OPEN or DATA_SENT; otherwise the protothread resumes where
     * it yielded, takes the chunk apart frame by frame and yields at its end,
     * or stops at the error label. The result is that of the bytes fed one by one.
     */
    method Receive(chunk: seq<byte>)
      requires Valid()
      modifies this, rxbuf
      ensures Valid()
      ensures Model() == Feed(cfg, old(Model()), chunk)
    {
      ghost var e0 := Model();
      if !Active(state) {
        FeedInactive(cfg, e0, chunk);
        return;
      }
      var i := 0;
      while i < |chunk|
        invariant 0 <= i <= |chunk|
        invariant Valid() && Active(state)
        invariant rxbuf == old(rxbuf) || fresh(rxbuf)
        invariant Model() == Feed(cfg, e0, chunk[..i])
      {
        var j := Advance(chunk, i);
        FeedPrefix(cfg, e0, chunk, i, j);
        i := j;
        if !Active(state) {
          FeedClosedPrefix(cfg, e0, chunk, i);
          return;
        }
      }
      assert chunk[..i] == chunk;
    }

    /** sent_cb: from DATA_SENT back to OPEN, and the next queued frame goes out. */
    method SentCb()
      requires Valid()
      modifies this
      ensures Valid() && rxbuf == old(rxbuf)
      ensures Model() == Spec.SentCb(old(Model()))
    {
      if state == DataSent {
        ghost var e := Model();
        state := Open;
        assert Model() == e.(state := Open);
        SendFromQ();
      }
    }

    /** connect_cb: CONNECTING, the CONNECT frame sent directly, the receive timeout armed. */
    method ConnectCb()
      requires Valid() && ConnectOk(cfg)
      modifies this
      ensures Valid() && rxbuf == old(rxbuf)
      ensures Model() == Spec.ConnectCb(cfg, old(Model()))
    {
      state := Connecting;
      var frame := BuildConnect(cfg);
      wire := wire + [Direct(frame)];
      timeoutArmed := true;
    }

    /** discon_cb: CLOSED, queue dropped, timers disarmed, espconn_delete and mqtt_error_cb scheduled. */
    method DisconCb()
      requires Valid()
      modifies this
      ensures Valid() && rxbuf == old(rxbuf)
      ensures Model() == Spec.DisconCb(old(Model()))
    {
      state := Closed;
      RemoveQ();
      timeoutArmed := false;
      keepaliveArmed := false;
      events := events + [Delete, HostError];
    }

    /** recon_cb: the same as discon_cb. */
    method ReconCb()
      requires Valid()
      modifies this
      ensures Valid() && rxbuf == old(rxbuf)
      ensures Model() == Spec.DisconCb(old(Model()))
    {
      DisconCb();
    }

    /** timeout_cb: CLOSING, timers disarmed, espconn_disconnect scheduled. */
    method TimeoutCb()
      requires Valid()
      modifies this
      ensures Valid() && rxbuf == old(rxbuf)
      ensures Model() == Spec.TimeoutCb(old(Model()))
    {
      state := Closing;
      timeoutArmed := false;
      keepaliveArmed := false;
      events := events + [Disconnect];
    }

    /** keepalive_cb: PINGREQ sent directly and the timer re-armed. */
    method KeepaliveCb()
      requires Valid()
      modifies this
      ensures Valid() && rxbuf == old(rxbuf)
      ensures Model() == Spec.KeepaliveCb(old(Model()))
    {
      wire := wire + [Direct([PINGREQ, 0])];
      keepaliveArmed := true;
    }

    /** dns_cb: on failure mqtt_error_cb is scheduled; otherwise CLOSED, PT_INIT and the TCP connect starts. */
    method DnsCb(resolved: bool)
      requires Valid()
      modifies this
      ensures Valid() && rxbuf == old(rxbuf)
      ensures Model() == Spec.DnsCb(old(Model()), resolved)
    {
      if !resolved {
        events := events + [HostError];
        return;
      }
      state := Closed;
      at := AtType;
    }

    /** mqtt_connect: refused unless CLOSED; then by what the name lookup answers. */
    method Connect(lookup: Lookup) returns (ok: bool)
      requires Valid()
      modifies this
      ensures Valid() && rxbuf == old(rxbuf)
      ensures (Model(), ok) == Spec.Connect(old(Model()), lookup)
    {
      if state != Closed {
        return false;
      }
      match lookup
      case Cached =>
        DnsCb(true);
        return true;
      case InProgress =>
        return true;
      case LookupError =>
        return false;
    }

    /** mqtt_publish: the next packet id when QoS > 0, the frame built, then enQ unforced. */
    method Publish(topic: seq<byte>, msg: seq<byte>, qos: byte, retain: bool) returns (ok: bool)
      requires Valid() && PublishLen(topic, msg, qos) <= MAX_BODY
      modifies this
      ensures Valid() && rxbuf == old(rxbuf)
      ensures (Model(), ok) == Spec.Publish(cfg, old(Model()), topic, msg, qos, retain)
    {
      if !CanSend(state) {
        return false;
      }
      if qos > 0 {
        nextId := NextIdOf(nextId);
      }
      var frame := BuildPublish(topic, msg, qos, retain, nextId);
      ok := EnQ(frame, false);
    }

    /** mqtt_subscribe: always takes the next packet id; the frame goes through enQ unforced. */
    method Subscribe(topic: seq<byte>, qos: byte) returns (ok: bool)
      requires Valid() && SubscribeLen(topic) <= MAX_BODY
      modifies this
      ensures Valid() && rxbuf == old(rxbuf)
      ensures (Model(), ok) == Spec.Subscribe(cfg, old(Model()), topic, qos)
    {
      if !CanSend(state) {
        return false;
      }
      nextId := NextIdOf(nextId);
      var frame := BuildSubscribe(topic, qos, nextId);
      ok := EnQ(frame, false);
    }

    /** mqtt_unsubscribe: always takes the next packet id; the frame goes through enQ unforced. */
    method Unsubscribe(topic: seq<byte>) returns (ok: bool)
      requires Valid() && UnsubscribeLen(topic) <= MAX_BODY
      modifies this
      ensures Valid() && rxbuf == old(rxbuf)
      ensures (Model(), ok) == Spec.Unsubscribe(cfg, old(Model()), topic)
    {
      if !CanSend(state) {
        return false;
      }
      nextId := NextIdOf(nextId);
      var frame := BuildUnsubscribe(topic, nextId);
      ok := EnQ(frame, false);
    }
  }

  /** `nextId++; if (nextId == 0) nextId=1;` on a uint16_t. */
  method NextIdOf(id: u16) returns (r: u16)
    ensures r == NextId(id)
  {
    r := (id + 1) % 0x1_0000;
    if r == 0 {
      r := 1;
    }
  }

  /** Concatenation regrouped: a proof step the solver finds cheaper as a lemma than as an assertion. */
  lemma Regroup3(a: seq<byte>, b: seq<byte>, c: seq<byte>)
    ensures a + b + c == a + (b + c)
  {
  }

  lemma Regroup(a: seq<byte>, b: seq<byte>, c: seq<byte>, d: seq<byte>)
    ensures a + b + c + d == a + (b + c + d)
  {
  }

  /** A string connect_cb writes only when it is configured. */
  function OptStr(s: Option<seq<byte>>): (r: seq<byte>)
    ensures s.Some? && |s.value| < 0x1_0000 ==> |r| == MStrLen(s)
    ensures s.None? ==> r == []
  {
    if s.Some? then Str(s.value) else []
  }

  /** What connect_cb writes after the client id: the will topic and message, the user, the password. */
  function ConnectTail(cfg: Config): (r: seq<byte>)
    ensures ConnectOk(cfg) ==> |r| == |WillStrings(cfg)| + MStrLen(cfg.user) + MStrLen(cfg.pass)
  {
    WillStrings(cfg) + OptStr(cfg.user) + OptStr(cfg.pass)
  }

  /** The will topic and message, written together and only when a will topic is configured. */
  function WillStrings(cfg: Config): (r: seq<byte>)
    ensures ConnectOk(cfg) ==> |r| == if cfg.willTopic.Some? then MStrLen(cfg.willTopic) + MStrLen(cfg.willMessage) else 0
  {
    if cfg.willTopic.Some? then OptStr(cfg.willTopic) + OptStr(cfg.willMessage) else []
  }

  /** What connect_cb writes after the fixed header: "MQTT", level 4, the flags, keepalive, the client id. */
  function ConnectHead(cfg: Config, flags: byte): seq<byte>
  {
    Str(PROTOCOL_NAME) + [4, flags] + U16(cfg.keepalive) + Str(cfg.client)
  }

  /** Feeding a chunk piece by piece: the prefix up to `i`, then the bytes from `i` to `j`. */
  lemma FeedPrefix(cfg: Config, e: EngineState, chunk: seq<byte>, i: nat, j: nat)
    requires Wf(e) && i <= j <= |chunk|
    ensures Feed(cfg, e, chunk[..j]) == Feed(cfg, Feed(cfg, e, chunk[..i]), chunk[i..j])
  {
    FeedConcat(cfg, e, chunk[..i], chunk[i..j]);
    assert chunk[..i] + chunk[i..j] == chunk[..j];
  }

  /** Once a prefix of the chunk has closed the connection, the rest of the chunk changes nothing. */
  lemma FeedClosedPrefix(cfg: Config, e: EngineState, chunk: seq<byte>, i: nat)
    requires Wf(e) && i <= |chunk| && !Active(Feed(cfg, e, chunk[..i]).state)
    ensures Feed(cfg, e, chunk) == Feed(cfg, e, chunk[..i])
  {
    FeedConcat(cfg, e, chunk[..i], chunk[i..]);
    assert chunk[..i] + chunk[i..] == chunk;
    FeedInactive(cfg, Feed(cfg, e, chunk[..i]), chunk[i..]);
  }

  /** The CONNECT payload is the head connect_cb always writes followed by the optional strings. */
  lemma ConnectBodySplit(cfg: Config)
    requires ConnectOk(cfg)
    ensures ConnectBody(cfg) == ConnectHead(cfg, ConnectFlags(cfg)) + ConnectTail(cfg)
  {
    var will := WillStrings(cfg);
    assert ConnectBody(cfg) == ConnectHead(cfg, ConnectFlags(cfg)) + will + OptStr(cfg.user) + OptStr(cfg.pass);
    Regroup(ConnectHead(cfg, ConnectFlags(cfg)), will, OptStr(cfg.user), OptStr(cfg.pass));
  }

  /** connect_cb's buffer: the fixed header, then the body. */
  method BuildConnect(cfg: Config) returns (frame: seq<byte>)
    requires ConnectOk(cfg)
    ensures frame == ConnectFrame(cfg)
  {
    var len: u16 := ConnectLen(cfg);
    var buf := new byte[HeaderSize(len) + len];
    var p := PutHeader(buf, 0, CONNECT, len);
    assert p + len == buf.Length;
    var n := PutConnectBody(buf, p, cfg);
    assert p + n == buf.Length;
    assert buf[..] == buf[..p + n] == Header(CONNECT, len) + ConnectBody(cfg);
    frame := buf[..];
  }

  /** connect_cb's body: the part always written, then the optional strings. */
  method PutConnectBody(buf: array<byte>, at: nat, cfg: Config) returns (n: nat)
    requires ConnectOk(cfg) && at + ConnectLen(cfg) == buf.Length
    modifies buf
    ensures n == ConnectLen(cfg) && buf[..at + n] == old(buf[..at]) + ConnectBody(cfg)
  {
    ghost var pre := buf[..at];
    assert |cfg.client| < 0xFFFE && at + 12 + |cfg.client| + |ConnectTail(cfg)| == buf.Length;
    var h := PutConnectHead(buf, at, cfg, ConnectFlags(cfg));
    var t := PutConnectTail(buf, at + h, cfg);
    n := h + t;
    ConnectBodySplit(cfg);
    Regroup3(pre, ConnectHead(cfg, ConnectFlags(cfg)), ConnectTail(cfg));
  }

  /** The part of connect_cb's buffer after the fixed header that is always there. */
  method PutConnectHead(buf: array<byte>, at: nat, cfg: Config, flags: byte) returns (n: nat)
    requires |cfg.client| < 0xFFFE && at + 12 + |cfg.client| <= buf.Length
    modifies buf
    ensures n == 12 + |cfg.client| && buf[..at + n] == old(buf[..at]) + ConnectHead(cfg, flags)
  {
    ghost var pre := buf[..at];
    var p := PutProtocol(buf, at, flags);
    var m := PutU16String(buf, p, cfg.keepalive, cfg.client);
    n := 8 + m;
    Regroup3(pre, Str(PROTOCOL_NAME) + [4, flags], U16(cfg.keepalive) + Str(cfg.client));
    assert Str(PROTOCOL_NAME) + [4, flags] + (U16(cfg.keepalive) + Str(cfg.client)) == ConnectHead(cfg, flags);
  }

  /** The protocol name, protocol level 4 and the connect flags. */
  method PutProtocol(buf: array<byte>, at: nat, flags: byte) returns (p: nat)
    requires at + 8 <= buf.Length
    modifies buf
    ensures p == at + 8 && buf[..p] == old(buf[..at]) + (Str(PROTOCOL_NAME) + [4, flags])
  {
    ghost var pre := buf[..at];
    var w := PutString(buf, at, PROTOCOL_NAME);
    p := at + 6;
    CopyInto(buf, p, [4, flags]);
    p := p + 2;
    assert buf[..p] == pre + Str(PROTOCOL_NAME) + [4, flags];
  }

  /** `if (s) p += put_string(p, s);` */
  method PutOptString(buf: array<byte>, at: nat, s: Option<seq<byte>>) returns (n: nat)
    requires s.Some? ==> |s.value| < 0xFFFE
    requires at + MStrLen(s) <= buf.Length
    modifies buf
    ensures n == MStrLen(s) && buf[..at + n] == old(buf[..at]) + OptStr(s)
  {
    if s.None? {
      assert old(buf[..at]) + [] == buf[..at];
      return 0;
    }
    var w := PutString(buf, at, s.value);
    n := w as nat;
  }

  /** The optional strings of connect_cb, each written only when configured. */
  method PutConnectTail(buf: array<byte>, at: nat, cfg: Config) returns (n: nat)
    requires ConnectOk(cfg)
    requires at + MStrLen(cfg.willTopic) + MStrLen(cfg.willMessage) + MStrLen(cfg.user) + MStrLen(cfg.pass) == buf.Length
    modifies buf
    ensures n == |ConnectTail(cfg)| && buf[..at + n] == old(buf[..at]) + ConnectTail(cfg)
  {
    ghost var pre := buf[..at];
    var w := PutWill(buf, at, cfg);
    var p := at + w;
    assert buf[..p] == pre + WillStrings(cfg);
    assert p + MStrLen(cfg.user) + MStrLen(cfg.pass) == buf.Length;
    var u := PutOptString(buf, p, cfg.user);
    p := p + u;
    assert buf[..p] == pre + WillStrings(cfg) + OptStr(cfg.user);
    var q := PutOptString(buf, p, cfg.pass);
    p := p + q;
    assert buf[..p] == pre + WillStrings(cfg) + OptStr(cfg.user) + OptStr(cfg.pass);
    Regroup(pre, WillStrings(cfg), OptStr(cfg.user), OptStr(cfg.pass));
    n := p - at;
  }

  /** `if (will_topic) { put_string(will_topic); put_string(will_message); }` */
  method PutWill(buf: array<byte>, at: nat, cfg: Config) returns (n: nat)
    requires ConnectOk(cfg)
    requires at + MStrLen(cfg.willTopic) + MStrLen(cfg.willMessage) <= buf.Length
    modifies buf
    ensures n == MStrLen(cfg.willTopic) + MStrLen(cfg.willMessage)
    ensures buf[..at + n] == old(buf[..at]) + WillStrings(cfg)
  {
    if cfg.willTopic.None? {
      assert old(buf[..at]) + [] == buf[..at];
      return 0;
    }
    ghost var pre := buf[..at];
    var w := PutOptString(buf, at, cfg.willTopic);
    var m := PutOptString(buf, at + w, cfg.willMessage);
    assert buf[..at + w + m] == pre + OptStr(cfg.willTopic) + OptStr(cfg.willMessage);
    n := w + m;
  }

  /** mqtt_publish's buffer: the fixed header, then the body. */
  method BuildPublish(topic: seq<byte>, msg: seq<byte>, qos: byte, retain: bool, id: u16) returns (frame: seq<byte>)
    requires PublishLen(topic, msg, qos) <= MAX_BODY
    ensures frame == PublishFrame(topic, msg, qos, retain, id)
  {
    var len: u16 := PublishLen(topic, msg, qos);
    var buf := new byte[HeaderSize(len) + len];
    var p := PutHeader(buf, 0, PublishType(qos, retain), len);
    var n := PutPublishBody(buf, p, topic, msg, qos, id);
    assert buf[..] == buf[..p + n];
    frame := buf[..];
  }

  /** mqtt_publish's body: topic, packet id when QoS > 0, the message copied raw. */
  method PutPublishBody(buf: array<byte>, at: nat, topic: seq<byte>, msg: seq<byte>, qos: byte, id: u16) returns (n: nat)
    requires PublishLen(topic, msg, qos) <= MAX_BODY && at + PublishLen(topic, msg, qos) == buf.Length
    modifies buf
    ensures n == PublishLen(topic, msg, qos) && buf[..at + n] == old(buf[..at]) + PublishBody(topic, msg, qos, id)
  {
    ghost var pre := buf[..at];
    ghost var idPart := if qos > 0 then U16(id) else [];
    var w := PutString(buf, at, topic);
    var p := at + w as nat;
    assert buf[..p] == pre + Str(topic);
    if qos > 0 {
      var m := PutU16(buf, p, id);
      p := p + m;
    }
    assert buf[..p] == pre + Str(topic) + idPart && p + |msg| == buf.Length;
    CopyInto(buf, p, msg);
    Regroup(pre, Str(topic), idPart, msg);
    n := p + |msg| - at;
  }

  /**
   * A big-endian uint16_t followed by a string: the keepalive and client id of
   * CONNECT, the packet id and topic filter of SUBSCRIBE and UNSUBSCRIBE.
   */
  method PutU16String(buf: array<byte>, at: nat, v: u16, s: seq<byte>) returns (n: nat)
    requires at + 4 + |s| <= buf.Length && |s| < 0xFFFE
    modifies buf
    ensures n == 4 + |s| && buf[..at + n] == old(buf[..at]) + (U16(v) + Str(s))
  {
    ghost var pre := buf[..at];
    var m := PutU16(buf, at, v);
    var w := PutString(buf, at + 2, s);
    n := 2 + w as nat;
    assert buf[..at + n] == pre + U16(v) + Str(s);
  }

  /** mqtt_subscribe's buffer: header with flags 0010, packet id, topic, requested QoS. */
  method BuildSubscribe(topic: seq<byte>, qos: byte, id: u16) returns (frame: seq<byte>)
    requires SubscribeLen(topic) <= MAX_BODY
    ensures frame == SubscribeFrame(topic, qos, id)
  {
    var len: u16 := SubscribeLen(topic);
    var buf := new byte[HeaderSize(len) + len];
    var p := PutHeader(buf, 0, SUBSCRIBE + 0x02, len);
    assert p + len == buf.Length;
    var n := PutU16String(buf, p, id, topic);
    ghost var head := buf[..p + n];
    assert head == Header(SUBSCRIBE + 0x02, len) + (U16(id) + Str(topic));
    CopyInto(buf, p + n, [qos]);
    assert buf[..] == head + [qos];
    Regroup3(Header(SUBSCRIBE + 0x02, len), U16(id), Str(topic));
    frame := buf[..];
  }

  /** mqtt_unsubscribe's buffer: header with flags 0010, packet id, topic. */
  method BuildUnsubscribe(topic: seq<byte>, id: u16) returns (frame: seq<byte>)
    requires UnsubscribeLen(topic) <= MAX_BODY
    ensures frame == UnsubscribeFrame(topic, id)
  {
    var len: u16 := UnsubscribeLen(topic);
    var buf := new byte[HeaderSize(len) + len];
    var p := PutHeader(buf, 0, UNSUBSCRIBE + 0x02, len);
    assert p + len == buf.Length;
    var n := PutU16String(buf, p, id, topic);
    assert buf[..] == buf[..p + n] == Header(UNSUBSCRIBE + 0x02, len) + (U16(id) + Str(topic));
    frame := buf[..];
  }

  /** handle_rxbuf's PUBLISH branch, past its guards, as a function of the decoded payload. */
  lemma HandlePublishCase(cfg: Config, e: EngineState, t: byte, data: seq<byte>)
    requires Kind(t) == PUBLISH && e.timeoutArmed && CanSend(e.state) && |data| >= 4 && !DupOf(t)
    ensures var r := Handle(cfg, e, t, data);
      match DecodePublish(t, data)
      case None => r == (e, false)
      case Some(p) =>
        var e1 := e.(events := e.events + [HostPublish(CString(p.topic), CString(p.msg), p.qos, p.retain)]);
        r == if p.qos > 0 then (Spec.EnQ(cfg, e1, AckFrame(if p.qos == 1 then PUBACK else PUBREC, p.id), true).0, true) else (e1, true)
  {
  }

  /** What one receiver step does to the engine, as FeedByte applies it. */
  ghost function Outcome(cfg: Config, e: EngineState, step: (Rx, RxOut)): EngineState
  {
    match step.1
    case More => e.(rx := step.0)
    case Fail => RecvError(e)
    case Done(t, data) => Deliver(cfg, e.(rx := AwaitType), t, data)
  }

  /** On a live connection FeedByte applies the receiver step to the engine; where the receiver stood does not matter beyond the step. */
  lemma FeedByteOutcome(cfg: Config, e: EngineState, b: byte)
    requires Wf(e) && Active(e.state)
    ensures FeedByte(cfg, e, b) == Outcome(cfg, e.(rx := AwaitType), RxStep(e.rx, b))
  {
  }
}
