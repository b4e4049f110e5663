/**
 * The connection engine of mqtt.c as a value: its global state (connection
 * state, send queue, packet-id counter, receiver, the two timers) together
 * with what it has done to the outside world so far (the frames it handed to
 * espconn_send and the callbacks it ran or scheduled), and one function per
 * entry point. The imperative Client class is proved against these.
 *
 * handle_rxbuf and connect_cb are modelled with three defects corrected: a
 * QoS 0 message reaches the host intact, a PUBREC is answered with type byte
 * 0x62, and CONNECT announces a will with the Will Flag 0x04. Module
 * AsWritten holds both entry points as the code has them.
 */
module Engine {
  import opened Codec
  import opened Frames
  import opened Receiver

  /** The connection states: CLOSED, CONNECTING, OPEN, DATA_SENT, CLOSING. */
  datatype ConnState = Closed | Connecting | Open | DataSent | Closing

  /**
   * A frame handed to espconn_send: straight from a callback (CONNECT, PINGREQ)
   * or taken off the send queue by sendFromQ.
   */
  datatype Wire = Direct(bytes: seq<byte>) | Dequeued(bytes: seq<byte>)

  /**
   * A call out of the engine, in order: the host callbacks mqtt_open_cb,
   * mqtt_error_cb and mqtt_publish_cb, and the scheduled espconn_disconnect
   * and espconn_delete.
   */
  datatype Event =
    | HostOpen
    | HostError
    | HostPublish(topic: seq<byte>, msg: seq<byte>, qos: nat, retain: bool)
    | Disconnect
    | Delete

  /** The engine's globals and its output so far. */
  datatype EngineState = EngineState(
    state: ConnState,
    sendQ: seq<seq<byte>>,
    nextId: u16,
    rx: Rx,
    timeoutArmed: bool,
    keepaliveArmed: bool,
    wire: seq<Wire>,
    events: seq<Event>)

  /** The engine at boot: all statics zero. */
  function Initial(): (e: EngineState)
    ensures e.state == Closed && e.sendQ == [] && e.wire == [] && e.events == []
    ensures Wf(e)
  {
    EngineState(Closed, [], 0, AwaitType, false, false, [], [])
  }

  /** The receiver is between two bytes. */
  predicate Wf(e: EngineState)
  {
    Receiver.Valid(e.rx)
  }

  /** States in which recv_cb runs the receiver. */
  predicate Active(s: ConnState)
  {
    s == Connecting || s == Open || s == DataSent
  }

  /** States in which publish, subscribe, unsubscribe and inbound PUBLISH are accepted. */
  predicate CanSend(s: ConnState)
  {
    s == Open || s == DataSent
  }

  /** The frames sendFromQ has sent, oldest first. */
  function DequeuedFrames(w: seq<Wire>): (r: seq<seq<byte>>)
    ensures |r| <= |w|
  {
    if w == [] then []
    else
      var last := w[|w| - 1];
      DequeuedFrames(w[..|w| - 1]) + (if last.Dequeued? then [last.bytes] else [])
  }

  /** Every frame ever enqueued, oldest first: those already sent, then those still queued. */
  function Outbox(e: EngineState): seq<seq<byte>>
  {
    DequeuedFrames(e.wire) + e.sendQ
  }

  /**
   * sendFromQ: when the queue is not empty and nothing is in flight, sends the
   * head of the queue, moves to DATA_SENT and re-arms the keepalive timer.
   */
  function SendFromQ(e: EngineState): (r: EngineState)
    ensures Outbox(r) == Outbox(e)
    ensures |DequeuedFrames(r.wire)| == |DequeuedFrames(e.wire)| + (if e.sendQ != [] && e.state == Open then 1 else 0)
    ensures r.state == (if e.sendQ != [] && e.state == Open then DataSent else e.state)
    ensures r.rx == e.rx && r.events == e.events && r.nextId == e.nextId && r.timeoutArmed == e.timeoutArmed
  {
    if e.sendQ == [] || e.state != Open then e
    else
      var w := e.wire + [Dequeued(e.sendQ[0])];
      assert w[..|w| - 1] == e.wire;
      assert [e.sendQ[0]] + e.sendQ[1..] == e.sendQ;
      e.(wire := w, sendQ := e.sendQ[1..], state := DataSent, keepaliveArmed := true)
  }

  /** The queue depth at which enQ starts refusing unforced frames: q_max, but never below one. */
  function Limit(cfg: Config): nat
  {
    if cfg.qMax == 0 then 1 else cfg.qMax
  }

  /**
   * enQ: counts the queued frames and, unless `force` is set, refuses the new
   * one once the count reaches q_max; otherwise appends it to the queue and
   * tries to send.
   */
  function EnQ(cfg: Config, e: EngineState, frame: seq<byte>, force: bool): (r: (EngineState, bool))
    ensures r.1 <==> force || |e.sendQ| < Limit(cfg)
    ensures r.1 ==> Outbox(r.0) == Outbox(e) + [frame]
    ensures !r.1 ==> r.0 == e
    ensures r.0.state == if r.1 && e.state == Open then DataSent else e.state
    ensures |DequeuedFrames(r.0.wire)| == |DequeuedFrames(e.wire)| + if r.1 && e.state == Open then 1 else 0
    ensures r.0.rx == e.rx && r.0.events == e.events && r.0.nextId == e.nextId && r.0.timeoutArmed == e.timeoutArmed
  {
    var n := |e.sendQ|;
    if !force && n >= 1 && n >= cfg.qMax then (e, false)
    else
      var e1 := e.(sendQ := e.sendQ + [frame]);
      assert Outbox(e1) == Outbox(e) + [frame];
      (SendFromQ(e1), true)
  }

  /** The packet-id step: `nextId++`, skipping 0 when the uint16_t wraps. */
  function NextId(id: u16): (r: u16)
    ensures r != 0 && r == id % 0xFFFF + 1
  {
    var n := (id + 1) % 0x1_0000;
    if n == 0 then 1 else n
  }

  /**
   * handle_rxbuf: re-arms the receive timeout, then acts on a complete inbound
   * frame of type `t` with payload `data`; false sends the receiver to its
   * error path.
   */
  function Handle(cfg: Config, e: EngineState, t: byte, data: seq<byte>): (r: (EngineState, bool))
    ensures e.wire <= r.0.wire && e.events <= r.0.events
    ensures r.0.timeoutArmed && r.0.rx == e.rx && r.0.nextId == e.nextId
    ensures !r.1 ==> r.0 == e.(timeoutArmed := true)
    ensures |Outbox(e)| <= |Outbox(r.0)| <= |Outbox(e)| + 1
    ensures Outbox(r.0)[..|Outbox(e)|] == Outbox(e)
    ensures r.0.state == e.state || (e.state == Connecting && r.0.state == Open) || (e.state == Open && r.0.state == DataSent)
  {
    var e0 := e.(timeoutArmed := true);
    var k := Kind(t);
    if k == CONNACK then
      if e.state == Connecting && |data| == 2 && data[1] == 0 then
        (e0.(state := Open, events := e.events + [HostOpen], keepaliveArmed := true), true)
      else (e0, false)
    else if k == PUBLISH then
      if !CanSend(e.state) || |data| < 4 then (e0, false)
      else if DupOf(t) then (e0, true)
      else
        match DecodePublish(t, data)
        case None => (e0, false)
        case Some(p) =>
          var e1 := e0.(events := e.events + [HostPublish(CString(p.topic), CString(p.msg), p.qos, p.retain)]);
          if p.qos > 0 then
            var (e2, _) := EnQ(cfg, e1, AckFrame(if p.qos == 1 then PUBACK else PUBREC, p.id), true);
            (e2, true)
          else (e1, true)
    else if k == PUBREC || k == PUBREL then
      if |data| == 2 then
        var (e2, _) := EnQ(cfg, e0, [if k == PUBREC then PUBREL_OUT else PUBCOMP, 2, data[0], data[1]], true);
        (e2, true)
      else (e0, false)
    else if k in {PUBACK, PUBCOMP, SUBACK, UNSUBACK, PINGRESP} then (e0, true)
    else (e0, false)
  }

  /**
   * The receiver's error path: CLOSING, receiver reset by PT_END, both timers
   * disarmed and espconn_disconnect scheduled. The queue is kept.
   */
  function RecvError(e: EngineState): (r: EngineState)
    ensures r.state == Closing && r.rx == AwaitType && !r.timeoutArmed && !r.keepaliveArmed
    ensures r.events == e.events + [Disconnect] && r.wire == e.wire && r.sendQ == e.sendQ
  {
    e.(state := Closing, rx := AwaitType, timeoutArmed := false, keepaliveArmed := false,
       events := e.events + [Disconnect])
  }

  /**
   * One inbound byte as recv_cb and recv_pt take it: ignored unless the
   * connection is CONNECTING, OPEN or DATA_SENT; a completed frame goes to
   * handle_rxbuf with the receiver back at its start.
   */
  function FeedByte(cfg: Config, e: EngineState, b: byte): (r: EngineState)
    requires Wf(e)
    ensures Wf(r)
    ensures e.wire <= r.wire && e.events <= r.events
    ensures !Active(e.state) ==> r == e
  {
    if !Active(e.state) then e
    else
      var (rx1, o) := RxStep(e.rx, b);
      match o
      case More => e.(rx := rx1)
      case Fail => RecvError(e)
      case Done(t, data) => Deliver(cfg, e.(rx := AwaitType), t, data)
  }

  /** A complete frame handed to handle_rxbuf; a refusal takes the receiver's error path. */
  function Deliver(cfg: Config, e: EngineState, t: byte, data: seq<byte>): (r: EngineState)
    ensures r.rx == e.rx || (r.state == Closing && r.rx == AwaitType)
    ensures e.wire <= r.wire && e.events <= r.events
  {
    var (e1, ok) := Handle(cfg, e, t, data);
    if ok then e1 else RecvError(e1)
  }

  /** A stream of inbound bytes, one after the other. */
  function Feed(cfg: Config, e: EngineState, s: seq<byte>): (r: EngineState)
    requires Wf(e)
    ensures Wf(r)
    ensures e.wire <= r.wire && e.events <= r.events
    decreases |s|
  {
    if s == [] then e else Feed(cfg, FeedByte(cfg, e, s[0]), s[1..])
  }

  /** sent_cb: the frame in flight is out; the next queued one may go. */
  function SentCb(e: EngineState): (r: EngineState)
    ensures Outbox(r) == Outbox(e)
    ensures e.state != DataSent ==> r == e
    ensures e.state == DataSent ==> r.state == (if e.sendQ == [] then Open else DataSent)
  {
    if e.state == DataSent then SendFromQ(e.(state := Open)) else e
  }

  /** connect_cb: the TCP connection is up; CONNECT goes out directly and the 10 s timeout is armed. */
  function ConnectCb(cfg: Config, e: EngineState): (r: EngineState)
    requires ConnectOk(cfg)
    ensures r.state == Connecting && r.timeoutArmed
    ensures r.wire == e.wire + [Direct(ConnectFrame(cfg))]
    ensures Outbox(r) == Outbox(e)
  {
    var r := e.(state := Connecting, wire := e.wire + [Direct(ConnectFrame(cfg))], timeoutArmed := true);
    assert r.wire[..|r.wire| - 1] == e.wire;
    r
  }

  /**
   * discon_cb (and recon_cb, which calls it): CLOSED, queue dropped, timers
   * disarmed, espconn_delete and mqtt_error_cb scheduled in that order.
   */
  function DisconCb(e: EngineState): (r: EngineState)
    ensures r.state == Closed && r.sendQ == [] && !r.timeoutArmed && !r.keepaliveArmed
    ensures r.events == e.events + [Delete, HostError] && r.wire == e.wire
  {
    e.(state := Closed, sendQ := [], timeoutArmed := false, keepaliveArmed := false,
       events := e.events + [Delete, HostError])
  }

  /** timeout_cb: nothing received in time; CLOSING and espconn_disconnect scheduled. */
  function TimeoutCb(e: EngineState): (r: EngineState)
    ensures r.state == Closing && !r.timeoutArmed && !r.keepaliveArmed
    ensures r.events == e.events + [Disconnect] && r.wire == e.wire && r.sendQ == e.sendQ
  {
    e.(state := Closing, timeoutArmed := false, keepaliveArmed := false, events := e.events + [Disconnect])
  }

  /** The PINGREQ frame keepalive_cb sends. */
  const PING: seq<byte> := [PINGREQ, 0]

  /** keepalive_cb: PINGREQ goes out directly, bypassing the queue, and the timer is re-armed. */
  function KeepaliveCb(e: EngineState): (r: EngineState)
    ensures r.wire == e.wire + [Direct(PING)] && r.keepaliveArmed
    ensures r.state == e.state && Outbox(r) == Outbox(e)
  {
    var r := e.(wire := e.wire + [Direct(PING)], keepaliveArmed := true);
    assert r.wire[..|r.wire| - 1] == e.wire;
    r
  }

  /** What espconn_gethostbyname answers. */
  datatype Lookup = Cached | InProgress | LookupError

  /**
   * dns_cb: on failure mqtt_error_cb is scheduled; once resolved, the state
   * is CLOSED, the receiver is reset (PT_INIT) and the TCP connect starts.
   */
  function DnsCb(e: EngineState, resolved: bool): (r: EngineState)
    ensures resolved ==> r.state == Closed && r.rx == AwaitType && r.events == e.events
    ensures !resolved ==> r == e.(events := e.events + [HostError])
    ensures r.wire == e.wire && r.sendQ == e.sendQ
  {
    if resolved then e.(state := Closed, rx := AwaitType)
    else e.(events := e.events + [HostError])
  }

  /**
   * mqtt_connect: refused unless CLOSED; a cached address goes through dns_cb
   * at once, a pending lookup later, a lookup error refuses.
   */
  function Connect(e: EngineState, lookup: Lookup): (r: (EngineState, bool))
    ensures r.1 <==> e.state == Closed && lookup != LookupError
    ensures r.0.state == e.state && r.0.wire == e.wire && r.0.events == e.events
    ensures lookup == Cached && e.state == Closed ==> r.0.rx == AwaitType
    ensures lookup != Cached || e.state != Closed ==> r.0 == e
  {
    if e.state != Closed then (e, false)
    else
      match lookup
      case Cached => (DnsCb(e, true), true)
      case InProgress => (e, true)
      case LookupError => (e, false)
  }

  /**
   * mqtt_publish: refused unless OPEN or DATA_SENT; with QoS > 0 takes the
   * next packet id (kept even when the queue then refuses the frame).
   */
  function Publish(cfg: Config, e: EngineState, topic: seq<byte>, msg: seq<byte>, qos: byte, retain: bool): (r: (EngineState, bool))
    requires PublishLen(topic, msg, qos) <= MAX_BODY
    ensures !CanSend(e.state) ==> r == (e, false)
    ensures r.0.nextId == if CanSend(e.state) && qos > 0 then NextId(e.nextId) else e.nextId
    ensures r.1 <==> CanSend(e.state) && |e.sendQ| < Limit(cfg)
    ensures r.1 ==> Outbox(r.0) == Outbox(e) + [PublishFrame(topic, msg, qos, retain, r.0.nextId)]
    ensures !r.1 ==> Outbox(r.0) == Outbox(e)
  {
    if !CanSend(e.state) then (e, false)
    else
      var e1 := if qos > 0 then e.(nextId := NextId(e.nextId)) else e;
      EnQ(cfg, e1, PublishFrame(topic, msg, qos, retain, e1.nextId), false)
  }

  /** mqtt_subscribe: refused unless OPEN or DATA_SENT; always takes the next packet id. */
  function Subscribe(cfg: Config, e: EngineState, topic: seq<byte>, qos: byte): (r: (EngineState, bool))
    requires SubscribeLen(topic) <= MAX_BODY
    ensures !CanSend(e.state) ==> r == (e, false)
    ensures CanSend(e.state) ==> r.0.nextId == NextId(e.nextId)
    ensures r.1 <==> CanSend(e.state) && |e.sendQ| < Limit(cfg)
    ensures r.1 ==> Outbox(r.0) == Outbox(e) + [SubscribeFrame(topic, qos, r.0.nextId)]
    ensures !r.1 ==> Outbox(r.0) == Outbox(e)
  {
    if !CanSend(e.state) then (e, false)
    else
      var e1 := e.(nextId := NextId(e.nextId));
      EnQ(cfg, e1, SubscribeFrame(topic, qos, e1.nextId), false)
  }

  /** mqtt_unsubscribe: refused unless OPEN or DATA_SENT; always takes the next packet id. */
  function Unsubscribe(cfg: Config, e: EngineState, topic: seq<byte>): (r: (EngineState, bool))
    requires UnsubscribeLen(topic) <= MAX_BODY
    ensures !CanSend(e.state) ==> r == (e, false)
    ensures CanSend(e.state) ==> r.0.nextId == NextId(e.nextId)
    ensures r.1 <==> CanSend(e.state) && |e.sendQ| < Limit(cfg)
    ensures r.1 ==> Outbox(r.0) == Outbox(e) + [UnsubscribeFrame(topic, r.0.nextId)]
    ensures !r.1 ==> Outbox(r.0) == Outbox(e)
  {
    if !CanSend(e.state) then (e, false)
    else
      var e1 := e.(nextId := NextId(e.nextId));
      EnQ(cfg, e1, UnsubscribeFrame(topic, e1.nextId), false)
  }
}
