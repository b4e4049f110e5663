/**
 * The engine driven by any sequence of its entry points: the SDK callbacks
 * (dns_cb, connect_cb, recv_cb, sent_cb, discon_cb, recon_cb, the two timer
 * callbacks) and the host API. Across any such run at most one queued frame
 * is in flight: sendFromQ sends only from OPEN and leaves DATA_SENT, which
 * only sent_cb turns back into OPEN.
 */
module Trace {
  import opened Codec
  import opened Frames
  import opened Receiver
  import opened Engine
  import opened EngineProps

  /** One entry into the engine. */
  datatype Input =
    | DoConnect(lookup: Lookup)
    | Dns(resolved: bool)
    | Connected
    | Recv(chunk: seq<byte>)
    | Sent
    | Discon
    | Recon
    | Timeout
    | Keepalive
    | Pub(topic: seq<byte>, msg: seq<byte>, qos: byte, retain: bool)
    | Sub(topic: seq<byte>, subQos: byte)
    | Unsub(topic: seq<byte>)

  /** An input whose frame fits the builders' uint16_t sizes. */
  predicate Admissible(cfg: Config, i: Input)
  {
    match i
    case Connected => ConnectOk(cfg)
    case Pub(topic, msg, qos, _) => PublishLen(topic, msg, qos) <= MAX_BODY
    case Sub(topic, _) => SubscribeLen(topic) <= MAX_BODY
    case Unsub(topic) => UnsubscribeLen(topic) <= MAX_BODY
    case _ => true
  }

  /** The engine after one input; a timer that is not armed does not fire. */
  function Step(cfg: Config, e: EngineState, i: Input): (r: EngineState)
    requires Wf(e) && Admissible(cfg, i)
    ensures Wf(r)
  {
    match i
    case DoConnect(lookup) => Connect(e, lookup).0
    case Dns(resolved) => DnsCb(e, resolved)
    case Connected => ConnectCb(cfg, e)
    case Recv(chunk) => Feed(cfg, e, chunk)
    case Sent => SentCb(e)
    case Discon => DisconCb(e)
    case Recon => DisconCb(e)
    case Timeout => if e.timeoutArmed then TimeoutCb(e) else e
    case Keepalive => if e.keepaliveArmed then KeepaliveCb(e) else e
    case Pub(topic, msg, qos, retain) => Publish(cfg, e, topic, msg, qos, retain).0
    case Sub(topic, qos) => Subscribe(cfg, e, topic, qos).0
    case Unsub(topic) => Unsubscribe(cfg, e, topic).0
  }

  /** The engine after a sequence of inputs. */
  function Run(cfg: Config, e: EngineState, ins: seq<Input>): (r: EngineState)
    requires Wf(e) && forall k :: 0 <= k < |ins| ==> Admissible(cfg, ins[k])
    ensures Wf(r)
    decreases |ins|
  {
    if ins == [] then e else Run(cfg, Step(cfg, e, ins[0]), ins[1..])
  }

  /** How many queued frames sendFromQ has handed to the transport. */
  function Dispatched(e: EngineState): nat
  {
    |DequeuedFrames(e.wire)|
  }

  /** States from which nothing leaves the queue until sent_cb or connect_cb. */
  predicate Gated(s: ConnState)
  {
    s == DataSent || s == Closing || s == Closed
  }

  /** The dispatch rule of one call of handle_rxbuf. */
  lemma HandleGate(cfg: Config, e: EngineState, t: byte, data: seq<byte>)
    ensures var r := Handle(cfg, e, t, data).0;
      && Dispatched(e) <= Dispatched(r) <= Dispatched(e) + 1
      && (Dispatched(r) > Dispatched(e) ==> r.state == DataSent)
      && (Gated(e.state) ==> Dispatched(r) == Dispatched(e) && r.state == e.state)
  {
    var k := Kind(t);
    if k == PUBLISH && CanSend(e.state) && |data| >= 4 && !DupOf(t) && DecodePublish(t, data).Some? {
      var p := DecodePublish(t, data).value;
      var e1 := e.(timeoutArmed := true, events := e.events + [HostPublish(CString(p.topic), CString(p.msg), p.qos, p.retain)]);
      assert e1.wire == e.wire && e1.state == e.state;
    }
  }

  /** The dispatch rule of one inbound byte. */
  lemma FeedByteGate(cfg: Config, e: EngineState, b: byte)
    requires Wf(e)
    ensures var r := FeedByte(cfg, e, b);
      && Dispatched(e) <= Dispatched(r) <= Dispatched(e) + 1
      && (Dispatched(r) > Dispatched(e) ==> Gated(r.state))
      && (Gated(e.state) ==> Dispatched(r) == Dispatched(e) && Gated(r.state))
  {
    if Active(e.state) {
      var (rx1, o) := RxStep(e.rx, b);
      if o.Done? {
        HandleGate(cfg, e.(rx := AwaitType), o.t, o.data);
      }
    }
  }

  /**
   * A chunk, however many frames it holds, dispatches at most one queued
   * frame, and none once a frame is in flight.
   */
  lemma {:induction false} FeedGate(cfg: Config, e: EngineState, s: seq<byte>)
    requires Wf(e)
    decreases |s|
    ensures var r := Feed(cfg, e, s);
      && Dispatched(e) <= Dispatched(r) <= Dispatched(e) + 1
      && (Dispatched(r) > Dispatched(e) ==> Gated(r.state))
      && (Gated(e.state) ==> Dispatched(r) == Dispatched(e) && Gated(r.state))
  {
    if s != [] {
      var e1 := FeedByte(cfg, e, s[0]);
      FeedByteGate(cfg, e, s[0]);
      FeedGate(cfg, e1, s[1..]);
    }
  }

  /**
   * The dispatch rule of one entry point taking `e` to `r`: at most one
   * queued frame dispatched, the engine gated whenever one was, and, unless
   * the entry point may reopen the gate, nothing dispatched from a gated engine.
   */
  predicate GateRule(e: EngineState, r: EngineState, reopens: bool)
  {
    && Dispatched(e) <= Dispatched(r) <= Dispatched(e) + 1
    && (Dispatched(r) > Dispatched(e) ==> Gated(r.state))
    && (Gated(e.state) && !reopens ==> Dispatched(r) == Dispatched(e) && Gated(r.state))
  }

  /** enQ keeps the rule: it sends only from OPEN, and leaves DATA_SENT when it does. */
  lemma EnQGate(cfg: Config, e: EngineState, frame: seq<byte>, force: bool)
    ensures GateRule(e, EnQ(cfg, e, frame, force).0, false)
  {
  }

  /** The host API keeps the rule: each call enqueues at most one frame. */
  lemma ApiGate(cfg: Config, e: EngineState, i: Input)
    requires Wf(e) && Admissible(cfg, i) && (i.Pub? || i.Sub? || i.Unsub?)
    ensures GateRule(e, Step(cfg, e, i), false)
  {
    if CanSend(e.state) {
      match i
      case Pub(topic, msg, qos, retain) =>
        var e1 := if qos > 0 then e.(nextId := NextId(e.nextId)) else e;
        EnQGate(cfg, e1, PublishFrame(topic, msg, qos, retain, e1.nextId), false);
      case Sub(topic, qos) =>
        var e1 := e.(nextId := NextId(e.nextId));
        EnQGate(cfg, e1, SubscribeFrame(topic, qos, e1.nextId), false);
      case Unsub(topic) =>
        var e1 := e.(nextId := NextId(e.nextId));
        EnQGate(cfg, e1, UnsubscribeFrame(topic, e1.nextId), false);
    }
  }

  /** Frames sent directly (CONNECT, PINGREQ) are not queued frames and do not count. */
  lemma DirectGate(cfg: Config, e: EngineState, i: Input)
    requires Wf(e) && Admissible(cfg, i) && (i.Connected? || i.Keepalive?)
    ensures GateRule(e, Step(cfg, e, i), i.Connected?)
  {
    if i.Connected? {
      DequeuedAppend(e.wire, Direct(ConnectFrame(cfg)));
    } else if e.keepaliveArmed {
      DequeuedAppend(e.wire, Direct(PING));
    }
  }

  /**
   * One input dispatches at most one queued frame and leaves the engine
   * gated when it does; a gated engine dispatches nothing and stays gated
   * unless the input is sent_cb or connect_cb.
   */
  lemma StepGate(cfg: Config, e: EngineState, i: Input)
    requires Wf(e) && Admissible(cfg, i)
    ensures GateRule(e, Step(cfg, e, i), i.Sent? || i.Connected?)
  {
    if i.Recv? {
      FeedGate(cfg, e, i.chunk);
    } else if i.Pub? || i.Sub? || i.Unsub? {
      ApiGate(cfg, e, i);
    } else if i.Connected? || i.Keepalive? {
      DirectGate(cfg, e, i);
    }
  }

  /**
   * One frame in flight: a run with no sent_cb and no new connection
   * dispatches at most one queued frame, and none at all if a frame was
   * already in flight (or the connection was closing or closed) when it began.
   */
  lemma {:induction false} OneFrameInFlight(cfg: Config, e: EngineState, ins: seq<Input>)
    requires Wf(e) && forall k :: 0 <= k < |ins| ==> Admissible(cfg, ins[k])
    requires forall k :: 0 <= k < |ins| ==> !ins[k].Sent? && !ins[k].Connected?
    decreases |ins|
    ensures Dispatched(e) <= Dispatched(Run(cfg, e, ins)) <= Dispatched(e) + 1
    ensures Gated(e.state) ==> Dispatched(Run(cfg, e, ins)) == Dispatched(e)
  {
    if ins != [] {
      var e1 := Step(cfg, e, ins[0]);
      StepGate(cfg, e, ins[0]);
      GatedRunSilent(cfg, e1, ins[1..]);
      OneFrameInFlight(cfg, e1, ins[1..]);
    }
  }

  /** From a gated engine, a run without sent_cb or connect_cb dispatches nothing and stays gated. */
  lemma {:induction false} GatedRunSilent(cfg: Config, e: EngineState, ins: seq<Input>)
    requires Wf(e) && forall k :: 0 <= k < |ins| ==> Admissible(cfg, ins[k])
    requires forall k :: 0 <= k < |ins| ==> !ins[k].Sent? && !ins[k].Connected?
    decreases |ins|
    ensures Gated(e.state) ==> Dispatched(Run(cfg, e, ins)) == Dispatched(e) && Gated(Run(cfg, e, ins).state)
  {
    if ins != [] {
      StepGate(cfg, e, ins[0]);
      GatedRunSilent(cfg, Step(cfg, e, ins[0]), ins[1..]);
    }
  }

  /**
   * FIFO: whatever enters the queue leaves it in the same order. Outside
   * discon_cb and recon_cb, which drop the queue, no input reorders or loses
   * an enqueued frame: the frames ever enqueued only grow at the end.
   */
  lemma {:induction false} FeedKeepsOutbox(cfg: Config, e: EngineState, s: seq<byte>)
    requires Wf(e)
    decreases |s|
    ensures Outbox(e) <= Outbox(Feed(cfg, e, s))
  {
    if s != [] {
      var e1 := FeedByte(cfg, e, s[0]);
      assert Outbox(e) <= Outbox(e1) by {
        if Active(e.state) {
          var (rx1, o) := RxStep(e.rx, s[0]);
          if o.Done? {
            var h := Handle(cfg, e.(rx := AwaitType), o.t, o.data).0;
            assert Outbox(e.(rx := AwaitType)) == Outbox(e);
            assert Outbox(RecvError(h)) == Outbox(h);
          }
        }
      }
      FeedKeepsOutbox(cfg, e1, s[1..]);
    }
  }

  /** Every input but discon_cb and recon_cb keeps the enqueued frames and their order. */
  lemma StepKeepsOutbox(cfg: Config, e: EngineState, i: Input)
    requires Wf(e) && Admissible(cfg, i) && !i.Discon? && !i.Recon?
    ensures Outbox(e) <= Outbox(Step(cfg, e, i))
  {
    match i
    case Recv(chunk) => FeedKeepsOutbox(cfg, e, chunk);
    case Timeout =>
      assert Outbox(TimeoutCb(e)) == Outbox(e);
    case DoConnect(lookup) =>
      assert Outbox(Connect(e, lookup).0) == Outbox(e);
    case Dns(resolved) =>
      assert Outbox(DnsCb(e, resolved)) == Outbox(e);
    case _ =>
  }

  /** Whatever enters the queue is never sent before what entered before it. */
  lemma {:induction false} RunKeepsOutbox(cfg: Config, e: EngineState, ins: seq<Input>)
    requires Wf(e) && forall k :: 0 <= k < |ins| ==> Admissible(cfg, ins[k])
    requires forall k :: 0 <= k < |ins| ==> !ins[k].Discon? && !ins[k].Recon?
    decreases |ins|
    ensures Outbox(e) <= Outbox(Run(cfg, e, ins))
  {
    if ins != [] {
      StepKeepsOutbox(cfg, e, ins[0]);
      RunKeepsOutbox(cfg, Step(cfg, e, ins[0]), ins[1..]);
    }
  }
}
