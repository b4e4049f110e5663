/**
 * The two entry points of mqtt.c that carry a finding, exactly as written:
 * handle_rxbuf, which hands a QoS 0 message to the host through the
 * terminator it has just written over it and answers a PUBREC with the type
 * byte 0x60, and connect_cb, which announces a will with 0x08. The Engine
 * uses the corrected versions; the lemmas here say where the two differ and
 * that they agree everywhere else.
 */
module AsWritten {
  import opened Codec
  import opened Frames
  import opened Engine

  /**
   * handle_rxbuf as written. The topic is the C string starting after the
   * length prefix; topic_end is zeroed, so it ends where the topic does.
   */
  function HandleAsWritten(cfg: Config, e: EngineState, t: byte, data: seq<byte>): (r: (EngineState, bool))
    ensures r.0.timeoutArmed && r.0.rx == e.rx && r.0.nextId == e.nextId
    ensures !r.1 ==> r.0 == e.(timeoutArmed := true)
  {
    var e0 := e.(timeoutArmed := true);
    var k := Kind(t);
    if k == CONNACK then
      if e.state == Connecting && |data| == 2 && data[1] == 0 then
        (e0.(state := Open, events := e.events + [HostOpen], keepaliveArmed := true), true)
      else (e0, false)
    else if k == PUBLISH then
      if !CanSend(e.state) || |data| < 4 then (e0, false)
      else if DupOf(t) then (e0, true)
      else
        match DecodePublish(t, data)
        case None => (e0, false)
        case Some(p) =>
          var e1 := e0.(events := e.events + [HostPublish(CString(p.topic), HostMessageAsWritten(t, data), p.qos, p.retain)]);
          if p.qos > 0 then
            var (e2, _) := EnQ(cfg, e1, AckFrame(if p.qos == 1 then PUBACK else PUBREC, p.id), true);
            (e2, true)
          else (e1, true)
    else if k == PUBREC || k == PUBREL then
      if |data| == 2 then
        var (e2, _) := EnQ(cfg, e0, [if k == PUBREC then PUBREL else PUBCOMP, 2, data[0], data[1]], true);
        (e2, true)
      else (e0, false)
    else if k in {PUBACK, PUBCOMP, SUBACK, UNSUBACK, PINGRESP} then (e0, true)
    else (e0, false)
  }

  /**
   * handle_rxbuf as written accepts and refuses the same frames as the
   * corrected one, and behaves identically on every frame that is neither a
   * PUBREC nor a QoS 0 PUBLISH.
   */
  lemma HandleAsWrittenAgrees(cfg: Config, e: EngineState, t: byte, data: seq<byte>)
    ensures HandleAsWritten(cfg, e, t, data).1 == Handle(cfg, e, t, data).1
    ensures HandleAsWritten(cfg, e, t, data).0.state == Handle(cfg, e, t, data).0.state
    ensures Kind(t) != PUBREC && (Kind(t) == PUBLISH ==> QosOf(t) > 0) ==>
      HandleAsWritten(cfg, e, t, data) == Handle(cfg, e, t, data)
  {
    if Kind(t) == PUBLISH && CanSend(e.state) && |data| >= 4 && !DupOf(t) && DecodePublish(t, data).Some? && QosOf(t) > 0 {
      HostMessageAsWrittenQos12(t, data);
    }
  }

  /**
   * As written, a QoS 0 PUBLISH reaches the host with an empty message and
   * otherwise as the corrected engine delivers it; the corrected engine
   * delivers the message up to its first zero byte.
   */
  lemma Qos0PublishAsWritten(cfg: Config, e: EngineState, t: byte, data: seq<byte>)
    requires Kind(t) == PUBLISH && QosOf(t) == 0 && !DupOf(t) && CanSend(e.state)
    requires DecodePublish(t, data).Some?
    ensures var p := DecodePublish(t, data).value;
      && Handle(cfg, e, t, data).0.events == e.events + [HostPublish(CString(p.topic), CString(p.msg), 0, p.retain)]
      && HandleAsWritten(cfg, e, t, data) ==
           (Handle(cfg, e, t, data).0.(events := e.events + [HostPublish(CString(p.topic), [], 0, p.retain)]), true)
  {
    Qos0MessageLostAsWritten(t, data);
  }

  /**
   * As written, a PUBREC is answered with a PUBREL whose reserved flags are
   * 0000, which the standard calls malformed; the corrected engine queues the
   * same frame with flags 0010 in its place.
   */
  lemma PubrecAnsweredAsWritten(cfg: Config, e: EngineState, id: u16)
    ensures var r := HandleAsWritten(cfg, e, PUBREC, U16(id));
      && r.1 && Outbox(r.0) == Outbox(e) + [PubrelReplyAsWritten(id)] && r.0.events == e.events
      && !FlagsConform(Outbox(r.0)[|Outbox(e)|][0])
    ensures var r := HandleAsWritten(cfg, e, PUBREC, U16(id));
      r.0.(sendQ := Handle(cfg, e, PUBREC, U16(id)).0.sendQ, wire := Handle(cfg, e, PUBREC, U16(id)).0.wire)
        == Handle(cfg, e, PUBREC, U16(id)).0
  {
    var u := U16(id);
    assert [PUBREL, 2, u[0], u[1]] == PubrelReplyAsWritten(id);
    PubrelAsWrittenMalformed(id);
  }

  /** connect_cb as written: the CONNECT frame with the will announced by 0x08. */
  function ConnectCbAsWritten(cfg: Config, e: EngineState): (r: EngineState)
    requires ConnectOk(cfg)
  {
    e.(state := Connecting, wire := e.wire + [Direct(ConnectFrameAsWritten(cfg))], timeoutArmed := true)
  }

  /**
   * connect_cb as written leaves the engine as the corrected one does, except
   * for the CONNECT frame on the wire, and that frame differs exactly when a
   * will is configured, in its flags byte alone.
   */
  lemma ConnectCbAsWrittenAgrees(cfg: Config, e: EngineState)
    requires ConnectOk(cfg)
    ensures ConnectCbAsWritten(cfg, e) == ConnectCb(cfg, e).(wire := e.wire + [Direct(ConnectFrameAsWritten(cfg))])
    ensures ConnectCbAsWritten(cfg, e) == ConnectCb(cfg, e) <==> cfg.willTopic.None?
  {
    ConnectAsWrittenOnlyFlags(cfg);
    if ConnectCbAsWritten(cfg, e) == ConnectCb(cfg, e) {
      assert ConnectCbAsWritten(cfg, e).wire[|e.wire|] == ConnectCb(cfg, e).wire[|e.wire|];
    }
  }
}
