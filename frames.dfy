/**
 * The control packets the engine builds (CONNECT, PUBLISH, SUBSCRIBE,
 * UNSUBSCRIBE and the two-byte acknowledgements) and the one it decodes
 * field by field (an inbound PUBLISH), MQTT 3.1.1 sections 3.1 to 3.10.
 *
 * Three places where mqtt.c departs from what it evidently means are kept
 * here twice: as written (the members named ...AsWritten) and corrected
 * (the members the engine uses).
 */
module Frames {
  import opened Codec

  /**
   * Largest remaining length a builder can produce: every builder computes
   * the remaining length and the buffer size `len + 3` in a uint16_t.
   */
  const MAX_BODY: nat := 0xFFFC

  /** The connection configuration, immutable once connected (mqtt_config). */
  datatype Config = Config(
    keepalive: u16,
    qMax: byte,
    client: seq<byte>,
    user: Option<seq<byte>>,
    pass: Option<seq<byte>>,
    willTopic: Option<seq<byte>>,
    willMessage: Option<seq<byte>>,
    willQos: byte,
    willRetain: bool)

  // ---------------------------------------------------------------- CONNECT

  /** `mstrlen`: the size of an optional string field, 0 when it is absent. */
  function MStrLen(s: Option<seq<byte>>): nat
  {
    if s.Some? then 2 + |s.value| else 0
  }

  /** The remaining length connect_cb computes for CONNECT. */
  function ConnectLen(cfg: Config): nat
  {
    6 + 1 + 1 + 2 + 2 + |cfg.client|
    + MStrLen(cfg.willTopic) + MStrLen(cfg.willMessage) + MStrLen(cfg.user) + MStrLen(cfg.pass)
  }

  /**
   * A configuration connect_cb can encode: a will topic comes with a will
   * message and the other way round (connect_cb counts the will message
   * whenever it is set but writes it only with a will topic, and writes it
   * unguarded whenever a will topic is set), and the frame fits its
   * uint16_t sizes.
   */
  predicate ConnectOk(cfg: Config)
  {
    cfg.willTopic.Some? == cfg.willMessage.Some? && ConnectLen(cfg) <= MAX_BODY
  }

  /** The connect flags as connect_cb ORs them together, with `willBit` as the bit announcing a will. */
  function FlagBits(cfg: Config, willBit: bv8): bv8
  {
    (if cfg.user.Some? then 0x80 else 0)
    | (if cfg.pass.Some? then 0x40 else 0)
    | (if cfg.willRetain then 0x20 else 0)
    | ((cfg.willQos as bv8) << 3)
    | (if cfg.willTopic.Some? then willBit else 0)
    | 0x02
  }

  /** Finding: connect_cb announces a will with 0x08, which is bit 0 of the Will QoS field. */
  function ConnectFlagsAsWritten(cfg: Config): byte
  {
    FlagBits(cfg, 0x08) as int
  }

  /** The connect flags with the Will Flag in bit 2, as section 3.1.2.3 of MQTT 3.1.1 places it. */
  function ConnectFlags(cfg: Config): byte
  {
    FlagBits(cfg, 0x04) as int
  }

  /** As written, the Will Flag is never set, and a will of QoS 0 is announced as QoS 1. */
  lemma ConnectFlagsAsWrittenLoseWill(cfg: Config)
    ensures FlagBits(cfg, 0x08) & 0x04 == 0
    ensures cfg.willTopic.Some? && cfg.willQos == 0 ==> (FlagBits(cfg, 0x08) >> 3) & 3 == 1
  {
    var q := cfg.willQos as bv8;
    if cfg.willQos == 0 {
      assert q == 0;
    }
  }

  /**
   * What each bit of the corrected flags byte says: user name, password,
   * will retain, will QoS, will flag, clean session always set, reserved bit
   * clear. The Will QoS field holds only two bits, so the upper flags are
   * exact when the configured QoS is at most 3.
   */
  lemma ConnectFlagsMeaning(cfg: Config)
    ensures var f := FlagBits(cfg, 0x04);
      && (f & 0x04 != 0 <==> cfg.willTopic.Some?)
      && f & 0x02 != 0
      && f & 0x01 == 0
      && (cfg.willQos < 4 ==>
            && (f & 0x80 != 0 <==> cfg.user.Some?)
            && (f & 0x40 != 0 <==> cfg.pass.Some?)
            && (f & 0x20 != 0 <==> cfg.willRetain)
            && (f >> 3) & 3 == cfg.willQos as bv8)
  {
    var q := cfg.willQos as bv8;
    FlagBitsFields(cfg.user.Some?, cfg.pass.Some?, cfg.willRetain, cfg.willTopic.Some?, q);
    if cfg.willQos < 4 {
      assert q < 4 by {
        if cfg.willQos == 0 {} else if cfg.willQos == 1 {} else if cfg.willQos == 2 {} else {}
      }
    }
  }

  lemma FlagBitsFields(u: bool, p: bool, r: bool, w: bool, q: bv8)
    ensures var f := (if u then 0x80 else 0) | (if p then 0x40 else 0) | (if r then 0x20 else 0)
                     | (q << 3) | (if w then 0x04 else 0) | 0x02 as bv8;
      && (f & 0x04 != 0 <==> w)
      && f & 0x02 != 0
      && f & 0x01 == 0
      && (q < 4 ==>
            && (f & 0x80 != 0 <==> u)
            && (f & 0x40 != 0 <==> p)
            && (f & 0x20 != 0 <==> r)
            && (f >> 3) & 3 == q)
  {
  }

  /** The protocol name "MQTT". */
  const PROTOCOL_NAME: seq<byte> := [0x4D, 0x51, 0x54, 0x54]

  /** The CONNECT payload in the order connect_cb writes it. */
  function ConnectBody(cfg: Config): (r: seq<byte>)
    requires ConnectOk(cfg)
    ensures |r| == ConnectLen(cfg)
  {
    Str(PROTOCOL_NAME) + [4, ConnectFlags(cfg)] + U16(cfg.keepalive) + Str(cfg.client)
    + (if cfg.willTopic.Some? then Str(cfg.willTopic.value) + Str(cfg.willMessage.value) else [])
    + (if cfg.user.Some? then Str(cfg.user.value) else [])
    + (if cfg.pass.Some? then Str(cfg.pass.value) else [])
  }

  /** The CONNECT frame connect_cb sends. */
  function ConnectFrame(cfg: Config): (r: seq<byte>)
    requires ConnectOk(cfg)
    ensures |r| == HeaderSize(ConnectLen(cfg)) + ConnectLen(cfg)
  {
    Header(CONNECT, ConnectLen(cfg)) + ConnectBody(cfg)
  }

  /** The CONNECT fields connect_cb writes after the flags byte. */
  function AfterFlags(cfg: Config): seq<byte>
    requires ConnectOk(cfg)
  {
    U16(cfg.keepalive) + Str(cfg.client)
    + (if cfg.willTopic.Some? then Str(cfg.willTopic.value) + Str(cfg.willMessage.value) else [])
    + (if cfg.user.Some? then Str(cfg.user.value) else [])
    + (if cfg.pass.Some? then Str(cfg.pass.value) else [])
  }

  /** Finding: the CONNECT frame connect_cb sends as written, announcing a will with 0x08. */
  function ConnectFrameAsWritten(cfg: Config): seq<byte>
    requires ConnectOk(cfg)
  {
    Header(CONNECT, ConnectLen(cfg)) + Str(PROTOCOL_NAME) + [4, ConnectFlagsAsWritten(cfg)] + AfterFlags(cfg)
  }

  /** What connect_cb writes before the flags byte: the fixed header, "MQTT" and level 4. */
  function BeforeFlags(cfg: Config): (r: seq<byte>)
    requires ConnectOk(cfg)
    ensures |r| == HeaderSize(ConnectLen(cfg)) + 7
  {
    Header(CONNECT, ConnectLen(cfg)) + Str(PROTOCOL_NAME) + [4]
  }

  lemma ConnectFrameSplit(cfg: Config)
    requires ConnectOk(cfg)
    ensures ConnectFrame(cfg) == BeforeFlags(cfg) + [ConnectFlags(cfg)] + AfterFlags(cfg)
  {
    ConnectBodyAtFlags(cfg);
    assert [4, ConnectFlags(cfg)] == [4] + [ConnectFlags(cfg)];
    assert Header(CONNECT, ConnectLen(cfg)) + (Str(PROTOCOL_NAME) + [4] + [ConnectFlags(cfg)] + AfterFlags(cfg)) == Header(CONNECT, ConnectLen(cfg)) + (Str(PROTOCOL_NAME) + [4]) + [ConnectFlags(cfg)] + AfterFlags(cfg);
  }

  lemma ConnectFrameAsWrittenSplit(cfg: Config)
    requires ConnectOk(cfg)
    ensures ConnectFrameAsWritten(cfg) == BeforeFlags(cfg) + [ConnectFlagsAsWritten(cfg)] + AfterFlags(cfg)
  {
    assert [4, ConnectFlagsAsWritten(cfg)] == [4] + [ConnectFlagsAsWritten(cfg)];
  }

  lemma ConnectBodyAtFlags(cfg: Config)
    requires ConnectOk(cfg)
    ensures ConnectBody(cfg) == Str(PROTOCOL_NAME) + [4, ConnectFlags(cfg)] + AfterFlags(cfg)
  {
    var w := if cfg.willTopic.Some? then Str(cfg.willTopic.value) + Str(cfg.willMessage.value) else [];
    var u := if cfg.user.Some? then Str(cfg.user.value) else [];
    var p := if cfg.pass.Some? then Str(cfg.pass.value) else [];
    Regroup6(Str(PROTOCOL_NAME) + [4, ConnectFlags(cfg)], U16(cfg.keepalive), Str(cfg.client), w, u, p);
  }

  /** Concatenation regrouped: a proof step the solver finds cheaper as a lemma than as an assertion. */
  lemma Regroup6(x: seq<byte>, a: seq<byte>, b: seq<byte>, c: seq<byte>, d: seq<byte>, e: seq<byte>)
    ensures x + a + b + c + d + e == x + (a + b + c + d + e)
  {
  }

  /**
   * The frame as written and the corrected one differ in the flags byte alone
   * (the eighth byte after the fixed header), and only when a will is configured.
   */
  lemma ConnectAsWrittenOnlyFlags(cfg: Config)
    requires ConnectOk(cfg)
    ensures var k := HeaderSize(ConnectLen(cfg)) + 7;
      && k < |ConnectFrame(cfg)|
      && ConnectFrame(cfg)[k] == ConnectFlags(cfg)
      && ConnectFrameAsWritten(cfg) == ConnectFrame(cfg)[k := ConnectFlagsAsWritten(cfg)]
    ensures ConnectFrameAsWritten(cfg) == ConnectFrame(cfg) <==> cfg.willTopic.None?
  {
    var k := HeaderSize(ConnectLen(cfg)) + 7;
    ConnectFrameSplit(cfg);
    ConnectFrameAsWrittenSplit(cfg);
    Splice(BeforeFlags(cfg), ConnectFlags(cfg), ConnectFlagsAsWritten(cfg), AfterFlags(cfg));
    WillBitOnlyDifference(cfg);
    if cfg.willTopic.Some? {
      assert ConnectFrameAsWritten(cfg)[k] != ConnectFrame(cfg)[k];
    }
  }

  /** The flags byte as written equals the corrected one exactly when no will is configured. */
  lemma WillBitOnlyDifference(cfg: Config)
    ensures ConnectFlagsAsWritten(cfg) == ConnectFlags(cfg) <==> cfg.willTopic.None?
  {
    ConnectFlagsAsWrittenLoseWill(cfg);
    ConnectFlagsMeaning(cfg);
    if cfg.willTopic.Some? {
      assert FlagBits(cfg, 0x08) != FlagBits(cfg, 0x04);
    }
  }

  /** Replacing the byte between `pre` and `post`. */
  lemma Splice(pre: seq<byte>, x: byte, y: byte, post: seq<byte>)
    ensures (pre + [x] + post)[|pre|] == x
    ensures (pre + [x] + post)[|pre| := y] == pre + [y] + post
  {
  }

  // ---------------------------------------------------------------- PUBLISH

  /** `PUBLISH | (qos << 1) | (retain ? 0x01 : 0)`, passed as a uint8_t. */
  function PublishType(qos: byte, retain: bool): byte
  {
    ((PUBLISH as bv8) | ((qos as bv8) << 1) | (if retain then 1 else 0)) as int
  }

  /** QoS bits of an inbound PUBLISH: `(type >> 1) & 0x03`. */
  function QosOf(t: byte): nat
  {
    t / 2 % 4
  }

  /** Retain bit: `type & 0x01`. */
  function RetainOf(t: byte): bool
  {
    t % 2 == 1
  }

  /** DUP bit: `type & 0x08`. */
  function DupOf(t: byte): bool
  {
    t / 8 % 2 == 1
  }

  /** For a QoS that fits its two bits, the type byte carries the QoS and retain flag and no DUP flag. */
  lemma PublishTypeFields(qos: byte, retain: bool)
    requires qos < 4
    ensures PublishType(qos, retain) == PUBLISH + 2 * qos + (if retain then 1 else 0)
    ensures Kind(PublishType(qos, retain)) == PUBLISH
    ensures QosOf(PublishType(qos, retain)) == qos
    ensures RetainOf(PublishType(qos, retain)) == retain
    ensures !DupOf(PublishType(qos, retain))
  {
    if retain {
      if qos == 0 {} else if qos == 1 {} else if qos == 2 {} else {}
    } else {
      if qos == 0 {} else if qos == 1 {} else if qos == 2 {} else {}
    }
  }

  /** The remaining length mqtt_publish computes. */
  function PublishLen(topic: seq<byte>, msg: seq<byte>, qos: byte): nat
  {
    2 + |topic| + (if qos > 0 then 2 else 0) + |msg|
  }

  /** The PUBLISH variable header and payload: topic, packet id when QoS > 0, raw message. */
  function PublishBody(topic: seq<byte>, msg: seq<byte>, qos: nat, id: u16): seq<byte>
  {
    Str(topic) + (if qos > 0 then U16(id) else []) + msg
  }

  /** The PUBLISH frame mqtt_publish enqueues; it fills exactly the buffer the source allocates. */
  function PublishFrame(topic: seq<byte>, msg: seq<byte>, qos: byte, retain: bool, id: u16): (r: seq<byte>)
    requires PublishLen(topic, msg, qos) <= MAX_BODY
    ensures |r| == HeaderSize(PublishLen(topic, msg, qos)) + PublishLen(topic, msg, qos)
  {
    Header(PublishType(qos, retain), PublishLen(topic, msg, qos)) + PublishBody(topic, msg, qos, id)
  }

  /** An inbound PUBLISH as handle_rxbuf takes it apart. */
  datatype Inbound = Inbound(topic: seq<byte>, msg: seq<byte>, qos: nat, retain: bool, id: u16)

  /**
   * handle_rxbuf's decoding of a PUBLISH payload: fails on fewer than 4
   * bytes, on a topic length beyond the bytes left, and, with QoS > 0, on
   * fewer than 2 bytes left for the packet id; the message is the rest.
   */
  function DecodePublish(t: byte, data: seq<byte>): (r: Option<Inbound>)
    ensures r.Some? ==> |data| >= 4 && r.value.qos == QosOf(t) && r.value.retain == RetainOf(t)
    ensures r.Some? ==> r.value.qos == 0 ==> r.value.id == 0
    ensures r.Some? ==> data == PublishBody(r.value.topic, r.value.msg, r.value.qos, r.value.id)
  {
    if |data| < 4 then None
    else
      match DecodeStr(data)
      case None => None
      case Some((topic, rest)) =>
        if QosOf(t) == 0 then
          Some(Inbound(topic, rest, 0, RetainOf(t), 0))
        else if |rest| < 2 then None
        else
          U16OfBigEndian(rest[0], rest[1]);
          assert rest == U16(BigEndian(rest[0], rest[1])) + rest[2..];
          Some(Inbound(topic, rest[2..], QosOf(t), RetainOf(t), BigEndian(rest[0], rest[1])))
  }

  /** Decoding inverts encoding for every payload of at least the 4 bytes handle_rxbuf demands. */
  lemma PublishRoundTrip(topic: seq<byte>, msg: seq<byte>, qos: byte, retain: bool, id: u16)
    requires qos < 4 && |topic| < 0x1_0000
    requires |PublishBody(topic, msg, qos, id)| >= 4
    ensures DecodePublish(PublishType(qos, retain), PublishBody(topic, msg, qos, id))
         == Some(Inbound(topic, msg, qos, retain, if qos > 0 then id else 0))
  {
    PublishTypeFields(qos, retain);
    var body := PublishBody(topic, msg, qos, id);
    var rest := (if qos > 0 then U16(id) else []) + msg;
    assert body == Str(topic) + rest;
    assert Str(topic) == U16(|topic|) + topic;
    assert body[..2] == U16(|topic|);
    assert DecodeStr(body) == Some((topic, rest)) by {
      assert body[2..2 + |topic|] == topic;
      assert body[2 + |topic|..] == rest;
    }
    if qos > 0 {
      assert rest[..2] == U16(id);
      assert rest[2..] == msg;
    }
  }

  /** A C string read from the front of `s`: the bytes before the first zero. */
  function CString(s: seq<byte>): (r: seq<byte>)
    ensures |r| <= |s| && r == s[..|r|] && 0 !in r
    ensures |r| == |s| || s[|r|] == 0
  {
    if s == [] || s[0] == 0 then [] else [s[0]] + CString(s[1..])
  }

  /**
   * Finding: the message mqtt_publish_cb receives, as written. handle_rxbuf
   * writes a terminator at topic_end and at msg_end (the spare byte of
   * rxbuf) and passes C strings; with QoS 0 the message starts at topic_end.
   */
  function HostMessageAsWritten(t: byte, data: seq<byte>): seq<byte>
    requires DecodePublish(t, data).Some?
  {
    var p := DecodePublish(t, data).value;
    var topicEnd := 2 + |p.topic|;
    var msgAt := |data| - |p.msg|;
    var buf := (data + [0])[topicEnd := 0];
    CString(buf[msgAt..])
  }

  /** As written, every QoS 0 message reaches the host empty. */
  lemma Qos0MessageLostAsWritten(t: byte, data: seq<byte>)
    requires DecodePublish(t, data).Some? && QosOf(t) == 0
    ensures HostMessageAsWritten(t, data) == []
  {
    var p := DecodePublish(t, data).value;
    assert |data| == 2 + |p.topic| + |p.msg|;
  }

  /** The input that shows it: topic "t", message "hi", QoS 0 decodes to "hi" but the host is handed "". */
  lemma Qos0MessageLostExample()
    ensures DecodePublish(0x30, [0, 1, 0x74, 0x68, 0x69]) == Some(Inbound([0x74], [0x68, 0x69], 0, false, 0))
    ensures HostMessageAsWritten(0x30, [0, 1, 0x74, 0x68, 0x69]) == []
  {
    var data: seq<byte> := [0, 1, 0x74, 0x68, 0x69];
    assert BigEndian(0, 1) == 1;
    assert data[2..3] == [0x74] && data[3..] == [0x68, 0x69];
    assert DecodeStr(data) == Some(([0x74], [0x68, 0x69]));
    Qos0MessageLostAsWritten(0x30, data);
  }

  /**
   * With QoS > 0 the packet id lies between topic and message, so the host gets
   * the message up to its first zero byte, and a message without zero bytes whole.
   */
  lemma HostMessageAsWrittenQos12(t: byte, data: seq<byte>)
    requires DecodePublish(t, data).Some? && QosOf(t) > 0
    ensures HostMessageAsWritten(t, data) == CString(DecodePublish(t, data).value.msg)
    ensures 0 !in DecodePublish(t, data).value.msg ==> HostMessageAsWritten(t, data) == DecodePublish(t, data).value.msg
  {
    var p := DecodePublish(t, data).value;
    var msgAt := |data| - |p.msg|;
    var buf := (data + [0])[2 + |p.topic| := 0];
    assert buf[msgAt..] == p.msg + [0];
    TerminatedCString(p.msg);
  }

  /** The spare byte handle_rxbuf zeroes after a string ends it where it already ended, or at its end. */
  lemma {:induction false} TerminatedCString(s: seq<byte>)
    ensures CString(s + [0]) == CString(s)
    ensures 0 !in s ==> CString(s) == s
  {
    if s != [] && s[0] != 0 {
      assert (s + [0])[1..] == s[1..] + [0];
      TerminatedCString(s[1..]);
    }
  }

  // ------------------------------------------------- SUBSCRIBE, UNSUBSCRIBE

  /** The remaining length mqtt_subscribe computes. */
  function SubscribeLen(topic: seq<byte>): nat
  {
    2 + 2 + |topic| + 1
  }

  /** SUBSCRIBE (flags 0010): packet id, topic filter, requested QoS byte. */
  function SubscribeFrame(topic: seq<byte>, qos: byte, id: u16): (r: seq<byte>)
    requires SubscribeLen(topic) <= MAX_BODY
    ensures |r| == HeaderSize(SubscribeLen(topic)) + SubscribeLen(topic)
  {
    Header(SUBSCRIBE + 0x02, SubscribeLen(topic)) + U16(id) + Str(topic) + [qos]
  }

  /** The remaining length mqtt_unsubscribe computes. */
  function UnsubscribeLen(topic: seq<byte>): nat
  {
    2 + 2 + |topic|
  }

  /** UNSUBSCRIBE (flags 0010): packet id, topic filter. */
  function UnsubscribeFrame(topic: seq<byte>, id: u16): (r: seq<byte>)
    requires UnsubscribeLen(topic) <= MAX_BODY
    ensures |r| == HeaderSize(UnsubscribeLen(topic)) + UnsubscribeLen(topic)
  {
    Header(UNSUBSCRIBE + 0x02, UnsubscribeLen(topic)) + U16(id) + Str(topic)
  }

  // ------------------------------------------------------- acknowledgements

  /** A PUBACK, PUBREC, PUBREL or PUBCOMP: the type byte, length 2, the packet id. */
  function AckFrame(t: byte, id: u16): (r: seq<byte>)
    ensures r == Header(t, 2) + U16(id)
  {
    [t, 2, id / 0x100, id % 0x100]
  }

  /** The PUBREL type byte section 3.6.1 of MQTT 3.1.1 demands: reserved flags 0010. */
  const PUBREL_OUT: byte := PUBREL + 0x02

  /** Finding: handle_rxbuf answers a PUBREC with the type byte 0x60. */
  function PubrelReplyAsWritten(id: u16): seq<byte>
  {
    AckFrame(PUBREL, id)
  }

  /** The PUBREL that answers a PUBREC, with the flags the standard demands. */
  function PubrelReply(id: u16): seq<byte>
  {
    AckFrame(PUBREL_OUT, id)
  }

  /**
   * The reserved flag bits of a fixed header (section 2.2.2 of MQTT 3.1.1):
   * 0010 for PUBREL, SUBSCRIBE and UNSUBSCRIBE, 0000 for the other
   * non-PUBLISH packets; a PUBLISH may not carry QoS 3.
   */
  predicate FlagsConform(b: byte)
  {
    if Kind(b) == PUBLISH then QosOf(b) < 3
    else if Kind(b) in {PUBREL, SUBSCRIBE, UNSUBSCRIBE} then b % 16 == 2
    else b % 16 == 0
  }

  /** As written, a PUBREL goes out with reserved flags 0000, which a server must treat as malformed. */
  lemma PubrelAsWrittenMalformed(id: u16)
    ensures !FlagsConform(PubrelReplyAsWritten(id)[0])
  {
  }

  /** Every frame the corrected engine builds has conforming header flags. */
  lemma OutboundFlagsConform(cfg: Config, topic: seq<byte>, msg: seq<byte>, qos: byte, retain: bool, id: u16)
    ensures ConnectOk(cfg) ==> FlagsConform(ConnectFrame(cfg)[0])
    ensures qos < 3 && PublishLen(topic, msg, qos) <= MAX_BODY ==> FlagsConform(PublishFrame(topic, msg, qos, retain, id)[0])
    ensures SubscribeLen(topic) <= MAX_BODY ==> FlagsConform(SubscribeFrame(topic, qos, id)[0])
    ensures UnsubscribeLen(topic) <= MAX_BODY ==> FlagsConform(UnsubscribeFrame(topic, id)[0])
    ensures FlagsConform(AckFrame(PUBACK, id)[0]) && FlagsConform(AckFrame(PUBREC, id)[0])
    ensures FlagsConform(PubrelReply(id)[0]) && FlagsConform(AckFrame(PUBCOMP, id)[0])
  {
    if qos < 3 {
      PublishTypeFields(qos, retain);
    }
  }
}
