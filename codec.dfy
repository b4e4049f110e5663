/**
 * Byte-level encoding helpers of the MQTT client engine (mqtt.c): the fixed
 * header with its one- or two-byte remaining length, big-endian 16-bit
 * integers and length-prefixed strings (MQTT 3.1.1, sections 1.5.2, 1.5.3
 * and 2.2). Each helper has a value-level definition and a method that
 * writes it through a buffer position, as put_header, put_u16 and
 * put_string do.
 */
module Codec {

  type byte = b: int | 0 <= b < 0x100
  type u16 = v: int | 0 <= v < 0x1_0000

  datatype Option<T> = None | Some(value: T)

  // Control packet types as the engine names them (upper nibble of byte 1).
  const CONNECT: byte := 0x10
  const CONNACK: byte := 0x20
  const PUBLISH: byte := 0x30
  const PUBACK: byte := 0x40
  const PUBREC: byte := 0x50
  const PUBREL: byte := 0x60
  const PUBCOMP: byte := 0x70
  const SUBSCRIBE: byte := 0x80
  const SUBACK: byte := 0x90
  const UNSUBSCRIBE: byte := 0xA0
  const UNSUBACK: byte := 0xB0
  const PINGREQ: byte := 0xC0
  const PINGRESP: byte := 0xD0

  /** The packet type of a first header byte: `type & 0xF0`. */
  function Kind(t: byte): (k: byte)
    ensures k % 16 == 0 && k <= t < k + 16
  {
    t / 16 * 16
  }

  /** Reads a big-endian 16-bit integer: `(hi << 8) | lo`. */
  function BigEndian(hi: byte, lo: byte): u16
  {
    hi * 0x100 + lo
  }

  /** The two bytes put_u16 writes: `value >> 8`, then `value & 0xff`. */
  function U16(v: u16): (r: seq<byte>)
    ensures |r| == 2 && BigEndian(r[0], r[1]) == v
  {
    [v / 0x100, v % 0x100]
  }

  /**
   * The bytes put_string writes: the length as a big-endian uint16_t, then
   * that many bytes of the string, with no terminator. The length is kept in
   * a uint16_t, so for a string of 65536 bytes or more only the low 16 bits of
   * its length are written and only that many bytes are copied.
   */
  function Str(s: seq<byte>): (r: seq<byte>)
    ensures |r| == 2 + |s| % 0x1_0000
    ensures |s| < 0x1_0000 ==> |r| == 2 + |s| && BigEndian(r[0], r[1]) == |s| && r[2..] == s
  {
    var l := |s| % 0x1_0000;
    U16(l) + s[..l]
  }

  /** Reads a length-prefixed string off the front of `b`, as handle_rxbuf reads a topic. */
  function DecodeStr(b: seq<byte>): (r: Option<(seq<byte>, seq<byte>)>)
    ensures r.Some? <==> |b| >= 2 && BigEndian(b[0], b[1]) <= |b| - 2
    ensures r.Some? ==> |r.value.0| == BigEndian(b[0], b[1]) && Str(r.value.0) + r.value.1 == b
  {
    if |b| < 2 then None
    else
      var l := BigEndian(b[0], b[1]);
      if l > |b| - 2 then None
      else
        U16OfBigEndian(b[0], b[1]);
        assert Str(b[2..2 + l]) == b[..2 + l];
        assert b == b[..2 + l] + b[2 + l..];
        Some((b[2..2 + l], b[2 + l..]))
  }

  /** put_u16 writes back exactly the two bytes a big-endian read consumed. */
  lemma U16OfBigEndian(hi: byte, lo: byte)
    ensures U16(BigEndian(hi, lo)) == [hi, lo]
  {
    var v := hi * 0x100 + lo;
    assert v / 0x100 == hi by {
      assert hi * 0x100 <= v < (hi + 1) * 0x100;
    }
  }

  /** Reading back what put_string wrote gives the string and leaves what follows it. */
  lemma StrRoundTrip(s: seq<byte>, rest: seq<byte>)
    requires |s| < 0x1_0000
    ensures DecodeStr(Str(s) + rest) == Some((s, rest))
  {
    var b := Str(s) + rest;
    assert b[0] == Str(s)[0] && b[1] == Str(s)[1];
    assert b[2..2 + |s|] == s;
    assert b[2 + |s|..] == rest;
  }

  /**
   * Size of the fixed header for a remaining length: `1 + ((len < 128) ? 1 : 2)`,
   * the formula every frame builder uses to size its buffer.
   */
  function HeaderSize(len: u16): nat
  {
    if len < 128 then 2 else 3
  }

  /**
   * The bytes put_header writes: the type byte, then the remaining length in
   * one byte when it is below 128, otherwise in two bytes, the low seven bits
   * with the continuation bit set and then `len >> 7` stored into a uint8_t.
   */
  function Header(t: byte, len: u16): (r: seq<byte>)
    ensures |r| == HeaderSize(len) && r[0] == t
  {
    if len > 127 then [t, 0x80 + len % 0x80, (len / 0x80) % 0x100] else [t, len]
  }

  /**
   * The remaining-length encoding of MQTT 3.1.1 section 2.2.3: seven bits
   * per byte, least significant group first, bit 7 set on every byte but
   * the last.
   */
  function StdRemainingLength(x: nat): (r: seq<byte>)
    ensures |r| >= 1
  {
    if x / 128 > 0 then [x % 128 + 128] + StdRemainingLength(x / 128) else [x % 128]
  }

  /** The fixed header agrees with the standard encoding for every length below 16384. */
  lemma HeaderIsStandard(t: byte, len: u16)
    requires len < 16384
    ensures Header(t, len) == [t] + StdRemainingLength(len)
  {
    if len >= 128 {
      assert StdRemainingLength(len / 128) == [len / 128];
    }
  }

  /**
   * From 16384 on, the standard needs a third length byte, which put_header
   * never writes: its two-byte form is then not the standard encoding.
   */
  lemma {:induction false} HeaderNotStandardFrom16384(t: byte, len: u16)
    requires len >= 16384
    ensures Header(t, len) != [t] + StdRemainingLength(len)
  {
    var rest := StdRemainingLength(len / 128);
    assert len / 128 / 128 > 0;
    assert rest == [len / 128 % 128 + 128] + StdRemainingLength(len / 128 / 128);
    assert |[t] + StdRemainingLength(len)| >= 4;
  }

  /** put_u16: writes the two bytes of `v` at `at`, leaves what precedes them alone, and returns 2. */
  method PutU16(buf: array<byte>, at: nat, v: u16) returns (n: nat)
    requires at + 2 <= buf.Length
    modifies buf
    ensures n == 2 && buf[..at + n] == old(buf[..at]) + U16(v)
  {
    buf[at] := v / 0x100;
    buf[at + 1] := v % 0x100;
    n := 2;
    assert buf[..at + n] == buf[..at] + buf[at..at + n];
  }

  /** os_memcpy: copies `src` into `buf` at `at`, leaving what precedes it alone. */
  method CopyInto(buf: array<byte>, at: nat, src: seq<byte>)
    requires at + |src| <= buf.Length
    modifies buf
    ensures buf[..at + |src|] == old(buf[..at]) + src
  {
    forall k | 0 <= k < |src| {
      buf[at + k] := src[k];
    }
    assert buf[..at + |src|] == buf[..at] + buf[at..at + |src|];
  }

  /** put_string: writes `Str(s)` at `at` and returns its size, `2 + strlen(s)` as a uint16_t. */
  method PutString(buf: array<byte>, at: nat, s: seq<byte>) returns (n: u16)
    requires at + 2 + |s| % 0x1_0000 <= buf.Length
    modifies buf
    ensures n == (2 + |s| % 0x1_0000) % 0x1_0000
    ensures |s| < 0xFFFE ==> n as int == |Str(s)| == 2 + |s|
    ensures buf[..at + |Str(s)|] == old(buf[..at]) + Str(s)
  {
    var l := |s| % 0x1_0000;
    var w := PutU16(buf, at, l);
    CopyInto(buf, at + 2, s[..l]);
    n := (2 + l) % 0x1_0000;
  }

  /** put_header: writes `Header(t, len)` at `at`, leaves what precedes it alone, and returns its size. */
  method PutHeader(buf: array<byte>, at: nat, t: byte, len: u16) returns (n: nat)
    requires at + HeaderSize(len) <= buf.Length
    modifies buf
    ensures n == HeaderSize(len) && buf[..at + n] == old(buf[..at]) + Header(t, len)
  {
    buf[at] := t;
    if len > 127 {
      buf[at + 1] := 0x80 + len % 0x80;
      buf[at + 2] := (len / 0x80) % 0x100;
      n := 3;
    } else {
      buf[at + 1] := len;
      n := 2;
    }
    assert buf[..at + n] == buf[..at] + buf[at..at + n];
  }
}
