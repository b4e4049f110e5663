/**
 * The resumable frame receiver of mqtt.c (recv_pt), with the protothread's
 * resume point and its static locals `type`, `len` and the partly filled
 * `rxbuf` made explicit as a value: one step per inbound byte.
 */
module Receiver {
  import opened Codec

  /** Where the receiver stands: which field it waits for and what it holds so far. */
  datatype Rx =
    | AwaitType                                   // BYTE(type)
    | AwaitLen1(t: byte)                          // first BYTE(b) of the length
    | AwaitLen2(t: byte, lo: nat)                 // second BYTE(b); `len` holds the low seven bits
    | Payload(t: byte, n: nat, buf: seq<byte>)    // the copy loop; `pos` is |buf|

  /** What one byte produced: nothing yet, a complete frame for handle_rxbuf, or the error path. */
  datatype RxOut = More | Done(t: byte, data: seq<byte>) | Fail

  /** A state the receiver can be in between two bytes. */
  predicate Valid(rx: Rx)
  {
    match rx
    case AwaitType => true
    case AwaitLen1(t) => ValidType(t)
    case AwaitLen2(t, lo) => ValidType(t) && lo < 128
    case Payload(t, n, buf) => ValidType(t) && |buf| < n < 256
  }

  /** The nine packet types a client can receive. */
  predicate ValidType(t: byte)
  {
    Kind(t) in {CONNACK, PUBLISH, PUBACK, PUBREC, PUBREL, PUBCOMP, SUBACK, UNSUBACK, PINGRESP}
  }

  /**
   * Once the length is known: 256 or more goes to the error path; 0 hands an
   * empty frame over at once; otherwise the payload buffer is started.
   */
  function LengthKnown(t: byte, len: nat): (r: (Rx, RxOut))
    requires ValidType(t)
    ensures Valid(r.0)
  {
    if len >= 256 then (AwaitType, Fail)
    else if len == 0 then (AwaitType, Done(t, []))
    else (Payload(t, len, []), More)
  }

  /** One inbound byte. */
  function RxStep(rx: Rx, b: byte): (r: (Rx, RxOut))
    requires Valid(rx)
    ensures Valid(r.0)
    ensures r.1 != More ==> r.0 == AwaitType
    ensures r.1.Done? ==> ValidType(r.1.t) && |r.1.data| < 256
  {
    match rx
    case AwaitType =>
      if ValidType(b) then (AwaitLen1(b), More) else (AwaitType, Fail)
    case AwaitLen1(t) =>
      if b < 128 then LengthKnown(t, b) else (AwaitLen2(t, b % 128), More)
    case AwaitLen2(t, lo) =>
      LengthKnown(t, lo + b * 128)        // len |= b << 7
    case Payload(t, n, buf) =>
      if |buf| + 1 == n then (AwaitType, Done(t, buf + [b])) else (Payload(t, n, buf + [b]), More)
  }

  /**
   * A stream fed from `rx`: the final state and every frame or failure it
   * produced, in order. The receiver ends at its first failure.
   */
  function RxRun(rx: Rx, s: seq<byte>): (r: (Rx, seq<RxOut>))
    requires Valid(rx)
    ensures Valid(r.0)
    ensures More !in r.1
    decreases |s|
  {
    if s == [] then (rx, [])
    else
      var step := RxStep(rx, s[0]);
      if step.1.Fail? then (step.0, [Fail])
      else
        var rest := RxRun(step.0, s[1..]);
        (rest.0, Emit(step.1) + rest.1)
  }

  /** The frame one byte hands over, if any. */
  function Emit(o: RxOut): (r: seq<RxOut>)
    ensures r == [] || r == [o]
    ensures Fail !in r && More !in r
  {
    if o.Done? then [o] else []
  }

  /** Whether a run has reached the error path. */
  predicate Failed(os: seq<RxOut>)
  {
    Fail in os
  }

  /** A run continues from where a run of a prefix left off, unless that prefix hit the error path. */
  function Continue(r1: (Rx, seq<RxOut>), s2: seq<byte>): (Rx, seq<RxOut>)
    requires Valid(r1.0)
  {
    if Failed(r1.1) then r1 else (RxRun(r1.0, s2).0, r1.1 + RxRun(r1.0, s2).1)
  }

  /**
   * Split independence: feeding `s1` and then `s2` yields the state and the
   * frames that feeding `s1 + s2` at once does, wherever the split falls.
   */
  lemma {:induction false} RxRunConcat(rx: Rx, s1: seq<byte>, s2: seq<byte>)
    requires Valid(rx)
    decreases |s1|
    ensures RxRun(rx, s1 + s2) == Continue(RxRun(rx, s1), s2)
  {
    if s1 == [] {
      assert s1 + s2 == s2;
      assert [] + RxRun(rx, s2).1 == RxRun(rx, s2).1;
    } else {
      var step := RxStep(rx, s1[0]);
      assert (s1 + s2)[0] == s1[0];
      assert (s1 + s2)[1..] == s1[1..] + s2;
      if !step.1.Fail? {
        var pre := Emit(step.1);
        RxRunConcat(step.0, s1[1..], s2);
        var r1 := RxRun(step.0, s1[1..]);
        assert RxRun(rx, s1) == (r1.0, pre + r1.1);
        assert Failed(pre + r1.1) == Failed(r1.1);
        if !Failed(r1.1) {
          var r2 := RxRun(r1.0, s2);
          assert pre + (r1.1 + r2.1) == (pre + r1.1) + r2.1;
        }
      }
    }
  }

  /** Unfolds a run over a first byte that completes nothing. */
  lemma RxRunMore(rx: Rx, s: seq<byte>)
    requires Valid(rx) && s != [] && RxStep(rx, s[0]).1 == More
    ensures RxRun(rx, s) == RxRun(RxStep(rx, s[0]).0, s[1..])
  {
    var rest := RxRun(RxStep(rx, s[0]).0, s[1..]);
    assert Emit(More) == [];
    assert [] + rest.1 == rest.1;
  }

  /** The remaining length recv_pt has read once the length bytes `h` are in (before the size check), and how many it used. */
  function ReadLength(h: seq<byte>): Option<(nat, nat)>
  {
    if |h| == 0 then None
    else if h[0] < 128 then Some((h[0] as nat, 1 as nat))
    else if |h| < 2 then None
    else Some((((h[0] as int) % 128 + (h[1] as int) * 128) as nat, 2 as nat))
  }

  /** The receiver's length steps compute ReadLength and then decide on it. */
  lemma RxStepReadsLength(t: byte, h: seq<byte>)
    requires ValidType(t) && ReadLength(h).Some?
    ensures var (len, used) := ReadLength(h).value;
      && (used == 1 ==> RxStep(AwaitLen1(t), h[0]) == LengthKnown(t, len))
      && (used == 2 ==>
            && RxStep(AwaitLen1(t), h[0]) == (AwaitLen2(t, h[0] % 128), More)
            && RxStep(AwaitLen2(t, h[0] % 128), h[1]) == LengthKnown(t, len))
  {
  }

  /**
   * The header round trip: recv_pt's length steps read back the type
   * put_header wrote and its length, for every length below 32768 (every
   * length below 16384 being also the standard encoding); from 32768 on,
   * put_header's uint8_t store drops bit 15.
   */
  lemma HeaderRoundTrip(t: byte, len: u16)
    ensures var h := Header(t, len);
      && h[0] == t
      && ReadLength(h[1..]) == Some((len % 0x8000, HeaderSize(len) - 1))
  {
    var h := Header(t, len);
    if len > 127 {
      var hi := len / 0x80;
      assert h[1..] == [0x80 + len % 0x80, hi % 0x100];
      assert (0x80 + len % 0x80) % 128 == len % 0x80;
      if hi < 0x100 {
        assert len % 0x8000 == len;
      } else {
        assert hi % 0x100 == hi - 0x100;
        assert len % 0x8000 == len - 0x8000;
      }
    }
  }

  /** Feeding the rest of a payload completes the frame. */
  lemma {:induction false} PayloadRun(t: byte, n: nat, buf: seq<byte>, d: seq<byte>)
    requires Valid(Payload(t, n, buf)) && |buf| + |d| == n
    decreases |d|
    ensures RxRun(Payload(t, n, buf), d) == (AwaitType, [Done(t, buf + d)])
  {
    assert d != [];
    if |d| == 1 {
      assert buf + [d[0]] == buf + d;
      assert d[1..] == [];
      assert [Done(t, buf + d)] + [] == [Done(t, buf + d)];
    } else {
      assert RxStep(Payload(t, n, buf), d[0]) == (Payload(t, n, buf + [d[0]]), More);
      assert buf + [d[0]] + d[1..] == buf + d;
      PayloadRun(t, n, buf + [d[0]], d[1..]);
      var os := RxRun(Payload(t, n, buf + [d[0]]), d[1..]).1;
      assert [] + os == os;
    }
  }

  /** The bytes put_header writes take an idle receiver to the payload (or straight to the frame when it is empty). */
  lemma HeaderRun(t: byte, len: nat)
    requires ValidType(t) && len < 256
    ensures RxRun(AwaitType, Header(t, len))
         == if len == 0 then (AwaitType, [Done(t, [])]) else (Payload(t, len, []), [])
  {
    var h := Header(t, len);
    HeaderRoundTrip(t, len);
    RxStepReadsLength(t, h[1..]);
    RxRunMore(AwaitType, h);
    var h1 := h[1..];
    if len < 128 {
      assert h1 == [len] && h1[1..] == [];
      if len == 0 {
        assert RxStep(AwaitLen1(t), h1[0]) == (AwaitType, Done(t, []));
        assert RxRun(AwaitType, h1[1..]) == (AwaitType, []);
        assert Emit(Done(t, [])) + [] == [Done(t, [])];
      } else {
        RxRunMore(AwaitLen1(t), h1);
      }
    } else {
      RxRunMore(AwaitLen1(t), h1);
      var h2 := h1[1..];
      assert h2 == [h[2]] && h2[1..] == [];
      assert RxStep(AwaitLen2(t, h[1] % 128), h[2]) == (Payload(t, len, []), More);
      RxRunMore(AwaitLen2(t, h[1] % 128), h2);
    }
  }

  /**
   * A frame of a receivable type and a payload below 256 bytes, encoded
   * with put_header, reaches handle_rxbuf whole and leaves the receiver
   * waiting for the next type byte.
   */
  lemma FrameReceived(t: byte, p: seq<byte>)
    requires ValidType(t) && |p| < 256
    ensures RxRun(AwaitType, Header(t, |p|) + p) == (AwaitType, [Done(t, p)])
  {
    var h := Header(t, |p|);
    HeaderRun(t, |p|);
    RxRunConcat(AwaitType, h, p);
    var r1 := RxRun(AwaitType, h);
    assert !Failed(r1.1);
    if |p| > 0 {
      PayloadRun(t, |p|, [], p);
      assert [] + p == p;
      assert r1.1 + [Done(t, p)] == [Done(t, p)];
    } else {
      assert p == [];
      assert r1.1 + [] == [Done(t, p)];
    }
  }

  /** A payload that stays short of its length only fills the buffer. */
  lemma {:induction false} PartialPayload(t: byte, n: nat, buf: seq<byte>, d: seq<byte>)
    requires Valid(Payload(t, n, buf)) && |buf| + |d| < n
    decreases |d|
    ensures RxRun(Payload(t, n, buf), d) == (Payload(t, n, buf + d), [])
  {
    if d == [] {
      assert buf + d == buf;
    } else {
      RxRunMore(Payload(t, n, buf), d);
      assert buf + [d[0]] + d[1..] == buf + d;
      PartialPayload(t, n, buf + [d[0]], d[1..]);
    }
  }

  /**
   * Every byte of a frame but the last only advances the receiver; the last
   * one completes the frame.
   */
  lemma FrameSplit(t: byte, p: seq<byte>)
    requires ValidType(t) && |p| < 256
    ensures var s := Header(t, |p|) + p;
      && |s| >= 2
      && RxRun(AwaitType, s[..|s| - 1]).1 == []
      && RxStep(RxRun(AwaitType, s[..|s| - 1]).0, s[|s| - 1]) == (AwaitType, Done(t, p))
  {
    var h := Header(t, |p|);
    var s := h + p;
    if |p| == 0 {
      assert s[..|s| - 1] == [t] && s[|s| - 1] == 0;
      RxRunMore(AwaitType, [t]);
      assert [t][1..] == [];
    } else {
      var q := p[..|p| - 1];
      assert s[..|s| - 1] == h + q && s[|s| - 1] == p[|p| - 1];
      HeaderRun(t, |p|);
      RxRunConcat(AwaitType, h, q);
      PartialPayload(t, |p|, [], q);
      assert [] + q == q && q + [p[|p| - 1]] == p;
      assert RxRun(AwaitType, h + q) == (Payload(t, |p|, q), [] + []);
    }
  }

  /** A type byte outside the nine receivable types goes to the error path at once. */
  lemma BadTypeFails(b: byte, rest: seq<byte>)
    requires !ValidType(b)
    ensures RxRun(AwaitType, [b] + rest) == (AwaitType, [Fail])
  {
  }

  /** A header announcing 256 bytes or more goes to the error path once its length is read. */
  lemma OversizeFails(t: byte, h: seq<byte>, rest: seq<byte>)
    requires ValidType(t) && ReadLength(h).Some? && ReadLength(h).value.0 >= 256
    requires |h| == ReadLength(h).value.1
    ensures RxRun(AwaitType, [t] + h + rest) == (AwaitType, [Fail])
  {
    RxStepReadsLength(t, h);
    var s := [t] + h;
    assert s[0] == t && s[1..] == h;
    RxRunMore(AwaitType, s);
    RxRunMore(AwaitLen1(t), h);
    assert h[1..] == [h[1]];
    assert RxRun(AwaitType, s) == (AwaitType, [Fail]);
    RxRunConcat(AwaitType, s, rest);
  }
}
