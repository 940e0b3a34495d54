/**
  The framed unix-socket protocol between the SIP service and a worker:
  four big-endian length bytes, one type byte, then `length - 1` payload bytes.
 */
module FrameCodec {
  import opened Common

  const FRAME_AUDIO_IN: byte := 0x01
  const FRAME_AUDIO_OUT: byte := 0x02
  const FRAME_CONTROL: byte := 0x10
  const FRAME_HANGUP: byte := 0x11
  const FRAME_DTMF: byte := 0x12

  const PCM_FRAME_BYTES: nat := 320
  const MAX_LENGTH: nat := 0xFFFF_FFFF

  datatype WireFrame = WireFrame(ftype: byte, payload: seq<byte>)

  datatype EncodeResult = Encoded(bytes: seq<byte>) | TypeOutOfRange | LengthOverflow

  function BigEndian32(n: nat): (r: seq<byte>)
    requires n <= MAX_LENGTH
  {
    [n / 0x100_0000, n / 0x1_0000 % 0x100, n / 0x100 % 0x100, n % 0x100]
  }

  function FromBigEndian32(s: seq<byte>): nat
    requires |s| >= 4
  {
    var a: int, b: int, c: int := s[0], s[1], s[2];
    a * 0x100_0000 + b * 0x1_0000 + c * 0x100 + s[3]
  }

  /** `encode_frame`: raises ValueError for a bad type and struct.error for a length over 32 bits. */
  function EncodeFrame(ftype: int, payload: seq<byte>): EncodeResult {
    if !(0 <= ftype <= 0xFF) then TypeOutOfRange
    else if 1 + |payload| > MAX_LENGTH then LengthOverflow
    else Encoded(BigEndian32(1 + |payload|) + [ftype] + payload)
  }

  /** A frame that `EncodeFrame` accepts. */
  predicate Encodable(f: WireFrame) { 1 + |f.payload| <= MAX_LENGTH }

  function Encode(f: WireFrame): seq<byte>
    requires Encodable(f)
  {
    EncodeFrame(f.ftype, f.payload).bytes
  }

  function EncodeAll(fs: seq<WireFrame>): seq<byte>
    requires forall f <- fs :: Encodable(f)
  {
    if fs == [] then [] else Encode(fs[0]) + EncodeAll(fs[1..])
  }

  /** Number of payload bytes announced by a header; length 0 and length 1 both announce none. */
  function BodyLength(header: seq<byte>): nat
    requires |header| >= 5
  {
    var length := FromBigEndian32(header);
    if length > 1 then length - 1 else 0
  }

  /** The first complete frame of a byte string, if there is one. */
  function FirstFrame(s: seq<byte>): Option<WireFrame> {
    if |s| < 5 || |s| < 5 + BodyLength(s) then None
    else Some(WireFrame(s[4], s[5..5 + BodyLength(s)]))
  }

  /** Every complete frame of a byte string, up to the first incomplete one. */
  function DecodeAll(s: seq<byte>): seq<WireFrame>
    decreases |s|
  {
    match FirstFrame(s)
    case None => []
    case Some(f) => [f] + DecodeAll(s[5 + BodyLength(s)..])
  }

  function MostSignificantFirst(a: int, b: int, c: int, d: int): int { ((a * 256 + b) * 256 + c) * 256 + d }

  /** The bytes of a frame: the length of type and payload, most significant byte first, the type, the payload. */
  lemma {:induction false} FrameLayout(ftype: int, payload: seq<byte>)
    ensures var r := EncodeFrame(ftype, payload);
            && (r.TypeOutOfRange? <==> ftype < 0 || ftype > 255)
            && (r.LengthOverflow? <==> 0 <= ftype <= 255 && |payload| >= 0xFFFF_FFFF)
            && (r.Encoded? ==>
                  var b := r.bytes;
                  && |b| == 5 + |payload| && b[4] == ftype && b[5..] == payload
                  && MostSignificantFirst(b[0], b[1], b[2], b[3]) == 1 + |payload|)
  {
    if 0 <= ftype <= 255 && 1 + |payload| <= MAX_LENGTH {
      HeaderBytes(1 + |payload|);
      var b := EncodeFrame(ftype, payload).bytes;
      assert b[..4] == BigEndian32(1 + |payload|);
      assert forall i | 0 <= i < 4 :: b[i] == b[..4][i];
    }
  }

  lemma {:induction false} HeaderBytes(n: nat)
    requires n <= MAX_LENGTH
    ensures var h := BigEndian32(n); |h| == 4 && MostSignificantFirst(h[0], h[1], h[2], h[3]) == n
  {
    var high, low := n / 0x1_0000, n % 0x1_0000;
    assert n / 0x100_0000 == high / 0x100 && n / 0x100 % 0x100 == low / 0x100 && n % 0x100 == low % 0x100;
  }

  lemma {:induction false} BigEndianRoundTrip(n: nat)
    requires n <= MAX_LENGTH
    ensures FromBigEndian32(BigEndian32(n)) == n
  {
    var a, b := n / 0x100, n / 0x1_0000;
    assert b == a / 0x100 && n / 0x100_0000 == b / 0x100;
  }

  /** An encoded frame followed by anything is read back, and nothing after it is touched. */
  lemma {:induction false} FirstFrameOfEncoded(f: WireFrame, rest: seq<byte>)
    requires Encodable(f)
    ensures |Encode(f)| == 5 + |f.payload|
    ensures BodyLength(Encode(f) + rest) == |f.payload|
    ensures FirstFrame(Encode(f) + rest) == Some(f)
    ensures (Encode(f) + rest)[|Encode(f)|..] == rest
  {
    BigEndianRoundTrip(1 + |f.payload|);
    var s := Encode(f) + rest;
    assert s[..4] == BigEndian32(1 + |f.payload|);
    assert s[5..5 + |f.payload|] == f.payload;
  }

  /** A strict prefix of an encoded frame holds no complete frame. */
  lemma {:induction false} NoFrameInPrefix(f: WireFrame, k: nat)
    requires Encodable(f) && k < 5 + |f.payload|
    ensures |Encode(f)| == 5 + |f.payload|
    ensures FirstFrame(Encode(f)[..k]) == None
  {
    FirstFrameOfEncoded(f, []);
    assert Encode(f) + [] == Encode(f);
    if k >= 5 {
      assert Encode(f)[..k][..4] == Encode(f)[..4];
    }
  }

  lemma {:induction false} EncodeAllAppend(a: seq<WireFrame>, b: seq<WireFrame>)
    requires forall f <- a + b :: Encodable(f)
    ensures (forall f <- a :: Encodable(f)) && (forall f <- b :: Encodable(f))
    ensures EncodeAll(a + b) == EncodeAll(a) + EncodeAll(b)
  {
    assert forall f <- a :: f in a + b;
    assert forall f <- b :: f in a + b;
    if a == [] {
      assert a + b == b;
    } else {
      assert (a + b)[1..] == a[1..] + b;
      EncodeAllAppend(a[1..], b);
    }
  }

  /** What is encoded is decoded, whatever incomplete bytes follow. */
  lemma {:induction false} DecodeEncode(fs: seq<WireFrame>, tail: seq<byte>)
    requires forall f <- fs :: Encodable(f)
    requires FirstFrame(tail) == None
    ensures DecodeAll(EncodeAll(fs) + tail) == fs
  {
    if fs == [] {
      assert EncodeAll(fs) + tail == tail;
    } else {
      var rest := EncodeAll(fs[1..]) + tail;
      assert EncodeAll(fs) + tail == Encode(fs[0]) + rest;
      FirstFrameOfEncoded(fs[0], rest);
      DecodeEncode(fs[1..], tail);
    }
  }

  lemma {:induction false} RoundTrip(fs: seq<WireFrame>)
    requires forall f <- fs :: Encodable(f)
    ensures DecodeAll(EncodeAll(fs)) == fs
  {
    DecodeEncode(fs, []);
    assert EncodeAll(fs) + [] == EncodeAll(fs);
  }

  /** A stream cut at any byte decodes to exactly the frames that lie completely before the cut. */
  lemma {:induction false} CutStream(fs: seq<WireFrame>, cut: nat) returns (n: nat)
    requires forall f <- fs :: Encodable(f)
    requires cut <= |EncodeAll(fs)|
    ensures n <= |fs|
    ensures |EncodeAll(fs[..n])| <= cut
    ensures n < |fs| ==> cut < |EncodeAll(fs[..n + 1])|
    ensures DecodeAll(EncodeAll(fs)[..cut]) == fs[..n]
  {
    n := 0;
    while n < |fs| && |EncodeAll(fs[..n + 1])| <= cut
      invariant n <= |fs| && |EncodeAll(fs[..n])| <= cut
    {
      n := n + 1;
    }
    var whole := EncodeAll(fs[..n]);
    assert fs == fs[..n] + fs[n..];
    EncodeAllAppend(fs[..n], fs[n..]);
    var tail := EncodeAll(fs[n..])[..cut - |whole|];
    assert EncodeAll(fs)[..cut] == whole + tail;
    if n < |fs| {
      PartialTail(fs, n, cut);
    }
    DecodeEncode(fs[..n], tail);
  }

  lemma {:induction false} PartialTail(fs: seq<WireFrame>, n: nat, cut: nat)
    requires forall f <- fs :: Encodable(f)
    requires n < |fs| && |EncodeAll(fs[..n])| <= cut < |EncodeAll(fs[..n + 1])|
    ensures cut - |EncodeAll(fs[..n])| <= |EncodeAll(fs[n..])|
    ensures FirstFrame(EncodeAll(fs[n..])[..cut - |EncodeAll(fs[..n])|]) == None
  {
    var k := cut - |EncodeAll(fs[..n])|;
    assert fs[..n + 1] == fs[..n] + [fs[n]];
    EncodeAllAppend(fs[..n], [fs[n]]);
    assert EncodeAll([fs[n]]) == Encode(fs[n]) + EncodeAll([]) == Encode(fs[n]);
    NoFrameInPrefix(fs[n], k);
    assert EncodeAll(fs[n..])[..k] == Encode(fs[n])[..k];
  }

  /**
    The decoder is wider than the encoder in exactly one place: a header with length 0 reads as an
    empty payload, which the encoder writes with length 1. Every other frame re-encodes to its own bytes.
   */
  lemma {:induction false} Reencode(s: seq<byte>)
    requires FirstFrame(s).Some?
    ensures Encodable(FirstFrame(s).value)
    ensures Encode(FirstFrame(s).value) + s[5 + BodyLength(s)..] == s <==> FromBigEndian32(s) != 0
  {
    var f, length := FirstFrame(s).value, FromBigEndian32(s);
    var e := Encode(f) + s[5 + BodyLength(s)..];
    BigEndianRoundTrip(1 + |f.payload|);
    assert e[..4] == BigEndian32(1 + |f.payload|);
    assert FromBigEndian32(e) == 1 + |f.payload|;
    if length != 0 {
      assert 1 + |f.payload| == length;
      BigEndianInjective(e, s);
      assert e[4] == s[4];
      assert forall i | 5 <= i < |s| :: e[i] == s[i];
    }
  }

  lemma {:induction false} BigEndianInjective(a: seq<byte>, b: seq<byte>)
    requires |a| >= 4 && |b| >= 4 && FromBigEndian32(a) == FromBigEndian32(b)
    ensures a[0] == b[0] && a[1] == b[1] && a[2] == b[2] && a[3] == b[3]
  {
  }
}
