/**
  The per-call recorder: caller and agent audio arrive in separate byte streams, are mixed sample by
  sample with int16 saturation, and written to one mono 16-bit file.
 */
module Recorder {
  import opened Common

  // ---------------------------------------------------------------------
  // Little-endian int16 samples (struct format "<h")
  // ---------------------------------------------------------------------

  function Unpack(lo: byte, hi: byte): (v: int)
    ensures -32768 <= v <= 32767
  {
    var u: int := hi;
    var n := u * 256 + lo;
    if n >= 32768 then n - 65536 else n
  }

  function PackLow(v: int): byte
    requires -32768 <= v <= 32767
  {
    (v + 65536) % 256
  }

  function PackHigh(v: int): byte
    requires -32768 <= v <= 32767
  {
    (v + 65536) / 256 % 256
  }

  lemma {:induction false} PackUnpack(v: int)
    requires -32768 <= v <= 32767
    ensures Unpack(PackLow(v), PackHigh(v)) == v
  {
  }

  lemma {:induction false} UnpackInjective(a: byte, b: byte, c: byte, d: byte)
    requires Unpack(a, b) == Unpack(c, d)
    ensures a == c && b == d
  {
  }

  function Saturate(v: int): (r: int)
    ensures -32768 <= r <= 32767
  {
    if v > 32767 then 32767 else if v < -32768 then -32768 else v
  }

  /** A sample is the signed 16-bit number whose low byte comes first. */
  lemma {:induction false} SampleIsLittleEndian(lo: byte, hi: byte, v: int)
    ensures Unpack(lo, hi) == v <==> -32768 <= v <= 32767 && (lo + 256 * hi - v) % 65536 == 0
  {
  }

  /** Saturation gives the representable number closest to the sum. */
  lemma {:induction false} SaturationIsClosest(v: int, w: int)
    requires -32768 <= w <= 32767
    ensures Saturate(v) <= v ==> v - Saturate(v) <= if w <= v then v - w else w - v
    ensures Saturate(v) >= v ==> Saturate(v) - v <= if w <= v then v - w else w - v
  {
  }

  /** Sample `i` of a byte stream; silence where the stream holds no whole sample. */
  function SampleAt(s: seq<byte>, i: nat): (v: int)
    ensures -32768 <= v <= 32767
  {
    if 2 * i + 1 < |s| then Unpack(s[2 * i], s[2 * i + 1]) else 0
  }

  /** `wav` is the first `n` samples of the saturated sum of `a` and `b`. */
  ghost predicate IsMix(wav: seq<byte>, a: seq<byte>, b: seq<byte>, n: nat) {
    && |wav| == 2 * n
    && forall i | 0 <= i < n :: SampleAt(wav, i) == Saturate(SampleAt(a, i) + SampleAt(b, i))
  }

  /** A finished recording: as long as the longer of the two streams, odd trailing bytes not counted. */
  ghost predicate IsRecording(wav: seq<byte>, a: seq<byte>, b: seq<byte>) {
    IsMix(wav, a, b, Max(|a| / 2, |b| / 2))
  }

  /** Two streams have only one recording, byte for byte. */
  lemma {:induction false} RecordingIsUnique(w1: seq<byte>, w2: seq<byte>, a: seq<byte>, b: seq<byte>)
    requires IsRecording(w1, a, b) && IsRecording(w2, a, b)
    ensures w1 == w2
  {
    forall k | 0 <= k < |w1|
      ensures w1[k] == w2[k]
    {
      var i := k / 2;
      assert SampleAt(w1, i) == SampleAt(w2, i);
      UnpackInjective(w1[2 * i], w1[2 * i + 1], w2[2 * i], w2[2 * i + 1]);
    }
  }

  /** Swapping caller and agent changes nothing, and an odd trailing byte is never heard. */
  lemma {:induction false} RecordingIsSymmetricAndEven(w: seq<byte>, a: seq<byte>, b: seq<byte>)
    requires IsRecording(w, a, b)
    ensures IsRecording(w, b, a)
    ensures IsRecording(w, a[..|a| - |a| % 2], b[..|b| - |b| % 2])
  {
    var a', b' := a[..|a| - |a| % 2], b[..|b| - |b| % 2];
    assert forall i: nat :: SampleAt(a, i) == SampleAt(a', i) && SampleAt(b, i) == SampleAt(b', i);
  }

  /** If one side never speaks the file is the other side's stream, byte for byte. */
  lemma {:induction false} SilentSide(w: seq<byte>, a: seq<byte>)
    ensures IsRecording(w, a, []) <==> w == a[..|a| - |a| % 2]
  {
    var whole := a[..|a| - |a| % 2];
    assert IsRecording(whole, a, []) by {
      forall i | 0 <= i < |a| / 2
        ensures SampleAt(whole, i) == Saturate(SampleAt(a, i) + SampleAt([], i))
      {
        assert whole[2 * i] == a[2 * i] && whole[2 * i + 1] == a[2 * i + 1];
      }
    }
    if IsRecording(w, a, []) {
      RecordingIsUnique(w, whole, a, []);
    }
  }

  class Recorder {
    var inbound: seq<byte>
    var outbound: seq<byte>
    var wav: seq<byte>        // frames written to the wave file
    var isOpen: bool          // _wf is not None
    var closed: bool
    ghost var heard: seq<byte>    // everything accepted by write_inbound
    ghost var spoken: seq<byte>   // everything accepted by write_outbound

    /** While the file is open, exactly the sample pairs complete on both sides have been written. */
    ghost predicate Valid()
      reads this
    {
      && (!isOpen ==> inbound == outbound == wav == heard == spoken == [])
      && (closed ==> inbound == outbound == [] && IsRecording(wav, heard, spoken))
      && (!closed ==>
            && |wav| % 2 == 0 && |wav| <= |heard| && |wav| <= |spoken|
            && inbound == heard[|wav|..] && outbound == spoken[|wav|..]
            && (|inbound| < 2 || |outbound| < 2)
            && IsMix(wav, heard, spoken, |wav| / 2))
    }

    constructor ()
      ensures Valid() && !isOpen && !closed && heard == spoken == []
    {
      inbound, outbound, wav, isOpen, closed := [], [], [], false, false;
      heard, spoken := [], [];
    }

    method Open()
      requires Valid() && !isOpen && !closed
      modifies this`isOpen
      ensures Valid() && isOpen
    {
      isOpen := true;
    }

    /** The sample loop: `n` bytes of each side, mixed pairwise. */
    method MixBytes(a: seq<byte>, b: seq<byte>) returns (out: seq<byte>)
      requires |a| == |b| && |a| % 2 == 0
      ensures IsMix(out, a, b, |a| / 2)
    {
      out := [];
      var i := 0;
      while i < |a|
        invariant i % 2 == 0 && i <= |a|
        invariant IsMix(out, a, b, i / 2)
      {
        var sa, sb := Unpack(a[i], a[i + 1]), Unpack(b[i], b[i + 1]);
        var mixed := sa + sb;
        if mixed > 32767 {
          mixed := 32767;
        } else if mixed < -32768 {
          mixed := -32768;
        }
        AppendSample(out, a, b, i / 2, mixed);
        out := out + [PackLow(mixed), PackHigh(mixed)];
        i := i + 2;
      }
    }

    /** Writes the pairs complete on both sides and drops them from both buffers. */
    method EmitPaired(nBytes: nat)
      requires !closed && nBytes == Min(|inbound|, |outbound|)
      requires |wav| % 2 == 0 && |wav| <= |heard| && |wav| <= |spoken|
      requires inbound == heard[|wav|..] && outbound == spoken[|wav|..] && isOpen
      requires IsMix(wav, heard, spoken, |wav| / 2)
      modifies this`inbound, this`outbound, this`wav
      ensures Valid()
    {
      var n := nBytes - nBytes % 2;
      if n == 0 {
        return;
      }
      var a, b := inbound[..n], outbound[..n];
      inbound, outbound := inbound[n..], outbound[n..];
      var out := MixBytes(a, b);
      JoinMix(wav, heard, spoken, out, a, b);
      wav := wav + out;
    }

    /** At the end: the longer remainder is mixed with silence, the rest is less than a sample. */
    method EmitSolo(nBytes: nat)
      requires Valid() && isOpen && !closed && nBytes == Max(|inbound|, |outbound|)
      modifies this`inbound, this`outbound, this`wav
      ensures inbound == outbound == [] && IsRecording(wav, heard, spoken)
    {
      var n := nBytes - nBytes % 2;
      if n == 0 {
        inbound, outbound := [], [];
        return;
      }
      var data;
      if |inbound| >= |outbound| {
        data := inbound[..n];
        SoloMix(wav, heard, spoken, data);
      } else {
        data := outbound[..n];
        RecordingSides(wav, heard, spoken);
        SoloMix(wav, spoken, heard, data);
        RecordingSides(wav + data, spoken, heard);
      }
      inbound, outbound := [], [];
      wav := wav + data;
    }

    method MixAndWrite(flush: bool)
      requires isOpen && !closed
      requires |wav| % 2 == 0 && |wav| <= |heard| && |wav| <= |spoken|
      requires inbound == heard[|wav|..] && outbound == spoken[|wav|..]
      requires IsMix(wav, heard, spoken, |wav| / 2)
      modifies this`inbound, this`outbound, this`wav
      ensures !flush ==> Valid()
      ensures flush ==> inbound == outbound == [] && IsRecording(wav, heard, spoken)
    {
      var pairLen := Min(|inbound|, |outbound|);
      if pairLen != 0 {
        EmitPaired(pairLen);
      }
      if !flush {
        return;
      }
      var leftover := Max(|inbound|, |outbound|);
      if leftover != 0 {
        EmitSolo(leftover);
      }
    }

    /** Accepted only while the file is open and the recorder not closed. */
    method WriteInbound(pcm: seq<byte>)
      requires Valid()
      modifies this`inbound, this`outbound, this`wav, this`heard
      ensures Valid()
      ensures heard == old(heard) + (if isOpen && !closed then pcm else [])
      ensures closed ==> wav == old(wav)
    {
      if closed || !isOpen {
        return;
      }
      MoreHeard(wav, heard, spoken, pcm);
      inbound := inbound + pcm;
      heard := heard + pcm;
      MixAndWrite(false);
    }

    method WriteOutbound(pcm: seq<byte>)
      requires Valid()
      modifies this`inbound, this`outbound, this`wav, this`spoken
      ensures Valid()
      ensures spoken == old(spoken) + (if isOpen && !closed then pcm else [])
      ensures closed ==> wav == old(wav)
    {
      if closed || !isOpen {
        return;
      }
      RecordingSides(wav, heard, spoken);
      MoreHeard(wav, spoken, heard, pcm);
      RecordingSides(wav, spoken + pcm, heard);
      outbound := outbound + pcm;
      spoken := spoken + pcm;
      MixAndWrite(false);
    }

    /** The file now holds the recording of everything accepted; closing again changes nothing. */
    method Close()
      requires Valid()
      modifies this`inbound, this`outbound, this`wav, this`closed
      ensures Valid() && closed && IsRecording(wav, heard, spoken)
      ensures old(closed) ==> wav == old(wav)
    {
      if closed {
        return;
      }
      if isOpen {
        MixAndWrite(true);
      }
      closed := true;
    }
  }

  // ---------------------------------------------------------------------
  // Facts about mixes
  // ---------------------------------------------------------------------

  lemma {:induction false} SampleOfPrefix(s: seq<byte>, t: seq<byte>, i: nat)
    ensures 2 * i + 1 < |s| ==> SampleAt(s + t, i) == SampleAt(s, i)
    ensures |s| % 2 == 0 && |s| <= 2 * i ==> SampleAt(s + t, i) == SampleAt(t, i - |s| / 2)
  {
  }

  lemma {:induction false} SampleOfSlice(s: seq<byte>, from: nat, n: nat, j: nat)
    requires from % 2 == 0 && from + n <= |s| && 2 * j + 1 < n
    ensures SampleAt(s[from..][..n], j) == SampleAt(s, from / 2 + j)
  {
  }

  lemma {:induction false} AppendSample(out: seq<byte>, a: seq<byte>, b: seq<byte>, n: nat, mixed: int)
    requires IsMix(out, a, b, n) && mixed == Saturate(SampleAt(a, n) + SampleAt(b, n))
    ensures IsMix(out + [PackLow(mixed), PackHigh(mixed)], a, b, n + 1)
  {
    var more := [PackLow(mixed), PackHigh(mixed)];
    PackUnpack(mixed);
    forall i | 0 <= i < n + 1
      ensures SampleAt(out + more, i) == Saturate(SampleAt(a, i) + SampleAt(b, i))
    {
      SampleOfPrefix(out, more, i);
    }
  }

  /** A mix followed by the mix of what comes next. */
  lemma {:induction false} JoinMix(wav: seq<byte>, h: seq<byte>, s: seq<byte>, out: seq<byte>, a: seq<byte>, b: seq<byte>)
    requires |wav| % 2 == 0 && IsMix(wav, h, s, |wav| / 2) && IsMix(out, a, b, |a| / 2)
    requires |a| == |b| && |a| % 2 == 0 && |wav| <= |h| && |wav| <= |s|
    requires |wav| + |a| <= |h| && a == h[|wav|..][..|a|]
    requires |wav| + |b| <= |s| && b == s[|wav|..][..|b|]
    ensures IsMix(wav + out, h, s, |wav + out| / 2)
  {
    forall i | 0 <= i < |wav + out| / 2
      ensures SampleAt(wav + out, i) == Saturate(SampleAt(h, i) + SampleAt(s, i))
    {
      SampleOfPrefix(wav, out, i);
      if |wav| <= 2 * i {
        var j := i - |wav| / 2;
        SampleOfSlice(h, |wav|, |a|, j);
        SampleOfSlice(s, |wav|, |b|, j);
      }
    }
  }

  /** Past the end of one stream, the mix is the other stream. */
  lemma {:induction false} MixWithSilence(h: seq<byte>, s: seq<byte>, from: nat, n: nat, i: nat)
    requires from % 2 == 0 && n % 2 == 0 && from + n <= |h| && |s| - from < 2
    requires from <= 2 * i < from + n
    ensures SampleAt(h[from..][..n], i - from / 2) == Saturate(SampleAt(h, i) + SampleAt(s, i))
  {
    SampleOfSlice(h, from, n, i - from / 2);
    assert SampleAt(s, i) == 0;
  }

  lemma {:induction false} SoloSample(wav: seq<byte>, h: seq<byte>, s: seq<byte>, n: nat, i: nat)
    requires |wav| % 2 == 0 && n % 2 == 0 && |wav| + n <= |h| && |s| - |wav| < 2 && IsMix(wav, h, s, |wav| / 2)
    requires 2 * i < |wav| + n
    ensures SampleAt(wav + h[|wav|..][..n], i) == Saturate(SampleAt(h, i) + SampleAt(s, i))
  {
    hide SampleAt, Saturate;
    SampleOfPrefix(wav, h[|wav|..][..n], i);
    if |wav| <= 2 * i {
      MixWithSilence(h, s, |wav|, n, i);
    }
  }

  lemma {:induction false} EvenRest(half: int, odd: nat)
    requires odd < 2
    ensures (2 * half + odd) % 2 == odd
  {
  }

  lemma {:induction false} Larger(a: nat, b: nat)
    requires b <= a
    ensures Max(a, b) == a
  {
  }

  lemma {:induction false} Halves(x: nat) returns (half: nat, odd: nat)
    ensures half == x / 2 && odd == x % 2 && odd < 2 && x == 2 * half + odd
  {
    half, odd := x / 2, x % 2;
  }

  lemma {:induction false} SoloLength(from: nat, h: nat, s: nat)
    requires from % 2 == 0 && from <= s <= h && s - from < 2
    ensures var n := h - from - (h - from) % 2; n % 2 == 0 && 0 <= n <= h - from && from + n == 2 * Max(h / 2, s / 2)
  {
    hide Max;
    var k, _ := Halves(from);
    var a, odd := Halves(h);
    var b, _ := Halves(s);
    EvenRest(a - k, odd);
    EvenRest(a - k, 0);
    Larger(a, b);
    assert h - from == 2 * (a - k) + odd;
  }

  lemma {:induction false} SoloSamples(wav: seq<byte>, h: seq<byte>, s: seq<byte>, n: nat)
    requires |wav| % 2 == 0 && n % 2 == 0 && |wav| + n <= |h| && |s| - |wav| < 2 && IsMix(wav, h, s, |wav| / 2)
    requires |wav| + n == 2 * Max(|h| / 2, |s| / 2)
    ensures IsRecording(wav + h[|wav|..][..n], h, s)
  {
    hide SampleAt, Saturate, Max;
    var data, samples := h[|wav|..][..n], Max(|h| / 2, |s| / 2);
    forall i | 0 <= i < samples
      ensures SampleAt(wav + data, i) == Saturate(SampleAt(h, i) + SampleAt(s, i))
    {
      SoloSample(wav, h, s, n, i);
    }
  }

  /** The longer remainder is its own mix with silence. */
  lemma {:induction false} SoloMix(wav: seq<byte>, h: seq<byte>, s: seq<byte>, data: seq<byte>)
    requires |wav| % 2 == 0 && |wav| <= |h| && |wav| <= |s| && IsMix(wav, h, s, |wav| / 2)
    requires |s| - |wav| < 2 && |s| <= |h|
    requires data == h[|wav|..][..|h| - |wav| - (|h| - |wav|) % 2]
    ensures IsRecording(wav + data, h, s)
  {
    hide *;
    SoloLength(|wav|, |h|, |s|);
    SoloSamples(wav, h, s, |h| - |wav| - (|h| - |wav|) % 2);
  }

  lemma {:induction false} RecordingSides(wav: seq<byte>, h: seq<byte>, s: seq<byte>)
    ensures forall n: nat :: IsMix(wav, h, s, n) ==> IsMix(wav, s, h, n)
  {
  }

  /** Bytes that arrive later do not disturb what has been mixed. */
  lemma {:induction false} MoreHeard(wav: seq<byte>, h: seq<byte>, s: seq<byte>, pcm: seq<byte>)
    requires |wav| % 2 == 0 && |wav| <= |h| && IsMix(wav, h, s, |wav| / 2)
    ensures IsMix(wav, h + pcm, s, |wav| / 2)
    ensures (h + pcm)[|wav|..] == h[|wav|..] + pcm
  {
    forall i | 0 <= i < |wav| / 2
      ensures SampleAt(wav, i) == Saturate(SampleAt(h + pcm, i) + SampleAt(s, i))
    {
      SampleOfPrefix(h, pcm, i);
    }
  }

  // ---------------------------------------------------------------------
  // Whole calls
  // ---------------------------------------------------------------------

  datatype Write = Inbound(pcm: seq<byte>) | Outbound(pcm: seq<byte>)

  function Heard(writes: seq<Write>): seq<byte> {
    if writes == [] then []
    else Heard(writes[..|writes|-1]) + (if writes[|writes|-1].Inbound? then writes[|writes|-1].pcm else [])
  }

  function Spoken(writes: seq<Write>): seq<byte> {
    if writes == [] then []
    else Spoken(writes[..|writes|-1]) + (if writes[|writes|-1].Outbound? then writes[|writes|-1].pcm else [])
  }

  /** One recorded call: any interleaving of writes, and writes after closing are ignored. */
  method Record(writes: seq<Write>, late: seq<Write>) returns (wav: seq<byte>)
    ensures IsRecording(wav, Heard(writes), Spoken(writes))
  {
    var r := new Recorder();
    r.Open();
    for i := 0 to |writes|
      invariant r.Valid() && r.isOpen && !r.closed
      invariant r.heard == Heard(writes[..i])
      invariant r.spoken == Spoken(writes[..i])
    {
      assert writes[..i + 1][..|writes[..i + 1]|-1] == writes[..i];
      match writes[i]
      case Inbound(pcm) => r.WriteInbound(pcm);
      case Outbound(pcm) => r.WriteOutbound(pcm);
    }
    assert writes[..|writes|] == writes;
    r.Close();
    wav := r.wav;
    for i := 0 to |late|
      invariant r.Valid() && r.closed && r.wav == wav
    {
      match late[i]
      case Inbound(pcm) => r.WriteInbound(pcm);
      case Outbound(pcm) => r.WriteOutbound(pcm);
    }
    r.Close();
    wav := r.wav;
  }

  /** How the two directions interleave and are fragmented leaves no trace in the file. */
  method InterleavingIrrelevant(writes1: seq<Write>, writes2: seq<Write>) returns (wav1: seq<byte>, wav2: seq<byte>)
    requires Heard(writes1) == Heard(writes2) && Spoken(writes1) == Spoken(writes2)
    ensures wav1 == wav2
  {
    wav1 := Record(writes1, []);
    wav2 := Record(writes2, writes1);
    RecordingIsUnique(wav1, wav2, Heard(writes1), Spoken(writes1));
  }
}
