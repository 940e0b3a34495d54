/**
  The worker's speech output: bytes from the TTS stream are cut into 320-byte frames and put on a
  bounded playout queue that drops its oldest frame on overflow.
 */
module AudioOut {
  import opened Common
  import opened FrameCodec
  import opened DropOldest

  const FRAMES_OUT_MAX: nat := 200

  type Frame = seq<byte>

  /** The complete 320-byte frames of a byte string. */
  function WholeFrames(s: seq<byte>): seq<Frame> { Pieces(s, PCM_FRAME_BYTES) }

  /** What is left after the complete frames. */
  function Remainder(s: seq<byte>): (r: seq<byte>)
    ensures |r| < PCM_FRAME_BYTES
  {
    Leftover(s, PCM_FRAME_BYTES)
  }

  function Pad(s: seq<byte>): (r: Frame)
    requires |s| <= PCM_FRAME_BYTES
    ensures |r| == PCM_FRAME_BYTES && s <= r && forall i | |s| <= i < |r| :: r[i] == 0
  {
    s + seq(PCM_FRAME_BYTES - |s|, _ => 0)
  }

  /** The trailing frame of a stream that ended: its incomplete frame filled up with silence. */
  function LastFrame(s: seq<byte>): seq<Frame>
    requires |s| < PCM_FRAME_BYTES
  {
    if s == [] then [] else [Pad(s)]
  }

  function PaddedFrames(s: seq<byte>): seq<Frame> {
    WholeFrames(s) + LastFrame(Remainder(s))
  }

  /** Framing loses, adds and moves no byte. */
  lemma {:induction false} FramingIsLossless(s: seq<byte>)
    ensures Flatten(WholeFrames(s)) + Remainder(s) == s
    ensures forall f <- WholeFrames(s) :: |f| == PCM_FRAME_BYTES
    ensures |WholeFrames(s)| == |s| / PCM_FRAME_BYTES
  {
    PiecesLossless(s, PCM_FRAME_BYTES);
    FrameCount(s);
  }

  lemma {:induction false} FrameCount(s: seq<byte>)
    ensures |WholeFrames(s)| == |s| / PCM_FRAME_BYTES
    decreases |s|
  {
    if |s| >= PCM_FRAME_BYTES {
      FrameCount(s[PCM_FRAME_BYTES..]);
    }
  }

  /** Framing a stream chunk by chunk gives the frames of the whole stream. */
  lemma {:induction false} FramingAppend(a: seq<byte>, b: seq<byte>)
    ensures WholeFrames(a + b) == WholeFrames(a) + WholeFrames(Remainder(a) + b)
    ensures Remainder(a + b) == Remainder(Remainder(a) + b)
  {
    PiecesAppend(a, b, PCM_FRAME_BYTES);
  }

  /** One arrival on the TTS stream, and whether a barge-in had set the cancel event by then. */
  datatype Arrival = Arrival(chunk: seq<byte>, cancelled: bool)

  datatype StreamEnd = Finished | HttpFailure

  /** A speech request: pre-rendered audio, or none and then what the TTS stream brings. */
  datatype Request = Request(audio: seq<byte>, arrivals: seq<Arrival>, end: StreamEnd)

  /** The bytes taken from the stream: everything before the first arrival that finds the event set. */
  function Taken(arrivals: seq<Arrival>): seq<byte> {
    if arrivals == [] || arrivals[0].cancelled then [] else arrivals[0].chunk + Taken(arrivals[1..])
  }

  predicate Cancelled(arrivals: seq<Arrival>) { exists a <- arrivals :: a.cancelled }

  /** `taken` is what the arrivals before the `i`-th brought, none of which found the event set. */
  ghost predicate TakenBy(arrivals: seq<Arrival>, i: nat, taken: seq<byte>) {
    i <= |arrivals| && taken + Taken(arrivals[i..]) == Taken(arrivals) && !Cancelled(arrivals[..i])
  }

  lemma {:induction false} TakeOne(arrivals: seq<Arrival>, i: nat, taken: seq<byte>)
    requires TakenBy(arrivals, i, taken) && i < |arrivals|
    ensures arrivals[i].cancelled ==> taken == Taken(arrivals) && Cancelled(arrivals)
    ensures !arrivals[i].cancelled ==> TakenBy(arrivals, i + 1, taken + arrivals[i].chunk)
  {
    var a := arrivals[i];
    assert a in arrivals;
    if a.cancelled {
      assert Taken(arrivals[i..]) == [];
    } else {
      assert arrivals[i..][1..] == arrivals[i + 1..];
      assert taken + (a.chunk + Taken(arrivals[i + 1..])) == (taken + a.chunk) + Taken(arrivals[i + 1..]);
      assert arrivals[..i + 1] == arrivals[..i] + [a];
    }
  }

  lemma {:induction false} TakenEnds(arrivals: seq<Arrival>, taken: seq<byte>)
    ensures TakenBy(arrivals, 0, [])
    ensures TakenBy(arrivals, |arrivals|, taken) ==> taken == Taken(arrivals) && !Cancelled(arrivals)
  {
    assert arrivals[0..] == arrivals && arrivals[..|arrivals|] == arrivals;
  }

  lemma {:induction false} FramingNothing()
    ensures WholeFrames([]) == [] && Remainder([]) == []
  {
  }

  /** The frames one TTS request produces. */
  function StreamFrames(arrivals: seq<Arrival>, end: StreamEnd): seq<Frame> {
    if Cancelled(arrivals) || end == HttpFailure then WholeFrames(Taken(arrivals)) else PaddedFrames(Taken(arrivals))
  }

  function ChunksOf(arrivals: seq<Arrival>): seq<seq<byte>> {
    seq(|arrivals|, i requires 0 <= i < |arrivals| => arrivals[i].chunk)
  }

  /** What is taken are the chunks before the first arrival that finds the event set. */
  lemma {:induction false} TakenIsPrefix(arrivals: seq<Arrival>) returns (n: nat)
    ensures n <= |arrivals| && (forall i | 0 <= i < n :: !arrivals[i].cancelled) && (n < |arrivals| ==> arrivals[n].cancelled)
    ensures Taken(arrivals) == Flatten(ChunksOf(arrivals[..n])) && (Cancelled(arrivals) <==> n < |arrivals|)
  {
    if arrivals == [] || arrivals[0].cancelled {
      n := 0;
      assert ChunksOf(arrivals[..0]) == [];
    } else {
      var m := TakenIsPrefix(arrivals[1..]);
      n := m + 1;
      var a, rest := arrivals[0], arrivals[1..];
      assert ChunksOf(arrivals[..n]) == [a.chunk] + ChunksOf(rest[..m]);
      FlattenCons(a.chunk, ChunksOf(rest[..m]));
      hide Flatten;
      assert Cancelled(arrivals) <==> Cancelled(rest) by {
        if Cancelled(arrivals) {
          var b :| b in arrivals && b.cancelled;
          assert b in rest;
        }
        if Cancelled(rest) {
          var b :| b in rest && b.cancelled;
          assert b in arrivals;
        }
      }
    }
  }

  /**
    The sound of a request: a stream that ends regularly and uninterrupted is heard to its last byte, then
    less than a frame of silence; any other up to its last whole frame.
   */
  lemma {:induction false} StreamIsHeard(arrivals: seq<Arrival>, end: StreamEnd)
    ensures var bytes, sound := Taken(arrivals), Flatten(StreamFrames(arrivals, end));
            if end == Finished && !Cancelled(arrivals) then
              && bytes <= sound && |sound| - |bytes| < PCM_FRAME_BYTES && |sound| % PCM_FRAME_BYTES == 0
              && forall i | |bytes| <= i < |sound| :: sound[i] == 0
            else sound <= bytes && |bytes| - |sound| < PCM_FRAME_BYTES && |sound| % PCM_FRAME_BYTES == 0
    ensures forall f <- StreamFrames(arrivals, end) :: |f| == PCM_FRAME_BYTES
  {
    hide Taken, Cancelled;
    PaddedIsHeard(Taken(arrivals));
  }

  lemma {:induction false} WholeLength(s: seq<byte>)
    ensures |Flatten(WholeFrames(s))| % PCM_FRAME_BYTES == 0
    decreases |s|
  {
    if |s| >= PCM_FRAME_BYTES {
      var rest := s[PCM_FRAME_BYTES..];
      WholeLength(rest);
      FlattenCons(s[..PCM_FRAME_BYTES], WholeFrames(rest));
      hide Flatten;
    }
  }

  lemma {:induction false} PaddedIsHeard(s: seq<byte>)
    ensures var whole, padded := Flatten(WholeFrames(s)), Flatten(PaddedFrames(s));
            && whole <= s <= padded && |s| - |whole| < PCM_FRAME_BYTES && |padded| - |s| < PCM_FRAME_BYTES
            && |whole| % PCM_FRAME_BYTES == 0 && |padded| % PCM_FRAME_BYTES == 0
            && forall i | |s| <= i < |padded| :: padded[i] == 0
    ensures (forall f <- WholeFrames(s) :: |f| == PCM_FRAME_BYTES) && forall f <- PaddedFrames(s) :: |f| == PCM_FRAME_BYTES
  {
    FramingIsLossless(s);
    WholeLength(s);
    var frames, rest := WholeFrames(s), Remainder(s);
    hide WholeFrames, Remainder, Flatten;
    if rest == [] {
      assert frames + [] == frames;
    } else {
      FlattenSnoc(frames, Pad(rest));
      assert Flatten(frames) + Pad(rest) == s + Pad(rest)[|rest|..];
    }
  }

  /** The playout queue (asyncio.Queue of at most 200) and the drop counter M_AUDIO_DROPS. */
  datatype Playout = Playout(queue: seq<Frame>, drops: nat)

  /** Offering frames: the queue holds the newest 200, and each frame given up is counted. */
  function Offer(p: Playout, frames: seq<Frame>): (r: Playout)
    ensures |r.queue| <= FRAMES_OUT_MAX
  {
    Playout(Newest(p.queue + frames, FRAMES_OUT_MAX), p.drops + |Shed(p.queue + frames, FRAMES_OUT_MAX)|)
  }

  lemma {:induction false} OfferNothing(p: Playout)
    requires |p.queue| <= FRAMES_OUT_MAX
    ensures Offer(p, []) == p
  {
    assert p.queue + [] == p.queue;
  }

  lemma {:induction false} OfferMore(p: Playout, a: seq<Frame>, b: seq<Frame>)
    ensures Offer(Offer(p, a), b) == Offer(p, a + b)
  {
    NewestAppend(p.queue + a, b, FRAMES_OUT_MAX);
    assert p.queue + a + b == p.queue + (a + b);
  }

  class AudioOutPipeline {
    var out: Playout
    var leftover: seq<byte>     // local of _stream_tts, alive across its suspension points
    var cancelEvent: bool
    var stopEvent: bool

    constructor ()
      ensures out == Playout([], 0) && leftover == [] && !cancelEvent && !stopEvent
    {
      out, leftover, cancelEvent, stopEvent := Playout([], 0), [], false, false;
    }

    method EnqueueFrame(frame: Frame)
      requires |out.queue| <= FRAMES_OUT_MAX
      modifies this`out
      ensures out == Offer(old(out), [frame])
    {
      if |out.queue| >= FRAMES_OUT_MAX {
        if out.queue != [] {
          out := Playout(out.queue[1..], out.drops + 1);
        }
      }
      out := out.(queue := out.queue + [frame]);
    }

    /** One arrival: every frame that is complete by now goes to the queue, the rest waits. */
    method TakeChunk(chunk: seq<byte>) returns (cancelled: bool)
      requires |out.queue| <= FRAMES_OUT_MAX && |leftover| < PCM_FRAME_BYTES
      modifies this`out, this`leftover
      ensures cancelled == (cancelEvent || stopEvent)
      ensures cancelled ==> leftover == old(leftover) && out == old(out)
      ensures !cancelled ==> leftover == Remainder(old(leftover) + chunk)
      ensures !cancelled ==> out == Offer(old(out), WholeFrames(old(leftover) + chunk))
    {
      if cancelEvent || stopEvent {
        return true;
      }
      leftover := leftover + chunk;
      ghost var all, made := leftover, [];
      OfferNothing(out);
      hide Offer, WholeFrames, Remainder;
      while |leftover| >= PCM_FRAME_BYTES
        invariant |out.queue| <= FRAMES_OUT_MAX
        invariant made + WholeFrames(leftover) == WholeFrames(all)
        invariant Remainder(leftover) == Remainder(all)
        invariant out == Offer(old(out), made)
        decreases |leftover|
      {
        var frame := leftover[..PCM_FRAME_BYTES];
        NextWhole(made, leftover);
        leftover := leftover[PCM_FRAME_BYTES..];
        EnqueueFrame(frame);
        OfferMore(old(out), made, [frame]);
        made := made + [frame];
      }
      NoneWhole(made, leftover);
      return false;
    }

    /** End of the stream: a trailing half frame is padded with silence and sent, unless cancelled. */
    method EndStream(end: StreamEnd, cancelled: bool)
      requires |out.queue| <= FRAMES_OUT_MAX && |leftover| < PCM_FRAME_BYTES
      modifies this`out
      ensures out == Offer(old(out), if end == HttpFailure || cancelled then [] else LastFrame(leftover))
    {
      OfferNothing(out);
      if end == HttpFailure {
        return;
      }
      if leftover != [] && !cancelled {
        EnqueueFrame(Pad(leftover));
      }
    }

    /** The chunk loop of `_stream_tts`, with nobody taking from the queue meanwhile. */
    method TakeChunks(arrivals: seq<Arrival>) returns (cancelled: bool)
      requires |out.queue| <= FRAMES_OUT_MAX && !cancelEvent && !stopEvent && leftover == []
      modifies this`out, this`leftover, this`cancelEvent
      ensures cancelled == Cancelled(arrivals) == cancelEvent
      ensures leftover == Remainder(Taken(arrivals))
      ensures out == Offer(old(out), WholeFrames(Taken(arrivals)))
    {
      hide WholeFrames, Remainder, Offer, Taken, Cancelled, TakenBy;
      cancelled := false;
      var i := 0;
      ghost var taken: seq<byte> := [];
      OfferNothing(out);
      FramingNothing();
      TakenEnds(arrivals, taken);
      while i < |arrivals| && !cancelled
        invariant i <= |arrivals| && |out.queue| <= FRAMES_OUT_MAX
        invariant leftover == Remainder(taken)
        invariant if cancelled then taken == Taken(arrivals) && Cancelled(arrivals) else TakenBy(arrivals, i, taken)
        invariant cancelEvent == cancelled
        invariant out == Offer(old(out), WholeFrames(taken))
      {
        var a := arrivals[i];
        TakeOne(arrivals, i, taken);
        cancelEvent := a.cancelled;
        cancelled := TakeChunk(a.chunk);
        i := i + 1;
        if !cancelled {
          OfferMore(old(out), WholeFrames(taken), WholeFrames(Remainder(taken) + a.chunk));
          FramingAppend(taken, a.chunk);
          taken := taken + a.chunk;
        }
      }
      TakenEnds(arrivals, taken);
    }

    /** `_stream_tts` on one 200 response: however the audio is chunked, the frames are those of all its bytes. */
    method StreamTts(arrivals: seq<Arrival>, end: StreamEnd) returns (cancelled: bool)
      requires |out.queue| <= FRAMES_OUT_MAX && !cancelEvent && !stopEvent
      modifies this`out, this`leftover, this`cancelEvent
      ensures cancelled == Cancelled(arrivals) == cancelEvent
      ensures out == Offer(old(out), StreamFrames(arrivals, end))
    {
      leftover := [];
      cancelled := TakeChunks(arrivals);
      ghost var last := if end == HttpFailure || cancelled then [] else LastFrame(leftover);
      EndStream(end, cancelled);
      OfferMore(old(out), WholeFrames(Taken(arrivals)), last);
      assert WholeFrames(Taken(arrivals)) + last == StreamFrames(arrivals, end);
    }

    /** Before each request `run` clears the cancel event. */
    method BeginRequest()
      modifies this`cancelEvent, this`leftover
      ensures !cancelEvent && leftover == []
    {
      cancelEvent := false;
      leftover := [];
    }

    /** One request in `run`, whatever interrupted the one before: all of a clip, or what its stream brings. */
    method ServeRequest(req: Request)
      requires |out.queue| <= FRAMES_OUT_MAX && !stopEvent
      modifies this`out, this`leftover, this`cancelEvent
      ensures out == Offer(old(out), if req.audio != [] then PaddedFrames(req.audio) else StreamFrames(req.arrivals, req.end))
    {
      hide PaddedFrames, StreamFrames;
      BeginRequest();
      if req.audio != [] {
        EnqueueAudioBytes(req.audio);
      } else {
        var _ := StreamTts(req.arrivals, req.end);
      }
    }

    /** `_enqueue_audio_bytes`: pre-rendered audio, all of it unless playback has been called off. */
    method EnqueueAudioBytes(pcm: seq<byte>)
      requires |out.queue| <= FRAMES_OUT_MAX
      modifies this`out
      ensures out == Offer(old(out), if cancelEvent || stopEvent then [] else PaddedFrames(pcm))
    {
      var i := 0;
      ghost var made: seq<Frame> := [];
      ghost var start := out;
      ghost var all := PaddedFrames(pcm);
      OfferNothing(out);
      assert pcm[0..] == pcm;
      assert made + all == all;
      hide *;
      while i < |pcm|
        invariant |out.queue| <= FRAMES_OUT_MAX
        invariant out == Offer(start, made)
        invariant i <= |pcm| ==> made + PaddedFrames(pcm[i..]) == all
        invariant i > |pcm| ==> made == all
        invariant i == 0 ==> made == []
        invariant i > 0 ==> !cancelEvent && !stopEvent
        decreases |pcm| - i
      {
        var chunk := Slice(pcm, i, i + PCM_FRAME_BYTES);
        NextChunk(made, pcm, i);
        if |chunk| < PCM_FRAME_BYTES {
          chunk := Pad(chunk);
        }
        if cancelEvent || stopEvent {
          return;
        }
        EnqueueFrame(chunk);
        OfferMore(start, made, [chunk]);
        made := made + [chunk];
        i := i + PCM_FRAME_BYTES;
      }
      if i == |pcm| {
        NoneLeft(made, pcm);
      }
    }
  }

  lemma {:induction false} NextWhole(made: seq<Frame>, s: seq<byte>)
    requires |s| >= PCM_FRAME_BYTES
    ensures made + WholeFrames(s) == made + [s[..PCM_FRAME_BYTES]] + WholeFrames(s[PCM_FRAME_BYTES..])
    ensures Remainder(s) == Remainder(s[PCM_FRAME_BYTES..])
  {
  }

  lemma {:induction false} NoneWhole(made: seq<Frame>, s: seq<byte>)
    requires |s| < PCM_FRAME_BYTES
    ensures made + WholeFrames(s) == made && Remainder(s) == s
  {
  }

  /** Python's `s[i:j]`, which stops at the end of `s`. */
  function Slice(s: seq<byte>, i: nat, j: nat): (r: seq<byte>)
    requires i <= j && i <= |s|
    ensures |r| == Min(j, |s|) - i
  {
    s[i..Min(j, |s|)]
  }

  lemma {:induction false} NextChunk(made: seq<Frame>, pcm: seq<byte>, i: nat)
    requires i < |pcm|
    ensures var chunk := Slice(pcm, i, i + PCM_FRAME_BYTES);
            && (|chunk| == PCM_FRAME_BYTES ==>
                  && i + PCM_FRAME_BYTES <= |pcm|
                  && made + PaddedFrames(pcm[i..]) == made + [chunk] + PaddedFrames(pcm[i + PCM_FRAME_BYTES..]))
            && (|chunk| < PCM_FRAME_BYTES ==>
                  && i + PCM_FRAME_BYTES > |pcm|
                  && made + PaddedFrames(pcm[i..]) == made + [Pad(chunk)])
  {
    var s, j := pcm[i..], i + PCM_FRAME_BYTES;
    if j <= |pcm| {
      assert s[PCM_FRAME_BYTES..] == pcm[j..];
      assert s[..PCM_FRAME_BYTES] == pcm[i..j];
      assert PaddedFrames(s) == [s[..PCM_FRAME_BYTES]] + PaddedFrames(pcm[j..]);
    } else {
      assert pcm[i..|pcm|] == s;
    }
  }

  lemma {:induction false} NoneLeft(made: seq<Frame>, pcm: seq<byte>)
    ensures made + PaddedFrames(pcm[|pcm|..]) == made
  {
    assert PaddedFrames(pcm[|pcm|..]) == [];
  }
}
