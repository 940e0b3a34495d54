/**
  The whole audio path of a call, from the TTS byte stream to the frames popped for the caller: two
  processes, two drop-oldest queues, a barge-in drain and a byte stream in between, run as arbitrarily
  interleaved steps.
 */
module MediaPath {
  import opened Common
  import opened FrameCodec
  import opened DropOldest
  import opened AudioOut
  import AudioBridge

  /** One speech request: the bytes taken from it, and whether its end was reached (so its tail was padded). */
  datatype Utterance = Utterance(bytes: seq<byte>, complete: bool)

  datatype Path = Path(
    // worker: AudioOutPipeline and the barge-in monitor
    finished: seq<Utterance>,
    streaming: bool,
    taken: seq<byte>,
    leftover: seq<byte>,
    cancelEvent: bool,
    stopEvent: bool,
    workerQueue: seq<Frame>,
    // worker: _sip_write_loop, between taking a frame and writing it
    hand: seq<Frame>,
    // the unix socket, and what recv_exact has read of the current frame
    wire: seq<byte>,
    received: seq<byte>,
    // SIP service
    bridgeQueue: seq<Frame>,
    // what became of the frames
    inFlight: seq<Frame>,
    played: seq<Frame>,
    droppedByWorker: seq<Frame>,
    droppedByBridge: seq<Frame>,
    drained: seq<Frame>)

  datatype Step =
    | Begin                     // a request is taken from speech_queue and its stream opened
    | Chunk(bytes: seq<byte>)   // one arrival on the TTS stream
    | End                       // the TTS stream ends
    | Fail                      // HTTP error, or a response other than 200
    | Speak(pcm: seq<byte>)     // a request with pre-rendered audio
    | Stop                      // AudioOutPipeline.stop
    | BargeIn                   // the caller interrupts
    | Take                      // _sip_write_loop gets a frame
    | Send                      // ... and writes it to the socket
    | Receive(limit: nat)       // one recv call of the bridge's reader thread
    | Tick                      // PJSIP asks for a frame to play

  const INITIAL := Path([], false, [], [], false, false, [], [], [], [], [], [], [], [], [], [])

  function FramesOf(u: Utterance): seq<Frame> {
    if u.complete then PaddedFrames(u.bytes) else WholeFrames(u.bytes)
  }

  function FramesOfAll(us: seq<Utterance>): seq<Frame> {
    if us == [] then [] else FramesOfAll(us[..|us|-1]) + FramesOf(us[|us|-1])
  }

  /** The 320-byte frames of everything taken from TTS so far, in order. */
  function Made(p: Path): seq<Frame> {
    FramesOfAll(p.finished) + (if p.streaming then WholeFrames(p.taken) else [])
  }

  function Enqueue(p: Path, frames: seq<Frame>): Path {
    var offered := p.workerQueue + frames;
    p.(workerQueue := Newest(offered, FRAMES_OUT_MAX),
       droppedByWorker := p.droppedByWorker + Shed(offered, FRAMES_OUT_MAX))
  }

  function Finish(p: Path, complete: bool): Path {
    p.(finished := p.finished + [Utterance(p.taken, complete)], streaming := false, taken := [])
  }

  /** How many bytes `read_frame` still asks for, given what it has of the current frame. */
  function Wanted(received: seq<byte>): int {
    (if |received| < 5 then 5 else 5 + BodyLength(received)) - |received|
  }

  /** One `recv`, and the enqueue when it completes a frame. */
  function Recv(p: Path, limit: nat): Path {
    var n := Max(0, Min(Min(Max(1, limit), Wanted(p.received)), |p.wire|));
    var got := p.(received := p.received + p.wire[..n], wire := p.wire[n..]);
    if |got.received| < 5 || Wanted(got.received) > 0 then got
    else
      var done := got.(received := [], inFlight := if got.inFlight == [] then [] else got.inFlight[1..]);
      if got.received[4] != FRAME_AUDIO_OUT || got.received[5..] == [] then done
      else
        var offered := done.bridgeQueue + [got.received[5..]];
        done.(bridgeQueue := Newest(offered, AudioBridge.QUEUE_MAX_FRAMES),
              droppedByBridge := done.droppedByBridge + Shed(offered, AudioBridge.QUEUE_MAX_FRAMES))
  }

  /** The effect of one step; a step that cannot happen now changes nothing. */
  function Apply(p: Path, step: Step): Path {
    match step
    case Begin =>
      if p.streaming || p.stopEvent then p
      else p.(cancelEvent := false, streaming := true, taken := [], leftover := [])
    case Chunk(bytes) =>
      if !p.streaming then p
      else if p.cancelEvent || p.stopEvent then Finish(p, false)
      else
        var pending := p.leftover + bytes;
        Enqueue(p, WholeFrames(pending)).(taken := p.taken + bytes, leftover := Remainder(pending))
    case End =>
      if !p.streaming || |p.leftover| >= PCM_FRAME_BYTES then p
      else Finish(Enqueue(p, LastFrame(p.leftover)), true)
    case Fail =>
      if !p.streaming then p else Finish(p, false)
    case Speak(pcm) =>
      if p.streaming || p.stopEvent then p
      else
        Enqueue(p, PaddedFrames(pcm)).(cancelEvent := false, finished := p.finished + [Utterance(pcm, true)])
    case Stop => p.(stopEvent := true)
    case BargeIn => p.(cancelEvent := true, drained := p.drained + p.workerQueue, workerQueue := [])
    case Take =>
      if p.hand != [] || p.workerQueue == [] then p
      else p.(hand := [p.workerQueue[0]], workerQueue := p.workerQueue[1..])
    case Send =>
      if p.hand == [] || !Encodable(WireFrame(FRAME_AUDIO_OUT, p.hand[0])) then p
      else p.(wire := p.wire + Encode(WireFrame(FRAME_AUDIO_OUT, p.hand[0])), inFlight := p.inFlight + p.hand, hand := [])
    case Receive(limit) => Recv(p, limit)
    case Tick =>
      if p.bridgeQueue == [] then p
      else p.(played := p.played + [p.bridgeQueue[0]], bridgeQueue := p.bridgeQueue[1..])
  }

  function Run(steps: seq<Step>): Path {
    if steps == [] then INITIAL else Apply(Run(steps[..|steps|-1]), steps[|steps|-1])
  }

  // ---------------------------------------------------------------------
  // Order and conservation of frames
  // ---------------------------------------------------------------------

  /** Every frame not given up, the one closest to the caller first. */
  function Live(p: Path): seq<Frame> {
    p.played + p.bridgeQueue + p.inFlight + p.hand + p.workerQueue
  }

  function GivenUp(p: Path): multiset<Frame> {
    multiset(p.droppedByWorker) + multiset(p.droppedByBridge) + multiset(p.drained)
  }

  /** The frames in `live` keep the order of `made`, and those in `lost` are exactly the others. */
  ghost predicate Accounted(made: seq<Frame>, live: seq<Frame>, lost: multiset<Frame>) {
    Subseq(live, made) && multiset(made) == multiset(live) + lost
  }

  lemma {:induction false} Gain(made: seq<Frame>, live: seq<Frame>, lost: multiset<Frame>, frames: seq<Frame>)
    requires Accounted(made, live, lost)
    ensures Accounted(made + frames, live + frames, lost)
  {
    SubseqAppend(live, made, frames);
  }

  lemma {:induction false} Lose(made: seq<Frame>, x: seq<Frame>, y: seq<Frame>, z: seq<Frame>, lost: multiset<Frame>)
    requires Accounted(made, x + y + z, lost)
    ensures Accounted(made, x + z, lost + multiset(y))
  {
    SubseqRemove(x, y, z, made);
  }

  // ---------------------------------------------------------------------
  // The byte stream between the processes
  // ---------------------------------------------------------------------

  function AsWire(frames: seq<Frame>): seq<WireFrame> {
    seq(|frames|, i requires 0 <= i < |frames| => WireFrame(FRAME_AUDIO_OUT, frames[i]))
  }

  ghost predicate AllPcm(frames: seq<Frame>) { forall f <- frames :: |f| == PCM_FRAME_BYTES }

  /** The socket holds exactly the encodings of the frames in flight, the first of them partly read. */
  ghost predicate OnWire(received: seq<byte>, wire: seq<byte>, inFlight: seq<Frame>) {
    && AllPcm(inFlight) && (forall w <- AsWire(inFlight) :: Encodable(w))
    && received + wire == EncodeAll(AsWire(inFlight))
    && |received| < 5 + PCM_FRAME_BYTES
  }

  ghost predicate WireInv(p: Path) { OnWire(p.received, p.wire, p.inFlight) }

  ghost predicate Fates(p: Path) {
    Accounted(Made(p), Live(p), GivenUp(p))
  }

  ghost predicate Inv(p: Path) {
    && |p.workerQueue| <= FRAMES_OUT_MAX && |p.bridgeQueue| <= AudioBridge.QUEUE_MAX_FRAMES && |p.hand| <= 1
    && (p.streaming ==> p.leftover == Remainder(p.taken))
    && WireInv(p)
    && Fates(p)
  }

  lemma {:induction false} MadeArePcm(us: seq<Utterance>)
    ensures AllPcm(FramesOfAll(us))
  {
    if us != [] {
      MadeArePcm(us[..|us|-1]);
      FramingIsLossless(us[|us|-1].bytes);
    }
  }

  lemma {:induction false} SubseqMembers<T>(a: seq<T>, b: seq<T>)
    requires Subseq(a, b)
    ensures forall x <- a :: x in b
    decreases |b|
  {
    if a != [] {
      if a[|a|-1] == b[|b|-1] && Subseq(a[..|a|-1], b[..|b|-1]) {
        SubseqMembers(a[..|a|-1], b[..|b|-1]);
        assert a == a[..|a|-1] + [a[|a|-1]];
      } else {
        SubseqMembers(a, b[..|b|-1]);
      }
    }
  }

  /** Every frame anywhere on the path is a 20 ms frame of 320 bytes. */
  lemma {:induction false} LiveArePcm(p: Path)
    requires Fates(p)
    ensures AllPcm(Live(p))
  {
    MadeArePcm(p.finished);
    FramingIsLossless(p.taken);
    SubseqMembers(Live(p), Made(p));
  }

  // ---------------------------------------------------------------------
  // Rearranging the five places of `Live`
  // ---------------------------------------------------------------------

  lemma {:induction false} FirstOfSecond<T>(a: seq<T>, b: seq<T>, c: seq<T>, d: seq<T>, e: seq<T>)
    requires b != []
    ensures a + [b[0]] + b[1..] + c + d + e == a + b + c + d + e
  {
  }

  lemma {:induction false} FourthToThird<T>(a: seq<T>, b: seq<T>, c: seq<T>, d: seq<T>, e: seq<T>)
    ensures a + b + (c + d) + [] + e == a + b + c + d + e
  {
  }

  lemma {:induction false} FirstOfFifth<T>(a: seq<T>, b: seq<T>, c: seq<T>, e: seq<T>)
    requires e != []
    ensures a + b + c + [e[0]] + e[1..] == a + b + c + [] + e
  {
  }

  lemma {:induction false} ExtendFifth<T>(front: seq<T>, e: seq<T>, more: seq<T>, shed: seq<T>, kept: seq<T>)
    requires shed + kept == e + more
    ensures front + e + more == front + shed + kept
  {
    assert front + e + more == front + (e + more);
  }

  lemma {:induction false} FirstOfThird<T>(a: seq<T>, b: seq<T>, c: seq<T>, d: seq<T>, e: seq<T>, shed: seq<T>, kept: seq<T>)
    requires c != [] && shed + kept == b + [c[0]]
    ensures a + b + c + d + e == a + shed + (kept + c[1..] + d + e)
    ensures a + kept + c[1..] + d + e == a + (kept + c[1..] + d + e)
  {
    assert b + c == b + [c[0]] + c[1..];
    assert a + b + c == a + (b + c);
  }

  // ---------------------------------------------------------------------
  // Every step keeps the fates of frames
  // ---------------------------------------------------------------------

  /** Nothing was made and nothing given up. */
  predicate SameEnds(p: Path, q: Path) {
    && q.finished == p.finished && q.streaming == p.streaming && q.taken == p.taken
    && q.droppedByWorker == p.droppedByWorker && q.droppedByBridge == p.droppedByBridge && q.drained == p.drained
  }

  lemma {:induction false} Moved(p: Path, q: Path)
    requires Fates(p) && SameEnds(p, q) && Live(q) == Live(p)
    ensures Fates(q)
  {
  }

  lemma {:induction false} MoveFates(p: Path, step: Step)
    requires Fates(p) && |p.hand| <= 1 && (step.Stop? || step.Take? || step.Send? || step.Tick?)
    ensures Fates(Apply(p, step))
  {
    hide Fates, Encode, Newest, Shed, Remainder;
    var q := Apply(p, step);
    if step.Take? && p.workerQueue != [] && p.hand == [] {
      FirstOfFifth(p.played, p.bridgeQueue, p.inFlight, p.workerQueue);
    } else if step.Tick? && p.bridgeQueue != [] {
      FirstOfSecond(p.played, p.bridgeQueue, p.inFlight, p.hand, p.workerQueue);
    } else if step.Send? {
      FourthToThird(p.played, p.bridgeQueue, p.inFlight, p.hand, p.workerQueue);
    }
    Moved(p, q);
  }

  lemma {:induction false} Drain(made: seq<Frame>, front: seq<Frame>, queue: seq<Frame>, lost: multiset<Frame>, drained: seq<Frame>)
    requires Accounted(made, front + queue, lost + multiset(drained))
    ensures Accounted(made, front + [], lost + multiset(drained + queue))
  {
    assert front + queue + [] == front + queue;
    Lose(made, front, queue, [], lost + multiset(drained));
    MultisetAppend(drained, queue);
    hide Accounted;
    assert lost + multiset(drained + queue) == lost + multiset(drained) + multiset(queue);
  }

  lemma {:induction false} BargeInFates(p: Path)
    requires Fates(p)
    ensures Fates(Apply(p, BargeIn))
  {
    hide Accounted, Newest, Shed, Remainder, WholeFrames, FramesOfAll;
    Drain(Made(p), p.played + p.bridgeQueue + p.inFlight + p.hand, p.workerQueue,
          multiset(p.droppedByWorker) + multiset(p.droppedByBridge), p.drained);
  }

  lemma {:induction false} MultisetAppend<T>(a: seq<T>, b: seq<T>)
    ensures multiset(a + b) == multiset(a) + multiset(b)
  {
  }

  lemma {:induction false} EnqueueFates(p: Path, frames: seq<Frame>)
    requires Fates(p)
    ensures var q := Enqueue(p, frames);
            |q.workerQueue| <= FRAMES_OUT_MAX && Accounted(Made(p) + frames, Live(q), GivenUp(q))
  {
    var front := p.played + p.bridgeQueue + p.inFlight + p.hand;
    var offered := p.workerQueue + frames;
    var shed, kept := Shed(offered, FRAMES_OUT_MAX), Newest(offered, FRAMES_OUT_MAX);
    ShedThenNewest(offered, FRAMES_OUT_MAX);
    Gain(Made(p), Live(p), GivenUp(p), frames);
    ExtendFifth(front, p.workerQueue, frames, shed, kept);
    Lose(Made(p) + frames, front, shed, kept, GivenUp(p));
    MultisetAppend(p.droppedByWorker, shed);
    hide Accounted, Shed, Newest, Made;
    assert GivenUp(Enqueue(p, frames)) == GivenUp(p) + multiset(shed);
  }

  /** `frames` were made, offered to the worker's queue, and nothing else happened. */
  lemma {:induction false} Offered(p: Path, frames: seq<Frame>, q: Path)
    requires Fates(p) && Made(q) == Made(p) + frames
    requires var e := Enqueue(p, frames); Live(q) == Live(e) && GivenUp(q) == GivenUp(e)
    ensures Fates(q)
  {
    EnqueueFates(p, frames);
    hide Accounted;
  }

  lemma {:induction false} DeliverFates(p: Path, q: Path)
    requires Fates(p) && p.inFlight != []
    requires var offered := p.bridgeQueue + [p.inFlight[0]];
             q == p.(received := [], wire := q.wire, inFlight := p.inFlight[1..],
                     bridgeQueue := Newest(offered, AudioBridge.QUEUE_MAX_FRAMES),
                     droppedByBridge := p.droppedByBridge + Shed(offered, AudioBridge.QUEUE_MAX_FRAMES))
    ensures Fates(q)
  {
    var offered := p.bridgeQueue + [p.inFlight[0]];
    var shed, kept := Shed(offered, AudioBridge.QUEUE_MAX_FRAMES), Newest(offered, AudioBridge.QUEUE_MAX_FRAMES);
    ShedThenNewest(offered, AudioBridge.QUEUE_MAX_FRAMES);
    FirstOfThird(p.played, p.bridgeQueue, p.inFlight, p.hand, p.workerQueue, shed, kept);
    var back := kept + p.inFlight[1..] + p.hand + p.workerQueue;
    Lose(Made(p), p.played, shed, back, GivenUp(p));
    MultisetAppend(p.droppedByBridge, shed);
    hide Accounted, Newest, Shed;
    assert GivenUp(q) == GivenUp(p) + multiset(shed);
    assert Made(q) == Made(p);
  }

  // ---------------------------------------------------------------------
  // Speech requests
  // ---------------------------------------------------------------------

  lemma {:induction false} FramesOfAllSnoc(us: seq<Utterance>, u: Utterance)
    ensures FramesOfAll(us + [u]) == FramesOfAll(us) + FramesOf(u)
  {
    assert (us + [u])[..|us + [u]| - 1] == us;
  }

  /** A request that ends adds the frames of its tail, if it was padded, and changes nothing else. */
  lemma {:induction false} FinishMakes(p: Path, complete: bool)
    requires p.streaming && p.leftover == Remainder(p.taken)
    ensures Made(Finish(p, complete)) == Made(p) + (if complete then LastFrame(p.leftover) else [])
  {
    FramesOfAllSnoc(p.finished, Utterance(p.taken, complete));
    hide FramesOfAll, WholeFrames, Remainder, LastFrame;
    assert FramesOfAll(p.finished) + WholeFrames(p.taken) + [] == FramesOfAll(p.finished) + WholeFrames(p.taken);
  }

  lemma {:induction false} FinishFates(p: Path, complete: bool)
    requires Fates(p) && p.streaming && p.leftover == Remainder(p.taken)
    ensures Fates(Finish(if complete then Enqueue(p, LastFrame(p.leftover)) else p, complete))
  {
    FinishMakes(p, complete);
    if complete {
      var e := Enqueue(p, LastFrame(p.leftover));
      FinishMakes(e, true);
      hide LastFrame, Newest, Shed, Accounted;
      assert Made(e) == Made(p);
      Offered(p, LastFrame(p.leftover), Finish(e, true));
    } else {
      hide Accounted;
      assert Live(Finish(p, false)) == Live(p) && GivenUp(Finish(p, false)) == GivenUp(p);
      assert Made(p) + [] == Made(p);
    }
  }

  lemma {:induction false} MoreWhole(before: seq<Frame>, taken: seq<byte>, bytes: seq<byte>)
    ensures before + WholeFrames(taken + bytes) == before + WholeFrames(taken) + WholeFrames(Remainder(taken) + bytes)
  {
    FramingAppend(taken, bytes);
  }

  lemma {:induction false} ChunkFates(p: Path, bytes: seq<byte>)
    requires Fates(p) && (p.streaming ==> p.leftover == Remainder(p.taken))
    ensures Fates(Apply(p, Chunk(bytes)))
  {
    if p.streaming && !p.cancelEvent && !p.stopEvent {
      MoreWhole(FramesOfAll(p.finished), p.taken, bytes);
      hide Fates, Newest, Shed, WholeFrames, Remainder, FramesOfAll;
      Offered(p, WholeFrames(p.leftover + bytes), Apply(p, Chunk(bytes)));
    } else if p.streaming {
      FinishFates(p, false);
    }
  }

  lemma {:induction false} BeginFates(p: Path)
    requires Fates(p)
    ensures Fates(Apply(p, Begin))
  {
    if !p.streaming && !p.stopEvent {
      assert WholeFrames([]) == [];
      hide Accounted, WholeFrames, FramesOfAll;
      assert Made(Apply(p, Begin)) == Made(p);
    }
  }

  lemma {:induction false} NothingElse<T>(a: seq<T>, b: seq<T>)
    ensures a + b + [] == a + [] + b
  {
  }

  lemma {:induction false} SpeakFates(p: Path, pcm: seq<byte>)
    requires Fates(p)
    ensures Fates(Apply(p, Speak(pcm)))
  {
    hide Fates, Newest, Shed, PaddedFrames, FramesOfAll, WholeFrames, LastFrame, Remainder, Recv, Encode;
    if !p.streaming && !p.stopEvent {
      FramesOfAllSnoc(p.finished, Utterance(pcm, true));
      NothingElse(FramesOfAll(p.finished), PaddedFrames(pcm));
      Offered(p, PaddedFrames(pcm), Apply(p, Speak(pcm)));
    }
  }

  // ---------------------------------------------------------------------
  // The byte stream
  // ---------------------------------------------------------------------

  lemma {:induction false} HandIsPcm(p: Path)
    requires Fates(p) && p.hand != []
    ensures |p.hand[0]| == PCM_FRAME_BYTES
  {
    LiveArePcm(p);
    hide Fates;
    var front := p.played + p.bridgeQueue + p.inFlight;
    assert Live(p)[|front|] == p.hand[0];
  }

  lemma {:induction false} SendWire(received: seq<byte>, wire: seq<byte>, inFlight: seq<Frame>, hand: seq<Frame>)
    requires OnWire(received, wire, inFlight) && |hand| == 1 && |hand[0]| == PCM_FRAME_BYTES
    ensures Encodable(WireFrame(FRAME_AUDIO_OUT, hand[0]))
    ensures OnWire(received, wire + Encode(WireFrame(FRAME_AUDIO_OUT, hand[0])), inFlight + hand)
  {
    var f := WireFrame(FRAME_AUDIO_OUT, hand[0]);
    assert AsWire(inFlight + hand) == AsWire(inFlight) + [f];
    EncodeAllAppend(AsWire(inFlight), [f]);
    assert EncodeAll([f]) == Encode(f) + EncodeAll([]);
    hide AsWire, EncodeAll, Encode;
    assert Encode(f) + [] == Encode(f);
    assert received + (wire + Encode(f)) == received + wire + Encode(f);
  }

  /** What `recv_exact` holds is a prefix of the first frame in flight. */
  lemma {:induction false} FirstInFlight(inFlight: seq<Frame>)
    requires inFlight != [] && AllPcm(inFlight) && (forall w <- AsWire(inFlight) :: Encodable(w))
    ensures AllPcm(inFlight[1..]) && (forall w <- AsWire(inFlight[1..]) :: Encodable(w))
    ensures Encodable(WireFrame(FRAME_AUDIO_OUT, inFlight[0]))
    ensures var first := Encode(WireFrame(FRAME_AUDIO_OUT, inFlight[0]));
            && |first| == 5 + PCM_FRAME_BYTES && BodyLength(first) == PCM_FRAME_BYTES
            && first[4] == FRAME_AUDIO_OUT && first[5..] == inFlight[0] && inFlight[0] != []
            && EncodeAll(AsWire(inFlight)) == first + EncodeAll(AsWire(inFlight[1..]))
  {
    var f, fs := WireFrame(FRAME_AUDIO_OUT, inFlight[0]), AsWire(inFlight);
    assert fs[0] == f && fs[1..] == AsWire(inFlight[1..]);
    assert f in fs && inFlight[0] in inFlight;
    assert forall w <- AsWire(inFlight[1..]) :: w in fs[1..] && w in fs;
    FirstFrameOfEncoded(f, []);
    assert Encode(f) + [] == Encode(f);
  }

  lemma {:induction false} SameHeaderSameLength(a: seq<byte>, b: seq<byte>)
    requires 5 <= |a| <= |b| && a == b[..|a|]
    ensures BodyLength(a) == BodyLength(b)
  {
  }

  /** Reading `n` more bytes of `first + rest`, of which `received` was read before. */
  lemma {:induction false} ReadOn(received: seq<byte>, wire: seq<byte>, first: seq<byte>, rest: seq<byte>, n: nat)
    requires received + wire == first + rest && n <= |wire| && |received| + n <= |first|
    ensures received == first[..|received|]
    ensures received + wire[..n] == first[..|received| + n]
    ensures received + wire[..n] + wire[n..] == first + rest
    ensures |received| + n == |first| ==> wire[n..] == rest
  {
    var all := first + rest;
    assert received == all[..|received|];
    assert received + wire[..n] == all[..|received| + n];
    assert wire[n..] == all[|received| + n..];
  }

  /** `recv_exact` never asks for bytes beyond the first frame in flight, and what it has is a prefix of it. */
  lemma {:induction false} ReadWire(received: seq<byte>, wire: seq<byte>, inFlight: seq<Frame>, limit: nat)
    returns (n: nat)
    requires OnWire(received, wire, inFlight) && inFlight != []
    ensures n == Max(0, Min(Min(Max(1, limit), Wanted(received)), |wire|)) && n <= |wire|
    ensures var got := received + wire[..n];
            if |got| < 5 || Wanted(got) > 0 then OnWire(got, wire[n..], inFlight)
            else got[4] == FRAME_AUDIO_OUT && got[5..] == inFlight[0] != [] && OnWire([], wire[n..], inFlight[1..])
  {
    FirstInFlight(inFlight);
    var first, rest := Encode(WireFrame(FRAME_AUDIO_OUT, inFlight[0])), EncodeAll(AsWire(inFlight[1..]));
    ReadOn(received, wire, first, rest, 0);
    if |received| >= 5 {
      SameHeaderSameLength(received, first);
    }
    n := Max(0, Min(Min(Max(1, limit), Wanted(received)), |wire|));
    ReadOn(received, wire, first, rest, n);
    var got := received + wire[..n];
    if |got| >= 5 {
      SameHeaderSameLength(got, first);
    }
    hide Encode, EncodeAll, AsWire, BodyLength, AllPcm;
    if |got| == |first| {
      assert got == first;
      assert [] + rest == rest;
    }
  }

  /** One `recv` either reads on inside the first frame in flight, or completes it and hands it over whole. */
  lemma {:induction false} RecvCases(p: Path, limit: nat)
    requires WireInv(p)
    ensures p.inFlight == [] ==> Recv(p, limit) == p
    ensures p.inFlight != [] ==>
              var q, offered := Recv(p, limit), p.bridgeQueue + [p.inFlight[0]];
              && WireInv(q)
              && (|| q == p.(received := q.received, wire := q.wire)
                  || q == p.(received := [], wire := q.wire, inFlight := p.inFlight[1..],
                             bridgeQueue := Newest(offered, AudioBridge.QUEUE_MAX_FRAMES),
                             droppedByBridge := p.droppedByBridge + Shed(offered, AudioBridge.QUEUE_MAX_FRAMES)))
  {
    if p.inFlight == [] {
      assert p.received == [] && p.wire == [];
    } else {
      var n := ReadWire(p.received, p.wire, p.inFlight, limit);
      hide OnWire, Newest, Shed;
    }
  }

  lemma {:induction false} SendWireInv(p: Path)
    requires WireInv(p) && Fates(p) && |p.hand| <= 1
    ensures WireInv(Apply(p, Send))
  {
    hide Fates, OnWire, Encode, Newest, Shed, WholeFrames, PaddedFrames, LastFrame, Remainder, Recv;
    if p.hand != [] {
      HandIsPcm(p);
      SendWire(p.received, p.wire, p.inFlight, p.hand);
    }
  }

  // ---------------------------------------------------------------------
  // Every step keeps the invariant
  // ---------------------------------------------------------------------

  lemma {:induction false} SameWire(p: Path, q: Path)
    requires WireInv(p) && q.inFlight == p.inFlight && q.received == p.received && q.wire == p.wire
    ensures WireInv(q)
  {
  }

  lemma {:induction false} ApplyKeeps(p: Path, step: Step)
    requires Inv(p)
    ensures Inv(Apply(p, step))
  {
    hide WireInv, Fates, Recv, Newest, Shed, WholeFrames, PaddedFrames, LastFrame, Encode;
    var q := Apply(p, step);
    if step.Receive? {
      RecvCases(p, step.limit);
      if p.inFlight != [] && q.inFlight != p.inFlight {
        DeliverFates(p, q);
      } else {
        Moved(p, q);
      }
    } else if step.Send? {
      SendWireInv(p);
      MoveFates(p, step);
    } else {
      SameWire(p, q);
      match step
      case Stop | Take | Tick => MoveFates(p, step);
      case BargeIn => BargeInFates(p);
      case Chunk(bytes) => ChunkFates(p, bytes); FramingAppend(p.taken, bytes);
      case Begin => BeginFates(p);
      case Speak(pcm) => SpeakFates(p, pcm);
      case End => if p.streaming { FinishFates(p, true); }
      case Fail => if p.streaming { FinishFates(p, false); }
    }
  }

  lemma {:induction false} RunKeeps(steps: seq<Step>)
    ensures Inv(Run(steps))
  {
    if steps != [] {
      RunKeeps(steps[..|steps|-1]);
      ApplyKeeps(Run(steps[..|steps|-1]), steps[|steps|-1]);
    }
  }

  // ---------------------------------------------------------------------
  // Main results
  // ---------------------------------------------------------------------

  /**
    Over every interleaving of TTS arrivals, overflows, barge-ins, socket reads and playout ticks: what
    the caller hears is an in-order selection of the 320-byte frames of the TTS streams, and every frame
    made was played, is queued or in flight, was dropped at one of the two queues, or was drained.
   */
  lemma {:induction false} PlayoutIsOrderedSelection(steps: seq<Step>)
    ensures var p := Run(steps);
            && Subseq(p.played, Made(p))
            && (forall f <- p.played :: |f| == PCM_FRAME_BYTES)
            && multiset(Made(p)) == multiset(p.played) + multiset(p.bridgeQueue) + multiset(p.inFlight)
                                  + multiset(p.hand) + multiset(p.workerQueue)
                                  + multiset(p.droppedByWorker) + multiset(p.droppedByBridge) + multiset(p.drained)
            && |Made(p)| == |p.played| + |p.bridgeQueue| + |p.inFlight| + |p.hand| + |p.workerQueue|
                          + |p.droppedByWorker| + |p.droppedByBridge| + |p.drained|
  {
    RunKeeps(steps);
    var p := Run(steps);
    LiveArePcm(p);
    var rest := p.bridgeQueue + p.inFlight + p.hand + p.workerQueue;
    FrontOfLive(p, rest);
    SubseqRemove(p.played, rest, [], Made(p));
    hide Subseq, Made, Run;
    assert |multiset(Made(p))| == |Made(p)|;
    assert |multiset(Live(p))| == |Live(p)|;
  }

  lemma {:induction false} FrontOfLive(p: Path, rest: seq<Frame>)
    requires rest == p.bridgeQueue + p.inFlight + p.hand + p.workerQueue
    ensures Live(p) == p.played + rest + [] && p.played + [] == p.played
    ensures forall f <- p.played :: f in Live(p)
  {
    assert Live(p) == p.played + rest;
  }

  /** At any moment the bytes in the socket decode to exactly the frames in flight. */
  lemma {:induction false} SocketDecodes(steps: seq<Step>)
    ensures var p := Run(steps); DecodeAll(p.received + p.wire) == AsWire(p.inFlight)
  {
    RunKeeps(steps);
    RoundTrip(AsWire(Run(steps).inFlight));
  }

  lemma {:induction false} SubseqOfSameLength<T>(a: seq<T>, b: seq<T>)
    requires Subseq(a, b)
    ensures |a| <= |b| && (|a| == |b| ==> a == b)
    decreases |b|
  {
    if a != [] {
      if a[|a|-1] == b[|b|-1] && Subseq(a[..|a|-1], b[..|b|-1]) {
        SubseqOfSameLength(a[..|a|-1], b[..|b|-1]);
        assert a == a[..|a|-1] + [a[|a|-1]] && b == b[..|b|-1] + [b[|b|-1]];
      } else {
        SubseqOfSameLength(a, b[..|b|-1]);
      }
    }
  }

  /** As long as neither queue overflowed and nobody interrupted, the path delays the speech but does not alter it. */
  lemma {:induction false} NothingGivenUpNothingAltered(steps: seq<Step>)
    ensures var p := Run(steps);
            p.droppedByWorker == p.droppedByBridge == p.drained == [] ==>
              p.played + p.bridgeQueue + p.inFlight + p.hand + p.workerQueue == Made(p)
  {
    RunKeeps(steps);
    PlayoutIsOrderedSelection(steps);
    var p := Run(steps);
    hide Run, Made, Subseq, WireInv;
    SubseqOfSameLength(Live(p), Made(p));
  }

  // ---------------------------------------------------------------------
  // After a barge-in
  // ---------------------------------------------------------------------

  function RunFrom(p: Path, steps: seq<Step>): Path {
    if steps == [] then p else Apply(RunFrom(p, steps[..|steps|-1]), steps[|steps|-1])
  }

  /** The path without its history: what the next steps can depend on, and what has been played. */
  function Observed(p: Path): Path {
    p.(finished := [], taken := [], droppedByWorker := [], droppedByBridge := [], drained := [])
  }

  /** The same path, as if the frames on it were all that was ever made. */
  function Reborn(p: Path): Path {
    p.(finished := [Utterance(Flatten(Live(p)), false)], taken := p.leftover,
       droppedByWorker := [], droppedByBridge := [], drained := [])
  }

  lemma {:induction false} ObservedStep(p: Path, q: Path, step: Step)
    requires Observed(p) == Observed(q)
    ensures Observed(Apply(p, step)) == Observed(Apply(q, step))
  {
    hide Newest, Shed, WholeFrames, PaddedFrames, LastFrame, Encode, Remainder, Wanted, Recv;
    if step.Receive? {
      ObservedRecv(p, q, step.limit);
    }
  }

  lemma {:induction false} ObservedRecv(p: Path, q: Path, limit: nat)
    requires Observed(p) == Observed(q)
    ensures Observed(Recv(p, limit)) == Observed(Recv(q, limit))
  {
    hide Newest, Shed, Wanted, Max, Min;
    assert p.received == q.received && p.wire == q.wire && p.inFlight == q.inFlight && p.bridgeQueue == q.bridgeQueue;
  }

  lemma {:induction false} ObservedRun(p: Path, q: Path, steps: seq<Step>)
    requires Observed(p) == Observed(q)
    ensures Observed(RunFrom(p, steps)) == Observed(RunFrom(q, steps))
  {
    hide Apply, Observed;
    if steps != [] {
      ObservedRun(p, q, steps[..|steps|-1]);
      ObservedStep(RunFrom(p, steps[..|steps|-1]), RunFrom(q, steps[..|steps|-1]), steps[|steps|-1]);
    }
  }

  lemma {:induction false} RunFromKeeps(p: Path, steps: seq<Step>)
    requires Inv(p)
    ensures Inv(RunFrom(p, steps))
  {
    hide Apply, Inv;
    if steps != [] {
      RunFromKeeps(p, steps[..|steps|-1]);
      ApplyKeeps(RunFrom(p, steps[..|steps|-1]), steps[|steps|-1]);
    }
  }

  lemma {:induction false} WholeAgain(frames: seq<Frame>)
    requires AllPcm(frames)
    ensures WholeFrames(Flatten(frames)) == frames
  {
    if frames != [] {
      WholeAgain(frames[1..]);
      var first, rest := frames[0], Flatten(frames[1..]);
      assert (first + rest)[..PCM_FRAME_BYTES] == first && (first + rest)[PCM_FRAME_BYTES..] == rest;
    }
  }

  /** The tail that a TTS stream still open may add: its incomplete frame, padded. */
  function OpenTail(p: Path): seq<Frame> {
    if p.streaming && |p.leftover| < PCM_FRAME_BYTES then LastFrame(p.leftover) else []
  }

  lemma {:induction false} MadeReborn(p: Path)
    requires AllPcm(Live(p)) && (p.streaming ==> |p.leftover| < PCM_FRAME_BYTES)
    ensures Made(Reborn(p)) == Live(p)
  {
    hide Live, WholeFrames, PaddedFrames;
    WholeAgain(Live(p));
    OneUtterance(Utterance(Flatten(Live(p)), false));
    if p.streaming {
      NoWholeFrame(p.leftover);
    }
    assert Live(p) + [] == Live(p);
  }

  lemma {:induction false} OneUtterance(u: Utterance)
    ensures FramesOfAll([u]) == FramesOf(u)
  {
    hide FramesOf;
    var us := [u];
    assert us[..0] == [] && FramesOfAll(us[..0]) == [];
    assert [] + FramesOf(u) == FramesOf(u);
  }

  lemma {:induction false} RebornFates(p: Path)
    requires Made(Reborn(p)) == Live(p)
    ensures Fates(Reborn(p))
  {
    hide Made;
    assert Live(Reborn(p)) == Live(p);
    SubseqRefl(Live(p));
    hide Live, Subseq;
  }

  lemma {:induction false} RebornIsSound(p: Path)
    requires Inv(p)
    ensures Inv(Reborn(p)) && Made(Reborn(p)) == Live(p)
  {
    hide WireInv, Fates, WholeFrames, Made, Live, Remainder;
    LiveArePcm(p);
    CutFacts(p);
    MadeReborn(p);
    RebornFates(p);
    if p.streaming {
      NoWholeFrame(p.leftover);
    }
    SameWire(p, Reborn(p));
  }

  lemma {:induction false} NoWholeFrame(s: seq<byte>)
    requires |s| < PCM_FRAME_BYTES
    ensures WholeFrames(s) == [] && Remainder(s) == s && PaddedFrames(s) == LastFrame(s)
  {
    assert [] + LastFrame(s) == LastFrame(s);
  }

  predicate StartsSpeech(step: Step) { step.Begin? || step.Speak? }

  /** From a path whose stream has not given a whole frame, with the cancel event set: at most the tail is still made. */
  ghost predicate Silenced(p: Path, q: Path) {
    && q.cancelEvent
    && (q.streaming ==> p.streaming && q.finished == p.finished && q.taken == p.taken && q.leftover == p.leftover)
    && (!q.streaming ==> Made(q) == Made(p) || Made(q) == Made(p) + OpenTail(p))
  }

  lemma {:induction false} SilencedStep(p: Path, q: Path, step: Step)
    requires Silenced(p, q) && !StartsSpeech(step) && p.taken == p.leftover && (p.streaming ==> |p.leftover| < PCM_FRAME_BYTES)
    ensures Silenced(p, Apply(q, step))
  {
    hide Recv, Encode, Newest, Shed, WholeFrames, PaddedFrames, LastFrame;
    if q.streaming && (step.Chunk? || step.Fail? || step.End?) {
      NoWholeFrame(p.leftover);
      FramesOfAllSnoc(p.finished, Utterance(p.taken, step.End?));
      assert FramesOfAll(p.finished) + [] == FramesOfAll(p.finished);
    } else if step.Receive? {
      RecvMakesNothing(q, step.limit);
    }
  }

  lemma {:induction false} RecvMakesNothing(p: Path, limit: nat)
    ensures var q := Recv(p, limit);
            && q.cancelEvent == p.cancelEvent && q.streaming == p.streaming && q.finished == p.finished
            && q.taken == p.taken && q.leftover == p.leftover
  {
    hide Newest, Shed, Wanted;
  }

  lemma {:induction false} SilencedRun(p: Path, steps: seq<Step>)
    requires p.cancelEvent && p.taken == p.leftover && (p.streaming ==> |p.leftover| < PCM_FRAME_BYTES)
    requires forall step <- steps :: !StartsSpeech(step)
    ensures Silenced(p, RunFrom(p, steps))
  {
    hide Apply, StartsSpeech;
    if steps != [] {
      var init := steps[..|steps|-1];
      assert forall step <- init :: step in steps;
      SilencedRun(p, init);
      SilencedStep(p, RunFrom(p, init), steps[|steps|-1]);
    }
  }

  /**
    After a barge-in and until the next speech begins, the caller hears nothing but what had already
    left the worker's queue, in order, and at most one more frame: the padded tail of the stream, which is
    still sent if the stream ends without another chunk.
   */
  lemma {:induction false} BargeInCutsSpeech(before: seq<Step>, after: seq<Step>)
    requires forall step <- after :: !StartsSpeech(step)
    ensures var p := Apply(Run(before), BargeIn);
            var q := RunFrom(p, after);
            Subseq(q.played, p.played + p.bridgeQueue + p.inFlight + p.hand + OpenTail(p))
  {
    hide Inv, Run, Silenced, RunFrom, StartsSpeech, LastFrame;
    var p := Apply(Run(before), BargeIn);
    var q := RunFrom(p, after);
    RunKeeps(before);
    ApplyKeeps(Run(before), BargeIn);
    CutFacts(p);
    var r, s := Reborn(p), RunFrom(Reborn(p), after);
    RebornIsSound(p);
    SilencedRun(r, after);
    RunFromKeeps(r, after);
    ObservedRun(p, r, after);
    PlayedOfMade(p, r, s);
    assert s.played == q.played;
  }

  lemma {:induction false} CutFacts(p: Path)
    requires Inv(p)
    ensures p.streaming ==> |p.leftover| < PCM_FRAME_BYTES
  {
  }

  lemma {:induction false} MadeOrTail(p: Path, r: Path, s: Path)
    requires r == Reborn(p) && Silenced(r, s) && Made(r) == Live(p)
    ensures Made(s) == Live(p) || Made(s) == Live(p) + OpenTail(p)
  {
    hide LastFrame, WholeFrames, Live, FramesOfAll;
  }

  lemma {:induction false} FirstPart<T>(played: seq<T>, rest: seq<T>, made: seq<T>, front: seq<T>, tail: seq<T>)
    requires Subseq(played + rest, made) && (made == front || made == front + tail)
    ensures Subseq(played, front + tail)
  {
    hide Subseq;
    assert played + rest + [] == played + rest && played + [] == played;
    SubseqRemove(played, rest, [], made);
    if made == front {
      SubseqExtend(played, front, tail);
    }
  }

  lemma {:induction false} PlayedOfMade(p: Path, r: Path, s: Path)
    requires r == Reborn(p) && Inv(s) && Silenced(r, s) && Made(r) == Live(p) && p.workerQueue == []
    ensures Subseq(s.played, p.played + p.bridgeQueue + p.inFlight + p.hand + OpenTail(p))
  {
    hide WireInv, Subseq, Made, Reborn, Silenced, OpenTail;
    MadeOrTail(p, r, s);
    var front, rest := p.played + p.bridgeQueue + p.inFlight + p.hand, s.bridgeQueue + s.inFlight + s.hand + s.workerQueue;
    assert Live(p) == front;
    assert Live(s) == s.played + rest;
    FirstPart(s.played, rest, Made(s), front, OpenTail(p));
  }

  // ---------------------------------------------------------------------
  // When a barge-in silences at once
  // ---------------------------------------------------------------------

  lemma {:induction false} RunFromCons(p: Path, step: Step, rest: seq<Step>)
    ensures RunFrom(p, [step] + rest) == RunFrom(Apply(p, step), rest)
    decreases |rest|
  {
    hide Apply;
    var steps := [step] + rest;
    if rest == [] {
      assert steps[..0] == [] && steps == [step];
    } else {
      RunFromCons(p, step, rest[..|rest|-1]);
      assert steps[..|steps|-1] == [step] + rest[..|rest|-1];
    }
  }

  /** `after` makes the caller hear one more frame at least, with no new speech begun. */
  ghost predicate Heard(p: Path, after: seq<Step>) {
    |RunFrom(p, after).played| > |p.played| && forall step <- after :: !StartsSpeech(step)
  }

  lemma {:induction false} HeardLater(p: Path, step: Step, rest: seq<Step>)
    requires !StartsSpeech(step) && |Apply(p, step).played| >= |p.played| && Heard(Apply(p, step), rest)
    ensures Heard(p, [step] + rest)
  {
    hide Apply, StartsSpeech;
    RunFromCons(p, step, rest);
  }

  lemma {:induction false} HeardFromBridge(p: Path)
    requires p.bridgeQueue != []
    ensures Heard(p, [Tick])
  {
    RunFromCons(p, Tick, []);
    assert [Tick] + [] == [Tick];
    assert RunFrom(Apply(p, Tick), []) == Apply(p, Tick);
  }

  /** While a frame is in flight the reader thread still asks for bytes, and there are some. */
  lemma {:induction false} MoreToRead(received: seq<byte>, wire: seq<byte>, inFlight: seq<Frame>)
    requires OnWire(received, wire, inFlight) && inFlight != []
    ensures Wanted(received) > 0 && |wire| > 0
  {
    FirstInFlight(inFlight);
    var first, rest := Encode(WireFrame(FRAME_AUDIO_OUT, inFlight[0])), EncodeAll(AsWire(inFlight[1..]));
    ReadOn(received, wire, first, rest, 0);
    if |received| >= 5 {
      SameHeaderSameLength(received, first);
    }
    hide Encode, EncodeAll, AsWire, BodyLength, AllPcm;
  }

  lemma {:induction false} ReceiveProgress(p: Path)
    requires WireInv(p) && p.inFlight != []
    ensures var q := Recv(p, 1);
            q.bridgeQueue != [] || (q.inFlight == p.inFlight && |q.received| > |p.received|)
    ensures Recv(p, 1).played == p.played
  {
    MoreToRead(p.received, p.wire, p.inFlight);
    RecvCases(p, 1);
    hide OnWire, Wanted;
  }

  lemma {:induction false} HeardFromFlight(p: Path) returns (after: seq<Step>)
    requires Inv(p) && p.inFlight + p.bridgeQueue != []
    ensures Heard(p, after)
    decreases if p.bridgeQueue != [] then 0 else 5 + PCM_FRAME_BYTES - |p.received|
  {
    hide Heard, Recv, Fates, Apply;
    if p.bridgeQueue != [] {
      after := [Tick];
      HeardFromBridge(p);
    } else {
      var q := Apply(p, Receive(1));
      ReceiveOne(p);
      ReceiveProgress(p);
      ApplyKeeps(p, Receive(1));
      Bounded(p);
      Bounded(q);
      var rest := HeardFromFlight(q);
      HeardLater(p, Receive(1), rest);
      after := [Receive(1)] + rest;
    }
  }

  lemma {:induction false} ReceiveOne(p: Path)
    ensures Apply(p, Receive(1)) == Recv(p, 1)
  {
  }

  lemma {:induction false} Bounded(p: Path)
    requires Inv(p)
    ensures |p.received| < 5 + PCM_FRAME_BYTES
  {
  }

  lemma {:induction false} HandIsSent(p: Path)
    requires p.hand != [] && |p.hand[0]| == PCM_FRAME_BYTES
    ensures var q := Apply(p, Send); q.played == p.played && q.inFlight == p.inFlight + p.hand
  {
    hide Encode, Recv;
  }

  lemma {:induction false} HeardFromHand(p: Path) returns (after: seq<Step>)
    requires Inv(p) && p.hand != []
    ensures Heard(p, after)
  {
    hide Heard, Recv, Encode, Apply, Fates, WireInv;
    HandIsPcm(p);
    HandIsSent(p);
    ApplyKeeps(p, Send);
    var rest := HeardFromFlight(Apply(p, Send));
    HeardLater(p, Send, rest);
    after := [Send] + rest;
  }

  lemma {:induction false} TailIsQueued(p: Path)
    requires OpenTail(p) != [] && p.workerQueue == []
    ensures var q := Apply(p, End); q.played == p.played && q.hand == p.hand && q.workerQueue != []
  {
    hide Recv, PaddedFrames, WholeFrames, Pad;
    assert p.workerQueue + LastFrame(p.leftover) == LastFrame(p.leftover);
  }

  lemma {:induction false} QueuedIsTaken(p: Path)
    requires p.hand == [] && p.workerQueue != []
    ensures var q := Apply(p, Take); q.played == p.played && q.hand != []
  {
    hide Recv;
  }

  /** A stream that ends with an incomplete frame puts it, padded, into the empty queue, and from there into the hand. */
  lemma {:induction false} TailToHand(p: Path)
    requires Inv(p) && OpenTail(p) != [] && p.hand == [] && p.workerQueue == []
    ensures var q := Apply(Apply(p, End), Take);
            q.hand != [] && Inv(q) && q.played == p.played && Apply(p, End).played == p.played
  {
    hide Inv, Apply, OpenTail;
    ApplyKeeps(p, End);
    ApplyKeeps(Apply(p, End), Take);
    TailIsQueued(p);
    QueuedIsTaken(Apply(p, End));
  }

  lemma {:induction false} HeardFromTail(p: Path) returns (after: seq<Step>)
    requires Inv(p) && OpenTail(p) != [] && p.hand == [] && p.workerQueue == []
    ensures Heard(p, after)
  {
    hide Heard, Inv, Apply, OpenTail;
    TailToHand(p);
    var ended := Apply(p, End);
    var rest := HeardFromHand(Apply(ended, Take));
    HeardLater(ended, Take, rest);
    HeardLater(p, End, [Take] + rest);
    after := [End] + ([Take] + rest);
  }

  lemma {:induction false} PlayedGrows(p: Path, steps: seq<Step>)
    ensures |RunFrom(p, steps).played| >= |p.played|
    ensures RunFrom(p, steps).played[..|p.played|] == p.played
  {
    if steps != [] {
      PlayedGrows(p, steps[..|steps|-1]);
      hide RunFrom, Recv, Enqueue, Finish;
      PlayedByStep(RunFrom(p, steps[..|steps|-1]), steps[|steps|-1]);
    }
  }

  lemma {:induction false} PlayedByStep(p: Path, step: Step)
    ensures |Apply(p, step).played| >= |p.played| && Apply(p, step).played[..|p.played|] == p.played
  {
    hide Newest, Shed, Wanted, WholeFrames, PaddedFrames, LastFrame, Encode, Remainder, Max, Min;
  }

  /** Whatever happens before new speech begins, nothing more is played. */
  ghost predicate SilentFrom(p: Path) {
    forall after: seq<Step> | (forall step <- after :: !StartsSpeech(step)) :: RunFrom(p, after).played == p.played
  }

  /** What may still be heard after a barge-in. */
  function StillUnderway(p: Path): seq<Frame> { p.bridgeQueue + p.inFlight + p.hand + OpenTail(p) }

  lemma {:induction false} UnderwayIsHeard(p: Path) returns (after: seq<Step>)
    requires Inv(p) && p.workerQueue == [] && StillUnderway(p) != []
    ensures Heard(p, after)
  {
    hide Heard, Inv, OpenTail;
    if p.bridgeQueue + p.inFlight != [] {
      after := HeardFromFlight(p);
    } else if p.hand != [] {
      after := HeardFromHand(p);
    } else {
      after := HeardFromTail(p);
    }
  }

  /**
    A barge-in silences the path at once if and only if nothing had left the worker's queue and the
    stream has no incomplete frame; otherwise there is a continuation in which more is heard.
   */
  lemma {:induction false} BargeInSilencesExactly(before: seq<Step>)
    ensures var p := Apply(Run(before), BargeIn);
            SilentFrom(p) <==> StillUnderway(p) == []
  {
    hide Run, Inv, StartsSpeech, OpenTail;
    RunKeeps(before);
    ApplyKeeps(Run(before), BargeIn);
    var p := Apply(Run(before), BargeIn);
    if StillUnderway(p) != [] {
      var after := UnderwayIsHeard(p);
      assert RunFrom(p, after).played != p.played;
    } else {
      NothingUnderway(before);
    }
  }

  lemma {:induction false} NothingUnderway(before: seq<Step>)
    requires StillUnderway(Apply(Run(before), BargeIn)) == []
    ensures SilentFrom(Apply(Run(before), BargeIn))
  {
    hide Run, RunFrom, StartsSpeech, OpenTail, Subseq;
    var p := Apply(Run(before), BargeIn);
    forall after: seq<Step> | (forall step <- after :: !StartsSpeech(step))
      ensures RunFrom(p, after).played == p.played
    {
      BargeInCutsSpeech(before, after);
      PlayedGrows(p, after);
      assert p.played + p.bridgeQueue + p.inFlight + p.hand + OpenTail(p) == p.played;
      SubseqOfSameLength(RunFrom(p, after).played, p.played);
    }
  }

  // ---------------------------------------------------------------------
  // Speech that begins is made, and none is after a stop
  // ---------------------------------------------------------------------

  /** Steps that only move frames on. */
  predicate MovesOn(step: Step) { step.Take? || step.Send? || step.Receive? || step.Tick? }

  /** The bytes that arrive on the TTS stream, in order. */
  function BytesOf(steps: seq<Step>): seq<byte> {
    if steps == [] then []
    else BytesOf(steps[..|steps|-1]) + if steps[|steps|-1].Chunk? then steps[|steps|-1].bytes else []
  }

  /** A request begun on `p` is under way, having brought `taken` so far. */
  ghost predicate Speaking(p: Path, q: Path, taken: seq<byte>) {
    && q.streaming && !q.cancelEvent && !q.stopEvent && q.finished == p.finished
    && q.taken == taken && q.leftover == Remainder(taken)
  }

  lemma {:induction false} StillSpeaking(p: Path, q: Path, taken: seq<byte>, step: Step)
    requires Speaking(p, q, taken) && (step.Chunk? || MovesOn(step))
    ensures Speaking(p, Apply(q, step), taken + if step.Chunk? then step.bytes else [])
  {
    hide Recv, Encode, WholeFrames, Remainder, Newest, Shed;
    assert taken + [] == taken;
    if step.Chunk? {
      FramingAppend(taken, step.bytes);
    } else if step.Receive? {
      RecvMakesNothing(q, step.limit);
      RecvKeepsStop(q, step.limit);
    }
  }

  lemma {:induction false} RecvKeepsStop(p: Path, limit: nat)
    ensures Recv(p, limit).stopEvent == p.stopEvent
  {
    hide Newest, Shed, Wanted;
  }

  lemma {:induction false} SpeaksOn(p: Path, steps: seq<Step>)
    requires !p.streaming && !p.stopEvent && forall step <- steps :: step.Chunk? || MovesOn(step)
    ensures Speaking(p, RunFrom(Apply(p, Begin), steps), BytesOf(steps))
  {
    hide MovesOn;
    if steps == [] {
      FramingNothing();
    } else {
      var init := steps[..|steps|-1];
      assert forall step <- init :: step in steps;
      SpeaksOn(p, init);
      hide Apply, Speaking;
      StillSpeaking(p, RunFrom(Apply(p, Begin), init), BytesOf(init), steps[|steps|-1]);
    }
  }

  lemma {:induction false} EndMakesAll(p: Path, q: Path, taken: seq<byte>)
    requires !p.streaming && Speaking(p, q, taken)
    ensures Made(Apply(q, End)) == Made(p) + PaddedFrames(taken)
  {
    hide WholeFrames, PaddedFrames, LastFrame, Remainder, Newest, Shed;
    FramesOfAllSnoc(p.finished, Utterance(taken, true));
    assert FramesOfAll(p.finished) + [] == FramesOfAll(p.finished);
    var all := FramesOfAll(p.finished) + PaddedFrames(taken);
    assert all + [] == all;
  }

  /**
    Speech that begins while nothing speaks is made, whatever interrupted the speech before: exactly the
    padded frames of all bytes that arrive, however frames move on meanwhile.
   */
  lemma {:induction false} SpeechIsMade(p: Path, steps: seq<Step>)
    requires !p.streaming && !p.stopEvent && forall step <- steps :: step.Chunk? || MovesOn(step)
    ensures Made(Apply(RunFrom(Apply(p, Begin), steps), End)) == Made(p) + PaddedFrames(BytesOf(steps))
    ensures Made(Apply(RunFrom(Apply(Apply(p, BargeIn), Begin), steps), End)) == Made(p) + PaddedFrames(BytesOf(steps))
  {
    hide MovesOn, Speaking, RunFrom, PaddedFrames, FramesOfAll;
    SpeaksOn(p, steps);
    EndMakesAll(p, RunFrom(Apply(p, Begin), steps), BytesOf(steps));
    var q := Apply(p, BargeIn);
    assert Made(q) == Made(p);
    SpeaksOn(q, steps);
    EndMakesAll(q, RunFrom(Apply(q, Begin), steps), BytesOf(steps));
  }

  /** So is a clip. */
  lemma {:induction false} ClipIsMade(p: Path, pcm: seq<byte>)
    requires !p.streaming && !p.stopEvent
    ensures Made(Apply(p, Speak(pcm))) == Made(p) + PaddedFrames(pcm)
    ensures Made(Apply(Apply(p, BargeIn), Speak(pcm))) == Made(p) + PaddedFrames(pcm)
  {
    hide WholeFrames, PaddedFrames, Newest, Shed;
    FramesOfAllSnoc(p.finished, Utterance(pcm, true));
    assert FramesOfAll(p.finished) + [] == FramesOfAll(p.finished);
    var all := FramesOfAll(p.finished) + PaddedFrames(pcm);
    assert all + [] == all;
  }

  /** A stream that fails makes its whole frames only. */
  lemma {:induction false} FailedSpeechIsCut(p: Path, steps: seq<Step>)
    requires !p.streaming && !p.stopEvent && forall step <- steps :: step.Chunk? || MovesOn(step)
    ensures Made(Apply(RunFrom(Apply(p, Begin), steps), Fail)) == Made(p) + WholeFrames(BytesOf(steps))
  {
    hide MovesOn, RunFrom, WholeFrames, PaddedFrames, Remainder;
    SpeaksOn(p, steps);
    FramesOfAllSnoc(p.finished, Utterance(BytesOf(steps), false));
    assert FramesOfAll(p.finished) + [] == FramesOfAll(p.finished);
    var all := FramesOfAll(p.finished) + WholeFrames(BytesOf(steps));
    assert all + [] == all;
  }

  /** After a stop on `p`: at most the tail of the open stream is still made. */
  ghost predicate StoppedSince(p: Path, q: Path) {
    && q.stopEvent
    && (q.streaming ==> p.streaming && q.finished == p.finished && q.taken == p.taken && q.leftover == p.leftover)
    && (!q.streaming ==> Made(q) == Made(p) || Made(q) == Made(p) + OpenTail(p))
  }

  lemma {:induction false} StoppedStep(p: Path, q: Path, step: Step)
    requires StoppedSince(p, q) && (p.streaming ==> p.leftover == Remainder(p.taken))
    ensures StoppedSince(p, Apply(q, step))
  {
    hide Recv, Encode, Newest, Shed, WholeFrames, LastFrame, Remainder;
    if q.streaming && (step.Chunk? || step.Fail? || step.End?) {
      var u, front := Utterance(p.taken, step.End?), FramesOfAll(p.finished);
      FramesOfAllSnoc(p.finished, u);
      assert (front + FramesOf(u)) + [] == front + FramesOf(u);
      assert front + (WholeFrames(p.taken) + LastFrame(p.leftover)) == front + WholeFrames(p.taken) + LastFrame(p.leftover);
    } else if step.Receive? {
      RecvMakesNothing(q, step.limit);
      RecvKeepsStop(q, step.limit);
    }
  }

  /** Once the pipeline has been stopped nothing more is made, whatever is begun, but the tail of a stream still open. */
  lemma {:induction false} StopEndsSpeech(before: seq<Step>, after: seq<Step>)
    ensures var p := Apply(Run(before), Stop);
            var q := RunFrom(p, after);
            Made(q) == Made(p) || Made(q) == Made(p) + OpenTail(p)
    ensures StoppedSince(Apply(Run(before), Stop), RunFrom(Apply(Run(before), Stop), after))
  {
    var p := Apply(Run(before), Stop);
    RunKeeps(before);
    hide Run, Inv, WireInv, Fates;
    LeftoverOf(Run(before));
    if after != [] {
      StopEndsSpeech(before, after[..|after|-1]);
      hide Apply, StoppedSince;
      StoppedStep(p, RunFrom(p, after[..|after|-1]), after[|after|-1]);
      StoppedMade(p, RunFrom(p, after));
    }
  }

  lemma {:induction false} LeftoverOf(p: Path)
    requires Inv(p)
    ensures p.streaming ==> p.leftover == Remainder(p.taken)
  {
    hide WireInv, Fates;
  }

  lemma {:induction false} StoppedMade(p: Path, q: Path)
    requires StoppedSince(p, q)
    ensures Made(q) == Made(p) || Made(q) == Made(p) + OpenTail(p)
  {
    hide OpenTail, WholeFrames, FramesOfAll;
  }
}
