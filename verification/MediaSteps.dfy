/**
  The objects of the two processes take the steps of the media path: what a method leaves in an object is
  what the step leaves on the path.
 */
module MediaSteps {
  import opened Common
  import opened FrameCodec
  import DropOldest
  import opened AudioOut
  import opened MediaPath
  import AudioBridge

  /** The worker's side of the path. */
  ghost predicate WorkerShows(o: AudioOutPipeline, p: Path)
    reads o
  {
    && o.out == Playout(p.workerQueue, |p.droppedByWorker|) && |p.workerQueue| <= FRAMES_OUT_MAX
    && o.leftover == p.leftover && o.cancelEvent == p.cancelEvent && o.stopEvent == p.stopEvent
  }

  method TakesChunk(o: AudioOutPipeline, ghost p: Path, bytes: seq<byte>) returns (cancelled: bool)
    requires WorkerShows(o, p) && p.streaming && |p.leftover| < PCM_FRAME_BYTES
    modifies o
    ensures WorkerShows(o, Apply(p, Chunk(bytes))) && cancelled == !Apply(p, Chunk(bytes)).streaming
  {
    hide WholeFrames, Remainder, DropOldest.Newest, DropOldest.Shed;
    cancelled := o.TakeChunk(bytes);
  }

  method BeginsStream(o: AudioOutPipeline, ghost p: Path)
    requires WorkerShows(o, p) && !p.streaming && !p.stopEvent
    modifies o
    ensures WorkerShows(o, Apply(p, Begin))
  {
    o.BeginRequest();
  }

  /** The barge-in monitor: sets the cancel event and empties the queue. */
  method BargesIn(o: AudioOutPipeline, ghost p: Path)
    requires WorkerShows(o, p)
    modifies o
    ensures WorkerShows(o, Apply(p, BargeIn))
  {
    o.cancelEvent := true;
    while o.out.queue != []
      invariant o.out.drops == |p.droppedByWorker| && |o.out.queue| <= FRAMES_OUT_MAX
      invariant o.leftover == p.leftover && o.cancelEvent && o.stopEvent == p.stopEvent
      decreases |o.out.queue|
    {
      o.out := o.out.(queue := o.out.queue[1..]);
    }
  }

  method EndsStream(o: AudioOutPipeline, ghost p: Path, end: StreamEnd)
    requires WorkerShows(o, p) && p.streaming && |p.leftover| < PCM_FRAME_BYTES
    modifies o
    ensures WorkerShows(o, Apply(p, if end == Finished then End else Fail))
  {
    hide LastFrame, DropOldest.Newest, DropOldest.Shed;
    NothingOffered(o.out.queue);
    o.EndStream(end, false);
  }

  lemma {:induction false} NothingOffered(queue: seq<Frame>)
    requires |queue| <= FRAMES_OUT_MAX
    ensures DropOldest.Newest(queue + [], FRAMES_OUT_MAX) == queue && DropOldest.Shed(queue + [], FRAMES_OUT_MAX) == []
  {
    assert queue + [] == queue;
  }

  /** A request with pre-rendered audio: `run` clears the cancel event first. */
  method SpeaksClip(o: AudioOutPipeline, ghost p: Path, pcm: seq<byte>)
    requires WorkerShows(o, p) && !p.streaming && !p.stopEvent
    modifies o
    ensures WorkerShows(o, Apply(p, Speak(pcm)))
  {
    hide PaddedFrames, DropOldest.Newest, DropOldest.Shed;
    o.cancelEvent := false;
    o.EnqueueAudioBytes(pcm);
  }

  /** The SIP service's side of the path. */
  ghost predicate BridgeShows(b: AudioBridge.AudioBridge, p: Path)
    reads b
  {
    b.outbound == p.bridgeQueue && |b.outbound| <= AudioBridge.QUEUE_MAX_FRAMES
  }

  /** What PJSIP plays in a tick is the frame played on the path, or silence when there is none. */
  method PlaysTick(b: AudioBridge.AudioBridge, ghost p: Path) returns (frame: seq<byte>)
    requires BridgeShows(b, p)
    modifies b
    ensures BridgeShows(b, Apply(p, Tick))
    ensures Apply(p, Tick).played == if p.bridgeQueue == [] then p.played else p.played + [frame]
    ensures p.bridgeQueue == [] ==> frame == AudioBridge.SILENCE_FRAME
  {
    frame := b.DequeueOutbound();
    assert p.bridgeQueue != [] ==> ([frame] + b.outbound)[0] == frame && ([frame] + b.outbound)[1..] == b.outbound;
  }

  /** The `recv` that completes the first frame in flight lets the reader thread handle exactly that frame. */
  method HandlesArrival(b: AudioBridge.AudioBridge, ghost p: Path, ghost limit: nat, frame: Frame)
    requires BridgeShows(b, p) && WireInv(p) && p.inFlight != [] && frame == p.inFlight[0] && frame != []
    requires Apply(p, Receive(limit)).inFlight != p.inFlight
    modifies b
    ensures BridgeShows(b, Apply(p, Receive(limit)))
    ensures b.dropped == old(b.dropped) + |Apply(p, Receive(limit)).droppedByBridge| - |p.droppedByBridge|
    ensures b.workerHangups == old(b.workerHangups) && b.dtmf == old(b.dtmf)
  {
    hide WireInv, DropOldest.Newest, DropOldest.Shed, Recv, AudioBridge.PayloadsOf;
    RecvCases(p, limit);
    ArrivalOffered(b.outbound, frame);
    var hangup := b.HandleFrame(WireFrame(FRAME_AUDIO_OUT, frame));
    assert b.dtmf == old(b.dtmf) + [];
  }

  lemma {:induction false} ArrivalOffered(queue: seq<seq<byte>>, frame: Frame)
    requires |queue| <= AudioBridge.QUEUE_MAX_FRAMES && frame != []
    ensures var f, offered := WireFrame(FRAME_AUDIO_OUT, frame), queue + [frame];
            && AudioBridge.Kept(queue, [f]) == DropOldest.Newest(offered, AudioBridge.QUEUE_MAX_FRAMES)
            && AudioBridge.Lost(queue, [f]) == |DropOldest.Shed(offered, AudioBridge.QUEUE_MAX_FRAMES)|
            && AudioBridge.PayloadsOf([f], FRAME_DTMF) == []
  {
    AudioBridge.OfferOne(queue, WireFrame(FRAME_AUDIO_OUT, frame));
  }
}
