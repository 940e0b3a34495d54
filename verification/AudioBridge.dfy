/**
  The two readers of the framed protocol (blocking socket in the SIP service, stream reader in the
  worker) and the per-call audio bridge with its reader and writer loops.
 */
module AudioBridge {
  import opened Common
  import opened FrameCodec
  import opened DropOldest

  const QUEUE_MAX_FRAMES: nat := 50
  const SILENCE_FRAME: seq<byte> := seq(PCM_FRAME_BYTES, _ => 0)

  // ---------------------------------------------------------------------
  // Blocking socket: recv_exact and read_frame of the SIP service
  // ---------------------------------------------------------------------

  /** How one `recv` call goes: it hands over at most `limit` bytes, or raises OSError. */
  datatype Recv = Upto(limit: nat) | Fault

  predicate Faultless(script: seq<Recv>) { forall r <- script :: r.Upto? }

  /** The receiving end of a socket: the bytes the peer delivers before closing, and how they are cut. */
  class Socket {
    var pending: seq<byte>
    var script: seq<Recv>

    constructor (bytes: seq<byte>, cuts: seq<Recv>)
      ensures pending == bytes && script == cuts
    {
      pending, script := bytes, cuts;
    }

    /** `sock.recv(n)`: between one and `n` bytes, nothing at end of stream, None for OSError. */
    method Recv(n: nat) returns (chunk: Option<seq<byte>>)
      requires n > 0
      modifies this
      ensures Faultless(old(script)) ==> Faultless(script) && chunk.Some?
      ensures chunk.Some? ==> chunk.value + pending == old(pending) && |chunk.value| <= n
      ensures chunk.Some? ==> (chunk.value == [] <==> old(pending) == [])
    {
      var limit := n;
      if script != [] {
        var next := script[0];
        assert next in script;
        script := script[1..];
        if next.Fault? {
          return None;
        }
        limit := Max(1, Min(n, next.limit));
      }
      var k := Min(limit, |pending|);
      chunk := Some(pending[..k]);
      pending := pending[k..];
    }
  }

  method RecvExact(sock: Socket, n: nat) returns (r: Option<seq<byte>>)
    modifies sock
    ensures Faultless(old(sock.script)) ==> Faultless(sock.script)
    ensures Faultless(old(sock.script)) ==> (r.Some? <==> n <= |old(sock.pending)|)
    ensures r.Some? ==> |r.value| == n && r.value + sock.pending == old(sock.pending)
  {
    var buf: seq<byte> := [];
    while |buf| < n
      invariant |buf| <= n
      invariant buf + sock.pending == old(sock.pending)
      invariant Faultless(old(sock.script)) ==> Faultless(sock.script)
    {
      var chunk := sock.Recv(n - |buf|);
      if chunk.None? {
        return None;
      }
      if chunk.value == [] {
        return None;
      }
      buf := buf + chunk.value;
    }
    return Some(buf);
  }

  method ReadFrame(sock: Socket) returns (r: Option<WireFrame>)
    modifies sock
    ensures Faultless(old(sock.script)) ==> Faultless(sock.script) && r == FirstFrame(old(sock.pending))
    ensures r.Some? ==> r == FirstFrame(old(sock.pending))
    ensures r.Some? ==> sock.pending == old(sock.pending)[5 + BodyLength(old(sock.pending))..]
  {
    ghost var s := sock.pending;
    var header := RecvExact(sock, 5);
    if header.None? {
      return None;
    }
    assert header.value == s[..5] && sock.pending == s[5..];
    assert BodyLength(header.value) == BodyLength(s);
    var length, ftype := FromBigEndian32(header.value), header.value[4];
    var payload: seq<byte> := [];
    if length > 1 {
      var body := RecvExact(sock, length - 1);
      if body.None? {
        return None;
      }
      payload := body.value;
      assert payload == s[5..][..length - 1];
    }
    assert payload == s[5..5 + BodyLength(s)];
    return Some(WireFrame(ftype, payload));
  }

  /** Calling `read_frame` until it gives up returns the same frames however the bytes are fragmented. */
  method ReadAllFromSocket(sock: Socket) returns (frames: seq<WireFrame>)
    modifies sock
    ensures frames <= DecodeAll(old(sock.pending))
    ensures Faultless(old(sock.script)) ==> frames == DecodeAll(old(sock.pending))
  {
    frames := [];
    while true
      invariant frames + DecodeAll(sock.pending) == DecodeAll(old(sock.pending))
      invariant Faultless(old(sock.script)) ==> Faultless(sock.script)
      decreases |sock.pending|
    {
      var f := ReadFrame(sock);
      if f.None? {
        return;
      }
      frames := frames + [f.value];
    }
  }

  // ---------------------------------------------------------------------
  // asyncio.StreamReader: read_frame of the worker
  // ---------------------------------------------------------------------

  /** A stream reader: bytes buffered so far and the fragments that will still arrive before EOF. */
  class StreamReader {
    var buffer: seq<byte>
    var arriving: seq<seq<byte>>

    constructor (fragments: seq<seq<byte>>)
      ensures Remaining() == Flatten(fragments)
    {
      buffer, arriving := [], fragments;
    }

    ghost function Remaining(): seq<byte>
      reads this
    {
      buffer + Flatten(arriving)
    }

    /** `readexactly(n)`: None stands for IncompleteReadError, which also empties the buffer. */
    method ReadExactly(n: nat) returns (r: Option<seq<byte>>)
      modifies this
      ensures r.Some? <==> n <= |old(Remaining())|
      ensures r.Some? ==> |r.value| == n && r.value + Remaining() == old(Remaining())
      ensures r.None? ==> Remaining() == []
    {
      while |buffer| < n
        invariant Remaining() == old(Remaining())
        decreases |arriving|
      {
        if arriving == [] {
          buffer := [];
          return None;
        }
        assert buffer + Flatten(arriving) == buffer + arriving[0] + Flatten(arriving[1..]);
        buffer, arriving := buffer + arriving[0], arriving[1..];
      }
      r := Some(buffer[..n]);
      assert buffer[..n] + (buffer[n..] + Flatten(arriving)) == Remaining();
      buffer := buffer[n..];
    }

    method ReadFrame() returns (r: Option<WireFrame>)
      modifies this
      ensures r == FirstFrame(old(Remaining()))
      ensures r.Some? ==> Remaining() == old(Remaining())[5 + BodyLength(old(Remaining()))..]
    {
      ghost var s := Remaining();
      var header := ReadExactly(5);
      if header.None? {
        return None;
      }
      assert header.value == s[..5] && Remaining() == s[5..];
      assert BodyLength(header.value) == BodyLength(s);
      var length, ftype := FromBigEndian32(header.value), header.value[4];
      var payload: seq<byte> := [];
      if length > 1 {
        var body := ReadExactly(length - 1);
        if body.None? {
          return None;
        }
        payload := body.value;
        assert payload == s[5..][..length - 1];
      }
      assert payload == s[5..5 + BodyLength(s)];
      return Some(WireFrame(ftype, payload));
    }

    method ReadAll() returns (frames: seq<WireFrame>)
      modifies this
      ensures frames == DecodeAll(old(Remaining()))
    {
      frames := [];
      while true
        invariant frames + DecodeAll(Remaining()) == DecodeAll(old(Remaining()))
        decreases |Remaining()|
      {
        var f := ReadFrame();
        if f.None? {
          return;
        }
        frames := frames + [f.value];
      }
    }
  }

  /** Both readers give back exactly the frames that were encoded, for any fragmentation of the bytes. */
  method ReadersAgree(frames: seq<WireFrame>, cuts: seq<Recv>, fragments: seq<seq<byte>>)
    returns (bySocket: seq<WireFrame>, byStream: seq<WireFrame>)
    requires forall f <- frames :: Encodable(f)
    requires Faultless(cuts) && Flatten(fragments) == EncodeAll(frames)
    ensures bySocket == byStream == frames
  {
    var sock := new Socket(EncodeAll(frames), cuts);
    var reader := new StreamReader(fragments);
    RoundTrip(frames);
    bySocket := ReadAllFromSocket(sock);
    byStream := reader.ReadAll();
  }

  // ---------------------------------------------------------------------
  // AudioBridge
  // ---------------------------------------------------------------------

  /** The frames handled by the read loop: those before the first HANGUP. */
  function UntilHangup(fs: seq<WireFrame>): seq<WireFrame> {
    if fs == [] || fs[0].ftype == FRAME_HANGUP then [] else [fs[0]] + UntilHangup(fs[1..])
  }

  /** The non-empty payloads of the frames of one type, in order. */
  function PayloadsOf(fs: seq<WireFrame>, ftype: byte): seq<seq<byte>> {
    if fs == [] then []
    else
      (if fs[0].ftype == ftype && fs[0].payload != [] then [fs[0].payload] else [])
      + PayloadsOf(fs[1..], ftype)
  }

  lemma {:induction false} PayloadsAppend(a: seq<WireFrame>, b: seq<WireFrame>, ftype: byte)
    ensures PayloadsOf(a + b, ftype) == PayloadsOf(a, ftype) + PayloadsOf(b, ftype)
  {
    if a == [] {
      assert a + b == b;
    } else {
      assert (a + b)[1..] == a[1..] + b;
      PayloadsAppend(a[1..], b, ftype);
    }
  }

  /** The outbound queue after the audio of `fs` has been offered to the queue `q`. */
  function Kept(q: seq<seq<byte>>, fs: seq<WireFrame>): (r: seq<seq<byte>>)
    ensures |r| <= QUEUE_MAX_FRAMES
  {
    Newest(q + PayloadsOf(fs, FRAME_AUDIO_OUT), QUEUE_MAX_FRAMES)
  }

  /** How many frames were given up meanwhile. */
  function Lost(q: seq<seq<byte>>, fs: seq<WireFrame>): nat {
    |Shed(q + PayloadsOf(fs, FRAME_AUDIO_OUT), QUEUE_MAX_FRAMES)|
  }

  /** Handling frames one batch after the other is handling them together. */
  lemma {:induction false} OfferMore(q: seq<seq<byte>>, a: seq<WireFrame>, b: seq<WireFrame>)
    ensures Kept(Kept(q, a), b) == Kept(q, a + b)
    ensures Lost(q, a) + Lost(Kept(q, a), b) == Lost(q, a + b)
  {
    var before, more := q + PayloadsOf(a, FRAME_AUDIO_OUT), PayloadsOf(b, FRAME_AUDIO_OUT);
    PayloadsAppend(a, b, FRAME_AUDIO_OUT);
    assert before + more == q + PayloadsOf(a + b, FRAME_AUDIO_OUT);
    NewestAppend(before, more, QUEUE_MAX_FRAMES);
  }

  /** Only a non-empty AUDIO_OUT frame changes the queue, only a non-empty DTMF frame carries digits. */
  lemma {:induction false} OfferOne(q: seq<seq<byte>>, f: WireFrame)
    requires |q| <= QUEUE_MAX_FRAMES
    ensures f.ftype == FRAME_AUDIO_OUT && f.payload != [] ==>
              && Kept(q, [f]) == Newest(q + [f.payload], QUEUE_MAX_FRAMES)
              && Lost(q, [f]) == if |q| == QUEUE_MAX_FRAMES then 1 else 0
    ensures f.ftype != FRAME_AUDIO_OUT || f.payload == [] ==> Kept(q, [f]) == q && Lost(q, [f]) == 0
    ensures PayloadsOf([f], FRAME_DTMF) == if f.ftype == FRAME_DTMF && f.payload != [] then [f.payload] else []
  {
    assert PayloadsOf([f][1..], FRAME_AUDIO_OUT) == [] == PayloadsOf([f][1..], FRAME_DTMF);
    assert q + [] == q;
  }

  /** What the read loop and the PJSIP thread share: the outbound queue, the drop count, the digits reported, the frames taken to be played. */
  datatype Played = Played(queue: seq<seq<byte>>, dropped: nat, dtmf: seq<seq<byte>>, out: seq<seq<byte>>)

  /** What the other threads do during one blocking read: take frames to play them, and perhaps set the shutdown event. */
  datatype Meanwhile = Meanwhile(taken: nat, shutdown: bool)

  function TakeSome(p: Played, k: nat): Played {
    var n := Min(k, |p.queue|);
    p.(queue := p.queue[n..], out := p.out + p.queue[..n])
  }

  function HandleOne(p: Played, f: WireFrame): Played {
    Played(Kept(p.queue, [f]), p.dropped + Lost(p.queue, [f]), p.dtmf + PayloadsOf([f], FRAME_DTMF), p.out)
  }

  /** After the first `n` frames, each read while the other threads went on. */
  function Reading(before: Played, frames: seq<WireFrame>, others: nat -> Meanwhile, n: nat): Played
    requires n <= |frames|
  {
    if n == 0 then before
    else HandleOne(TakeSome(Reading(before, frames, others, n - 1), others(n - 1).taken), frames[n - 1])
  }

  /** The audio offered is, in order, taken, queued, or dropped. */
  ghost predicate Served(start: seq<seq<byte>>, offered: seq<seq<byte>>, dropped: nat, p: Played) {
    && |p.queue| <= QUEUE_MAX_FRAMES && p.dropped >= dropped
    && Subseq(p.out + p.queue, start + offered)
    && |start| + |offered| == |p.out| + |p.queue| + (p.dropped - dropped)
  }

  lemma {:induction false} TakeServes(start: seq<seq<byte>>, offered: seq<seq<byte>>, dropped: nat, p: Played, k: nat)
    requires Served(start, offered, dropped, p)
    ensures Served(start, offered, dropped, TakeSome(p, k))
  {
    hide Subseq;
    var q := TakeSome(p, k);
    assert q.out + q.queue == p.out + p.queue;
  }

  lemma {:induction false} HandleServes(start: seq<seq<byte>>, offered: seq<seq<byte>>, dropped: nat, p: Played, f: WireFrame)
    requires Served(start, offered, dropped, p)
    ensures Served(start, offered + PayloadsOf([f], FRAME_AUDIO_OUT), dropped, HandleOne(p, f))
  {
    hide Subseq, Newest, Shed, PayloadsOf;
    var more := PayloadsOf([f], FRAME_AUDIO_OUT);
    var all := p.queue + more;
    var shed, kept := Shed(all, QUEUE_MAX_FRAMES), Newest(all, QUEUE_MAX_FRAMES);
    ShedThenNewest(all, QUEUE_MAX_FRAMES);
    SubseqAppend(p.out + p.queue, start + offered, more);
    assert (start + offered) + more == start + (offered + more);
    assert (p.out + p.queue) + more == p.out + all;
    assert p.out + (shed + kept) == p.out + shed + kept;
    SubseqRemove(p.out, shed, kept, start + (offered + more));
    assert |all| == |shed| + |kept|;
  }

  /** Whatever the other threads do: every digit is reported once, and the audio is played, queued or dropped, in order. */
  lemma {:induction false} ReadingLaw(before: Played, frames: seq<WireFrame>, others: nat -> Meanwhile, n: nat)
    requires n <= |frames| && |before.queue| <= QUEUE_MAX_FRAMES && before.out == []
    ensures Served(before.queue, PayloadsOf(frames[..n], FRAME_AUDIO_OUT), before.dropped, Reading(before, frames, others, n))
    ensures Reading(before, frames, others, n).dtmf == before.dtmf + PayloadsOf(frames[..n], FRAME_DTMF)
  {
    hide Served, PayloadsOf, Kept, Lost;
    if n == 0 {
      NothingRead(before, frames);
    } else {
      ReadingLaw(before, frames, others, n - 1);
      var p, f, so := Reading(before, frames, others, n - 1), frames[n - 1], PayloadsOf(frames[..n - 1], FRAME_AUDIO_OUT);
      TakeServes(before.queue, so, before.dropped, p, others(n - 1).taken);
      HandleServes(before.queue, so, before.dropped, TakeSome(p, others(n - 1).taken), f);
      assert frames[..n] == frames[..n - 1] + [f];
      PayloadsAppend(frames[..n - 1], [f], FRAME_AUDIO_OUT);
      PayloadsAppend(frames[..n - 1], [f], FRAME_DTMF);
      assert (before.dtmf + PayloadsOf(frames[..n - 1], FRAME_DTMF)) + PayloadsOf([f], FRAME_DTMF)
          == before.dtmf + (PayloadsOf(frames[..n - 1], FRAME_DTMF) + PayloadsOf([f], FRAME_DTMF));
    }
  }

  lemma {:induction false} NothingRead(before: Played, frames: seq<WireFrame>)
    requires |before.queue| <= QUEUE_MAX_FRAMES && before.out == []
    ensures Served(before.queue, PayloadsOf(frames[..0], FRAME_AUDIO_OUT), before.dropped, before)
    ensures before.dtmf == before.dtmf + PayloadsOf(frames[..0], FRAME_DTMF)
  {
    assert frames[..0] == [] && before.queue + [] == before.queue && [] + before.queue == before.queue;
    SubseqRefl(before.queue);
  }

  /** When nobody takes frames meanwhile, the queue keeps the newest of all the audio. */
  lemma {:induction false} ReadingUndisturbed(before: Played, frames: seq<WireFrame>, others: nat -> Meanwhile, n: nat)
    requires n <= |frames| && |before.queue| <= QUEUE_MAX_FRAMES && forall k: nat | k < n :: others(k).taken == 0
    ensures var p := Reading(before, frames, others, n);
            && p.queue == Kept(before.queue, frames[..n]) && p.out == before.out
            && p.dropped == before.dropped + Lost(before.queue, frames[..n])
  {
    hide PayloadsOf, Kept, Lost;
    if n == 0 {
      OfferNone(before.queue);
      assert frames[..0] == [];
    } else {
      ReadingUndisturbed(before, frames, others, n - 1);
      OfferMore(before.queue, frames[..n - 1], [frames[n - 1]]);
      assert frames[..n] == frames[..n - 1] + [frames[n - 1]];
      var p := Reading(before, frames, others, n - 1);
      assert TakeSome(p, 0) == p;
    }
  }

  lemma {:induction false} OfferNone(q: seq<seq<byte>>)
    requires |q| <= QUEUE_MAX_FRAMES
    ensures Kept(q, []) == q && Lost(q, []) == 0 && PayloadsOf([], FRAME_DTMF) == []
  {
    assert q + [] == q;
  }

  class AudioBridge {
    var inbound: seq<seq<byte>>
    var outbound: seq<seq<byte>>
    var dropped: nat              // calls of on_dropped
    var workerHangups: nat        // calls of on_worker_hangup
    var dtmf: seq<seq<byte>>      // arguments of on_dtmf_from_worker
    var sent: seq<byte>           // bytes written to the worker socket
    var connected: bool           // _client is not None
    var shutdown: bool
    ghost var arrived: seq<seq<byte>>   // every RTP frame offered to enqueue_inbound
    ghost var forwarded: seq<seq<byte>> // those that left the inbound queue towards the worker

    ghost predicate Valid()
      reads this
    {
      && |inbound| <= QUEUE_MAX_FRAMES && |outbound| <= QUEUE_MAX_FRAMES
      && (forall f <- inbound :: Encodable(WireFrame(FRAME_AUDIO_IN, f)))
      && |inbound| <= |arrived| && inbound == arrived[|arrived| - |inbound|..]
      && Subseq(forwarded, arrived[..|arrived| - |inbound|])
    }

    constructor ()
      ensures Valid() && inbound == outbound == [] && dropped == workerHangups == 0
      ensures dtmf == [] && sent == [] && !connected && !shutdown && arrived == forwarded == []
    {
      inbound, outbound, dropped, workerHangups := [], [], 0, 0;
      dtmf, sent, connected, shutdown := [], [], false, false;
      arrived, forwarded := [], [];
    }

    /** The queue keeps the 50 newest RTP frames; each frame it gives up is reported once. */
    method EnqueueInbound(frame: seq<byte>)
      requires Valid() && Encodable(WireFrame(FRAME_AUDIO_IN, frame))
      modifies this`inbound, this`dropped, this`arrived
      ensures Valid()
      ensures inbound == Newest(old(inbound) + [frame], QUEUE_MAX_FRAMES)
      ensures dropped == old(dropped) + |Shed(old(inbound) + [frame], QUEUE_MAX_FRAMES)|
      ensures arrived == old(arrived) + [frame]
    {
      ghost var gone := arrived[..|arrived| - |inbound|];
      if |inbound| >= QUEUE_MAX_FRAMES {
        SubseqExtend(forwarded, gone, [inbound[0]]);
        gone := gone + [inbound[0]];
        inbound := inbound[1..];
        dropped := dropped + 1;
      }
      inbound := inbound + [frame];
      arrived := arrived + [frame];
      assert arrived[..|arrived| - |inbound|] == gone;
    }

    /** The oldest queued frame, or 320 zero bytes when there is none. */
    method DequeueOutbound() returns (frame: seq<byte>)
      modifies this`outbound
      ensures old(outbound) == [] ==> frame == SILENCE_FRAME && outbound == []
      ensures old(outbound) != [] ==> [frame] + outbound == old(outbound)
    {
      if outbound == [] {
        return SILENCE_FRAME;
      }
      frame := outbound[0];
      outbound := outbound[1..];
    }

    /** `_send`: one whole frame on the wire, or none and (for an OSError) a shutdown. */
    method Send(ftype: byte, payload: seq<byte>, oserror: bool) returns (ok: bool)
      requires Encodable(WireFrame(ftype, payload))
      modifies this`sent, this`shutdown
      ensures ok <==> old(connected) && !oserror
      ensures sent == old(sent) + (if ok then Encode(WireFrame(ftype, payload)) else [])
      ensures shutdown == (old(shutdown) || (old(connected) && oserror))
    {
      if !connected {
        return false;
      }
      if oserror {
        shutdown := true;
        return false;
      }
      sent := sent + EncodeFrame(ftype, payload).bytes;
      return true;
    }

    /** One turn of the writer thread; false when the thread ends. */
    method WriteTurn(oserror: bool) returns (goOn: bool)
      requires Valid()
      modifies this`inbound, this`sent, this`shutdown, this`forwarded
      ensures Valid()
      ensures old(shutdown) || old(inbound) == [] ==>
                inbound == old(inbound) && sent == old(sent) && forwarded == old(forwarded) && goOn == !old(shutdown)
      ensures !old(shutdown) && old(inbound) != [] ==>
                && goOn == (old(connected) && !oserror)
                && inbound == old(inbound)[1..]
                && sent == old(sent) + (if goOn then Encode(WireFrame(FRAME_AUDIO_IN, old(inbound)[0])) else [])
                && forwarded == old(forwarded) + (if goOn then [old(inbound)[0]] else [])
    {
      if shutdown {
        return false;
      }
      if inbound == [] {
        return true;
      }
      hide Subseq;
      var frame := inbound[0];
      assert frame in inbound;
      ghost var k := |arrived| - |inbound|;
      assert arrived[..k + 1] == arrived[..k] + [frame];
      SubseqAppend(forwarded, arrived[..k], [frame]);
      SubseqExtend(forwarded, arrived[..k], [frame]);
      inbound := inbound[1..];
      goOn := Send(FRAME_AUDIO_IN, frame, oserror);
      if goOn {
        forwarded := forwarded + [frame];
      }
    }

    /** Effect of one frame from the worker; true when it asks for teardown. */
    method HandleFrame(f: WireFrame) returns (hangup: bool)
      requires |outbound| <= QUEUE_MAX_FRAMES
      modifies this`outbound, this`dropped, this`dtmf, this`workerHangups
      ensures hangup <==> f.ftype == FRAME_HANGUP
      ensures workerHangups == old(workerHangups) + (if hangup then 1 else 0)
      ensures outbound == Kept(old(outbound), [f]) && dropped == old(dropped) + Lost(old(outbound), [f])
      ensures dtmf == old(dtmf) + PayloadsOf([f], FRAME_DTMF)
    {
      hangup := false;
      OfferOne(outbound, f);
      if f.ftype == FRAME_AUDIO_OUT {
        if |f.payload| == 0 {
          return;
        }
        if |outbound| >= QUEUE_MAX_FRAMES {
          outbound := outbound[1..];
          dropped := dropped + 1;
        }
        outbound := outbound + [f.payload];
      } else if f.ftype == FRAME_HANGUP {
        workerHangups := workerHangups + 1;
        hangup := true;
      } else if f.ftype == FRAME_DTMF {
        if f.payload != [] {
          dtmf := dtmf + [f.payload];
        }
      }
    }

    /** One turn of the reader thread: the frame handled, or None when the thread ends with one hangup report. */
    method ReadTurn(sock: Socket) returns (frame: Option<WireFrame>)
      requires |outbound| <= QUEUE_MAX_FRAMES
      modifies sock, this`outbound, this`dropped, this`dtmf, this`workerHangups
      ensures Faultless(old(sock.script)) ==> Faultless(sock.script)
      ensures workerHangups == old(workerHangups) + (if frame.None? then 1 else 0)
      ensures frame.None? ==> outbound == old(outbound) && dropped == old(dropped) && dtmf == old(dtmf)
      ensures frame.None? && Faultless(old(sock.script)) ==>
                var first := FirstFrame(old(sock.pending)); first.None? || first.value.ftype == FRAME_HANGUP
      ensures frame.Some? ==>
                && frame == FirstFrame(old(sock.pending)) && frame.value.ftype != FRAME_HANGUP
                && sock.pending == old(sock.pending)[5 + BodyLength(old(sock.pending))..]
                && outbound == Kept(old(outbound), [frame.value])
                && dropped == old(dropped) + Lost(old(outbound), [frame.value])
                && dtmf == old(dtmf) + PayloadsOf([frame.value], FRAME_DTMF)
    {
      frame := ReadFrame(sock);
      if frame.None? {
        workerHangups := workerHangups + 1;
        return;
      }
      OfferOne(outbound, frame.value);
      var hangup := HandleFrame(frame.value);
      if hangup {
        frame := None;
      }
    }

    ghost function Serving(out: seq<seq<byte>>): Played
      reads this
    {
      Played(outbound, dropped, dtmf, out)
    }

    /** The other threads, while this one is blocked; `out` collects what they take. */
    method Others(m: Meanwhile, ghost out: seq<seq<byte>>) returns (ghost out2: seq<seq<byte>>)
      modifies this`outbound, this`shutdown
      ensures Serving(out2) == TakeSome(old(Serving(out)), m.taken)
      ensures shutdown == (old(shutdown) || m.shutdown)
    {
      var n := if m.taken < |outbound| then m.taken else |outbound|;
      out2 := out + outbound[..n];
      outbound := outbound[n..];
      if m.shutdown {
        shutdown := true;
      }
    }

    /**
      The reader thread, run to its end on one connection, while the other threads go on. Whatever the
      fragmentation, it handles the complete frames before the first HANGUP, up to and including the one
      during whose read the shutdown event is set (fewer if the socket faults). If the shutdown ends it, it
      reports no hangup, otherwise one, also when the worker just disconnects.
     */
    method ReadLoop(sock: Socket, others: nat -> Meanwhile) returns (n: nat, ghost out: seq<seq<byte>>)
      requires |outbound| <= QUEUE_MAX_FRAMES && !shutdown
      modifies sock, this`outbound, this`dropped, this`dtmf, this`workerHangups, this`shutdown
      ensures n <= |UntilHangup(DecodeAll(old(sock.pending)))|
      ensures forall k: nat | k + 1 < n :: !others(k).shutdown
      ensures var all, stopped := UntilHangup(DecodeAll(old(sock.pending))), n > 0 && others(n - 1).shutdown;
              && (Faultless(old(sock.script)) ==> stopped || n == |all|)
              && workerHangups == old(workerHangups) + (if stopped then 0 else 1)
              && Serving(out) == (if stopped then Reading(old(Serving([])), all, others, n)
                                  else TakeSome(Reading(old(Serving([])), all, others, n), others(n).taken))
    {
      hide DecodeAll, FirstFrame, BodyLength, UntilHangup, Reading, TakeSome, Kept, Lost, PayloadsOf, Faultless;
      n, out := 0, [];
      ghost var before, all := Serving([]), UntilHangup(DecodeAll(sock.pending));
      ReadingStarts(before, all, others);
      while !shutdown
        invariant |outbound| <= QUEUE_MAX_FRAMES
        invariant n <= |all| && UntilHangup(DecodeAll(sock.pending)) == all[n..]
        invariant Faultless(old(sock.script)) ==> Faultless(sock.script)
        invariant Serving(out) == Reading(before, all, others, n)
        invariant workerHangups == old(workerHangups)
        invariant shutdown == (n > 0 && others(n - 1).shutdown)
        invariant forall k: nat | k + 1 < n :: !others(k).shutdown
        decreases |sock.pending|
      {
        NextFrame(sock.pending, all, n);
        ghost var mid := Serving(out);
        TakenShorter(mid, others(n).taken);
        out := Others(others(n), out);
        ghost var taken := Serving(out);
        var frame := ReadTurn(sock);
        if frame.None? {
          return;
        }
        ReadingGoesOn(before, all, others, n, taken, Serving(out));
        n := n + 1;
      }
    }
  }

  lemma {:induction false} ReadingStarts(before: Played, all: seq<WireFrame>, others: nat -> Meanwhile)
    ensures all[0..] == all && Reading(before, all, others, 0) == before
  {
  }

  lemma {:induction false} TakenShorter(p: Played, k: nat)
    ensures |TakeSome(p, k).queue| <= |p.queue|
  {
  }

  lemma {:induction false} ReadingGoesOn(
      before: Played, all: seq<WireFrame>, others: nat -> Meanwhile, n: nat, taken: Played, after: Played)
    requires n < |all| && taken == TakeSome(Reading(before, all, others, n), others(n).taken)
    requires after.queue == Kept(taken.queue, [all[n]]) && after.dropped == taken.dropped + Lost(taken.queue, [all[n]])
    requires after.dtmf == taken.dtmf + PayloadsOf([all[n]], FRAME_DTMF) && after.out == taken.out
    ensures after == Reading(before, all, others, n + 1) && |after.queue| <= QUEUE_MAX_FRAMES
  {
    hide Kept, Lost, PayloadsOf, TakeSome;
  }

  /** The first frame of what is left of a stream is the next one handled, unless it asks for teardown. */
  lemma {:induction false} NextFrame(s: seq<byte>, all: seq<WireFrame>, n: nat)
    requires n <= |all| && UntilHangup(DecodeAll(s)) == all[n..]
    ensures FirstFrame(s).None? || FirstFrame(s).value.ftype == FRAME_HANGUP <==> n == |all|
    ensures FirstFrame(s).Some? ==> 5 + BodyLength(s) <= |s|
    ensures n < |all| ==>
              && FirstFrame(s) == Some(all[n])
              && all[..n + 1] == all[..n] + [all[n]]
              && UntilHangup(DecodeAll(s[5 + BodyLength(s)..])) == all[n + 1..]
  {
    if FirstFrame(s).Some? {
      var rest := DecodeAll(s[5 + BodyLength(s)..]);
      assert DecodeAll(s)[1..] == rest;
      if FirstFrame(s).value.ftype != FRAME_HANGUP {
        assert all[n..] == [FirstFrame(s).value] + UntilHangup(rest);
        assert all[n] == all[n..][0] && all[n + 1..] == all[n..][1..];
      }
    }
  }
}
