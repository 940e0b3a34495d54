/**
  The speech-to-text stream: audio bytes are cut into blocks for the voice-activity detector, whose
  events open and close segments; each closed segment is sent to the recognizer as one final.
 */
module SttStream {
  import opened Common

  const VAD_CHUNK_SAMPLES := 512
  const VAD_CHUNK_BYTES := 1024
  const SAMPLE_RATE := 16000

  /** The recognizer's text is left out: a message is known by the audio it transcribes. */
  datatype Message<T> = Partial(audio: seq<T>) | Final(audio: seq<T>, durationMs: nat)

  datatype Config = Config(maxSegmentSec: real, partialIntervalMs: int)

  /** What the detector says about one block, and what the clock shows at each place that reads it. */
  datatype Heard = Heard(start: bool, end: bool, startClock: real, capClock: real, partialClock: real)

  datatype Stream<T> = Stream(buffer: seq<T>, startedAt: Option<real>, lastPartialAt: real, sent: seq<Message<T>>)

  /** `int(round(samples / 16.0))`: milliseconds at 16 kHz, ties to even. */
  function DurationMs(samples: nat): nat {
    var q, r := samples / 16, samples % 16;
    if r < 8 || (r == 8 && q % 2 == 0) then q else q + 1
  }

  lemma {:induction false} BlocksLast32Ms(n: nat)
    ensures DurationMs(VAD_CHUNK_SAMPLES * n) == 32 * n
  {
    assert VAD_CHUNK_SAMPLES * n == 16 * (32 * n);
  }

  // ---------------------------------------------------------------------
  // One block
  // ---------------------------------------------------------------------

  /** `_emit_final`. */
  function EmitFinal<T>(s: Stream<T>): Stream<T> {
    if s.buffer == [] then s
    else s.(sent := s.sent + [Final(s.buffer, DurationMs(VAD_CHUNK_SAMPLES * |s.buffer|))])
  }

  /** `_reset_segment`. */
  function Reset<T>(s: Stream<T>): Stream<T> { Stream([], None, 0.0, s.sent) }

  /** The part of the loop body up to the opening of a segment. */
  function Open<T>(s: Stream<T>, block: T, h: Heard): Stream<T> {
    var kept := if s.startedAt.Some? || h.start || h.end then s.(buffer := s.buffer + [block]) else s;
    if h.start && kept.startedAt.None? then kept.(startedAt := Some(h.startClock)) else kept
  }

  /** `_emit_partial`, when it is due: less than a quarter second is too short. */
  function MaybePartial<T>(cfg: Config, s: Stream<T>, h: Heard): Stream<T> {
    if (h.partialClock - s.lastPartialAt) * 1000.0 < cfg.partialIntervalMs as real then s
    else if VAD_CHUNK_SAMPLES * |s.buffer| < SAMPLE_RATE / 4 then s.(lastPartialAt := h.partialClock)
    else s.(lastPartialAt := h.partialClock, sent := s.sent + [Partial(s.buffer)])
  }

  predicate CapReached(cfg: Config, startedAt: real, h: Heard) { h.capClock - startedAt >= cfg.maxSegmentSec }

  function Hear<T>(cfg: Config, s: Stream<T>, block: T, h: Heard): Stream<T> {
    var o := Open(s, block, h);
    if o.startedAt.None? then o
    else if h.end || CapReached(cfg, o.startedAt.value, h) then Reset(EmitFinal(o))
    else MaybePartial(cfg, o, h)
  }

  /** The first `n` blocks, with what was heard in each. */
  function HearAll<T>(cfg: Config, s: Stream<T>, blocks: seq<T>, hs: seq<Heard>, n: nat): Stream<T>
    requires n <= |blocks| && n <= |hs|
  {
    if n == 0 then s else Hear(cfg, HearAll(cfg, s, blocks, hs, n - 1), blocks[n - 1], hs[n - 1])
  }

  function Fresh<T>(): Stream<T> { Stream([], None, 0.0, []) }

  // ---------------------------------------------------------------------
  // The handler
  // ---------------------------------------------------------------------

  class StreamState {
    const cfg: Config
    var pendingBytes: seq<byte>
    var speechBuffer: seq<seq<byte>>
    var speechStartedAt: Option<real>
    var lastPartialAt: real
    var sent: seq<Message<seq<byte>>>       // the websocket, outgoing

    constructor (cfg: Config)
      ensures this.cfg == cfg && pendingBytes == [] && Value() == Fresh()
    {
      this.cfg := cfg;
      pendingBytes, speechBuffer, speechStartedAt, lastPartialAt, sent := [], [], None, 0.0, [];
    }

    ghost function Value(): Stream<seq<byte>>
      reads this
    {
      Stream(speechBuffer, speechStartedAt, lastPartialAt, sent)
    }

    method SendFinal()
      modifies this`sent
      ensures Value() == EmitFinal(old(Value()))
    {
      if speechBuffer != [] {
        var samples := VAD_CHUNK_SAMPLES * |speechBuffer|;
        sent := sent + [Final(speechBuffer, DurationMs(samples))];
      }
    }

    method ResetSegment()
      modifies this`speechBuffer, this`speechStartedAt, this`lastPartialAt
      ensures Value() == Reset(old(Value()))
    {
      speechBuffer, speechStartedAt, lastPartialAt := [], None, 0.0;
    }

    method SendPartial()
      modifies this`sent
      ensures sent == old(sent) + if |speechBuffer| < 8 then [] else [Partial(speechBuffer)]
    {
      if VAD_CHUNK_SAMPLES * |speechBuffer| < SAMPLE_RATE / 4 {
        return;
      }
      sent := sent + [Partial(speechBuffer)];
    }

    /** The loop body for one block. */
    method HandleBlock(block: seq<byte>, h: Heard)
      modifies this`speechBuffer, this`speechStartedAt, this`lastPartialAt, this`sent
      ensures Value() == Hear(cfg, old(Value()), block, h)
    {
      if speechStartedAt.Some? || h.start || h.end {
        speechBuffer := speechBuffer + [block];
      }
      if h.start && speechStartedAt.None? {
        speechStartedAt := Some(h.startClock);
      }
      if h.end && speechStartedAt.Some? {
        SendFinal();
        ResetSegment();
      }
      if speechStartedAt.Some? {
        var elapsed := h.capClock - speechStartedAt.value;
        if elapsed >= cfg.maxSegmentSec {
          SendFinal();
          ResetSegment();
          return;
        }
      }
      if speechStartedAt.Some? && (h.partialClock - lastPartialAt) * 1000.0 >= cfg.partialIntervalMs as real {
        lastPartialAt := h.partialClock;
        SendPartial();
      }
    }

    /** `_handle_audio`: takes what is needed of `hs` for the blocks that this chunk completes. */
    method HandleAudio(chunk: seq<byte>, hs: seq<Heard>)
      requires |hs| >= |Pieces(pendingBytes + chunk, VAD_CHUNK_BYTES)|
      modifies this`pendingBytes, this`speechBuffer, this`speechStartedAt, this`lastPartialAt, this`sent
      ensures pendingBytes == Leftover(old(pendingBytes) + chunk, VAD_CHUNK_BYTES) && |pendingBytes| < VAD_CHUNK_BYTES
      ensures var blocks := Pieces(old(pendingBytes) + chunk, VAD_CHUNK_BYTES);
              Value() == HearAll(cfg, old(Value()), blocks, hs, |blocks|)
    {
      hide Pieces, Leftover, Hear;
      pendingBytes := pendingBytes + chunk;
      ghost var all := pendingBytes;
      ghost var blocks := Pieces(all, VAD_CHUNK_BYTES);
      var n := 0;
      while |pendingBytes| >= VAD_CHUNK_BYTES
        invariant n <= |blocks| && Pieces(pendingBytes, VAD_CHUNK_BYTES) == blocks[n..]
        invariant Leftover(pendingBytes, VAD_CHUNK_BYTES) == Leftover(all, VAD_CHUNK_BYTES)
        invariant Value() == HearAll(cfg, old(Value()), blocks, hs, n)
        decreases |pendingBytes|
      {
        FirstPiece(pendingBytes, blocks[n..]);
        var block := pendingBytes[..VAD_CHUNK_BYTES];
        pendingBytes := pendingBytes[VAD_CHUNK_BYTES..];
        HandleBlock(block, hs[n]);
        n := n + 1;
      }
      NoPiece(pendingBytes);
    }

    /** `_finalize`, on the client's end message: an open segment is sent as a last final. */
    method Finalize()
      modifies this`sent
      ensures sent == if old(speechStartedAt).Some? then EmitFinal(old(Value())).sent else old(sent)
    {
      if speechStartedAt.Some? && speechBuffer != [] {
        SendFinal();
      }
    }
  }

  lemma {:induction false} FirstPiece(s: seq<byte>, pieces: seq<seq<byte>>)
    requires |s| >= VAD_CHUNK_BYTES && Pieces(s, VAD_CHUNK_BYTES) == pieces
    ensures pieces != [] && pieces[0] == s[..VAD_CHUNK_BYTES]
    ensures Pieces(s[VAD_CHUNK_BYTES..], VAD_CHUNK_BYTES) == pieces[1..]
    ensures Leftover(s[VAD_CHUNK_BYTES..], VAD_CHUNK_BYTES) == Leftover(s, VAD_CHUNK_BYTES)
  {
  }

  lemma {:induction false} NoPiece(s: seq<byte>)
    requires |s| < VAD_CHUNK_BYTES
    ensures Pieces(s, VAD_CHUNK_BYTES) == [] && Leftover(s, VAD_CHUNK_BYTES) == s
  {
  }

  lemma {:induction false} HearSome<T>(cfg: Config, s: Stream<T>, a: seq<T>, b: seq<T>, hs: seq<Heard>, more: seq<Heard>, n: nat)
    requires |a| == |hs| && n <= |b| && n <= |more|
    ensures HearAll(cfg, s, a + b, hs + more, |a| + n) == HearAll(cfg, HearAll(cfg, s, a, hs, |a|), b, more, n)
  {
    if n > 0 {
      HearSome(cfg, s, a, b, hs, more, n - 1);
    } else {
      HearPrefix(cfg, s, a, b, hs, more, |a|);
    }
  }

  lemma {:induction false} HearPrefix<T>(cfg: Config, s: Stream<T>, a: seq<T>, b: seq<T>, hs: seq<Heard>, more: seq<Heard>, n: nat)
    requires n <= |a| && n <= |hs|
    ensures HearAll(cfg, s, a + b, hs + more, n) == HearAll(cfg, s, a, hs, n)
  {
    if n > 0 {
      HearPrefix(cfg, s, a, b, hs, more, n - 1);
    }
  }

  /** What the end message leaves on the socket. */
  function Ended<T>(s: Stream<T>): Stream<T> { if s.startedAt.Some? then EmitFinal(s) else s }

  /** One more message, on what the messages before it left: the blocks of all bytes so far have been heard. */
  lemma {:induction false} OneMoreMessage(cfg: Config, done: seq<byte>, chunk: seq<byte>, hs: seq<Heard>)
    requires |hs| >= |Pieces(done + chunk, VAD_CHUNK_BYTES)|
    ensures var a, b := Pieces(done, VAD_CHUNK_BYTES), Pieces(Leftover(done, VAD_CHUNK_BYTES) + chunk, VAD_CHUNK_BYTES);
            && Pieces(done + chunk, VAD_CHUNK_BYTES) == a + b && |a| + |b| <= |hs|
            && Leftover(done + chunk, VAD_CHUNK_BYTES) == Leftover(Leftover(done, VAD_CHUNK_BYTES) + chunk, VAD_CHUNK_BYTES)
            && HearAll(cfg, HearAll(cfg, Fresh(), a, hs, |a|), b, hs[|a|..], |b|) == HearAll(cfg, Fresh(), a + b, hs, |a| + |b|)
  {
    hide Pieces, Leftover, HearAll;
    PiecesAppend(done, chunk, VAD_CHUNK_BYTES);
    var a, b := Pieces(done, VAD_CHUNK_BYTES), Pieces(Leftover(done, VAD_CHUNK_BYTES) + chunk, VAD_CHUNK_BYTES);
    var used, more := hs[..|a|], hs[|a|..];
    assert used + more == hs && a + [] == a;
    HearSome(cfg, Fresh(), a, b, used, more, |b|);
    HearPrefix(cfg, Fresh(), a, [], used, more, |a|);
  }

  lemma {:induction false} SomeMessages(chunks: seq<seq<byte>>, i: nat)
    requires i < |chunks|
    ensures Flatten(chunks[..i + 1]) == Flatten(chunks[..i]) + chunks[i]
    ensures |Pieces(Flatten(chunks[..i + 1]), VAD_CHUNK_BYTES)| <= |Pieces(Flatten(chunks), VAD_CHUNK_BYTES)|
  {
    hide Flatten, Pieces, Leftover;
    assert chunks[..i + 1] == chunks[..i] + [chunks[i]];
    FlattenSnoc(chunks[..i], chunks[i]);
    assert chunks == chunks[..i + 1] + chunks[i + 1..];
    FlattenAppend(chunks[..i + 1], chunks[i + 1..]);
    PiecesAppend(Flatten(chunks[..i + 1]), Flatten(chunks[i + 1..]), VAD_CHUNK_BYTES);
  }

  lemma {:induction false} NoMessages(cfg: Config, chunks: seq<seq<byte>>, hs: seq<Heard>)
    ensures Flatten(chunks[..0]) == [] && Pieces<byte>([], VAD_CHUNK_BYTES) == [] && Leftover<byte>([], VAD_CHUNK_BYTES) == []
    ensures HearAll<seq<byte>>(cfg, Fresh(), [], hs, 0) == Fresh()
  {
  }

  /** A whole connection, audio messages and then the end: what is sent depends on the bytes only, not on how they are split. */
  method HandleStream(cfg: Config, chunks: seq<seq<byte>>, hs: seq<Heard>) returns (sent: seq<Message<seq<byte>>>)
    requires |hs| == |Pieces(Flatten(chunks), VAD_CHUNK_BYTES)|
    ensures var blocks := Pieces(Flatten(chunks), VAD_CHUNK_BYTES);
            sent == Ended(HearAll(cfg, Fresh(), blocks, hs, |blocks|)).sent
  {
    hide Flatten, Pieces, Leftover, HearAll, Fresh;
    var st := new StreamState(cfg);
    var i, k := 0, 0;
    NoMessages(cfg, chunks, hs);
    while i < |chunks|
      invariant i <= |chunks| && k == |Pieces(Flatten(chunks[..i]), VAD_CHUNK_BYTES)| <= |hs|
      invariant st.cfg == cfg && fresh(st) && st.pendingBytes == Leftover(Flatten(chunks[..i]), VAD_CHUNK_BYTES)
      invariant st.Value() == HearAll(cfg, Fresh(), Pieces(Flatten(chunks[..i]), VAD_CHUNK_BYTES), hs, k)
    {
      SomeMessages(chunks, i);
      OneMoreMessage(cfg, Flatten(chunks[..i]), chunks[i], hs);
      st.HandleAudio(chunks[i], hs[k..]);
      i := i + 1;
      k := |Pieces(Flatten(chunks[..i]), VAD_CHUNK_BYTES)|;
    }
    assert chunks[..|chunks|] == chunks;
    st.Finalize();
    sent := st.sent;
  }

  // ---------------------------------------------------------------------
  // Segments
  // ---------------------------------------------------------------------

  /** Since block `reset` nothing was sent; a start is heard in block `from`; the segment closes with block `to`. */
  datatype Segment = Segment(reset: nat, from: nat, to: nat)

  /** `from` is the first start since `reset`. */
  ghost predicate Opens(hs: seq<Heard>, reset: nat, from: nat) {
    reset <= from < |hs| && hs[from].start && forall j | reset <= j < from :: !hs[j].start
  }

  /** A segment opened in block `from` is closed in block `i` if it is still open then: by an end, or by the cap. */
  ghost predicate Closes(cfg: Config, hs: seq<Heard>, from: nat, i: nat) {
    from <= i < |hs| && (hs[i].end || CapReached(cfg, hs[from].startClock, hs[i]))
  }

  ghost predicate IsSegment(cfg: Config, hs: seq<Heard>, g: Segment) {
    && Opens(hs, g.reset, g.from) && Closes(cfg, hs, g.from, g.to)
    && forall j | g.from <= j < g.to :: !Closes(cfg, hs, g.from, j)
  }

  function ResetAt(segs: seq<Segment>): nat { if segs == [] then 0 else segs[|segs|-1].to + 1 }

  /** The segments of the first `n` blocks one after the other, and the start of the one still open. */
  ghost predicate Segmentation(cfg: Config, hs: seq<Heard>, n: nat, segs: seq<Segment>, open: Option<nat>) {
    Chained(cfg, hs, n, segs) && OpenEnd(cfg, hs, n, ResetAt(segs), open)
  }

  ghost predicate Chained(cfg: Config, hs: seq<Heard>, n: nat, segs: seq<Segment>) {
    forall k | 0 <= k < |segs| :: IsSegment(cfg, hs, segs[k]) && segs[k].to < n && segs[k].reset == ResetAt(segs[..k])
  }

  ghost predicate OpenEnd(cfg: Config, hs: seq<Heard>, n: nat, reset: nat, open: Option<nat>) {
    match open
    case None => forall j | reset <= j < n :: j < |hs| ==> !hs[j].start
    case Some(from) => Opens(hs, reset, from) && from < n && forall j | from <= j < n :: !Closes(cfg, hs, from, j)
  }

  /** The blocks from `a` up to `b` in which anything was heard. */
  ghost function Strays<T>(blocks: seq<T>, hs: seq<Heard>, a: nat, b: nat): seq<T>
    requires a <= b <= |blocks| && b <= |hs|
  {
    if a == b then []
    else Strays(blocks, hs, a, b - 1) + if hs[b - 1].start || hs[b - 1].end then [blocks[b - 1]] else []
  }

  ghost predicate Fits<T>(blocks: seq<T>, hs: seq<Heard>, g: Segment) {
    g.reset <= g.from <= g.to < |blocks| && |blocks| == |hs|
  }

  /** The audio of a segment: stray ends heard since the last final, then the run from the start to the close. */
  ghost function Audio<T>(blocks: seq<T>, hs: seq<Heard>, g: Segment): seq<T>
    requires Fits(blocks, hs, g)
  {
    Strays(blocks, hs, g.reset, g.from) + blocks[g.from..g.to + 1]
  }

  ghost function OpenAudio<T>(blocks: seq<T>, hs: seq<Heard>, reset: nat, open: Option<nat>, n: nat): seq<T>
    requires |blocks| == |hs| && n <= |hs| && (open.Some? ==> reset <= open.value <= n) && reset <= n
  {
    match open
    case None => Strays(blocks, hs, reset, n)
    case Some(from) => Strays(blocks, hs, reset, from) + blocks[from..n]
  }

  function Finals<T>(sent: seq<Message<T>>): seq<Message<T>> {
    if sent == [] then []
    else Finals(sent[..|sent|-1]) + if sent[|sent|-1].Final? then [sent[|sent|-1]] else []
  }

  lemma {:induction false} FinalsSnoc<T>(sent: seq<Message<T>>, m: Message<T>)
    ensures Finals(sent + [m]) == if m.Final? then Finals(sent) + [m] else Finals(sent)
  {
    assert (sent + [m])[..|sent + [m]|-1] == sent;
  }

  /** What was sent as finals is the audio of the segments, 32 ms a block; the buffer is the rest. */
  ghost predicate Matches<T>(
      blocks: seq<T>, hs: seq<Heard>, n: nat, segs: seq<Segment>, open: Option<nat>, s: Stream<T>)
    requires |blocks| == |hs| && n <= |hs|
  {
    && ResetAt(segs) <= n && (open.Some? ==> ResetAt(segs) <= open.value < n)
    && s.startedAt == (if open.Some? then Some(hs[open.value].startClock) else None)
    && s.buffer == OpenAudio(blocks, hs, ResetAt(segs), open, n)
    && AreFinalsOf(blocks, hs, segs, Finals(s.sent))
  }

  ghost predicate AreFinalsOf<T>(blocks: seq<T>, hs: seq<Heard>, segs: seq<Segment>, finals: seq<Message<T>>) {
    && |finals| == |segs|
    && forall k | 0 <= k < |segs| :: Fits(blocks, hs, segs[k]) && finals[k] == FinalOf(blocks, hs, segs[k])
  }

  ghost function FinalOf<T>(blocks: seq<T>, hs: seq<Heard>, g: Segment): Message<T>
    requires Fits(blocks, hs, g)
  {
    Final(Audio(blocks, hs, g), 32 * |Audio(blocks, hs, g)|)
  }

  /** The start of the segment that is open while block `n` is handled. */
  function OpenAt(hs: seq<Heard>, n: nat, open: Option<nat>): Option<nat>
    requires n < |hs|
  {
    if open.Some? then open else if hs[n].start then Some(n) else None
  }

  ghost predicate ClosesNow(cfg: Config, hs: seq<Heard>, n: nat, open: Option<nat>)
    requires n < |hs|
  {
    OpenAt(hs, n, open).Some? && Closes(cfg, hs, OpenAt(hs, n, open).value, n)
  }

  lemma {:induction false} StaysOpen(cfg: Config, hs: seq<Heard>, n: nat, segs: seq<Segment>, open: Option<nat>)
    requires n < |hs| && Segmentation(cfg, hs, n, segs, open) && !ClosesNow(cfg, hs, n, open)
    ensures Segmentation(cfg, hs, n + 1, segs, OpenAt(hs, n, open))
  {
    hide IsSegment, Closes;
  }

  lemma {:induction false} ClosesSegment(cfg: Config, hs: seq<Heard>, n: nat, segs: seq<Segment>, open: Option<nat>)
    requires n < |hs| && Segmentation(cfg, hs, n, segs, open) && ClosesNow(cfg, hs, n, open) && ResetAt(segs) <= n
    ensures Segmentation(cfg, hs, n + 1, segs + [Segment(ResetAt(segs), OpenAt(hs, n, open).value, n)], None)
  {
    var g := Segment(ResetAt(segs), OpenAt(hs, n, open).value, n);
    var more := segs + [g];
    assert IsSegment(cfg, hs, g);
    forall k | 0 <= k < |more|
      ensures IsSegment(cfg, hs, more[k]) && more[k].to < n + 1 && more[k].reset == ResetAt(more[..k])
    {
      assert more[..k] == segs[..k];
      assert segs[..|segs|] == segs;
    }
  }

  lemma {:induction false} OpenMatches<T>(
      blocks: seq<T>, hs: seq<Heard>, n: nat, segs: seq<Segment>, open: Option<nat>, s: Stream<T>)
    requires |blocks| == |hs| && n < |hs| && Matches(blocks, hs, n, segs, open, s)
    ensures Matches(blocks, hs, n + 1, segs, OpenAt(hs, n, open), Open(s, blocks[n], hs[n]))
  {
    hide Finals, AreFinalsOf;
    match open
    case Some(from) =>
      assert blocks[from..n] + [blocks[n]] == blocks[from..n + 1];
    case None =>
      assert blocks[n..n + 1] == [blocks[n]];
  }

  lemma {:induction false} CloseMatches<T>(
      blocks: seq<T>, hs: seq<Heard>, n: nat, segs: seq<Segment>, from: nat, s: Stream<T>)
    requires |blocks| == |hs| && n < |hs| && Matches(blocks, hs, n + 1, segs, Some(from), s) && from <= n
    ensures Matches(blocks, hs, n + 1, segs + [Segment(ResetAt(segs), from, n)], None, Reset(EmitFinal(s)))
  {
    hide Finals, AreFinalsOf, DurationMs;
    var g := Segment(ResetAt(segs), from, n);
    assert s.buffer == Audio(blocks, hs, g) && s.buffer != [];
    BlocksLast32Ms(|s.buffer|);
    FinalsSnoc(s.sent, FinalOf(blocks, hs, g));
    OneMoreFinal(blocks, hs, segs, Finals(s.sent), g);
  }

  lemma {:induction false} OneMoreFinal<T>(
      blocks: seq<T>, hs: seq<Heard>, segs: seq<Segment>, finals: seq<Message<T>>, g: Segment)
    requires AreFinalsOf(blocks, hs, segs, finals) && Fits(blocks, hs, g)
    ensures AreFinalsOf(blocks, hs, segs + [g], finals + [FinalOf(blocks, hs, g)])
  {
    hide FinalOf;
  }

  lemma {:induction false} NoBlocks<T>(cfg: Config, blocks: seq<T>, hs: seq<Heard>)
    requires |blocks| == |hs|
    ensures Segmentation(cfg, hs, 0, [], None)
    ensures Matches(blocks, hs, 0, [], None, Fresh())
  {
  }

  lemma {:induction false} PartialMatches<T>(
      cfg: Config, blocks: seq<T>, hs: seq<Heard>, n: nat, segs: seq<Segment>, open: Option<nat>, s: Stream<T>, h: Heard)
    requires |blocks| == |hs| && n <= |hs| && Matches(blocks, hs, n, segs, open, s)
    ensures Matches(blocks, hs, n, segs, open, MaybePartial(cfg, s, h))
  {
    FinalsSnoc(s.sent, Partial(s.buffer));
    hide Finals, AreFinalsOf;
  }

  lemma {:induction false} NextBlock<T>(
      cfg: Config, blocks: seq<T>, hs: seq<Heard>, n: nat, segs: seq<Segment>, open: Option<nat>, s: Stream<T>)
    returns (segs2: seq<Segment>, open2: Option<nat>)
    requires |blocks| == |hs| && n < |hs|
    requires Segmentation(cfg, hs, n, segs, open) && Matches(blocks, hs, n, segs, open, s)
    ensures Segmentation(cfg, hs, n + 1, segs2, open2)
    ensures Matches(blocks, hs, n + 1, segs2, open2, Hear(cfg, s, blocks[n], hs[n]))
    ensures open2 == if ClosesNow(cfg, hs, n, open) then None else OpenAt(hs, n, open)
    ensures segs2 == if ClosesNow(cfg, hs, n, open) then segs + [Segment(ResetAt(segs), OpenAt(hs, n, open).value, n)] else segs
  {
    var o, at := Open(s, blocks[n], hs[n]), OpenAt(hs, n, open);
    OpenMatches(blocks, hs, n, segs, open, s);
    SameStart(blocks, hs, n + 1, segs, at, o);
    hide Segmentation, Matches, Open, OpenAt, MaybePartial, EmitFinal, Reset;
    if ClosesNow(cfg, hs, n, open) {
      ResetInTime(blocks, hs, n, segs, open, s);
      ClosesSegment(cfg, hs, n, segs, open);
      CloseMatches(blocks, hs, n, segs, at.value, o);
      segs2, open2 := segs + [Segment(ResetAt(segs), at.value, n)], None;
    } else {
      StaysOpen(cfg, hs, n, segs, open);
      PartialMatches(cfg, blocks, hs, n + 1, segs, at, o, hs[n]);
      segs2, open2 := segs, at;
    }
  }

  lemma {:induction false} SameStart<T>(
      blocks: seq<T>, hs: seq<Heard>, n: nat, segs: seq<Segment>, open: Option<nat>, s: Stream<T>)
    requires |blocks| == |hs| && n <= |hs| && Matches(blocks, hs, n, segs, open, s)
    ensures s.startedAt == if open.Some? && open.value < n then Some(hs[open.value].startClock) else None
    ensures open.Some? ==> open.value < n
  {
  }

  lemma {:induction false} ResetInTime<T>(
      blocks: seq<T>, hs: seq<Heard>, n: nat, segs: seq<Segment>, open: Option<nat>, s: Stream<T>)
    requires |blocks| == |hs| && n <= |hs| && Matches(blocks, hs, n, segs, open, s)
    ensures ResetAt(segs) <= n
  {
  }

  /**
    The finals of every run are the segments of what the detector heard, in order, one each, and their
    audio is the segment's run of blocks, after the stray ends heard since the last final.
   */
  lemma {:induction false} FinalsAreSegments<T>(cfg: Config, blocks: seq<T>, hs: seq<Heard>, n: nat)
    returns (segs: seq<Segment>, open: Option<nat>)
    requires |blocks| == |hs| && n <= |hs|
    ensures Segmentation(cfg, hs, n, segs, open)
    ensures Matches(blocks, hs, n, segs, open, HearAll(cfg, Fresh(), blocks, hs, n))
  {
    hide Segmentation, Matches, Hear, Fresh;
    if n == 0 {
      segs, open := [], None;
      NoBlocks(cfg, blocks, hs);
    } else {
      var segs1, open1 := FinalsAreSegments(cfg, blocks, hs, n - 1);
      segs, open := NextBlock(cfg, blocks, hs, n - 1, segs1, open1, HearAll(cfg, Fresh(), blocks, hs, n - 1));
    }
  }

  /** The end message adds one more final exactly if a segment is open: its audio so far. */
  lemma {:induction false} EndSendsOpenSegment<T>(cfg: Config, blocks: seq<T>, hs: seq<Heard>)
    returns (segs: seq<Segment>, open: Option<nat>)
    requires |blocks| == |hs|
    ensures Segmentation(cfg, hs, |hs|, segs, open) && ResetAt(segs) <= |hs| && (open.Some? ==> ResetAt(segs) <= open.value < |hs|)
    ensures var s := HearAll(cfg, Fresh(), blocks, hs, |hs|);
            && AreFinalsOf(blocks, hs, segs, Finals(s.sent))
            && Finals(Ended(s).sent) == Finals(s.sent) +
                 if open.None? then []
                 else [Final(OpenAudio(blocks, hs, ResetAt(segs), open, |hs|), 32 * |OpenAudio(blocks, hs, ResetAt(segs), open, |hs|)|)]
  {
    hide HearAll, Segmentation, AreFinalsOf, Finals, Strays, DurationMs;
    segs, open := FinalsAreSegments(cfg, blocks, hs, |hs|);
    var s := HearAll(cfg, Fresh(), blocks, hs, |hs|);
    BlocksLast32Ms(|s.buffer|);
    FinalsSnoc(s.sent, Final(s.buffer, 32 * |s.buffer|));
    assert Finals(s.sent) + [] == Finals(s.sent);
  }

  // ---------------------------------------------------------------------
  // The segmentation is determined by what was heard
  // ---------------------------------------------------------------------

  lemma {:induction false} SameSegment(cfg: Config, hs: seq<Heard>, g: Segment, h: Segment)
    requires IsSegment(cfg, hs, g) && IsSegment(cfg, hs, h) && g.reset == h.reset
    ensures g == h
  {
  }

  lemma {:induction false} SegmentationIsUnique(
      cfg: Config, hs: seq<Heard>, n: nat, s1: seq<Segment>, o1: Option<nat>, s2: seq<Segment>, o2: Option<nat>)
    requires n <= |hs| && Segmentation(cfg, hs, n, s1, o1) && Segmentation(cfg, hs, n, s2, o2)
    ensures s1 == s2 && o1 == o2
  {
    hide IsSegment, Opens, Closes;
    var k := 0;
    while k < |s1| && k < |s2|
      invariant k <= |s1| && k <= |s2| && s1[..k] == s2[..k]
    {
      SameSegment(cfg, hs, s1[k], s2[k]);
      assert s1[..k + 1] == s1[..k] + [s1[k]] && s2[..k + 1] == s2[..k] + [s2[k]];
      k := k + 1;
    }
    SameEnd(cfg, hs, n, s1, o1, s2, o2, k);
    SameEnd(cfg, hs, n, s2, o2, s1, o1, k);
    assert s1[..k] == s1 && s2[..k] == s2;
    SameOpen(cfg, hs, n, s1, o1, o2);
  }

  lemma {:induction false} SameEnd(
      cfg: Config, hs: seq<Heard>, n: nat, s1: seq<Segment>, o1: Option<nat>, s2: seq<Segment>, o2: Option<nat>, k: nat)
    requires n <= |hs| && Segmentation(cfg, hs, n, s1, o1) && Segmentation(cfg, hs, n, s2, o2)
    requires k <= |s1| && k <= |s2| && s1[..k] == s2[..k] && (k == |s1| || k == |s2|)
    ensures k == |s2|
  {
    assert s1[..|s1|] == s1;
    if k < |s2| {
      NoMoreSegments(cfg, hs, n, s1, o1, s2[k]);
    }
  }

  lemma {:induction false} NoMoreSegments(cfg: Config, hs: seq<Heard>, n: nat, segs: seq<Segment>, open: Option<nat>, g: Segment)
    requires n <= |hs| && Segmentation(cfg, hs, n, segs, open)
    ensures !(IsSegment(cfg, hs, g) && g.to < n && g.reset == ResetAt(segs))
  {
    hide CapReached;
  }

  lemma {:induction false} SameOpen(cfg: Config, hs: seq<Heard>, n: nat, segs: seq<Segment>, o1: Option<nat>, o2: Option<nat>)
    requires n <= |hs| && Segmentation(cfg, hs, n, segs, o1) && Segmentation(cfg, hs, n, segs, o2)
    ensures o1 == o2
  {
    hide IsSegment, Closes;
  }

  // ---------------------------------------------------------------------
  // When a final is exactly one run of speech
  // ---------------------------------------------------------------------

  lemma {:induction false} StraysEmpty<T>(blocks: seq<T>, hs: seq<Heard>, a: nat, b: nat)
    requires a <= b <= |blocks| && b <= |hs|
    ensures |Strays(blocks, hs, a, b)| == 0 <==> forall j | a <= j < b :: !hs[j].start && !hs[j].end
    decreases b
  {
    if a < b {
      StraysEmpty(blocks, hs, a, b - 1);
      LastStray(blocks, hs, a, b);
      hide Strays;
    }
  }

  lemma {:induction false} LastStray<T>(blocks: seq<T>, hs: seq<Heard>, a: nat, b: nat)
    requires a < b <= |blocks| && b <= |hs|
    ensures |Strays(blocks, hs, a, b)| == |Strays(blocks, hs, a, b - 1)| + if hs[b - 1].start || hs[b - 1].end then 1 else 0
  {
  }

  /** A final is exactly the blocks from its start to its close if and only if no end was heard between the previous final and the start. */
  lemma {:induction false} CleanExactlyWithoutStrays<T>(cfg: Config, blocks: seq<T>, hs: seq<Heard>, g: Segment)
    requires Fits(blocks, hs, g) && IsSegment(cfg, hs, g)
    ensures Audio(blocks, hs, g) == blocks[g.from..g.to + 1] <==> forall j | g.reset <= j < g.from :: !hs[j].end
  {
    StraysEmpty(blocks, hs, g.reset, g.from);
    assert |Audio(blocks, hs, g)| == |Strays(blocks, hs, g.reset, g.from)| + |blocks[g.from..g.to + 1]|;
    if Strays(blocks, hs, g.reset, g.from) == [] {
      assert [] + blocks[g.from..g.to + 1] == blocks[g.from..g.to + 1];
    }
  }

  /** Starts and ends are heard in turn, at the blocks `pos`, and nothing elsewhere. */
  ghost predicate Alternating(hs: seq<Heard>, n: nat, pos: seq<nat>) {
    && n <= |hs| && (forall i | 0 <= i < |pos| :: pos[i] < n)
    && (forall i, j | 0 <= i < j < |pos| :: pos[i] < pos[j])
    && (forall j | 0 <= j < n :: hs[j].start <==> exists i :: 0 <= i < |pos| && pos[i] == j && i % 2 == 0)
    && (forall j | 0 <= j < n :: hs[j].end <==> exists i :: 0 <= i < |pos| && pos[i] == j && i % 2 == 1)
  }

  ghost predicate CapBeyond(cfg: Config, hs: seq<Heard>, from: nat, to: nat) {
    from < |hs| && forall j | from <= j < to && j < |hs| :: !CapReached(cfg, hs[from].startClock, hs[j])
  }

  /** From each start to the end after it, or to block `n`, the cap is not reached. */
  ghost predicate CapNeverFires(cfg: Config, hs: seq<Heard>, n: nat, pos: seq<nat>) {
    forall i | 0 <= i < |pos| && i % 2 == 0 :: CapBeyond(cfg, hs, pos[i], TurnEnd(pos, i, n))
  }

  function TurnEnd(pos: seq<nat>, i: nat, n: nat): nat { if i + 1 < |pos| then pos[i + 1] else n }

  ghost function Turn(pos: seq<nat>, k: nat): Segment
    requires 2 * k + 1 < |pos|
  {
    Segment(if k == 0 then 0 else pos[2 * k - 1] + 1, pos[2 * k], pos[2 * k + 1])
  }

  ghost function Turns(pos: seq<nat>, m: nat): (segs: seq<Segment>)
    requires 2 * m <= |pos|
    ensures |segs| == m && forall k | 0 <= k < m :: segs[k] == Turn(pos, k)
  {
    if m == 0 then [] else Turns(pos, m - 1) + [Turn(pos, m - 1)]
  }

  lemma {:induction false} HeardAt(hs: seq<Heard>, n: nat, pos: seq<nat>, i: nat)
    requires Alternating(hs, n, pos) && i < |pos|
    ensures pos[i] < n <= |hs| && (if i % 2 == 0 then hs[pos[i]].start else hs[pos[i]].end)
    ensures i > 0 ==> pos[i - 1] < pos[i]
  {
  }

  lemma {:induction false} FirstEndCloses(cfg: Config, hs: seq<Heard>, g: Segment)
    requires g.reset <= g.from < g.to < |hs| && hs[g.from].start && hs[g.to].end
    requires forall j | g.reset <= j < g.from :: !hs[j].start
    requires forall j | g.from <= j < g.to :: !hs[j].end
    requires CapBeyond(cfg, hs, g.from, g.to)
    ensures IsSegment(cfg, hs, g)
  {
    hide CapReached;
  }

  lemma {:induction false} CapOfTurn(cfg: Config, hs: seq<Heard>, n: nat, pos: seq<nat>, i: nat)
    requires CapNeverFires(cfg, hs, n, pos) && i % 2 == 0 && i + 1 < |pos|
    ensures CapBeyond(cfg, hs, pos[i], pos[i + 1])
  {
    assert CapBeyond(cfg, hs, pos[i], TurnEnd(pos, i, n));
  }

  lemma {:induction false} TurnIsSegment(cfg: Config, hs: seq<Heard>, n: nat, pos: seq<nat>, k: nat)
    requires Alternating(hs, n, pos) && CapNeverFires(cfg, hs, n, pos) && 2 * k + 1 < |pos|
    ensures IsSegment(cfg, hs, Turn(pos, k)) && Turn(pos, k).reset <= Turn(pos, k).from
  {
    hide Alternating, CapNeverFires, CapReached, CapBeyond, IsSegment;
    var g, i := Turn(pos, k), 2 * k;
    CapOfTurn(cfg, hs, n, pos, i);
    HeardAt(hs, n, pos, i);
    HeardAt(hs, n, pos, i + 1);
    forall j | g.reset <= j < g.from
      ensures !hs[j].start
    {
      NotHeardBetween(hs, n, pos, i, j);
    }
    forall j | g.from <= j < g.to
      ensures !hs[j].end
    {
      NotHeardBetween(hs, n, pos, i + 1, j);
    }
    FirstEndCloses(cfg, hs, g);
  }

  /** Between two neighbouring positions, and before the first and after the last, nothing is heard. */
  lemma {:induction false} NotHeardBetween(hs: seq<Heard>, n: nat, pos: seq<nat>, i: nat, j: nat)
    requires Alternating(hs, n, pos) && i <= |pos| && j < n
    requires i > 0 ==> pos[i - 1] <= j
    requires i < |pos| ==> j < pos[i]
    ensures hs[j].start ==> i > 0 && pos[i - 1] == j && (i - 1) % 2 == 0
    ensures hs[j].end ==> i > 0 && pos[i - 1] == j && (i - 1) % 2 == 1
  {
  }

  lemma {:induction false} TurnsPrefix(pos: seq<nat>, m: nat, k: nat)
    requires 2 * m <= |pos| && k <= m
    ensures Turns(pos, m)[..k] == Turns(pos, k)
    ensures ResetAt(Turns(pos, k)) == if k == 0 then 0 else pos[2 * k - 1] + 1
  {
  }

  lemma {:induction false} LastTurn(cfg: Config, hs: seq<Heard>, n: nat, pos: seq<nat>, last: nat, from: nat)
    requires Alternating(hs, n, pos) && CapNeverFires(cfg, hs, n, pos)
    requires |pos| == last + 1 && last % 2 == 0 && from == pos[last]
    ensures Opens(hs, if last == 0 then 0 else pos[last - 1] + 1, from) && from < n
    ensures forall j | from <= j < n :: !Closes(cfg, hs, from, j)
  {
    var reset := if last == 0 then 0 else pos[last - 1] + 1;
    forall j | reset <= j < from
      ensures !hs[j].start
    {
      NotHeardBetween(hs, n, pos, last, j);
    }
    assert CapBeyond(cfg, hs, pos[last], TurnEnd(pos, last, n));
    forall j | from <= j < n
      ensures !hs[j].end && !CapReached(cfg, hs[from].startClock, hs[j])
    {
      NotHeardBetween(hs, n, pos, |pos|, j);
    }
  }

  lemma {:induction false} NoLastTurn(hs: seq<Heard>, n: nat, pos: seq<nat>)
    requires Alternating(hs, n, pos) && |pos| % 2 == 0
    ensures forall j | (if pos == [] then 0 else pos[|pos|-1] + 1) <= j < n :: !hs[j].start
  {
    forall j | (if pos == [] then 0 else pos[|pos|-1] + 1) <= j < n
      ensures !hs[j].start
    {
      NotHeardBetween(hs, n, pos, |pos|, j);
    }
  }

  lemma {:induction false} TurnsChained(cfg: Config, hs: seq<Heard>, n: nat, pos: seq<nat>, m: nat)
    requires Alternating(hs, n, pos) && CapNeverFires(cfg, hs, n, pos) && 2 * m <= |pos|
    ensures Chained(cfg, hs, n, Turns(pos, m))
  {
    var segs := Turns(pos, m);
    forall k | 0 <= k < m
      ensures IsSegment(cfg, hs, segs[k]) && segs[k].to < n && segs[k].reset == ResetAt(segs[..k])
    {
      TurnIsSegment(cfg, hs, n, pos, k);
      TurnsPrefix(pos, m, k);
    }
  }

  lemma {:induction false} TurnsAreSegmentation(cfg: Config, hs: seq<Heard>, n: nat, pos: seq<nat>)
    requires Alternating(hs, n, pos) && CapNeverFires(cfg, hs, n, pos)
    ensures Segmentation(cfg, hs, n, Turns(pos, |pos| / 2), if |pos| % 2 == 1 then Some(pos[|pos|-1]) else None)
  {
    hide Alternating, CapNeverFires, Chained, IsSegment, Opens, Closes, ResetAt, Turns;
    var m := |pos| / 2;
    TurnsChained(cfg, hs, n, pos, m);
    TurnsPrefix(pos, m, m);
    if |pos| % 2 == 1 {
      LastTurn(cfg, hs, n, pos, |pos| - 1, pos[|pos| - 1]);
    } else {
      NoLastTurn(hs, n, pos);
    }
  }

  /**
    When the detector reports starts and ends in turn and the cap never fires, the finals are exactly
    the runs from each start to its end, with a duration of 32 ms per block.
   */
  lemma {:induction false} AlternatingFinals<T>(cfg: Config, blocks: seq<T>, hs: seq<Heard>, n: nat, pos: seq<nat>)
    requires |blocks| == |hs| && n <= |hs| && Alternating(hs, n, pos) && CapNeverFires(cfg, hs, n, pos)
    ensures var s := HearAll(cfg, Fresh(), blocks, hs, n);
            && |Finals(s.sent)| == |pos| / 2
            && (forall k | 0 <= k < |pos| / 2 ::
                  var run := blocks[pos[2 * k]..pos[2 * k + 1] + 1];
                  Finals(s.sent)[k] == Final(run, 32 * |run|))
            && s.buffer == if |pos| % 2 == 1 then blocks[pos[|pos|-1]..n] else []
  {
    hide HearAll, Alternating, CapNeverFires, Segmentation, Finals;
    var segs, open := FinalsAreSegments(cfg, blocks, hs, n);
    TurnsAreSegmentation(cfg, hs, n, pos);
    SegmentationIsUnique(cfg, hs, n, segs, open, Turns(pos, |pos| / 2), if |pos| % 2 == 1 then Some(pos[|pos|-1]) else None);
    forall k | 0 <= k < |pos| / 2
      ensures Fits(blocks, hs, Turn(pos, k)) ==> Audio(blocks, hs, Turn(pos, k)) == blocks[pos[2 * k]..pos[2 * k + 1] + 1]
    {
      QuietBefore(blocks, hs, n, pos, 2 * k);
    }
    QuietBefore(blocks, hs, n, pos, if |pos| % 2 == 1 then |pos| - 1 else |pos|);
  }

  lemma {:induction false} QuietBefore<T>(blocks: seq<T>, hs: seq<Heard>, n: nat, pos: seq<nat>, i: nat)
    requires |blocks| == |hs| && Alternating(hs, n, pos) && i <= |pos| && i % 2 == 0
    ensures var a, b := if i == 0 then 0 else pos[i - 1] + 1, if i < |pos| then pos[i] else n;
            a <= b <= n && Strays(blocks, hs, a, b) == []
  {
    var a, b := if i == 0 then 0 else pos[i - 1] + 1, if i < |pos| then pos[i] else n;
    forall j | a <= j < b
      ensures !hs[j].start && !hs[j].end
    {
      NotHeardBetween(hs, n, pos, i, j);
    }
    StraysEmpty(blocks, hs, a, b);
  }

  // ---------------------------------------------------------------------
  // Every run: no audio is transcribed twice, partials lead up to what follows
  // ---------------------------------------------------------------------

  /** The audio of all finals, one after the other. */
  function FinalAudio<T>(sent: seq<Message<T>>): seq<T> {
    if sent == [] then []
    else FinalAudio(sent[..|sent|-1]) + if sent[|sent|-1].Final? then sent[|sent|-1].audio else []
  }

  lemma {:induction false} FinalAudioSnoc<T>(sent: seq<Message<T>>, m: Message<T>)
    ensures FinalAudio(sent + [m]) == FinalAudio(sent) + if m.Final? then m.audio else []
  {
    assert (sent + [m])[..|sent + [m]|-1] == sent;
  }

  /** What has been or may still be transcribed as a final. */
  function Accounted<T>(s: Stream<T>): seq<T> { FinalAudio(s.sent) + s.buffer }

  lemma {:induction false} OpenAccounts<T>(s: Stream<T>, block: T, h: Heard, seen: seq<T>)
    requires Subseq(Accounted(s), seen)
    ensures Subseq(Accounted(Open(s, block, h)), seen + [block])
  {
    hide Subseq, FinalAudio;
    SubseqAppend(Accounted(s), seen, [block]);
    SubseqExtend(Accounted(s), seen, [block]);
    assert Accounted(s) + [block] == FinalAudio(s.sent) + (s.buffer + [block]);
  }

  lemma {:induction false} EmitAccounts<T>(s: Stream<T>)
    ensures Accounted(Reset(EmitFinal(s))) == Accounted(s)
  {
    FinalAudioSnoc(s.sent, Final(s.buffer, DurationMs(VAD_CHUNK_SAMPLES * |s.buffer|)));
    hide FinalAudio, DurationMs;
  }

  lemma {:induction false} PartialAccounts<T>(cfg: Config, s: Stream<T>, h: Heard)
    ensures Accounted(MaybePartial(cfg, s, h)) == Accounted(s)
  {
    FinalAudioSnoc(s.sent, Partial(s.buffer));
    hide FinalAudio;
  }

  /** In every run each block lands in at most one final, and the finals keep the order of the stream. */
  lemma {:induction false} EachBlockAtMostOnce<T>(cfg: Config, blocks: seq<T>, hs: seq<Heard>, n: nat)
    requires n <= |blocks| && n <= |hs|
    ensures Subseq(Accounted(HearAll(cfg, Fresh(), blocks, hs, n)), blocks[..n])
  {
    if n == 0 {
      assert Accounted(Fresh<T>()) == [];
    } else {
      EachBlockAtMostOnce(cfg, blocks, hs, n - 1);
      hide Accounted, Subseq, Open, EmitFinal, Reset, MaybePartial;
      var s, block, h := HearAll(cfg, Fresh(), blocks, hs, n - 1), blocks[n - 1], hs[n - 1];
      OpenAccounts(s, block, h, blocks[..n - 1]);
      EmitAccounts(Open(s, block, h));
      PartialAccounts(cfg, Open(s, block, h), h);
      assert blocks[..n - 1] + [block] == blocks[..n];
    }
  }

  /** Every partial is the beginning of the next message's audio, or of the buffer if it is the last. */
  ghost predicate Growing<T>(s: Stream<T>) {
    && (forall i | 0 <= i < |s.sent| - 1 && s.sent[i].Partial? :: s.sent[i].audio <= s.sent[i + 1].audio)
    && (s.sent != [] && s.sent[|s.sent|-1].Partial? ==> s.startedAt.Some? && s.sent[|s.sent|-1].audio <= s.buffer)
    && (s.startedAt.Some? ==> s.buffer != [])
  }

  lemma {:induction false} PartialsGrow<T>(cfg: Config, blocks: seq<T>, hs: seq<Heard>, n: nat)
    requires n <= |blocks| && n <= |hs|
    ensures Growing(HearAll(cfg, Fresh(), blocks, hs, n))
  {
    if n > 0 {
      PartialsGrow(cfg, blocks, hs, n - 1);
      var s, h := HearAll(cfg, Fresh(), blocks, hs, n - 1), hs[n - 1];
      HearGrows(cfg, s, blocks[n - 1], h);
    }
  }

  lemma {:induction false} HearGrows<T>(cfg: Config, s: Stream<T>, block: T, h: Heard)
    requires Growing(s)
    ensures Growing(Hear(cfg, s, block, h))
  {
    hide DurationMs;
  }

  // ---------------------------------------------------------------------
  // When a partial is sent
  // ---------------------------------------------------------------------

  /** The clock at the last block before `m` that was due, of the segment that starts at `from`; 0.0 if none was. */
  function LastDue(cfg: Config, hs: seq<Heard>, from: nat, m: nat): real
    requires from <= m <= |hs|
    decreases m, 0
  {
    if m == from then 0.0
    else if IsDue(cfg, hs, from, m - 1) then hs[m - 1].partialClock
    else LastDue(cfg, hs, from, m - 1)
  }

  /** By block `m` the interval has passed since the last due block. */
  predicate IsDue(cfg: Config, hs: seq<Heard>, from: nat, m: nat)
    requires from <= m < |hs|
    decreases m, 1
  {
    (hs[m].partialClock - LastDue(cfg, hs, from, m)) * 1000.0 >= cfg.partialIntervalMs as real
  }

  ghost predicate DueSince<T>(cfg: Config, hs: seq<Heard>, n: nat, open: Option<nat>, s: Stream<T>) {
    && n <= |hs| && (open.Some? ==> open.value < n)
    && s.lastPartialAt == if open.Some? && open.value < n then LastDue(cfg, hs, open.value, n) else 0.0
  }

  /** One block, seen from the segments. */
  lemma {:induction false} HearCases<T>(
      cfg: Config, blocks: seq<T>, hs: seq<Heard>, n: nat, segs: seq<Segment>, open: Option<nat>, s: Stream<T>)
    requires |blocks| == |hs| && n < |hs| && Matches(blocks, hs, n, segs, open, s)
    ensures var o, at := Open(s, blocks[n], hs[n]), OpenAt(hs, n, open);
            && o.sent == s.sent && o.lastPartialAt == s.lastPartialAt && ResetAt(segs) <= n && (at.Some? ==> ResetAt(segs) <= at.value <= n)
            && o.buffer == OpenAudio(blocks, hs, ResetAt(segs), at, n + 1) && (at.Some? ==> o.buffer != [])
            && Hear(cfg, s, blocks[n], hs[n]) == (if at.None? then o
                 else if ClosesNow(cfg, hs, n, open) then Reset(EmitFinal(o)) else MaybePartial(cfg, o, hs[n]))
  {
    OpenMatches(blocks, hs, n, segs, open, s);
    hide AreFinalsOf, Finals, MaybePartial, EmitFinal, Reset;
  }

  lemma {:induction false} DueLaw<T>(cfg: Config, blocks: seq<T>, hs: seq<Heard>, n: nat)
    returns (segs: seq<Segment>, open: Option<nat>)
    requires |blocks| == |hs| && n <= |hs|
    ensures Segmentation(cfg, hs, n, segs, open)
    ensures Matches(blocks, hs, n, segs, open, HearAll(cfg, Fresh(), blocks, hs, n))
    ensures DueSince(cfg, hs, n, open, HearAll(cfg, Fresh(), blocks, hs, n))
  {
    hide Segmentation, Matches, Hear, Fresh, DueSince, ClosesNow, OpenAt;
    if n == 0 {
      segs, open := [], None;
      NoBlocks(cfg, blocks, hs);
      NothingDue<T>(cfg, hs);
    } else {
      var segs1, open1 := DueLaw(cfg, blocks, hs, n - 1);
      var s := HearAll(cfg, Fresh(), blocks, hs, n - 1);
      segs, open := NextBlock(cfg, blocks, hs, n - 1, segs1, open1, s);
      DueStep(cfg, blocks, hs, n - 1, segs1, open1, s);
    }
  }

  lemma {:induction false} NothingDue<T>(cfg: Config, hs: seq<Heard>)
    ensures DueSince<T>(cfg, hs, 0, None, Fresh())
  {
  }

  lemma {:induction false} DueStep<T>(
      cfg: Config, blocks: seq<T>, hs: seq<Heard>, n: nat, segs: seq<Segment>, open: Option<nat>, s: Stream<T>)
    requires |blocks| == |hs| && n < |hs| && Matches(blocks, hs, n, segs, open, s) && DueSince(cfg, hs, n, open, s)
    ensures DueSince(cfg, hs, n + 1, if ClosesNow(cfg, hs, n, open) then None else OpenAt(hs, n, open), Hear(cfg, s, blocks[n], hs[n]))
  {
    HearCases(cfg, blocks, hs, n, segs, open, s);
    hide Matches, Open, Hear, OpenAudio, CapReached, ClosesNow;
    var at := OpenAt(hs, n, open);
    if at.Some? && !ClosesNow(cfg, hs, n, open) {
      LastDueStep(cfg, hs, at.value, n);
      assert s.lastPartialAt == LastDue(cfg, hs, at.value, n);
    }
  }

  lemma {:induction false} LastDueStep(cfg: Config, hs: seq<Heard>, from: nat, n: nat)
    requires from <= n < |hs|
    ensures LastDue(cfg, hs, from, n + 1) == if IsDue(cfg, hs, from, n) then hs[n].partialClock else LastDue(cfg, hs, from, n)
    ensures LastDue(cfg, hs, n, n) == 0.0
  {
  }

  /**
    Exactly when a partial is sent, in every run and with every block: a segment is open that neither an end
    nor the cap closes there, the interval has passed since its last due block, and it has lasted at least
    eight blocks (a quarter of a second). The partial has all of the segment's audio so far.
   */
  lemma {:induction false} PartialsExactly<T>(cfg: Config, blocks: seq<T>, hs: seq<Heard>, m: nat)
    returns (segs: seq<Segment>, open: Option<nat>)
    requires |blocks| == |hs| && m < |hs|
    ensures Segmentation(cfg, hs, m + 1, segs, open) && ResetAt(segs) <= m + 1 && (open.Some? ==> ResetAt(segs) <= open.value <= m)
    ensures var before, after := HearAll(cfg, Fresh(), blocks, hs, m).sent, HearAll(cfg, Fresh(), blocks, hs, m + 1).sent;
            forall a :: after == before + [Partial(a)] <==>
              && open.Some? && IsDue(cfg, hs, open.value, m)
              && a == OpenAudio(blocks, hs, ResetAt(segs), open, m + 1) && |a| >= 8
  {
    hide Segmentation, Matches, Hear, Fresh, DueSince, ClosesNow, OpenAt, OpenAudio, IsDue;
    var segs1, open1 := DueLaw(cfg, blocks, hs, m);
    var s := HearAll(cfg, Fresh(), blocks, hs, m);
    segs, open := NextBlock(cfg, blocks, hs, m, segs1, open1, s);
    PartialStep(cfg, blocks, hs, m, segs1, open1, s);
    ResetInTime(blocks, hs, m + 1, segs, open, Hear(cfg, s, blocks[m], hs[m]));
    OpenInTime(blocks, hs, m + 1, segs, open, Hear(cfg, s, blocks[m], hs[m]));
  }

  lemma {:induction false} OpenInTime<T>(
      blocks: seq<T>, hs: seq<Heard>, n: nat, segs: seq<Segment>, open: Option<nat>, s: Stream<T>)
    requires |blocks| == |hs| && n <= |hs| && Matches(blocks, hs, n, segs, open, s)
    ensures open.Some? ==> ResetAt(segs) <= open.value < n
  {
  }

  lemma {:induction false} PartialStep<T>(
      cfg: Config, blocks: seq<T>, hs: seq<Heard>, n: nat, segs: seq<Segment>, open: Option<nat>, s: Stream<T>)
    requires |blocks| == |hs| && n < |hs| && Matches(blocks, hs, n, segs, open, s) && DueSince(cfg, hs, n, open, s)
    ensures ResetAt(segs) <= n && (OpenAt(hs, n, open).Some? ==> ResetAt(segs) <= OpenAt(hs, n, open).value <= n)
    ensures forall a :: Hear(cfg, s, blocks[n], hs[n]).sent == s.sent + [Partial(a)] <==>
              && OpenAt(hs, n, open).Some? && !ClosesNow(cfg, hs, n, open) && IsDue(cfg, hs, OpenAt(hs, n, open).value, n)
              && a == OpenAudio(blocks, hs, ResetAt(segs), OpenAt(hs, n, open), n + 1) && |a| >= 8
  {
    HearCases(cfg, blocks, hs, n, segs, open, s);
    hide Matches, Open, Hear, OpenAudio, CapReached, ClosesNow, DurationMs;
    var o, sent := Open(s, blocks[n], hs[n]), Hear(cfg, s, blocks[n], hs[n]).sent;
    forall a
      ensures s.sent + [Partial(a)] != s.sent
      ensures s.sent + [Partial(a)] == s.sent + [Partial(o.buffer)] <==> a == o.buffer
      ensures s.sent + [Partial(a)] != s.sent + [Final(o.buffer, DurationMs(VAD_CHUNK_SAMPLES * |o.buffer|))]
    {
      assert (s.sent + [Partial(a)])[|s.sent|] == Partial(a);
      assert (s.sent + [Partial(o.buffer)])[|s.sent|] == Partial(o.buffer);
    }
  }

  /** The cap, and not an end, closes the segment that is open when this block is handled. */
  predicate CutByCap<T>(cfg: Config, s: Stream<T>, h: Heard) {
    s.startedAt.Some? && !h.end && CapReached(cfg, s.startedAt.value, h)
  }

  lemma {:induction false} CutResets<T>(cfg: Config, s: Stream<T>, block: T, h: Heard)
    requires CutByCap(cfg, s, h)
    ensures Hear(cfg, s, block, h).buffer == [] && Hear(cfg, s, block, h).startedAt.None?
    ensures Finals(Hear(cfg, s, block, h).sent) == Finals(s.sent) + [Final(s.buffer + [block], 32 * (|s.buffer| + 1))]
  {
    BlocksLast32Ms(|s.buffer| + 1);
    FinalsSnoc(s.sent, Final(s.buffer + [block], 32 * (|s.buffer| + 1)));
    hide Finals, DurationMs;
  }

  lemma {:induction false} SilenceKeeps<T>(cfg: Config, s: Stream<T>, block: T, h: Heard)
    requires s.startedAt.None? && !h.start && !h.end
    ensures Hear(cfg, s, block, h) == s
  {
  }

  /** Nothing but silence after the cut, so nothing is buffered. */
  lemma {:induction false} SilentSince<T>(cfg: Config, blocks: seq<T>, hs: seq<Heard>, i: nat, j: nat)
    requires |blocks| == |hs| && i < j <= |hs| && CutByCap(cfg, HearAll(cfg, Fresh(), blocks, hs, i), hs[i])
    requires forall m | i < m < j :: !hs[m].start && !hs[m].end
    ensures HearAll(cfg, Fresh(), blocks, hs, j) == HearAll(cfg, Fresh(), blocks, hs, i + 1)
    ensures HearAll(cfg, Fresh(), blocks, hs, j).buffer == [] && HearAll(cfg, Fresh(), blocks, hs, j).startedAt.None?
    decreases j
  {
    hide Hear, CutByCap;
    if j == i + 1 {
      CutResets(cfg, HearAll(cfg, Fresh(), blocks, hs, i), blocks[i], hs[i]);
    } else {
      SilentSince(cfg, blocks, hs, i, j - 1);
      SilenceKeeps(cfg, HearAll(cfg, Fresh(), blocks, hs, j - 1), blocks[j - 1], hs[j - 1]);
    }
  }

  /** The final number `c` begins with `block`; as long as it has not been sent, the buffer does. */
  ghost predicate BeginsWith<T>(s: Stream<T>, c: nat, block: T) {
    if |Finals(s.sent)| <= c then |Finals(s.sent)| == c && s.buffer != [] && s.buffer[0] == block
    else Finals(s.sent)[c].audio != [] && Finals(s.sent)[c].audio[0] == block
  }

  lemma {:induction false} StillBeginsWith<T>(cfg: Config, s: Stream<T>, c: nat, block: T, next: T, h: Heard)
    requires BeginsWith(s, c, block)
    ensures BeginsWith(Hear(cfg, s, next, h), c, block)
  {
    hide Finals, DurationMs;
    var o := Open(s, next, h);
    FinalsSnoc(o.sent, Final(o.buffer, DurationMs(VAD_CHUNK_SAMPLES * |o.buffer|)));
    FinalsSnoc(o.sent, Partial(o.buffer));
  }

  /**
    If the cap cuts a segment with block `i` and the next thing heard is an end, with block `j`, then in
    every continuation the next final begins with block `j`, whatever lies between it and the next start.
   */
  lemma {:induction false} StrayEndOpensNextFinal<T>(cfg: Config, blocks: seq<T>, hs: seq<Heard>, i: nat, j: nat, n: nat)
    requires |blocks| == |hs| && i < j < n <= |hs| && CutByCap(cfg, HearAll(cfg, Fresh(), blocks, hs, i), hs[i])
    requires forall m | i < m < j :: !hs[m].start && !hs[m].end
    requires hs[j].end && !hs[j].start
    ensures BeginsWith(HearAll(cfg, Fresh(), blocks, hs, n), |Finals(HearAll(cfg, Fresh(), blocks, hs, i + 1).sent)|, blocks[j])
    decreases n
  {
    var c := |Finals(HearAll(cfg, Fresh(), blocks, hs, i + 1).sent)|;
    if n == j + 1 {
      SilentSince(cfg, blocks, hs, i, j);
      hide Finals, CapReached;
    } else {
      hide Hear, CutByCap, BeginsWith, Finals;
      StrayEndOpensNextFinal(cfg, blocks, hs, i, j, n - 1);
      StillBeginsWith(cfg, HearAll(cfg, Fresh(), blocks, hs, n - 1), c, blocks[j], blocks[n - 1], hs[n - 1]);
    }
  }

  /** A start, silence when the cap is reached, the end that comes too late, and then a start and an end. */
  function LateEnd(): seq<Heard> {
    [Heard(true, false, 1.0, 1.0, 1.0), Heard(false, false, 31.0, 31.0, 31.0), Heard(false, true, 31.1, 31.1, 31.1),
     Heard(true, false, 31.2, 31.2, 31.2), Heard(false, true, 31.3, 31.3, 31.3)]
  }

  lemma {:induction false} LateEndSegments(cfg: Config)
    requires cfg.maxSegmentSec == 30.0
    ensures Segmentation(cfg, LateEnd(), 5, [Segment(0, 0, 1), Segment(2, 3, 4)], None)
  {
    var g, h := Segment(0, 0, 1), Segment(2, 3, 4);
    assert IsSegment(cfg, LateEnd(), g) && IsSegment(cfg, LateEnd(), h);
    TwoSegments(cfg, LateEnd(), g, h);
  }

  lemma {:induction false} LateEndAudio<T>(a: T, b: T, c: T, d: T, e: T)
    ensures var blocks, hs := [a, b, c, d, e], LateEnd();
            Audio(blocks, hs, Segment(0, 0, 1)) == [a, b] && Audio(blocks, hs, Segment(2, 3, 4)) == [c, d, e]
  {
    var blocks, hs := [a, b, c, d, e], LateEnd();
    assert Strays(blocks, hs, 0, 0) == [] && Strays(blocks, hs, 2, 2) == [];
    assert Strays(blocks, hs, 2, 3) == [c];
  }

  /** For example, the late end's block opens the second final. */
  lemma {:induction false} StrayEndAfterCap<T>(cfg: Config, a: T, b: T, c: T, d: T, e: T)
    requires cfg.maxSegmentSec == 30.0
    ensures Finals(HearAll(cfg, Fresh(), [a, b, c, d, e], LateEnd(), 5).sent) == [Final([a, b], 64), Final([c, d, e], 96)]
  {
    var blocks := [a, b, c, d, e];
    assert |LateEnd()| == 5;
    hide LateEnd, Segmentation, Audio, HearAll, Finals;
    var segs, open := FinalsAreSegments(cfg, blocks, LateEnd(), 5);
    LateEndSegments(cfg);
    SegmentationIsUnique(cfg, LateEnd(), 5, segs, open, [Segment(0, 0, 1), Segment(2, 3, 4)], None);
    LateEndAudio(a, b, c, d, e);
  }

  lemma {:induction false} TwoSegments(cfg: Config, hs: seq<Heard>, g: Segment, h: Segment)
    requires IsSegment(cfg, hs, g) && IsSegment(cfg, hs, h) && g.reset == 0 && h.reset == g.to + 1 && g.to < h.to == |hs| - 1
    ensures Segmentation(cfg, hs, |hs|, [g, h], None)
  {
    hide IsSegment;
    var segs := [g, h];
    assert segs[..0] == [] && segs[..1] == [g];
  }
}
